/** Request bodies and the rewriting of their `model` field. */
module RequestBody {
  import opened Wrappers

  /** JSON values; arrays, booleans, null and fractions are told apart by a tag only. */
  datatype Json = Object(fields: map<string, Json>) | Text(text: string) | Number(value: int) | Other(tag: nat)

  datatype Body = Empty | Malformed | Document(json: Json)

  /** rewrite_body_model; None for a body that is not JSON. */
  function RewriteModel(body: Body, model: string): Option<Body> {
    match body
    case Empty => Some(Empty)
    case Malformed => None
    case Document(Object(fields)) => Some(Document(Object(fields["model" := Text(model)])))
    case Document(_) => Some(body)
  }

  /** An object body that carries this model. */
  predicate CarriesModel(body: Body, model: string) {
    body.Document? && body.json.Object? ==>
      "model" in body.json.fields && body.json.fields["model"] == Text(model)
  }

  /** After rewriting, an object carries the target model and is otherwise unchanged, as is any other body; rewriting
      for the next target forgets the previous one. */
  lemma RewriteCarries(body: Body, first: string, next: string)
    requires body != Malformed
    ensures var r := RewriteModel(body, first);
            && r.Some? && CarriesModel(r.value, first)
            && RewriteModel(r.value, next) == RewriteModel(body, next)
            && if body.Document? && body.json.Object? then
                 && r.value.Document? && r.value.json.Object?
                 && "model" in r.value.json.fields && r.value.json.fields["model"] == Text(first)
                 && r.value.json.fields - {"model"} == body.json.fields - {"model"}
               else r.value == body
  {
    if body.Document? && body.json.Object? {
      var f := body.json.fields;
      assert f["model" := Text(first)]["model" := Text(next)] == f["model" := Text(next)];
    }
  }
}
