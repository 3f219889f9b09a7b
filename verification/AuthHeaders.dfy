/** The headers of an upstream request: what is kept of the client's, and what the provider's key adds to them. */
module AuthHeaders {
  import opened Wrappers

  /** Header names are in lower case. */
  type Headers = map<string, string>

  /** The headers of a request as received; a name can occur several times. */
  type HeaderList = seq<(string, string)>

  datatype AuthType = Bearer | Anthropic | Custom(header: string, prefix: Option<string>)

  const HOP_HEADERS := {"host", "connection", "keep-alive", "transfer-encoding", "expect"}
  const DROPPED := HOP_HEADERS + {"authorization", "content-length"}

  /** The header that carries the key. */
  function AuthHeader(auth: AuthType): string {
    match auth case Bearer => "authorization" case Anthropic => "x-api-key" case Custom(header, _) => header
  }

  function Credential(auth: AuthType, secret: string): string {
    match auth
    case Bearer => "Bearer " + secret
    case Anthropic => secret
    case Custom(_, None) => secret
    case Custom(_, Some(prefix)) => prefix + " " + secret
  }

  /** from_auth_type, then with_content_type. */
  function ProviderHeaders(auth: AuthType, secret: string): Headers {
    var own := map[AuthHeader(auth) := Credential(auth, secret)];
    (if auth.Anthropic? then own["anthropic-version" := "2023-06-01"] else own)["content-type" := "application/json"]
  }

  /** What is kept of the client's headers; of several with one name, the last. */
  function Filtered(headers: HeaderList): Headers {
    if headers == [] then map[]
    else
      var before, last := Filtered(headers[..|headers| - 1]), headers[|headers| - 1];
      if last.0 in DROPPED then before else before[last.0 := last.1]
  }

  method FilterClientHeaders(headers: HeaderList) returns (filtered: Headers)
    ensures filtered == Filtered(headers)
  {
    filtered := map[];
    for n := 0 to |headers|
      invariant filtered == Filtered(headers[..n])
    {
      assert headers[..n + 1][..n] == headers[..n];
      if headers[n].0 !in DROPPED {
        filtered := filtered[headers[n].0 := headers[n].1];
      }
    }
    assert headers[..|headers|] == headers;
  }

  /** The provider's headers are added where the request has none of that name. */
  function Merged(headers: Headers, provider: Headers): Headers {
    provider + headers
  }

  method MergeHeaders(headers: Headers, provider: Headers) returns (merged: Headers)
    ensures merged == Merged(headers, provider)
  {
    merged := headers;
    var rest := provider.Keys;
    while rest != {}
      invariant rest <= provider.Keys
      invariant merged == Merged(headers, provider - rest)
      decreases rest
    {
      var name :| name in rest;
      if name !in merged {
        merged := merged[name := provider[name]];
      }
      rest := rest - {name};
    }
    assert provider - rest == provider;
  }

  /** What goes out for one key of a provider when the client sent `headers`. */
  function AttemptHeaders(auth: AuthType, secret: string, headers: HeaderList): Headers {
    Merged(Filtered(headers), ProviderHeaders(auth, secret))
  }

  /** A header is kept exactly if it is not one of the dropped names. */
  lemma {:induction false} FilteredIff(headers: HeaderList, name: string)
    ensures name in Filtered(headers) <==> name !in DROPPED && exists i :: 0 <= i < |headers| && headers[i].0 == name
  {
    if headers == [] {
    } else {
      FilteredIff(headers[..|headers| - 1], name);
      assert headers == headers[..|headers| - 1] + [headers[|headers| - 1]];
    }
  }

  /** Of several headers with one name the last is kept. */
  lemma {:induction false} FilteredValue(headers: HeaderList, name: string)
    requires name in Filtered(headers)
    ensures exists i :: 0 <= i < |headers| && headers[i] == (name, Filtered(headers)[name])
                        && forall j :: i < j < |headers| ==> headers[j].0 != name
  {
    var n := |headers| - 1;
    if headers[n].0 == name {
      assert name !in DROPPED by { FilteredIff(headers, name); }
      assert headers[n] == (name, Filtered(headers)[name]);
    } else {
      FilteredValue(headers[..n], name);
      var i :| 0 <= i < n && headers[..n][i] == (name, Filtered(headers)[name])
               && forall j :: i < j < n ==> headers[..n][j].0 != name;
      assert headers[i] == (name, Filtered(headers)[name]);
      forall j | i < j < |headers| ensures headers[j].0 != name {
        if j < n { assert headers[..n][j] == headers[j]; }
      }
    }
  }

  /** What goes out under each name: the client's last value, unless the name is one of seven that are dropped; else the
      provider's, if the name is `content-type` or one of those that the auth type calls for; else nothing. */
  lemma {:induction false} SentHeaders(auth: AuthType, secret: string, headers: HeaderList, name: string)
    ensures var sent := AttemptHeaders(auth, secret, headers);
            var dropped := {"host", "connection", "keep-alive", "transfer-encoding", "expect", "authorization",
                            "content-length"};
            if name !in dropped && exists i :: 0 <= i < |headers| && headers[i].0 == name then
              && name in sent
              && exists i :: 0 <= i < |headers| && headers[i] == (name, sent[name])
                             && forall j :: i < j < |headers| ==> headers[j].0 != name
            else if name == "content-type" then name in sent && sent[name] == "application/json"
            else
              match auth
              case Bearer =>
                && (name in sent <==> name == "authorization")
                && (name in sent ==> sent[name] == "Bearer " + secret)
              case Anthropic =>
                && (name in sent <==> name == "x-api-key" || name == "anthropic-version")
                && (name in sent ==> sent[name] == if name == "x-api-key" then secret else "2023-06-01")
              case Custom(header, prefix) =>
                && (name in sent <==> name == header)
                && (name in sent ==> sent[name] == if prefix.Some? then prefix.value + " " + secret else secret)
  {
    hide Filtered;
    FilteredIff(headers, name);
    if name in Filtered(headers) { FilteredValue(headers, name); }
  }

  /** Removing the connection headers once more changes nothing. */
  lemma FilteredTwice(headers: HeaderList)
    ensures Filtered(headers) - HOP_HEADERS == Filtered(headers)
  {
    forall name | name in Filtered(headers) ensures name !in HOP_HEADERS { FilteredIff(headers, name); }
  }

  /** The client's headers leave the one that carries the key to the provider. */
  predicate LeavesAuth(auth: AuthType, headers: HeaderList) {
    && AuthHeader(auth) != "content-type"
    && (AuthHeader(auth) in DROPPED || forall i :: 0 <= i < |headers| ==> headers[i].0 != AuthHeader(auth))
  }

  lemma SecretFromCredential(auth: AuthType, a: string, b: string)
    requires Credential(auth, a) == Credential(auth, b)
    ensures a == b
  {
    var front :=
      match auth
      case Bearer => "Bearer "
      case Anthropic => ""
      case Custom(_, prefix) => if prefix.Some? then prefix.value + " " else "";
    assert Credential(auth, a) == front + a && Credential(auth, b) == front + b;
    assert a == (front + a)[|front|..] && b == (front + b)[|front|..];
  }

  /** The value that goes out in the header that carries the key. */
  lemma AuthValue(auth: AuthType, secret: string, headers: HeaderList)
    ensures var sent, kept, name := AttemptHeaders(auth, secret, headers), Filtered(headers), AuthHeader(auth);
            && name in sent
            && sent[name] == if name in kept then kept[name]
                             else if name == "content-type" then "application/json"
                             else Credential(auth, secret)
  {
  }

  /** All other headers are the same whatever the key. */
  lemma SameElsewhere(auth: AuthType, a: string, b: string, headers: HeaderList)
    requires AuthHeader(auth) == "content-type" || AuthHeader(auth) in Filtered(headers)
    ensures AttemptHeaders(auth, a, headers) == AttemptHeaders(auth, b, headers)
  {
    if AuthHeader(auth) == "content-type" {
      assert ProviderHeaders(auth, a) == ProviderHeaders(auth, b);
    }
  }

  /** A request goes out with the credential of the key whose turn it is if the client's headers leave that header
      to the provider; otherwise the key makes no difference. */
  lemma KeyGoesOut(auth: AuthType, secret: string, headers: HeaderList)
    ensures var sent := AttemptHeaders(auth, secret, headers);
            if LeavesAuth(auth, headers) then
              AuthHeader(auth) in sent && sent[AuthHeader(auth)] == Credential(auth, secret)
            else forall other :: AttemptHeaders(auth, other, headers) == sent
  {
    hide AttemptHeaders, Filtered, Credential;
    FilteredIff(headers, AuthHeader(auth));
    if LeavesAuth(auth, headers) {
      AuthValue(auth, secret, headers);
    } else {
      forall other ensures AttemptHeaders(auth, other, headers) == AttemptHeaders(auth, secret, headers) {
        SameElsewhere(auth, other, secret, headers);
      }
    }
  }

  /** Trying two keys sends different requests if and only if the client's headers leave the key its header; with
      bearer authorization they always do. */
  lemma KeysDifferIff(auth: AuthType, a: string, b: string, headers: HeaderList)
    requires a != b
    ensures AttemptHeaders(auth, a, headers) != AttemptHeaders(auth, b, headers) <==> LeavesAuth(auth, headers)
    ensures auth.Bearer? ==> LeavesAuth(auth, headers)
  {
    hide AttemptHeaders, Filtered, Credential;
    KeyGoesOut(auth, a, headers);
    KeyGoesOut(auth, b, headers);
    if Credential(auth, a) == Credential(auth, b) { SecretFromCredential(auth, a, b); }
  }
}
