/** The middleware engine: scripts run in order over the request, with an audit record for each. */
module Middleware {
  import opened Wrappers
  import opened RequestBody

  datatype Input = Input(body: Json, headers: map<string, string>)

  /** What running a script amounts to: any value, an error, or a panic of the task that ran it. */
  datatype ScriptOutcome = Returned(value: Json) | ScriptError(message: string) | Panicked

  datatype Output =
    | Continue(body: Option<Json>, headers: Option<map<string, string>>, bodyChanged: bool)
    | Block(status: nat, message: string)
    | Invalid(message: string)

  /** The `get` of a JSON value: only objects have fields. */
  function Field(v: Json, name: string): Option<Json> {
    if v.Object? && name in v.fields then Some(v.fields[name]) else None
  }

  /** A JSON object of strings as a header map; anything else does not convert. */
  function AsHeaders(v: Json): Option<map<string, string>> {
    if v.Object? && forall k :: k in v.fields ==> v.fields[k].Text? then
      Some(map k | k in v.fields :: v.fields[k].text)
    else None
  }

  /** `as_u64().unwrap_or(403) as u16` */
  function BlockCode(v: Json): nat {
    var code := Field(v, "status_code");
    if code.Some? && code.value.Number? && 0 <= code.value.value < 0x1_0000_0000_0000_0000 then
      code.value.value % 0x1_0000
    else 403
  }

  /** parse_result */
  function ParseResult(input: Input, v: Json): Output {
    var action := Field(v, "action");
    if action.None? || !action.value.Text? then Invalid("missing 'action' in script result")
    else if action.value.text == "continue" then
      var newBody, newHeaders := Field(v, "body"), Field(v, "headers");
      if newBody.Some? && newBody.value != input.body then Continue(newBody, None, true)
      else if newHeaders.Some? && AsHeaders(newHeaders.value).Some? && AsHeaders(newHeaders.value).value != map[] then
        Continue(None, AsHeaders(newHeaders.value), false)
      else Continue(None, None, false)
    else if action.value.text == "block" then
      var message := Field(v, "message");
      Block(BlockCode(v),
            if message.Some? && message.value.Text? then message.value.text else "Request blocked by middleware")
    else Invalid("invalid action in script result")
  }

  /** A configured script; the request context and the configuration are part of the script function. */
  datatype Config = Config(id: nat, enabled: bool, failOpen: bool, script: Input -> ScriptOutcome)

  datatype Status = Success | Blocked | Errored

  /** A row of middleware_runs. */
  datatype Record = Record(config: nat, status: Status, blocks: bool, bodyChanged: bool)

  datatype Failure = Failure(message: string, status: Option<nat>)

  datatype PhaseResult = Passed(input: Input) | Stopped(failure: Failure)

  /** What one script does: its record (none after a panic), the input it leaves, and whether the phase stops. */
  datatype Step = Step(record: Option<Record>, next: Input, stop: Option<Failure>)

  function ErrorStep(c: Config, input: Input, message: string): Step {
    Step(Some(Record(c.id, Errored, !c.failOpen, false)), input,
         if c.failOpen then None else Some(Failure("Middleware error (fail_closed): " + message, None)))
  }

  function StepOf(c: Config, input: Input): (step: Step)
    ensures step.record.None? ==> step.stop.Some?
  {
    match c.script(input)
    case Panicked => Step(None, input, Some(Failure("script task panicked", None)))
    case ScriptError(message) => ErrorStep(c, input, message)
    case Returned(v) =>
      match ParseResult(input, v)
      case Invalid(message) => ErrorStep(c, input, message)
      case Block(status, message) =>
        Step(Some(Record(c.id, Blocked, true, false)), input, Some(Failure(message, Some(status))))
      case Continue(body, headers, changed) =>
        Step(Some(Record(c.id, Success, false, changed)),
             Input(if body.Some? then body.value else input.body,
                   if headers.Some? then headers.value else input.headers),
             None)
  }

  /** The ordered fold of the scripts: the result, the records, and the inputs that the scripts saw and left. */
  datatype PhaseRun = PhaseRun(result: PhaseResult, records: seq<Record>, trail: seq<Input>)

  function Phase(cs: seq<Config>, input: Input): (run: PhaseRun)
    ensures |run.trail| == |run.records| + 1 && run.trail[0] == input
  {
    if cs == [] then PhaseRun(Passed(input), [], [input])
    else if !cs[0].enabled then Phase(cs[1..], input)
    else
      var step := StepOf(cs[0], input);
      if step.record.None? then PhaseRun(Stopped(step.stop.value), [], [input])
      else if step.stop.Some? then PhaseRun(Stopped(step.stop.value), [step.record.value], [input, step.next])
      else
        var rest := Phase(cs[1..], step.next);
        PhaseRun(rest.result, [step.record.value] + rest.records, [input] + rest.trail)
  }

  class MiddlewareEngine {
    var audit: seq<Record>

    constructor ()
      ensures audit == []
    {
      audit := [];
    }

    /** `configs` is None when they cannot be loaded. */
    method RunPhase(configs: Option<seq<Config>>, input: Input) returns (r: PhaseResult)
      modifies this
      ensures configs.None? ==> r == Stopped(Failure("failed to load configs", None)) && audit == old(audit)
      ensures configs.Some? ==>
                var run := Phase(configs.value, input);
                r == run.result && audit == old(audit) + run.records
    {
      hide StepOf;
      if configs.None? {
        return Stopped(Failure("failed to load configs", None));
      }
      var cs := configs.value;
      var current := input;
      ghost var issued: seq<Record> := [];
      assert cs[0..] == cs;
      for n := 0 to |cs|
        invariant audit == old(audit) + issued
        invariant var rest := Phase(cs[n..], current);
                  rest.result == Phase(cs, input).result && issued + rest.records == Phase(cs, input).records
      {
        assert cs[n..][0] == cs[n] && cs[n..][1..] == cs[n + 1..];
        if !cs[n].enabled {
          continue;
        }
        var step := StepOf(cs[n], current);
        if step.record.Some? {
          audit := audit + [step.record.value];
          issued := issued + [step.record.value];
        }
        if step.stop.Some? {
          return Stopped(step.stop.value);
        }
        current := step.next;
      }
      return Passed(current);
    }
  }

  // ----- Properties of a phase -----

  function Enabled(cs: seq<Config>): seq<Config> {
    if cs == [] then [] else (if cs[0].enabled then [cs[0]] else []) + Enabled(cs[1..])
  }

  /** What a parsed result says about the body and the headers. */
  lemma ParseMarks(input: Input, v: Json)
    ensures var out := ParseResult(input, v);
            out.Continue? ==>
              && (out.bodyChanged <==> out.body.Some?)
              && (out.body.Some? ==> out.body.value != input.body && out.headers.None?)
  {
  }

  /** A record says its script changed the body exactly if the script left another body than it saw. */
  lemma StepMarksChange(c: Config, input: Input)
    ensures var step := StepOf(c, input);
            && (step.record.Some? ==>
                  && step.record.value.config == c.id
                  && (step.record.value.bodyChanged <==> step.next.body != input.body)
                  && (step.record.value.blocks <==> step.stop.Some?)
                  && (step.record.value.status == Errored ==> step.next == input))
            && (step.record.None? <==> c.script(input) == Panicked)
            && (step.stop.Some? ==> step.next == input)
            && (step.next.headers != input.headers ==> step.next.body == input.body)
  {
    hide ParseResult;
    if c.script(input).Returned? { ParseMarks(input, c.script(input).value); }
  }

  /** Each script saw what the one before it left, and its record tells what it did: it is marked exactly if the
      script changed the body, and then the script did not change the headers. */
  ghost predicate Follows(es: seq<Config>, records: seq<Record>, trail: seq<Input>) {
    && |records| <= |es| && |trail| == |records| + 1
    && forall j :: 0 <= j < |records| ==>
         && StepOf(es[j], trail[j]).record == Some(records[j])
         && StepOf(es[j], trail[j]).next == trail[j + 1]
         && records[j].config == es[j].id
         && (records[j].bodyChanged <==> trail[j + 1].body != trail[j].body)
         && (trail[j + 1].headers != trail[j].headers ==> !records[j].bodyChanged)
  }

  /** A phase goes on to its last script unless the last one run blocks it or the next one panics. */
  ghost predicate EndsRight(es: seq<Config>, run: PhaseRun)
    requires |run.records| <= |es| && |run.trail| == |run.records| + 1
  {
    var n := |run.records|;
    && (forall j :: 0 <= j < n - 1 ==> !run.records[j].blocks)
    && (run.result.Passed? ==>
          && n == |es| && run.result.input == run.trail[n]
          && (n > 0 ==> !run.records[n - 1].blocks))
    && (run.result.Stopped? ==>
          || (n > 0 && run.records[n - 1].blocks)
          || (n < |es| && es[n].script(run.trail[n]) == Panicked && (n > 0 ==> !run.records[n - 1].blocks)))
  }

  /** The fold runs the enabled scripts in order, each on what the previous one left, up to the first that stops
      it, with one record per script that ran to its end. */
  ghost predicate Faithful(cs: seq<Config>, run: PhaseRun) {
    Follows(Enabled(cs), run.records, run.trail) && EndsRight(Enabled(cs), run)
  }

  lemma FollowsCons(c: Config, es: seq<Config>, input: Input, records: seq<Record>, trail: seq<Input>)
    requires Follows(es, records, trail) && trail[0] == StepOf(c, input).next && StepOf(c, input).record.Some?
    ensures Follows([c] + es, [StepOf(c, input).record.value] + records, [input] + trail)
  {
    hide StepOf;
    StepMarksChange(c, input);
  }

  lemma EndsCons(c: Config, es: seq<Config>, input: Input, record: Record, rest: PhaseRun)
    requires |rest.records| <= |es| && |rest.trail| == |rest.records| + 1
    requires EndsRight(es, rest) && !record.blocks
    ensures EndsRight([c] + es, PhaseRun(rest.result, [record] + rest.records, [input] + rest.trail))
  {
  }

  lemma FaithfulParts(cs: seq<Config>, run: PhaseRun)
    requires Faithful(cs, run)
    ensures |run.records| <= |Enabled(cs)| && |run.trail| == |run.records| + 1
  {
  }

  lemma FaithfulCons(c: Config, cs: seq<Config>, input: Input, rest: PhaseRun)
    requires c.enabled && Faithful(cs, rest) && rest.trail[0] == StepOf(c, input).next
    requires StepOf(c, input).record.Some? && StepOf(c, input).stop.None?
    ensures Faithful([c] + cs,
                     PhaseRun(rest.result, [StepOf(c, input).record.value] + rest.records, [input] + rest.trail))
  {
    hide StepOf, Follows, EndsRight;
    StepMarksChange(c, input);
    assert ([c] + cs)[1..] == cs;
    assert Enabled([c] + cs) == [c] + Enabled(cs);
    FaithfulParts(cs, rest);
    FollowsCons(c, Enabled(cs), input, rest.records, rest.trail);
    EndsCons(c, Enabled(cs), input, StepOf(c, input).record.value, rest);
  }

  lemma FaithfulSkip(c: Config, cs: seq<Config>, run: PhaseRun)
    requires !c.enabled && Faithful(cs, run)
    ensures Faithful([c] + cs, run)
  {
    assert ([c] + cs)[1..] == cs;
    assert Enabled([c] + cs) == Enabled(cs);
  }

  lemma FaithfulStop(c: Config, cs: seq<Config>, input: Input)
    requires c.enabled && (StepOf(c, input).record.None? || StepOf(c, input).stop.Some?)
    ensures Faithful([c] + cs, Phase([c] + cs, input))
  {
    StepMarksChange(c, input);
    assert ([c] + cs)[1..] == cs;
    assert Enabled([c] + cs) == [c] + Enabled(cs);
  }

  lemma {:induction false} PhaseIsFaithful(cs: seq<Config>, input: Input)
    ensures Faithful(cs, Phase(cs, input))
  {
    if cs == [] {
    } else {
      var c, rest := cs[0], cs[1..];
      assert cs == [c] + rest;
      if !c.enabled {
        PhaseIsFaithful(rest, input);
        FaithfulSkip(c, rest, Phase(rest, input));
      } else if StepOf(c, input).record.Some? && StepOf(c, input).stop.None? {
        PhaseIsFaithful(rest, StepOf(c, input).next);
        FaithfulCons(c, rest, input, Phase(rest, StepOf(c, input).next));
      } else {
        FaithfulStop(c, rest, input);
      }
    }
  }

  /** The input that reaches script `i`, if the phase gets that far. */
  function Reaching(cs: seq<Config>, input: Input, i: nat): Option<Input>
    requires i <= |cs|
  {
    if i == 0 then Some(input)
    else if !cs[0].enabled then Reaching(cs[1..], input, i - 1)
    else
      var step := StepOf(cs[0], input);
      if step.stop.Some? then None else Reaching(cs[1..], step.next, i - 1)
  }

  // ----- The response to a blocked request -----

  /** middleware_block_response: the script's status if it is one, else 400. */
  function ResponseStatus(f: Failure): nat {
    if f.status.Some? && 100 <= f.status.value <= 599 then f.status.value else 400
  }

  // ----- Each script that the phase reaches -----

  /** The phase goes on from a script that it reaches as a phase of its own, after the records of those before. */
  lemma {:induction false} PhaseFrom(cs: seq<Config>, input: Input, i: nat, x: Input)
    requires i <= |cs| && Reaching(cs, input, i) == Some(x)
    ensures Phase(cs, input).result == Phase(cs[i..], x).result
    ensures |Phase(cs, input).records| == |Enabled(cs[..i])| + |Phase(cs[i..], x).records|
    ensures Phase(cs, input).records[|Enabled(cs[..i])|..] == Phase(cs[i..], x).records
    ensures i < |cs| ==> Reaching(cs, input, i + 1) == Reaching(cs[i..], x, 1)
  {
    hide StepOf;
    if i == 0 {
      assert cs[0..] == cs;
    } else {
      assert cs[1..][i - 1..] == cs[i..] && cs[..i][1..] == cs[1..][..i - 1];
      var step := StepOf(cs[0], input);
      if cs[0].enabled {
        PhaseFrom(cs[1..], step.next, i - 1, x);
        assert Phase(cs, input).records == [step.record.value] + Phase(cs[1..], step.next).records;
      } else {
        PhaseFrom(cs[1..], input, i - 1, x);
      }
    }
  }

  /** What the phase makes of its next script. */
  lemma FirstScript(cs: seq<Config>, x: Input)
    requires cs != [] && cs[0].enabled
    ensures var run, step := Phase(cs, x), StepOf(cs[0], x);
            && (step.record.Some? ==> run.records != [] && run.records[0] == step.record.value)
            && (step.record.None? ==> run.records == [])
            && (step.stop.Some? ==> run.result == Stopped(step.stop.value) && |run.records| <= 1)
            && Reaching(cs, x, 1) == if step.stop.Some? then None else Some(step.next)
  {
    hide StepOf;
  }

  lemma ReachedScript(cs: seq<Config>, input: Input, i: nat, x: Input)
    requires i < |cs| && cs[i].enabled && Reaching(cs, input, i) == Some(x)
    ensures var run, step, place := Phase(cs, input), StepOf(cs[i], x), |Enabled(cs[..i])|;
            && place <= |run.records|
            && (step.record.Some? ==> place < |run.records| && run.records[place] == step.record.value)
            && (step.record.None? ==> place == |run.records|)
            && (step.stop.Some? ==> run.result == Stopped(step.stop.value) && |run.records| <= place + 1)
            && Reaching(cs, input, i + 1) == if step.stop.Some? then None else Some(step.next)
  {
    hide StepOf, Phase, Reaching, Enabled;
    PhaseFrom(cs, input, i, x);
    FirstScript(cs[i..], x);
    var records, place := Phase(cs, input).records, |Enabled(cs[..i])|;
    assert records[place..] != [] ==> records[place..][0] == records[place];
  }

  /** A script that fails, be it with an error or with a result whose action is missing, not text or unknown, stops the
      phase if it is fail-closed, and the request is answered with 400; a fail-open one leaves the input as it was and
      the phase goes on. Its record says that it failed, and whether it blocks. */
  lemma {:induction false} FailingScript(cs: seq<Config>, input: Input, i: nat, x: Input)
    requires i < |cs| && cs[i].enabled && Reaching(cs, input, i) == Some(x)
    requires match cs[i].script(x)
             case ScriptError(_) => true
             case Panicked => false
             case Returned(v) =>
               var action := Field(v, "action");
               action.None? || !action.value.Text? || (action.value.text != "continue" && action.value.text != "block")
    ensures var run, place := Phase(cs, input), |Enabled(cs[..i])|;
            && place < |run.records| && run.records[place] == Record(cs[i].id, Errored, !cs[i].failOpen, false)
            && (!cs[i].failOpen ==>
                  && run.result.Stopped? && run.result.failure.status == None && |run.records| == place + 1
                  && ResponseStatus(run.result.failure) == 400)
            && (cs[i].failOpen ==> Reaching(cs, input, i + 1) == Some(x))
  {
    hide Phase, Reaching, Enabled;
    ReachedScript(cs, input, i, x);
  }

  /** A panic stops the phase, whatever the failure mode, and leaves no record. */
  lemma {:induction false} PanickingScript(cs: seq<Config>, input: Input, i: nat, x: Input)
    requires i < |cs| && cs[i].enabled && Reaching(cs, input, i) == Some(x) && cs[i].script(x) == Panicked
    ensures var run := Phase(cs, input);
            && run.result.Stopped? && |run.records| == |Enabled(cs[..i])|
            && ResponseStatus(run.result.failure) == 400
  {
    hide Phase, Reaching, Enabled;
    ReachedScript(cs, input, i, x);
  }

  /** A script that blocks stops the phase with its own message, or the default one, and the request is answered with a
      valid status: the script's, cut to 16 bits, if that is one, else 400; and 403 if the script gives no status or
      none that is an unsigned 64-bit number. */
  lemma {:induction false} BlockingScript(cs: seq<Config>, input: Input, i: nat, x: Input, v: Json)
    requires i < |cs| && cs[i].enabled && Reaching(cs, input, i) == Some(x)
    requires cs[i].script(x) == Returned(v) && Field(v, "action") == Some(Text("block"))
    ensures var run, place := Phase(cs, input), |Enabled(cs[..i])|;
            var message, code := Field(v, "message"), Field(v, "status_code");
            && |run.records| == place + 1 && run.records[place] == Record(cs[i].id, Blocked, true, false)
            && run.result.Stopped?
            && run.result.failure.message == (if message.Some? && message.value.Text? then message.value.text
                                              else "Request blocked by middleware")
            && var sent := ResponseStatus(run.result.failure);
               && 100 <= sent <= 599
               && if code.Some? && code.value.Number? && 0 <= code.value.value < 0x1_0000_0000_0000_0000 then
                    var cut := code.value.value % 0x1_0000; sent == if 100 <= cut <= 599 then cut else 400
                  else sent == 403
  {
    hide Phase, Reaching, Enabled;
    ReachedScript(cs, input, i, x);
  }

  /** The header map that a JSON value stands for: an object with a text for every name, and at least one. */
  predicate MapsTo(v: Json, headers: map<string, string>) {
    && v.Object? && v.fields != map[] && headers.Keys == v.fields.Keys
    && forall k :: k in v.fields ==> v.fields[k] == Text(headers[k])
  }

  lemma MapsToOnly(v: Json, headers: map<string, string>)
    requires MapsTo(v, headers)
    ensures AsHeaders(v) == Some(headers) && headers != map[]
  {
    forall k | k in v.fields ensures v.fields[k].Text? { assert v.fields[k] == Text(headers[k]); }
    var read := AsHeaders(v).value;
    assert read.Keys == headers.Keys && forall k :: k in headers ==> read[k] == headers[k];
    assert read == headers;
    assert headers.Keys != {};
  }

  /** A script that continues hands on the body it returned, if any, and the headers it returned only if the body is
      the one it saw and they are a non-empty object of texts. */
  lemma {:induction false} ContinuingScript(cs: seq<Config>, input: Input, i: nat, x: Input, v: Json)
    requires i < |cs| && cs[i].enabled && Reaching(cs, input, i) == Some(x)
    requires cs[i].script(x) == Returned(v) && Field(v, "action") == Some(Text("continue"))
    ensures var run, place, left := Phase(cs, input), |Enabled(cs[..i])|, Reaching(cs, input, i + 1);
            var body, headers := Field(v, "body"), Field(v, "headers");
            && left.Some? && left.value.body == (if body.Some? then body.value else x.body)
            && (forall h :: left.value.body == x.body && headers.Some? && MapsTo(headers.value, h) ==>
                              left.value.headers == h)
            && (left.value.body != x.body || headers.None? || (forall h :: !MapsTo(headers.value, h)) ==>
                  left.value.headers == x.headers)
            && place < |run.records|
            && run.records[place] == Record(cs[i].id, Success, false, left.value.body != x.body)
  {
    hide Phase, Reaching, Enabled;
    ReachedScript(cs, input, i, x);
    var headers := Field(v, "headers");
    if headers.Some? {
      var read := AsHeaders(headers.value);
      forall h | MapsTo(headers.value, h) ensures read == Some(h) && h != map[] {
        MapsToOnly(headers.value, h);
      }
      if read.Some? && read.value != map[] {
        assert MapsTo(headers.value, read.value);
      }
    }
  }

  /** A phase whose last script is left behind passes what that one handed on. */
  lemma {:induction false} EndOfPhase(cs: seq<Config>, input: Input, x: Input)
    ensures Reaching(cs, input, |cs|) == Some(x) <==> Phase(cs, input).result == Passed(x)
  {
    if cs == [] {
    } else {
      var step := StepOf(cs[0], input);
      if !cs[0].enabled {
        EndOfPhase(cs[1..], input, x);
      } else if step.stop.None? {
        EndOfPhase(cs[1..], step.next, x);
      }
    }
  }

  // ----- Scripts that make no difference -----

  function Without(cs: seq<Config>, i: nat): seq<Config>
    requires i < |cs|
  {
    cs[..i] + cs[i + 1..]
  }

  /** Scripts that make no difference where they stand: disabled ones, ones that are never reached, and fail-open
      ones that fail there. */
  predicate Harmless(cs: seq<Config>, input: Input, i: nat)
    requires i < |cs|
  {
    var seen := Reaching(cs, input, i);
    || !cs[i].enabled
    || seen.None?
    || (cs[i].failOpen && match cs[i].script(seen.value)
                          case ScriptError(_) => true
                          case Returned(v) => ParseResult(seen.value, v).Invalid?
                          case Panicked => false)
  }

  /** Erasing such a script leaves the result of the phase unchanged. */
  lemma {:induction false} ErasingFailures(cs: seq<Config>, input: Input, i: nat)
    requires i < |cs| && Harmless(cs, input, i)
    ensures Phase(Without(cs, i), input).result == Phase(cs, input).result
  {
    if i == 0 {
      assert Without(cs, 0) == cs[1..];
    } else {
      var rest := Without(cs[1..], i - 1);
      assert Without(cs, i) == [cs[0]] + rest;
      assert Without(cs, i)[1..] == rest;
      if !cs[0].enabled {
        ErasingFailures(cs[1..], input, i - 1);
      } else if StepOf(cs[0], input).stop.None? {
        ErasingFailures(cs[1..], StepOf(cs[0], input).next, i - 1);
      }
    }
  }
}
