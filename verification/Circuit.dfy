/** The state machine of one backend's circuit, as a pure function of the events it sees. */
module Circuit {
  import opened Wrappers

  datatype Config = Config(threshold: nat, timeout: nat, halfOpenMaxCalls: nat)

  datatype CircuitState = Closed | Open | HalfOpen

  datatype Circuit = Circuit(state: CircuitState, failures: nat, successCount: nat, lastFailure: Option<nat>)

  const FRESH := Circuit(Closed, 0, 0, None)

  /** A health check reads the clock twice: for the transition and for its answer. */
  datatype Event = Success | Failure(at: nat) | Check(transitionAt: nat, answerAt: nat)

  /** `last.elapsed() >= timeout`, with the saturating subtraction of the clock type. */
  predicate TimedOut(config: Config, lastFailure: Option<nat>, now: nat) {
    lastFailure.Some? && (if now < lastFailure.value then 0 else now - lastFailure.value) >= config.timeout
  }

  function OnSuccess(config: Config, c: Circuit): Circuit {
    match c.state
    case Closed => c.(failures := 0)
    case HalfOpen =>
      if c.successCount + 1 >= config.halfOpenMaxCalls then c.(state := Closed, failures := 0, successCount := 0)
      else c.(successCount := c.successCount + 1)
    case Open => c
  }

  function OnFailure(config: Config, c: Circuit, now: nat): Circuit {
    match c.state
    case Closed =>
      Circuit(if c.failures + 1 >= config.threshold then Open else Closed, c.failures + 1, c.successCount, Some(now))
    case HalfOpen => c.(state := Open, lastFailure := Some(now), successCount := 0)
    case Open => c.(lastFailure := Some(now))
  }

  function Transitioned(config: Config, c: Circuit, now: nat): Circuit {
    if c.state == Open && TimedOut(config, c.lastFailure, now) then c.(state := HalfOpen, successCount := 0) else c
  }

  predicate Healthy(config: Config, c: Circuit, now: nat) {
    c.state == Open ==> TimedOut(config, c.lastFailure, now)
  }

  function Next(config: Config, c: Circuit, e: Event): Circuit {
    match e
    case Success => OnSuccess(config, c)
    case Failure(at) => OnFailure(config, c, at)
    case Check(transitionAt, _) => Transitioned(config, c, transitionAt)
  }

  /** What a health check answers. */
  predicate Answer(config: Config, c: Circuit, transitionAt: nat, answerAt: nat) {
    Healthy(config, Transitioned(config, c, transitionAt), answerAt)
  }

  datatype Trace = Start | Then(before: Trace, event: Event)

  function Run(config: Config, t: Trace): Circuit {
    match t
    case Start => FRESH
    case Then(before, e) => Next(config, Run(config, before), e)
  }

  // ----- What a trace says, without running anything -----

  function Length(t: Trace): nat {
    if t.Start? then 0 else Length(t.before) + 1
  }

  function Prefix(t: Trace, n: nat): (p: Trace)
    ensures n <= Length(t) ==> Length(p) == n
  {
    if Length(t) <= n then t else Prefix(t.before, n)
  }

  function LastFailure(t: Trace): Option<nat> {
    match t
    case Start => None
    case Then(before, e) => if e.Failure? then Some(e.at) else LastFailure(before)
  }

  /** Failures after the first `since` events with no success between them and the end. */
  function FailureRun(t: Trace, since: nat): nat {
    if Length(t) <= since || t.event.Success? then 0
    else FailureRun(t.before, since) + if t.event.Failure? then 1 else 0
  }

  function Successes(t: Trace, since: nat): nat {
    if Length(t) <= since then 0 else Successes(t.before, since) + if t.event.Success? then 1 else 0
  }

  /** A threshold of 0 acts as 1: the first failure trips the circuit, the first probe closes it. */
  function AtLeastOne(n: nat): nat {
    if n == 0 then 1 else n
  }

  /** After the first `since` events no run of failures ever reached the threshold. */
  predicate Calm(config: Config, t: Trace, since: nat) {
    Length(t) <= since || (Calm(config, t.before, since) && FailureRun(t, since) < AtLeastOne(config.threshold))
  }

  /** After the first `since` events no check came late enough. */
  predicate Shut(config: Config, t: Trace, since: nat) {
    Length(t) <= since
    || (Shut(config, t.before, since)
        && (t.event.Check? ==> !TimedOut(config, LastFailure(t.before), t.event.transitionAt)))
  }

  /** After the first `since` events nothing failed and too few requests succeeded. */
  predicate Probing(config: Config, t: Trace, since: nat) {
    Length(t) <= since
    || (Probing(config, t.before, since) && !t.event.Failure?
        && Successes(t, since) < AtLeastOne(config.halfOpenMaxCalls))
  }

  /** A division of a trace into the periods spent in each state; `since` is where the last one starts. */
  datatype Epochs = First | Later(before: Epochs, mode: CircuitState, since: nat)

  function Mode(ep: Epochs): CircuitState {
    if ep.First? then Closed else ep.mode
  }

  function Since(ep: Epochs): nat {
    if ep.First? then 0 else ep.since
  }

  predicate Lasts(config: Config, t: Trace, mode: CircuitState, since: nat) {
    match mode
    case Closed => Calm(config, t, since)
    case Open => Shut(config, t, since)
    case HalfOpen => Probing(config, t, since)
  }

  /** Event `t.event` ends the period `ep` of `t.before` and begins one in state `mode`. */
  predicate Begins(config: Config, t: Trace, ep: Epochs, mode: CircuitState)
    requires t.Then?
  {
    match mode
    case Open =>
      t.event.Failure?
      && (Mode(ep) == HalfOpen
          || (Mode(ep) == Closed && FailureRun(t, Since(ep)) == AtLeastOne(config.threshold)))
    case HalfOpen =>
      Mode(ep) == Open && t.event.Check? && TimedOut(config, LastFailure(t.before), t.event.transitionAt)
    case Closed =>
      Mode(ep) == HalfOpen && t.event.Success? && Successes(t, Since(ep)) == AtLeastOne(config.halfOpenMaxCalls)
  }

  /** The division fits the trace: every period begins with its cause and lasts to its end. */
  predicate Describes(config: Config, t: Trace, ep: Epochs)
    decreases ep
  {
    && Since(ep) <= Length(t)
    && Lasts(config, t, Mode(ep), Since(ep))
    && (ep.Later? ==>
          && ep.since >= 1
          && Describes(config, Prefix(t, ep.since).before, ep.before)
          && Begins(config, Prefix(t, ep.since), ep.before, ep.mode))
  }

  /** The circuit that a trace and its division call for. */
  function Expected(config: Config, t: Trace, ep: Epochs): Circuit {
    var failures := if Mode(ep) == Closed then FailureRun(t, Since(ep)) else AtLeastOne(config.threshold);
    var successes := if Mode(ep) == HalfOpen then Successes(t, Since(ep)) else 0;
    Circuit(Mode(ep), failures, successes, LastFailure(t))
  }

  lemma CountsAtSince(t: Trace, since: nat)
    requires Length(t) <= since
    ensures FailureRun(t, since) == 0 && Successes(t, since) == 0
  {
  }

  /** A period that has lasted longer than one event was already there before the last one. */
  lemma DescribesBefore(config: Config, t: Trace, ep: Epochs)
    requires t.Then? && Describes(config, t, ep) && Since(ep) < Length(t)
    ensures Describes(config, t.before, ep)
  {
    if ep.Later? { assert Prefix(t, ep.since) == Prefix(t.before, ep.since); }
  }

  /** Breaker refinement: after any trace the circuit is exactly the one its division calls for. */
  lemma {:induction false} RunMeetsSpec(config: Config, t: Trace, ep: Epochs)
    requires Describes(config, t, ep)
    ensures Run(config, t) == Expected(config, t, ep)
  {
    if t.Start? {
    } else {
      if Since(ep) < Length(t) {
        DescribesBefore(config, t, ep);
        RunMeetsSpec(config, t.before, ep);
      } else {
        assert Prefix(t, ep.since) == t;
        RunMeetsSpec(config, t.before, ep.before);
        CountsAtSince(t, ep.since);
      }
    }
  }

  lemma Continues(config: Config, t: Trace, ep: Epochs)
    requires t.Then? && Describes(config, t.before, ep) && Run(config, t.before) == Expected(config, t.before, ep)
    requires Run(config, t).state == Mode(ep)
    ensures Describes(config, t, ep)
  {
    if ep.Later? { assert Prefix(t, ep.since) == Prefix(t.before, ep.since); }
  }

  /** Every trace has such a division. */
  lemma {:induction false} HasEpochs(config: Config, t: Trace) returns (ep: Epochs)
    ensures Describes(config, t, ep)
  {
    if t.Start? {
      ep := First;
    } else {
      ep := HasEpochs(config, t.before);
      var mode := Next(config, Run(config, t.before), t.event).state;
      RunMeetsSpec(config, t.before, ep);
      if mode == Mode(ep) {
        Continues(config, t, ep);
      } else {
        ep := Later(ep, mode, Length(t));
        assert Prefix(t, Length(t)) == t;
      }
    }
  }

  lemma {:induction false} FailurePersists(t: Trace, n: nat)
    requires LastFailure(Prefix(t, n)).Some?
    ensures LastFailure(t).Some?
  {
    if t.Start? || Length(t) <= n {
    } else {
      FailurePersists(t.before, n);
    }
  }

  lemma {:induction false} HasFailed(config: Config, t: Trace, ep: Epochs)
    requires Describes(config, t, ep) && Mode(ep) != Closed
    ensures LastFailure(t).Some?
    decreases ep
  {
    var p := Prefix(t, ep.since);
    assert LastFailure(p).Some?;
    FailurePersists(t, ep.since);
  }

  lemma LastsBounds(config: Config, t: Trace, mode: CircuitState, since: nat)
    requires Lasts(config, t, mode, since)
    ensures mode == Closed ==> FailureRun(t, since) < AtLeastOne(config.threshold)
    ensures mode == HalfOpen ==> Successes(t, since) < AtLeastOne(config.halfOpenMaxCalls)
  {
  }

  /** In every reachable state: the counters stay within their limits, and an open circuit has a last failure,
      which is the latest failure of the trace. */
  lemma {:induction false} ReachableCounters(config: Config, t: Trace)
    ensures var c := Run(config, t);
            && c.lastFailure == LastFailure(t)
            && (c.state == Closed ==> c.failures < AtLeastOne(config.threshold))
            && c.failures <= AtLeastOne(config.threshold)
            && c.successCount < AtLeastOne(config.halfOpenMaxCalls)
            && (c.state != HalfOpen ==> c.successCount == 0)
            && (c.state != Closed ==> c.lastFailure.Some?)
  {
    var ep := HasEpochs(config, t);
    RunMeetsSpec(config, t, ep);
    if ep.Later? && ep.mode != Closed { HasFailed(config, t, ep); }
    LastsBounds(config, t, Mode(ep), Since(ep));
  }

  predicate AlwaysClosed(config: Config, t: Trace) {
    Run(config, t).state == Closed && (t.Then? ==> AlwaysClosed(config, t.before))
  }

  /** A circuit stays closed through a whole trace exactly when no run of failures reaches the threshold. */
  lemma {:induction false} NeverTripsIff(config: Config, t: Trace)
    ensures AlwaysClosed(config, t) <==> Calm(config, t, 0)
  {
    if t.Start? {
    } else {
      NeverTripsIff(config, t.before);
      if Calm(config, t.before, 0) { RunMeetsSpec(config, t.before, First); }
    }
  }
}
