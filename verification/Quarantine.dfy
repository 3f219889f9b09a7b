/** What an open circuit guarantees until it is closed again. */
module Quarantine {
  import opened Circuit

  /** The trace after more events. */
  function Extend(t: Trace, more: seq<Event>): Trace {
    if more == [] then t else Then(Extend(t, more[..|more| - 1]), more[|more| - 1])
  }

  /** A check made in time order and answered before the timeout after the latest failure has passed. */
  predicate TooEarly(config: Config, t: Trace, e: Event) {
    e.Check? ==>
      LastFailure(t).Some? ==>
        LastFailure(t).value <= e.transitionAt <= e.answerAt < LastFailure(t).value + config.timeout
  }

  predicate AllTooEarly(config: Config, t: Trace, more: seq<Event>) {
    forall i :: 0 <= i < |more| ==> TooEarly(config, Extend(t, more[..i]), more[i])
  }

  lemma QuarantineStep(config: Config, t: Trace, e: Event)
    requires Run(config, t).state == Open && TooEarly(config, t, e)
    ensures Run(config, Then(t, e)).state == Open
    ensures e.Check? ==> !Answer(config, Run(config, t), e.transitionAt, e.answerAt)
  {
    ReachableCounters(config, t);
  }

  /** However many successes and failures arrive, an open circuit stays open and every check made before the
      timeout after the latest failure answers that the backend is unhealthy. */
  lemma {:induction false} OpenQuarantine(config: Config, t: Trace, more: seq<Event>)
    requires Run(config, t).state == Open && AllTooEarly(config, t, more)
    ensures Run(config, Extend(t, more)).state == Open
    ensures forall i :: 0 <= i < |more| && more[i].Check? ==>
              !Answer(config, Run(config, Extend(t, more[..i])), more[i].transitionAt, more[i].answerAt)
  {
    if more == [] {
    } else {
      var n := |more| - 1;
      var init := more[..n];
      assert forall i :: 0 <= i < n ==> init[..i] == more[..i] && init[i] == more[i];
      hide Answer, TooEarly;
      OpenQuarantine(config, t, init);
      QuarantineStep(config, Extend(t, init), more[n]);
    }
  }

  /** A check of an open circuit answers "healthy" exactly if its second clock reading is past the timeout, and
      moves the circuit to half-open exactly if its first reading is. */
  lemma {:induction false} ProbeIff(config: Config, t: Trace, transitionAt: nat, answerAt: nat)
    requires Run(config, t).state == Open && LastFailure(t).Some?
    requires LastFailure(t).value <= transitionAt <= answerAt
    ensures Answer(config, Run(config, t), transitionAt, answerAt)
       <==> answerAt >= LastFailure(t).value + config.timeout
    ensures Run(config, Then(t, Check(transitionAt, answerAt))).state == HalfOpen
       <==> transitionAt >= LastFailure(t).value + config.timeout
  {
    ReachableCounters(config, t);
  }

  function CountSuccesses(es: seq<Event>): nat {
    if es == [] then 0 else CountSuccesses(es[..|es| - 1]) + if es[|es| - 1].Success? then 1 else 0
  }

  predicate NoFailure(es: seq<Event>) {
    forall i :: 0 <= i < |es| ==> !es[i].Failure?
  }

  /** Event `more[i]` is a check past the timeout that finds the circuit open. */
  predicate LetsThrough(config: Config, t: Trace, more: seq<Event>, i: nat)
    requires i < |more|
  {
    && more[i].Check? && Run(config, Extend(t, more[..i])).state == Open
    && TimedOut(config, LastFailure(Extend(t, more[..i])), more[i].transitionAt)
  }

  /** The circuit is half-open after event `more[i]` and up to event `more[j]`. */
  predicate HalfOpenFrom(config: Config, t: Trace, more: seq<Event>, i: nat, j: nat)
    requires j <= |more|
  {
    forall k :: i < k <= j ==> Run(config, Extend(t, more[..k])).state == HalfOpen
  }

  /** While half-open, the circuit has seen nothing but probes succeed since the check that let them through. */
  ghost predicate ProbingSince(config: Config, t: Trace, more: seq<Event>, i: nat) {
    && i < |more| && LetsThrough(config, t, more, i) && HalfOpenFrom(config, t, more, i, |more|)
    && NoFailure(more[i + 1..])
    && CountSuccesses(more[i + 1..]) == Run(config, Extend(t, more)).successCount
  }

  /** What holds of events of a prefix holds of them. */
  lemma OfPrefix(config: Config, t: Trace, more: seq<Event>, i: nat, j: nat)
    requires more != [] && i < |more| - 1 && j < |more|
    ensures LetsThrough(config, t, more[..|more| - 1], i) <==> LetsThrough(config, t, more, i)
    ensures HalfOpenFrom(config, t, more[..|more| - 1], i, j) <==> HalfOpenFrom(config, t, more, i, j)
  {
    var init := more[..|more| - 1];
    assert init[..i] == more[..i];
    forall k | i < k <= j ensures Run(config, Extend(t, init[..k])) == Run(config, Extend(t, more[..k])) {
      assert init[..k] == more[..k];
    }
  }

  lemma WholePrefix(more: seq<Event>)
    ensures more[..|more|] == more
  {
  }

  lemma TailStep(more: seq<Event>, i: nat)
    requires i + 1 < |more|
    ensures var n := |more| - 1;
            && CountSuccesses(more[i + 1..]) == CountSuccesses(more[..n][i + 1..]) + (if more[n].Success? then 1 else 0)
            && (NoFailure(more[i + 1..]) <==> NoFailure(more[..n][i + 1..]) && !more[n].Failure?)
  {
    var n, tail := |more| - 1, more[i + 1..];
    assert tail[..|tail| - 1] == more[..n][i + 1..];
    assert tail == more[..n][i + 1..] + [more[n]];
  }

  lemma {:induction false} HalfOpenSince(config: Config, t: Trace, more: seq<Event>) returns (i: nat)
    requires Run(config, t).state == Open && Run(config, Extend(t, more)).state == HalfOpen
    ensures ProbingSince(config, t, more, i)
  {
    var n := |more| - 1;
    var init, last := more[..n], more[n];
    var c := Run(config, Extend(t, init));
    ReachableCounters(config, Extend(t, init));
    WholePrefix(more);
    if c.state == Open {
      i := n;
      assert more[n + 1..] == [];
    } else {
      i := HalfOpenSince(config, t, init);
      OfPrefix(config, t, more, i, n);
      TailStep(more, i);
    }
  }

  /** The events after `i`, up to the end. */
  lemma ToTheEnd(more: seq<Event>, i: nat)
    requires i <= |more|
    ensures more[i..|more|] == more[i..]
  {
  }

  lemma SlicePrefix(more: seq<Event>, i: nat, j: nat)
    requires i <= j < |more|
    ensures more[..|more| - 1][i..j] == more[i..j]
  {
  }

  /** A circuit that was open is closed again only so: a check past the timeout finds it open, it stays half-open
      while exactly `half_open_max_calls` requests (at least one) succeed and none fails, and `more[j]` is the
      success that closes it. */
  lemma {:induction false} ClosesOnlyAfterProbes(config: Config, t: Trace, more: seq<Event>) returns (i: nat, j: nat)
    requires Run(config, t).state == Open && Run(config, Extend(t, more)).state == Closed
    ensures i < j < |more| && LetsThrough(config, t, more, i) && HalfOpenFrom(config, t, more, i, j)
    ensures NoFailure(more[i + 1..j + 1]) && more[j].Success?
    ensures CountSuccesses(more[i + 1..j + 1]) == AtLeastOne(config.halfOpenMaxCalls)
  {
    hide LetsThrough, HalfOpenFrom, CountSuccesses, NoFailure;
    var n := |more| - 1;
    var init := more[..n];
    var c := Run(config, Extend(t, init));
    if c.state == Closed {
      i, j := ClosesOnlyAfterProbes(config, t, init);
      OfPrefix(config, t, more, i, j);
      SlicePrefix(more, i + 1, j + 1);
    } else {
      i := HalfOpenSince(config, t, init);
      j := n;
      ReachableCounters(config, Extend(t, init));
      OfPrefix(config, t, more, i, n);
      TailStep(more, i);
      ToTheEnd(more, i + 1);
    }
  }
}
