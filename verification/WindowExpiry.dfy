/**
 The key expiry is housekeeping only: the limiter decides exactly as one whose key never expires, precisely
 when the expiry is at least the window and the longest delay between a client's clock read and its count.
 */
module WindowExpiry {
  import opened Wrappers
  import opened SlidingWindow
  import opened WindowProtocol
  import opened WindowExactness

  function Never(p: Params): Params {
    p.(expiry := None)
  }

  /** Every client is in the same phase and the same requests have been admitted, with and without expiry. */
  predicate SameDecisions(p: Params, start: nat, es: Schedule) {
    var s, n := Run(p, Init(p, start), es), Run(Never(p), Init(p, start), es);
    s.phases == n.phases && s.admitted == n.admitted
  }

  /** Over every schedule with delays of at most `delay`. */
  ghost predicate Unobservable(p: Params, delay: nat) {
    forall start: nat, es: Schedule :: DelayedRun(p, Init(p, start), es, delay) ==> SameDecisions(p, start, es)
  }

  /** The scores that can still count at `clock` or later, when only scores older than `horizon` are ever pruned. */
  function Counting(scores: seq<nat>, clock: nat, horizon: nat): seq<nat> {
    if clock < horizon then scores else Prune(scores, clock - horizon)
  }

  /** The expiry covers the window and the delay (and, for an empty window, more than the delay). */
  predicate LongEnough(p: Params, delay: nat) {
    Outlives(p, p.window + delay) && Outlives(p, delay + 1)
  }

  /** A set that a client is about to count does not expire before it has been counted. */
  predicate SafeToCount(s: State, delay: nat) {
    forall i :: 0 <= i < |s.phases| && s.phases[i].Pruned? && s.scores != [] ==> s.phases[i].now + delay < s.deadline
  }

  /** The two sets agree on what can still count, and fully agree while some client is about to count. */
  ghost predicate Related(p: Params, s: State, n: State, delay: nat) {
    && Timely(p, s)
    && s.clock == n.clock && s.phases == n.phases && s.admitted == n.admitted
    && (forall i :: 0 <= i < |s.phases| && Checking(s.phases[i]) ==> s.clock <= s.phases[i].now + delay)
    && (p.expiry.Some? ==> SafeToCount(s, delay))
    && Counting(s.scores, s.clock, p.window + delay) == Counting(n.scores, s.clock, p.window + delay)
    && ((exists i :: 0 <= i < |s.phases| && s.phases[i].Pruned?) ==> s.scores == n.scores)
  }

  lemma CountingTick(scores: seq<nat>, clock: nat, horizon: nat)
    ensures Counting(Counting(scores, clock, horizon), clock + 1, horizon) == Counting(scores, clock + 1, horizon)
  {
    if clock >= horizon { PruneTwice(scores, clock - horizon, clock + 1 - horizon); }
  }

  lemma CountingNone(clock: nat, horizon: nat)
    ensures Counting([], clock, horizon) == []
  {
  }

  /** An expiry removes nothing that can still count. */
  lemma ExpiredIsOld(p: Params, s: State, delay: nat)
    requires Timely(p, s) && LongEnough(p, delay) && p.expiry.Some? && s.deadline <= s.clock + 1
    ensures Counting(s.scores, s.clock + 1, p.window + delay) == []
  {
    var horizon := p.window + delay;
    if s.scores != [] {
      forall i | 0 <= i < |s.scores| ensures s.scores[i] + horizon <= s.clock + 1 {
        assert s.scores[i] in s.scores;
      }
      assert s.scores[0] + horizon <= s.clock + 1;
      PruneAll(s.scores, s.clock + 1 - horizon);
    }
  }

  lemma TickRelated(p: Params, s: State, n: State, delay: nat)
    requires Related(p, s, n, delay) && LongEnough(p, delay) && InTime(s, Tick, delay)
    ensures Related(p, Step(p, s, Tick), Step(Never(p), n, Tick), delay)
  {
    hide Prune;
    TimelyStep(p, s, Tick);
    CountingTick(s.scores, s.clock, p.window + delay);
    CountingTick(n.scores, s.clock, p.window + delay);
    CountingNone(s.clock + 1, p.window + delay);
    if p.expiry.Some? && s.deadline <= s.clock + 1 { ExpiredIsOld(p, s, delay); }
  }

  /** What a client's pruning leaves is the same in both sets. */
  lemma PruneAgrees(s: seq<nat>, n: seq<nat>, clock: nat, now: nat, window: nat, delay: nat)
    requires Counting(s, clock, window + delay) == Counting(n, clock, window + delay) && now <= clock <= now + delay
    ensures Prune(s, WindowStart(now, window)) == Prune(n, WindowStart(now, window))
  {
    hide Prune;
    var horizon := window + delay;
    if clock >= horizon {
      PruneTwice(s, clock - horizon, WindowStart(now, window));
      PruneTwice(n, clock - horizon, WindowStart(now, window));
    }
  }

  lemma PruneRelated(p: Params, s: State, n: State, i: nat, delay: nat)
    requires Related(p, s, n, delay) && LongEnough(p, delay) && i < |s.phases| && s.phases[i].Read?
    ensures Related(p, Step(p, s, PruneSet(i)), Step(Never(p), n, PruneSet(i)), delay)
  {
    var now, s' := s.phases[i].now, Step(p, s, PruneSet(i));
    TimelyStep(p, s, PruneSet(i));
    PruneAgrees(s.scores, n.scores, s.clock, now, p.window, delay);
    PruneKeeps(s.scores, WindowStart(now, p.window));
    if p.expiry.Some? && s'.scores != [] {
      assert s'.scores[0] in s'.scores;
      assert s'.scores[0] in s.scores && s'.scores[0] + p.window > now;
    }
  }

  lemma CommitRelated(p: Params, s: State, n: State, i: nat, delay: nat)
    requires Related(p, s, n, delay) && LongEnough(p, delay) && i < |s.phases| && s.phases[i].Admitted?
    ensures Related(p, Step(p, s, Commit(i)), Step(Never(p), n, Commit(i)), delay)
  {
    hide Prune;
    TimelyStep(p, s, Commit(i));
    var now, horizon := s.phases[i].now, p.window + delay;
    if s.clock >= horizon {
      PruneAppend(s.scores, now, s.clock - horizon);
      PruneAppend(n.scores, now, s.clock - horizon);
    }
  }

  lemma ClientRelated(p: Params, s: State, n: State, e: Event, delay: nat)
    requires Related(p, s, n, delay) && LongEnough(p, delay) && !e.Tick?
    ensures Related(p, Step(p, s, e), Step(Never(p), n, e), delay)
  {
    if Enabled(s, e) {
      match e
      case ReadClock(i) => TimelyStep(p, s, e);
      case PruneSet(i) => PruneRelated(p, s, n, i, delay);
      case CountSet(i) => TimelyStep(p, s, e);
      case Commit(i) => CommitRelated(p, s, n, i, delay);
      case Drop(i) => TimelyStep(p, s, e);
    }
  }

  lemma {:induction false} RunRelated(p: Params, start: nat, es: Schedule, delay: nat)
    requires LongEnough(p, delay) && DelayedRun(p, Init(p, start), es, delay)
    ensures Related(p, Run(p, Init(p, start), es), Run(Never(p), Init(p, start), es), delay)
  {
    if es.Begin? {
    } else {
      RunRelated(p, start, es.before, delay);
      var s, n := Run(p, Init(p, start), es.before), Run(Never(p), Init(p, start), es.before);
      if es.event.Tick? { TickRelated(p, s, n, delay); } else { ClientRelated(p, s, n, es.event, delay); }
    }
  }

  // ----- A run that tells the difference -----

  /** Fill the window, and in its last second read the clock and wait; then prune and count. */
  function LastSecond(p: Params, delay: nat): Schedule
    requires p.window >= 1
  {
    Ticks(Then(Ticks(Rounds(p.limit), p.window - 1), ReadClock(0)), delay)
  }

  /** `q` is `p` or `p` without expiry. */
  lemma FilledRun(p: Params, q: Params, delay: nat)
    requires p.clients >= 1 && p.limit >= 1 && p.window >= 1 && p.expiry.Some?
    requires q == p || q == Never(p)
    ensures DelayedRun(q, Init(p, 1), Ticks(Rounds(p.limit), p.window - 1), delay)
    ensures var s := Run(q, Init(p, 1), Ticks(Rounds(p.limit), p.window - 1));
            && s.phases == Rep(p.clients, Idle) && s.clock == p.window && s.admitted == Rep(p.limit, 1)
            && s.scores == (if q == p && p.expiry.value < p.window then [] else Rep(p.limit, 1))
            && (q == p ==> s.deadline == 1 + p.expiry.value)
  {
    assert Init(q, 1) == Init(p, 1);
    RoundsRun(q, 1, p.limit);
    TicksRun(q, Init(p, 1), Rounds(p.limit), p.window - 1);
    PromptIsInTime(q, Init(p, 1), Ticks(Rounds(p.limit), p.window - 1), delay);
  }

  lemma LastSecondRun(p: Params, q: Params, delay: nat)
    requires p.clients >= 1 && p.limit >= 1 && p.window >= 1 && p.expiry.Some? && p.expiry.value < p.window + delay
    requires q == p || q == Never(p)
    ensures DelayedRun(q, Init(p, 1), LastSecond(p, delay), delay)
    ensures var s := Run(q, Init(p, 1), LastSecond(p, delay));
            && |s.phases| == p.clients && s.phases[0] == Read(p.window)
            && s.scores == if q == p then [] else Rep(p.limit, 1)
  {
    hide Rounds, Ticks, Run, DelayedRun;
    FilledRun(p, q, delay);
    DelayRun(q, Init(p, 1), Ticks(Rounds(p.limit), p.window - 1), 0, delay, delay);
  }

  /** The last two steps of the client: its pruning removes nothing, and its count decides. */
  lemma CountRun(q: Params, s0: State, es: Schedule, delay: nat)
    requires var s := Run(q, s0, es);
             && |s.phases| >= 1 && s.phases[0] == Read(q.window)
             && forall i :: 0 <= i < |s.scores| ==> s.scores[i] >= 1
    requires DelayedRun(q, s0, es, delay)
    ensures DelayedRun(q, s0, Then(Then(es, PruneSet(0)), CountSet(0)), delay)
    ensures var s := Run(q, s0, es);
            Run(q, s0, Then(Then(es, PruneSet(0)), CountSet(0))).phases[0].Admitted? <==> |s.scores| < q.limit
  {
    assert Run(q, s0, Then(es, PruneSet(0))) == Step(q, Run(q, s0, es), PruneSet(0));
    assert DelayedRun(q, s0, Then(es, PruneSet(0)), delay);
    PruneNone(Run(q, s0, es).scores, WindowStart(q.window, q.window));
  }

  lemma ShortExpiryShows(p: Params, delay: nat)
    requires p.clients >= 1 && p.limit >= 1 && p.window >= 1 && p.expiry.Some? && p.expiry.value < p.window + delay
    ensures !Unobservable(p, delay)
  {
    hide LastSecond, Run, DelayedRun;
    var es := Then(Then(LastSecond(p, delay), PruneSet(0)), CountSet(0));
    LastSecondRun(p, p, delay);
    LastSecondRun(p, Never(p), delay);
    CountRun(p, Init(p, 1), LastSecond(p, delay), delay);
    CountRun(Never(p), Init(p, 1), LastSecond(p, delay), delay);
    assert !SameDecisions(p, 1, es);
    assert DelayedRun(p, Init(p, 1), es, delay);
  }

  lemma NothingEitherStep(p: Params, s: State, n: State, e: Event)
    requires p.limit == 0 && s.clock == n.clock && s.phases == n.phases && s.admitted == n.admitted
    requires forall i :: 0 <= i < |s.phases| ==> !s.phases[i].Admitted?
    ensures var s', n' := Step(p, s, e), Step(Never(p), n, e);
            s'.clock == n'.clock && s'.phases == n'.phases && s'.admitted == n'.admitted
            && forall i :: 0 <= i < |s'.phases| ==> !s'.phases[i].Admitted?
  {
    hide Prune, WindowStart;
  }

  lemma {:induction false} NothingEither(p: Params, start: nat, es: Schedule)
    requires p.limit == 0
    ensures var s, n := Run(p, Init(p, start), es), Run(Never(p), Init(p, start), es);
            s.clock == n.clock && s.phases == n.phases && s.admitted == n.admitted
            && forall i :: 0 <= i < |s.phases| ==> !s.phases[i].Admitted?
  {
    if es.Begin? {
    } else {
      NothingEither(p, start, es.before);
      NothingEitherStep(p, Run(p, Init(p, start), es.before), Run(Never(p), Init(p, start), es.before), es.event);
    }
  }

  /** With delays of at most `delay`, expiry is unobservable exactly when it is no shorter than the window and the
      delay together (or nothing is ever admitted). */
  lemma UnobservableIff(p: Params, delay: nat)
    requires p.clients >= 1 && p.expiry.Some? && (p.window >= 1 || Outlives(p, delay + 1))
    ensures Unobservable(p, delay) <==> p.limit == 0 || p.expiry.value >= p.window + delay
  {
    if p.expiry.value >= p.window + delay {
      forall start: nat, es: Schedule | DelayedRun(p, Init(p, start), es, delay) ensures SameDecisions(p, start, es) {
        RunRelated(p, start, es, delay);
      }
    } else if p.limit == 0 {
      forall start: nat, es: Schedule ensures SameDecisions(p, start, es) {
        NothingEither(p, start, es);
      }
    } else {
      ShortExpiryShows(p, delay);
    }
  }

  // ----- The expiries the service uses -----

  /** check_rate_limit keeps its key for the window and a minute. */
  function RateLimitExpiry(window: nat): Seconds {
    window + 60
  }

  /** check_sliding_window chooses by the limit alone, whichever window it serves. */
  function KeyLimitExpiry(limit: nat): Seconds {
    if limit == 100 then 120 else 86500
  }

  /** How long a client may take from its clock read to its count before the service's expiries can be noticed: a
      minute on the model window; a minute or a day on the minute window, by the limit; 100 seconds on the day window,
      and no time at all there if the limit is 100. */
  lemma ServiceExpiries(limit: nat, window: nat, clients: nat, delay: nat)
    requires clients >= 1
    ensures window >= 1 || delay < 60 ==>
              (Unobservable(Params(limit, window, Some(RateLimitExpiry(window)), clients), delay)
               <==> limit == 0 || delay <= 60)
    ensures Unobservable(Params(limit, 60, Some(KeyLimitExpiry(limit)), clients), delay)
       <==> limit == 0 || delay <= if limit == 100 then 60 else 86440
    ensures Unobservable(Params(limit, 86400, Some(KeyLimitExpiry(limit)), clients), delay)
       <==> limit == 0 || (limit != 100 && delay <= 100)
  {
    hide Unobservable;
    if window >= 1 || delay < 60 {
      UnobservableIff(Params(limit, window, Some(RateLimitExpiry(window)), clients), delay);
    }
    UnobservableIff(Params(limit, 60, Some(KeyLimitExpiry(limit)), clients), delay);
    UnobservableIff(Params(limit, 86400, Some(KeyLimitExpiry(limit)), clients), delay);
  }
}
