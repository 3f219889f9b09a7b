/**
 The bounds of WindowProtocol are the least ones, and they hold exactly when the clock starts after second 0 and
 the key outlives its window; a gate run without interleaving is `Attempt`.
 */
module WindowExactness {
  import opened Wrappers
  import opened SlidingWindow
  import opened WindowProtocol

  /** One client going through all its steps with nothing in between. */
  function Round(es: Schedule, i: nat): Schedule {
    Then(Then(Then(Then(es, ReadClock(i)), PruneSet(i)), CountSet(i)), Commit(i))
  }

  lemma RoundUnfolds(p: Params, s0: State, es: Schedule, i: nat)
    ensures Run(p, s0, Round(es, i))
         == Step(p, Step(p, Step(p, Step(p, Run(p, s0, es), ReadClock(i)), PruneSet(i)), CountSet(i)), Commit(i))
    ensures PromptRun(p, s0, Round(es, i)) <==> PromptRun(p, s0, es)
  {
    var e1 := Then(es, ReadClock(i));
    var e2 := Then(e1, PruneSet(i));
    var e3 := Then(e2, CountSet(i));
    assert Run(p, s0, e1) == Step(p, Run(p, s0, es), ReadClock(i));
    assert Run(p, s0, e2) == Step(p, Run(p, s0, e1), PruneSet(i));
    assert Run(p, s0, e3) == Step(p, Run(p, s0, e2), CountSet(i));
    assert PromptRun(p, s0, e2) <==> PromptRun(p, s0, es);
  }

  function Ttl(p: Params): nat {
    if p.expiry.Some? then p.expiry.value else 0
  }

  /** An uninterrupted round is one `Attempt` on the sorted set. */
  lemma RoundIsAttempt(p: Params, s: State, i: nat, w: Window)
    requires i < |s.phases| && s.phases[i].Idle? && s.scores == Live(w, s.clock)
    ensures var s' := Step(p, Step(p, Step(p, Step(p, s, ReadClock(i)), PruneSet(i)), CountSet(i)), Commit(i));
            var (w', ok) := Attempt(w, s.clock, p.window, p.limit, Ttl(p));
            && s'.phases == s.phases && s'.clock == s.clock
            && s'.scores == w'.scores
            && s'.admitted == s.admitted + (if ok then [s.clock] else [])
            && (p.expiry.Some? ==> Some(s'.deadline) == if ok then w'.deadline else Some(s.deadline))
  {
    var s3 := Step(p, Step(p, Step(p, s, ReadClock(i)), PruneSet(i)), CountSet(i));
    assert s3.phases[i].Idle? || s3.phases[i] == Admitted(s.clock);
    assert Step(p, s3, Commit(i)).phases == s.phases;
  }

  // ----- Building runs -----

  function Rep<T>(n: nat, x: T): seq<T> {
    seq(n, _ => x)
  }

  lemma AllInSpan(scores: seq<nat>, from: int, window: nat)
    requires forall i :: 0 <= i < |scores| ==> InSpan(scores[i], from, window)
    ensures SpanCount(scores, from, window) == |scores|
  {
  }

  /** `k` rounds of client 0 within one second. */
  function Rounds(k: nat): Schedule {
    if k == 0 then Begin else Round(Rounds(k - 1), 0)
  }

  /** In second 0, where the subtraction saturates, and with an empty window, the pruned range includes the current
      second. */
  predicate PrunesItself(p: Params, start: nat) {
    start == 0 || p.window == 0
  }

  /** After `k` admitted rounds in second `start`: if the range includes it, every round prunes its predecessor. */
  ghost predicate AfterRounds(p: Params, s: State, start: nat, k: nat) {
    && s.phases == Rep(p.clients, Idle) && s.clock == start
    && s.admitted == Rep(k, start)
    && s.scores == Rep(if !PrunesItself(p, start) || k == 0 then k else 1, start)
    && (k > 0 && p.expiry.Some? ==> s.deadline == start + p.expiry.value)
  }

  lemma RoundAdmits(p: Params, s: State, start: nat, k: nat)
    requires p.clients >= 1 && AfterRounds(p, s, start, k) && p.limit >= 1
    requires !PrunesItself(p, start) ==> k < p.limit
    ensures AfterRounds(p, Step(p, Step(p, Step(p, Step(p, s, ReadClock(0)), PruneSet(0)), CountSet(0)), Commit(0)),
                        start, k + 1)
  {
    RoundIsAttempt(p, s, 0, Window(s.scores, None));
    if PrunesItself(p, start) {
      PruneAll(s.scores, WindowStart(start, p.window));
    } else {
      PruneNone(s.scores, WindowStart(start, p.window));
    }
  }

  lemma {:induction false} RoundsRun(p: Params, start: nat, k: nat)
    requires p.clients >= 1 && p.limit >= 1
    requires !PrunesItself(p, start) ==> k <= p.limit
    ensures PromptRun(p, Init(p, start), Rounds(k))
    ensures AfterRounds(p, Run(p, Init(p, start), Rounds(k)), start, k)
  {
    if k == 0 {
    } else {
      hide AfterRounds, Round, Step;
      RoundsRun(p, start, k - 1);
      RoundUnfolds(p, Init(p, start), Rounds(k - 1), 0);
      RoundAdmits(p, Run(p, Init(p, start), Rounds(k - 1)), start, k - 1);
    }
  }

  datatype Kind = Reads | Prunes | Counts | Commits

  function EventOf(kind: Kind, i: nat): Event {
    match kind
    case Reads => ReadClock(i)
    case Prunes => PruneSet(i)
    case Counts => CountSet(i)
    case Commits => Commit(i)
  }

  function Before(kind: Kind, now: nat): Phase {
    match kind case Reads => Idle case Prunes => Read(now) case Counts => Pruned(now) case Commits => Admitted(now)
  }

  function After(kind: Kind, now: nat): Phase {
    match kind case Reads => Read(now) case Prunes => Pruned(now) case Counts => Admitted(now) case Commits => Idle
  }

  /** The same step for clients `0..k` in turn. */
  function Wave(es: Schedule, kind: Kind, k: nat): Schedule {
    if k == 0 then es else Then(Wave(es, kind, k - 1), EventOf(kind, k - 1))
  }

  /** Where such a wave leads when every client takes its step. */
  function Moved(p: Params, s: State, kind: Kind, now: nat, k: nat): State
    requires k <= p.clients
  {
    var added := if kind.Commits? then Rep(k, now) else [];
    s.(phases := Rep(k, After(kind, now)) + Rep(p.clients - k, Before(kind, now)),
       scores := s.scores + added,
       admitted := s.admitted + added,
       deadline := if added != [] && p.expiry.Some? then s.clock + p.expiry.value else s.deadline)
  }

  ghost predicate AllCanMove(p: Params, s: State, kind: Kind, now: nat) {
    && s.phases == Rep(p.clients, Before(kind, now))
    && (kind.Reads? ==> now == s.clock)
    && (kind.Prunes? ==> Prune(s.scores, WindowStart(now, p.window)) == s.scores)
    && (kind.Counts? ==> |s.scores| < p.limit)
  }

  lemma MoveOne(p: Params, s: State, kind: Kind, now: nat, k: nat)
    requires k < p.clients && AllCanMove(p, s, kind, now)
    ensures Step(p, Moved(p, s, kind, now, k), EventOf(kind, k)) == Moved(p, s, kind, now, k + 1)
  {
    var s1, s2 := Moved(p, s, kind, now, k), Moved(p, s, kind, now, k + 1);
    assert s1.phases[k] == Before(kind, now);
    assert s1.phases[k := After(kind, now)] == s2.phases;
    if kind.Commits? {
      assert Rep(k, now) + [now] == Rep(k + 1, now);
      assert s1.scores + [now] == s2.scores && s1.admitted + [now] == s2.admitted;
    } else {
      assert s1.scores == s.scores;
    }
  }

  lemma NoneMoved(p: Params, s: State, kind: Kind, now: nat)
    requires AllCanMove(p, s, kind, now)
    ensures Moved(p, s, kind, now, 0) == s
  {
    assert Moved(p, s, kind, now, 0).phases == s.phases;
  }

  lemma {:induction false} WaveRun(p: Params, s0: State, es: Schedule, kind: Kind, now: nat, k: nat)
    requires k <= p.clients && AllCanMove(p, Run(p, s0, es), kind, now)
    ensures Run(p, s0, Wave(es, kind, k)) == Moved(p, Run(p, s0, es), kind, now, k)
    ensures PromptRun(p, s0, Wave(es, kind, k)) <==> PromptRun(p, s0, es)
  {
    hide AllCanMove, Moved, Step;
    if k == 0 {
      NoneMoved(p, Run(p, s0, es), kind, now);
    } else {
      WaveRun(p, s0, es, kind, now, k - 1);
      MoveOne(p, Run(p, s0, es), kind, now, k - 1);
    }
  }

  function Ticks(es: Schedule, d: nat): Schedule {
    if d == 0 then es else Then(Ticks(es, d - 1), Tick)
  }

  /** Letting `d` seconds pass expires the key once its deadline is reached. */
  lemma {:induction false} TicksRun(p: Params, s0: State, es: Schedule, d: nat)
    ensures var s := Run(p, s0, es);
            && Run(p, s0, Ticks(es, d))
               == s.(clock := s.clock + d,
                     scores := if d > 0 && p.expiry.Some? && s.deadline <= s.clock + d then [] else s.scores)
            && (PromptRun(p, s0, es) && (forall i :: 0 <= i < |s.phases| ==> !Checking(s.phases[i]))
                ==> PromptRun(p, s0, Ticks(es, d)))
  {
    if d == 0 {
    } else {
      TicksRun(p, s0, es, d - 1);
    }
  }

  /** All clients check one after the other before any of them commits. */
  function Checks(es: Schedule, c: nat): Schedule {
    Wave(Wave(es, Prunes, c), Counts, c)
  }

  /** From a state in which every client has read `now`, all of them pass on the same count. */
  lemma ChecksRun(p: Params, s0: State, es: Schedule, now: nat)
    requires var s := Run(p, s0, es);
             && s.phases == Rep(p.clients, Read(now)) && |s.scores| < p.limit
             && Prune(s.scores, WindowStart(now, p.window)) == s.scores
    ensures var s, s' := Run(p, s0, es), Run(p, s0, Wave(Checks(es, p.clients), Commits, p.clients));
            && s'.phases == Rep(p.clients, Idle) && s'.clock == s.clock
            && s'.scores == s.scores + Rep(p.clients, now) && s'.admitted == s.admitted + Rep(p.clients, now)
            && (p.expiry.Some? && p.clients >= 1 ==> s'.deadline == s.clock + p.expiry.value)
    ensures PromptRun(p, s0, Wave(Checks(es, p.clients), Commits, p.clients)) <==> PromptRun(p, s0, es)
  {
    hide Run, PromptRun, Wave, Prune, WindowStart;
    var c := p.clients;
    WaveRun(p, s0, es, Prunes, now, c);
    WaveRun(p, s0, Wave(es, Prunes, c), Counts, now, c);
    WaveRun(p, s0, Checks(es, c), Commits, now, c);
  }

  /** Every client reads the clock, and `d` seconds later all of them check before any of them commits. */
  function Burst(es: Schedule, c: nat, d: nat): Schedule {
    Wave(Checks(Ticks(Wave(es, Reads, c), d), c), Commits, c)
  }

  /** The scores that are left `d` seconds after state `s`. */
  function Left(p: Params, s: State, d: nat): seq<nat> {
    if d > 0 && p.expiry.Some? && s.deadline <= s.clock + d then [] else s.scores
  }

  lemma BurstLeft(p: Params, s: State, late: State, now: nat, d: nat)
    requires p.clients >= 1 && s.phases == Rep(p.clients, Idle)
    requires var read := Moved(p, s, Reads, now, p.clients);
             late == read.(clock := read.clock + d,
                           scores := if d > 0 && p.expiry.Some? && read.deadline <= read.clock + d then []
                                     else read.scores)
    ensures late.phases == Rep(p.clients, Read(now)) && late.scores == Left(p, s, d) && late.admitted == s.admitted
  {
  }

  /** If what is left is below the limit and too young to be pruned, everybody is admitted. */
  lemma BurstRun(p: Params, s0: State, es: Schedule, d: nat)
    requires p.clients >= 1
    requires var s := Run(p, s0, es);
             && s.phases == Rep(p.clients, Idle) && |Left(p, s, d)| < p.limit
             && Prune(Left(p, s, d), WindowStart(s.clock, p.window)) == Left(p, s, d)
    ensures var s, s' := Run(p, s0, es), Run(p, s0, Burst(es, p.clients, d));
            && s'.phases == Rep(p.clients, Idle) && s'.clock == s.clock + d
            && s'.scores == Left(p, s, d) + Rep(p.clients, s.clock)
            && s'.admitted == s.admitted + Rep(p.clients, s.clock)
            && (p.expiry.Some? ==> s'.deadline == s.clock + d + p.expiry.value)
    ensures d == 0 ==> (PromptRun(p, s0, Burst(es, p.clients, d)) <==> PromptRun(p, s0, es))
  {
    hide Run, PromptRun, Wave, Checks;
    var now, read := Run(p, s0, es).clock, Wave(es, Reads, p.clients);
    WaveRun(p, s0, es, Reads, now, p.clients);
    TicksRun(p, s0, read, d);
    BurstLeft(p, Run(p, s0, es), Run(p, s0, Ticks(read, d)), now, d);
    ChecksRun(p, s0, Ticks(read, d), now);
  }

  // ----- The witness runs -----

  /** `limit - 1` sequential admissions and then everybody at once. */
  function FullBurst(p: Params): Schedule
    requires p.limit >= 1
  {
    Burst(Rounds(p.limit - 1), p.clients, 0)
  }

  lemma FullBurstRun(p: Params, start: nat)
    requires p.clients >= 1 && p.limit >= 1 && p.window >= 1 && start >= 1
    ensures PromptRun(p, Init(p, start), FullBurst(p))
    ensures var s := Run(p, Init(p, start), FullBurst(p));
            && s.clock == start && s.phases == Rep(p.clients, Idle)
            && s.scores == s.admitted == Rep(p.limit - 1 + p.clients, start)
            && (p.expiry.Some? ==> s.deadline == start + p.expiry.value)
  {
    hide Run, PromptRun, Burst, Rounds, Prune;
    RoundsRun(p, start, p.limit - 1);
    PruneNone(Rep(p.limit - 1, start), WindowStart(start, p.window));
    BurstRun(p, Init(p, start), Rounds(p.limit - 1), 0);
    assert Rep<nat>(p.limit - 1, start) + Rep<nat>(p.clients, start) == Rep<nat>(p.limit - 1 + p.clients, start);
  }

  /** After the burst every client reads the clock once more and is delayed until the key has expired. */
  function DelayedBurst(p: Params): Schedule
    requires p.limit >= 1 && p.expiry.Some?
  {
    Burst(FullBurst(p), p.clients, p.expiry.value)
  }

  lemma DelayedBurstRun(p: Params, start: nat)
    requires p.clients >= 1 && p.limit >= 1 && p.window >= 1 && start >= 1
    requires p.expiry.Some?
    ensures Admissions(p, start, DelayedBurst(p)) == Rep(p.limit - 1 + 2 * p.clients, start)
  {
    hide Run, PromptRun, Burst, FullBurst;
    FullBurstRun(p, start);
    BurstRun(p, Init(p, start), FullBurst(p), p.expiry.value);
    assert Rep<nat>(p.limit - 1 + p.clients, start) + Rep<nat>(p.clients, start)
        == Rep<nat>(p.limit - 1 + 2 * p.clients, start);
  }

  // ----- Least bounds -----

  /** With prompt clients the least bound on a span is `limit + clients - 1`; it is `limit` for one client. */
  lemma PromptBoundIsLeast(p: Params, start: nat, bound: nat)
    requires p.clients >= 1 && p.limit >= 1 && p.window >= 1 && start >= 1 && LongExpiry(p)
    ensures PromptBounded(p, start, bound) <==> bound >= p.limit + p.clients - 1
  {
    PromptScheduleBound(p, start);
    FullBurstRun(p, start);
    AllInSpan(Admissions(p, start, FullBurst(p)), start - 1, p.window);
    if PromptBounded(p, start, bound) {
      assert SpanCount(Admissions(p, start, FullBurst(p)), start - 1, p.window) <= bound;
    }
  }

  /** With arbitrary delays between a client's steps the least bound is `limit + 2 * clients - 1`. */
  lemma AnyBoundIsLeast(p: Params, start: nat, bound: nat)
    requires p.clients >= 1 && p.limit >= 1 && p.window >= 1 && start >= 1 && p.expiry.Some? && LongExpiry(p)
    ensures AnyBounded(p, start, bound) <==> bound >= p.limit + 2 * p.clients - 1
  {
    AnyScheduleBound(p, start);
    DelayedBurstRun(p, start);
    AllInSpan(Admissions(p, start, DelayedBurst(p)), start - 1, p.window);
    if AnyBounded(p, start, bound) {
      assert SpanCount(Admissions(p, start, DelayedBurst(p)), start - 1, p.window) <= bound;
    }
  }

  // ----- When the window promise holds -----

  lemma {:induction false} NothingAdmitted(p: Params, start: nat, es: Schedule)
    requires p.limit == 0
    ensures var s := Run(p, Init(p, start), es);
            s.admitted == [] && forall i :: 0 <= i < |s.phases| ==> !s.phases[i].Admitted?
  {
    if es.Begin? {
    } else {
      NothingAdmitted(p, start, es.before);
    }
  }

  lemma {:induction false} EmptySpan(scores: seq<nat>, from: int)
    ensures SpanCount(scores, from, 0) == 0
  {
    if scores == [] {
    } else {
      EmptySpan(scores[..|scores| - 1], from);
    }
  }

  /** One client alone then passes any number of times. */
  lemma PrunesItselfRun(p: Params, start: nat, n: nat, length: nat)
    requires p.clients >= 1 && p.limit >= 1 && PrunesItself(p, start) && length >= 1
    ensures PromptRun(p, Init(p, start), Rounds(n))
    ensures SpanCount(Admissions(p, start, Rounds(n)), start - 1, length) == n
  {
    RoundsRun(p, start, n);
    AllInSpan(Admissions(p, start, Rounds(n)), start - 1, length);
  }

  /** The key of a full burst expires before the burst leaves the window. */
  function Forgotten(p: Params): Schedule
    requires p.limit >= 1 && p.expiry.Some?
  {
    Ticks(FullBurst(p), p.expiry.value)
  }

  lemma ForgottenRun(p: Params, start: nat)
    requires p.clients >= 1 && p.limit >= 1 && start >= 1 && !LongExpiry(p)
    ensures PromptRun(p, Init(p, start), Forgotten(p))
    ensures var s := Run(p, Init(p, start), Forgotten(p));
            && s.clock == start + p.expiry.value && s.phases == Rep(p.clients, Idle) && s.scores == []
            && s.admitted == Rep(p.limit - 1 + p.clients, start)
  {
    hide Run, PromptRun, Ticks, FullBurst;
    FullBurstRun(p, start);
    TicksRun(p, Init(p, start), FullBurst(p), p.expiry.value);
  }

  /** One more request then exceeds the prompt bound. */
  lemma ForgottenRound(p: Params, start: nat)
    requires p.clients >= 1 && p.limit >= 1 && start >= 1 && !LongExpiry(p)
    ensures PromptRun(p, Init(p, start), Round(Forgotten(p), 0))
    ensures SpanCount(Admissions(p, start, Round(Forgotten(p), 0)), start - 1, p.window) == p.limit + p.clients
  {
    hide Run, PromptRun, Round, Forgotten, Step;
    ForgottenRun(p, start);
    RoundUnfolds(p, Init(p, start), Forgotten(p), 0);
    RoundIsAttempt(p, Run(p, Init(p, start), Forgotten(p)), 0, EMPTY_WINDOW);
    AllInSpan(Admissions(p, start, Round(Forgotten(p), 0)), start - 1, p.window);
  }

  /** With delays, everybody passes twice more: once at the new second, and once on a reading of that second that
      is used only when the key has expired again. */
  function ThirdBurst(p: Params): Schedule
    requires p.limit >= 1 && p.expiry.Some?
  {
    Burst(Burst(Forgotten(p), p.clients, 0), p.clients, p.expiry.value)
  }

  lemma ThirdBurstRun(p: Params, start: nat)
    requires p.clients >= 1 && p.limit >= 1 && start >= 1 && !LongExpiry(p)
    ensures var now := start + p.expiry.value;
            Admissions(p, start, ThirdBurst(p))
            == Rep(p.limit - 1 + p.clients, start) + Rep(p.clients, now) + Rep(p.clients, now)
  {
    hide Run, PromptRun, Burst, Forgotten;
    ForgottenRun(p, start);
    BurstRun(p, Init(p, start), Forgotten(p), 0);
    BurstRun(p, Init(p, start), Burst(Forgotten(p), p.clients, 0), p.expiry.value);
  }

  lemma NothingCounted(p: Params, start: nat)
    requires p.limit == 0 || p.window == 0
    ensures forall es: Schedule, from: int :: SpanCount(Admissions(p, start, es), from, p.window) == 0
  {
    forall es: Schedule, from: int ensures SpanCount(Admissions(p, start, es), from, p.window) == 0 {
      if p.limit == 0 { NothingAdmitted(p, start, es); } else { EmptySpan(Admissions(p, start, es), from); }
    }
  }

  /** The promised bound holds on every prompt schedule exactly when nothing can be counted, or the clock starts
      after second 0 and the key does not expire within its window. */
  lemma PromptBoundHoldsIff(p: Params, start: nat)
    requires p.clients >= 1
    ensures PromptBounded(p, start, p.limit + p.clients - 1)
       <==> p.limit == 0 || p.window == 0 || (start >= 1 && LongExpiry(p))
  {
    var bound := p.limit + p.clients - 1;
    if p.limit == 0 || p.window == 0 {
      NothingCounted(p, start);
    } else if start == 0 {
      PrunesItselfRun(p, start, bound + 1, p.window);
    } else if LongExpiry(p) {
      PromptScheduleBound(p, start);
    } else {
      ForgottenRound(p, start);
    }
  }

  /** The bound for arbitrary delays holds in exactly the same cases. */
  lemma AnyBoundHoldsIff(p: Params, start: nat)
    requires p.clients >= 1
    ensures AnyBounded(p, start, p.limit + 2 * p.clients - 1)
       <==> p.limit == 0 || p.window == 0 || (start >= 1 && LongExpiry(p))
  {
    var bound := p.limit + 2 * p.clients - 1;
    if p.limit == 0 || p.window == 0 {
      NothingCounted(p, start);
    } else if start == 0 {
      PrunesItselfRun(p, start, bound + 1, p.window);
    } else if LongExpiry(p) {
      AnyScheduleBound(p, start);
    } else {
      ThirdBurstRun(p, start);
      AllInSpan(Admissions(p, start, ThirdBurst(p)), start - 1, p.window);
      assert SpanCount(Admissions(p, start, ThirdBurst(p)), start - 1, p.window) > bound;
    }
  }

  // ----- How much of the window a delay costs -----

  lemma {:induction false} TicksInTime(p: Params, s0: State, es: Schedule, d: nat, delay: nat)
    requires DelayedRun(p, s0, es, delay)
    requires var s := Run(p, s0, es);
             forall i :: 0 <= i < |s.phases| && Checking(s.phases[i]) ==> s.clock + d <= s.phases[i].now + delay
    ensures DelayedRun(p, s0, Ticks(es, d), delay)
  {
    if d == 0 {
    } else {
      TicksInTime(p, s0, es, d - 1, delay);
      TicksRun(p, s0, es, d - 1);
    }
  }

  /** `n` seconds after a full burst client `i` reads the clock, and it is delayed for `d` more. */
  function LateRead(p: Params, i: nat, n: nat, d: nat): Schedule
    requires p.limit >= 1
  {
    Ticks(Then(Ticks(FullBurst(p), n), ReadClock(i)), d)
  }

  /** Client `i` goes on to its commit. */
  function Finish(es: Schedule, i: nat): Schedule {
    Then(Then(Then(es, PruneSet(i)), CountSet(i)), Commit(i))
  }

  /** Client 0 reads the clock and prunes. */
  function Clear(es: Schedule): Schedule {
    Then(Then(es, ReadClock(0)), PruneSet(0))
  }

  /** The full burst, `n` seconds later. */
  lemma BurstWaitRun(p: Params, start: nat, n: nat, delay: nat)
    requires p.clients >= 1 && p.limit >= 1 && p.window >= 1 && start >= 1
    ensures DelayedRun(p, Init(p, start), Ticks(FullBurst(p), n), delay)
    ensures var s := Run(p, Init(p, start), Ticks(FullBurst(p), n));
            && s.clock == start + n && s.phases == Rep(p.clients, Idle)
            && s.admitted == Rep(p.limit - 1 + p.clients, start)
            && (forall i :: 0 <= i < |s.scores| ==> s.scores[i] == start)
            && (p.expiry.Some? ==> s.deadline == start + p.expiry.value && (p.expiry.value <= n ==> s.scores == []))
  {
    FullBurstRun(p, start);
    TicksRun(p, Init(p, start), FullBurst(p), n);
    PromptIsInTime(p, Init(p, start), Ticks(FullBurst(p), n), delay);
  }

  /** A client reads the clock and is delayed. */
  lemma DelayRun(p: Params, s0: State, es: Schedule, i: nat, d: nat, delay: nat)
    requires i < p.clients && d <= delay
    requires DelayedRun(p, s0, es, delay) && Run(p, s0, es).phases == Rep(p.clients, Idle)
    ensures DelayedRun(p, s0, Ticks(Then(es, ReadClock(i)), d), delay)
    ensures var s, s' := Run(p, s0, es), Run(p, s0, Ticks(Then(es, ReadClock(i)), d));
            && s'.clock == s.clock + d && s'.admitted == s.admitted && s'.scores == Left(p, s, d)
            && s'.phases == Rep(p.clients, Idle)[i := Read(s.clock)]
  {
    TicksInTime(p, s0, Then(es, ReadClock(i)), d, delay);
    TicksRun(p, s0, Then(es, ReadClock(i)), d);
  }

  lemma LateReadRun(p: Params, start: nat, i: nat, n: nat, d: nat, delay: nat)
    requires i < p.clients && p.limit >= 1 && p.window >= 1 && start >= 1 && d <= delay
    ensures DelayedRun(p, Init(p, start), LateRead(p, i, n, d), delay)
    ensures var s := Run(p, Init(p, start), LateRead(p, i, n, d));
            && s.clock == start + n + d && s.phases == Rep(p.clients, Idle)[i := Read(start + n)]
            && s.admitted == Rep(p.limit - 1 + p.clients, start)
            && (forall k :: 0 <= k < |s.scores| ==> s.scores[k] == start)
            && (p.expiry.Some? && p.expiry.value <= n + d ==> s.scores == [])
  {
    hide Run, DelayedRun, Ticks, FullBurst;
    BurstWaitRun(p, start, n, delay);
    DelayRun(p, Init(p, start), Ticks(FullBurst(p), n), i, d, delay);
  }

  /** A client whose pruning leaves nothing is admitted. */
  lemma FinishRun(p: Params, s0: State, es: Schedule, i: nat, read: nat, delay: nat)
    requires var s := Run(p, s0, es);
             i < |s.phases| && s.phases[i] == Read(read) && Prune(s.scores, WindowStart(read, p.window)) == []
    requires p.limit >= 1 && DelayedRun(p, s0, es, delay)
    ensures DelayedRun(p, s0, Finish(es, i), delay)
    ensures Run(p, s0, Finish(es, i)).admitted == Run(p, s0, es).admitted + [read]
  {
    var e1 := Then(es, PruneSet(i));
    var e2 := Then(e1, CountSet(i));
    assert Run(p, s0, e1) == Step(p, Run(p, s0, es), PruneSet(i));
    assert Run(p, s0, e2) == Step(p, Run(p, s0, e1), CountSet(i));
    assert DelayedRun(p, s0, e2, delay);
  }

  /** Client 0 removes everything that is a window old. */
  lemma ClearRun(p: Params, s0: State, es: Schedule, start: nat, delay: nat)
    requires var s := Run(p, s0, es);
             && |s.phases| >= 1 && s.phases[0].Idle? && start >= 1 && s.clock == start + p.window
             && forall k :: 0 <= k < |s.scores| ==> s.scores[k] == start
    ensures var s, s' := Run(p, s0, es), Run(p, s0, Clear(es));
            && s'.scores == [] && s'.admitted == s.admitted
            && s'.phases == s.phases[0 := Pruned(s.clock)]
    ensures DelayedRun(p, s0, Clear(es), delay) <==> DelayedRun(p, s0, es, delay)
  {
    var s, e1 := Run(p, s0, es), Then(es, ReadClock(0));
    assert Run(p, s0, e1) == Step(p, s, ReadClock(0));
    PruneAll(s.scores, start);
  }

  /** A read that comes late enough for the burst to be gone exceeds the prompt bound. */
  lemma LoneCountRun(p: Params, start: nat, n: nat, d: nat, delay: nat)
    requires p.clients >= 1 && p.limit >= 1 && p.window >= 1 && start >= 1 && d <= delay
    requires n >= p.window || !Outlives(p, n + d + 1)
    ensures DelayedRun(p, Init(p, start), Finish(LateRead(p, 0, n, d), 0), delay)
    ensures Admissions(p, start, Finish(LateRead(p, 0, n, d), 0)) == Rep(p.limit - 1 + p.clients, start) + [start + n]
  {
    hide Run, DelayedRun, LateRead, Finish;
    LateReadRun(p, start, 0, n, d, delay);
    var s := Run(p, Init(p, start), LateRead(p, 0, n, d));
    if n >= p.window { PruneAll(s.scores, WindowStart(start + n, p.window)); }
    FinishRun(p, Init(p, start), LateRead(p, 0, n, d), 0, start + n, delay);
  }

  /** With a second client the late read need not be late itself: the other one removes the burst. */
  lemma PairCountRun(p: Params, start: nat, n: nat, d: nat, delay: nat)
    requires p.clients >= 2 && p.limit >= 1 && p.window >= 1 && start >= 1 && d <= delay && n + d == p.window
    ensures DelayedRun(p, Init(p, start), Finish(Clear(LateRead(p, 1, n, d)), 1), delay)
    ensures Admissions(p, start, Finish(Clear(LateRead(p, 1, n, d)), 1))
         == Rep(p.limit - 1 + p.clients, start) + [start + n]
  {
    hide Run, DelayedRun, LateRead, Clear, Finish;
    LateReadRun(p, start, 1, n, d, delay);
    ClearRun(p, Init(p, start), LateRead(p, 1, n, d), start, delay);
    assert Prune([], WindowStart(start + n, p.window)) == [];
    FinishRun(p, Init(p, start), Clear(LateRead(p, 1, n, d)), 1, start + n, delay);
  }

  function Min(a: nat, b: nat): nat {
    if a <= b then a else b
  }

  /** The burst and one more admission `n` seconds later, all in one span. */
  lemma BurstAndOne(admitted: seq<nat>, burst: nat, start: nat, n: nat, length: nat)
    requires admitted == Rep(burst, start) + [start + n] && start >= 1 && n < length
    ensures SpanCount(admitted, start - 1, length) == burst + 1
  {
    AllInSpan(admitted, start - 1, length);
  }

  /** Outside the covered spans some run exceeds the bound by one. */
  lemma Uncovered(p: Params, start: nat, length: nat, delay: nat) returns (es: Schedule)
    requires p.clients >= 1 && p.limit >= 1 && p.window >= 1 && start >= 1 && length >= 1 && !Covered(p, length, delay)
    ensures DelayedRun(p, Init(p, start), es, delay)
    ensures SpanCount(Admissions(p, start, es), start - 1, length) == p.limit + p.clients
  {
    hide Run, DelayedRun, LateRead, Clear, Finish, Admissions, SpanCount;
    var n: nat;
    if !Outlives(p, length + delay) {
      var d := Min(delay, p.expiry.value);
      n := p.expiry.value - d;
      es := Finish(LateRead(p, 0, n, d), 0);
      LoneCountRun(p, start, n, d, delay);
    } else if p.clients == 1 {
      n := p.window;
      es := Finish(LateRead(p, 0, n, 0), 0);
      LoneCountRun(p, start, n, 0, delay);
    } else {
      var d := Min(delay, p.window);
      n := p.window - d;
      es := Finish(Clear(LateRead(p, 1, n, d)), 1);
      PairCountRun(p, start, n, d, delay);
    }
    BurstAndOne(Admissions(p, start, es), p.limit - 1 + p.clients, start, n, length);
  }

  /** With delays of at most `delay` the prompt bound holds exactly for the covered spans; for several clients these
      are shorter than the window by the delay. */
  lemma DelayBoundHoldsIff(p: Params, start: nat, length: nat, delay: nat)
    requires p.clients >= 1
    ensures DelayBounded(p, start, length, delay, p.limit + p.clients - 1)
       <==> p.limit == 0 || length == 0 || (start >= 1 && Covered(p, length, delay))
  {
    var bound := p.limit + p.clients - 1;
    if p.limit == 0 || length == 0 {
      forall es: Schedule, from: int ensures SpanCount(Admissions(p, start, es), from, length) == 0 {
        if p.limit == 0 { NothingAdmitted(p, start, es); } else { EmptySpan(Admissions(p, start, es), from); }
      }
    } else if PrunesItself(p, start) {
      PrunesItselfRun(p, start, bound + 1, length);
      PromptIsInTime(p, Init(p, start), Rounds(bound + 1), delay);
    } else if Covered(p, length, delay) {
      DelayScheduleBound(p, start, length, delay);
    } else {
      var es := Uncovered(p, start, length, delay);
    }
  }
}
