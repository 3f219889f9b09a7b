/**
 The limiter as it really runs: `clients` requests at a time, each reading the clock, pruning, counting
 and committing in separate steps that interleave with everybody else's and with the passing of time.
 A client slot that has finished starts over with the next request, and a request can go away at any point.
 */
module WindowProtocol {
  import opened Wrappers
  import opened SlidingWindow

  type Seconds = x: nat | x >= 1 witness 1

  /** `expiry` is None for a key that never expires. */
  datatype Params = Params(limit: nat, window: nat, expiry: Option<Seconds>, clients: nat)

  datatype Phase =
    | Idle
    | Read(now: nat)      // clock read, nothing sent to Redis yet
    | Pruned(now: nat)    // old scores removed, not counted yet
    | Admitted(now: nat)  // counted below the limit, score not added yet

  datatype Event =
    | Tick
    | ReadClock(client: nat)
    | PruneSet(client: nat)
    | CountSet(client: nat)
    | Commit(client: nat)
    | Drop(client: nat)    // the request goes away, wherever it stands

  /** `admitted` records every score ever added. */
  datatype State = State(clock: nat, scores: seq<nat>, deadline: nat, phases: seq<Phase>, admitted: seq<nat>)

  function Init(p: Params, start: nat): State {
    State(start, [], 0, seq(p.clients, _ => Idle), [])
  }

  /** One step. An event that the addressed client cannot take leaves the state alone. */
  function Step(p: Params, s: State, e: Event): State {
    match e
    case Tick =>
      var expired := p.expiry.Some? && s.deadline <= s.clock + 1;
      s.(clock := s.clock + 1, scores := if expired then [] else s.scores)
    case ReadClock(i) =>
      if i < |s.phases| && s.phases[i].Idle? then s.(phases := s.phases[i := Read(s.clock)]) else s
    case PruneSet(i) =>
      if i < |s.phases| && s.phases[i].Read? then
        var now := s.phases[i].now;
        s.(phases := s.phases[i := Pruned(now)], scores := Prune(s.scores, WindowStart(now, p.window)))
      else s
    case CountSet(i) =>
      if i < |s.phases| && s.phases[i].Pruned? then
        if |s.scores| >= p.limit then s.(phases := s.phases[i := Idle])
        else s.(phases := s.phases[i := Admitted(s.phases[i].now)])
      else s
    case Commit(i) =>
      if i < |s.phases| && s.phases[i].Admitted? then
        var now := s.phases[i].now;
        s.(phases := s.phases[i := Idle], scores := s.scores + [now], admitted := s.admitted + [now],
           deadline := if p.expiry.Some? then s.clock + p.expiry.value else s.deadline)
      else s
    case Drop(i) =>
      if i < |s.phases| then s.(phases := s.phases[i := Idle]) else s
  }

  /** The steps of all clients and the clock, in the order they happened. */
  datatype Schedule = Begin | Then(before: Schedule, event: Event)

  function Run(p: Params, s: State, es: Schedule): State {
    match es
    case Begin => s
    case Then(before, e) => Step(p, Run(p, s, before), e)
  }

  predicate Checking(ph: Phase) {
    ph.Read? || ph.Pruned?
  }

  /** Time does not pass between a client's clock read and its count. */
  predicate Prompt(s: State, e: Event) {
    e.Tick? ==> forall i :: 0 <= i < |s.phases| ==> !Checking(s.phases[i])
  }

  predicate PromptRun(p: Params, s: State, es: Schedule) {
    match es
    case Begin => true
    case Then(before, e) => PromptRun(p, s, before) && Prompt(Run(p, s, before), e)
  }

  /** At most `delay` seconds pass between a client's clock read and its count. */
  predicate InTime(s: State, e: Event, delay: nat) {
    e.Tick? ==> forall i :: 0 <= i < |s.phases| && Checking(s.phases[i]) ==> s.clock < s.phases[i].now + delay
  }

  predicate DelayedRun(p: Params, s: State, es: Schedule, delay: nat) {
    match es
    case Begin => true
    case Then(before, e) => DelayedRun(p, s, before, delay) && InTime(Run(p, s, before), e, delay)
  }

  // ----- Counting clients by what they still carry into a span -----

  predicate InSpan(x: nat, from: int, window: nat) {
    from < x <= from + window
  }

  /** 1 for a client about to commit a score in the span. */
  function Passing(ph: Phase, from: int, window: nat): nat {
    if ph.Admitted? && InSpan(ph.now, from, window) then 1 else 0
  }

  /** 1 for a client that may still pass its count with a clock reading in the span. */
  function Reading(ph: Phase, from: int, window: nat): nat {
    if Checking(ph) && InSpan(ph.now, from, window) then 1 else 0
  }

  function AllPassing(phases: seq<Phase>, from: int, window: nat): nat {
    if phases == [] then 0
    else AllPassing(phases[..|phases| - 1], from, window) + Passing(phases[|phases| - 1], from, window)
  }

  function AllReading(phases: seq<Phase>, from: int, window: nat): nat {
    if phases == [] then 0
    else AllReading(phases[..|phases| - 1], from, window) + Reading(phases[|phases| - 1], from, window)
  }

  lemma {:induction false} PhaseUpdate(phases: seq<Phase>, i: nat, ph: Phase, from: int, window: nat)
    requires i < |phases|
    ensures AllPassing(phases[i := ph], from, window)
         == AllPassing(phases, from, window) - Passing(phases[i], from, window) + Passing(ph, from, window)
    ensures AllReading(phases[i := ph], from, window)
         == AllReading(phases, from, window) - Reading(phases[i], from, window) + Reading(ph, from, window)
  {
    var init, updated := phases[..|phases| - 1], phases[i := ph];
    if i == |phases| - 1 {
      assert updated[..|updated| - 1] == init;
    } else {
      PhaseUpdate(init, i, ph, from, window);
      assert updated[..|updated| - 1] == init[i := ph];
    }
  }

  lemma {:induction false} PhasesBound(phases: seq<Phase>, from: int, window: nat)
    ensures AllPassing(phases, from, window) + AllReading(phases, from, window) <= |phases|
  {
    if phases == [] {
    } else {
      PhasesBound(phases[..|phases| - 1], from, window);
    }
  }

  lemma {:induction false} NoneInSpan(phases: seq<Phase>, from: int, window: nat)
    requires forall i :: 0 <= i < |phases| ==> Passing(phases[i], from, window) == Reading(phases[i], from, window) == 0
    ensures AllPassing(phases, from, window) == AllReading(phases, from, window) == 0
  {
    if phases == [] {
    } else {
      assert phases[|phases| - 1] == phases[|phases| - 1];
      NoneInSpan(phases[..|phases| - 1], from, window);
    }
  }

  // ----- The invariant, for one fixed span -----

  /** Clock readings and scores are in the past, and the expiry lies beyond every stored score. */
  ghost predicate Timely(p: Params, s: State) {
    && |s.phases| == p.clients
    && (forall i :: 0 <= i < |s.phases| && !s.phases[i].Idle? ==> s.phases[i].now <= s.clock)
    && (forall x :: x in s.scores ==> x <= s.clock && (p.expiry.Some? ==> x + p.expiry.value <= s.deadline))
  }

  /** Nothing of the span has been pruned or expired yet. */
  predicate Intact(s: State, from: int, length: nat) {
    SpanCount(s.scores, from, length) >= SpanCount(s.admitted, from, length)
  }

  function Due(s: State, from: int, length: nat): nat {
    SpanCount(s.admitted, from, length) + AllPassing(s.phases, from, length)
  }

  /** Until the span is first touched, admissions stay below `limit + clients`; afterwards the clients
      that had read the clock before can add one score each, and nobody else can. */
  ghost predicate SpanInv(p: Params, s: State, from: int) {
    && Timely(p, s)
    && (|| (Intact(s, from, p.window) && Due(s, from, p.window) < p.limit + p.clients)
        || (s.clock > from + p.window
            && Due(s, from, p.window) + AllReading(s.phases, from, p.window) < p.limit + 2 * p.clients))
  }

  /** The same for runs with bounded delays, where a span shorter than the window by the delay is still intact
      when the last clock reading in it is used. */
  ghost predicate DelayInv(p: Params, s: State, from: int, length: nat, delay: nat) {
    && Timely(p, s)
    && (forall i :: 0 <= i < |s.phases| && Checking(s.phases[i]) ==> s.clock <= s.phases[i].now + delay)
    && Due(s, from, length) < p.limit + p.clients
    && (s.clock <= from + length + delay ==> Intact(s, from, length))
  }

  /** A client may still come to a count with a clock reading at or before `time`. */
  predicate Awaits(s: State, time: int) {
    s.clock <= time || exists i :: 0 <= i < |s.phases| && Checking(s.phases[i]) && s.phases[i].now <= time
  }

  /** With one client nobody else can prune a span, so that only the expiry can touch it too early. */
  ghost predicate AloneInv(p: Params, s: State, from: int, length: nat, delay: nat) {
    && Timely(p, s)
    && (forall i :: 0 <= i < |s.phases| && Checking(s.phases[i]) ==> s.clock <= s.phases[i].now + delay)
    && Due(s, from, length) < p.limit + p.clients
    && (Awaits(s, from + length) ==> Intact(s, from, length))
  }

  /** The key does not expire within `n` seconds of its last use. */
  predicate Outlives(p: Params, n: nat) {
    p.expiry.Some? ==> p.expiry.value >= n
  }

  predicate LongExpiry(p: Params) {
    Outlives(p, p.window)
  }

  lemma TimelyStep(p: Params, s: State, e: Event)
    requires Timely(p, s)
    ensures Timely(p, Step(p, s, e))
  {
    if e.PruneSet? && e.client < |s.phases| && s.phases[e.client].Read? {
      PruneKeeps(s.scores, WindowStart(s.phases[e.client].now, p.window));
    }
  }

  /** A tick that expires the key while a span holds admissions comes more than the expiry after its start. */
  lemma TickIntact(p: Params, s: State, from: int, length: nat)
    requires Timely(p, s) && Intact(s, from, length)
    ensures Intact(Step(p, s, Tick), from, length) || (p.expiry.Some? && s.clock + 1 > from + p.expiry.value)
  {
    var s' := Step(p, s, Tick);
    if s'.scores != s.scores && SpanCount(s.scores, from, length) > 0 {
      var x := SpanWitness(s.scores, from, length);
    }
  }

  lemma InitInv(p: Params, start: nat, from: int, length: nat, delay: nat)
    requires p.clients >= 1
    ensures SpanInv(p, Init(p, start), from)
    ensures DelayInv(p, Init(p, start), from, length, delay) && AloneInv(p, Init(p, start), from, length, delay)
  {
    NoneInSpan(Init(p, start).phases, from, p.window);
    NoneInSpan(Init(p, start).phases, from, length);
  }

  /** What one client step does to the three quantities of the invariants. */
  ghost predicate Effect(s: State, s': State, from: int, length: nat, due: int, reading: int) {
    && s'.clock == s.clock && |s'.phases| == |s.phases|
    && Due(s', from, length) == Due(s, from, length) + due
    && AllReading(s'.phases, from, length) == AllReading(s.phases, from, length) + reading
  }

  function One(b: bool): int {
    if b then 1 else 0
  }

  lemma ReadEffect(p: Params, s: State, i: nat, from: int, length: nat)
    requires i < |s.phases| && s.phases[i].Idle?
    ensures Effect(s, Step(p, s, ReadClock(i)), from, length, 0, One(InSpan(s.clock, from, length)))
  {
    PhaseUpdate(s.phases, i, Read(s.clock), from, length);
  }

  lemma PruneEffect(p: Params, s: State, i: nat, from: int, length: nat)
    requires i < |s.phases| && s.phases[i].Read?
    ensures var s' := Step(p, s, PruneSet(i));
            && Effect(s, s', from, length, 0, 0)
            && (WindowStart(s.phases[i].now, p.window) <= from && Intact(s, from, length) ==> Intact(s', from, length))
  {
    var now := s.phases[i].now;
    PhaseUpdate(s.phases, i, Pruned(now), from, length);
    if WindowStart(now, p.window) <= from { PruneBelowSpan(s.scores, WindowStart(now, p.window), from, length); }
  }

  lemma CountEffect(p: Params, s: State, i: nat, from: int, length: nat)
    requires i < |s.phases| && s.phases[i].Pruned?
    ensures var b := One(InSpan(s.phases[i].now, from, length));
            Effect(s, Step(p, s, CountSet(i)), from, length, if |s.scores| < p.limit then b else 0, -b)
  {
    PhaseUpdate(s.phases, i, Idle, from, length);
    PhaseUpdate(s.phases, i, Admitted(s.phases[i].now), from, length);
  }

  lemma CommitEffect(p: Params, s: State, i: nat, from: int, length: nat)
    requires i < |s.phases| && s.phases[i].Admitted?
    ensures var s' := Step(p, s, Commit(i));
            Effect(s, s', from, length, 0, 0) && (Intact(s, from, length) ==> Intact(s', from, length))
  {
    var now, s' := s.phases[i].now, Step(p, s, Commit(i));
    PhaseUpdate(s.phases, i, Idle, from, length);
    assert s'.phases == s.phases[i := Idle] && s'.scores == s.scores + [now] && s'.admitted == s.admitted + [now];
    SpanCountAppend(s.scores, now, from, length);
    SpanCountAppend(s.admitted, now, from, length);
    assert Passing(s.phases[i], from, length) == One(InSpan(now, from, length));
  }

  lemma DropEffect(p: Params, s: State, i: nat, from: int, length: nat)
    requires i < |s.phases|
    ensures Effect(s, Step(p, s, Drop(i)), from, length,
                   0 - Passing(s.phases[i], from, length), 0 - Reading(s.phases[i], from, length))
  {
    PhaseUpdate(s.phases, i, Idle, from, length);
  }

  /** The client that an event addresses is in the phase that the event needs. */
  predicate Enabled(s: State, e: Event) {
    match e
    case Tick => true
    case ReadClock(i) => i < |s.phases| && s.phases[i].Idle?
    case PruneSet(i) => i < |s.phases| && s.phases[i].Read?
    case CountSet(i) => i < |s.phases| && s.phases[i].Pruned?
    case Commit(i) => i < |s.phases| && s.phases[i].Admitted?
    case Drop(i) => i < |s.phases|
  }

  lemma SpanInvStep(p: Params, s: State, e: Event, from: nat)
    requires p.clients >= 1 && LongExpiry(p) && SpanInv(p, s, from)
    ensures SpanInv(p, Step(p, s, e), from)
  {
    hide SpanCount, AllPassing, AllReading, Prune;
    TimelyStep(p, s, e);
    if Enabled(s, e) {
      PhasesBound(s.phases, from, p.window);
      PhasesBound(Step(p, s, e).phases, from, p.window);
      match e
      case Tick => if Intact(s, from, p.window) { TickIntact(p, s, from, p.window); }
      case ReadClock(i) => ReadEffect(p, s, i, from, p.window);
      case PruneSet(i) => PruneEffect(p, s, i, from, p.window);
      case CountSet(i) => CountEffect(p, s, i, from, p.window);
      case Commit(i) => CommitEffect(p, s, i, from, p.window);
      case Drop(i) => DropEffect(p, s, i, from, p.window);
    }
  }

  lemma DelayInvStep(p: Params, s: State, e: Event, from: nat, length: nat, delay: nat)
    requires p.clients >= 1 && length + delay <= p.window && Outlives(p, length + delay)
    requires DelayInv(p, s, from, length, delay) && InTime(s, e, delay)
    ensures DelayInv(p, Step(p, s, e), from, length, delay)
  {
    hide SpanCount, AllPassing, AllReading, Prune;
    TimelyStep(p, s, e);
    if Enabled(s, e) {
      PhasesBound(Step(p, s, e).phases, from, length);
      match e
      case Tick => if s.clock <= from + length + delay { TickIntact(p, s, from, length); }
      case ReadClock(i) => ReadEffect(p, s, i, from, length);
      case PruneSet(i) => PruneEffect(p, s, i, from, length);
      case CountSet(i) => CountEffect(p, s, i, from, length);
      case Commit(i) => CommitEffect(p, s, i, from, length);
      case Drop(i) => DropEffect(p, s, i, from, length);
    }
  }

  lemma AloneInvStep(p: Params, s: State, e: Event, from: nat, length: nat, delay: nat)
    requires p.clients == 1 && length <= p.window && Outlives(p, length + delay)
    requires AloneInv(p, s, from, length, delay) && InTime(s, e, delay)
    ensures AloneInv(p, Step(p, s, e), from, length, delay)
  {
    hide SpanCount, AllPassing, AllReading, Prune;
    TimelyStep(p, s, e);
    if Enabled(s, e) {
      PhasesBound(Step(p, s, e).phases, from, length);
      match e
      case Tick => if Awaits(s, from + length) { TickIntact(p, s, from, length); }
      case ReadClock(i) => ReadEffect(p, s, i, from, length);
      case PruneSet(i) => PruneEffect(p, s, i, from, length);
      case CountSet(i) => CountEffect(p, s, i, from, length);
      case Commit(i) => CommitEffect(p, s, i, from, length);
      case Drop(i) => DropEffect(p, s, i, from, length);
    }
  }

  // ----- The bounds -----

  /** Whatever the schedule, a span starting at 0 or later holds fewer than `limit + 2 * clients` admissions. */
  lemma {:induction false} AnyScheduleInv(p: Params, start: nat, es: Schedule, from: nat)
    requires p.clients >= 1 && LongExpiry(p)
    ensures SpanInv(p, Run(p, Init(p, start), es), from)
  {
    if es.Begin? {
      InitInv(p, start, from, 0, 0);
    } else {
      AnyScheduleInv(p, start, es.before, from);
      SpanInvStep(p, Run(p, Init(p, start), es.before), es.event, from);
    }
  }

  lemma {:induction false} DelayScheduleInv(p: Params, start: nat, es: Schedule, from: nat, length: nat, delay: nat)
    requires p.clients >= 1 && length + delay <= p.window && Outlives(p, length + delay)
    requires DelayedRun(p, Init(p, start), es, delay)
    ensures DelayInv(p, Run(p, Init(p, start), es), from, length, delay)
  {
    if es.Begin? {
      InitInv(p, start, from, length, delay);
    } else {
      DelayScheduleInv(p, start, es.before, from, length, delay);
      DelayInvStep(p, Run(p, Init(p, start), es.before), es.event, from, length, delay);
    }
  }

  lemma {:induction false} AloneScheduleInv(p: Params, start: nat, es: Schedule, from: nat, length: nat, delay: nat)
    requires p.clients == 1 && length <= p.window && Outlives(p, length + delay)
    requires DelayedRun(p, Init(p, start), es, delay)
    ensures AloneInv(p, Run(p, Init(p, start), es), from, length, delay)
  {
    if es.Begin? {
      InitInv(p, start, from, length, delay);
    } else {
      AloneScheduleInv(p, start, es.before, from, length, delay);
      AloneInvStep(p, Run(p, Init(p, start), es.before), es.event, from, length, delay);
    }
  }

  /** A clock that starts at `start` is never read earlier. */
  lemma {:induction false} NoEarlierScore(p: Params, start: nat, es: Schedule)
    ensures var s := Run(p, Init(p, start), es);
            && s.clock >= start
            && (forall i :: 0 <= i < |s.phases| && !s.phases[i].Idle? ==> s.phases[i].now >= start)
            && (forall i :: 0 <= i < |s.admitted| ==> s.admitted[i] >= start)
  {
    if es.Begin? {
    } else {
      NoEarlierScore(p, start, es.before);
    }
  }

  /** The admissions of a run, and the bounds on them over every schedule and every span. */
  function Admissions(p: Params, start: nat, es: Schedule): seq<nat> {
    Run(p, Init(p, start), es).admitted
  }

  ghost predicate AnyBounded(p: Params, start: nat, bound: nat) {
    forall es: Schedule, from: int :: SpanCount(Admissions(p, start, es), from, p.window) <= bound
  }

  ghost predicate PromptBounded(p: Params, start: nat, bound: nat) {
    forall es: Schedule, from: int ::
      PromptRun(p, Init(p, start), es) ==> SpanCount(Admissions(p, start, es), from, p.window) <= bound
  }

  /** Spans of the given length, over every schedule with delays of at most `delay`. */
  ghost predicate DelayBounded(p: Params, start: nat, length: nat, delay: nat, bound: nat) {
    forall es: Schedule, from: int ::
      DelayedRun(p, Init(p, start), es, delay) ==> SpanCount(Admissions(p, start, es), from, length) <= bound
  }

  lemma AnyScheduleBound(p: Params, start: nat)
    requires p.clients >= 1 && LongExpiry(p) && start >= 1
    ensures AnyBounded(p, start, p.limit + 2 * p.clients - 1)
  {
    forall es: Schedule, from: int
      ensures SpanCount(Admissions(p, start, es), from, p.window) <= p.limit + 2 * p.clients - 1
    {
      NoEarlierScore(p, start, es);
      if from < 0 { SpanFromZero(Admissions(p, start, es), from, p.window); }
      AnyScheduleInv(p, start, es, if from < 0 then 0 else from);
    }
  }

  /** Spans for which delays of at most `delay` leave the bound as it is: the last clock reading in the span is used
      before anybody else can prune the span, and before the key can expire. */
  predicate Covered(p: Params, length: nat, delay: nat) {
    && (if p.clients == 1 then length else length + delay) <= p.window
    && Outlives(p, length + delay)
  }

  lemma DelayScheduleBound(p: Params, start: nat, length: nat, delay: nat)
    requires p.clients >= 1 && start >= 1 && Covered(p, length, delay)
    ensures DelayBounded(p, start, length, delay, p.limit + p.clients - 1)
  {
    forall es: Schedule, from: int | DelayedRun(p, Init(p, start), es, delay)
      ensures SpanCount(Admissions(p, start, es), from, length) <= p.limit + p.clients - 1
    {
      NoEarlierScore(p, start, es);
      if from < 0 { SpanFromZero(Admissions(p, start, es), from, length); }
      if p.clients == 1 {
        AloneScheduleInv(p, start, es, if from < 0 then 0 else from, length, delay);
      } else {
        DelayScheduleInv(p, start, es, if from < 0 then 0 else from, length, delay);
      }
    }
  }

  lemma {:induction false} PromptIsInTime(p: Params, s: State, es: Schedule, delay: nat)
    requires PromptRun(p, s, es)
    ensures DelayedRun(p, s, es, delay)
  {
    if es.Begin? {
    } else {
      PromptIsInTime(p, s, es.before, delay);
    }
  }

  lemma PromptScheduleBound(p: Params, start: nat)
    requires p.clients >= 1 && LongExpiry(p) && start >= 1
    ensures PromptBounded(p, start, p.limit + p.clients - 1)
  {
    DelayScheduleBound(p, start, p.window, 0);
    forall es: Schedule, from: int | PromptRun(p, Init(p, start), es)
      ensures SpanCount(Admissions(p, start, es), from, p.window) <= p.limit + p.clients - 1
    {
      PromptIsInTime(p, Init(p, start), es, 0);
    }
  }
}
