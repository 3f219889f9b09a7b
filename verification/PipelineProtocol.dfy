/**
 Several requests in the pipeline at a time. Every client takes the three window gates in turn, step by step, while the
 others and the clock go on in between; a request can be rejected or go away anywhere. What happens to one window is a
 schedule of the window protocol, so that its bounds hold for the pipeline.
 */
module PipelineProtocol {
  import opened Wrappers
  import opened SlidingWindow
  import opened Redis
  import opened Limits
  import opened Pipeline
  import P = WindowProtocol

  datatype Ask = Ask(apiKey: string, model: string)

  datatype DayStep = ToPrune | ToCount | ToAdd

  /** Where a client stands. The day window uses the clock reading of the minute window. */
  datatype Spot =
    | Waiting
    | AtRate(ask: Ask, phase: P.Phase)
    | AtMinute(ask: Ask, rateTime: nat, phase: P.Phase)
    | AtDay(ask: Ask, rateTime: nat, limitsTime: nat, step: DayStep)
    | PastWindows(ask: Ask, rateTime: nat, limitsTime: nat)

  /** One window's sorted set, and every score ever added to it. */
  datatype Cell = Cell(scores: seq<nat>, deadline: nat, admitted: seq<nat>)

  /** A request that passed the whole pipeline, with the times at which it met the windows. */
  datatype Pass = Pass(ask: Ask, rateTime: nat, limitsTime: nat)

  datatype State = State(clock: nat, cells: map<WindowKey, Cell>, spots: seq<Spot>, passed: seq<Pass>)

  datatype Event =
    | Tick
    | Arrive(client: nat, ask: Ask)
    | Advance(client: nat)  // the next step towards the next gate, or past the last one
    | Leave(client: nat)    // rejected by a later gate, or gone

  function CellAt(cells: map<WindowKey, Cell>, k: WindowKey): Cell {
    if k in cells then cells[k] else Cell([], 0, [])
  }

  function ParamsOf(limits: string -> KeyLimitConfig, clients: nat, k: WindowKey): P.Params {
    P.Params(LimitOn(k, limits(k.apiKey)), WindowOf(k), Some(TtlOf(k, limits(k.apiKey))), clients)
  }

  // ----- Steps -----

  function KeyAt(spot: Spot): Option<WindowKey> {
    match spot
    case AtRate(ask, _) => Some(RateKey(ask.apiKey, ask.model))
    case AtMinute(ask, _, _) => Some(RpmKey(ask.apiKey))
    case AtDay(ask, _, _, _) => Some(RpdKey(ask.apiKey))
    case _ => None
  }

  function DayPhase(now: nat, step: DayStep): P.Phase {
    match step case ToPrune => P.Read(now) case ToCount => P.Pruned(now) case ToAdd => P.Admitted(now)
  }

  function PhaseAt(spot: Spot): P.Phase {
    match spot
    case AtRate(_, phase) => phase
    case AtMinute(_, _, phase) => phase
    case AtDay(_, _, now, step) => DayPhase(now, step)
    case _ => P.Idle
  }

  function NextCell(p: P.Params, clock: nat, cell: Cell, phase: P.Phase): Cell {
    match phase
    case Read(now) => cell.(scores := Prune(cell.scores, WindowStart(now, p.window)))
    case Admitted(now) =>
      Cell(cell.scores + [now], if p.expiry.Some? then clock + p.expiry.value else cell.deadline, cell.admitted + [now])
    case _ => cell
  }

  function NextPhase(p: P.Params, clock: nat, cell: Cell, phase: P.Phase): P.Phase {
    match phase
    case Idle => P.Read(clock)
    case Read(now) => P.Pruned(now)
    case Pruned(now) => if |cell.scores| >= p.limit then P.Idle else P.Admitted(now)
    case Admitted(_) => P.Idle
  }

  /** A client that has added its score goes on to the next gate; one that was counted out is rejected. */
  function NextSpot(spot: Spot, next: P.Phase): Spot {
    match spot
    case AtRate(ask, phase) =>
      if phase.Admitted? then AtMinute(ask, phase.now, P.Idle) else if next.Idle? then Waiting else AtRate(ask, next)
    case AtMinute(ask, rateTime, phase) =>
      if phase.Admitted? then AtDay(ask, rateTime, phase.now, ToPrune)
      else if next.Idle? then Waiting
      else AtMinute(ask, rateTime, next)
    case AtDay(ask, rateTime, now, step) =>
      if step.ToAdd? then PastWindows(ask, rateTime, now)
      else if next.Idle? then Waiting
      else AtDay(ask, rateTime, now, if step.ToPrune? then ToCount else ToAdd)
    case _ => spot
  }

  function Expired(cell: Cell, clock: nat): Cell {
    if cell.deadline <= clock then cell.(scores := []) else cell
  }

  function Step(limits: string -> KeyLimitConfig, s: State, e: Event): State {
    match e
    case Tick =>
      s.(clock := s.clock + 1, cells := map k | k in s.cells :: Expired(s.cells[k], s.clock + 1))
    case Arrive(i, ask) =>
      if i < |s.spots| && s.spots[i].Waiting? then s.(spots := s.spots[i := AtRate(ask, P.Idle)]) else s
    case Advance(i) =>
      if i >= |s.spots| || s.spots[i].Waiting? then s
      else if s.spots[i].PastWindows? then
        var spot := s.spots[i];
        s.(spots := s.spots[i := Waiting], passed := s.passed + [Pass(spot.ask, spot.rateTime, spot.limitsTime)])
      else
        var spot, k := s.spots[i], KeyAt(s.spots[i]).value;
        var p, cell := ParamsOf(limits, |s.spots|, k), CellAt(s.cells, k);
        s.(spots := s.spots[i := NextSpot(spot, NextPhase(p, s.clock, cell, PhaseAt(spot)))],
           cells := s.cells[k := NextCell(p, s.clock, cell, PhaseAt(spot))])
    case Leave(i) =>
      if i < |s.spots| then s.(spots := s.spots[i := Waiting]) else s
  }

  datatype History = Begin | Then(before: History, event: Event)

  function Run(limits: string -> KeyLimitConfig, clients: nat, start: nat, h: History): (s: State)
    ensures |s.spots| == clients
  {
    match h
    case Begin => State(start, map[], seq(clients, _ => Waiting), [])
    case Then(before, e) => Step(limits, Run(limits, clients, start, before), e)
  }

  // ----- One window's view -----

  /** What client `i` is to window `k`; to the day window it is a reader from the minute window's clock reading on. */
  function Slot(k: WindowKey, spot: Spot): P.Phase {
    match spot
    case AtRate(ask, phase) => if k == RateKey(ask.apiKey, ask.model) then phase else P.Idle
    case AtMinute(ask, _, phase) =>
      if k == RpmKey(ask.apiKey) then phase
      else if k == RpdKey(ask.apiKey) && !phase.Idle? then P.Read(phase.now)
      else P.Idle
    case AtDay(ask, _, now, step) => if k == RpdKey(ask.apiKey) then DayPhase(now, step) else P.Idle
    case _ => P.Idle
  }

  function Slots(k: WindowKey, spots: seq<Spot>): (phases: seq<P.Phase>)
    ensures |phases| == |spots| && forall i :: 0 <= i < |spots| ==> phases[i] == Slot(k, spots[i])
  {
    if spots == [] then [] else Slots(k, spots[..|spots| - 1]) + [Slot(k, spots[|spots| - 1])]
  }

  function View(k: WindowKey, s: State): P.State {
    var cell := CellAt(s.cells, k);
    P.State(s.clock, cell.scores, cell.deadline, Slots(k, s.spots), cell.admitted)
  }

  function EventAt(phase: P.Phase, i: nat): P.Event {
    match phase
    case Idle => P.ReadClock(i)
    case Read(_) => P.PruneSet(i)
    case Pruned(_) => P.CountSet(i)
    case Admitted(_) => P.Commit(i)
  }

  /** What window `k` sees of an event. */
  function Seen(limits: string -> KeyLimitConfig, k: WindowKey, s: State, e: Event): Option<P.Event> {
    match e
    case Tick => Some(P.Tick)
    case Arrive(_, _) => None
    case Leave(i) => Some(P.Drop(i))
    case Advance(i) =>
      if i >= |s.spots| then None
      else if KeyAt(s.spots[i]) == Some(k) then Some(EventAt(PhaseAt(s.spots[i]), i))
      else if s.spots[i].AtMinute? && k == RpdKey(s.spots[i].ask.apiKey) then
        var phase, minute := s.spots[i].phase, RpmKey(k.apiKey);
        if phase.Idle? then Some(P.ReadClock(i))
        else if phase.Pruned? && |CellAt(s.cells, minute).scores| >= ParamsOf(limits, |s.spots|, minute).limit
        then Some(P.Drop(i))
        else None
      else None
  }

  function Stepped(p: P.Params, s: P.State, e: Option<P.Event>): P.State {
    if e.None? then s else P.Step(p, s, e.value)
  }

  lemma SlotsUpdate(k: WindowKey, spots: seq<Spot>, i: nat, spot: Spot)
    requires i < |spots|
    ensures Slots(k, spots[i := spot]) == Slots(k, spots)[i := Slot(k, spot)]
  {
  }

  lemma SlotsSame(k: WindowKey, spots: seq<Spot>, i: nat, spot: Spot)
    requires i < |spots| && Slot(k, spot) == Slot(k, spots[i])
    ensures Slots(k, spots[i := spot]) == Slots(k, spots)
  {
  }

  /** After a step at its gate a client is to that window what the protocol says. */
  lemma OwnSlot(k: WindowKey, spot: Spot, p: P.Params, clock: nat, cell: Cell)
    requires KeyAt(spot) == Some(k)
    ensures Slot(k, spot) == PhaseAt(spot)
    ensures var next := NextPhase(p, clock, cell, PhaseAt(spot)); Slot(k, NextSpot(spot, next)) == next
  {
  }

  lemma OwnFrame(limits: string -> KeyLimitConfig, k: WindowKey, s: State, i: nat)
    requires i < |s.spots| && KeyAt(s.spots[i]) == Some(k)
    ensures var p, cell, phase := ParamsOf(limits, |s.spots|, k), CellAt(s.cells, k), PhaseAt(s.spots[i]);
            var s' := Step(limits, s, Advance(i));
            && s'.clock == s.clock && CellAt(s'.cells, k) == NextCell(p, s.clock, cell, phase)
            && s'.spots == s.spots[i := NextSpot(s.spots[i], NextPhase(p, s.clock, cell, phase))]
  {
  }

  /** The step of a client at the gate of window `k` is a step of the protocol ... */
  lemma OwnStep(limits: string -> KeyLimitConfig, k: WindowKey, s: State, i: nat)
    requires i < |s.spots| && KeyAt(s.spots[i]) == Some(k)
    ensures View(k, Step(limits, s, Advance(i)))
         == P.Step(ParamsOf(limits, |s.spots|, k), View(k, s), EventAt(PhaseAt(s.spots[i]), i))
  {
    hide Slot, NextSpot, PhaseAt, KeyAt, Prune, WindowStart, Slots, ParamsOf, Step, CellAt;
    var spot, p, cell := s.spots[i], ParamsOf(limits, |s.spots|, k), CellAt(s.cells, k);
    OwnFrame(limits, k, s, i);
    OwnSlot(k, spot, p, s.clock, cell);
    SlotsUpdate(k, s.spots, i, NextSpot(spot, NextPhase(p, s.clock, cell, PhaseAt(spot))));
  }

  /** ... and of any other step it sees the minute window's clock reading and rejection, if it is the day window. */
  lemma OtherSlot(limits: string -> KeyLimitConfig, k: WindowKey, s: State, i: nat)
    requires i < |s.spots| && KeyAt(s.spots[i]) != Some(k)
    ensures var slot, next := Slot(k, s.spots[i]), Slot(k, Step(limits, s, Advance(i)).spots[i]);
            match Seen(limits, k, s, Advance(i))
            case None => next == slot
            case Some(e) =>
              || (e == P.ReadClock(i) && slot.Idle? && next == P.Read(s.clock))
              || (e == P.Drop(i) && next.Idle?)
  {
  }

  /** Such a step leaves the window itself and the other clients alone. */
  lemma OtherFrame(limits: string -> KeyLimitConfig, k: WindowKey, s: State, i: nat)
    requires i < |s.spots| && KeyAt(s.spots[i]) != Some(k)
    ensures var s' := Step(limits, s, Advance(i));
            && |s'.spots| == |s.spots| && s'.spots == s.spots[i := s'.spots[i]]
            && CellAt(s'.cells, k) == CellAt(s.cells, k) && s'.clock == s.clock
  {
  }

  lemma OtherStep(limits: string -> KeyLimitConfig, k: WindowKey, s: State, i: nat)
    requires i < |s.spots| && KeyAt(s.spots[i]) != Some(k)
    ensures View(k, Step(limits, s, Advance(i)))
         == Stepped(ParamsOf(limits, |s.spots|, k), View(k, s), Seen(limits, k, s, Advance(i)))
  {
    hide Step, Seen, Slot, CellAt, KeyAt;
    var s' := Step(limits, s, Advance(i));
    OtherSlot(limits, k, s, i);
    OtherFrame(limits, k, s, i);
    SlotsUpdate(k, s.spots, i, s'.spots[i]);
  }

  lemma IdleSlots(k: WindowKey, ask: Ask)
    ensures Slot(k, AtRate(ask, P.Idle)) == Slot(k, Waiting) == P.Idle
  {
  }

  lemma TickView(limits: string -> KeyLimitConfig, k: WindowKey, s: State)
    ensures View(k, Step(limits, s, Tick)) == P.Step(ParamsOf(limits, |s.spots|, k), View(k, s), P.Tick)
  {
    hide TtlOf, LimitOn, WindowOf, Slots;
  }

  lemma ClientView(limits: string -> KeyLimitConfig, k: WindowKey, s: State, e: Event)
    requires e.Arrive? || e.Leave?
    ensures View(k, Step(limits, s, e)) == Stepped(ParamsOf(limits, |s.spots|, k), View(k, s), Seen(limits, k, s, e))
  {
    hide Slot, Slots, TtlOf, LimitOn, WindowOf;
    if e.client < |s.spots| {
      IdleSlots(k, if e.Arrive? then e.ask else Ask("", ""));
      SlotsUpdate(k, s.spots, e.client, Waiting);
      if e.Arrive? && s.spots[e.client].Waiting? { SlotsSame(k, s.spots, e.client, AtRate(e.ask, P.Idle)); }
    }
  }

  lemma ViewStep(limits: string -> KeyLimitConfig, k: WindowKey, s: State, e: Event)
    ensures View(k, Step(limits, s, e)) == Stepped(ParamsOf(limits, |s.spots|, k), View(k, s), Seen(limits, k, s, e))
  {
    hide View, P.Step, KeyAt, ParamsOf;
    match e
    case Tick => TickView(limits, k, s);
    case Arrive(_, _) => ClientView(limits, k, s, e);
    case Leave(_) => ClientView(limits, k, s, e);
    case Advance(i) =>
      if i < |s.spots| {
        if KeyAt(s.spots[i]) == Some(k) { OwnStep(limits, k, s, i); } else { OtherStep(limits, k, s, i); }
      }
  }

  /** The schedule of window `k`. */
  function Projected(limits: string -> KeyLimitConfig, clients: nat, start: nat, k: WindowKey, h: History): P.Schedule {
    match h
    case Begin => P.Begin
    case Then(before, e) =>
      var es := Projected(limits, clients, start, k, before);
      var seen := Seen(limits, k, Run(limits, clients, start, before), e);
      if seen.None? then es else P.Then(es, seen.value)
  }

  /** Window `k` after a run of the pipelines is where its own schedule leads. */
  lemma {:induction false} ViewRun(limits: string -> KeyLimitConfig, clients: nat, start: nat, k: WindowKey, h: History)
    ensures var p := ParamsOf(limits, clients, k);
            View(k, Run(limits, clients, start, h))
            == P.Run(p, P.Init(p, start), Projected(limits, clients, start, k, h))
  {
    if h.Begin? {
    } else {
      ViewRun(limits, clients, start, k, h.before);
      ViewStep(limits, k, Run(limits, clients, start, h.before), h.event);
    }
  }

  // ----- Delays -----

  /** The clock reading that a client still has to count with. */
  function Reading(spot: Spot): Option<nat> {
    match spot
    case AtRate(_, phase) => if P.Checking(phase) then Some(phase.now) else None
    case AtMinute(_, _, phase) => if phase.Idle? then None else Some(phase.now)
    case AtDay(_, _, now, step) => if step.ToAdd? then None else Some(now)
    case _ => None
  }

  /** At most `delay` seconds pass between a client's clock reading and its last count with it. */
  predicate InTime(s: State, e: Event, delay: nat) {
    e.Tick? ==>
      forall i :: 0 <= i < |s.spots| && Reading(s.spots[i]).Some? ==> s.clock < Reading(s.spots[i]).value + delay
  }

  predicate Timely(limits: string -> KeyLimitConfig, clients: nat, start: nat, h: History, delay: nat) {
    match h
    case Begin => true
    case Then(before, e) =>
      Timely(limits, clients, start, before, delay) && InTime(Run(limits, clients, start, before), e, delay)
  }

  /** A window sees the clock tick only when it does, and then every reader of the window is in time. */
  lemma TickSeen(limits: string -> KeyLimitConfig, k: WindowKey, s: State, e: Event, delay: nat)
    requires InTime(s, e, delay) && Seen(limits, k, s, e).Some?
    ensures P.InTime(View(k, s), Seen(limits, k, s, e).value, delay)
  {
    if e.Tick? {
      forall i | 0 <= i < |s.spots| && P.Checking(Slot(k, s.spots[i]))
        ensures s.clock < Slot(k, s.spots[i]).now + delay
      {
        assert Reading(s.spots[i]) == Some(Slot(k, s.spots[i]).now);
      }
    }
  }

  lemma {:induction false} TimelyProjected(limits: string -> KeyLimitConfig, clients: nat, start: nat, k: WindowKey,
                                           h: History, delay: nat)
    requires Timely(limits, clients, start, h, delay)
    ensures var p := ParamsOf(limits, clients, k);
            P.DelayedRun(p, P.Init(p, start), Projected(limits, clients, start, k, h), delay)
  {
    if h.Begin? {
    } else {
      TimelyProjected(limits, clients, start, k, h.before, delay);
      ViewRun(limits, clients, start, k, h.before);
      var s := Run(limits, clients, start, h.before);
      if Seen(limits, k, s, h.event).Some? { TickSeen(limits, k, s, h.event, delay); }
    }
  }

  // ----- Requests that pass -----

  /** The time at which a request that is concerned with window `k` met it. */
  function TimeOf(k: WindowKey, pass: Pass): Option<nat> {
    match k
    case RateKey(apiKey, model) => if pass.ask == Ask(apiKey, model) then Some(pass.rateTime) else None
    case _ => if pass.ask.apiKey == k.apiKey then Some(pass.limitsTime) else None
  }

  function PassTimes(k: WindowKey, passed: seq<Pass>): seq<nat> {
    if passed == [] then []
    else
      var time := TimeOf(k, passed[|passed| - 1]);
      PassTimes(k, passed[..|passed| - 1]) + if time.Some? then [time.value] else []
  }

  /** The time at which the request in this spot was admitted to window `k`, if it was and is still on its way. */
  function BeyondAt(k: WindowKey, spot: Spot): Option<nat> {
    match spot
    case AtMinute(ask, rateTime, _) => if k == RateKey(ask.apiKey, ask.model) then Some(rateTime) else None
    case AtDay(ask, rateTime, now, _) =>
      if k == RateKey(ask.apiKey, ask.model) then Some(rateTime)
      else if k == RpmKey(ask.apiKey) then Some(now)
      else None
    case PastWindows(ask, rateTime, now) => TimeOf(k, Pass(ask, rateTime, now))
    case _ => None
  }

  function One(time: Option<nat>, from: int, length: nat): nat {
    if time.Some? && P.InSpan(time.value, from, length) then 1 else 0
  }

  function Beyond(k: WindowKey, spots: seq<Spot>, from: int, length: nat): nat {
    if spots == [] then 0
    else Beyond(k, spots[..|spots| - 1], from, length) + One(BeyondAt(k, spots[|spots| - 1]), from, length)
  }

  lemma {:induction false} BeyondUpdate(k: WindowKey, spots: seq<Spot>, i: nat, spot: Spot, from: int, length: nat)
    requires i < |spots|
    ensures Beyond(k, spots[i := spot], from, length)
         == Beyond(k, spots, from, length)
            - One(BeyondAt(k, spots[i]), from, length) + One(BeyondAt(k, spot), from, length)
  {
    var init, updated := spots[..|spots| - 1], spots[i := spot];
    if i == |spots| - 1 {
      assert updated[..|updated| - 1] == init;
    } else {
      BeyondUpdate(k, init, i, spot, from, length);
      assert updated[..|updated| - 1] == init[i := spot];
    }
  }

  lemma {:induction false} NoneBeyond(k: WindowKey, n: nat, from: int, length: nat)
    ensures Beyond(k, seq(n, _ => Waiting), from, length) == 0
  {
    if n == 0 {
    } else {
      NoneBeyond(k, n - 1, from, length);
      assert seq(n, _ => Waiting)[..n - 1] == seq(n - 1, _ => Waiting);
    }
  }

  lemma PassTimesAppend(k: WindowKey, passed: seq<Pass>, pass: Pass, from: int, length: nat)
    ensures SpanCount(PassTimes(k, passed + [pass]), from, length)
         == SpanCount(PassTimes(k, passed), from, length) + One(TimeOf(k, pass), from, length)
  {
    assert (passed + [pass])[..|passed|] == passed;
    assert PassTimes(k, passed + [pass])
        == PassTimes(k, passed) + if TimeOf(k, pass).Some? then [TimeOf(k, pass).value] else [];
    assert PassTimes(k, passed) + [] == PassTimes(k, passed);
    if TimeOf(k, pass).Some? {
      SpanCountAppend(PassTimes(k, passed), TimeOf(k, pass).value, from, length);
    }
  }

  /** Every request that has passed, or has got beyond window `k`, was admitted there. */
  predicate Accounted(k: WindowKey, s: State, from: int, length: nat) {
    SpanCount(PassTimes(k, s.passed), from, length) + Beyond(k, s.spots, from, length)
    <= SpanCount(CellAt(s.cells, k).admitted, from, length)
  }

  /** Adding the score is what takes a request beyond a window; no other step does. */
  lemma GateBeyond(limits: string -> KeyLimitConfig, k: WindowKey, s: State, i: nat)
    requires i < |s.spots| && KeyAt(s.spots[i]).Some?
    ensures var spot, s' := s.spots[i], Step(limits, s, Advance(i));
            var admitted, admitted' := CellAt(s.cells, k).admitted, CellAt(s'.cells, k).admitted;
            && |s'.spots| == |s.spots| && s'.spots == s.spots[i := s'.spots[i]] && s'.passed == s.passed
            && if KeyAt(spot) == Some(k) && PhaseAt(spot).Admitted? then
                 admitted' == admitted + [PhaseAt(spot).now] && BeyondAt(k, s'.spots[i]) == Some(PhaseAt(spot).now)
               else
                 && admitted' == admitted
                 && (BeyondAt(k, s'.spots[i]) == None || BeyondAt(k, s'.spots[i]) == BeyondAt(k, spot))
  {
  }

  /** What a client's step at a gate does to the account of window `k`. */
  lemma GateAccounted(limits: string -> KeyLimitConfig, k: WindowKey, s: State, i: nat, from: int, length: nat)
    requires i < |s.spots| && KeyAt(s.spots[i]).Some? && Accounted(k, s, from, length)
    ensures Accounted(k, Step(limits, s, Advance(i)), from, length)
  {
    hide Step, KeyAt, PhaseAt, CellAt, BeyondAt, Beyond, PassTimes, SpanCount;
    var spot, s' := s.spots[i], Step(limits, s, Advance(i));
    GateBeyond(limits, k, s, i);
    BeyondUpdate(k, s.spots, i, s'.spots[i], from, length);
    if KeyAt(spot) == Some(k) && PhaseAt(spot).Admitted? {
      SpanCountAppend(CellAt(s.cells, k).admitted, PhaseAt(spot).now, from, length);
    }
  }

  lemma AccountedStep(limits: string -> KeyLimitConfig, k: WindowKey, s: State, e: Event, from: int, length: nat)
    requires Accounted(k, s, from, length)
    ensures Accounted(k, Step(limits, s, e), from, length)
  {
    hide NextSpot, NextCell, NextPhase, Beyond, PassTimes, SpanCount;
    match e
    case Tick => {}
    case Arrive(i, ask) =>
      if i < |s.spots| { BeyondUpdate(k, s.spots, i, AtRate(ask, P.Idle), from, length); }
    case Leave(i) =>
      if i < |s.spots| { BeyondUpdate(k, s.spots, i, Waiting, from, length); }
    case Advance(i) =>
      if i < |s.spots| {
        var spot := s.spots[i];
        if spot.PastWindows? {
          BeyondUpdate(k, s.spots, i, Waiting, from, length);
          PassTimesAppend(k, s.passed, Pass(spot.ask, spot.rateTime, spot.limitsTime), from, length);
        } else if !spot.Waiting? {
          GateAccounted(limits, k, s, i, from, length);
        }
      }
  }

  lemma {:induction false} AllAccounted(limits: string -> KeyLimitConfig, clients: nat, start: nat, k: WindowKey,
                                        h: History, from: int, length: nat)
    ensures Accounted(k, Run(limits, clients, start, h), from, length)
  {
    if h.Begin? {
      NoneBeyond(k, clients, from, length);
    } else {
      AllAccounted(limits, clients, start, k, h.before, from, length);
      AccountedStep(limits, k, Run(limits, clients, start, h.before), h.event, from, length);
    }
  }

  /** The times at which the requests that passed the whole pipeline met window `k`. */
  function Passing(limits: string -> KeyLimitConfig, clients: nat, start: nat, k: WindowKey, h: History): seq<nat> {
    PassTimes(k, Run(limits, clients, start, h).passed)
  }

  lemma PassingAreAdmitted(limits: string -> KeyLimitConfig, clients: nat, start: nat, k: WindowKey, h: History,
                           from: int, length: nat)
    ensures var p := ParamsOf(limits, clients, k);
            SpanCount(Passing(limits, clients, start, k, h), from, length)
            <= SpanCount(P.Admissions(p, start, Projected(limits, clients, start, k, h)), from, length)
  {
    AllAccounted(limits, clients, start, k, h, from, length);
    ViewRun(limits, clients, start, k, h);
  }

  /** With `clients` requests in the pipeline at a time, and whatever rejections and departures, the requests that pass
      all of it number at most `limit + 2 * clients - 1` in any span of a window, unless the window's key can expire
      before the window is over; and if nobody takes more than `delay` seconds from a clock reading to the last count
      with it, at most `limit + clients - 1` in any span that the expiry and the delay leave covered. */
  lemma ConcurrentAdmission(limits: string -> KeyLimitConfig, clients: nat, start: nat, k: WindowKey, h: History,
                            from: int, length: nat, delay: nat)
    requires clients >= 1 && start >= 1
    ensures var p, passing := ParamsOf(limits, clients, k), Passing(limits, clients, start, k, h);
            && (P.LongExpiry(p) ==>
                  SpanCount(passing, from, WindowOf(k)) <= LimitOn(k, limits(k.apiKey)) + 2 * clients - 1)
            && (P.Covered(p, length, delay) && Timely(limits, clients, start, h, delay) ==>
                  SpanCount(passing, from, length) <= LimitOn(k, limits(k.apiKey)) + clients - 1)
  {
    var p, es := ParamsOf(limits, clients, k), Projected(limits, clients, start, k, h);
    if P.LongExpiry(p) {
      P.AnyScheduleBound(p, start);
      PassingAreAdmitted(limits, clients, start, k, h, from, WindowOf(k));
      assert SpanCount(P.Admissions(p, start, es), from, p.window) <= p.limit + 2 * clients - 1;
    }
    if P.Covered(p, length, delay) && Timely(limits, clients, start, h, delay) {
      P.DelayScheduleBound(p, start, length, delay);
      TimelyProjected(limits, clients, start, k, h, delay);
      PassingAreAdmitted(limits, clients, start, k, h, from, length);
      assert SpanCount(P.Admissions(p, start, es), from, length) <= p.limit + clients - 1;
    }
  }

  /** The promised limits, per key and model and per key, for concurrent requests that lose no time on the way. */
  lemma PromptAdmission(limits: string -> KeyLimitConfig, clients: nat, start: nat, h: History, from: int,
                        apiKey: string, model: string)
    requires clients >= 1 && start >= 1 && Timely(limits, clients, start, h, 0)
    ensures SpanCount(Passing(limits, clients, start, RateKey(apiKey, model), h), from, 60) <= 100 + clients - 1
    ensures SpanCount(Passing(limits, clients, start, RpmKey(apiKey), h), from, 60)
         <= limits(apiKey).requestsPerMinute + clients - 1
    ensures limits(apiKey).requestsPerDay != 100 ==>
              SpanCount(Passing(limits, clients, start, RpdKey(apiKey), h), from, 86400)
              <= limits(apiKey).requestsPerDay + clients - 1
  {
    ConcurrentAdmission(limits, clients, start, RateKey(apiKey, model), h, from, 60, 0);
    ConcurrentAdmission(limits, clients, start, RpmKey(apiKey), h, from, 60, 0);
    ConcurrentAdmission(limits, clients, start, RpdKey(apiKey), h, from, 86400, 0);
  }
}
