/** A client that nobody interrupts takes the window gates exactly as the sequential pipeline does. */
module PipelineAlone {
  import opened Wrappers
  import opened SlidingWindow
  import opened WindowExpiry
  import opened Redis
  import opened Limits
  import Governance
  import opened Pipeline
  import opened PipelineProtocol
  import P = WindowProtocol

  /** The state after `n` steps of client `i` alone. */
  function Advanced(limits: string -> KeyLimitConfig, s: State, i: nat, n: nat): State {
    if n == 0 then s else Step(limits, Advanced(limits, s, i, n - 1), Advance(i))
  }

  lemma {:induction false} AdvancedSum(limits: string -> KeyLimitConfig, s: State, i: nat, m: nat, n: nat)
    ensures Advanced(limits, s, i, m + n) == Advanced(limits, Advanced(limits, s, i, m), i, n)
  {
    hide Step;
    if n == 0 {
    } else {
      AdvancedSum(limits, s, i, m, n - 1);
    }
  }

  /** A rejected client stays where it is. */
  lemma {:induction false} WaitingStays(limits: string -> KeyLimitConfig, s: State, i: nat, n: nat)
    requires i < |s.spots| && s.spots[i].Waiting?
    ensures Advanced(limits, s, i, n) == s
  {
    if n == 0 {
    } else {
      WaitingStays(limits, s, i, n - 1);
    }
  }

  lemma RejectedStays(limits: string -> KeyLimitConfig, s: State, i: nat)
    requires i < |s.spots| && s.spots[i].Waiting?
    ensures Step(limits, s, Advance(i)) == s
  {
  }

  lemma StepByStep(limits: string -> KeyLimitConfig, s: State, i: nat)
    ensures var s1 := Step(limits, s, Advance(i));
            var s3 := Step(limits, Step(limits, s1, Advance(i)), Advance(i));
            Advanced(limits, s, i, 3) == s3 && Advanced(limits, s, i, 4) == Step(limits, s3, Advance(i))
  {
    hide Step;
    assert Advanced(limits, s, i, 1) == Step(limits, Advanced(limits, s, i, 0), Advance(i));
    assert Advanced(limits, s, i, 2) == Step(limits, Advanced(limits, s, i, 1), Advance(i));
  }

  /** A window's cell after one gate, and whether the client was admitted. */
  function GateCell(p: P.Params, clock: nat, cell: Cell): (Cell, bool) {
    var kept := Prune(cell.scores, WindowStart(clock, p.window));
    if |kept| >= p.limit then (cell.(scores := kept), false)
    else
      (Cell(kept + [clock], if p.expiry.Some? then clock + p.expiry.value else cell.deadline, cell.admitted + [clock]),
       true)
  }

  /** That is what the gate does when nothing else runs in between. */
  lemma GateCellIsAttempt(p: P.Params, clock: nat, cell: Cell, w: Window)
    requires cell.scores == Live(w, clock) && p.expiry.Some? && p.expiry.value >= 1
    ensures var (cell', ok) := GateCell(p, clock, cell);
            var (w', ok') := Attempt(w, clock, p.window, p.limit, p.expiry.value);
            ok == ok' && cell'.scores == Live(w', clock)
  {
    TrimmedIsLive(w, clock, WindowStart(clock, p.window));
  }

  /** Client `i` at `spot`, and the cell of the window it is at. */
  function Put(s: State, i: nat, spot: Spot, k: WindowKey, cell: Cell): State
    requires i < |s.spots|
  {
    s.(spots := s.spots[i := spot], cells := s.cells[k := cell])
  }

  lemma PutTwice(s: State, i: nat, a: Spot, b: Spot, k: WindowKey, x: Cell, y: Cell)
    requires i < |s.spots|
    ensures Put(Put(s, i, a, k, x), i, b, k, y) == Put(s, i, b, k, y)
    ensures CellAt(Put(s, i, a, k, x).cells, k) == x && Put(s, i, a, k, x).spots[i] == a
    ensures forall other :: other != k ==> CellAt(Put(s, i, a, k, x).cells, other) == CellAt(s.cells, other)
  {
  }

  /** One step at a gate. */
  lemma GateStep(limits: string -> KeyLimitConfig, s: State, i: nat, k: WindowKey)
    requires i < |s.spots| && KeyAt(s.spots[i]) == Some(k)
    ensures var p, cell, phase := ParamsOf(limits, |s.spots|, k), CellAt(s.cells, k), PhaseAt(s.spots[i]);
            Step(limits, s, Advance(i))
            == Put(s, i, NextSpot(s.spots[i], NextPhase(p, s.clock, cell, phase)), k, NextCell(p, s.clock, cell, phase))
  {
  }

  lemma Unmoved(s: State, i: nat, spot: Spot, k: WindowKey, cell: Cell)
    requires i < |s.spots|
    ensures var s' := Put(s, i, spot, k, cell);
            s'.clock == s.clock && s'.passed == s.passed && |s'.spots| == |s.spots|
  {
  }

  /** The same gate in another phase. */
  function WithPhase(spot: Spot, phase: P.Phase): Spot
    requires spot.AtRate? || spot.AtMinute?
  {
    if spot.AtRate? then AtRate(spot.ask, phase) else AtMinute(spot.ask, spot.rateTime, phase)
  }

  /** Where a client goes that passes the gate at `now`. */
  function Onward(spot: Spot, now: nat): Spot
    requires spot.AtRate? || spot.AtMinute?
  {
    if spot.AtRate? then AtMinute(spot.ask, now, P.Idle) else AtDay(spot.ask, spot.rateTime, now, ToPrune)
  }

  /** The rate gate and the minute gate, from the clock reading to the last step. */
  lemma GateAlone(limits: string -> KeyLimitConfig, s: State, i: nat, k: WindowKey)
    requires i < |s.spots| && (s.spots[i].AtRate? || s.spots[i].AtMinute?) && s.spots[i].phase == P.Idle
    requires KeyAt(s.spots[i]) == Some(k)
    ensures var (cell, ok) := GateCell(ParamsOf(limits, |s.spots|, k), s.clock, CellAt(s.cells, k));
            Advanced(limits, s, i, 4) == Put(s, i, if ok then Onward(s.spots[i], s.clock) else Waiting, k, cell)
  {
    hide Step, Put, ParamsOf, CellAt, Prune;
    var spot, now := s.spots[i], s.clock;
    var p, cell := ParamsOf(limits, |s.spots|, k), CellAt(s.cells, k);
    var kept := cell.(scores := Prune(cell.scores, WindowStart(now, p.window)));
    var full := |kept.scores| >= p.limit;
    var read, pruned := WithPhase(spot, P.Read(now)), WithPhase(spot, P.Pruned(now));
    var counted := if full then Waiting else WithPhase(spot, P.Admitted(now));
    StepByStep(limits, s, i);
    GateStep(limits, s, i, k);
    Unmoved(s, i, read, k, cell);
    PutTwice(s, i, read, pruned, k, cell, kept);
    var s1 := Step(limits, s, Advance(i));
    GateStep(limits, s1, i, k);
    Unmoved(s, i, pruned, k, kept);
    PutTwice(s, i, pruned, counted, k, kept, kept);
    var s2 := Step(limits, s1, Advance(i));
    GateStep(limits, s2, i, k);
    Unmoved(s, i, counted, k, kept);
    var s3 := Step(limits, s2, Advance(i));
    if full {
      PutTwice(s, i, counted, counted, k, kept, kept);
      RejectedStays(limits, s3, i);
    } else {
      PutTwice(s, i, counted, Onward(spot, now), k, kept, GateCell(p, now, cell).0);
      GateStep(limits, s3, i, k);
    }
  }

  /** The day gate, with the clock reading of the minute gate. */
  lemma DayAlone(limits: string -> KeyLimitConfig, s: State, i: nat, ask: Ask, rateTime: nat)
    requires i < |s.spots| && s.spots[i] == AtDay(ask, rateTime, s.clock, ToPrune)
    ensures var k := RpdKey(ask.apiKey);
            var (cell, ok) := GateCell(ParamsOf(limits, |s.spots|, k), s.clock, CellAt(s.cells, k));
            Advanced(limits, s, i, 3) == Put(s, i, if ok then PastWindows(ask, rateTime, s.clock) else Waiting, k, cell)
  {
    hide Step, Put, ParamsOf, CellAt, Prune;
    var k, now := RpdKey(ask.apiKey), s.clock;
    var p, cell := ParamsOf(limits, |s.spots|, k), CellAt(s.cells, k);
    var kept := cell.(scores := Prune(cell.scores, WindowStart(now, p.window)));
    var full := |kept.scores| >= p.limit;
    var pruned := AtDay(ask, rateTime, now, ToCount);
    var counted := if full then Waiting else AtDay(ask, rateTime, now, ToAdd);
    StepByStep(limits, s, i);
    GateStep(limits, s, i, k);
    Unmoved(s, i, pruned, k, kept);
    PutTwice(s, i, pruned, counted, k, kept, kept);
    var s1 := Step(limits, s, Advance(i));
    GateStep(limits, s1, i, k);
    Unmoved(s, i, counted, k, kept);
    var s2 := Step(limits, s1, Advance(i));
    if full {
      PutTwice(s, i, counted, counted, k, kept, kept);
      RejectedStays(limits, s2, i);
    } else {
      PutTwice(s, i, counted, PastWindows(ask, rateTime, now), k, kept, GateCell(p, now, cell).0);
      GateStep(limits, s2, i, k);
    }
  }

  // ----- All gates -----

  /** The cells hold what is left of these windows. */
  ghost predicate SameScores(s: State, windows: map<WindowKey, Window>) {
    forall k :: CellAt(s.cells, k).scores == Live(Lookup(windows, k), s.clock)
  }

  /** One gate taken by one client, on both sides. */
  lemma GateAgrees(limits: string -> KeyLimitConfig, s: State, i: nat, spot: Spot, k: WindowKey,
                   windows: map<WindowKey, Window>)
    requires i < |s.spots| && SameScores(s, windows)
    ensures var config := limits(k.apiKey);
            var (cell, ok) := GateCell(ParamsOf(limits, |s.spots|, k), s.clock, CellAt(s.cells, k));
            var (windows', ok') :=
              AttemptOn(windows, k, s.clock, WindowOf(k), LimitOn(k, config), TtlOf(k, config));
            ok == ok' && SameScores(Put(s, i, spot, k, cell), windows')
  {
    hide Attempt;
    var p, config := ParamsOf(limits, |s.spots|, k), limits(k.apiKey);
    var cell := GateCell(p, s.clock, CellAt(s.cells, k)).0;
    var windows' := AttemptOn(windows, k, s.clock, WindowOf(k), LimitOn(k, config), TtlOf(k, config)).0;
    GateCellIsAttempt(p, s.clock, CellAt(s.cells, k), Lookup(windows, k));
    forall other
      ensures CellAt(Put(s, i, spot, k, cell).cells, other).scores == Live(Lookup(windows', other), s.clock)
    {
      assert CellAt(s.cells, other).scores == Live(Lookup(windows, other), s.clock);
    }
  }

  /** Only client `i` and the windows have changed. */
  predicate OnlyClient(s: State, s': State, i: nat)
    requires i < |s.spots|
  {
    s'.clock == s.clock && s'.passed == s.passed && |s'.spots| == |s.spots| && s'.spots == s.spots[i := s'.spots[i]]
  }

  lemma OnlyPassed(s: State, s': State, i: nat)
    requires i < |s.spots| && OnlyClient(s, s', i)
    ensures s'.passed == s.passed && |s'.spots| == |s.spots|
  {
  }

  lemma PutOnly(s: State, s0: State, i: nat, spot: Spot, k: WindowKey, cell: Cell)
    requires i < |s.spots| && OnlyClient(s, s0, i)
    ensures OnlyClient(s, Put(s0, i, spot, k, cell), i)
  {
  }

  lemma LimitsAlone(limits: string -> KeyLimitConfig, s0: State, s: State, i: nat, ask: Ask, spend: real,
                    windows: map<WindowKey, Window>)
    requires i < |s0.spots| && i < |s.spots| && OnlyClient(s0, s, i)
    requires s.spots[i] == AtMinute(ask, s.clock, P.Idle) && SameScores(s, windows)
    ensures var s' := Advanced(limits, s, i, 7);
            var (windows', rejected) := CheckLimits(windows, spend, ask.apiKey, ask.model, limits(ask.apiKey), s.clock);
            && SameScores(s', windows') && OnlyClient(s0, s', i)
            && s'.spots[i] == if rejected == Some(MinuteGate) || rejected == Some(DayGate) then Waiting
                              else PastWindows(ask, s.clock, s.clock)
  {
    hide Step, GateCell, AttemptOn, ParamsOf, CellAt, SameScores, OnlyClient, WithinBudget, ModelAllowed;
    var config, minute, day := limits(ask.apiKey), RpmKey(ask.apiKey), RpdKey(ask.apiKey);
    AdvancedSum(limits, s, i, 4, 3);
    GateAlone(limits, s, i, minute);
    var (cell, ok) := GateCell(ParamsOf(limits, |s.spots|, minute), s.clock, CellAt(s.cells, minute));
    var spot := if ok then AtDay(ask, s.clock, s.clock, ToPrune) else Waiting;
    GateAgrees(limits, s, i, spot, minute, windows);
    PutOnly(s0, s, i, spot, minute, cell);
    var s1 := Put(s, i, spot, minute, cell);
    var windows1 := AttemptOn(windows, minute, s.clock, 60, config.requestsPerMinute,
                              KeyLimitExpiry(config.requestsPerMinute)).0;
    if ok {
      DayAlone(limits, s1, i, ask, s.clock);
      var (cell', ok') := GateCell(ParamsOf(limits, |s.spots|, day), s.clock, CellAt(s1.cells, day));
      var spot' := if ok' then PastWindows(ask, s.clock, s.clock) else Waiting;
      GateAgrees(limits, s1, i, spot', day, windows1);
      PutOnly(s0, s1, i, spot', day, cell');
    } else {
      WaitingStays(limits, s1, i, 3);
    }
  }

  lemma RateAlone(limits: string -> KeyLimitConfig, s: State, i: nat, ask: Ask, windows: map<WindowKey, Window>)
    requires i < |s.spots| && s.spots[i].Waiting? && SameScores(s, windows)
    ensures var s1 := Advanced(limits, Step(limits, s, Arrive(i, ask)), i, 4);
            var (windows1, ok) :=
              AttemptOn(windows, RateKey(ask.apiKey, ask.model), s.clock, 60, 100, RateLimitExpiry(60));
            && SameScores(s1, windows1) && OnlyClient(s, s1, i) && s1.clock == s.clock && i < |s1.spots|
            && s1.spots[i] == if ok then AtMinute(ask, s.clock, P.Idle) else Waiting
  {
    hide GateCell, AttemptOn, ParamsOf, CellAt;
    var s0, rate := Step(limits, s, Arrive(i, ask)), RateKey(ask.apiKey, ask.model);
    assert s0 == s.(spots := s.spots[i := AtRate(ask, P.Idle)]);
    assert SameScores(s0, windows) && OnlyClient(s, s0, i);
    hide Step, SameScores, OnlyClient, Advanced;
    GateAlone(limits, s0, i, rate);
    var (cell, ok) := GateCell(ParamsOf(limits, |s0.spots|, rate), s.clock, CellAt(s0.cells, rate));
    var spot := if ok then AtMinute(ask, s.clock, P.Idle) else Waiting;
    GateAgrees(limits, s0, i, spot, rate, windows);
    PutOnly(s, s0, i, spot, rate, cell);
  }

  lemma LimitVerdicts(windows: map<WindowKey, Window>, spend: real, apiKey: string, model: string,
                      config: KeyLimitConfig, now: nat)
    ensures var rejected := CheckLimits(windows, spend, apiKey, model, config, now).1;
            rejected.Some? ==> 1 <= Passed(rejected) <= 4
                               && (Passed(rejected) < 3 <==> rejected == Some(MinuteGate) || rejected == Some(DayGate))
  {
    hide AttemptOn, WithinBudget, ModelAllowed;
  }

  /** The next step of a client that is past the windows is the pass. */
  lemma NextIsPass(limits: string -> KeyLimitConfig, s: State, i: nat, n: nat)
    requires var spots := Advanced(limits, s, i, n).spots;
             i < |spots| && (spots[i].Waiting? || spots[i].PastWindows?)
    ensures var now, next := Advanced(limits, s, i, n), Advanced(limits, s, i, n + 1);
            && next.passed == now.passed + (match now.spots[i]
                                            case PastWindows(ask, rateTime, t) => [Pass(ask, rateTime, t)]
                                            case _ => [])
            && next.cells == now.cells && next.clock == now.clock && next.spots == now.spots[i := Waiting]
  {
    var now := Advanced(limits, s, i, n);
    if now.spots[i].Waiting? {
      assert now.passed + [] == now.passed && now.spots[i := Waiting] == now.spots;
    }
  }

  /** A request that arrives and takes its steps while nobody else does and the clock stands still leaves the windows as
      the sequential pipeline does, and gets past all of them exactly if the sequential pipeline lets it. */
  lemma {:induction false} AloneIsSequential(limits: string -> KeyLimitConfig, s: State, i: nat, ask: Ask, q: Request,
                                             windows: map<WindowKey, Window>)
    requires i < |s.spots| && s.spots[i].Waiting? && SameScores(s, windows)
    requires q.apiKey == ask.apiKey && q.model == ask.model && q.rateTime == q.limitsTime == s.clock
    ensures var s' := Advanced(limits, Step(limits, s, Arrive(i, ask)), i, 11);
            var (windows', verdict) := Execute(windows, limits(ask.apiKey), q);
            && SameScores(s', windows') && OnlyClient(s, s', i)
            && s'.spots[i] == (if Passed(verdict) >= 3 then PastWindows(ask, s.clock, s.clock) else Waiting)
            && Advanced(limits, Step(limits, s, Arrive(i, ask)), i, 12).passed
               == s.passed + if Passed(verdict) >= 3 then [Pass(ask, s.clock, s.clock)] else []
  {
    hide AttemptOn, CheckLimits, Governance.CheckRequest, Step, SameScores, OnlyClient, Advanced;
    var s0 := Step(limits, s, Arrive(i, ask));
    AdvancedSum(limits, s0, i, 4, 7);
    RateAlone(limits, s, i, ask, windows);
    var s1 := Advanced(limits, s0, i, 4);
    var (windows1, ok) := AttemptOn(windows, RateKey(ask.apiKey, ask.model), s.clock, 60, 100, RateLimitExpiry(60));
    if ok {
      LimitsAlone(limits, s, s1, i, ask, q.limitsSpend, windows1);
      LimitVerdicts(windows1, q.limitsSpend, ask.apiKey, ask.model, limits(ask.apiKey), s.clock);
    } else {
      WaitingStays(limits, s1, i, 7);
    }
    OnlyPassed(s, Advanced(limits, s0, i, 11), i);
    NextIsPass(limits, s0, i, 11);
  }
}
