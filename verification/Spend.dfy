/**
 One key's spend counter while requests are in flight: the budget is tested before a request is sent
 and its cost is recorded only after the response, so concurrent requests can overshoot the budget.
 */
module Spend {
  import opened Wrappers
  import opened Limits

  type Cost = c: real | c >= 0.0

  datatype Event =
    | Admit(cost: Cost)  // a request that will cost this much meets the budget gate
    | Record(i: nat)     // the i-th request in flight records its cost
    | Abort(i: nat)      // the i-th request in flight fails without recording anything
    | Expire             // the counter's day is over

  /** `exposure` is the total cost of the requests in flight right after the last admission. */
  datatype Ledger = Ledger(spend: real, inFlight: seq<Cost>, exposure: Option<real>)

  function Total(costs: seq<Cost>): real {
    if costs == [] then 0.0 else Total(costs[..|costs| - 1]) + costs[|costs| - 1]
  }

  function Without(costs: seq<Cost>, i: nat): seq<Cost>
    requires i < |costs|
  {
    costs[..i] + costs[i + 1..]
  }

  function Next(budget: Option<real>, l: Ledger, e: Event): Ledger {
    match e
    case Admit(cost) =>
      if WithinBudget(l.spend, budget) then
        Ledger(l.spend, l.inFlight + [cost], Some(Total(l.inFlight + [cost])))
      else l
    case Record(i) =>
      if i < |l.inFlight| then l.(spend := l.spend + l.inFlight[i], inFlight := Without(l.inFlight, i)) else l
    case Abort(i) =>
      if i < |l.inFlight| then l.(inFlight := Without(l.inFlight, i)) else l
    case Expire => l.(spend := 0.0)
  }

  datatype History = Begin | Then(before: History, event: Event)

  function RunLedger(budget: Option<real>, h: History): Ledger {
    match h
    case Begin => Ledger(0.0, [], None)
    case Then(before, e) => Next(budget, RunLedger(budget, before), e)
  }

  lemma {:induction false} TotalNonNegative(costs: seq<Cost>)
    ensures Total(costs) >= 0.0
  {
    if costs == [] {
    } else {
      TotalNonNegative(costs[..|costs| - 1]);
    }
  }

  lemma {:induction false} TotalWithout(costs: seq<Cost>, i: nat)
    requires i < |costs|
    ensures Total(Without(costs, i)) == Total(costs) - costs[i]
    ensures Total(costs) >= costs[i]
  {
    var init := costs[..|costs| - 1];
    TotalNonNegative(init);
    if i == |costs| - 1 {
      assert Without(costs, i) == init;
    } else {
      TotalWithout(init, i);
      assert Without(costs, i)[..|costs| - 2] == Without(init, i);
    }
  }

  /** What the admitted requests cost in all. */
  function Admitted(budget: Option<real>, h: History): real {
    match h
    case Begin => 0.0
    case Then(before, Admit(cost)) =>
      Admitted(budget, before)
      + if budget.None? || RunLedger(budget, before).spend < budget.value then cost else 0.0
    case Then(before, _) => Admitted(budget, before)
  }

  /** What the aborted requests would have cost, and what the counter held whenever a day ended. */
  function Forgotten(budget: Option<real>, h: History): real {
    match h
    case Begin => 0.0
    case Then(before, Abort(i)) =>
      var inFlight := RunLedger(budget, before).inFlight;
      Forgotten(budget, before) + if i < |inFlight| then inFlight[i] else 0.0
    case Then(before, Expire) => Forgotten(budget, before) + RunLedger(budget, before).spend
    case Then(before, _) => Forgotten(budget, before)
  }

  /** Nothing is recorded twice or lost: what was admitted is on the counter, in flight, aborted or expired. */
  lemma {:induction false} LedgerBalance(budget: Option<real>, h: History)
    ensures var l := RunLedger(budget, h);
            l.spend + Total(l.inFlight) + Forgotten(budget, h) == Admitted(budget, h)
  {
    hide Without;
    if h.Begin? {
    } else {
      LedgerBalance(budget, h.before);
      var before := RunLedger(budget, h.before);
      match h.event
      case Admit(cost) => assert (before.inFlight + [cost])[..|before.inFlight|] == before.inFlight;
      case Record(i) => if i < |before.inFlight| { TotalWithout(before.inFlight, i); }
      case Abort(i) => if i < |before.inFlight| { TotalWithout(before.inFlight, i); }
      case Expire =>
    }
  }

  /** From the last admission on, what is recorded and what is still in flight stay below the budget
      plus the exposure of that moment. */
  lemma {:induction false} BoundedOverspend(budget: real, h: History)
    ensures var l := RunLedger(Some(budget), h);
            && l.spend >= 0.0
            && (l.exposure.None? ==> l.spend == 0.0 && l.inFlight == [])
            && (l.exposure.Some? ==> l.spend + Total(l.inFlight) < budget + l.exposure.value)
  {
    if h.Begin? {
    } else {
      BoundedOverspend(budget, h.before);
      var before := RunLedger(Some(budget), h.before);
      match h.event
      case Admit(_) =>
      case Record(i) => if i < |before.inFlight| { TotalWithout(before.inFlight, i); }
      case Abort(i) => if i < |before.inFlight| { TotalWithout(before.inFlight, i); }
      case Expire =>
    }
  }

  /** The recorded spend alone, which is what the budget gates read. */
  lemma RecordedSpendBound(budget: real, h: History)
    ensures var l := RunLedger(Some(budget), h);
            l.exposure.Some? ==> l.spend < budget + l.exposure.value
  {
    BoundedOverspend(budget, h);
    TotalNonNegative(RunLedger(Some(budget), h).inFlight);
  }

  function AdmitAll(h: History, costs: seq<Cost>): History {
    if costs == [] then h else Then(AdmitAll(h, costs[..|costs| - 1]), Admit(costs[|costs| - 1]))
  }

  lemma AdmitNext(budget: real, h: History, cost: Cost)
    requires RunLedger(Some(budget), h).spend < budget
    ensures var l := RunLedger(Some(budget), h);
            RunLedger(Some(budget), Then(h, Admit(cost)))
            == Ledger(l.spend, l.inFlight + [cost], Some(Total(l.inFlight + [cost])))
  {
  }

  lemma {:induction false} AdmitAllRun(budget: real, h: History, costs: seq<Cost>)
    requires RunLedger(Some(budget), h).spend < budget && RunLedger(Some(budget), h).inFlight == []
    ensures var l := RunLedger(Some(budget), AdmitAll(h, costs));
            l.spend == RunLedger(Some(budget), h).spend && l.inFlight == costs
            && (costs != [] ==> l.exposure == Some(Total(costs)))
  {
    hide Total, RunLedger, Next;
    if costs == [] {
    } else {
      var init, last := costs[..|costs| - 1], costs[|costs| - 1];
      AdmitAllRun(budget, h, init);
      AdmitNext(budget, AdmitAll(h, init), last);
      assert init + [last] == costs;
    }
  }

  function RecordAll(h: History, n: nat): History {
    if n == 0 then h else Then(RecordAll(h, n - 1), Record(0))
  }

  lemma WithoutFirst(costs: seq<Cost>, n: nat)
    requires n < |costs|
    ensures Without(costs[n..], 0) == costs[n + 1..]
  {
  }

  lemma RecordNext(budget: real, h: History)
    requires RunLedger(Some(budget), h).inFlight != []
    ensures var l := RunLedger(Some(budget), h);
            RunLedger(Some(budget), Then(h, Record(0)))
            == l.(spend := l.spend + l.inFlight[0], inFlight := Without(l.inFlight, 0))
  {
  }

  lemma {:induction false} RecordAllRun(budget: real, h: History, n: nat)
    requires n <= |RunLedger(Some(budget), h).inFlight|
    ensures var l, l' := RunLedger(Some(budget), h), RunLedger(Some(budget), RecordAll(h, n));
            && l'.inFlight == l.inFlight[n..] && l'.exposure == l.exposure
            && l'.spend + Total(l'.inFlight) == l.spend + Total(l.inFlight)
  {
    hide Total, Without, RunLedger, Next;
    if n == 0 {
    } else {
      RecordAllRun(budget, h, n - 1);
      RecordNext(budget, RecordAll(h, n - 1));
      WithoutFirst(RunLedger(Some(budget), h).inFlight, n - 1);
      TotalWithout(RunLedger(Some(budget), RecordAll(h, n - 1)).inFlight, 0);
    }
  }

  /** The bound cannot be improved: for any costs and any margin some run ends that close to it. */
  lemma OverspendIsSharp(budget: real, costs: seq<Cost>, margin: real) returns (h: History)
    requires 0.0 < margin <= budget && costs != []
    ensures var l := RunLedger(Some(budget), h);
            l.exposure == Some(Total(costs)) && l.spend == budget + Total(costs) - margin
  {
    var first: Cost := budget - margin;
    h := AdmitAll(Begin, [first]);
    AdmitAllRun(budget, Begin, [first]);
    RecordAllRun(budget, h, 1);
    h := RecordAll(h, 1);
    assert Total([first]) == first;
    AdmitAllRun(budget, h, costs);
    h := AdmitAll(h, costs);
    RecordAllRun(budget, h, |costs|);
    h := RecordAll(h, |costs|);
  }
}
