/** The daily cost totals of the analytics page against the costs of the individual requests. */
module Analytics {
  import opened Pricing

  datatype GroupKey = GroupKey(day: nat, provider: string, model: string)

  /** A row of the GROUP BY query. */
  datatype Group = Group(key: GroupKey, input: int, output: int)

  function KeyOf(u: Usage): GroupKey {
    GroupKey(u.day, u.provider, u.model)
  }

  /** The cost of one group as the page computes it: sums cast to 32 bits, then priced. */
  function GroupCost(prices: Prices, g: Group): real {
    ProviderCost(prices, g.key.provider, g.key.model, AsU32(g.input), AsU32(g.output))
  }

  /** The groups' cost on one day. */
  function DayTotal(prices: Prices, groups: seq<Group>, day: nat): real {
    if groups == [] then 0.0
    else
      var g := groups[|groups| - 1];
      DayTotal(prices, groups[..|groups| - 1], day) + if g.key.day == day then GroupCost(prices, g) else 0.0
  }

  /** The page's accumulation loop. */
  method CostByDay(pricing: PricingEngine, groups: seq<Group>) returns (byDay: map<nat, real>)
    ensures forall day :: day in byDay <==> exists i :: 0 <= i < |groups| && groups[i].key.day == day
    ensures forall day :: day in byDay ==> byDay[day] == DayTotal(pricing.prices, groups, day)
  {
    byDay := map[];
    for n := 0 to |groups|
      invariant forall day :: day in byDay <==> exists i :: 0 <= i < n && groups[i].key.day == day
      invariant forall day :: (if day in byDay then byDay[day] else 0.0) == DayTotal(pricing.prices, groups[..n], day)
    {
      var g := groups[n];
      var cost := pricing.CalculateCost(g.key.provider, g.key.model, AsU32(g.input), AsU32(g.output)).0;
      var soFar := if g.key.day in byDay then byDay[g.key.day] else 0.0;
      assert groups[..n + 1][..n] == groups[..n];
      byDay := byDay[g.key.day := soFar + cost];
    }
    assert groups[..|groups|] == groups;
  }

  // ----- What the requests cost -----

  /** The summed cost and tokens of the requests whose key is in `keys`. */
  function UsageCost(prices: Prices, us: seq<Usage>, keys: set<GroupKey>): real {
    if us == [] then 0.0
    else
      var u := us[|us| - 1];
      UsageCost(prices, us[..|us| - 1], keys)
      + if KeyOf(u) in keys then ProviderCost(prices, u.provider, u.model, u.input, u.output) else 0.0
  }

  function InputSum(us: seq<Usage>, key: GroupKey): nat {
    if us == [] then 0
    else InputSum(us[..|us| - 1], key) + if KeyOf(us[|us| - 1]) == key then us[|us| - 1].input else 0
  }

  function OutputSum(us: seq<Usage>, key: GroupKey): nat {
    if us == [] then 0
    else OutputSum(us[..|us| - 1], key) + if KeyOf(us[|us| - 1]) == key then us[|us| - 1].output else 0
  }

  /** The sums the database computes over the rows of a group. */
  function RowsInput(rows: seq<LogRow>, key: GroupKey): int {
    if rows == [] then 0
    else
      var row := rows[|rows| - 1];
      RowsInput(rows[..|rows| - 1], key)
      + if row.day == key.day && row.provider == key.provider && row.model == key.model then row.input else 0
  }

  function RowsOutput(rows: seq<LogRow>, key: GroupKey): int {
    if rows == [] then 0
    else
      var row := rows[|rows| - 1];
      RowsOutput(rows[..|rows| - 1], key)
      + if row.day == key.day && row.provider == key.provider && row.model == key.model then row.output else 0
  }

  /** The rows that recording these requests leaves behind, as long as none is rejected. */
  function Logged(prices: Prices, us: seq<Usage>): (rows: seq<LogRow>)
    ensures |rows| == |us|
  {
    if us == [] then [] else Logged(prices, us[..|us| - 1]) + [Stored(prices, us[|us| - 1])]
  }

  /** The same sums in terms of the requests, over the stored 32-bit signed values. */
  function StoredInput(us: seq<Usage>, key: GroupKey): int {
    if us == [] then 0
    else StoredInput(us[..|us| - 1], key) + if KeyOf(us[|us| - 1]) == key then AsI32(us[|us| - 1].input) else 0
  }

  function StoredOutput(us: seq<Usage>, key: GroupKey): int {
    if us == [] then 0
    else StoredOutput(us[..|us| - 1], key) + if KeyOf(us[|us| - 1]) == key then AsI32(us[|us| - 1].output) else 0
  }

  lemma {:induction false} RowsAreStored(prices: Prices, us: seq<Usage>, key: GroupKey)
    ensures RowsInput(Logged(prices, us), key) == StoredInput(us, key)
    ensures RowsOutput(Logged(prices, us), key) == StoredOutput(us, key)
  {
    if us == [] {
    } else {
      var init, rows := us[..|us| - 1], Logged(prices, us);
      RowsAreStored(prices, init, key);
      assert rows[..|rows| - 1] == Logged(prices, init);
    }
  }

  /** `groups` is the GROUP BY of the rows, in any order. */
  ghost predicate IsGroupBy(groups: seq<Group>, rows: seq<LogRow>) {
    && (forall i, j :: 0 <= i < j < |groups| ==> groups[i].key != groups[j].key)
    && (forall i :: 0 <= i < |groups| ==>
          groups[i].input == RowsInput(rows, groups[i].key) && groups[i].output == RowsOutput(rows, groups[i].key))
    && (forall i :: 0 <= i < |rows| ==>
          exists j :: 0 <= j < |groups| && groups[j].key == GroupKey(rows[i].day, rows[i].provider, rows[i].model))
  }

  lemma {:induction false} LoggedAt(prices: Prices, us: seq<Usage>, i: nat)
    requires i < |us|
    ensures Logged(prices, us)[i] == Stored(prices, us[i])
  {
    if i == |us| - 1 {
    } else {
      LoggedAt(prices, us[..|us| - 1], i);
    }
  }

  lemma CongruentStep(a: int, b: int, t: Tokens)
    requires a % U32 == b % U32
    ensures (a + AsI32(t)) % U32 == (b + t) % U32
  {
    var q, r := a / U32, b / U32;
    assert a + AsI32(t) == (b + t) + U32 * (q - r - if t < 0x8000_0000 then 0 else 1);
  }

  /** Storing tokens as signed values loses nothing modulo 2^32. */
  lemma {:induction false} StoredModulo(us: seq<Usage>, key: GroupKey)
    ensures AsU32(StoredInput(us, key)) == InputSum(us, key) % U32
    ensures AsU32(StoredOutput(us, key)) == OutputSum(us, key) % U32
  {
    if us == [] {
    } else {
      var init, u := us[..|us| - 1], us[|us| - 1];
      StoredModulo(init, key);
      CongruentStep(StoredInput(init, key), InputSum(init, key), u.input);
      CongruentStep(StoredOutput(init, key), OutputSum(init, key), u.output);
    }
  }

  lemma Distribute(a: int, b: int, price: real)
    ensures Charge(a + b, price) == Charge(a, price) + Charge(b, price)
  {
    var x, y := a as real / 1000000.0, b as real / 1000000.0;
    assert (a + b) as real / 1000000.0 == x + y;
    assert (x + y) * price == x * price + y * price;
  }

  lemma CostIsLinear(prices: Prices, provider: string, model: string, i1: int, o1: int, i2: int, o2: int)
    ensures ProviderCost(prices, provider, model, i1 + i2, o1 + o2)
         == ProviderCost(prices, provider, model, i1, o1) + ProviderCost(prices, provider, model, i2, o2)
  {
    hide Charge;
    if (provider, model) in prices {
      var p := prices[(provider, model)];
      Distribute(i1, i2, p.inputPer1M);
      Distribute(o1, o2, p.outputPer1M);
    }
  }

  /** The cost of two amounts together is the sum of their costs. */
  ghost predicate Additive(f: (nat, nat) -> real) {
    forall i1: nat, o1: nat, i2: nat, o2: nat :: f(i1 + i2, o1 + o2) == f(i1, o1) + f(i2, o2)
  }

  lemma Add(f: (nat, nat) -> real, i1: nat, o1: nat, i2: nat, o2: nat)
    requires Additive(f)
    ensures f(i1 + i2, o1 + o2) == f(i1, o1) + f(i2, o2)
  {
  }

  lemma {:induction false} Multiples(f: (nat, nat) -> real, n: nat)
    requires Additive(f)
    ensures f(n, 0) == n as real * f(1, 0) && f(0, n) == n as real * f(0, 1)
  {
    hide Additive;
    Add(f, 0, 0, 0, 0);
    if n == 0 {
    } else {
      Multiples(f, n - 1);
      Add(f, n - 1, 0, 1, 0);
      Add(f, 0, n - 1, 0, 1);
      assert n as real == (n - 1) as real + 1.0;
    }
  }

  lemma UnitPrice(n: nat, unit: real, perMillion: real)
    requires 1000000.0 * unit == perMillion
    ensures n as real * unit == n as real / 1000000.0 * perMillion
  {
    var x := n as real / 1000000.0;
    assert x * (1000000.0 * unit) == (x * 1000000.0) * unit;
  }

  /** `f` adds up over token amounts and charges these prices for a million input and a million output tokens. */
  ghost predicate ChargesAt(f: (nat, nat) -> real, p: ModelPricing) {
    Additive(f) && f(1000000, 0) == p.inputPer1M && f(0, 1000000) == p.outputPer1M
  }

  lemma UnitCost(f: (nat, nat) -> real, p: ModelPricing)
    requires ChargesAt(f, p)
    ensures 1000000.0 * f(1, 0) == p.inputPer1M && 1000000.0 * f(0, 1) == p.outputPer1M
  {
    Multiples(f, 1000000);
  }

  lemma PartCost(f: (nat, nat) -> real, p: ModelPricing, n: nat)
    requires ChargesAt(f, p)
    ensures f(n, 0) == n as real / 1000000.0 * p.inputPer1M && f(0, n) == n as real / 1000000.0 * p.outputPer1M
  {
    UnitCost(f, p);
    Multiples(f, n);
    hide Additive, ChargesAt;
    UnitPrice(n, f(1, 0), p.inputPer1M);
    UnitPrice(n, f(0, 1), p.outputPer1M);
  }

  lemma ChargedCost(f: (nat, nat) -> real, p: ModelPricing, i: nat, o: nat)
    requires ChargesAt(f, p)
    ensures f(i, o) == i as real / 1000000.0 * p.inputPer1M + o as real / 1000000.0 * p.outputPer1M
  {
    Add(f, i, 0, 0, o);
    hide Additive, ChargesAt;
    PartCost(f, p, i);
    PartCost(f, p, o);
  }

  lemma ProviderCostCharges(prices: Prices, provider: string, model: string, f: (nat, nat) -> real)
    requires (provider, model) in prices
    requires forall i: nat, o: nat :: f(i, o) == ProviderCost(prices, provider, model, i, o)
    ensures ChargesAt(f, prices[(provider, model)])
  {
    hide ProviderCost;
    forall i1: nat, o1: nat, i2: nat, o2: nat ensures f(i1 + i2, o1 + o2) == f(i1, o1) + f(i2, o2) {
      CostIsLinear(prices, provider, model, i1, o1, i2, o2);
    }
    PricePerMillion(prices, provider, model);
  }

  /** Pricing is determined by what it is for: it is the one cost that adds up over token amounts and charges the
      configured prices for a million input and a million output tokens. */
  lemma OnlyCost(prices: Prices, provider: string, model: string, f: (nat, nat) -> real)
    requires (provider, model) in prices
    ensures ChargesAt(f, prices[(provider, model)])
       <==> forall i: nat, o: nat :: f(i, o) == ProviderCost(prices, provider, model, i, o)
  {
    hide ChargesAt;
    var p := prices[(provider, model)];
    if ChargesAt(f, p) {
      forall i: nat, o: nat ensures f(i, o) == ProviderCost(prices, provider, model, i, o) {
        ChargedCost(f, p, i, o);
      }
    } else if forall i: nat, o: nat :: f(i, o) == ProviderCost(prices, provider, model, i, o) {
      ProviderCostCharges(prices, provider, model, f);
    }
  }

  /** The requests of one group cost what their summed tokens cost. */
  lemma {:induction false} GroupIsLinear(prices: Prices, us: seq<Usage>, key: GroupKey)
    ensures UsageCost(prices, us, {key})
         == ProviderCost(prices, key.provider, key.model, InputSum(us, key), OutputSum(us, key))
  {
    if us != [] {
      var init, u := us[..|us| - 1], us[|us| - 1];
      GroupIsLinear(prices, init, key);
      if KeyOf(u) == key {
        CostIsLinear(prices, key.provider, key.model, InputSum(init, key), OutputSum(init, key), u.input, u.output);
      }
    } else {
      CostIsLinear(prices, key.provider, key.model, 0, 0, 0, 0);
    }
  }

  lemma {:induction false} DisjointKeys(prices: Prices, us: seq<Usage>, a: set<GroupKey>, b: set<GroupKey>)
    requires a !! b
    ensures UsageCost(prices, us, a + b) == UsageCost(prices, us, a) + UsageCost(prices, us, b)
  {
    if us == [] {
    } else {
      DisjointKeys(prices, us[..|us| - 1], a, b);
    }
  }

  /** What casting a group's sums to 32 bits drops from its cost. */
  function Lost(prices: Prices, us: seq<Usage>, key: GroupKey): real {
    ProviderCost(prices, key.provider, key.model,
                 InputSum(us, key) / U32 * U32, OutputSum(us, key) / U32 * U32)
  }

  function LostOn(prices: Prices, us: seq<Usage>, groups: seq<Group>, day: nat): real {
    if groups == [] then 0.0
    else
      var key := groups[|groups| - 1].key;
      LostOn(prices, us, groups[..|groups| - 1], day) + if key.day == day then Lost(prices, us, key) else 0.0
  }

  function KeysOn(groups: seq<Group>, day: nat): set<GroupKey> {
    set i | 0 <= i < |groups| && groups[i].key.day == day :: groups[i].key
  }

  lemma GroupCostIs(prices: Prices, us: seq<Usage>, g: Group)
    requires g.input == StoredInput(us, g.key) && g.output == StoredOutput(us, g.key)
    ensures GroupCost(prices, g) == UsageCost(prices, us, {g.key}) - Lost(prices, us, g.key)
  {
    var k, i, o := g.key, InputSum(us, g.key), OutputSum(us, g.key);
    StoredModulo(us, k);
    GroupIsLinear(prices, us, k);
    CostIsLinear(prices, k.provider, k.model, i % U32, o % U32, i / U32 * U32, o / U32 * U32);
  }

  lemma {:induction false} NoKeys(prices: Prices, us: seq<Usage>, keys: set<GroupKey>)
    requires keys == {}
    ensures UsageCost(prices, us, keys) == 0.0
  {
    if us == [] {
    } else {
      NoKeys(prices, us[..|us| - 1], keys);
    }
  }

  lemma KeysOnLast(groups: seq<Group>, day: nat)
    requires groups != []
    ensures var init, key := groups[..|groups| - 1], groups[|groups| - 1].key;
            KeysOn(groups, day) == if key.day == day then KeysOn(init, day) + {key} else KeysOn(init, day)
  {
    var init, n := groups[..|groups| - 1], |groups| - 1;
    forall k | k in KeysOn(groups, day)
      ensures k in KeysOn(init, day) || (k == groups[n].key && k.day == day)
    {
      var i :| 0 <= i < |groups| && groups[i].key.day == day && groups[i].key == k;
      if i < n { assert init[i] == groups[i]; }
    }
    forall k | k in KeysOn(init, day) ensures k in KeysOn(groups, day) {
      var i :| 0 <= i < |init| && init[i].key.day == day && init[i].key == k;
      assert groups[i] == init[i];
    }
    assert groups[n].key.day == day ==> groups[n].key in KeysOn(groups, day);
  }

  /** The page's total is the requests' total less what the casts dropped. */
  lemma {:induction false} DayTotalIs(prices: Prices, us: seq<Usage>, groups: seq<Group>, day: nat)
    requires forall i, j :: 0 <= i < j < |groups| ==> groups[i].key != groups[j].key
    requires forall i :: 0 <= i < |groups| ==>
               groups[i].input == StoredInput(us, groups[i].key) && groups[i].output == StoredOutput(us, groups[i].key)
    ensures DayTotal(prices, groups, day)
         == UsageCost(prices, us, KeysOn(groups, day)) - LostOn(prices, us, groups, day)
  {
    if groups == [] {
      NoKeys(prices, us, KeysOn(groups, day));
    } else {
      var init, g := groups[..|groups| - 1], groups[|groups| - 1];
      DayTotalIs(prices, us, init, day);
      GroupCostIs(prices, us, g);
      KeysOnLast(groups, day);
      if g.key.day == day {
        DisjointKeys(prices, us, KeysOn(init, day), {g.key});
      }
    }
  }

  /** All of a day's requests, whatever their provider and model. */
  function RequestTotal(prices: Prices, us: seq<Usage>, day: nat): real {
    if us == [] then 0.0
    else
      var u := us[|us| - 1];
      RequestTotal(prices, us[..|us| - 1], day)
      + if u.day == day then ProviderCost(prices, u.provider, u.model, u.input, u.output) else 0.0
  }

  lemma {:induction false} CoversDay(prices: Prices, us: seq<Usage>, keys: set<GroupKey>, day: nat)
    requires forall k :: k in keys ==> k.day == day
    requires forall i :: 0 <= i < |us| && us[i].day == day ==> KeyOf(us[i]) in keys
    ensures UsageCost(prices, us, keys) == RequestTotal(prices, us, day)
  {
    if us == [] {
    } else {
      CoversDay(prices, us[..|us| - 1], keys, day);
    }
  }

  lemma PageTotal(prices: Prices, us: seq<Usage>, groups: seq<Group>, day: nat)
    requires IsGroupBy(groups, Logged(prices, us))
    ensures DayTotal(prices, groups, day) == RequestTotal(prices, us, day) - LostOn(prices, us, groups, day)
  {
    hide StoredInput, StoredOutput, RowsInput, RowsOutput, Logged;
    forall i | 0 <= i < |groups|
      ensures groups[i].input == StoredInput(us, groups[i].key) && groups[i].output == StoredOutput(us, groups[i].key)
    {
      RowsAreStored(prices, us, groups[i].key);
    }
    DayTotalIs(prices, us, groups, day);
    forall i | 0 <= i < |us| && us[i].day == day ensures KeyOf(us[i]) in KeysOn(groups, day) {
      LoggedAt(prices, us, i);
      assert Logged(prices, us)[i] == Stored(prices, us[i]);
      var j :| 0 <= j < |groups| && groups[j].key == KeyOf(us[i]);
    }
    CoversDay(prices, us, KeysOn(groups, day), day);
  }

  /** A group whose token sums fit in 32 bits, or whose overflowing side is free of charge. */
  predicate Faithful(prices: Prices, us: seq<Usage>, key: GroupKey) {
    var priced := (key.provider, key.model) in prices;
    && (InputSum(us, key) < U32 || !priced || prices[(key.provider, key.model)].inputPer1M == 0.0)
    && (OutputSum(us, key) < U32 || !priced || prices[(key.provider, key.model)].outputPer1M == 0.0)
  }

  predicate NoNegativePrice(prices: Prices) {
    forall k :: k in prices ==> prices[k].inputPer1M >= 0.0 && prices[k].outputPer1M >= 0.0
  }

  lemma FreeProduct(a: real, b: real)
    requires a >= 0.0 && b >= 0.0
    ensures a * b >= 0.0 && (a * b == 0.0 <==> a == 0.0 || b == 0.0)
  {
    if a > 0.0 && b > 0.0 { assert a * b > 0.0; }
  }

  /** One side of a group: nothing is lost if the sum fits or the tokens are free, and only then if they are not paid
      out. */
  lemma SideIff(sum: nat, price: real)
    ensures var lost := Charge(sum / U32 * U32, price);
            && (sum < U32 || price == 0.0 ==> lost == 0.0)
            && (price >= 0.0 ==> lost >= 0.0 && (lost == 0.0 <==> sum < U32 || price == 0.0))
  {
    var x := (sum / U32 * U32) as real / 1000000.0;
    assert sum / U32 * U32 == 0 <==> sum < U32;
    assert x >= 0.0 && (x == 0.0 <==> sum < U32);
    if price >= 0.0 { FreeProduct(x, price); }
  }

  lemma LostIff(prices: Prices, us: seq<Usage>, key: GroupKey)
    ensures Faithful(prices, us, key) ==> Lost(prices, us, key) == 0.0
    ensures NoNegativePrice(prices) ==> Lost(prices, us, key) >= 0.0
    ensures NoNegativePrice(prices) ==> (Lost(prices, us, key) == 0.0 <==> Faithful(prices, us, key))
  {
    if (key.provider, key.model) in prices {
      hide Charge;
      var p := prices[(key.provider, key.model)];
      SideIff(InputSum(us, key), p.inputPer1M);
      SideIff(OutputSum(us, key), p.outputPer1M);
    }
  }

  lemma {:induction false} LostOnIff(prices: Prices, us: seq<Usage>, groups: seq<Group>, day: nat)
    ensures (forall i :: 0 <= i < |groups| && groups[i].key.day == day ==> Faithful(prices, us, groups[i].key))
            ==> LostOn(prices, us, groups, day) == 0.0
    ensures NoNegativePrice(prices) ==>
              LostOn(prices, us, groups, day) >= 0.0
              && (LostOn(prices, us, groups, day) == 0.0 <==>
                  forall i :: 0 <= i < |groups| && groups[i].key.day == day ==> Faithful(prices, us, groups[i].key))
  {
    hide Lost, Faithful, NoNegativePrice;
    if groups == [] {
    } else {
      var n := |groups| - 1;
      var init := groups[..n];
      LostOnIff(prices, us, init, day);
      LostIff(prices, us, groups[n].key);
      assert forall i :: 0 <= i < n ==> init[i] == groups[i];
      assert (forall i :: 0 <= i < |groups| && groups[i].key.day == day ==> Faithful(prices, us, groups[i].key))
        <==> (forall i :: 0 <= i < n && init[i].key.day == day ==> Faithful(prices, us, init[i].key))
             && (groups[n].key.day == day ==> Faithful(prices, us, groups[n].key));
    }
  }

  /** The page shows what the requests cost if every group's sums fit in 32 bits; the prices may be anything. */
  lemma {:induction false} CostConservation(prices: Prices, us: seq<Usage>, groups: seq<Group>, day: nat)
    requires IsGroupBy(groups, Logged(prices, us))
    requires forall i :: 0 <= i < |groups| && groups[i].key.day == day ==>
               InputSum(us, groups[i].key) < U32 && OutputSum(us, groups[i].key) < U32
    ensures DayTotal(prices, groups, day) == RequestTotal(prices, us, day)
  {
    PageTotal(prices, us, groups, day);
    LostOnIff(prices, us, groups, day);
  }

  /** Without negative prices, the page never shows too much, and shows exactly the cost if and only if no
      group overflows on a side that is charged for. */
  lemma {:induction false} CostConservationIff(prices: Prices, us: seq<Usage>, groups: seq<Group>, day: nat)
    requires IsGroupBy(groups, Logged(prices, us)) && NoNegativePrice(prices)
    ensures DayTotal(prices, groups, day) <= RequestTotal(prices, us, day)
    ensures DayTotal(prices, groups, day) == RequestTotal(prices, us, day) <==>
            forall i :: 0 <= i < |groups| && groups[i].key.day == day ==> Faithful(prices, us, groups[i].key)
  {
    PageTotal(prices, us, groups, day);
    LostOnIff(prices, us, groups, day);
  }
}
