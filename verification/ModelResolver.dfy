/** Resolving a public model to its upstream targets: by descending priority, shuffled among equals. */
module ModelResolver {
  datatype Target = Target(providerId: string, targetModel: string, priority: int)

  /** The random numbers of the shuffles, by the position they are drawn for; any map is possible. */
  type Draws = map<nat, nat>

  function DrawAt(draws: Draws, i: nat): nat {
    if i in draws then draws[i] else 0
  }

  // ----- What the in-place code computes -----

  function Active(targets: seq<Target>): seq<Target> {
    if targets == [] then []
    else
      var rest := Active(targets[1..]);
      if targets[0].providerId == "" then rest else [targets[0]] + rest
  }

  /** Insertion before everything of at most the same priority keeps the sort stable. */
  function Insert(t: Target, sorted: seq<Target>): seq<Target> {
    if sorted == [] || t.priority >= sorted[0].priority then [t] + sorted
    else [sorted[0]] + Insert(t, sorted[1..])
  }

  function SortDesc(targets: seq<Target>): seq<Target> {
    if targets == [] then [] else Insert(targets[0], SortDesc(targets[1..]))
  }

  predicate SortedDesc(s: seq<Target>) {
    forall i, j :: 0 <= i < j < |s| ==> s[i].priority >= s[j].priority
  }

  function Swap<T>(s: seq<T>, i: nat, j: nat): (r: seq<T>)
    requires i < |s| && j < |s|
    ensures |r| == |s|
  {
    s[i := s[j]][j := s[i]]
  }

  /** The position in `0..i` that position `i` is swapped with; every one of them is some draw. */
  function Pick(draws: Draws, base: nat, i: nat): (j: nat)
    ensures j <= i
  {
    var d := DrawAt(draws, base + i);
    if d <= i then d else i
  }

  /** The shuffle of `k` elements from `lo` on: from the last one down, each is swapped with one at or before it. */
  function ShuffledAt(s: seq<Target>, lo: nat, k: nat, draws: Draws): (r: seq<Target>)
    requires lo + k <= |s|
    ensures |r| == |s|
    decreases k
  {
    if k <= 1 then s else ShuffledAt(Swap(s, lo + k - 1, lo + Pick(draws, lo, k - 1)), lo, k - 1, draws)
  }

  /** The end of the run of equal priority that contains `start..n`. */
  function GroupEnd(s: seq<Target>, start: nat, n: nat): (end: nat)
    requires start < n <= |s|
    ensures n <= end <= |s|
    decreases |s| - n
  {
    if n < |s| && s[n].priority == s[start].priority then GroupEnd(s, start, n + 1) else n
  }

  /** The ends of the runs of equal priority. */
  datatype Ends = NoMore | EndAt(end: nat, rest: Ends)

  function EndsFrom(s: seq<Target>, start: nat): Ends
    requires start <= |s|
    decreases |s| - start
  {
    if start == |s| then NoMore
    else
      var end := GroupEnd(s, start, start + 1);
      EndAt(end, EndsFrom(s, end))
  }

  predicate Fit(ends: Ends, start: nat, length: nat) {
    ends.EndAt? ==> start <= ends.end <= length && Fit(ends.rest, ends.end, length)
  }

  function ShuffledBy(s: seq<Target>, start: nat, ends: Ends, draws: Draws): (r: seq<Target>)
    requires Fit(ends, start, |s|)
    ensures |r| == |s|
    decreases ends
  {
    match ends
    case NoMore => s
    case EndAt(end, rest) => ShuffledBy(ShuffledAt(s, start, end - start, draws), end, rest, draws)
  }

  lemma {:induction false} EndsFit(s: seq<Target>, start: nat)
    requires start <= |s|
    ensures Fit(EndsFrom(s, start), start, |s|)
    decreases |s| - start
  {
    if start == |s| {
    } else {
      EndsFit(s, GroupEnd(s, start, start + 1));
    }
  }

  function ShuffleGroups(s: seq<Target>, draws: Draws): seq<Target> {
    EndsFit(s, 0);
    ShuffledBy(s, 0, EndsFrom(s, 0), draws)
  }

  function Resolved(targets: seq<Target>, draws: Draws): seq<Target> {
    ShuffleGroups(SortDesc(Active(targets)), draws)
  }

  function TargetsOf(index: map<string, seq<Target>>, publicModel: string): seq<Target> {
    if publicModel in index then index[publicModel] else []
  }

  // ----- The resolver -----

  /** The shuffle of a slice leaves the rest alone. */
  lemma {:induction false} AtFrame(s: seq<Target>, lo: nat, k: nat, draws: Draws)
    requires lo + k <= |s|
    ensures forall i :: lo + k <= i < |s| ==> ShuffledAt(s, lo, k, draws)[i] == s[i]
    decreases k
  {
    if k <= 1 {
    } else {
      AtFrame(Swap(s, lo + k - 1, lo + Pick(draws, lo, k - 1)), lo, k - 1, draws);
    }
  }

  /** Shuffle `k` elements from `lo` on in place. */
  method ShuffleSlice(a: array<Target>, lo: nat, k: nat, draws: Draws)
    requires lo + k <= a.Length
    modifies a
    ensures a[..] == ShuffledAt(old(a[..]), lo, k, draws)
  {
    hide DrawAt;
    ghost var goal := ShuffledAt(a[..], lo, k, draws);
    var i: nat := k;
    while i > 1
      invariant 0 <= i <= k && ShuffledAt(a[..], lo, i, draws) == goal
    {
      var last, j := lo + i - 1, lo + Pick(draws, lo, i - 1);
      ghost var before := a[..];
      a[last], a[j] := a[j], a[last];
      assert a[..] == Swap(before, last, j);
      i := i - 1;
    }
  }

  /** The inner loop; from `start` on the array still holds `s`. */
  method FindGroupEnd(a: array<Target>, ghost s: seq<Target>, start: nat) returns (end: nat)
    requires start < a.Length == |s| && forall i :: start <= i < a.Length ==> a[i] == s[i]
    ensures end == GroupEnd(s, start, start + 1)
  {
    end := start + 1;
    while end < a.Length && a[end].priority == a[start].priority
      invariant start < end <= a.Length && GroupEnd(s, start, start + 1) == GroupEnd(s, start, end)
    {
      end := end + 1;
    }
  }

  /** Shuffle every run of equal priority in place. */
  method ShuffleEqualPriorities(a: array<Target>, draws: Draws)
    modifies a
    ensures a[..] == ShuffleGroups(old(a[..]), draws)
  {
    hide ShuffledAt, GroupEnd;
    ghost var s := a[..];
    EndsFit(s, 0);
    var start := 0;
    while start < a.Length
      invariant start <= a.Length && Fit(EndsFrom(s, start), start, a.Length)
      invariant forall i :: start <= i < a.Length ==> a[i] == s[i]
      invariant ShuffledBy(a[..], start, EndsFrom(s, start), draws) == ShuffleGroups(s, draws)
    {
      var end := FindGroupEnd(a, s, start);
      AtFrame(a[..], start, end - start, draws);
      ShuffleSlice(a, start, end - start, draws);
      assert forall i :: end <= i < a.Length ==> a[..][i] == s[i];
      start := end;
    }
  }

  class ModelResolver {
    var index: map<string, seq<Target>>

    constructor ()
      ensures index == map[]
    {
      index := map[];
    }

    method AddTarget(publicModel: string, t: Target)
      modifies this
      ensures index == old(index)[publicModel := TargetsOf(old(index), publicModel) + [t]]
    {
      index := index[publicModel := TargetsOf(index, publicModel) + [t]];
    }

    method Resolve(publicModel: string, draws: Draws) returns (targets: seq<Target>)
      ensures targets == Resolved(TargetsOf(index, publicModel), draws)
    {
      if publicModel !in index {
        return [];
      }
      var sorted := SortDesc(Active(index[publicModel]));
      var active := new Target[|sorted|](i requires 0 <= i < |sorted| => sorted[i]);
      assert active[..] == sorted;
      ShuffleEqualPriorities(active, draws);
      return active[..];
    }
  }

  // ----- Groups of equal priority -----

  datatype Groups = NoGroups | Group(first: seq<Target>, rest: Groups)

  function Flatten(g: Groups): seq<Target> {
    match g
    case NoGroups => []
    case Group(first, rest) => first + Flatten(rest)
  }

  /** Non-empty groups of one priority each, in strictly descending order. */
  predicate Ordered(g: Groups) {
    g.Group? ==>
      && g.first != []
      && (forall i :: 0 <= i < |g.first| ==> g.first[i].priority == g.first[0].priority)
      && Ordered(g.rest)
      && (g.rest.Group? && g.rest.first != [] ==> g.rest.first[0].priority < g.first[0].priority)
  }

  /** Shuffle one group by itself. */
  function Shuffled(s: seq<Target>, k: nat, draws: Draws, base: nat): (r: seq<Target>)
    requires k <= |s|
    ensures |r| == |s|
    decreases k
  {
    if k <= 1 then s else Shuffled(Swap(s, k - 1, Pick(draws, base, k - 1)), k - 1, draws, base)
  }

  function ShuffleEach(g: Groups, draws: Draws, base: nat): Groups {
    match g
    case NoGroups => NoGroups
    case Group(first, rest) =>
      Group(Shuffled(first, |first|, draws, base), ShuffleEach(rest, draws, base + |first|))
  }

  function EndsOf(g: Groups, base: nat): Ends {
    match g
    case NoGroups => NoMore
    case Group(first, rest) => EndAt(base + |first|, EndsOf(rest, base + |first|))
  }

  lemma {:induction false} EndsOfFit(g: Groups, base: nat, length: nat)
    requires base + |Flatten(g)| == length
    ensures Fit(EndsOf(g, base), base, length)
  {
    if g.NoGroups? {
    } else {
      EndsOfFit(g.rest, base + |g.first|, length);
    }
  }

  lemma SwapInside(pre: seq<Target>, s: seq<Target>, post: seq<Target>, i: nat, j: nat)
    requires i < |s| && j < |s|
    ensures Swap(pre + s + post, |pre| + i, |pre| + j) == pre + Swap(s, i, j) + post
  {
  }

  lemma {:induction false} AtIsSlice(pre: seq<Target>, s: seq<Target>, post: seq<Target>, k: nat, draws: Draws)
    requires k <= |s|
    ensures ShuffledAt(pre + s + post, |pre|, k, draws) == pre + Shuffled(s, k, draws, |pre|) + post
    decreases k
  {
    hide Swap, Pick;
    if k <= 1 {
    } else {
      var j := Pick(draws, |pre|, k - 1);
      SwapInside(pre, s, post, k - 1, j);
      AtIsSlice(pre, Swap(s, k - 1, j), post, k - 1, draws);
    }
  }

  lemma Regroup<T>(a: seq<T>, b: seq<T>, c: seq<T>)
    ensures a + (b + c) == (a + b) + c
  {
  }

  /** Shuffling between the ends, in place, is shuffling each group by itself. */
  lemma {:induction false} ByIsEach(whole: seq<Target>, pre: seq<Target>, g: Groups, draws: Draws)
    requires whole == pre + Flatten(g) && Fit(EndsOf(g, |pre|), |pre|, |whole|)
    ensures ShuffledBy(whole, |pre|, EndsOf(g, |pre|), draws) == pre + Flatten(ShuffleEach(g, draws, |pre|))
    decreases g
  {
    hide ShuffledAt, Shuffled;
    if g.NoGroups? {
    } else {
      var shuffled := Shuffled(g.first, |g.first|, draws, |pre|);
      assert whole == pre + g.first + Flatten(g.rest);
      AtIsSlice(pre, g.first, Flatten(g.rest), |g.first|, draws);
      assert |pre + shuffled| == |pre| + |g.first|;
      ByIsEach(ShuffledAt(whole, |pre|, |g.first|, draws), pre + shuffled, g.rest, draws);
      Regroup(pre, shuffled, Flatten(ShuffleEach(g.rest, draws, |pre| + |g.first|)));
    }
  }

  lemma {:induction false} GroupEndFacts(s: seq<Target>, start: nat, n: nat)
    requires start < n <= |s| && forall i :: start <= i < n ==> s[i].priority == s[start].priority
    ensures var end := GroupEnd(s, start, n);
            && (forall i :: start <= i < end ==> s[i].priority == s[start].priority)
            && (end < |s| ==> s[end].priority != s[start].priority)
    decreases |s| - n
  {
    if n == |s| || s[n].priority != s[start].priority {
    } else {
      GroupEndFacts(s, start, n + 1);
    }
  }

  /** The groups of a priority order, found from the end of the sequence backwards. */
  lemma {:induction false} GroupsFrom(s: seq<Target>, start: nat) returns (g: Groups)
    requires SortedDesc(s) && start <= |s|
    ensures Ordered(g) && Flatten(g) == s[start..] && EndsOf(g, start) == EndsFrom(s, start)
    decreases |s| - start
  {
    if start == |s| {
      g := NoGroups;
    } else {
      var end := GroupEnd(s, start, start + 1);
      GroupEndFacts(s, start, start + 1);
      var rest := GroupsFrom(s, end);
      g := Group(s[start..end], rest);
      assert s[start..] == s[start..end] + s[end..];
      if rest.Group? { assert rest.first[0] == s[end]; }
    }
  }

  lemma ResolvedIsEach(targets: seq<Target>, draws: Draws, g: Groups)
    requires var s := SortDesc(Active(targets)); Flatten(g) == s && EndsOf(g, 0) == EndsFrom(s, 0)
    ensures Resolved(targets, draws) == Flatten(ShuffleEach(g, draws, 0))
  {
    hide SortDesc, Active, Flatten, ShuffleEach, EndsFrom, EndsOf, ShuffledBy;
    EndsOfFit(g, 0, |Flatten(g)|);
    ByIsEach(Flatten(g), [], g, draws);
  }

  // ----- Every result is a priority-ordered permutation -----

  lemma {:induction false} InsertKeeps(t: Target, s: seq<Target>)
    ensures multiset(Insert(t, s)) == multiset(s) + multiset{t}
  {
    if s == [] || t.priority >= s[0].priority {
    } else {
      InsertKeeps(t, s[1..]);
      assert s == [s[0]] + s[1..];
    }
  }

  predicate AllAtMost(s: seq<Target>, p: int) {
    forall i :: 0 <= i < |s| ==> s[i].priority <= p
  }

  lemma {:induction false} InsertSorted(t: Target, s: seq<Target>, p: int)
    requires SortedDesc(s) && AllAtMost(s, p) && t.priority <= p
    ensures SortedDesc(Insert(t, s)) && AllAtMost(Insert(t, s), p)
  {
    if s == [] || t.priority >= s[0].priority {
    } else {
      InsertSorted(t, s[1..], s[0].priority);
    }
  }

  lemma InsertSorts(t: Target, s: seq<Target>)
    requires SortedDesc(s)
    ensures SortedDesc(Insert(t, s))
  {
    InsertSorted(t, s, if s == [] || t.priority >= s[0].priority then t.priority else s[0].priority);
  }

  lemma {:induction false} SortDescSorts(s: seq<Target>)
    ensures SortedDesc(SortDesc(s)) && multiset(SortDesc(s)) == multiset(s)
  {
    if s == [] {
    } else {
      hide Insert, SortedDesc;
      SortDescSorts(s[1..]);
      InsertKeeps(s[0], SortDesc(s[1..]));
      InsertSorts(s[0], SortDesc(s[1..]));
      assert s == [s[0]] + s[1..];
    }
  }

  lemma SwapKeeps<T>(s: seq<T>, i: nat, j: nat)
    requires i < |s| && j < |s|
    ensures multiset(Swap(s, i, j)) == multiset(s)
  {
  }

  lemma {:induction false} ShuffledKeeps(s: seq<Target>, k: nat, draws: Draws, base: nat)
    requires k <= |s|
    ensures multiset(Shuffled(s, k, draws, base)) == multiset(s)
    decreases k
  {
    if k <= 1 {
    } else {
      var j := Pick(draws, base, k - 1);
      SwapKeeps(s, k - 1, j);
      ShuffledKeeps(Swap(s, k - 1, j), k - 1, draws, base);
    }
  }

  lemma SameMembers(s: seq<Target>, r: seq<Target>, p: int)
    requires multiset(r) == multiset(s) && forall i :: 0 <= i < |s| ==> s[i].priority == p
    ensures forall i :: 0 <= i < |r| ==> r[i].priority == p
  {
    forall i | 0 <= i < |r| ensures r[i].priority == p {
      assert r[i] in multiset(s);
    }
  }

  lemma FirstKeeps(g: Groups, draws: Draws, base: nat)
    requires g.Group? && Ordered(g)
    ensures var first, p := Shuffled(g.first, |g.first|, draws, base), g.first[0].priority;
            multiset(first) == multiset(g.first) && forall i :: 0 <= i < |first| ==> first[i].priority == p
  {
    ShuffledKeeps(g.first, |g.first|, draws, base);
    SameMembers(g.first, Shuffled(g.first, |g.first|, draws, base), g.first[0].priority);
  }

  /** Shuffling each group keeps the groups' order ... */
  lemma {:induction false} EachOrdered(g: Groups, draws: Draws, base: nat)
    requires Ordered(g)
    ensures Ordered(ShuffleEach(g, draws, base))
  {
    if g.NoGroups? {
    } else {
      FirstKeeps(g, draws, base);
      EachOrdered(g.rest, draws, base + |g.first|);
      if g.rest.Group? { FirstKeeps(g.rest, draws, base + |g.first|); }
    }
  }

  lemma FlattenGroup(first: seq<Target>, rest: Groups)
    ensures multiset(Flatten(Group(first, rest))) == multiset(first) + multiset(Flatten(rest))
  {
  }

  /** ... and the multiset of targets. */
  lemma {:induction false} EachKeeps(g: Groups, draws: Draws, base: nat)
    requires Ordered(g)
    ensures multiset(Flatten(ShuffleEach(g, draws, base))) == multiset(Flatten(g))
  {
    hide Flatten, Shuffled;
    if g.NoGroups? {
    } else {
      FirstKeeps(g, draws, base);
      EachKeeps(g.rest, draws, base + |g.first|);
      FlattenGroup(g.first, g.rest);
      FlattenGroup(Shuffled(g.first, |g.first|, draws, base), ShuffleEach(g.rest, draws, base + |g.first|));
    }
  }

  lemma {:induction false} AllBelow(g: Groups, p: int)
    requires Ordered(g) && (g.Group? ==> g.first[0].priority <= p)
    ensures forall i :: 0 <= i < |Flatten(g)| ==> Flatten(g)[i].priority <= p
  {
    if g.NoGroups? {
    } else {
      AllBelow(g.rest, p);
    }
  }

  lemma {:induction false} OrderedIsSorted(g: Groups)
    requires Ordered(g)
    ensures SortedDesc(Flatten(g))
  {
    if g.NoGroups? {
    } else {
      OrderedIsSorted(g.rest);
      AllBelow(g.rest, g.first[0].priority);
    }
  }

  // ----- Every such permutation is a result -----

  /** The shuffle of a group looks only at the draws for its own positions. */
  lemma {:induction false} ShuffledLocal(s: seq<Target>, k: nat, d1: Draws, d2: Draws, base: nat)
    requires k <= |s|
    requires forall i :: base <= i < base + k ==> DrawAt(d1, i) == DrawAt(d2, i)
    ensures Shuffled(s, k, d1, base) == Shuffled(s, k, d2, base)
    decreases k
  {
    if k <= 1 {
    } else {
      ShuffledLocal(Swap(s, k - 1, Pick(d1, base, k - 1)), k - 1, d1, d2, base);
    }
  }

  lemma {:induction false} EachLocal(g: Groups, d1: Draws, d2: Draws, base: nat)
    requires forall i :: base <= i ==> DrawAt(d1, i) == DrawAt(d2, i)
    ensures ShuffleEach(g, d1, base) == ShuffleEach(g, d2, base)
  {
    if g.NoGroups? {
    } else {
      ShuffledLocal(g.first, |g.first|, d1, d2, base);
      EachLocal(g.rest, d1, d2, base + |g.first|);
    }
  }

  lemma FindIn(s: seq<Target>, k: nat, x: Target) returns (j: nat)
    requires k <= |s| && multiset(s[..k])[x] > 0
    ensures j < k && s[j] == x
  {
    assert x in s[..k];
    j :| 0 <= j < k && s[..k][j] == x;
  }

  lemma SwapPrefix(s: seq<Target>, k: nat, j: nat)
    requires 1 <= k <= |s| && j < k
    ensures var r := Swap(s, k - 1, j);
            r[k - 1] == s[j] && r[k..] == s[k..] && multiset(r[..k - 1]) == multiset(s[..k]) - multiset{s[j]}
  {
    var r := Swap(s, k - 1, j);
    assert r[..k] == Swap(s[..k], k - 1, j);
    SwapKeeps(s[..k], k - 1, j);
    assert r[..k] == r[..k - 1] + [s[j]];
  }

  lemma SinglePermutation(s: seq<Target>, goal: seq<Target>, k: nat)
    requires k <= 1 && k <= |s| == |goal| && s[k..] == goal[k..] && multiset(s[..k]) == multiset(goal[..k])
    ensures s == goal
  {
    assert s == s[..k] + s[k..] && goal == goal[..k] + goal[k..];
    if k == 1 {
      assert s[..1] == [s[0]] && goal[..1] == [goal[0]];
      assert s[0] in multiset(goal[..1]);
    }
  }

  /** Swapping the wanted element to the end of the first `k` leaves a permutation of what is still wanted. */
  lemma SwapTowards(s: seq<Target>, goal: seq<Target>, k: nat) returns (j: nat)
    requires 1 <= k <= |s| == |goal| && s[k..] == goal[k..] && multiset(s[..k]) == multiset(goal[..k])
    ensures j < k
    ensures var r := Swap(s, k - 1, j);
            r[k - 1..] == goal[k - 1..] && multiset(r[..k - 1]) == multiset(goal[..k - 1])
  {
    var last := goal[k - 1];
    assert goal[..k] == goal[..k - 1] + [last];
    j := FindIn(s, k, last);
    SwapPrefix(s, k, j);
    var r := Swap(s, k - 1, j);
    assert r[k - 1..] == [last] + r[k..] && goal[k - 1..] == [last] + goal[k..];
  }

  /** The draws agree outside the positions `base..base + k`. */
  ghost predicate AgreeOutside(d1: Draws, d2: Draws, base: nat, k: nat) {
    forall i: nat :: i < base || base + k <= i ==> DrawAt(d1, i) == DrawAt(d2, i)
  }

  lemma DrawFor(inner: Draws, others: Draws, base: nat, k: nat, j: nat) returns (draws: Draws)
    requires k >= 1 && j < k && AgreeOutside(inner, others, base, k - 1)
    ensures AgreeOutside(draws, others, base, k) && Pick(draws, base, k - 1) == j
    ensures forall i :: base <= i < base + k - 1 ==> DrawAt(draws, i) == DrawAt(inner, i)
  {
    draws := inner[base + k - 1 := j];
  }

  /** Some draws take a group to any chosen permutation of it. */
  lemma {:induction false} ReachGroup(s: seq<Target>, goal: seq<Target>, k: nat, base: nat, others: Draws)
    returns (draws: Draws)
    requires k <= |s| == |goal| && s[k..] == goal[k..] && multiset(s[..k]) == multiset(goal[..k])
    ensures Shuffled(s, k, draws, base) == goal && AgreeOutside(draws, others, base, k)
    decreases k
  {
    if k <= 1 {
      draws := others;
      SinglePermutation(s, goal, k);
    } else {
      var j := SwapTowards(s, goal, k);
      var swapped := Swap(s, k - 1, j);
      var inner := ReachGroup(swapped, goal, k - 1, base, others);
      draws := DrawFor(inner, others, base, k, j);
      ShuffledLocal(swapped, k - 1, inner, draws, base);
    }
  }

  lemma ReachWhole(s: seq<Target>, goal: seq<Target>, base: nat, others: Draws) returns (draws: Draws)
    requires multiset(s) == multiset(goal)
    ensures Shuffled(s, |s|, draws, base) == goal && AgreeOutside(draws, others, base, |s|)
  {
    assert |multiset(s)| == |s|;
    assert s[..|s|] == s && goal[..|s|] == goal;
    draws := ReachGroup(s, goal, |s|, base, others);
  }

  lemma SameTop(g: Groups, h: Groups)
    requires g.Group? && Ordered(g) && Ordered(h) && multiset(Flatten(g)) == multiset(Flatten(h))
    ensures h.Group? && g.first[0].priority <= h.first[0].priority
  {
    assert g.first[0] == Flatten(g)[0];
    assert g.first[0] in multiset(Flatten(h));
    if h.Group? { AllBelow(h, h.first[0].priority); }
  }

  /** What is at the top priority is in the first group and nowhere else. */
  lemma TopCount(g: Groups, x: Target)
    requires g.Group? && Ordered(g)
    ensures multiset(g.first)[x] == if x.priority == g.first[0].priority then multiset(Flatten(g))[x] else 0
  {
    if x in g.first { assert x.priority == g.first[0].priority; }
    if x.priority == g.first[0].priority {
      AllBelow(g.rest, g.first[0].priority - 1);
      assert x !in Flatten(g.rest);
    }
  }

  /** Two orderings of the same targets have the same groups, up to the order within each. */
  lemma SameFirst(g: Groups, h: Groups)
    requires g.Group? && h.Group? && Ordered(g) && Ordered(h) && multiset(Flatten(g)) == multiset(Flatten(h))
    ensures multiset(g.first) == multiset(h.first) && multiset(Flatten(g.rest)) == multiset(Flatten(h.rest))
  {
    SameTop(g, h);
    SameTop(h, g);
    forall x ensures multiset(g.first)[x] == multiset(h.first)[x] {
      TopCount(g, x);
      TopCount(h, x);
    }
    assert multiset(Flatten(g.rest)) == multiset(Flatten(g)) - multiset(g.first);
    assert multiset(Flatten(h.rest)) == multiset(Flatten(h)) - multiset(h.first);
  }

  /** Some draws take the groups to any other ordering of the same targets. */
  lemma {:induction false} ReachAll(g: Groups, h: Groups, base: nat) returns (draws: Draws)
    requires Ordered(g) && Ordered(h) && multiset(Flatten(g)) == multiset(Flatten(h))
    ensures ShuffleEach(g, draws, base) == h
    decreases g
  {
    hide Flatten, Shuffled;
    if g.Group? {
      SameTop(g, h);
      SameFirst(g, h);
      var later := ReachAll(g.rest, h.rest, base + |g.first|);
      draws := ReachWhole(g.first, h.first, base, later);
      EachLocal(g.rest, later, draws, base + |g.first|);
    } else {
      draws := map[];
      if h.Group? { SameTop(h, g); }
    }
  }

  /** The possible results of `resolve` are exactly the orders of the targets with a provider in which no
      target comes before one of higher priority. */
  lemma ResolveExactly(targets: seq<Target>, r: seq<Target>)
    ensures (exists draws :: r == Resolved(targets, draws))
       <==> SortedDesc(r) && multiset(r) == multiset(Active(targets))
  {
    var s := SortDesc(Active(targets));
    SortDescSorts(Active(targets));
    var g := GroupsFrom(s, 0);
    assert s[0..] == s;
    if draws :| r == Resolved(targets, draws) {
      ResolvedIsEach(targets, draws, g);
      EachKeeps(g, draws, 0);
      EachOrdered(g, draws, 0);
      OrderedIsSorted(ShuffleEach(g, draws, 0));
    }
    if SortedDesc(r) && multiset(r) == multiset(s) {
      var h := GroupsFrom(r, 0);
      assert r[0..] == r;
      var draws := ReachAll(g, h, 0);
      ResolvedIsEach(targets, draws, g);
      assert r == Resolved(targets, draws);
    }
  }

  /** Only targets without a provider are dropped. */
  lemma {:induction false} ActiveCounts(targets: seq<Target>, t: Target)
    ensures multiset(Active(targets))[t] == if t.providerId == "" then 0 else multiset(targets)[t]
  {
    if targets == [] {
    } else {
      ActiveCounts(targets[1..], t);
      assert targets == [targets[0]] + targets[1..];
    }
  }
}
