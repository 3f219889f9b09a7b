/** The sticky mapping from a client key and provider to an upstream key, and its round-robin counter. */
module StickyCache {
  import opened Wrappers
  import opened KeyFailover
  import opened Modulo

  /** A client API key and a provider. */
  type Slot = (string, string)

  /** A stored value and its expiry; `value` is None for text that is not a key id. */
  datatype Mapping = Mapping(value: Option<KeyId>, deadline: nat)

  datatype Counter = Counter(count: nat, deadline: nat)

  datatype Cache = Cache(mappings: map<Slot, Mapping>, counters: map<Slot, Counter>)

  function Lookup(c: Cache, slot: Slot, clock: nat): Option<KeyId> {
    if slot in c.mappings && clock < c.mappings[slot].deadline then c.mappings[slot].value else None
  }

  function CountAt(c: Cache, slot: Slot, clock: nat): nat {
    if slot in c.counters && clock < c.counters[slot].deadline then c.counters[slot].count else 0
  }

  function Stored(c: Cache, slot: Slot, id: KeyId, ttl: nat, clock: nat): Cache {
    c.(mappings := c.mappings[slot := Mapping(Some(id), clock + ttl)])
  }

  function Drawn(c: Cache, slot: Slot, keyCount: nat, ttl: nat, clock: nat): (Cache, nat) {
    if keyCount == 0 then (c, 0)
    else
      var count := CountAt(c, slot, clock) + 1;
      var deadline := if count == 1 || slot !in c.counters then clock + ttl else c.counters[slot].deadline;
      (c.(counters := c.counters[slot := Counter(count, deadline)]), (count - 1) % keyCount)
  }

  function Resolved(c: Cache, slot: Slot, p: Provider, freshId: KeyId, ttl: nat, clock: nat): (Cache, KeyId) {
    var cached := Lookup(c, slot, clock);
    if cached.Some? && FindKeyIndex(p.keys, cached.value).Some? then (c, cached.value)
    else
      var (c', index) := Drawn(c, slot, |p.keys|, ttl, clock);
      var id := if index < |p.keys| then p.keys[index].id else freshId;
      (Stored(c', slot, id, ttl, clock), id)
  }

  class StickyTargetKeyCache {
    const ttl: nat
    var mappings: map<Slot, Mapping>
    var counters: map<Slot, Counter>

    function View(): Cache
      reads this
    {
      Cache(mappings, counters)
    }

    constructor (ttl: nat)
      ensures this.ttl == ttl && View() == Cache(map[], map[])
    {
      this.ttl := ttl;
      mappings, counters := map[], map[];
    }

    /** INCR, with an expiry only when the counter is new. */
    method NextKeyIndex(slot: Slot, keyCount: nat, clock: nat) returns (index: nat)
      modifies this`counters
      ensures (View(), index) == Drawn(old(View()), slot, keyCount, ttl, clock)
    {
      if keyCount == 0 {
        return 0;
      }
      var count := CountAt(View(), slot, clock) + 1;
      var deadline := if count == 1 then clock + ttl else counters[slot].deadline;
      counters := counters[slot := Counter(count, deadline)];
      index := (count - 1) % keyCount;
    }

    method Get(slot: Slot, clock: nat) returns (id: Option<KeyId>)
      ensures id == Lookup(View(), slot, clock)
    {
      id := Lookup(View(), slot, clock);
    }

    method Set(slot: Slot, id: KeyId, clock: nat)
      modifies this`mappings
      ensures View() == Stored(old(View()), slot, id, ttl, clock)
    {
      mappings := mappings[slot := Mapping(Some(id), clock + ttl)];
    }

    method Invalidate(slot: Slot)
      modifies this`mappings
      ensures View() == Cache(old(mappings) - {slot}, counters)
    {
      mappings := mappings - {slot};
    }

    /** `freshId` is the random id made up for a provider without keys. */
    method ResolveStickyTargetKey(slot: Slot, p: Provider, freshId: KeyId, clock: nat) returns (id: KeyId)
      modifies this
      ensures (View(), id) == Resolved(old(View()), slot, p, freshId, ttl, clock)
    {
      var cached := Get(slot, clock);
      if cached.Some? {
        if FindKeyIndex(p.keys, cached.value).Some? {
          return cached.value;
        }
        Invalidate(slot);
      }
      var index := NextKeyIndex(slot, |p.keys|, clock);
      id := if index < |p.keys| then p.keys[index].id else freshId;
      Set(slot, id, clock);
      assert (old(mappings) - {slot})[slot := Mapping(Some(id), clock + ttl)]
          == old(mappings)[slot := Mapping(Some(id), clock + ttl)];
    }
  }

  predicate HasKey(p: Provider, id: KeyId) {
    exists i :: 0 <= i < |p.keys| && p.keys[i].id == id
  }

  /** A live mapping to a key of the provider is the answer; otherwise it is the key at the counter's place in cyclic
      order, which is stored for the whole time to live, and the counter goes up by one. */
  lemma {:induction false} ResolvesTo(c: Cache, slot: Slot, p: Provider, freshId: KeyId, ttl: nat, clock: nat)
    requires p.keys != []
    ensures var (c', id) := Resolved(c, slot, p, freshId, ttl, clock);
            if Lookup(c, slot, clock).Some? && HasKey(p, Lookup(c, slot, clock).value) then
              id == Lookup(c, slot, clock).value && c' == c
            else
              var count := CountAt(c, slot, clock);
              && id == p.keys[count % |p.keys|].id
              && c'.mappings == c.mappings[slot := Mapping(Some(id), clock + ttl)]
              && slot in c'.counters && c'.counters[slot].count == count + 1
              && (count > 0 ==> c'.counters[slot].deadline == c.counters[slot].deadline)
              && (count == 0 ==> c'.counters[slot].deadline == clock + ttl)
              && c'.counters - {slot} == c.counters - {slot}
  {
    assert Lookup(c, slot, clock).Some? ==>
        (HasKey(p, Lookup(c, slot, clock).value) <==> FindKeyIndex(p.keys, Lookup(c, slot, clock).value).Some?);
    assert CountAt(c, slot, clock) % |p.keys| < |p.keys|;
  }

  /** Whatever the cache holds, a provider with a key resolves to a key it has, and the answer is remembered:
      asking again before the mapping expires gives the same key. */
  lemma {:induction false} ResolvesToCurrentKey(c: Cache, slot: Slot, p: Provider, freshId: KeyId, ttl: nat,
                                                clock: nat, later: nat)
    requires p.keys != []
    ensures var (c', id) := Resolved(c, slot, p, freshId, ttl, clock);
            && HasKey(p, id)
            && (Lookup(c', slot, later) == Some(id) ==>
                  forall freshId', ttl' :: Resolved(c', slot, p, freshId', ttl', later) == (c', id))
            && (Lookup(c, slot, clock) != Some(id) && clock <= later < clock + ttl ==>
                  Lookup(c', slot, later) == Some(id))
  {
    var (c', index) := Drawn(c, slot, |p.keys|, ttl, clock);
    assert index < |p.keys|;
    assert HasKey(p, p.keys[index].id);
    var (c2, id) := Resolved(c, slot, p, freshId, ttl, clock);
    var found := FindKeyIndex(p.keys, id);
    assert found.Some?;
  }

  /** After a success through key `k`, requests resolve to `k` while the mapping lives and the provider has `k`;
      other slots are not affected. */
  lemma {:induction false} StickyAfterSuccess(c: Cache, slot: Slot, k: KeyId, ttl: nat, clock: nat,
                           p: Provider, freshId: KeyId, later: nat, other: Slot)
    requires HasKey(p, k) && later < clock + ttl
    ensures Resolved(Stored(c, slot, k, ttl, clock), slot, p, freshId, ttl, later)
         == (Stored(c, slot, k, ttl, clock), k)
    ensures other != slot ==> Lookup(Stored(c, slot, k, ttl, clock), other, later) == Lookup(c, other, later)
  {
    assert FindKeyIndex(p.keys, k).Some?;
  }

  /** A mapping is forgotten when its time to live is over, and so is a counter, which then starts again at the first
      key. */
  lemma {:induction false} Forgets(c: Cache, slot: Slot, id: KeyId, keyCount: nat, ttl: nat, clock: nat, later: nat)
    requires keyCount > 0
    ensures Lookup(Stored(c, slot, id, ttl, clock), slot, later) == if later < clock + ttl then Some(id) else None
    ensures CountAt(c, slot, clock) == 0 && later >= clock + ttl ==>
              Drawn(Drawn(c, slot, keyCount, ttl, clock).0, slot, keyCount, ttl, later).1 == 0
    ensures slot in c.counters && later >= c.counters[slot].deadline ==>
              Drawn(c, slot, keyCount, ttl, later).1 == 0
  {
  }

  /** From `start` on, for the whole time to live, the cache holds key `k` for the slot. */
  ghost predicate Remembers(c: Cache, slot: Slot, k: KeyId, start: nat, ttl: nat) {
    forall clock :: start <= clock < start + ttl ==> Lookup(c, slot, clock) == Some(k)
  }

  /** For that time requests resolve to `k` as long as the provider has it. */
  lemma {:induction false} RememberedResolves(c: Cache, slot: Slot, k: KeyId, start: nat, ttl: nat,
                                              p: Provider, freshId: KeyId, later: nat)
    requires Remembers(c, slot, k, start, ttl) && start <= later < start + ttl && HasKey(p, k)
    ensures Resolved(c, slot, p, freshId, ttl, later) == (c, k)
  {
    assert FindKeyIndex(p.keys, k).Some?;
  }

  // ----- Round robin -----

  /** The indices of `n` draws at the given times. */
  function Draws(c: Cache, slot: Slot, keyCount: nat, ttl: nat, clock: nat -> nat, n: nat): (Cache, seq<nat>) {
    if n == 0 then (c, [])
    else
      var (before, indices) := Draws(c, slot, keyCount, ttl, clock, n - 1);
      var (after, index) := Drawn(before, slot, keyCount, ttl, clock(n - 1));
      (after, indices + [index])
  }

  /** When the counter of a slot expires: a draw on a missing or expired counter starts a new one. */
  function Lifetime(c: Cache, slot: Slot, ttl: nat, clock: nat): nat {
    if CountAt(c, slot, clock) == 0 then clock + ttl else c.counters[slot].deadline
  }

  lemma DrawStep(c: Cache, slot: Slot, keyCount: nat, ttl: nat, clock: nat)
    requires keyCount > 0
    ensures var (c', index) := Drawn(c, slot, keyCount, ttl, clock);
            && index == CountAt(c, slot, clock) % keyCount
            && c'.counters == c.counters[slot := Counter(CountAt(c, slot, clock) + 1, Lifetime(c, slot, ttl, clock))]
  {
  }

  /** Draws within the lifetime of the counter count up from where it stands, or from 0 if the first draw creates it. */
  lemma {:induction false} DrawsCountUp(c: Cache, slot: Slot, keyCount: nat, ttl: nat, clock: nat -> nat, n: nat)
    requires keyCount > 0 && n >= 1
    requires forall i :: 0 <= i < n ==> clock(i) < Lifetime(c, slot, ttl, clock(0))
    ensures var (c', indices) := Draws(c, slot, keyCount, ttl, clock, n);
            var count := CountAt(c, slot, clock(0));
            && |indices| == n
            && c'.counters == c.counters[slot := Counter(count + n, Lifetime(c, slot, ttl, clock(0)))]
            && forall i :: 0 <= i < n ==> indices[i] == (count + i) % keyCount
  {
    hide Drawn;
    DrawStep(Draws(c, slot, keyCount, ttl, clock, n - 1).0, slot, keyCount, ttl, clock(n - 1));
    if n == 1 {
      assert Draws(c, slot, keyCount, ttl, clock, 0) == (c, []);
    } else {
      DrawsCountUp(c, slot, keyCount, ttl, clock, n - 1);
    }
  }

  /** The draw among the next `n` that yields `index`. */
  lemma Representative(count: nat, n: nat, index: nat) returns (i: nat)
    requires index < n
    ensures i < n && (count + i) % n == index
  {
    var r := count % n;
    DivMod(count, n);
    if index >= r {
      i := index - r;
      Quotient(count / n, n, index, count + i);
    } else {
      i := index + n - r;
      assert n * (count / n + 1) == n * (count / n) + n;
      Quotient(count / n + 1, n, index, count + i);
    }
  }

  /** As many consecutive draws within the lifetime of a counter as there are keys yield every index exactly once,
      whether the counter was there before or the first of them creates it. */
  lemma RoundRobinCovers(c: Cache, slot: Slot, keyCount: nat, ttl: nat, clock: nat -> nat)
    requires keyCount > 0
    requires forall i :: 0 <= i < keyCount ==> clock(i) < Lifetime(c, slot, ttl, clock(0))
    ensures var indices := Draws(c, slot, keyCount, ttl, clock, keyCount).1;
            && |indices| == keyCount
            && (forall i, j :: 0 <= i < j < keyCount ==> indices[i] != indices[j])
            && (forall index :: 0 <= index < keyCount ==> index in indices)
  {
    DrawsCountUp(c, slot, keyCount, ttl, clock, keyCount);
    var count, indices := CountAt(c, slot, clock(0)), Draws(c, slot, keyCount, ttl, clock, keyCount).1;
    forall i, j | 0 <= i < j < keyCount ensures indices[i] != indices[j] {
      if indices[i] == indices[j] { Congruent(count + i, count + j, keyCount); }
    }
    forall index | 0 <= index < keyCount ensures index in indices {
      var i := Representative(count, keyCount, index);
      assert indices[i] == index;
    }
  }
}
