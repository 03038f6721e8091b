/** `ck_rhs_grow` and `ck_rhs_get` of src/ck_rhs.c, on descriptor arrays that are updated in place. */
module RobinHoodMap {
  import opened Prelude
  import opened RobinHood
  import opened Growth
  import HashSetRoom

  const WORD_MAX := 255

  /** A map as a value: what each slot holds, at which position of its sequence that is, and how far a
    search has to go. In read-mostly mode there are no bounds for the single homes. */
  datatype Table = Table(L: nat, slots: seq<Option<Object>>, probes: seq<nat>, bounds: Option<seq<nat>>, maximum: nat, limit: nat)

  ghost predicate Form(v: Table) {
    && v.L > 0 && |v.slots| > 0 && |v.slots| % v.L == 0 && |v.probes| == |v.slots|
    && (v.bounds.Some? ==> |v.bounds.value| == |v.slots|)
    && forall s | 0 <= s < |v.slots| :: v.probes[s] <= v.limit
  }

  ghost function At(v: Table, h: nat, p: nat): Option<Object>
    requires Form(v) && p > 0
  {
    Reaches(v, h, p);
    v.slots[SlotAt(|v.slots|, v.L, h, p)]
  }

  lemma Reaches(v: Table, h: nat, p: nat)
    requires Form(v) && p > 0
    ensures SlotAt(|v.slots|, v.L, h, p) < |v.slots|
  {
    var M := |v.slots| / v.L;
    assert v.L * M == |v.slots|;
    MulSign(M, v.L);
    InRange(M, v.L, h, p);
  }

  ghost predicate NoEmptyBefore(v: Table, h: nat, p: nat)
    requires Form(v)
  {
    forall q: nat | 0 < q < p :: At(v, h, q).Some?
  }

  /** `ck_rhs_map_bound_get`. */
  ghost function Bound(v: Table, h: nat): nat
    requires Form(v)
  {
    if v.bounds.Some? && v.bounds.value[h % |v.slots|] != WORD_MAX then v.bounds.value[h % |v.slots|] else v.maximum
  }

  /** The entry in slot s is where its `probes` say, within its bound, and no empty slot comes before. */
  ghost predicate Sits(v: Table, hf: int -> nat, s: nat)
    requires Form(v) && s < |v.slots|
  {
    v.slots[s].Some? ==>
      var h, p := hf(v.slots[s].value.key), v.probes[s];
      p > 0 && SlotAt(|v.slots|, v.L, h, p) == s && NoEmptyBefore(v, h, p) && p <= Bound(v, h)
  }

  ghost predicate Ok(v: Table, hf: int -> nat) {
    Form(v) && forall s: nat | s < |v.slots| :: Sits(v, hf, s)
  }

  ghost function ProbesAt(v: Table, h: nat, p: nat): nat
    requires Form(v) && p > 0
  {
    Reaches(v, h, p);
    v.probes[SlotAt(|v.slots|, v.L, h, p)]
  }

  /** No entry that comes before position p under h was nearer to its home than that search was. */
  ghost predicate FairBefore(v: Table, h: nat, p: nat)
    requires Form(v)
  {
    forall q: nat | 0 < q < p :: q <= ProbesAt(v, h, q)
  }

  ghost predicate FairSlot(v: Table, hf: int -> nat, s: nat)
    requires Form(v) && s < |v.slots|
  {
    if v.slots[s].None? then v.probes[s] == 0 else FairBefore(v, hf(v.slots[s].value.key), v.probes[s])
  }

  /** Robin-hood order: an entry has gone past others only if they were no nearer to their homes. */
  ghost predicate Fair(v: Table, hf: int -> nat) {
    Form(v) && forall s: nat | s < |v.slots| :: FairSlot(v, hf, s)
  }

  /** The entries, with their number. */
  ghost function Contents(slots: seq<Option<Object>>): multiset<Option<Object>> {
    multiset(slots)[None := 0]
  }

  /** No two entries have the same key. */
  ghost predicate OnePerKey(c: multiset<Option<Object>>) {
    forall a, b | a in c && b in c && a.Some? && b.Some? && a.value.key == b.value.key :: a == b
  }

  /** The entry of the key, or that there is none. */
  ghost predicate Answers(c: multiset<Option<Object>>, key: int, found: Option<Object>) {
    && (found.Some? ==> found in c && found.value.key == key)
    && (found.None? ==> forall x | x in c && x.Some? :: x.value.key != key)
  }

  // ---------------------------------------------------------------- stores

  /** `ck_rhs_map_bound_set`. */
  ghost function BoundSet(v: Table, h: nat, n: nat): Table
    requires Form(v)
  {
    var i := h % |v.slots|;
    v.(maximum := if n > v.maximum then n else v.maximum,
       bounds := if v.bounds.Some? && v.bounds.value[i] < n
                 then Some(v.bounds.value[i := if n > WORD_MAX then WORD_MAX else n]) else v.bounds)
  }

  /** Entry o comes to slot s, which is at position p of its sequence. */
  ghost function Put(v: Table, hf: int -> nat, s: nat, o: Object, p: nat): Table
    requires Form(v) && s < |v.slots|
  {
    BoundSet(v, hf(o.key), p).(slots := v.slots[s := Some(o)], probes := v.probes[s := p])
  }

  ghost predicate Bounded(v: Table) {
    v.bounds.Some? ==> forall i | 0 <= i < |v.bounds.value| :: v.bounds.value[i] <= WORD_MAX && v.bounds.value[i] <= v.maximum
  }

  lemma BoundsRise(v: Table, h: nat, n: nat)
    requires Form(v) && Bounded(v)
    ensures Form(BoundSet(v, h, n)) && Bounded(BoundSet(v, h, n))
    ensures Bound(BoundSet(v, h, n), h) >= n
    ensures forall g: nat :: Bound(BoundSet(v, h, n), g) >= Bound(v, g)
  {
    forall g: nat ensures Bound(BoundSet(v, h, n), g) >= Bound(v, g) { assert g % |v.slots| < |v.slots|; }
    assert h % |v.slots| < |v.slots|;
  }

  lemma PutFills(v: Table, hf: int -> nat, s: nat, o: Object, p: nat, h: nat, q: nat)
    requires Form(v) && s < |v.slots| && p <= v.limit && NoEmptyBefore(v, h, q)
    ensures Form(Put(v, hf, s, o, p)) && NoEmptyBefore(Put(v, hf, s, o, p), h, q)
  {
    var v' := Put(v, hf, s, o, p);
    forall r: nat | 0 < r < q ensures At(v', h, r).Some? {
      Reaches(v, h, r);
      assert At(v, h, r).Some?;
    }
  }

  lemma PutSits(v: Table, hf: int -> nat, s: nat, o: Object, p: nat, x: nat)
    requires Ok(v, hf) && Bounded(v) && s < |v.slots| && 0 < p <= v.limit && x < |v.slots|
    requires s == SlotAt(|v.slots|, v.L, hf(o.key), p) && NoEmptyBefore(v, hf(o.key), p)
    ensures Form(Put(v, hf, s, o, p)) && Sits(Put(v, hf, s, o, p), hf, x)
  {
    var v' := Put(v, hf, s, o, p);
    BoundsRise(v, hf(o.key), p);
    assert forall g: nat :: Bound(v', g) == Bound(BoundSet(v, hf(o.key), p), g);
    if x == s {
      PutFills(v, hf, s, o, p, hf(o.key), p);
    } else if v.slots[x].Some? {
      assert Sits(v, hf, x);
      PutFills(v, hf, s, o, p, hf(v.slots[x].value.key), v.probes[x]);
    }
  }

  /** A store to an empty slot, or in place of another entry, leaves all the others where they belong. */
  lemma PutOk(v: Table, hf: int -> nat, s: nat, o: Object, p: nat)
    requires Ok(v, hf) && Bounded(v) && s < |v.slots| && 0 < p <= v.limit
    requires s == SlotAt(|v.slots|, v.L, hf(o.key), p) && NoEmptyBefore(v, hf(o.key), p)
    ensures Ok(Put(v, hf, s, o, p), hf) && Bounded(Put(v, hf, s, o, p))
  {
    BoundsRise(v, hf(o.key), p);
    forall x: nat | x < |v.slots| ensures Sits(Put(v, hf, s, o, p), hf, x) { PutSits(v, hf, s, o, p, x); }
  }

  lemma PutFairBefore(v: Table, hf: int -> nat, s: nat, o: Object, p: nat, h: nat, q: nat)
    requires Form(v) && s < |v.slots| && v.probes[s] <= p <= v.limit && FairBefore(v, h, q)
    ensures Form(Put(v, hf, s, o, p)) && FairBefore(Put(v, hf, s, o, p), h, q)
  {
    var v' := Put(v, hf, s, o, p);
    forall r: nat | 0 < r < q ensures r <= ProbesAt(v', h, r) {
      Reaches(v, h, r);
      assert r <= ProbesAt(v, h, r);
    }
  }

  lemma PutFair(v: Table, hf: int -> nat, s: nat, o: Object, p: nat)
    requires Fair(v, hf) && s < |v.slots| && v.probes[s] <= p <= v.limit && FairBefore(v, hf(o.key), p)
    ensures Fair(Put(v, hf, s, o, p), hf)
  {
    var v' := Put(v, hf, s, o, p);
    forall x: nat | x < |v.slots| ensures Form(v') && FairSlot(v', hf, x) {
      assert FairSlot(v, hf, x);
      if x == s {
        PutFairBefore(v, hf, s, o, p, hf(o.key), p);
      } else if v.slots[x].Some? {
        PutFairBefore(v, hf, s, o, p, hf(v.slots[x].value.key), v.probes[x]);
      }
    }
  }

  lemma PutContents(slots: seq<Option<Object>>, s: nat, o: Object)
    requires s < |slots|
    ensures Contents(slots[s := Some(o)]) + (if slots[s].Some? then multiset{slots[s]} else multiset{})
         == Contents(slots) + multiset{Some(o)}
  {
    assert slots == slots[..s] + [slots[s]] + slots[s + 1..];
    assert slots[s := Some(o)] == slots[..s] + [Some(o)] + slots[s + 1..];
    assert multiset(slots) == multiset(slots[..s]) + multiset{slots[s]} + multiset(slots[s + 1..]);
    assert multiset(slots[s := Some(o)]) == multiset(slots[..s]) + multiset{Some(o)} + multiset(slots[s + 1..]);
  }

  /** How much the positions in use could still grow: what makes displacing come to an end. */
  ghost function Slack(probes: seq<nat>, limit: nat): (r: nat)
    requires forall i | 0 <= i < |probes| :: probes[i] <= limit
  {
    if probes == [] then 0 else limit - probes[0] + Slack(probes[1..], limit)
  }

  lemma {:induction false} SlackFalls(probes: seq<nat>, limit: nat, s: nat, p: nat)
    requires forall i | 0 <= i < |probes| :: probes[i] <= limit
    requires s < |probes| && probes[s] < p <= limit
    ensures Slack(probes[s := p], limit) < Slack(probes, limit)
  {
    if s == 0 {
      assert probes[0 := p][1..] == probes[1..];
    } else {
      assert probes[s := p][1..] == probes[1..][s - 1 := p];
      SlackFalls(probes[1..], limit, s - 1, p);
    }
  }

  /** Entry `hand` is on its way: the search has seen p full slots of its sequence, and is at `offset`. */
  ghost predicate InHand(v: Table, hf: int -> nat, hand: Object, h: nat, offset: nat, p: nat, all: multiset<Option<Object>>) {
    && Ok(v, hf) && Bounded(v) && h == hf(hand.key) && p <= v.limit && NoEmptyBefore(v, h, p + 1)
    && offset == SlotAt(|v.slots|, v.L, h, p + 1)
    && Fair(v, hf) && FairBefore(v, h, p + 1)
    && Contents(v.slots) + multiset{Some(hand)} == all
  }

  lemma Settles(v: Table, hf: int -> nat, hand: Object, h: nat, offset: nat, p: nat, all: multiset<Option<Object>>)
    requires 0 < p <= v.limit && InHand(v, hf, hand, h, offset, p - 1, all)
    requires offset < |v.slots| && v.slots[offset] == None
    ensures var v' := Put(v, hf, offset, hand, p); Ok(v', hf) && Fair(v', hf) && Bounded(v') && Contents(v'.slots) == all
  {
    assert FairSlot(v, hf, offset);
    PutFair(v, hf, offset, hand, p);
    PutOk(v, hf, offset, hand, p);
    PutContents(v.slots, offset, hand);
  }

  /** The displaced entry goes on from its slot, and the positions in use have grown. */
  lemma Displaces(v: Table, hf: int -> nat, hand: Object, h: nat, offset: nat, p: nat, all: multiset<Option<Object>>)
    requires 0 < p <= v.limit && InHand(v, hf, hand, h, offset, p - 1, all)
    requires offset < |v.slots| && v.slots[offset].Some? && v.probes[offset] < p
    ensures var v', o := Put(v, hf, offset, hand, p), v.slots[offset].value;
            && v.probes[offset] > 0 && InHand(v', hf, o, hf(o.key), offset, v.probes[offset] - 1, all)
            && Slack(v'.probes, v.limit) < Slack(v.probes, v.limit)
  {
    var o := v.slots[offset].value;
    assert Sits(v, hf, offset) && FairSlot(v, hf, offset);
    PutOk(v, hf, offset, hand, p);
    PutFair(v, hf, offset, hand, p);
    PutFairBefore(v, hf, offset, hand, p, hf(o.key), v.probes[offset]);
    PutContents(v.slots, offset, hand);
    SlackFalls(v.probes, v.limit, offset, p);
    PutFills(v, hf, offset, hand, p, hf(o.key), v.probes[offset]);
  }

  lemma PassesBy(v: Table, hf: int -> nat, hand: Object, h: nat, offset: nat, p: nat, all: multiset<Option<Object>>)
    requires 0 < p <= v.limit && InHand(v, hf, hand, h, offset, p - 1, all)
    requires offset < |v.slots| && v.slots[offset].Some? && v.probes[offset] >= p
    ensures InHand(v, hf, hand, h, Next(|v.slots|, v.L, offset, p), p, all)
  {
    assert At(v, h, p) == v.slots[offset] && ProbesAt(v, h, p) == v.probes[offset];
  }

  // ---------------------------------------------------------------- room

  /** So many entries fit into an empty map, whatever their hashes: the probe limit lets a search see as
    many different slots. */
  predicate Roomy(cap: nat, n: nat) {
    n <= cap && n <= HashSetRoom.Limit(cap)
  }

  lemma Emptied(slots: seq<Option<Object>>, x: nat)
    requires x < |slots| && slots[x].Some?
    ensures Contents(slots[x := None]) == Contents(slots) - multiset{slots[x]} && slots[x] in Contents(slots)
  {
    assert slots == slots[..x] + [slots[x]] + slots[x + 1..];
    assert slots[x := None] == slots[..x] + [None] + slots[x + 1..];
    assert multiset(slots) == multiset(slots[..x]) + multiset{slots[x]} + multiset(slots[x + 1..]);
    assert multiset(slots[x := None]) == multiset(slots[..x]) + multiset{None} + multiset(slots[x + 1..]);
  }

  /** There are as many entries as slots in use. */
  lemma {:induction false} InUse(slots: seq<Option<Object>>, s: seq<nat>)
    requires forall i | 0 <= i < |s| :: s[i] < |slots| && slots[s[i]].Some?
    requires forall i, j | 0 <= i < j < |s| :: s[i] != s[j]
    ensures |Contents(slots)| >= |s|
    decreases |s|
  {
    if s != [] {
      var x := s[|s| - 1];
      Emptied(slots, x);
      InUse(slots[x := None], s[..|s| - 1]);
    }
  }

  lemma AtMostSlots(slots: seq<Option<Object>>)
    ensures |Contents(slots)| <= |slots|
  {
    assert Contents(slots) <= multiset(slots);
    assert multiset(slots) == Contents(slots) + multiset{}[None := multiset(slots)[None]];
  }

  /** A search that has met no empty slot up to the limit has met more entries than there is room for. */
  lemma Crowded(v: Table, m: nat, h: nat, n: nat)
    requires Form(v) && |v.slots| == v.L * Pow2(m) && v.limit == HashSetRoom.Limit(|v.slots|)
    requires NoEmptyBefore(v, h, v.limit + 1) && Roomy(|v.slots|, n)
    ensures |Contents(v.slots)| >= n
  {
    forall p: nat | 0 < p <= n ensures SlotAt(|v.slots|, v.L, h, p) < |v.slots| { Reaches(v, h, p); }
    var s := seq(n, (i: nat) => SlotAt(|v.slots|, v.L, h, i + 1));
    forall i | 0 <= i < n ensures s[i] < |v.slots| && v.slots[s[i]].Some? { assert At(v, h, i + 1).Some?; }
    forall i, j | 0 <= i < j < n ensures s[i] != s[j] { RobinHood.SlotsDiffer(m, v.L, h, i + 1, j + 1); }
    InUse(v.slots, s);
  }

  lemma NoPlace(v: Table, hf: int -> nat, hand: Object, h: nat, offset: nat, all: multiset<Option<Object>>, m: nat)
    requires InHand(v, hf, hand, h, offset, v.limit, all)
    requires |v.slots| == v.L * Pow2(m) && v.limit == HashSetRoom.Limit(|v.slots|)
    ensures !Roomy(|v.slots|, |all|)
  {
    if Roomy(|v.slots|, |all|) { Crowded(v, m, h, |all|); }
  }

  lemma NothingStored(v: Table, hf: int -> nat)
    requires Form(v) && (forall s | 0 <= s < |v.slots| :: v.slots[s] == None && v.probes[s] == 0)
    requires v.bounds.Some? ==> forall s | 0 <= s < |v.slots| :: v.bounds.value[s] == 0
    ensures Ok(v, hf) && Bounded(v) && Fair(v, hf) && Contents(v.slots) == multiset{}
  {
    NoContents(v.slots);
  }

  // ---------------------------------------------------------------- the map

  /** The capacity is a power of two of whole lines, of eight or of four slots: the probe sequence of
    every home visits all slots. */
  lemma LinesArePower(n: nat, readMostly: bool) returns (L: nat, m: nat)
    ensures L == (if readMostly then 8 else 4) && Capacity(n) == L * Pow2(m) <= MOST && Capacity(n) % L == 0
  {
    var k := CapacityIsPower(n);
    L, m := if readMostly then 8 else 4, if readMostly then k - 3 else k - 2;
    Words();
    assert Pow2(2) == 4;
    PowAdd(3, k - 3);
    PowAdd(2, k - 2);
    ModUnique(Capacity(n), L, Pow2(m), 0);
  }

  /** `struct ck_rhs_map`, without the counters of wanted slots and the generations. */
  class Map {
    const L: nat
    const entries: array<Option<Object>>
    const probes: array<nat>
    const bound: array?<nat>
    const limit: nat
    ghost const power: nat
    var maximum: nat
    var count: nat

    ghost function View(): Table
      reads this, entries, probes, bound
    {
      Table(L, entries[..], probes[..], if bound == null then None else Some(bound[..]), maximum, limit)
    }

    ghost predicate Valid(hf: int -> nat)
      reads this, entries, probes, bound
    {
      && Ok(View(), hf) && Bounded(View()) && probes != bound
      && count == |Contents(entries[..])|
    }

    /** A power of two of lines, and at most 2^31 slots. */
    ghost predicate Laid() {
      && 0 < L && entries.Length == L * Pow2(power) <= MOST
      && limit == HashSetRoom.Limit(entries.Length)
    }

    /** `ck_rhs_map_create`. */
    constructor (n: nat, readMostly: bool, ghost hf: int -> nat)
      ensures fresh(entries) && fresh(probes) && (bound != null ==> fresh(bound)) && (bound == null <==> readMostly)
      ensures entries.Length == Capacity(n) && count == 0 && Contents(entries[..]) == multiset{}
      ensures Laid() && Valid(hf) && Fair(View(), hf)
    {
      var cap := CapacityOf(n);
      ghost var l, m := LinesArePower(n, readMostly);
      power := m;
      L := if readMostly then 8 else 4;
      entries := new Option<Object>[cap](_ => None);
      probes := new nat[cap](_ => 0);
      if readMostly { bound := null; } else { bound := new nat[cap](_ => 0); }
      limit := if cap / 32 > 64 then cap / 32 else 64;
      maximum, count := 0, 0;
      new;
      NothingStored(View(), hf);
    }

    /** The bound that a get computes from. */
    method BoundGet(h: nat) returns (r: nat)
      requires Form(View())
      ensures r == Bound(View(), h)
    {
      r := WORD_MAX;
      if bound == null {
        r := maximum;
      } else {
        r := bound[h % entries.Length];
        if r == WORD_MAX { r := maximum; }
      }
    }

    /** The stores that put an entry into a slot. */
    method Store(hf: int -> nat, s: nat, o: Object, p: nat)
      requires Form(View()) && s < entries.Length && probes != bound
      modifies this`maximum, entries, probes, bound
      ensures View() == Put(old(View()), hf, s, o, p)
    {
      ghost var v := View();
      entries[s] := Some(o);
      probes[s] := p;
      assert bound != null ==> bound[..] == old(bound[..]);
      var home := hf(o.key) % entries.Length;
      if p > maximum { maximum := p; }
      if bound != null && bound[home] < p {
        bound[home] := if p > WORD_MAX then WORD_MAX else p;
      }
      assert probes[..] == old(probes[..])[s := p] && entries[..] == old(entries[..])[s := Some(o)];
    }

    /** What the inner loop of `ck_rhs_grow` does at a slot that is in use: the entry in hand displaces
      one that is nearer to its home, or goes by. */
    method Contend(hf: int -> nat, hand: Object, h: nat, offset: nat, p: nat, ghost all: multiset<Option<Object>>)
      returns (hand': Object, h': nat, offset': nat, p': nat)
      requires 0 < p <= limit && probes != bound && InHand(View(), hf, hand, h, offset, p - 1, all)
      requires offset < entries.Length && entries[offset].Some?
      modifies this`maximum, entries, probes, bound
      ensures InHand(View(), hf, hand', h', offset', p', all)
      ensures Slack(probes[..], limit) < old(Slack(probes[..], limit)) || (probes[..] == old(probes[..]) && p' == p)
    {
      ghost var v := View();
      if probes[offset] < p {
        Displaces(v, hf, hand, h, offset, p, all);
        var previous, oldProbes := entries[offset].value, probes[offset];
        Store(hf, offset, hand, p);
        hand', h', offset', p' := previous, hf(previous.key), offset, oldProbes - 1;
      } else {
        PassesBy(v, hf, hand, h, offset, p, all);
        hand', h', offset', p' := hand, h, Next(entries.Length, L, offset, p), p;
      }
    }

    /** The entry in hand takes an empty slot. */
    method Settle(hf: int -> nat, hand: Object, h: nat, offset: nat, p: nat, ghost all: multiset<Option<Object>>)
      requires 0 < p <= limit && probes != bound && InHand(View(), hf, hand, h, offset, p - 1, all)
      requires offset < entries.Length && entries[offset] == None && count + 1 == |all|
      modifies this`maximum, this`count, entries, probes, bound
      ensures Valid(hf) && Fair(View(), hf) && Contents(entries[..]) == all
    {
      Settles(View(), hf, hand, h, offset, p, all);
      Store(hf, offset, hand, p);
      count := count + 1;
    }

    /** The inner loop of `ck_rhs_grow`: an entry takes the first slot of its sequence that is empty or
      whose entry is nearer to its home; an entry that is so displaced goes on from there. */
    method Insert(hf: int -> nat, val: Object) returns (fits: bool)
      requires Valid(hf) && Laid() && Fair(View(), hf)
      modifies this`maximum, this`count, entries, probes, bound
      ensures fits ==> Valid(hf) && Fair(View(), hf) && Contents(entries[..]) == old(Contents(entries[..])) + multiset{Some(val)}
      ensures !fits ==> !Roomy(entries.Length, old(count) + 1)
    {
      ghost var all := Contents(entries[..]) + multiset{Some(val)};
      var hand := val;
      var h: nat := hf(hand.key);
      var offset: nat, p: nat := h % entries.Length, 0;
      while true
        invariant InHand(View(), hf, hand, h, offset, p, all) && count == old(count) && |all| == count + 1
        decreases Slack(probes[..], limit), limit - p
      {
        ghost var v := View();
        Reaches(v, h, p + 1);
        p := p + 1;
        if p - 1 == limit {
          NoPlace(v, hf, hand, h, offset, all, power);
          return false;
        }
        if entries[offset] == None {
          Settle(hf, hand, h, offset, p, all);
          return true;
        }
        hand, h, offset, p := Contend(hf, hand, h, offset, p, all);
      }
    }

    /** The search of `ck_rhs_get`, without concurrent writers. */
    method Get(hf: int -> nat, h: nat, key: int) returns (found: Option<Object>)
      requires Valid(hf) && h == hf(key)
      ensures Answers(Contents(entries[..]), key, found)
    {
      ghost var v := View();
      var limit := BoundGet(h);
      var offset: nat, p: nat := h % entries.Length, 0;
      while true
        invariant p <= limit && offset == SlotAt(entries.Length, L, h, p + 1)
        invariant forall q: nat | 0 < q <= p :: At(v, h, q).Some? && At(v, h, q).value.key != key
        decreases limit - p
      {
        Reaches(v, h, p + 1);
        p := p + 1;
        if p - 1 == limit {
          Missing(v, hf, key, p);
          return None;
        }
        var k := entries[offset];
        assert k == At(v, h, p);
        if k == None {
          Missing(v, hf, key, p);
          return None;
        }
        if k.value.key == key { return k; }
        offset := Next(entries.Length, L, offset, p);
      }
    }
  }

  /** A search that meets no match up to its bound, or up to an empty slot, has shown the key absent. */
  lemma Missing(v: Table, hf: int -> nat, key: int, p: nat)
    requires Ok(v, hf) && p > 0 && (p > Bound(v, hf(key)) || At(v, hf(key), p).None?)
    requires forall q: nat | 0 < q < p :: At(v, hf(key), q).Some? && At(v, hf(key), q).value.key != key
    ensures forall x | x in Contents(v.slots) && x.Some? :: x.value.key != key
  {
    forall x | x in Contents(v.slots) && x.Some? ensures x.value.key != key {
      assert x in v.slots;
      var s: nat :| s < |v.slots| && v.slots[s] == x;
      assert Sits(v, hf, s);
      assert x.value.key == key ==> At(v, hf(key), v.probes[s]) == x;
    }
  }

  lemma {:induction false} NoContents(slots: seq<Option<Object>>)
    requires forall i | 0 <= i < |slots| :: slots[i] == None
    ensures Contents(slots) == multiset{}
  {
    forall x: Option<Object> ensures x != None ==> multiset(slots)[x] == 0 {
      if multiset(slots)[x] > 0 { assert x in slots; }
    }
  }

  // ---------------------------------------------------------------- the set

  /** Two maps share no storage. */
  ghost predicate Apart(a: Map, b: Map) {
    && a != b && a.entries != b.entries && a.probes != b.probes && a.probes != b.bound
    && a.bound != b.probes && (a.bound != null ==> a.bound != b.bound)
  }

  /** `ck_rhs_t`; `malloc` tells which allocations succeed, by their number. */
  class Set {
    const hf: int -> nat
    const readMostly: bool
    const malloc: nat -> bool
    var table: Map
    var calls: nat

    ghost predicate Valid()
      reads this, table, table.entries, table.probes, table.bound
    {
      table.Valid(hf) && table.Laid() && (table.bound == null <==> readMostly)
    }

    ghost function Entries(): multiset<Option<Object>>
      reads this, table, table.entries
    {
      Contents(table.entries[..])
    }

    constructor (hf: int -> nat, readMostly: bool, capacity: nat, malloc: nat -> bool)
      ensures Valid() && Entries() == multiset{} && fresh(table) && table.entries.Length == Capacity(capacity)
      ensures this.hf == hf && this.readMostly == readMostly && this.malloc == malloc && calls == 0
    {
      this.hf, this.readMostly, this.malloc, calls := hf, readMostly, malloc, 0;
      table := new Map(capacity, readMostly, hf);
    }

    /** One slot of the loop of `ck_rhs_grow`. */
    method RehashOne(update: Map, k: nat) returns (fits: bool)
      requires update.Valid(hf) && update.Laid() && Fair(update.View(), hf) && Apart(update, table) && k < table.entries.Length
      requires Contents(update.entries[..]) == Contents(table.entries[..k])
      modifies update, update.entries, update.probes, update.bound
      ensures table.View() == old(table.View()) && table.count == old(table.count)
      ensures fits ==> update.Valid(hf) && Fair(update.View(), hf)
      ensures fits ==> Contents(update.entries[..]) == Contents(old(table.entries[..k + 1]))
      ensures !fits ==> !Roomy(update.entries.Length, |old(Entries())|)
    {
      ghost var t := table.View();
      var previous := table.entries[k];
      assert t.slots[..k + 1] == t.slots[..k] + [previous];
      fits := true;
      if previous.Some? {
        PartSmaller(t.slots, k + 1);
        fits := update.Insert(hf, previous.value);
      }
      assert table.View() == t;
    }

    /** The loop of `ck_rhs_grow` over the old map. */
    method Rehash(update: Map) returns (fits: bool)
      requires Valid() && update.Valid(hf) && update.Laid() && Fair(update.View(), hf) && Contents(update.entries[..]) == multiset{}
      requires Apart(update, table)
      modifies update, update.entries, update.probes, update.bound
      ensures table.View() == old(table.View()) && table.count == old(table.count)
      ensures fits ==> update.Valid(hf) && Fair(update.View(), hf) && Contents(update.entries[..]) == Entries()
      ensures !fits ==> !Roomy(update.entries.Length, table.count)
    {
      ghost var t := table.View();
      var k := 0;
      fits := true;
      while k < table.entries.Length
        invariant k <= table.entries.Length && fits && update.Valid(hf) && Fair(update.View(), hf)
        invariant table.View() == t && table.count == old(table.count)
        invariant Contents(update.entries[..]) == Contents(t.slots[..k])
      {
        fits := RehashOne(update, k);
        if !fits { return; }
        k := k + 1;
      }
      assert t.slots[..k] == t.slots;
    }

    /** One attempt of `ck_rhs_grow`. */
    method Attempt(capacity: nat) returns (memory: bool, fits: bool)
      requires Valid()
      modifies this`table, this`calls
      ensures Valid() && Entries() == old(Entries()) && table.count == old(table.count)
      ensures calls == old(calls) + 1 && memory == malloc(old(calls))
      ensures fits ==> memory && fresh(table) && Fair(table.View(), hf)
      ensures fits ==> table.entries.Length == Capacity(capacity) && table.count <= table.entries.Length
      ensures !fits ==> table == old(table)
      ensures memory && !fits ==> !Roomy(Capacity(capacity), table.count)
    {
      memory, fits := malloc(calls), false;
      calls := calls + 1;
      if memory {
        var update := new Map(capacity, readMostly, hf);
        fits := Rehash(update);
        if fits {
          AtMostSlots(update.entries[..]);
          table := update;
        }
      }
    }

    /** `ck_rhs_grow`, which makes at most 64 attempts: by then the doubled capacity is 0. */
    method Grow(capacity0: nat) returns (r: bool, ghost tries: nat)
      requires Valid() && capacity0 < WORD64
      modifies this`table, this`calls
      ensures Valid() && Entries() == old(Entries()) && table.count == old(table.count)
      ensures r ==> fresh(table) && Fair(table.View(), hf)
      ensures !r ==> table == old(table)
      ensures Grows(Roomy, old(table.entries.Length), table.count, capacity0, malloc, old(calls), tries, r, table.entries.Length, calls)
    {
      ghost var len, n := table.entries.Length, table.count;
      var capacity := capacity0;
      r, tries := false, 0;
      while table.entries.Length <= capacity
        invariant Valid() && table == old(table) && calls == old(calls) + tries && !r
        invariant Entries() == old(Entries()) && table.count == old(table.count)
        invariant capacity == Doubled(capacity0, tries) && tries <= 64
        invariant AllRestart(Roomy, len, n, capacity0, malloc, old(calls), tries)
        decreases 64 - tries
      {
        DoubledEnds(capacity0);
        var memory;
        memory, r := Attempt(capacity);
        if r || !memory { return; }
        assert Restarts(Roomy, len, n, capacity0, malloc, old(calls), tries);
        OneMore(Roomy, len, n, capacity0, malloc, old(calls), tries);
        capacity := capacity * 2 % WORD64;
        tries := tries + 1;
      }
    }
  }

  lemma PartSmaller(slots: seq<Option<Object>>, k: nat)
    requires k <= |slots|
    ensures |Contents(slots[..k])| <= |Contents(slots)|
  {
    assert slots == slots[..k] + slots[k..];
    assert Contents(slots) == Contents(slots[..k]) + Contents(slots[k..]);
  }

  /** What a get answers is determined by the entries alone; a grow, which keeps them, keeps it. */
  lemma AnswerIsUnique(c: multiset<Option<Object>>, key: int, a: Option<Object>, b: Option<Object>)
    requires OnePerKey(c) && Answers(c, key, a) && Answers(c, key, b)
    ensures a == b
  {
    if a.Some? && b.Some? { assert a in c && b in c; }
  }
}
