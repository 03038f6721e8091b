/** The open-addressing table of src/ck_hs.c as a value: the probe sequence, the probe bounds, the
  invariant, and what storing into one or two slots does to the key-to-object map.

  Objects carry a key; the hash of a key is given by `hf`, and comparing is equality of keys. */
module HashTable {
  import opened Prelude

  const LINE := 8
  const WORD_MAX := 255

  /** An `unsigned long`. */
  type Hash = h: nat | h < 0x1_0000_0000_0000_0000

  datatype Object = Object(key: int, id: int)

  datatype Slot = Empty | Tombstone | Full(obj: Object)

  /** `bounds` is absent unless the set was created for deletion. `count` and `tombs` are the
    counters that the code keeps. */
  datatype Table = Table(slots: seq<Slot>, bounds: Option<seq<nat>>, maximum: nat, limit: nat, step: nat,
                         count: int, tombs: int)

  // ---------------------------------------------------------------- probe sequence

  /** `ck_hs_map_probe_next`: `stride | CK_HS_PROBE_L1` is an addition, because bit 3 of the stride
    is clear. `level` lines have been searched before this one. */
  function NextOffset(cap: nat, step: nat, h: nat, offset: nat, level: nat): (r: nat)
    requires cap > 0
    ensures r < cap
  {
    var x := h / Pow2(step) / Pow2(level);
    var stride := (x - x % LINE) * 2 + x % LINE;
    (offset + (level + 1) + (stride + LINE)) % cap
  }

  /** Where the search of line number `level` starts. */
  function Offset(cap: nat, step: nat, h: nat, level: nat): (r: nat)
    requires cap > 0
    ensures r < cap
  {
    if level == 0 then h % cap else NextOffset(cap, step, h, Offset(cap, step, h, level - 1), level - 1)
  }

  /** The slot inside the aligned line of `offset`, `j` places on, wrapping around in the line. */
  function InLine(offset: nat, j: nat): nat {
    offset - offset % LINE + (j + offset) % LINE
  }

  /** The slot at position p of the probe sequence of h; positions count from 1. */
  function SlotAt(cap: nat, step: nat, h: nat, p: nat): (s: nat)
    requires cap > 0 && cap % LINE == 0 && p > 0
    ensures s < cap
  {
    InLine(Offset(cap, step, h, (p - 1) / LINE), (p - 1) % LINE)
  }

  // ---------------------------------------------------------------- bounds

  /** Whole lines of slots, and one bound for each slot. */
  ghost predicate Form(t: Table) {
    && |t.slots| > 0 && |t.slots| % LINE == 0
    && (t.bounds.Some? ==> |t.bounds.value| == |t.slots|)
  }

  ghost predicate Shape(t: Table) {
    && Form(t) && t.limit > 0 && t.maximum <= t.limit
    && (t.bounds.Some? ==>
          forall i | 0 <= i < |t.slots| :: t.bounds.value[i] <= WORD_MAX && t.bounds.value[i] <= t.maximum)
  }

  /** `ck_hs_map_bound_get`. */
  ghost function Bound(t: Table, h: nat): nat
    requires Shape(t)
  {
    if t.bounds.Some? && t.bounds.value[h % |t.slots|] != WORD_MAX then t.bounds.value[h % |t.slots|] else t.maximum
  }

  /** `ck_hs_map_bound_set`. */
  ghost function BoundSet(t: Table, h: nat, n: nat): Table
    requires Shape(t)
  {
    var i := h % |t.slots|;
    t.(maximum := if n > t.maximum then n else t.maximum,
       bounds := if t.bounds.Some? && t.bounds.value[i] < n
                 then Some(t.bounds.value[i := if n > WORD_MAX then WORD_MAX else n]) else t.bounds)
  }

  /** Setting a bound lowers none and covers the position it was set for. */
  lemma BoundSetCovers(t: Table, h: nat, n: nat)
    requires Shape(t) && n <= t.limit
    ensures Shape(BoundSet(t, h, n)) && Bound(BoundSet(t, h, n), h) >= n
    ensures forall g: nat :: Bound(BoundSet(t, h, n), g) >= Bound(t, g)
    ensures n <= Bound(t, h) ==> BoundSet(t, h, n) == t
  {
    var t' := BoundSet(t, h, n);
    var i := h % |t.slots|;
    forall g: nat ensures Bound(t', g) >= Bound(t, g) {
      assert g % |t.slots| < |t.slots|;
    }
    if t.bounds.Some? && t.bounds.value[i] == WORD_MAX {
      assert t.bounds.value[i := WORD_MAX] == t.bounds.value;
    }
  }

  // ---------------------------------------------------------------- invariant

  ghost function At(t: Table, h: nat, p: nat): Slot
    requires Form(t) && p > 0
  {
    t.slots[SlotAt(|t.slots|, t.step, h, p)]
  }

  ghost predicate NoEmptyBefore(t: Table, h: nat, p: nat)
    requires Form(t)
  {
    forall q: nat | 0 < q < p :: At(t, h, q) != Empty
  }

  /** Every slot that a search under h meets before position p is in use. */
  ghost predicate FullBefore(t: Table, h: nat, p: nat)
    requires Form(t)
  {
    forall q: nat | 0 < q < p :: At(t, h, q).Full?
  }

  /** A probe sequence may come back to a slot; position p is where it first meets this one. */
  ghost predicate Fresh(t: Table, h: nat, p: nat)
    requires Form(t) && p > 0
  {
    forall q: nat | 0 < q < p :: SlotAt(|t.slots|, t.step, h, q) != SlotAt(|t.slots|, t.step, h, p)
  }

  /** Key k sits at position p of its probe sequence, within its bound, with no empty slot before. */
  ghost predicate Placed(t: Table, hf: int -> Hash, k: int, p: nat)
    requires Shape(t)
  {
    && 0 < p <= Bound(t, hf(k))
    && At(t, hf(k), p).Full? && At(t, hf(k), p).obj.key == k
    && NoEmptyBefore(t, hf(k), p) && Fresh(t, hf(k), p)
  }

  /** The slot at index s, if full, is the place of its key. */
  ghost predicate Homed(t: Table, hf: int -> Hash, pos: map<int, nat>, s: nat)
    requires Form(t) && s < |t.slots|
  {
    t.slots[s].Full? ==>
      var k := t.slots[s].obj.key;
      k in pos && pos[k] > 0 && SlotAt(|t.slots|, t.step, hf(k), pos[k]) == s
  }

  /** `pos` gives the place of every key that the table holds; each key has one slot. */
  ghost predicate Ok(t: Table, hf: int -> Hash, pos: map<int, nat>) {
    && Shape(t)
    && (forall k | k in pos :: Placed(t, hf, k, pos[k]))
    && (forall s: nat | s < |t.slots| :: Homed(t, hf, pos, s))
  }

  /** The counters say how many slots are full and how many are tombstones. */
  ghost predicate Counted(t: Table, pos: map<int, nat>) {
    && t.tombs == multiset(t.slots)[Tombstone]
    && t.count == |t.slots| - multiset(t.slots)[Empty] - multiset(t.slots)[Tombstone]
    && t.count == |pos|
  }

  /** The key-to-object map that the table represents. */
  ghost function Model(t: Table, hf: int -> Hash, pos: map<int, nat>): map<int, Object>
    requires Ok(t, hf, pos)
  {
    map k | k in pos :: (assert Placed(t, hf, k, pos[k]); At(t, hf(k), pos[k]).obj)
  }

  /** The map is determined by the slots alone: it relates exactly the keys and objects stored. */
  lemma ModelIsContents(t: Table, hf: int -> Hash, pos: map<int, nat>, o: Object)
    requires Ok(t, hf, pos)
    ensures (o.key in pos && Model(t, hf, pos)[o.key] == o) <==> Full(o) in t.slots
  {
    if o.key in pos && Model(t, hf, pos)[o.key] == o {
      assert Placed(t, hf, o.key, pos[o.key]);
    }
    if Full(o) in t.slots {
      var s: nat :| s < |t.slots| && t.slots[s] == Full(o);
      assert Homed(t, hf, pos, s) && Placed(t, hf, o.key, pos[o.key]);
    }
  }

  /** A search that has met no empty slot and no match up to the bound has shown the key absent. */
  lemma NotFoundMeansAbsent(t: Table, hf: int -> Hash, pos: map<int, nat>, k: int, p: nat)
    requires Ok(t, hf, pos) && p > 0
    requires forall q: nat | 0 < q < p :: !(At(t, hf(k), q).Full? && At(t, hf(k), q).obj.key == k)
    requires p > Bound(t, hf(k)) || At(t, hf(k), p) == Empty
    ensures k !in pos
  {
    assert k in pos ==> Placed(t, hf, k, pos[k]);
  }

  /** A full slot that the search for k meets and that matches is the one slot of k. */
  lemma FoundMeansPresent(t: Table, hf: int -> Hash, pos: map<int, nat>, k: int, p: nat)
    requires Ok(t, hf, pos) && p > 0 && At(t, hf(k), p).Full? && At(t, hf(k), p).obj.key == k
    ensures k in pos && SlotAt(|t.slots|, t.step, hf(k), pos[k]) == SlotAt(|t.slots|, t.step, hf(k), p)
    ensures Model(t, hf, pos)[k] == At(t, hf(k), p).obj
  {
    assert Homed(t, hf, pos, SlotAt(|t.slots|, t.step, hf(k), p));
  }

  // ---------------------------------------------------------------- stores

  ghost function Store(t: Table, s: nat, x: Slot): Table
    requires s < |t.slots|
  {
    t.(slots := t.slots[s := x])
  }

  /** Two keys that the table holds have different slots. */
  lemma SlotsDiffer(t: Table, hf: int -> Hash, pos: map<int, nat>, a: int, b: int)
    requires Ok(t, hf, pos) && a in pos && b in pos && a != b
    ensures SlotAt(|t.slots|, t.step, hf(a), pos[a]) != SlotAt(|t.slots|, t.step, hf(b), pos[b])
  {
    assert Placed(t, hf, a, pos[a]) && Placed(t, hf, b, pos[b]);
  }

  /** Raising bounds, and storing something that is not `Empty` into a slot that no other key sits
    in, keeps every other key in place. */
  lemma OthersStay(t: Table, hf: int -> Hash, pos: map<int, nat>, t': Table, s: nat, k: int)
    requires Ok(t, hf, pos) && Shape(t') && k in pos && s < |t.slots|
    requires |t'.slots| == |t.slots| && t'.slots == t.slots[s := t'.slots[s]] && t'.slots[s] != Empty && t'.step == t.step
    requires forall g: nat :: Bound(t', g) >= Bound(t, g)
    requires SlotAt(|t.slots|, t.step, hf(k), pos[k]) != s
    ensures Placed(t', hf, k, pos[k]) && At(t', hf(k), pos[k]) == At(t, hf(k), pos[k])
  {
    assert Placed(t, hf, k, pos[k]);
    forall q: nat | 0 < q < pos[k] ensures At(t', hf(k), q) != Empty {
      assert At(t, hf(k), q) != Empty;
    }
  }

  /** Inserting a new object into the empty slot or tombstone at position p. */
  lemma Insert(t: Table, hf: int -> Hash, pos: map<int, nat>, o: Object, p: nat, t': Table)
    requires Ok(t, hf, pos) && o.key !in pos && 0 < p <= t.limit
    requires !At(t, hf(o.key), p).Full? && FullBefore(t, hf(o.key), p)
    requires var s := SlotAt(|t.slots|, t.step, hf(o.key), p);
             t' == Store(BoundSet(t, hf(o.key), p), s, Full(o)).(count := t'.count, tombs := t'.tombs)
    ensures Ok(t', hf, pos[o.key := p])
    ensures Model(t', hf, pos[o.key := p]) == Model(t, hf, pos)[o.key := o]
  {
    var k, s, pos' := o.key, SlotAt(|t.slots|, t.step, hf(o.key), p), pos[o.key := p];
    BoundSetCovers(t, hf(k), p);
    assert forall g: nat :: Bound(t', g) == Bound(BoundSet(t, hf(k), p), g);
    forall x | x in pos ensures Placed(t', hf, x, pos[x]) && At(t', hf(x), pos[x]) == At(t, hf(x), pos[x]) {
      assert Placed(t, hf, x, pos[x]);
      OthersStay(t, hf, pos, t', s, x);
    }
    forall q: nat | 0 < q < p ensures At(t', hf(k), q) != Empty && SlotAt(|t.slots|, t.step, hf(k), q) != s {
      assert At(t, hf(k), q).Full?;
    }
    assert Placed(t', hf, k, p);
    forall i: nat | i < |t'.slots| ensures Homed(t', hf, pos', i) { assert Homed(t, hf, pos, i); }
  }

  /** Replacing the object of a key in its slot. */
  lemma Replace(t: Table, hf: int -> Hash, pos: map<int, nat>, o: Object, t': Table)
    requires Ok(t, hf, pos) && o.key in pos
    requires Placed(t, hf, o.key, pos[o.key])
    requires t' == Store(t, SlotAt(|t.slots|, t.step, hf(o.key), pos[o.key]), Full(o))
    ensures Ok(t', hf, pos)
    ensures Model(t', hf, pos) == Model(t, hf, pos)[o.key := o]
  {
    var k, s := o.key, SlotAt(|t.slots|, t.step, hf(o.key), pos[o.key]);
    assert forall g: nat :: Bound(t', g) == Bound(t, g);
    forall x | x in pos && x != k ensures Placed(t', hf, x, pos[x]) && At(t', hf(x), pos[x]) == At(t, hf(x), pos[x]) {
      SlotsDiffer(t, hf, pos, x, k);
      OthersStay(t, hf, pos, t', s, x);
    }
    forall q: nat | 0 < q < pos[k] ensures At(t', hf(k), q) != Empty { assert At(t, hf(k), q) != Empty; }
    assert Placed(t', hf, k, pos[k]);
    forall i: nat | i < |t'.slots| ensures Homed(t', hf, pos, i) { assert Homed(t, hf, pos, i); }
  }

  /** Moving a key forward: its object goes to a tombstone at an earlier position p, and its old slot
    becomes a tombstone. */
  lemma Relocate(t: Table, hf: int -> Hash, pos: map<int, nat>, o: Object, p: nat, t': Table)
    requires Ok(t, hf, pos) && o.key in pos && 0 < p <= pos[o.key]
    requires Placed(t, hf, o.key, pos[o.key]) && At(t, hf(o.key), p) == Tombstone
    requires FullBefore(t, hf(o.key), p)
    requires var s, f := SlotAt(|t.slots|, t.step, hf(o.key), pos[o.key]), SlotAt(|t.slots|, t.step, hf(o.key), p);
             t' == Store(Store(t, f, Full(o)), s, Tombstone)
    ensures Ok(t', hf, pos[o.key := p])
    ensures Model(t', hf, pos[o.key := p]) == Model(t, hf, pos)[o.key := o]
  {
    var k, s, f, pos' := o.key, SlotAt(|t.slots|, t.step, hf(o.key), pos[o.key]),
                         SlotAt(|t.slots|, t.step, hf(o.key), p), pos[o.key := p];
    assert forall g: nat :: Bound(t', g) == Bound(t, g);
    forall x | x in pos && x != k ensures Placed(t', hf, x, pos[x]) && At(t', hf(x), pos[x]) == At(t, hf(x), pos[x]) {
      SlotsDiffer(t, hf, pos, x, k);
      assert Placed(t, hf, x, pos[x]);
      forall q: nat | 0 < q < pos[x] ensures At(t', hf(x), q) != Empty { assert At(t, hf(x), q) != Empty; }
    }
    forall q: nat | 0 < q < p ensures At(t', hf(k), q) != Empty && SlotAt(|t.slots|, t.step, hf(k), q) != f {
      assert At(t, hf(k), q).Full?;
    }
    assert Placed(t', hf, k, p);
    forall i: nat | i < |t'.slots| ensures Homed(t', hf, pos', i) { assert Homed(t, hf, pos, i); }
  }

  /** Removing a key: its slot becomes a tombstone. */
  lemma Remove(t: Table, hf: int -> Hash, pos: map<int, nat>, k: int, t': Table)
    requires Ok(t, hf, pos) && k in pos && Placed(t, hf, k, pos[k])
    requires t' == Store(t, SlotAt(|t.slots|, t.step, hf(k), pos[k]), Tombstone).(count := t'.count, tombs := t'.tombs)
    ensures Ok(t', hf, pos - {k})
    ensures Model(t', hf, pos - {k}) == Model(t, hf, pos) - {k}
  {
    var s, pos' := SlotAt(|t.slots|, t.step, hf(k), pos[k]), pos - {k};
    assert forall g: nat :: Bound(t', g) == Bound(t, g);
    forall x | x in pos' ensures Placed(t', hf, x, pos'[x]) && At(t', hf(x), pos'[x]) == At(t, hf(x), pos[x]) {
      SlotsDiffer(t, hf, pos, x, k);
      OthersStay(t, hf, pos, t', s, x);
    }
    forall i: nat | i < |t'.slots| ensures Homed(t', hf, pos', i) { assert Homed(t, hf, pos, i); }
  }

  // ---------------------------------------------------------------- counters

  lemma StoreCounts(slots: seq<Slot>, s: nat, x: Slot)
    requires s < |slots|
    ensures multiset(slots[s := x]) == multiset(slots) - multiset{slots[s]} + multiset{x}
  {
    assert slots == slots[..s] + [slots[s]] + slots[s + 1..];
    assert slots[s := x] == slots[..s] + [x] + slots[s + 1..];
  }

  lemma InsertCounts(t: Table, pos: map<int, nat>, s: nat, o: Object, t': Table, p: nat)
    requires Counted(t, pos) && s < |t.slots| && !t.slots[s].Full? && o.key !in pos
    requires t'.slots == t.slots[s := Full(o)] && t'.count == t.count + 1
    requires t'.tombs == t.tombs - if t.slots[s] == Tombstone then 1 else 0
    ensures Counted(t', pos[o.key := p])
  {
    StoreCounts(t.slots, s, Full(o));
    assert pos[o.key := p].Keys == pos.Keys + {o.key};
  }

  lemma ReplaceCounts(t: Table, pos: map<int, nat>, s: nat, o: Object, t': Table)
    requires Counted(t, pos) && s < |t.slots| && t.slots[s].Full?
    requires t'.slots == t.slots[s := Full(o)] && t'.count == t.count && t'.tombs == t.tombs
    ensures Counted(t', pos)
  {
    StoreCounts(t.slots, s, Full(o));
  }

  lemma RelocateCounts(t: Table, pos: map<int, nat>, f: nat, s: nat, o: Object, t': Table, p: nat)
    requires Counted(t, pos) && s < |t.slots| && f < |t.slots| && t.slots[s].Full? && t.slots[f] == Tombstone
    requires o.key in pos
    requires t'.slots == t.slots[f := Full(o)][s := Tombstone] && t'.count == t.count && t'.tombs == t.tombs
    ensures Counted(t', pos[o.key := p])
  {
    StoreCounts(t.slots, f, Full(o));
    StoreCounts(t.slots[f := Full(o)], s, Tombstone);
    assert pos[o.key := p].Keys == pos.Keys;
  }

  lemma RemoveCounts(t: Table, pos: map<int, nat>, s: nat, k: int, t': Table)
    requires Counted(t, pos) && s < |t.slots| && t.slots[s].Full? && k in pos
    requires t'.slots == t.slots[s := Tombstone] && t'.count == t.count - 1 && t'.tombs == t.tombs + 1
    ensures Counted(t', pos - {k})
  {
    StoreCounts(t.slots, s, Tombstone);
    assert (pos - {k}).Keys == pos.Keys - {k};
  }
}
