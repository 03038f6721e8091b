/** The sequential operations of src/ck_hs.c, on arrays that are updated in place.

  `malloc` tells which calls of the allocator succeed, by their number. */
module HashSet {
  import opened Prelude
  import opened HashTable
  import opened HashSetRoom
  import opened Growth

  datatype Behavior = Probe | StopAtTombstone | Insertion

  /** A search for k goes past this position: the slot there is neither empty nor that of k. */
  ghost predicate Passed(t: Table, h: nat, k: int, q: nat)
    requires Shape(t) && q > 0
  {
    At(t, h, q) != Empty && !(At(t, h, q).Full? && At(t, h, q).obj.key == k)
  }

  /** What a probe for key k under hash h reports about the table: it went as far as position p. */
  ghost predicate Probed(t: Table, h: nat, k: int, limit: nat, slot: Option<nat>, n: nat, first: Option<nat>,
                         found: Option<Object>, p: nat)
  {
    && Shape(t) && 0 < n <= p <= limit + 1
    && (forall q: nat | 0 < q < p :: Passed(t, h, k, q))
    && FullBefore(t, h, n)
    && (first.None? ==> n == p)
    && (first.Some? ==> n <= limit && first.value == SlotAt(|t.slots|, t.step, h, n) && At(t, h, n) == Tombstone)
    && (slot.Some? ==> p <= limit && slot.value == SlotAt(|t.slots|, t.step, h, p))
    && (slot.Some? && found.None? ==> At(t, h, p) == Empty)
    && (found.Some? ==> slot.Some? && At(t, h, p) == Full(found.value) && found.value.key == k)
    && (slot.None? && first.None? ==> p == limit + 1)
  }

  ghost function Stored(t: Table, s: nat, x: Slot, dCount: int, dTombs: int): Table
    requires s < |t.slots|
  {
    Store(t, s, x).(count := t.count + dCount, tombs := t.tombs + dTombs)
  }

  /** Tables that stand for the same map have the same number of entries. */
  lemma SameCount(t: Table, hf: int -> Hash, pos: map<int, nat>, u: Table, upos: map<int, nat>)
    requires Ok(t, hf, pos) && Counted(t, pos) && Ok(u, hf, upos) && Counted(u, upos)
    requires HashTable.Model(t, hf, pos) == HashTable.Model(u, hf, upos)
    ensures t.count == u.count
  {
    assert pos.Keys == HashTable.Model(t, hf, pos).Keys == HashTable.Model(u, hf, upos).Keys == upos.Keys;
  }

  /** The state of a search that has looked at `probes` positions and goes on. */
  ghost predicate Searched(t: Table, h: nat, k: int, limit: nat, behavior: Behavior, probes: nat, plimit: nat,
                           past: bool, n: nat, first: Option<nat>)
  {
    && Shape(t) && probes <= plimit <= limit
    && (forall q: nat | 0 < q <= probes :: Passed(t, h, k, q))
    && FullBefore(t, h, if first.Some? then n else probes + 1)
    && (first.Some? ==> 0 < n <= probes && first.value == SlotAt(|t.slots|, t.step, h, n) && At(t, h, n) == Tombstone)
    && (behavior.StopAtTombstone? ==> first.None?)
    && (past ==> behavior.Insertion? && plimit == limit && probes > Bound(t, h) && first.None?)
    && (behavior.Insertion? && !past ==> plimit == Bound(t, h))
    && (!behavior.Insertion? ==> plimit == limit)
  }

  /** How a search ends. Without a match it has gone past the bound, unless it need not. */
  ghost predicate Ended(t: Table, h: nat, k: int, limit: nat, behavior: Behavior, slot: Option<nat>, n: nat,
                        first: Option<nat>, found: Option<Object>, p: nat)
  {
    && p > 0 && Probed(t, h, k, limit, slot, n, first, found, p)
    && (behavior.Probe? && slot.None? ==> p == limit + 1)
    && (behavior.Insertion? && slot.None? ==> p > Bound(t, h))
  }

  lemma PositionInLine(t: Table, h: nat, i: nat, j: nat)
    requires Shape(t) && j < LINE
    ensures SlotAt(|t.slots|, t.step, h, LINE * i + j + 1) == InLine(Offset(|t.slots|, t.step, h, i), j)
  {
    assert (LINE * i + j) / LINE == i && (LINE * i + j) % LINE == j;
  }

  /** A capacity that a grow is sure to reach, as far as memory allows. */
  predicate Suits(c: nat, n: nat) {
    c <= MOST && Roomy(Capacity(c), n)
  }

  lemma LaidPower(n: nat) returns (k: nat)
    ensures 3 <= k <= 31 && Capacity(n) == Pow2(k) && Capacity(n) % LINE == 0
  {
    k := CapacityIsPower(n);
    Growth.Words();
    PowAdd(3, k - 3);
    ModUnique(Pow2(k), LINE, Pow2(k - 3), 0);
  }

  lemma EmptyOk(t: Table, hf: int -> Hash)
    requires Shape(t) && (forall i | 0 <= i < |t.slots| :: t.slots[i] == Empty) && t.count == 0 && t.tombs == 0
    ensures Ok(t, hf, map[]) && Counted(t, map[]) && Model(t, hf, map[]) == map[]
  {
    AllEmpty(t.slots);
    forall s: nat | s < |t.slots| ensures Homed(t, hf, map[], s) {}
  }

  lemma {:induction false} AllEmpty(slots: seq<Slot>)
    requires forall i | 0 <= i < |slots| :: slots[i] == Empty
    ensures multiset(slots)[Empty] == |slots| && multiset(slots)[Tombstone] == 0
  {
    if slots != [] {
      AllEmpty(slots[1..]);
      assert slots == [slots[0]] + slots[1..];
    }
  }

  /** A probe within the bound finds the object that the map holds for the key, or shows that there
    is none; and a tombstone it met lies before it. */
  lemma ProbeDecides(t: Table, hf: int -> Hash, pos: map<int, nat>, k: int, limit: nat, slot: Option<nat>, n: nat,
                     first: Option<nat>, found: Option<Object>, p: nat)
    requires Ok(t, hf, pos) && p > 0 && Probed(t, hf(k), k, limit, slot, n, first, found, p)
    requires slot.None? ==> p > Bound(t, hf(k))
    ensures found == if k in pos then Some(Model(t, hf, pos)[k]) else None
    ensures found.Some? ==> slot.value == SlotAt(|t.slots|, t.step, hf(k), pos[k])
  {
    if found.Some? {
      FoundMeansPresent(t, hf, pos, k, p);
    } else {
      forall q: nat | 0 < q < p ensures !(At(t, hf(k), q).Full? && At(t, hf(k), q).obj.key == k) {
        assert Passed(t, hf(k), k, q);
      }
      NotFoundMeansAbsent(t, hf, pos, k, p);
    }
  }

  lemma RemovedOk(t: Table, hf: int -> Hash, pos: map<int, nat>, k: int, s: nat)
    requires Ok(t, hf, pos) && Counted(t, pos) && k in pos && pos[k] > 0 && s == SlotAt(|t.slots|, t.step, hf(k), pos[k])
    ensures var t' := Stored(t, s, Tombstone, -1, 1);
            Ok(t', hf, pos - {k}) && Counted(t', pos - {k}) && Model(t', hf, pos - {k}) == Model(t, hf, pos) - {k}
  {
    var t' := Stored(t, s, Tombstone, -1, 1);
    assert Placed(t, hf, k, pos[k]);
    HashTable.Remove(t, hf, pos, k, t');
    RemoveCounts(t, pos, s, k, t');
  }

  /** A new key goes into the empty slot or tombstone at position n of its sequence. */
  lemma InsertedOk(t: Table, hf: int -> Hash, pos: map<int, nat>, o: Object, n: nat, s: nat)
    requires Ok(t, hf, pos) && Counted(t, pos) && o.key !in pos && 0 < n <= t.limit
    requires s == SlotAt(|t.slots|, t.step, hf(o.key), n)
    requires !At(t, hf(o.key), n).Full? && FullBefore(t, hf(o.key), n)
    ensures var t' := Stored(BoundSet(t, hf(o.key), n), s, Full(o), 1, if t.slots[s] == Tombstone then -1 else 0);
            && Ok(t', hf, pos[o.key := n]) && Counted(t', pos[o.key := n])
            && Model(t', hf, pos[o.key := n]) == Model(t, hf, pos)[o.key := o]
  {
    var t' := Stored(BoundSet(t, hf(o.key), n), s, Full(o), 1, if t.slots[s] == Tombstone then -1 else 0);
    Insert(t, hf, pos, o, n, t');
    InsertCounts(t, pos, s, o, t', n);
  }

  /** The first k slots of t have been moved to u. */
  ghost predicate Moved(t: Table, hf: int -> Hash, pos: map<int, nat>, u: Table, upos: map<int, nat>, k: nat)
    requires Ok(t, hf, pos) && Ok(u, hf, upos)
  {
    && (forall x | x in upos :: x in pos && Model(u, hf, upos)[x] == Model(t, hf, pos)[x])
    && (forall x | x in pos :: x in upos <==> SlotOf(t, hf, pos, x) < k)
    && (forall i: nat | i < |u.slots| :: u.slots[i] != Tombstone)
  }

  ghost function SlotOf(t: Table, hf: int -> Hash, pos: map<int, nat>, k: int): nat
    requires Ok(t, hf, pos) && k in pos
  {
    assert Placed(t, hf, k, pos[k]);
    SlotAt(|t.slots|, t.step, hf(k), pos[k])
  }

  lemma MoveOne(t: Table, hf: int -> Hash, pos: map<int, nat>, u: Table, upos: map<int, nat>, k: nat, o: Object, n: nat)
    requires Ok(t, hf, pos) && Ok(u, hf, upos) && Counted(u, upos) && Moved(t, hf, pos, u, upos, k)
    requires k < |t.slots| && t.slots[k] == Full(o) && 0 < n <= u.limit
    requires At(u, hf(o.key), n) == Empty && NoEmptyBefore(u, hf(o.key), n)
    ensures var s := SlotAt(|u.slots|, u.step, hf(o.key), n);
            var u', upos' := Stored(BoundSet(u, hf(o.key), n), s, Full(o), 1, 0), upos[o.key := n];
            Ok(u', hf, upos') && Counted(u', upos') && Moved(t, hf, pos, u', upos', k + 1)
  {
    assert Homed(t, hf, pos, k);
    assert SlotOf(t, hf, pos, o.key) == k;
    forall q: nat | 0 < q < n ensures At(u, hf(o.key), q).Full? {
      assert At(u, hf(o.key), q) != Empty;
      assert u.slots[SlotAt(|u.slots|, u.step, hf(o.key), q)] != Tombstone;
    }
    InsertedOk(u, hf, upos, o, n, SlotAt(|u.slots|, u.step, hf(o.key), n));
    forall x | x in pos && x != o.key ensures SlotOf(t, hf, pos, x) != k {
      SlotsDiffer(t, hf, pos, x, o.key);
    }
    ModelIsContents(t, hf, pos, o);
  }

  lemma SkipOne(t: Table, hf: int -> Hash, pos: map<int, nat>, u: Table, upos: map<int, nat>, k: nat)
    requires Ok(t, hf, pos) && Ok(u, hf, upos) && Moved(t, hf, pos, u, upos, k)
    requires k < |t.slots| && !t.slots[k].Full?
    ensures Moved(t, hf, pos, u, upos, k + 1)
  {
    forall x | x in pos ensures SlotOf(t, hf, pos, x) != k { assert Placed(t, hf, x, pos[x]); }
  }

  lemma MovedAll(t: Table, hf: int -> Hash, pos: map<int, nat>, u: Table, upos: map<int, nat>)
    requires Ok(t, hf, pos) && Ok(u, hf, upos) && Moved(t, hf, pos, u, upos, |t.slots|)
    ensures Model(u, hf, upos) == Model(t, hf, pos)
  {
    forall x ensures x in upos <==> x in pos {
      if x in pos { assert SlotOf(t, hf, pos, x) < |t.slots|; }
    }
    assert upos.Keys == pos.Keys;
    var a, b := Model(u, hf, upos), Model(t, hf, pos);
    assert a.Keys == b.Keys;
    forall x | x in a.Keys ensures a[x] == b[x] { assert x in upos; }
  }

  /** The search under h for a slot in the new table has hit the probe limit: there was no room to be sure of. */
  lemma NoRoom(t: Table, hf: int -> Hash, pos: map<int, nat>, u: Table, upos: map<int, nat>, k: nat, o: Object)
    requires Ok(t, hf, pos) && Counted(t, pos) && Ok(u, hf, upos) && Sized(u) && Moved(t, hf, pos, u, upos, k)
    requires k < |t.slots| && t.slots[k] == Full(o) && NoEmptyBefore(u, hf(o.key), u.limit + 1)
    ensures !Roomy(|u.slots|, t.count)
  {
    assert Homed(t, hf, pos, k) && SlotOf(t, hf, pos, o.key) == k;
    forall q: nat | 0 < q < u.limit + 1 ensures At(u, hf(o.key), q).Full? {
      assert At(u, hf(o.key), q) != Empty;
      assert u.slots[SlotAt(|u.slots|, u.step, hf(o.key), q)] != Tombstone;
    }
    assert o.key !in upos;
    forall x | x in upos.Keys ensures x in pos.Keys - {o.key} { assert x in upos; }
    Fewer(upos.Keys, pos.Keys - {o.key});
    if Roomy(|u.slots|, t.count) { FullMeansMany(u, hf, upos, hf(o.key), t.count); }
  }

  lemma ReplacedOk(t: Table, hf: int -> Hash, pos: map<int, nat>, o: Object, s: nat)
    requires Ok(t, hf, pos) && Counted(t, pos) && o.key in pos && s == SlotOf(t, hf, pos, o.key)
    ensures var t' := Stored(t, s, Full(o), 0, 0);
            Ok(t', hf, pos) && Counted(t', pos) && Model(t', hf, pos) == Model(t, hf, pos)[o.key := o]
  {
    assert Placed(t, hf, o.key, pos[o.key]);
    Replace(t, hf, pos, o, Stored(t, s, Full(o), 0, 0));
    ReplaceCounts(t, pos, s, o, Stored(t, s, Full(o), 0, 0));
  }

  lemma RelocatedOk(t: Table, hf: int -> Hash, pos: map<int, nat>, o: Object, n: nat, f: nat, s: nat)
    requires Ok(t, hf, pos) && Counted(t, pos) && o.key in pos && s == SlotOf(t, hf, pos, o.key)
    requires 0 < n <= pos[o.key] && At(t, hf(o.key), n) == Tombstone && FullBefore(t, hf(o.key), n)
    requires f == SlotAt(|t.slots|, t.step, hf(o.key), n)
    ensures var t', pos' := Stored(Stored(t, f, Full(o), 0, 0), s, Tombstone, 0, 0), pos[o.key := n];
            Ok(t', hf, pos') && Counted(t', pos') && Model(t', hf, pos') == Model(t, hf, pos)[o.key := o]
  {
    assert Placed(t, hf, o.key, pos[o.key]);
    var t' := Stored(Stored(t, f, Full(o), 0, 0), s, Tombstone, 0, 0);
    Relocate(t, hf, pos, o, n, t');
    RelocateCounts(t, pos, f, s, o, t', n);
  }

  /** A match is met no later than the recorded place of the key, hence within the bound. */
  lemma FoundWithin(t: Table, hf: int -> Hash, pos: map<int, nat>, k: int, limit: nat, slot: Option<nat>, n: nat,
                    first: Option<nat>, o: Object, p: nat)
    requires Ok(t, hf, pos) && p > 0 && Probed(t, hf(k), k, limit, slot, n, first, Some(o), p)
    ensures k in pos && n <= p == pos[k] <= Bound(t, hf(k)) && slot.value == SlotOf(t, hf, pos, k)
  {
    FoundMeansPresent(t, hf, pos, k, p);
    assert Placed(t, hf, k, pos[k]);
    assert pos[k] < p ==> Passed(t, hf(k), k, pos[k]);
  }

  // ---------------------------------------------------------------- garbage collection

  ghost function Copy(a: array?<nat>): Option<seq<nat>>
    reads a
  {
    if a == null then None else Some(a[..])
  }

  /** No entry has moved away from the start of its sequence. */
  ghost predicate Earlier(was: map<int, nat>, pos: map<int, nat>) {
    was.Keys == pos.Keys && forall k | k in pos :: pos[k] <= was[k]
  }

  lemma EarlierAlso(a: map<int, nat>, b: map<int, nat>, c: map<int, nat>)
    requires Earlier(a, b) && Earlier(b, c)
    ensures Earlier(a, c)
  {
  }

  /** The new bounds reach position p under hash h. */
  ghost predicate Covers(bounds: Option<seq<nat>>, maximum: nat, h: nat, p: nat)
    requires bounds.Some? ==> |bounds.value| > 0
  {
    && p <= maximum
    && (bounds.Some? ==> (if p > WORD_MAX then WORD_MAX else p) <= bounds.value[h % |bounds.value|])
  }

  ghost function Raised(bounds: Option<seq<nat>>, h: nat, n: nat): Option<seq<nat>>
    requires bounds.Some? ==> |bounds.value| > 0
  {
    var c := if n > WORD_MAX then WORD_MAX else n;
    if bounds.Some? && c > bounds.value[h % |bounds.value|] then Some(bounds.value[h % |bounds.value| := c]) else bounds
  }

  /** The new bounds have the shape of bounds, and none is higher than before. */
  ghost predicate Lower(t: Table, maximum: nat, bounds: Option<seq<nat>>)
    requires Shape(t)
  {
    && maximum <= t.maximum && (bounds.Some? <==> t.bounds.Some?)
    && (bounds.Some? ==>
          && |bounds.value| == |t.slots|
          && forall i | 0 <= i < |t.slots| :: bounds.value[i] <= t.bounds.value[i] && bounds.value[i] <= maximum)
  }

  /** The iteration of the scan that visits slot s. */
  ghost function Turn(cap: nat, seed: nat, s: nat): (i: nat)
    requires s < cap
    ensures i < cap && (i + seed) % cap == s
  {
    var i := (s + cap - seed % cap) % cap;
    TurnVisits(cap, seed, s, i);
    i
  }

  lemma TurnVisits(cap: nat, seed: nat, s: nat, i: nat)
    requires s < cap && i == (s + cap - seed % cap) % cap
    ensures (i + seed) % cap == s
  {
    var x, q := seed % cap, seed / cap;
    assert seed == cap * q + x;
    if s >= x {
      ModUnique(s + cap - x, cap, 1, s - x);
      ModUnique(i + seed, cap, q, s);
    } else {
      ModUnique(s + cap - x, cap, 0, s + cap - x);
      MulSign(q + 1, cap);
      assert cap * (q + 1) == cap * q + cap;
      ModUnique(i + seed, cap, q + 1, s);
    }
  }

  lemma TurnUnique(cap: nat, seed: nat, i: nat)
    requires i < cap
    ensures Turn(cap, seed, (i + seed) % cap) == i
  {
    var j := Turn(cap, seed, (i + seed) % cap);
    SameRest(i + seed, j + seed, cap);
  }

  /** After i iterations: each key is covered by the new bounds, or its slot is still to be visited. */
  ghost predicate Swept(t: Table, hf: int -> Hash, pos: map<int, nat>, seed: nat, i: nat, maximum: nat, bounds: Option<seq<nat>>) {
    && Ok(t, hf, pos) && Lower(t, maximum, bounds)
    && forall k | k in pos :: Covers(bounds, maximum, hf(k), pos[k]) || Turn(|t.slots|, seed, SlotOf(t, hf, pos, k)) >= i
  }

  lemma AllPending(t: Table, hf: int -> Hash, pos: map<int, nat>, seed: nat, maximum: nat, bounds: Option<seq<nat>>)
    requires Ok(t, hf, pos) && Lower(t, maximum, bounds)
    ensures Swept(t, hf, pos, seed, 0, maximum, bounds)
  {
  }

  lemma SweptNone(t: Table, hf: int -> Hash, pos: map<int, nat>, seed: nat, i: nat, maximum: nat, bounds: Option<seq<nat>>)
    requires Swept(t, hf, pos, seed, i, maximum, bounds) && i < |t.slots|
    requires !t.slots[(i + seed) % |t.slots|].Full?
    ensures Swept(t, hf, pos, seed, i + 1, maximum, bounds)
  {
    forall k | k in pos ensures Turn(|t.slots|, seed, SlotOf(t, hf, pos, k)) != i { assert Placed(t, hf, k, pos[k]); }
  }

  lemma SweptOne(t: Table, hf: int -> Hash, pos: map<int, nat>, seed: nat, i: nat, maximum: nat, bounds: Option<seq<nat>>,
                 k: int, n: nat, t': Table, bounds': Option<seq<nat>>)
    requires Swept(t, hf, pos, seed, i, maximum, bounds) && i < |t.slots|
    requires k in pos && n <= Bound(t, hf(k)) && SlotOf(t, hf, pos, k) == (i + seed) % |t.slots|
    requires Ok(t', hf, pos[k := n]) && |t'.slots| == |t.slots| && t'.step == t.step
    requires t'.bounds == t.bounds && t'.maximum == t.maximum
    requires bounds' == Raised(bounds, hf(k), n)
    ensures Swept(t', hf, pos[k := n], seed, i + 1, if n > maximum then n else maximum, bounds')
  {
    var max', pos' := if n > maximum then n else maximum, pos[k := n];
    assert hf(k) % |t.slots| < |t.slots|;
    assert Covers(bounds', max', hf(k), n);
    forall x | x in pos && x != k
      ensures Covers(bounds', max', hf(x), pos[x]) || Turn(|t.slots|, seed, SlotOf(t', hf, pos', x)) > i
    {
      SlotsDiffer(t, hf, pos, x, k);
      assert hf(x) % |t.slots| < |t.slots|;
      assert SlotOf(t', hf, pos', x) == SlotOf(t, hf, pos, x);
    }
  }

  /** No bound reaches further than some entry at the places `was`; the maximum neither. */
  ghost predicate Tight(was: map<int, nat>, hf: int -> Hash, maximum: nat, bounds: Option<seq<nat>>) {
    && (maximum > 0 ==> exists k :: k in was && maximum <= was[k])
    && (bounds.Some? ==> forall i: nat | i < |bounds.value| && bounds.value[i] > 0 :: Needed(was, hf, |bounds.value|, i, bounds.value[i]))
  }

  ghost predicate Needed(was: map<int, nat>, hf: int -> Hash, cap: nat, i: nat, n: nat)
    requires cap > 0
  {
    exists k :: k in was && hf(k) % cap == i && n <= was[k]
  }

  lemma TightOne(was: map<int, nat>, hf: int -> Hash, maximum: nat, bounds: Option<seq<nat>>, k: int, n: nat)
    requires Tight(was, hf, maximum, bounds) && k in was && n <= was[k] && (bounds.Some? ==> |bounds.value| > 0)
    ensures Tight(was, hf, if n > maximum then n else maximum, Raised(bounds, hf(k), n))
  {
    if bounds.Some? {
      var b, b' := bounds.value, Raised(bounds, hf(k), n).value;
      forall i: nat | i < |b'| && b'[i] > 0 ensures Needed(was, hf, |b'|, i, b'[i]) {
        if b'[i] == b[i] { assert Needed(was, hf, |b|, i, b[i]); }
      }
    }
  }

  ghost predicate NoHigher(t: Table, t': Table) {
    && Shape(t) && Shape(t')
    && forall g: nat :: Bound(t', g) <= Bound(t, g)
  }

  ghost predicate SameBounds(t: Table, t': Table) {
    t'.bounds == t.bounds && t'.maximum == t.maximum && |t'.slots| == |t.slots|
  }

  /** Bounds that cover every key may replace the present ones. */
  lemma CoversReplace(t: Table, hf: int -> Hash, pos: map<int, nat>, maximum: nat, t': Table)
    requires Ok(t, hf, pos) && Lower(t, maximum, t'.bounds)
    requires t' == t.(maximum := maximum, bounds := t'.bounds)
    requires forall k | k in pos :: Covers(t'.bounds, maximum, hf(k), pos[k])
    ensures Ok(t', hf, pos) && Model(t', hf, pos) == Model(t, hf, pos)
  {
    forall k | k in pos ensures Placed(t', hf, k, pos[k]) && At(t', hf(k), pos[k]) == At(t, hf(k), pos[k]) {
      assert Placed(t, hf, k, pos[k]) && Covers(t'.bounds, maximum, hf(k), pos[k]);
      assert hf(k) % |t.slots| < |t.slots|;
      forall q: nat | 0 < q < pos[k] ensures At(t', hf(k), q) != Empty { assert At(t, hf(k), q) != Empty; }
    }
    forall i: nat | i < |t'.slots| ensures Homed(t', hf, pos, i) { assert Homed(t, hf, pos, i); }
  }

  lemma Rebounded(t: Table, hf: int -> Hash, pos: map<int, nat>, maximum: nat, t': Table)
    requires Ok(t, hf, pos) && Counted(t, pos) && Lower(t, maximum, t'.bounds)
    requires t' == t.(maximum := maximum, bounds := t'.bounds)
    requires forall k | k in pos :: Covers(t'.bounds, maximum, hf(k), pos[k])
    ensures Ok(t', hf, pos) && Counted(t', pos) && Model(t', hf, pos) == Model(t, hf, pos)
    ensures NoHigher(t, t')
  {
    CoversReplace(t, hf, pos, maximum, t');
    forall g: nat ensures Bound(t', g) <= Bound(t, g) { assert g % |t.slots| < |t.slots|; }
  }

  /** `struct ck_hs_map`. */
  class Map {
    const entries: array<Slot>
    const bound: array?<nat>
    const step: nat
    const limit: nat
    ghost const power: nat
    var maximum: nat
    var count: int
    var tombs: int
    var generation: seq<nat>

    ghost function View(): Table
      reads this, entries, bound
    {
      Table(entries[..], if bound == null then None else Some(bound[..]), maximum, limit, step, count, tombs)
    }

    ghost predicate Wf()
      reads this, entries, bound
    {
      Shape(View()) && |generation| == 2
    }

    /** A power of two of slots, from one line to 2^31, and what else follows from their number. */
    ghost predicate Laid() {
      && entries.Length == Pow2(power) && 3 <= power <= 31
      && limit == Limit(entries.Length) && step == power + 1
    }

    lemma LaidIsSized()
      requires Wf() && Laid()
      ensures Sized(View())
    {
      Log2OfPower(power);
    }

    /** `ck_hs_map_create`. */
    constructor (n: nat, deletes: bool)
      ensures Wf() && Laid() && fresh(entries) && (bound != null ==> fresh(bound)) && (bound != null <==> deletes)
      ensures entries.Length == Capacity(n) && forall i | 0 <= i < entries.Length :: entries[i] == Empty
      ensures maximum == 0 && (bound != null ==> forall i | 0 <= i < bound.Length :: bound[i] == 0)
      ensures count == 0 && tombs == 0 && generation == [0, 0]
    {
      var cap := CapacityOf(n);
      ghost var k := LaidPower(n);
      Log2OfPower(k);
      entries := new Slot[cap](_ => Empty);
      if deletes { bound := new nat[cap](_ => 0); } else { bound := null; }
      step := Log2(cap) + 1;
      limit := if cap / 32 > 64 then cap / 32 else 64;
      power := k;
      maximum, count, tombs, generation := 0, 0, 0, [0, 0];
    }

    /** `ck_hs_map_signal`. */
    method Signal(h: nat)
      requires |generation| == 2
      modifies this`generation
      ensures generation == old(generation)[h % 2 := old(generation)[h % 2] + 1]
    {
      generation := generation[h % 2 := generation[h % 2] + 1];
    }

    /** `ck_pr_store_ptr` on a slot, together with the counters that change with it. */
    method StoreSlot(s: nat, x: Slot, dCount: int, dTombs: int)
      requires Wf() && s < entries.Length
      modifies this`count, this`tombs, entries
      ensures Wf() && View() == Stored(old(View()), s, x, dCount, dTombs)
    {
      entries[s] := x;
      count, tombs := count + dCount, tombs + dTombs;
    }

    method BoundSet(h: nat, n: nat)
      requires Wf() && n <= limit
      modifies this`maximum, bound
      ensures Wf() && View() == HashTable.BoundSet(old(View()), h, n)
    {
      BoundSetCovers(View(), h, n);
      var offset := h % entries.Length;
      if n > maximum { maximum := n; }
      if bound != null && bound[offset] < n {
        bound[offset] := if n > WORD_MAX then WORD_MAX else n;
      }
    }

    method BoundGet(h: nat) returns (r: nat)
      requires Wf()
      ensures r == Bound(View(), h)
    {
      r := WORD_MAX;
      if bound != null {
        r := bound[h % entries.Length];
        if r == WORD_MAX { r := maximum; }
      } else {
        r := maximum;
      }
    }

    /** The slot that comes j places on in line number i. */
    method Place(h: nat, offset: nat, ghost i: nat, j: nat) returns (cursor: nat)
      requires Wf() && offset == Offset(entries.Length, step, h, i) && j < LINE
      ensures cursor == SlotAt(entries.Length, step, h, LINE * i + j + 1)
    {
      cursor := InLine(offset, j);
      PositionInLine(View(), h, i, j);
    }

    /** The body of the inner loop of `ck_hs_map_probe`, at position p. */
    method ProbeSlot(h: nat, key: int, limit0: nat, behavior: Behavior, cursor: nat, probes: nat,
                     plimit0: nat, past0: bool, n0: nat, first0: Option<nat>)
      returns (done: bool, plimit: nat, past: bool, slot: Option<nat>, n: nat, first: Option<nat>, found: Option<Object>)
      requires Wf() && probes > 0 && cursor == SlotAt(entries.Length, step, h, probes)
      requires Searched(View(), h, key, limit0, behavior, probes - 1, plimit0, past0, n0, first0)
      ensures done ==> Ended(View(), h, key, limit0, behavior, slot, n, first, found, probes)
      ensures !done ==> Searched(View(), h, key, limit0, behavior, probes, plimit, past, n, first)
    {
      plimit, past, n, first := plimit0, past0, n0, first0;
      done, slot, found := true, None, None;
      if probes - 1 == plimit {
        if plimit == limit0 || first.Some? {
          if first.None? { n := probes; }
          return;
        }
        plimit, past := limit0, true;
      }
      var val := entries[cursor];
      assert val == At(View(), h, probes);
      if val == Empty || (val.Full? && val.obj.key == key) {
        slot := Some(cursor);
        if val.Full? { found := Some(val.obj); }
        if first.None? { n := probes; }
        return;
      }
      assert Passed(View(), h, key, probes);
      if val == Tombstone && first.None? {
        first, n := Some(cursor), probes;
        if behavior.StopAtTombstone? || past { return; }
      }
      done := false;
    }

    /** The inner loop of `ck_hs_map_probe`: line number i, which starts at `offset`. The search
      either ends here, or goes on in the next line. */
    method ProbeLine(h: nat, key: int, limit0: nat, behavior: Behavior, offset: nat, i: nat,
                     plimit0: nat, past0: bool, n0: nat, first0: Option<nat>)
      returns (done: bool, plimit: nat, past: bool, slot: Option<nat>, n: nat, first: Option<nat>,
               found: Option<Object>, ghost p: nat)
      requires Wf() && offset == Offset(entries.Length, step, h, i)
      requires Searched(View(), h, key, limit0, behavior, LINE * i, plimit0, past0, n0, first0)
      ensures done ==> Ended(View(), h, key, limit0, behavior, slot, n, first, found, p)
      ensures !done ==> Searched(View(), h, key, limit0, behavior, LINE * (i + 1), plimit, past, n, first)
    {
      plimit, past, n, first := plimit0, past0, n0, first0;
      done, slot, found, p := false, None, None, 0;
      var j := 0;
      while j < LINE
        invariant j <= LINE && !done
        invariant Searched(View(), h, key, limit0, behavior, LINE * i + j, plimit, past, n, first)
      {
        var cursor := Place(h, offset, i, j);
        var probes := LINE * i + j + 1;
        done, plimit, past, slot, n, first, found :=
          ProbeSlot(h, key, limit0, behavior, cursor, probes, plimit, past, n, first);
        if done { p := probes; return; }
        j := j + 1;
      }
    }

    /** `ck_hs_map_probe`. */
    method MapProbe(h: nat, key: int, limit0: nat, behavior: Behavior)
      returns (slot: Option<nat>, n: nat, first: Option<nat>, found: Option<Object>, ghost p: nat)
      requires Wf() && Bound(View(), h) <= limit0
      ensures Ended(View(), h, key, limit0, behavior, slot, n, first, found, p)
    {
      var offset := h % entries.Length;
      var i, plimit, past, done := 0, limit0, false, false;
      slot, first, found, n, p := None, None, None, 0, 0;
      if behavior.Insertion? { plimit := BoundGet(h); }
      while true
        invariant offset == Offset(entries.Length, step, h, i)
        invariant Searched(View(), h, key, limit0, behavior, LINE * i, plimit, past, n, first)
        decreases limit0 - LINE * i
      {
        done, plimit, past, slot, n, first, found, p := ProbeLine(h, key, limit0, behavior, offset, i, plimit, past, n, first);
        if done { return; }
        offset := NextOffset(entries.Length, step, h, offset, i);
        i := i + 1;
      }
    }

    /** The search of `ck_hs_grow` in the table under construction, which has no tombstones. */
    method FirstEmpty(h: nat) returns (room: bool, s: nat, n: nat)
      requires Wf()
      ensures room ==> 0 < n <= limit && s == SlotAt(entries.Length, step, h, n)
      ensures room ==> At(View(), h, n) == Empty && NoEmptyBefore(View(), h, n)
      ensures !room ==> NoEmptyBefore(View(), h, limit + 1)
    {
      ghost var t := View();
      var offset := h % entries.Length;
      var i := 0;
      room, s, n := true, 0, 0;
      while true
        invariant offset == Offset(entries.Length, step, h, i) && n == LINE * i && room
        invariant n <= limit && NoEmptyBefore(t, h, n + 1)
        decreases limit - n
      {
        var j := 0;
        while j < LINE
          invariant j <= LINE && n == LINE * i + j && room
          invariant n <= limit && NoEmptyBefore(t, h, n + 1)
          decreases LINE - j
        {
          s := InLine(offset, j);
          PositionInLine(t, h, i, j);
          n := n + 1;
          if n - 1 == limit { room := false; return; }
          var val := entries[s];
          assert val == At(t, h, n);
          if val == Empty { return; }
          j := j + 1;
        }
        offset := NextOffset(entries.Length, step, h, offset, i);
        i := i + 1;
      }
    }

    method ClearBounds()
      requires Wf()
      modifies this`maximum, bound
      ensures View() == old(View()).(maximum := 0, bounds := if bound == null then None else Some(seq(entries.Length, _ => 0)))
    {
      maximum := 0;
      if bound != null {
        forall i | 0 <= i < bound.Length { bound[i] := 0; }
        assert bound[..] == seq(entries.Length, _ => 0);
      }
    }

    /** The end of `ck_hs_gc`: the recomputed maximum and bounds replace the present ones. */
    method InstallBounds(max: nat, bounds: array?<nat>)
      requires Wf() && max <= limit
      requires bounds != null ==> bound != null && bounds != bound && bounds.Length == entries.Length
      modifies this`maximum, bound
      ensures View() == old(View()).(maximum := max, bounds := if bounds == null then old(View()).bounds else Some(bounds[..]))
    {
      if max != maximum { maximum := max; }
      assert bound != null ==> bound[..] == old(bound[..]);
      if bounds != null {
        var i := 0;
        while i < entries.Length
          invariant i <= entries.Length
          invariant bound[..i] == bounds[..i] && bounds[..] == old(bounds[..])
          invariant maximum == max && entries[..] == old(entries[..])
        {
          bound[i] := bounds[i];
          i := i + 1;
        }
        assert bound[..] == bounds[..];
      }
    }
  }

  /** `ck_hs_t`. */
  class Set {
    const hf: int -> Hash
    const deletes: bool
    const malloc: nat -> bool
    var table: Map
    var calls: nat
    ghost var pos: map<int, nat>

    ghost predicate Valid()
      reads this, table, table.entries, table.bound
    {
      && table.Wf() && table.Laid() && Ok(table.View(), hf, pos) && Counted(table.View(), pos)
      && (table.bound != null <==> deletes)
    }

    ghost function Model(): map<int, Object>
      requires Valid()
      reads this, table, table.entries, table.bound
    {
      HashTable.Model(table.View(), hf, pos)
    }

    /** What the other operations may touch: this table's storage, or a table made meanwhile. */
    twostate predicate SameOrFresh()
      reads this, table
    {
      table == old(table) || (fresh(table) && fresh(table.entries) && (table.bound != null ==> fresh(table.bound)))
    }

    /** Why a table does not become larger: the last allocation since number `was` has failed, or there is
      no room to be sure of in twice the slots. */
    ghost predicate Refused(was: nat)
      requires Valid()
      reads this, table, table.entries, table.bound
    {
      (calls > was && !malloc(calls - 1)) || !Suits(2 * table.entries.Length, table.count)
    }

    constructor (hf: int -> Hash, deletes: bool, capacity: nat, malloc: nat -> bool)
      ensures Valid() && Model() == map[] && fresh(table) && fresh(table.entries) && (table.bound != null ==> fresh(table.bound))
      ensures this.hf == hf && this.deletes == deletes && this.malloc == malloc && calls == 0
      ensures table.entries.Length == Capacity(capacity)
    {
      this.hf, this.deletes, this.malloc, calls := hf, deletes, malloc, 0;
      var m := new Map(capacity, deletes);
      this.table := m;
      pos := map[];
      new;
      EmptyOk(table.View(), hf);
    }

    /** `ck_hs_get` without concurrent writers. */
    method Get(h: nat, key: int) returns (found: Option<Object>)
      requires Valid() && h == hf(key)
      ensures found == if key in Model() then Some(Model()[key]) else None
    {
      var limit := table.BoundGet(h);
      var slot, n, first, f, p := table.MapProbe(h, key, limit, Probe);
      found := f;
      ProbeDecides(table.View(), hf, pos, key, limit, slot, n, first, found, p);
    }

    /** Marking a slot as deleted. */
    method DeleteHere(key: int, slot: nat)
      requires Valid() && key in Model() && slot == SlotOf(table.View(), hf, pos, key)
      modifies this`pos, table`count, table`tombs, table.entries
      ensures Valid() && Model() == old(Model()) - {key}
    {
      RemovedOk(table.View(), hf, pos, key, slot);
      table.StoreSlot(slot, Tombstone, -1, 1);
      pos := pos - {key};
    }

    /** `ck_hs_remove`. */
    method Remove(h: nat, key: int) returns (found: Option<Object>)
      requires Valid() && h == hf(key)
      modifies this`pos, table`count, table`tombs, table.entries
      ensures Valid()
      ensures found == if key in old(Model()) then Some(old(Model())[key]) else None
      ensures Model() == old(Model()) - {key}
    {
      var limit := table.BoundGet(h);
      var slot, n, first, f, p := table.MapProbe(h, key, limit, Probe);
      found := f;
      ProbeDecides(table.View(), hf, pos, key, limit, slot, n, first, found, p);
      if found != None { DeleteHere(key, slot.value); }
    }

    /** One slot of the loop of `ck_hs_grow`. */
    method RehashOne(update: Map, ghost upos: map<int, nat>, k: nat) returns (fits: bool, ghost upos': map<int, nat>)
      requires Valid() && update.Wf() && update.Laid() && update != table && update.entries != table.entries
      requires update.bound != null ==> update.bound != table.bound
      requires Ok(update.View(), hf, upos) && Counted(update.View(), upos) && k < table.entries.Length
      requires Moved(table.View(), hf, pos, update.View(), upos, k)
      modifies update, update.entries, update.bound
      ensures table.View() == old(table.View()) && update.Wf()
      ensures fits ==> Ok(update.View(), hf, upos') && Counted(update.View(), upos')
      ensures fits ==> Moved(old(table.View()), hf, pos, update.View(), upos', k + 1)
      ensures !fits ==> !Roomy(update.entries.Length, table.count)
    {
      ghost var t, u := table.View(), update.View();
      var val := table.entries[k];
      fits, upos' := true, upos;
      if val.Full? {
        var h := hf(val.obj.key);
        var room, s, n := update.FirstEmpty(h);
        if room {
          MoveOne(t, hf, pos, u, upos, k, val.obj, n);
          update.BoundSet(h, n);
          update.StoreSlot(s, val, 1, 0);
          upos' := upos[val.obj.key := n];
        } else {
          update.LaidIsSized();
          NoRoom(t, hf, pos, u, upos, k, val.obj);
        }
        fits := room;
      } else {
        SkipOne(t, hf, pos, u, upos, k);
      }
      assert table.View() == t;
    }

    /** The loop of `ck_hs_grow`: everything this table holds goes into the new one, unless the probe
      limit is hit. */
    method Rehash(update: Map) returns (fits: bool, ghost upos: map<int, nat>)
      requires Valid() && update.Wf() && update.Laid() && update != table && update.entries != table.entries
      requires update.bound != null ==> update.bound != table.bound
      requires forall i | 0 <= i < update.entries.Length :: update.entries[i] == Empty
      requires update.count == 0 && update.tombs == 0
      modifies update, update.entries, update.bound
      ensures Valid() && Model() == old(Model())
      ensures update.Wf()
      ensures fits ==> Ok(update.View(), hf, upos) && Counted(update.View(), upos)
      ensures fits ==> HashTable.Model(update.View(), hf, upos) == Model()
      ensures table.count == old(table.count) && (!fits ==> !Roomy(update.entries.Length, table.count))
    {
      ghost var t := table.View();
      EmptyOk(update.View(), hf);
      upos := map[];
      fits := true;
      var k := 0;
      while k < table.entries.Length
        invariant k <= table.entries.Length && fits && table.View() == t && update.Wf()
        invariant Ok(update.View(), hf, upos) && Counted(update.View(), upos)
        invariant Moved(t, hf, pos, update.View(), upos, k)
      {
        fits, upos := RehashOne(update, upos, k);
        if !fits { return; }
        k := k + 1;
      }
      MovedAll(t, hf, pos, update.View(), upos);
    }

    /** One attempt of `ck_hs_grow`. */
    method Attempt(capacity: nat) returns (memory: bool, fits: bool)
      requires Valid()
      modifies this`table, this`calls, this`pos
      ensures Valid() && Model() == old(Model()) && table.count == old(table.count)
      ensures calls == old(calls) + 1 && memory == malloc(old(calls))
      ensures fits ==> fresh(table) && fresh(table.entries) && (table.bound != null ==> fresh(table.bound))
      ensures fits ==> memory && table.entries.Length == Capacity(capacity) && table.count <= table.entries.Length
      ensures !fits ==> table == old(table) && pos == old(pos)
      ensures memory && !fits ==> !Roomy(Capacity(capacity), table.count)
    {
      memory, fits := malloc(calls), false;
      calls := calls + 1;
      if memory {
        var update := new Map(capacity, deletes);
        ghost var upos;
        fits, upos := Rehash(update);
        if fits {
          SameCount(table.View(), hf, pos, update.View(), upos);
          table, pos := update, upos;
        }
      }
    }

    /** `ck_hs_grow`, which makes at most 64 attempts: by then the doubled capacity is 0. */
    method Grow(capacity0: nat) returns (r: bool, ghost tries: nat)
      requires Valid() && capacity0 < WORD64
      modifies this`table, this`calls, this`pos
      ensures Valid() && Model() == old(Model()) && table.count == old(table.count)
      ensures r ==> fresh(table) && fresh(table.entries) && (table.bound != null ==> fresh(table.bound))
      ensures !r ==> table == old(table) && pos == old(pos)
      ensures Grows(Roomy, old(table.entries.Length), table.count, capacity0, malloc, old(calls), tries, r, table.entries.Length, calls)
    {
      ghost var len, n := table.entries.Length, table.count;
      var capacity := capacity0;
      r, tries := false, 0;
      while table.entries.Length <= capacity
        invariant Valid() && table == old(table) && pos == old(pos) && calls == old(calls) + tries && !r
        invariant Model() == old(Model()) && table.count == old(table.count)
        invariant capacity == Doubled(capacity0, tries) && tries <= 64
        invariant AllRestart(Roomy, len, n, capacity0, malloc, old(calls), tries)
        decreases 64 - tries
      {
        DoubledEnds(capacity0);
        var memory;
        memory, r := Attempt(capacity);
        if r || !memory { return; }
        assert Restarts(Roomy, len, n, capacity0, malloc, old(calls), tries);
        OneMore(Roomy, len, n, capacity0, malloc, old(calls), tries);
        capacity := capacity * 2 % WORD64;
        tries := tries + 1;
      }
    }

    /** A search that meets full slots only, up to the probe limit of the largest table, has met more
      entries than a line takes. */
    lemma FullIsMany(h: Hash)
      requires Valid() && FullBefore(table.View(), h, table.limit + 1)
      ensures table.entries.Length <= MOST
      ensures table.entries.Length == MOST ==> table.count > LINE
    {
      PowOrder(table.power, 31);
      Words();
      RoomAtMost(LINE + 1);
      table.LaidIsSized();
      if table.entries.Length == MOST { FullMeansMany(table.View(), hf, pos, h, LINE + 1); }
    }

    /** Twice the slots are asked for: there are at least as many afterwards, or else it is known why not. */
    method GrowTwice() returns (r: bool)
      requires Valid() && (table.entries.Length == MOST ==> table.count > LINE)
      modifies this`table, this`calls, this`pos
      ensures Valid() && Model() == old(Model()) && table.count == old(table.count) && calls >= old(calls)
      ensures r ==> fresh(table) && fresh(table.entries) && (table.bound != null ==> fresh(table.bound))
      ensures r ==> table.entries.Length >= 2 * old(table.entries.Length)
      ensures !r ==> table == old(table) && pos == old(pos) && Refused(old(calls))
    {
      ghost var k, len, at := table.power, table.entries.Length, calls;
      PowOrder(k, 31);
      Words();
      ghost var tries;
      r, tries := Grow(table.entries.Length * 2);
      if r {
        DoublingGrows(Roomy, k, table.count, malloc, at, tries, r, table.entries.Length, calls);
      } else if Suits(2 * len, table.count) {
        FirstFits(Roomy, len, table.count, 2 * len, malloc, at, tries, r, table.entries.Length, calls);
      }
    }

    /** What an insertion does that has found no place: the table becomes larger, so that trying again
      comes to an end. */
    method MoreRoom(h: nat) returns (r: bool)
      requires Valid() && h < WORD64 && FullBefore(table.View(), h, table.limit + 1)
      modifies this`table, this`calls, this`pos
      ensures Valid() && Model() == old(Model()) && calls >= old(calls)
      ensures r ==> fresh(table) && fresh(table.entries) && (table.bound != null ==> fresh(table.bound))
      ensures r ==> MOST - table.entries.Length < old(MOST - table.entries.Length) && old(table.entries.Length) <= MOST
      ensures !r ==> table == old(table) && pos == old(pos) && Refused(old(calls))
    {
      FullIsMany(h);
      r := GrowTwice();
    }

    /** `ck_hs_map_postinsert` after the count was raised: the set grows past half its capacity. */
    method PostInsert()
      requires Valid()
      modifies this`table, this`calls, this`pos
      ensures Valid() && Model() == old(Model()) && calls >= old(calls)
      ensures SameOrFresh()
      ensures table.count * 2 <= table.entries.Length || Refused(old(calls))
    {
      if table.count * 2 > table.entries.Length {
        var r := GrowTwice();
      }
    }

    /** `ck_hs_put_internal`: `ck_hs_put` with behavior Insertion; `ck_hs_put_unique`, whose caller
      knows that the key is absent, with StopAtTombstone. */
    method Put(h: nat, val: Object, behavior: Behavior) returns (r: bool)
      requires Valid() && h == hf(val.key) && !behavior.Probe?
      requires behavior.StopAtTombstone? ==> val.key !in Model()
      modifies this`table, this`calls, this`pos, table, table.entries, table.bound
      ensures Valid() && calls >= old(calls)
      ensures SameOrFresh()
      ensures r ==> val.key !in old(Model()) && Model() == old(Model())[val.key := val]
      ensures !r ==> Model() == old(Model()) && (val.key in old(Model()) || Refused(old(calls)))
    {
      while true
        invariant Valid() && Model() == old(Model()) && calls >= old(calls)
        invariant SameOrFresh()
        decreases MOST - table.entries.Length
      {
        var slot, n, first, found, p := table.MapProbe(h, val.key, table.limit, behavior);
        if slot == None && first == None {
          var g := MoreRoom(h);
          if !g { return false; }
        } else {
          ghost var t := table.View();
          if found != None {
            FoundMeansPresent(t, hf, pos, val.key, p);
            return false;
          }
          if !behavior.StopAtTombstone? { ProbeDecides(t, hf, pos, val.key, table.limit, slot, n, first, found, p); }
          InsertHere(slot, n, first, val, p);
          PostInsert();
          return true;
        }
      }
    }

    /** The end of an insertion: the first tombstone that the probe met, or else the empty slot that
      ended it, takes the new entry. */
    method InsertHere(slot: Option<nat>, n: nat, first: Option<nat>, val: Object, ghost p: nat)
      requires Valid() && val.key !in Model() && p > 0 && (slot.Some? || first.Some?)
      requires Probed(table.View(), hf(val.key), val.key, table.limit, slot, n, first, None, p)
      modifies this`pos, table`maximum, table`count, table`tombs, table.bound, table.entries
      ensures Valid() && Model() == old(Model())[val.key := val]
    {
      ghost var t := table.View();
      var s := if first.Some? then first.value else slot.value;
      InsertedOk(t, hf, pos, val, n, s);
      table.BoundSet(hf(val.key), n);
      if first.Some? { table.StoreSlot(s, Full(val), 1, -1); } else { table.StoreSlot(s, Full(val), 1, 0); }
      pos := pos[val.key := n];
    }

    /** A relocation: the first tombstone that the probe met takes the object, readers are signalled,
      and only then the old slot becomes a tombstone. */
    method RelocateHere(h: nat, slot: nat, n: nat, first: nat, val: Object)
      requires Valid() && h == hf(val.key) && val.key in pos && slot == SlotOf(table.View(), hf, pos, val.key)
      requires 0 < n <= pos[val.key] && At(table.View(), h, n) == Tombstone && FullBefore(table.View(), h, n)
      requires first == SlotAt(table.entries.Length, table.step, h, n)
      modifies this`pos, table`count, table`tombs, table`generation, table.entries
      ensures Valid() && Model() == old(Model())[val.key := val] && pos == old(pos)[val.key := n]
      ensures table.count == old(table.count) && table.tombs == old(table.tombs)
      ensures table.generation == old(table.generation)[h % 2 := old(table.generation)[h % 2] + 1]
    {
      RelocatedOk(table.View(), hf, pos, val, n, first, slot);
      table.StoreSlot(first, Full(val), 0, 0);
      table.Signal(h);
      table.StoreSlot(slot, Tombstone, 0, 0);
      pos := pos[val.key := n];
    }

    /** The replacement that `ck_hs_set`, `ck_hs_fas`, `ck_hs_apply` and `ck_hs_gc` share: into the
      slot itself, or by a relocation. No key moves away from the start of its sequence. */
    method ReplaceHere(h: nat, slot: nat, n: nat, first: Option<nat>, val: Object,
                       ghost found: Object, ghost limit: nat, ghost p: nat)
      requires Valid() && h == hf(val.key) && p > 0 && found.key == val.key
      requires Probed(table.View(), h, val.key, limit, Some(slot), n, first, Some(found), p)
      modifies this`pos, table`count, table`tombs, table`generation, table.entries
      ensures Valid() && Model() == old(Model())[val.key := val]
      ensures val.key in old(pos) && n <= old(pos)[val.key] <= Bound(old(table.View()), h)
      ensures pos == old(pos)[val.key := if first.None? then old(pos)[val.key] else n]
      ensures table.count == old(table.count) && table.tombs == old(table.tombs)
      ensures table.generation == if first.None? then old(table.generation)
                                  else old(table.generation)[h % 2 := old(table.generation)[h % 2] + 1]
    {
      FoundWithin(table.View(), hf, pos, val.key, limit, Some(slot), n, first, found, p);
      if first.Some? {
        RelocateHere(h, slot, n, first.value, val);
      } else {
        ReplacedOk(table.View(), hf, pos, val, slot);
        table.StoreSlot(slot, Full(val), 0, 0);
        assert pos == pos[val.key := pos[val.key]];
      }
    }

    /** The end of `ck_hs_set` and of `ck_hs_apply`: a modification or an insertion. */
    method Modify(h: nat, slot: Option<nat>, n: nat, first: Option<nat>, found: Option<Object>, val: Object, ghost p: nat)
      requires Valid() && h == hf(val.key) && p > 0 && (slot.Some? || first.Some?)
      requires Probed(table.View(), h, val.key, table.limit, slot, n, first, found, p)
      requires found == if val.key in Model() then Some(Model()[val.key]) else None
      modifies this`table, this`calls, this`pos, table, table.entries, table.bound
      ensures Valid() && SameOrFresh() && calls >= old(calls)
      ensures Model() == old(Model())[val.key := val]
    {
      if found == None {
        InsertHere(slot, n, first, val, p);
        PostInsert();
      } else {
        FoundWithin(table.View(), hf, pos, val.key, table.limit, slot, n, first, found.value, p);
        BoundSetCovers(table.View(), h, n);
        table.BoundSet(h, n);
        ReplaceHere(h, slot.value, n, first, val, found.value, table.limit, p);
      }
    }

    /** `ck_hs_fas`. */
    method FetchAndStore(h: nat, val: Object) returns (r: bool, previous: Option<Object>)
      requires Valid() && h == hf(val.key)
      modifies this`pos, table`count, table`tombs, table`generation, table.entries
      ensures Valid()
      ensures r <==> val.key in old(Model())
      ensures r ==> previous == Some(old(Model())[val.key]) && Model() == old(Model())[val.key := val]
      ensures !r ==> previous == None && Model() == old(Model())
    {
      var limit := table.BoundGet(h);
      var slot, n, first, found, p := table.MapProbe(h, val.key, limit, Probe);
      ProbeDecides(table.View(), hf, pos, val.key, limit, slot, n, first, found, p);
      previous := found;
      if found == None { return false, None; }
      ReplaceHere(h, slot.value, n, first, val, found.value, limit, p);
      r := true;
    }

    /** `ck_hs_set`. */
    method Assign(h: nat, val: Object) returns (r: bool, previous: Option<Object>)
      requires Valid() && h == hf(val.key)
      modifies this`table, this`calls, this`pos, table, table.entries, table.bound
      ensures Valid() && calls >= old(calls)
      ensures SameOrFresh()
      ensures r ==> Model() == old(Model())[val.key := val]
      ensures r ==> previous == if val.key in old(Model()) then Some(old(Model())[val.key]) else None
      ensures !r ==> Model() == old(Model()) && val.key !in old(Model()) && Refused(old(calls))
    {
      previous := None;
      while true
        invariant Valid() && Model() == old(Model()) && calls >= old(calls)
        invariant SameOrFresh()
        decreases MOST - table.entries.Length
      {
        var slot, n, first, found, p := table.MapProbe(h, val.key, table.limit, Insertion);
        ProbeDecides(table.View(), hf, pos, val.key, table.limit, slot, n, first, found, p);
        if slot == None && first == None {
          var g := MoreRoom(h);
          if !g { return false, None; }
        } else {
          Modify(h, slot, n, first, found, val, p);
          return true, found;
        }
      }
    }

    /** The end of `ck_hs_apply`: a removal, nothing, a modification or an insertion. */
    method ApplyHere(h: nat, key: int, slot: Option<nat>, n: nat, first: Option<nat>, found: Option<Object>,
                     delta: Option<Object>, ghost p: nat)
      requires Valid() && h == hf(key) && p > 0 && (slot.Some? || first.Some?)
      requires delta.Some? ==> delta.value.key == key
      requires Probed(table.View(), h, key, table.limit, slot, n, first, found, p)
      requires found == if key in Model() then Some(Model()[key]) else None
      modifies this`table, this`calls, this`pos, table, table.entries, table.bound
      ensures Valid() && SameOrFresh() && calls >= old(calls)
      ensures Model() == if delta.None? then old(Model()) - {key} else old(Model())[key := delta.value]
    {
      if delta == None {
        if found != None {
          FoundMeansPresent(table.View(), hf, pos, key, p);
          DeleteHere(key, slot.value);
        }
      } else if delta != found {
        Modify(h, slot, n, first, found, delta.value, p);
      }
    }

    /** `ck_hs_apply`: the function sees the present object, or none, and says what is to be there;
      what it returns must keep the key. */
    method Apply(h: nat, key: int, fn: Option<Object> -> Option<Object>) returns (r: bool)
      requires Valid() && h == hf(key)
      requires var d := fn(if key in Model() then Some(Model()[key]) else None); d.Some? ==> d.value.key == key
      modifies this`table, this`calls, this`pos, table, table.entries, table.bound
      ensures Valid() && calls >= old(calls)
      ensures SameOrFresh()
      ensures r ==> Model() == match fn(if key in old(Model()) then Some(old(Model())[key]) else None)
                               case None => old(Model()) - {key}
                               case Some(d) => old(Model())[key := d]
      ensures !r ==> Model() == old(Model()) && key !in old(Model()) && Refused(old(calls))
    {
      while true
        invariant Valid() && Model() == old(Model()) && calls >= old(calls)
        invariant SameOrFresh()
        decreases MOST - table.entries.Length
      {
        var slot, n, first, found, p := table.MapProbe(h, key, table.limit, Insertion);
        ProbeDecides(table.View(), hf, pos, key, table.limit, slot, n, first, found, p);
        if slot == None && first == None {
          var g := MoreRoom(h);
          if !g { return false; }
        } else {
          ApplyHere(h, key, slot, n, first, found, fn(found), p);
          return true;
        }
      }
    }

    /** One entry of `ck_hs_gc`: it moves to the first tombstone of its sequence, if one comes earlier. */
    method GcEntry(val: Object) returns (n: nat)
      requires Valid() && Full(val) in table.entries[..]
      modifies this`pos, table`count, table`tombs, table`generation, table.entries
      ensures Valid() && Model() == old(Model())
      ensures val.key in old(pos) && 0 < n <= old(pos)[val.key] <= Bound(old(table.View()), hf(val.key))
      ensures pos == old(pos)[val.key := n] && FullBefore(old(table.View()), hf(val.key), n)
      ensures table.count == old(table.count) && table.tombs == old(table.tombs)
    {
      var h, key := hf(val.key), val.key;
      ModelIsContents(table.View(), hf, pos, val);
      var limit := table.BoundGet(h);
      var slot, m, first, found, p := table.MapProbe(h, key, limit, Probe);
      ProbeDecides(table.View(), hf, pos, key, limit, slot, m, first, found, p);
      FoundWithin(table.View(), hf, pos, key, limit, slot, m, first, val, p);
      n := m;
      if first.Some? {
        RelocateHere(h, slot.value, n, first.value, val);
      }
      assert pos == old(pos)[val.key := n];
      assert Model() == old(Model())[val.key := val] == old(Model());
    }

    /** What the full scan notes for an entry found at position n. */
    static method Record(bounds: array?<nat>, h: nat, n: nat, maximum: nat) returns (m: nat)
      requires bounds != null ==> bounds.Length > 0
      modifies bounds
      ensures m == (if n > maximum then n else maximum) && Copy(bounds) == Raised(old(Copy(bounds)), h, n)
    {
      m := if n > maximum then n else maximum;
      if bounds != null {
        var c := if n > WORD_MAX then WORD_MAX else n;
        if c > bounds[h % bounds.Length] { bounds[h % bounds.Length] := c; }
      }
    }

    /** One iteration of `ck_hs_gc`: an entry in the slot is moved to the first tombstone of its sequence,
      if one comes earlier; a full scan also notes how far the entry reaches. */
    method SweepOne(full: bool, i: nat, seed: nat, bounds: array?<nat>, maximum: nat)
      returns (visited: bool, m: nat, ghost k: int, ghost n: nat)
      requires Valid() && i < table.entries.Length
      requires bounds != null ==> bounds != table.bound && bounds.Length > 0
      requires full ==> Swept(table.View(), hf, pos, seed, i, maximum, Copy(bounds))
      modifies this`pos, table`count, table`tombs, table`generation, table.entries, bounds
      ensures Valid() && Model() == old(Model()) && Earlier(old(pos), pos)
      ensures table.count == old(table.count) && table.tombs == old(table.tombs)
      ensures full ==> Swept(table.View(), hf, pos, seed, i + 1, m, Copy(bounds))
      ensures visited <==> old(table.entries[..])[(i + seed) % table.entries.Length].Full?
      ensures visited ==> k == old(table.entries[..])[(i + seed) % table.entries.Length].obj.key
      ensures visited ==> k in old(pos) && n <= old(pos)[k] && pos == old(pos)[k := n] && FullBefore(old(table.View()), hf(k), n)
      ensures !visited ==> pos == old(pos)
      ensures m == (if full && visited && n > maximum then n else maximum)
      ensures Copy(bounds) == if full && visited then Raised(old(Copy(bounds)), hf(k), n) else old(Copy(bounds))
    {
      m, k, n := maximum, 0, 0;
      ghost var t, pos0, b0 := table.View(), pos, Copy(bounds);
      var entry := table.entries[(i + seed) % table.entries.Length];
      visited := entry.Full?;
      if visited {
        k := entry.obj.key;
        ModelIsContents(t, hf, pos, entry.obj);
        assert Homed(t, hf, pos, (i + seed) % table.entries.Length);
        var at := GcEntry(entry.obj);
        n := at;
        if full {
          m := Record(bounds, hf(entry.obj.key), at, maximum);
          SweptOne(t, hf, pos0, seed, i, maximum, b0, k, n, table.View(), Copy(bounds));
        }
      } else if full {
        SweptNone(t, hf, pos, seed, i, m, b0);
      }
    }

    /** The loop of `ck_hs_gc`: a full scan (cycles is 0) finds bounds that cover every entry; otherwise
      that many entries are visited. */
    method Sweep(cycles0: nat, seed: nat, bounds: array?<nat>) returns (maximum: nat)
      requires Valid() && (bounds != null <==> cycles0 == 0 && deletes)
      requires bounds != null ==> bounds != table.bound && bounds.Length == table.entries.Length
      requires bounds != null ==> forall i | 0 <= i < bounds.Length :: bounds[i] == 0
      modifies this`pos, table`count, table`tombs, table`generation, table.entries, bounds
      ensures Valid() && Model() == old(Model()) && Earlier(old(pos), pos)
      ensures table.count == old(table.count) && table.tombs == old(table.tombs)
      ensures cycles0 > 0 ==> maximum == table.maximum
      ensures cycles0 == 0 ==> Swept(table.View(), hf, pos, seed, table.entries.Length, maximum, Copy(bounds))
      ensures cycles0 == 0 ==> Tight(old(pos), hf, maximum, Copy(bounds))
    {
      var cycles, i := cycles0, 0;
      maximum := if cycles == 0 then 0 else table.maximum;
      if cycles == 0 { AllPending(table.View(), hf, pos, seed, maximum, Copy(bounds)); }
      while i < table.entries.Length
        invariant Valid() && Model() == old(Model()) && Earlier(old(pos), pos) && i <= table.entries.Length
        invariant table.count == old(table.count) && table.tombs == old(table.tombs)
        invariant cycles == 0 <==> cycles0 == 0
        invariant cycles0 > 0 ==> maximum == table.maximum
        invariant cycles0 == 0 ==> Swept(table.View(), hf, pos, seed, i, maximum, Copy(bounds))
        invariant cycles0 == 0 ==> Tight(old(pos), hf, maximum, Copy(bounds))
      {
        ghost var pos0, max0, bounds0 := pos, maximum, Copy(bounds);
        var visited;
        ghost var k, n;
        visited, maximum, k, n := SweepOne(cycles == 0, i, seed, bounds, maximum);
        if visited && cycles0 == 0 { TightOne(old(pos), hf, max0, bounds0, k, n); }
        EarlierAlso(old(pos), pos0, pos);
        if visited && cycles > 0 {
          cycles := cycles - 1;
          if cycles == 0 { return; }
        }
        i := i + 1;
      }
    }

    /** `ck_hs_gc` on a set without entries. */
    method Clear()
      requires Valid() && table.count == 0
      modifies table`maximum, table.bound
      ensures Valid() && Model() == old(Model())
      ensures NoHigher(old(table.View()), table.View()) && Tight(pos, hf, table.maximum, table.View().bounds)
    {
      ghost var t := table.View();
      assert pos.Keys == {};
      table.ClearBounds();
      Rebounded(t, hf, pos, 0, table.View());
    }

    /** The end of `ck_hs_gc` after a full scan. */
    method Tighten(seed: nat, maximum: nat, bounds: array?<nat>)
      requires Valid() && (bounds != null ==> bounds != table.bound)
      requires Swept(table.View(), hf, pos, seed, table.entries.Length, maximum, Copy(bounds))
      modifies table`maximum, table.bound
      ensures Valid() && Model() == old(Model())
      ensures NoHigher(old(table.View()), table.View())
      ensures table.maximum == maximum && table.View().bounds == Copy(bounds)
    {
      ghost var t := table.View();
      table.InstallBounds(maximum, bounds);
      Rebounded(t, hf, pos, maximum, table.View());
    }

    /** `ck_hs_gc` over all entries. */
    method FullScan(seed: nat) returns (r: bool)
      requires Valid()
      modifies this`pos, this`calls, table, table.bound, table.entries
      ensures Valid() && Model() == old(Model()) && Earlier(old(pos), pos)
      ensures table.count == old(table.count) && table.tombs == old(table.tombs)
      ensures NoHigher(old(table.View()), table.View())
      ensures !r <==> deletes && !malloc(old(calls))
      ensures r ==> Tight(old(pos), hf, table.maximum, table.View().bounds)
    {
      var bounds: array?<nat> := null;
      if table.bound != null {
        calls := calls + 1;
        if !malloc(calls - 1) { return false; }
        bounds := new nat[table.entries.Length](_ => 0);
      }
      var maximum := Sweep(0, seed, bounds);
      Tighten(seed, maximum, bounds);
      r := true;
    }

    /** `ck_hs_gc`. The map and the counters stay, no entry moves later in its sequence and no bound
      rises. After a full scan no bound is higher than some entry needed before it. It fails only when it
      has no memory for the new bounds. */
    method Gc(cycles: nat, seed: nat) returns (r: bool)
      requires Valid()
      modifies this`pos, this`calls, table, table.bound, table.entries
      ensures Valid() && Model() == old(Model()) && Earlier(old(pos), pos)
      ensures table.count == old(table.count) && table.tombs == old(table.tombs)
      ensures NoHigher(old(table.View()), table.View())
      ensures !r <==> (old(table.count) != 0 && cycles == 0 && deletes && !malloc(old(calls)))
      ensures cycles > 0 && old(table.count) != 0 ==> SameBounds(old(table.View()), table.View())
      ensures r && (cycles == 0 || old(table.count) == 0) ==> Tight(old(pos), hf, table.maximum, table.View().bounds)
    {
      if table.count == 0 {
        Clear();
        r := true;
      } else if cycles == 0 {
        r := FullScan(seed);
      } else {
        var maximum := Sweep(cycles, seed, null);
        table.InstallBounds(maximum, null);
        r := true;
      }
    }
  }
}
