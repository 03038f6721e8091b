/** `ck_hs_get` while one writer runs any mix of the other operations: src/ck_hs.c:104-126, 660-666,
  843-859 and 937-966.

  Each step of a run is one load or one store. The writer takes an operation up with the outcome of
  its probe, which no other thread can invalidate, and then performs its stores one at a time. A map
  that a grow or a reset has replaced stays as it was, since its memory may not be reused while a
  reader can hold it. */
module HashSetSpmc {
  import opened Prelude
  import Machine
  import opened HashTable
  import HashSet

  /** A table, its two generation counters, and the place of each key. */
  datatype Map = Map(t: Table, g0: nat, g1: nat, pos: map<int, nat>)

  /** An object to be stored at position n of its sequence, and the slot of the old copy, if another. */
  datatype Op = Op(o: Object, n: nat, bury: Option<nat>)

  /** What the writer is to store next. */
  datatype Writer =
    | Idle
    | RaiseMax(op: Op)
    | RaiseWord(op: Op)
    | Write(op: Op)
    | Signal(op: Op)
    | Bury(op: Op)
    | Lower(maximum: nat, bounds: Option<seq<nat>>, i: nat)

  /** The last map is the published one. `model` is the map from keys to objects that the set stands
    for; `base` and `bpos` are the table and places when the writer was last idle. */
  datatype Shared = Shared(maps: seq<Map>, model: map<int, Object>, w: Writer, base: Table, bpos: map<int, nat>)

  datatype Action =
    | Begin(op: Op, raise: bool)
    | Advance
    | Remove(key: int)
    | BeginLower(maximum: nat, bounds: Option<seq<nat>>)
    | Publish(u: Table, upos: map<int, nat>)

  ghost function Cur(m: Shared): Map
    requires |m.maps| > 0
  {
    m.maps[|m.maps| - 1]
  }

  ghost function SetCur(m: Shared, x: Map): Shared
    requires |m.maps| > 0
  {
    m.(maps := m.maps[|m.maps| - 1 := x])
  }

  ghost function Gen(x: Map, h: nat): nat {
    if h % 2 == 0 then x.g0 else x.g1
  }

  ghost function Bumped(x: Map, h: nat): Map {
    if h % 2 == 0 then x.(g0 := x.g0 + 1) else x.(g1 := x.g1 + 1)
  }

  // ---------------------------------------------------------------- writer

  ghost function Target(b: Table, hf: int -> Hash, op: Op): nat
    requires Form(b) && op.n > 0
  {
    SlotAt(|b.slots|, b.step, hf(op.o.key), op.n)
  }

  /** What the writer's probe has shown about an operation before its first store. */
  ghost predicate OpOk(b: Table, hf: int -> Hash, pos: map<int, nat>, op: Op)
    requires Form(b)
  {
    var k, h := op.o.key, hf(op.o.key);
    && 0 < op.n <= b.limit && FullBefore(b, h, op.n)
    && match op.bury
       case None => if k in pos then op.n == pos[k] else !At(b, h, op.n).Full?
       case Some(s) =>
         && k in pos && pos[k] > 0 && op.n < pos[k] && At(b, h, op.n) == Tombstone
         && s == SlotAt(|b.slots|, b.step, h, pos[k])
  }

  ghost predicate CanAct(m: Shared, hf: int -> Hash, a: Action) {
    && |m.maps| > 0
    && match a
       case Begin(op, raise) => m.w.Idle? && Form(m.base) && OpOk(m.base, hf, m.bpos, op) && (!raise ==> op.o.key in m.bpos)
       case Advance => !m.w.Idle?
       case Remove(k) => m.w.Idle? && k in m.bpos
       case BeginLower(x, bounds) => m.w.Idle? && Shape(m.base) && Lowers(m.base, hf, m.bpos, x, bounds)
       case Publish(u, upos) => m.w.Idle? && Ok(u, hf, upos) && (Model(u, hf, upos) == m.model || Model(u, hf, upos) == map[])
  }

  /** What the scan of `ck_hs_gc` has shown about the bounds that it is about to store. */
  ghost predicate Lowers(b: Table, hf: int -> Hash, pos: map<int, nat>, x: nat, bounds: Option<seq<nat>>)
    requires Shape(b)
  {
    && HashSet.Lower(b, x, bounds)
    && forall k | k in pos :: HashSet.Covers(bounds, x, hf(k), pos[k])
  }

  ghost function Ended(m: Shared): Shared
    requires |m.maps| > 0
  {
    m.(w := Idle, base := Cur(m).t, bpos := Cur(m).pos)
  }

  ghost function StoreAt(m: Shared, s: nat, x: Slot, pos: map<int, nat>): Shared
    requires |m.maps| > 0
  {
    var c := Cur(m);
    if s < |c.t.slots| then SetCur(m, c.(t := Store(c.t, s, x), pos := pos)) else m
  }

  /** One store of the writer. */
  ghost function Act(m: Shared, hf: int -> Hash, a: Action): Shared
    requires CanAct(m, hf, a)
  {
    match a
    case Begin(op, raise) => m.(w := if raise then RaiseMax(op) else Write(op))
    case Remove(k) =>
      if Form(m.base) && m.bpos[k] > 0 then
        Ended(StoreAt(m.(model := m.model - {k}), SlotAt(|m.base.slots|, m.base.step, hf(k), m.bpos[k]), Tombstone, m.bpos - {k}))
      else m
    case BeginLower(x, bounds) => SetCur(m, Cur(m).(t := Cur(m).t.(maximum := x))).(w := Lower(x, bounds, 0))
    case Publish(u, upos) => m.(maps := m.maps + [Map(u, 0, 0, upos)], model := Model(u, hf, upos), base := u, bpos := upos)
    case Advance => Proceed(m, hf)
  }

  ghost function Proceed(m: Shared, hf: int -> Hash): Shared
    requires |m.maps| > 0
  {
    var c := Cur(m);
    match m.w
    case Idle => m
    case RaiseMax(op) =>
      SetCur(m, c.(t := c.t.(maximum := if op.n > c.t.maximum then op.n else c.t.maximum))).(w := RaiseWord(op))
    case RaiseWord(op) =>
      if c.t.bounds.Some? && |c.t.bounds.value| == |c.t.slots| > 0 && c.t.bounds.value[hf(op.o.key) % |c.t.slots|] < op.n then
        SetCur(m, c.(t := c.t.(bounds := Some(c.t.bounds.value[hf(op.o.key) % |c.t.slots| :=
                                                             if op.n > WORD_MAX then WORD_MAX else op.n])))).(w := Write(op))
      else m.(w := Write(op))
    case Write(op) =>
      if !Form(c.t) || op.n == 0 then m else
        var m' := m.(model := m.model[op.o.key := op.o]);
        if op.bury.Some? then StoreAt(m', Target(c.t, hf, op), Full(op.o), c.pos).(w := Signal(op))
        else Ended(StoreAt(m', Target(c.t, hf, op), Full(op.o), c.pos[op.o.key := op.n]))
    case Signal(op) =>
      SetCur(m, Bumped(c, hf(op.o.key)).(pos := c.pos[op.o.key := op.n])).(w := Bury(op))
    case Bury(op) => if op.bury.Some? then Ended(StoreAt(m, op.bury.value, Tombstone, c.pos)) else m
    case Lower(x, bounds, i) =>
      if bounds.Some? && c.t.bounds.Some? && i < |bounds.value| == |c.t.bounds.value| then
        SetCur(m, c.(t := c.t.(bounds := Some(c.t.bounds.value[i := bounds.value[i]])))).(w := Lower(x, bounds, i + 1))
      else Ended(m)
  }

  /** The outcome of a probe, as src/ck_hs.c has it, is what an operation needs: an insertion, a
    replacement in place or a relocation. */
  lemma ProbeGivesOp(b: Table, hf: int -> Hash, pos: map<int, nat>, o: Object, limit: nat, slot: Option<nat>, n: nat,
                     first: Option<nat>, found: Option<Object>, p: nat)
    requires Ok(b, hf, pos) && limit <= b.limit
    requires p > 0 && HashSet.Probed(b, hf(o.key), o.key, limit, slot, n, first, found, p)
    requires slot.None? ==> p > Bound(b, hf(o.key)) && first.Some?
    ensures OpOk(b, hf, pos, Op(o, n, if found.Some? && first.Some? then slot else None))
    ensures found.Some? <==> o.key in pos
  {
    HashSet.ProbeDecides(b, hf, pos, o.key, limit, slot, n, first, found, p);
    if found.Some? {
      HashSet.FoundWithin(b, hf, pos, o.key, limit, slot, n, first, found.value, p);
    }
  }

  // ---------------------------------------------------------------- invariant of the shared memory

  ghost function Written(b: Table, hf: int -> Hash, op: Op): Table
    requires Shape(b) && op.n > 0
  {
    Store(BoundSet(b, hf(op.o.key), op.n), Target(b, hf, op), Full(op.o))
  }

  ghost function Mixed(old_: Option<seq<nat>>, new_: Option<seq<nat>>, i: nat): Option<seq<nat>> {
    if old_.Some? && new_.Some? && i <= |old_.value| == |new_.value| then Some(new_.value[..i] + old_.value[i..]) else old_
  }

  /** How far the published map has come from the table at the start of the operation. */
  ghost predicate Staged(m: Shared, hf: int -> Hash)
    requires |m.maps| > 0 && Ok(m.base, hf, m.bpos)
  {
    var t, pos, b, was := Cur(m).t, Cur(m).pos, m.base, Model(m.base, hf, m.bpos);
    match m.w
    case Idle => t == b && pos == m.bpos && m.model == was
    case RaiseMax(op) => t == b && pos == m.bpos && m.model == was && OpOk(b, hf, m.bpos, op)
    case RaiseWord(op) =>
      && t == b.(maximum := if op.n > b.maximum then op.n else b.maximum) && pos == m.bpos && m.model == was
      && OpOk(b, hf, m.bpos, op)
    case Write(op) => OpOk(b, hf, m.bpos, op) && t == BoundSet(b, hf(op.o.key), op.n) && pos == m.bpos && m.model == was
    case Signal(op) =>
      && OpOk(b, hf, m.bpos, op) && op.bury.Some? && t == Written(b, hf, op) && pos == m.bpos
      && m.model == was[op.o.key := op.o]
    case Bury(op) =>
      && OpOk(b, hf, m.bpos, op) && op.bury.Some? && t == Written(b, hf, op) && pos == m.bpos[op.o.key := op.n]
      && m.model == was[op.o.key := op.o]
    case Lower(x, bounds, i) =>
      && t == b.(maximum := x, bounds := Mixed(b.bounds, bounds, i)) && pos == m.bpos && m.model == was
      && Lowers(b, hf, m.bpos, x, bounds) && (if bounds.Some? then i <= |bounds.value| else i == 0)
  }

  /** A search finds k at its place: the slot holds it, nothing empty comes before, and the bound that
    a reader computes from the two loads of `ck_hs_map_bound_get` reaches that far. */
  ghost predicate Sits(x: Map, hf: int -> Hash, k: int)
    requires Form(x.t) && k in x.pos
  {
    var p, h := x.pos[k], hf(k);
    && p > 0 && At(x.t, h, p).Full? && At(x.t, h, p).obj.key == k && NoEmptyBefore(x.t, h, p)
    && p <= x.t.maximum && (x.t.bounds.Some? ==> Word(x.t, h) == WORD_MAX || p <= Word(x.t, h))
  }

  ghost function Word(t: Table, h: nat): nat
    requires Form(t) && t.bounds.Some?
  {
    t.bounds.value[h % |t.slots|]
  }

  ghost predicate Readable(x: Map, hf: int -> Hash) {
    Form(x.t) && forall k | k in x.pos :: Sits(x, hf, k)
  }

  ghost predicate SharedInv(m: Shared, hf: int -> Hash) {
    && |m.maps| > 0 && Ok(m.base, hf, m.bpos) && Staged(m, hf)
    && forall i | 0 <= i < |m.maps| - 1 :: Readable(m.maps[i], hf)
  }

  /** Two copies of k are stored: the old one is still to be replaced by a tombstone. */
  ghost predicate Moving(m: Shared, k: int) {
    (m.w.Signal? || m.w.Bury?) && m.w.op.o.key == k && m.w.op.bury.Some?
  }

  /** Every object stored in the published map is current, except an old copy during a relocation. */
  ghost predicate Current(m: Shared, s: nat)
    requires |m.maps| > 0 && s < |Cur(m).t.slots|
  {
    Cur(m).t.slots[s].Full? ==>
      var x := Cur(m).t.slots[s].obj;
      && x.key in m.model
      && (x == m.model[x.key] || (Moving(m, x.key) && s == m.w.op.bury.value))
  }

  /** A search under the hash of a moving key meets the new copy before the old one. */
  ghost predicate NewFirst(m: Shared, hf: int -> Hash, k: int)
    requires |m.maps| > 0 && Form(Cur(m).t) && Moving(m, k)
  {
    var t, op := Cur(m).t, m.w.op;
    && op.n > 0 && op.bury.value < |t.slots|
    && At(t, hf(k), op.n).Full? && At(t, hf(k), op.n).obj.key == k
    && forall q: nat | 0 < q <= op.n :: SlotAt(|t.slots|, t.step, hf(k), q) != op.bury.value
  }

  lemma BaseSits(m: Shared, hf: int -> Hash, k: int)
    requires |m.maps| > 0 && Ok(m.base, hf, m.bpos) && Staged(m, hf) && k in m.bpos
    requires m.w.Idle? || m.w.RaiseMax? || m.w.RaiseWord? || m.w.Write?
    ensures Form(Cur(m).t) && k in Cur(m).pos && Sits(Cur(m), hf, k)
  {
    var t, b := Cur(m).t, m.base;
    assert Placed(b, hf, k, m.bpos[k]);
    assert hf(k) % |b.slots| < |b.slots|;
    forall q: nat | 0 < q < m.bpos[k] ensures At(t, hf(k), q) != Empty { assert At(b, hf(k), q) != Empty; }
  }

  lemma LoweredSits(m: Shared, hf: int -> Hash, k: int)
    requires |m.maps| > 0 && Ok(m.base, hf, m.bpos) && Staged(m, hf) && k in m.bpos && m.w.Lower?
    ensures Form(Cur(m).t) && k in Cur(m).pos && Sits(Cur(m), hf, k)
  {
    var t, b := Cur(m).t, m.base;
    assert Placed(b, hf, k, m.bpos[k]);
    assert HashSet.Covers(m.w.bounds, m.w.maximum, hf(k), m.bpos[k]);
    assert hf(k) % |b.slots| < |b.slots|;
    forall q: nat | 0 < q < m.bpos[k] ensures At(t, hf(k), q) != Empty { assert At(b, hf(k), q) != Empty; }
  }

  lemma MovingSits(m: Shared, hf: int -> Hash, k: int)
    requires |m.maps| > 0 && Ok(m.base, hf, m.bpos) && Staged(m, hf) && k in m.bpos && (m.w.Signal? || m.w.Bury?)
    ensures Form(Cur(m).t) && k in Cur(m).pos && Sits(Cur(m), hf, k)
  {
    var t, b, op := Cur(m).t, m.base, m.w.op;
    assert Placed(b, hf, k, m.bpos[k]) && Placed(b, hf, op.o.key, m.bpos[op.o.key]);
    BoundSetCovers(b, hf(op.o.key), op.n);
    assert hf(k) % |b.slots| < |b.slots|;
    forall q: nat | 0 < q < Cur(m).pos[k] ensures At(t, hf(k), q) != Empty { assert At(b, hf(k), q) != Empty; }
  }

  /** Every key of the published map can be found in it, whatever the writer is doing. */
  lemma CurReadable(m: Shared, hf: int -> Hash)
    requires SharedInv(m, hf)
    ensures Readable(Cur(m), hf) && Cur(m).pos.Keys == m.model.Keys
  {
    forall k | k in m.bpos ensures Form(Cur(m).t) && k in Cur(m).pos && Sits(Cur(m), hf, k) {
      if m.w.Lower? {
        LoweredSits(m, hf, k);
      } else if m.w.Signal? || m.w.Bury? {
        MovingSits(m, hf, k);
      } else {
        BaseSits(m, hf, k);
      }
    }
    assert Cur(m).pos.Keys == m.bpos.Keys;
    assert Form(Cur(m).t);
  }

  lemma CurCurrent(m: Shared, hf: int -> Hash, s: nat)
    requires SharedInv(m, hf) && s < |Cur(m).t.slots|
    ensures Current(m, s)
  {
    var t, b := Cur(m).t, m.base;
    if t.slots[s].Full? {
      var x := t.slots[s].obj;
      assert s < |b.slots|;
      assert Homed(b, hf, m.bpos, s);
      if b.slots[s] == Full(x) {
        ModelIsContents(b, hf, m.bpos, x);
        if (m.w.Signal? || m.w.Bury?) && m.w.op.o.key == x.key {
          assert Placed(b, hf, x.key, m.bpos[x.key]);
        }
      }
    }
  }

  lemma CurNewFirst(m: Shared, hf: int -> Hash, k: int)
    requires SharedInv(m, hf) && Moving(m, k)
    ensures Form(Cur(m).t) && NewFirst(m, hf, k) && k in m.model
    ensures Cur(m).t.slots[m.w.op.bury.value].Full? && Cur(m).t.slots[m.w.op.bury.value].obj.key == k
  {
    assert Placed(m.base, hf, k, m.bpos[k]);
  }

  // ---------------------------------------------------------------- every store keeps it

  /** The maps before the last one are as they were. */
  ghost predicate SameOld(m: Shared, m': Shared) {
    |m'.maps| == |m.maps| > 0 && forall i | 0 <= i < |m.maps| - 1 :: m'.maps[i] == m.maps[i]
  }

  lemma WriteKeeps(m: Shared, hf: int -> Hash)
    requires SharedInv(m, hf) && m.w.Write?
    ensures SharedInv(Proceed(m, hf), hf) && SameOld(m, Proceed(m, hf))
  {
    var op, b, t := m.w.op, m.base, Cur(m).t;
    var k := op.o.key;
    var t' := Written(b, hf, op);
    BoundSetCovers(b, hf(k), op.n);
    if op.bury.None? {
      if k in m.bpos {
        assert Placed(b, hf, k, m.bpos[k]);
        Replace(b, hf, m.bpos, op.o, t');
        assert m.bpos[k := op.n] == m.bpos;
      } else {
        Insert(b, hf, m.bpos, op.o, op.n, t');
      }
    }
  }

  lemma BuryKeeps(m: Shared, hf: int -> Hash)
    requires SharedInv(m, hf) && m.w.Bury?
    ensures SharedInv(Proceed(m, hf), hf) && SameOld(m, Proceed(m, hf))
  {
    var op, b := m.w.op, m.base;
    var k := op.o.key;
    assert Placed(b, hf, k, m.bpos[k]);
    BoundSetCovers(b, hf(k), op.n);
    Relocate(b, hf, m.bpos, op.o, op.n, Store(Written(b, hf, op), op.bury.value, Tombstone));
  }

  lemma LowerKeeps(m: Shared, hf: int -> Hash)
    requires SharedInv(m, hf) && m.w.Lower?
    ensures SharedInv(Proceed(m, hf), hf) && SameOld(m, Proceed(m, hf))
  {
    var b, x, bounds, i := m.base, m.w.maximum, m.w.bounds, m.w.i;
    if bounds.Some? && i < |bounds.value| {
      var old_, new_ := b.bounds.value, bounds.value;
      assert (new_[..i] + old_[i..])[i := new_[i]] == new_[..i + 1] + old_[i + 1..];
    } else {
      if bounds.Some? { assert bounds.value[..i] + b.bounds.value[i..] == bounds.value; }
      HashSet.CoversReplace(b, hf, m.bpos, x, Cur(m).t);
    }
  }

  lemma RaiseKeeps(m: Shared, hf: int -> Hash)
    requires SharedInv(m, hf) && (m.w.RaiseMax? || m.w.RaiseWord?)
    ensures SharedInv(Proceed(m, hf), hf) && SameOld(m, Proceed(m, hf))
  {
    assert hf(m.w.op.o.key) % |m.base.slots| < |m.base.slots|;
  }

  lemma SignalKeeps(m: Shared, hf: int -> Hash)
    requires SharedInv(m, hf) && m.w.Signal?
    ensures SharedInv(Proceed(m, hf), hf) && SameOld(m, Proceed(m, hf))
  {
  }

  lemma ProceedKeeps(m: Shared, hf: int -> Hash)
    requires SharedInv(m, hf) && !m.w.Idle?
    ensures SharedInv(Proceed(m, hf), hf) && SameOld(m, Proceed(m, hf))
  {
    match m.w
    case RaiseMax(_) => RaiseKeeps(m, hf);
    case RaiseWord(_) => RaiseKeeps(m, hf);
    case Write(_) => WriteKeeps(m, hf);
    case Signal(_) => SignalKeeps(m, hf);
    case Bury(_) => BuryKeeps(m, hf);
    case Lower(_, _, _) => LowerKeeps(m, hf);
  }

  lemma RemoveKeeps(m: Shared, hf: int -> Hash, k: int)
    requires SharedInv(m, hf) && CanAct(m, hf, Action.Remove(k))
    ensures SharedInv(Act(m, hf, Action.Remove(k)), hf) && SameOld(m, Act(m, hf, Action.Remove(k)))
  {
    var b := m.base;
    assert Placed(b, hf, k, m.bpos[k]);
    HashTable.Remove(b, hf, m.bpos, k, Store(b, SlotAt(|b.slots|, b.step, hf(k), m.bpos[k]), Tombstone));
  }

  lemma BeginKeeps(m: Shared, hf: int -> Hash, op: Op, raise: bool)
    requires SharedInv(m, hf) && CanAct(m, hf, Begin(op, raise))
    ensures SharedInv(Act(m, hf, Begin(op, raise)), hf)
  {
    if op.o.key in m.bpos { assert Placed(m.base, hf, op.o.key, m.bpos[op.o.key]); }
    BoundSetCovers(m.base, hf(op.o.key), op.n);
  }

  lemma BeginLowerKeeps(m: Shared, hf: int -> Hash, x: nat, bounds: Option<seq<nat>>)
    requires SharedInv(m, hf) && CanAct(m, hf, BeginLower(x, bounds))
    ensures SharedInv(Act(m, hf, BeginLower(x, bounds)), hf) && SameOld(m, Act(m, hf, BeginLower(x, bounds)))
  {
    if bounds.Some? { assert bounds.value[..0] + m.base.bounds.value[0..] == m.base.bounds.value; }
  }

  lemma PublishKeeps(m: Shared, hf: int -> Hash, u: Table, upos: map<int, nat>)
    requires SharedInv(m, hf) && CanAct(m, hf, Publish(u, upos))
    ensures SharedInv(Act(m, hf, Publish(u, upos)), hf)
  {
    CurReadable(m, hf);
  }

  /** Whatever the writer does, the published map holds what it should at every single store. */
  lemma ActKeeps(m: Shared, hf: int -> Hash, a: Action)
    requires SharedInv(m, hf) && CanAct(m, hf, a)
    ensures SharedInv(Act(m, hf, a), hf)
  {
    match a
    case Begin(op, raise) => BeginKeeps(m, hf, op, raise);
    case Advance => ProceedKeeps(m, hf);
    case Remove(k) => RemoveKeeps(m, hf, k);
    case BeginLower(x, bounds) => BeginLowerKeeps(m, hf, x, bounds);
    case Publish(u, upos) => PublishKeeps(m, hf, u, upos);
  }

  // ---------------------------------------------------------------- readers

  datatype Pc =
    | LoadMap
    | LoadGen(mi: nat)
    | LoadWord(mi: nat, g: nat)
    | LoadMax(mi: nat, g: nat)
    | Scan(mi: nat, g: nat, b: nat, p: nat)
    | Check(mi: nat, g: nat, res: Option<Object>)
    | Done(res: Option<Object>)

  /** One call of `ck_hs_get`. `absent` and `seen` record what was true of the key since the call
    began: that there was an instant at which the set did not hold it, and which objects it had. */
  datatype Reader = Reader(key: int, pc: Pc, absent: bool, seen: set<Object>)

  /** One load of the call: a search position is a slot, and the bound is loaded in two parts. */
  ghost function Get(m: Shared, hf: int -> Hash, r: Reader): Pc
    requires |m.maps| > 0
  {
    var k, h := r.key, hf(r.key);
    match r.pc
    case LoadMap => LoadGen(|m.maps| - 1)
    case LoadGen(mi) => if mi < |m.maps| then LoadWord(mi, Gen(m.maps[mi], h)) else r.pc
    case LoadWord(mi, g) =>
      if mi >= |m.maps| || !Form(m.maps[mi].t) then r.pc
      else if m.maps[mi].t.bounds.Some? && Word(m.maps[mi].t, h) != WORD_MAX then Scan(mi, g, Word(m.maps[mi].t, h), 1)
      else LoadMax(mi, g)
    case LoadMax(mi, g) => if mi < |m.maps| then Scan(mi, g, m.maps[mi].t.maximum, 1) else r.pc
    case Scan(mi, g, b, p) =>
      if mi >= |m.maps| || !Form(m.maps[mi].t) || p == 0 then r.pc
      else if p - 1 == b then Check(mi, g, None)
      else
        var val := At(m.maps[mi].t, h, p);
        if val == Empty then Check(mi, g, None)
        else if val.Full? && val.obj.key == k then Check(mi, g, Some(val.obj))
        else Scan(mi, g, b, p + 1)
    case Check(mi, g, res) =>
      if mi >= |m.maps| then r.pc else if Gen(m.maps[mi], h) == g then Done(res) else LoadMap
    case Done(_) => r.pc
  }

  ghost function Began(m: Shared, key: int): Reader {
    Reader(key, LoadMap, key !in m.model, if key in m.model then {m.model[key]} else {})
  }

  /** What a call in progress has lived through when the set is as m has it. */
  ghost function Observe(m: Shared, r: Reader): Reader {
    if r.pc.Done? then r
    else r.(absent := r.absent || r.key !in m.model, seen := r.seen + if r.key in m.model then {m.model[r.key]} else {})
  }

  /** The history of a call includes the present. */
  ghost predicate Watched(m: Shared, r: Reader) {
    r.pc.Done? || ((r.absent || r.key in m.model) && (r.key in m.model ==> m.model[r.key] in r.seen))
  }

  /** An object of the key in slot s has been current, unless it is the old copy of a relocation. */
  ghost predicate SlotSeen(m: Shared, r: Reader, mi: nat, s: nat)
    requires mi < |m.maps| && s < |m.maps[mi].t.slots|
  {
    var v := m.maps[mi].t.slots[s];
    v.Full? && v.obj.key == r.key ==>
      v.obj in r.seen || (mi == |m.maps| - 1 && Moving(m, r.key) && s == m.w.op.bury.value)
  }

  /** That old copy has been current too, or the search is yet to meet the new one. */
  ghost predicate OldSeen(m: Shared, r: Reader, mi: nat, p: nat)
    requires mi < |m.maps|
  {
    mi == |m.maps| - 1 && Moving(m, r.key) && m.w.op.bury.value < |m.maps[mi].t.slots| ==>
      p <= m.w.op.n || var v := m.maps[mi].t.slots[m.w.op.bury.value]; v.Full? && v.obj in r.seen
  }

  ghost predicate OnMap(m: Shared, r: Reader, mi: nat, p: nat) {
    && mi < |m.maps| && (r.absent || r.key in m.maps[mi].pos)
    && (forall s: nat | s < |m.maps[mi].t.slots| :: SlotSeen(m, r, mi, s))
    && OldSeen(m, r, mi, p)
  }

  /** What is known in the course of a call. Unless the key was absent or a relocation was signalled
    since the generation was loaded, its place is still ahead of the search and within the bound. */
  ghost predicate ReaderInv(m: Shared, hf: int -> Hash, r: Reader) {
    match r.pc
    case LoadMap => true
    case LoadGen(mi) => OnMap(m, r, mi, 1)
    case LoadWord(mi, g) => OnMap(m, r, mi, 1) && g <= Gen(m.maps[mi], hf(r.key))
    case LoadMax(mi, g) => OnMap(m, r, mi, 1) && g <= Gen(m.maps[mi], hf(r.key))
    case Scan(mi, g, b, p) =>
      && 0 < p <= b + 1 && OnMap(m, r, mi, p) && g <= Gen(m.maps[mi], hf(r.key))
      && (!r.absent && g == Gen(m.maps[mi], hf(r.key)) ==> p <= m.maps[mi].pos[r.key] <= b)
    case Check(mi, g, res) =>
      && mi < |m.maps| && g <= Gen(m.maps[mi], hf(r.key))
      && (match res case None => r.absent || g < Gen(m.maps[mi], hf(r.key)) case Some(o) => o.key == r.key && o in r.seen)
    case Done(res) => (match res case None => r.absent case Some(o) => o.key == r.key && o in r.seen)
  }

  lemma MapReadable(m: Shared, hf: int -> Hash, i: nat)
    requires SharedInv(m, hf) && i < |m.maps|
    ensures Readable(m.maps[i], hf)
  {
    CurReadable(m, hf);
  }

  lemma LoadMapKeeps(m: Shared, hf: int -> Hash, r: Reader)
    requires SharedInv(m, hf) && Watched(m, r) && r.pc.LoadMap?
    ensures ReaderInv(m, hf, r.(pc := Get(m, hf, r)))
  {
    CurReadable(m, hf);
    var r', mi := r.(pc := Get(m, hf, r)), |m.maps| - 1;
    forall s: nat | s < |m.maps[mi].t.slots| ensures SlotSeen(m, r', mi, s) { CurCurrent(m, hf, s); }
    if Moving(m, r.key) { CurNewFirst(m, hf, r.key); }
  }

  lemma BoundKeeps(m: Shared, hf: int -> Hash, r: Reader)
    requires SharedInv(m, hf) && Watched(m, r) && ReaderInv(m, hf, r)
    requires r.pc.LoadGen? || r.pc.LoadWord? || r.pc.LoadMax?
    ensures ReaderInv(m, hf, r.(pc := Get(m, hf, r)))
  {
    MapReadable(m, hf, r.pc.mi);
    var r', mi := r.(pc := Get(m, hf, r)), r.pc.mi;
    assert r.key in m.maps[mi].pos ==> Sits(m.maps[mi], hf, r.key);
    forall s: nat | s < |m.maps[mi].t.slots| ensures SlotSeen(m, r', mi, s) { assert SlotSeen(m, r, mi, s); }
  }

  /** A match that a search meets is an object that the key has had since the call began. */
  lemma MatchSeen(m: Shared, hf: int -> Hash, r: Reader, mi: nat, p: nat)
    requires SharedInv(m, hf) && OnMap(m, r, mi, p) && p > 0 && Form(m.maps[mi].t)
    requires At(m.maps[mi].t, hf(r.key), p).Full? && At(m.maps[mi].t, hf(r.key), p).obj.key == r.key
    ensures At(m.maps[mi].t, hf(r.key), p).obj in r.seen
  {
    assert SlotSeen(m, r, mi, SlotAt(|m.maps[mi].t.slots|, m.maps[mi].t.step, hf(r.key), p));
    if mi == |m.maps| - 1 && Moving(m, r.key) { CurNewFirst(m, hf, r.key); }
  }

  /** A search goes past a slot that does not match; the new copy of a moving key would have matched. */
  lemma GoesOn(m: Shared, hf: int -> Hash, r: Reader, r': Reader, mi: nat, p: nat)
    requires SharedInv(m, hf) && OnMap(m, r, mi, p) && p > 0 && Form(m.maps[mi].t)
    requires !(At(m.maps[mi].t, hf(r.key), p).Full? && At(m.maps[mi].t, hf(r.key), p).obj.key == r.key)
    requires r' == r.(pc := r'.pc)
    ensures OnMap(m, r', mi, p + 1)
  {
    if mi == |m.maps| - 1 && Moving(m, r.key) { CurNewFirst(m, hf, r.key); }
    forall i: nat | i < |m.maps[mi].t.slots| ensures SlotSeen(m, r', mi, i) { assert SlotSeen(m, r, mi, i); }
  }

  lemma ScanGoesOn(m: Shared, hf: int -> Hash, r: Reader)
    requires SharedInv(m, hf) && ReaderInv(m, hf, r) && r.pc.Scan? && Get(m, hf, r).Scan?
    ensures ReaderInv(m, hf, r.(pc := Get(m, hf, r)))
  {
    var mi, p := r.pc.mi, r.pc.p;
    MapReadable(m, hf, mi);
    assert r.key in m.maps[mi].pos ==> Sits(m.maps[mi], hf, r.key);
    GoesOn(m, hf, r, r.(pc := Get(m, hf, r)), mi, p);
  }

  lemma ScanEnds(m: Shared, hf: int -> Hash, r: Reader)
    requires SharedInv(m, hf) && ReaderInv(m, hf, r) && r.pc.Scan? && Get(m, hf, r).Check?
    ensures ReaderInv(m, hf, r.(pc := Get(m, hf, r)))
  {
    var mi, p := r.pc.mi, r.pc.p;
    MapReadable(m, hf, mi);
    if Get(m, hf, r).res.Some? {
      MatchSeen(m, hf, r, mi, p);
    } else {
      assert r.key in m.maps[mi].pos ==> Sits(m.maps[mi], hf, r.key);
    }
  }

  lemma ScanKeeps(m: Shared, hf: int -> Hash, r: Reader)
    requires SharedInv(m, hf) && ReaderInv(m, hf, r) && r.pc.Scan?
    ensures ReaderInv(m, hf, r.(pc := Get(m, hf, r)))
  {
    if Get(m, hf, r).Scan? { ScanGoesOn(m, hf, r); } else { ScanEnds(m, hf, r); }
  }

  /** Each step of a call keeps what is known. */
  lemma GetKeeps(m: Shared, hf: int -> Hash, r: Reader)
    requires SharedInv(m, hf) && Watched(m, r) && ReaderInv(m, hf, r)
    ensures ReaderInv(m, hf, r.(pc := Get(m, hf, r)))
  {
    match r.pc
    case LoadMap => LoadMapKeeps(m, hf, r);
    case Scan(_, _, _, _) => ScanKeeps(m, hf, r);
    case Check(_, _, _) =>
    case Done(_) =>
    case _ => BoundKeeps(m, hf, r);
  }

  // ---------------------------------------------------------------- readers beside the writer

  /** What a store of the writer may do, as a search for k in map i can tell. */
  ghost predicate MapRely(m: Shared, m': Shared, hf: int -> Hash, k: int, i: nat)
    requires i < |m.maps| <= |m'.maps|
  {
    var a, b := m.maps[i], m'.maps[i];
    && Gen(a, hf(k)) <= Gen(b, hf(k))
    && (k in a.pos ==> k !in m'.model || (k in b.pos && (b.pos[k] == a.pos[k] || Gen(a, hf(k)) < Gen(b, hf(k)))))
    && |b.t.slots| == |a.t.slots|
    && forall s: nat | s < |a.t.slots| :: SlotRely(m', a, b, k, s)
  }

  /** A slot that comes to hold an object of k comes to hold the current one. */
  ghost predicate SlotRely(m': Shared, a: Map, b: Map, k: int, s: nat)
    requires s < |a.t.slots| == |b.t.slots|
  {
    b.t.slots[s].Full? && b.t.slots[s].obj.key == k ==>
      b.t.slots[s] == a.t.slots[s] || (k in m'.model && b.t.slots[s].obj == m'.model[k])
  }

  ghost predicate Rely(m: Shared, m': Shared, hf: int -> Hash, k: int) {
    && 0 < |m.maps| <= |m'.maps|
    && (forall i: nat | i < |m.maps| :: MapRely(m, m', hf, k, i))
    && (Moving(m, k) || Moving(m', k) ==> |m'.maps| == |m.maps|)
    && MoveRely(m, m', k)
  }

  /** How a relocation of k begins, goes on and ends. */
  ghost predicate MoveRely(m: Shared, m': Shared, k: int)
    requires 0 < |m.maps| <= |m'.maps|
  {
    && (Moving(m, k) && Moving(m', k) ==> m'.w.op == m.w.op && SlotKept(Cur(m), Cur(m'), m.w.op.bury.value))
    && (!Moving(m, k) && Moving(m', k) ==>
          && k in m.model && m'.w.op.bury.value < |Cur(m').t.slots|
          && Cur(m').t.slots[m'.w.op.bury.value] == Full(m.model[k]))
    && (Moving(m, k) && !Moving(m', k) ==> m.w.op.bury.value < |Cur(m').t.slots| && !Cur(m').t.slots[m.w.op.bury.value].Full?)
  }

  ghost predicate SlotKept(a: Map, b: Map, s: nat) {
    s < |a.t.slots| == |b.t.slots| && b.t.slots[s] == a.t.slots[s]
  }

  lemma OnMapStays(m: Shared, m': Shared, hf: int -> Hash, r: Reader, mi: nat, p: nat)
    requires Rely(m, m', hf, r.key) && Watched(m, r) && !r.pc.Done? && OnMap(m, r, mi, p) && p > 0
    requires Moving(m', r.key) ==> m'.w.op.n > 0
    ensures OnMap(m', Observe(m', r), mi, p)
  {
    var r' := Observe(m', r);
    assert MapRely(m, m', hf, r.key, mi);
    forall s: nat | s < |m'.maps[mi].t.slots| ensures SlotSeen(m', r', mi, s) {
      assert SlotSeen(m, r, mi, s) && SlotRely(m', m.maps[mi], m'.maps[mi], r.key, s);
    }
  }

  /** Nothing that the writer does invalidates what a call knows. */
  lemma ReaderStays(m: Shared, m': Shared, hf: int -> Hash, r: Reader)
    requires Rely(m, m', hf, r.key) && Watched(m, r) && ReaderInv(m, hf, r)
    requires Moving(m', r.key) ==> m'.w.op.n > 0
    ensures Watched(m', Observe(m', r)) && ReaderInv(m', hf, Observe(m', r))
  {
    match r.pc
    case LoadMap =>
    case Done(_) =>
    case Check(mi, _, _) => assert MapRely(m, m', hf, r.key, mi);
    case Scan(mi, _, _, p) =>
      OnMapStays(m, m', hf, r, mi, p);
      assert MapRely(m, m', hf, r.key, mi);
    case _ =>
      OnMapStays(m, m', hf, r, r.pc.mi, 1);
      assert MapRely(m, m', hf, r.key, r.pc.mi);
  }

  lemma SameMapRely(m: Shared, m': Shared, hf: int -> Hash, k: int, i: nat)
    requires i < |m.maps| <= |m'.maps| && m'.maps[i] == m.maps[i]
    ensures MapRely(m, m', hf, k, i)
  {
  }

  /** The maps other than the last are as they were, so the last decides. */
  lemma CurRely(m: Shared, m': Shared, hf: int -> Hash, k: int)
    requires SameOld(m, m') && MapRely(m, m', hf, k, |m.maps| - 1) && MoveRely(m, m', k)
    ensures Rely(m, m', hf, k)
  {
    forall i: nat | i < |m.maps| ensures MapRely(m, m', hf, k, i) {
      if i < |m.maps| - 1 { SameMapRely(m, m', hf, k, i); }
    }
  }

  /** The store of an object makes it current. */
  lemma WriteSlots(m: Shared, hf: int -> Hash, k: int)
    requires SharedInv(m, hf) && m.w.Write?
    ensures var m' := Proceed(m, hf); SameOld(m, m') && MapRely(m, m', hf, k, |m.maps| - 1)
  {
    var m', op := Proceed(m, hf), m.w.op;
    if op.o.key in m.bpos { assert Placed(m.base, hf, op.o.key, m.bpos[op.o.key]); }
    BoundSetCovers(m.base, hf(op.o.key), op.n);
    assert |Cur(m').t.slots| == |Cur(m).t.slots|;
    forall s: nat | s < |Cur(m).t.slots| ensures SlotRely(m', Cur(m), Cur(m'), k, s) { WriteSlot(m, hf, k, s); }
  }

  lemma WriteSlot(m: Shared, hf: int -> Hash, k: int, s: nat)
    requires |m.maps| > 0 && m.w.Write? && s < |Cur(m).t.slots| == |Cur(Proceed(m, hf)).t.slots|
    ensures SlotRely(Proceed(m, hf), Cur(m), Cur(Proceed(m, hf)), k, s)
  {
  }

  lemma WriteRely(m: Shared, hf: int -> Hash, k: int)
    requires SharedInv(m, hf) && m.w.Write?
    ensures Rely(m, Proceed(m, hf), hf, k)
  {
    var op, b := m.w.op, m.base;
    WriteSlots(m, hf, k);
    BoundSetCovers(b, hf(op.o.key), op.n);
    if op.bury.Some? {
      assert Placed(b, hf, op.o.key, m.bpos[op.o.key]);
      ModelIsContents(b, hf, m.bpos, b.slots[op.bury.value].obj);
    }
    CurRely(m, Proceed(m, hf), hf, k);
  }

  lemma SignalRely(m: Shared, hf: int -> Hash, k: int)
    requires SharedInv(m, hf) && m.w.Signal?
    ensures Rely(m, Proceed(m, hf), hf, k)
  {
    var m' := Proceed(m, hf);
    SignalKeeps(m, hf);
    CurNewFirst(m, hf, m.w.op.o.key);
    forall s: nat | s < |Cur(m).t.slots| ensures SlotRely(m', Cur(m), Cur(m'), k, s) {}
    CurRely(m, m', hf, k);
  }

  lemma BuryRely(m: Shared, hf: int -> Hash, k: int)
    requires SharedInv(m, hf) && m.w.Bury?
    ensures Rely(m, Proceed(m, hf), hf, k)
  {
    var m' := Proceed(m, hf);
    BuryKeeps(m, hf);
    CurNewFirst(m, hf, m.w.op.o.key);
    forall s: nat | s < |Cur(m).t.slots| ensures SlotRely(m', Cur(m), Cur(m'), k, s) {}
    CurRely(m, m', hf, k);
  }

  /** A store of a bound changes nothing that a search in progress relies on. */
  lemma BoundRely(m: Shared, m': Shared, hf: int -> Hash, k: int)
    requires SameOld(m, m') && m'.model == m.model && !Moving(m, k) && !Moving(m', k)
    requires Cur(m').t.slots == Cur(m).t.slots && Cur(m').pos == Cur(m).pos
    requires Cur(m').g0 == Cur(m).g0 && Cur(m').g1 == Cur(m).g1
    ensures Rely(m, m', hf, k)
  {
    forall s: nat | s < |Cur(m).t.slots| ensures SlotRely(m', Cur(m), Cur(m'), k, s) {}
    CurRely(m, m', hf, k);
  }

  lemma RemoveRely(m: Shared, hf: int -> Hash, key: int, k: int)
    requires SharedInv(m, hf) && CanAct(m, hf, Action.Remove(key))
    ensures Rely(m, Act(m, hf, Action.Remove(key)), hf, k)
  {
    var m' := Act(m, hf, Action.Remove(key));
    RemoveKeeps(m, hf, key);
    forall s: nat | s < |Cur(m).t.slots| ensures SlotRely(m', Cur(m), Cur(m'), k, s) {}
    CurRely(m, m', hf, k);
  }

  lemma PublishRely(m: Shared, hf: int -> Hash, u: Table, upos: map<int, nat>, k: int)
    requires SharedInv(m, hf) && CanAct(m, hf, Publish(u, upos))
    ensures Rely(m, Act(m, hf, Publish(u, upos)), hf, k)
  {
    var m' := Act(m, hf, Publish(u, upos));
    forall i: nat | i < |m.maps| ensures MapRely(m, m', hf, k, i) { SameMapRely(m, m', hf, k, i); }
  }

  lemma ProceedRely(m: Shared, hf: int -> Hash, k: int)
    requires SharedInv(m, hf) && !m.w.Idle?
    ensures Rely(m, Proceed(m, hf), hf, k)
  {
    match m.w
    case Write(_) => WriteRely(m, hf, k);
    case Signal(_) => SignalRely(m, hf, k);
    case Bury(_) => BuryRely(m, hf, k);
    case Idle =>
    case RaiseMax(_) => RaiseKeeps(m, hf); BoundRely(m, Proceed(m, hf), hf, k);
    case RaiseWord(_) => RaiseKeeps(m, hf); BoundRely(m, Proceed(m, hf), hf, k);
    case Lower(_, _, _) => LowerKeeps(m, hf); BoundRely(m, Proceed(m, hf), hf, k);
  }

  lemma ActRely(m: Shared, hf: int -> Hash, a: Action, k: int)
    requires SharedInv(m, hf) && CanAct(m, hf, a)
    ensures Rely(m, Act(m, hf, a), hf, k)
  {
    match a
    case Begin(_, _) => BoundRely(m, Act(m, hf, a), hf, k);
    case Advance => ProceedRely(m, hf, k);
    case Remove(key) => RemoveRely(m, hf, key, k);
    case BeginLower(x, bounds) =>
      BeginLowerKeeps(m, hf, x, bounds);
      BoundRely(m, Act(m, hf, a), hf, k);
    case Publish(u, upos) => PublishRely(m, hf, u, upos, k);
  }

  // ---------------------------------------------------------------- runs

  datatype State = State(m: Shared, rs: seq<Reader>)

  datatype Label = Writes(a: Action) | Starts(key: int) | Reads(i: nat)

  ghost predicate Init(s: State, hf: int -> Hash) {
    && s.rs == [] && s.m.w.Idle? && Ok(s.m.base, hf, map[])
    && s.m.maps == [Map(s.m.base, 0, 0, map[])] && s.m.bpos == map[] && s.m.model == map[]
  }

  /** The writer stores, a call begins, or a call in progress loads. */
  ghost predicate Next(s: State, l: Label, s': State, hf: int -> Hash) {
    match l
    case Writes(a) =>
      && CanAct(s.m, hf, a) && s'.m == Act(s.m, hf, a) && |s'.rs| == |s.rs|
      && forall i | 0 <= i < |s.rs| :: s'.rs[i] == Observe(s'.m, s.rs[i])
    case Starts(key) => s'.m == s.m && s'.rs == s.rs + [Began(s.m, key)]
    case Reads(i) =>
      && |s.m.maps| > 0 && i < |s.rs| && s'.m == s.m
      && s'.rs == s.rs[i := s.rs[i].(pc := Get(s.m, hf, s.rs[i]))]
  }

  ghost predicate Known(m: Shared, hf: int -> Hash, r: Reader) {
    Watched(m, r) && ReaderInv(m, hf, r)
  }

  ghost predicate Inv(s: State, hf: int -> Hash) {
    SharedInv(s.m, hf) && forall i | 0 <= i < |s.rs| :: Known(s.m, hf, s.rs[i])
  }

  /** A call that still loads the map knows its history again when it starts over. */
  lemma NextKeeps(s: State, l: Label, s': State, hf: int -> Hash)
    requires Inv(s, hf) && Next(s, l, s', hf)
    ensures Inv(s', hf)
  {
    match l
    case Writes(a) =>
      ActKeeps(s.m, hf, a);
      forall i | 0 <= i < |s'.rs| ensures Known(s'.m, hf, s'.rs[i]) {
        assert Known(s.m, hf, s.rs[i]);
        ActRely(s.m, hf, a, s.rs[i].key);
        if Moving(s'.m, s.rs[i].key) { CurNewFirst(s'.m, hf, s.rs[i].key); }
        ReaderStays(s.m, s'.m, hf, s.rs[i]);
      }
    case Starts(key) =>
      forall i | 0 <= i < |s'.rs| ensures Known(s'.m, hf, s'.rs[i]) {
        assert i < |s.rs| ==> Known(s.m, hf, s.rs[i]);
      }
    case Reads(j) =>
      assert Known(s.m, hf, s.rs[j]);
      GetKeeps(s.m, hf, s.rs[j]);
      forall i | 0 <= i < |s'.rs| ensures Known(s'.m, hf, s'.rs[i]) {
        assert Known(s.m, hf, s.rs[i]);
      }
  }

  ghost function Moves(hf: int -> Hash): (State, Label, State) -> bool {
    (s: State, l: Label, s': State) => Next(s, l, s', hf)
  }

  ghost predicate IsRun(run: seq<State>, ls: seq<Label>, hf: int -> Hash) {
    Machine.Steps(Moves(hf), run, ls) && Init(run[0], hf)
  }

  lemma RunInv(run: seq<State>, ls: seq<Label>, hf: int -> Hash, n: nat)
    requires IsRun(run, ls, hf) && n < |run|
    ensures Inv(run[n], hf)
  {
    var inv := (s: State) => Inv(s, hf);
    forall s, l, s' | inv(s) && Moves(hf)(s, l, s') ensures inv(s') { NextKeeps(s, l, s', hf); }
    Machine.Invariant(Moves(hf), inv, run, ls, n);
  }

  ghost predicate AbsentAt(run: seq<State>, j: nat, key: int) {
    j < |run| && key !in run[j].m.model
  }

  ghost predicate HeldAt(run: seq<State>, j: nat, o: Object) {
    j < |run| && o.key in run[j].m.model && run[j].m.model[o.key] == o
  }

  /** Call i, begun by step a, has by state n seen only what the set really held in between. */
  lemma {:induction false} HistoryTrue(run: seq<State>, ls: seq<Label>, hf: int -> Hash, i: nat, a: nat, n: nat, key: int)
    requires IsRun(run, ls, hf) && a < n < |run| && i == |run[a].rs| && ls[a] == Starts(key)
    ensures i < |run[n].rs| && run[n].rs[i].key == key
    ensures run[n].rs[i].absent ==> exists j: nat | a < j <= n :: AbsentAt(run, j, key)
    ensures forall o | o in run[n].rs[i].seen :: o.key == key ==> exists j: nat | a < j <= n :: HeldAt(run, j, o)
  {
    assert Machine.StepAt(Moves(hf), run, ls, n - 1);
    if n == a + 1 {
      assert AbsentAt(run, n, key) || key in run[n].m.model;
      if key in run[n].m.model {
        forall o | o in run[n].rs[i].seen && o.key == key ensures HeldAt(run, n, o) {}
      }
    } else {
      HistoryTrue(run, ls, hf, i, a, n - 1, key);
      var r, r' := run[n - 1].rs[i], run[n].rs[i];
      if r'.absent && !r.absent { assert AbsentAt(run, n, key); }
      forall o | o in r'.seen && o.key == key ensures exists j: nat | a < j <= n :: HeldAt(run, j, o) {
        if o !in r.seen { assert HeldAt(run, n, o); }
      }
    }
  }

  /** The answer of every call was true at an instant of the call: an object that it returns was then
    the object of the key, and where it returns none the key was then absent. */
  lemma AnswerWasCurrent(run: seq<State>, ls: seq<Label>, hf: int -> Hash, i: nat, a: nat, n: nat, key: int)
    requires IsRun(run, ls, hf) && a < n < |run| && i == |run[a].rs| && ls[a] == Starts(key)
    ensures i < |run[n].rs|
    ensures run[n].rs[i].pc.Done? ==>
      match run[n].rs[i].pc.res
      case None => exists j: nat | a < j <= n :: AbsentAt(run, j, key)
      case Some(o) => o.key == key && exists j: nat | a < j <= n :: HeldAt(run, j, o)
  {
    HistoryTrue(run, ls, hf, i, a, n, key);
    RunInv(run, ls, hf, n);
    assert Known(run[n].m, hf, run[n].rs[i]);
  }

  /** A key that is present throughout a call is found, however often it is moved. */
  lemma PresentIsFound(run: seq<State>, ls: seq<Label>, hf: int -> Hash, i: nat, a: nat, n: nat, key: int)
    requires IsRun(run, ls, hf) && a < n < |run| && i == |run[a].rs| && ls[a] == Starts(key)
    requires forall j: nat | a < j <= n :: !AbsentAt(run, j, key)
    ensures i < |run[n].rs|
    ensures run[n].rs[i].pc.Done? ==> run[n].rs[i].pc.res.Some? && run[n].rs[i].pc.res.value.key == key
  {
    AnswerWasCurrent(run, ls, hf, i, a, n, key);
  }

  /** Between operations the set stands for exactly what its published table holds. */
  lemma IdleIsModel(run: seq<State>, ls: seq<Label>, hf: int -> Hash, n: nat, o: Object)
    requires IsRun(run, ls, hf) && n < |run| && run[n].m.w.Idle?
    ensures |run[n].m.maps| > 0 && (HeldAt(run, n, o) <==> Full(o) in Cur(run[n].m).t.slots)
  {
    RunInv(run, ls, hf, n);
    ModelIsContents(run[n].m.base, hf, run[n].m.bpos, o);
  }
}
