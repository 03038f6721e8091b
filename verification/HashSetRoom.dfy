/** When ck_hs_grow is sure to place every entry: how many different slots a search of src/ck_hs.c sees
  before its probe limit. Lines may repeat as long as bits of the hash are left to be shifted in
  (src/ck_hs.c:323); after those the distances between lines grow by one each time. */
module HashSetRoom {
  import opened Prelude
  import opened HashTable
  import opened Growth

  /** `ck_cc_ffsl` of a power of two, less one. */
  function Log2(n: nat): nat { if n < 2 then 0 else 1 + Log2(n / 2) }

  /** The probe limit that `ck_hs_map_create` chooses. */
  function Limit(cap: nat): nat { if cap / 32 > 64 then cap / 32 else 64 }

  /** How far the start of line z + a lies from that of line z, if no bits of the hash are left. */
  function Spread(z: nat, a: nat): nat {
    if a == 0 then 0 else Spread(z, a - 1) + (z + a - 1) + 1 + LINE
  }

  /** After that many lines a 64-bit hash has no bits left. */
  function Drained(cap: nat): nat {
    if Log2(cap) + 1 > 64 then 0 else 64 - (Log2(cap) + 1)
  }

  /** Any n entries fit into an empty table of this capacity: they fit one line, or else the probe limit
    leaves lines enough that do not repeat. */
  predicate Roomy(cap: nat, n: nat) {
    n <= LINE ||
    var d := (n + LINE - 1) / LINE;
    LINE * (Drained(cap) + d) <= Limit(cap) && Spread(Drained(cap), d - 1) + LINE <= cap
  }

  /** A table as `ck_hs_map_create` lays it out. */
  ghost predicate Sized(t: Table) {
    && Shape(t) && t.limit == Limit(|t.slots|) && t.step == Log2(|t.slots|) + 1
  }

  // ---------------------------------------------------------------- lines that do not repeat

  lemma NoBits(h: nat, step: nat, l: nat)
    requires h < WORD64 && step + l >= 64
    ensures h / Pow2(step) / Pow2(l) == 0
  {
    WordCovered(step, l);
    Small(h, Pow2(step), Pow2(l));
  }

  lemma WordCovered(a: nat, b: nat)
    requires a + b >= 64
    ensures Pow2(a) * Pow2(b) >= WORD64
  {
    Word64();
    PowOrder(64, a + b);
    PowAdd(a, b);
  }

  lemma Small(h: nat, a: nat, b: nat)
    requires a > 0 && b > 0 && h < a * b
    ensures h / a / b == 0
  {
    var q := h / a;
    assert h == a * q + h % a;
    MulSign(q - b + 1, a);
    assert (q - b + 1) * a == a * q - a * b + a;
    ModUnique(q, b, 0, q);
  }

  lemma DrainedNext(cap: nat, step: nat, h: nat, l: nat)
    requires cap > 0 && h < WORD64 && l > 0 && step + (l - 1) >= 64
    ensures Offset(cap, step, h, l) == (Offset(cap, step, h, l - 1) + (l + LINE)) % cap
  {
    NoBits(h, step, l - 1);
  }

  lemma {:induction false} DrainedOffset(cap: nat, step: nat, h: nat, z: nat, a: nat)
    requires cap > 0 && h < WORD64 && step + z >= 64
    ensures Offset(cap, step, h, z + a) == (Offset(cap, step, h, z) + Spread(z, a)) % cap
  {
    var o := Offset(cap, step, h, z);
    if a == 0 {
      ModUnique(o, cap, 0, o);
    } else {
      DrainedOffset(cap, step, h, z, a - 1);
      DrainedNext(cap, step, h, z + a);
      FurtherOn(o, Spread(z, a - 1), z + a + LINE, Offset(cap, step, h, z + a - 1), Offset(cap, step, h, z + a), cap);
    }
  }

  lemma FurtherOn(o: nat, s: nat, d: nat, x: nat, y: nat, cap: nat)
    requires cap > 0 && x == (o + s) % cap && y == (x + d) % cap
    ensures y == (o + (s + d)) % cap
  {
    ModAdd(o + s, d, cap);
  }

  lemma {:induction false} SpreadGrows(z: nat, a: nat, b: nat)
    requires a <= b
    ensures Spread(z, b) >= Spread(z, a) + (b - a) * LINE
  {
    if a < b { SpreadGrows(z, a, b - 1); }
  }

  /** Going on by at least one line, and stopping at least one line short of a whole turn. */
  lemma OtherLine(cap: nat, o: nat, x: nat, y: nat)
    requires cap > 0 && cap % LINE == 0 && x + LINE <= y && y - x + LINE <= cap
    ensures (o + x) % cap / LINE != (o + y) % cap / LINE
  {
    var u, d := (o + x) % cap, y - x;
    ModAdd(o + x, d, cap);
    assert (u + d) % cap == (o + y) % cap;
    if u + d < cap {
      ModUnique(u + d, cap, 0, u + d);
    } else {
      ModUnique(u + d, cap, 1, u + d - cap);
    }
  }

  lemma InLineOf(o: nat, j: nat)
    requires j < LINE
    ensures InLine(o, j) / LINE == o / LINE && InLine(o, j) % LINE == (o + j) % LINE
  {
  }

  /** Number x of the slots of the drained lines. */
  ghost function DrainedSlot(t: Table, h: nat, z: nat, x: nat): nat
    requires Form(t)
  {
    SlotAt(|t.slots|, t.step, h, LINE * z + x + 1)
  }

  lemma LineOf(z: nat, x: nat)
    ensures (LINE * z + x) / LINE == z + x / LINE && (LINE * z + x) % LINE == x % LINE
  {
  }

  lemma DrainedSlotAt(t: Table, h: nat, z: nat, x: nat) returns (o: nat)
    requires Form(t)
    ensures o == Offset(|t.slots|, t.step, h, z + x / LINE)
    ensures DrainedSlot(t, h, z, x) / LINE == o / LINE && DrainedSlot(t, h, z, x) % LINE == (o + x % LINE) % LINE
  {
    o := Offset(|t.slots|, t.step, h, z + x / LINE);
    LineOf(z, x);
    InLineOf(o, x % LINE);
  }

  lemma LinesDiffer(t: Table, h: nat, z: nat, d: nat, a: nat, b: nat)
    requires Form(t) && h < WORD64 && t.step + z >= 64 && a < b < d
    requires Spread(z, d - 1) + LINE <= |t.slots|
    ensures Offset(|t.slots|, t.step, h, z + a) / LINE != Offset(|t.slots|, t.step, h, z + b) / LINE
  {
    DrainedOffset(|t.slots|, t.step, h, z, a);
    DrainedOffset(|t.slots|, t.step, h, z, b);
    SpreadGrows(z, a, b);
    SpreadGrows(z, b, d - 1);
    OtherLine(|t.slots|, Offset(|t.slots|, t.step, h, z), Spread(z, a), Spread(z, b));
  }

  lemma SlotsApart(t: Table, h: nat, z: nat, d: nat, x: nat, y: nat)
    requires Form(t) && h < WORD64 && (d == 1 || t.step + z >= 64) && x < y < LINE * d
    requires Spread(z, d - 1) + LINE <= |t.slots|
    ensures DrainedSlot(t, h, z, x) != DrainedSlot(t, h, z, y)
  {
    var a := DrainedSlotAt(t, h, z, x);
    var b := DrainedSlotAt(t, h, z, y);
    if x / LINE < y / LINE { LinesDiffer(t, h, z, d, x / LINE, y / LINE); }
    PlacesDiffer(DrainedSlot(t, h, z, x), DrainedSlot(t, h, z, y), a, b, x, y);
  }

  lemma PlacesDiffer(s: nat, u: nat, a: nat, b: nat, x: nat, y: nat)
    requires s / LINE == a / LINE && s % LINE == (a + x % LINE) % LINE
    requires u / LINE == b / LINE && u % LINE == (b + y % LINE) % LINE
    requires x < y && if x / LINE < y / LINE then a / LINE != b / LINE else a == b
    ensures s != u
  {
  }

  // ---------------------------------------------------------------- counting entries

  /** Different slots that are full hold entries with different keys. */
  lemma {:induction false} FullSlots(t: Table, hf: int -> Hash, pos: map<int, nat>, s: seq<nat>) returns (keys: set<int>)
    requires Ok(t, hf, pos) && (forall i | 0 <= i < |s| :: s[i] < |t.slots| && t.slots[s[i]].Full?)
    requires forall i, j | 0 <= i < j < |s| :: s[i] != s[j]
    ensures keys <= pos.Keys && |keys| == |s|
    ensures forall k | k in keys :: exists i | 0 <= i < |s| :: t.slots[s[i]].obj.key == k
  {
    keys := {};
    if s != [] {
      var last, rest := s[|s| - 1], s[..|s| - 1];
      keys := FullSlots(t, hf, pos, rest);
      var k := t.slots[last].obj.key;
      assert Homed(t, hf, pos, last);
      forall i | 0 <= i < |rest| ensures t.slots[rest[i]].obj.key != k {
        assert Homed(t, hf, pos, rest[i]) && rest[i] != last;
      }
      keys := keys + {k};
      assert s[|s| - 1] == last;
    }
  }

  lemma Fewer(a: set<int>, b: set<int>)
    requires a <= b
    ensures |a| <= |b|
  {
    assert b == a + (b - a);
  }

  lemma ManySlots(t: Table, hf: int -> Hash, pos: map<int, nat>, s: seq<nat>)
    requires Ok(t, hf, pos) && (forall i | 0 <= i < |s| :: s[i] < |t.slots| && t.slots[s[i]].Full?)
    requires forall i, j | 0 <= i < j < |s| :: s[i] != s[j]
    ensures |pos| >= |s|
  {
    var keys := FullSlots(t, hf, pos, s);
    Fewer(keys, pos.Keys);
  }

  lemma DrainedFull(t: Table, hf: int -> Hash, pos: map<int, nat>, h: nat, z: nat, d: nat)
    requires Ok(t, hf, pos) && h < WORD64 && (d == 1 || t.step + z >= 64) && FullBefore(t, h, t.limit + 1)
    requires d > 0 && LINE * (z + d) <= t.limit && Spread(z, d - 1) + LINE <= |t.slots|
    ensures |pos| >= LINE * d
  {
    var s := seq(LINE * d, (x: nat) => DrainedSlot(t, h, z, x));
    forall i | 0 <= i < LINE * d ensures s[i] < |t.slots| && t.slots[s[i]].Full? { assert At(t, h, LINE * z + i + 1).Full?; }
    forall i, j | 0 <= i < j < LINE * d ensures s[i] != s[j] { SlotsApart(t, h, z, d, i, j); }
    ManySlots(t, hf, pos, s);
  }

  /** A search that meets full slots only, up to its probe limit, has met as many entries as there is room for. */
  lemma FullMeansMany(t: Table, hf: int -> Hash, pos: map<int, nat>, h: nat, n: nat)
    requires Ok(t, hf, pos) && Sized(t) && h < WORD64 && FullBefore(t, h, t.limit + 1) && Roomy(|t.slots|, n)
    ensures |pos| >= n && |pos| >= LINE
  {
    DrainedFull(t, hf, pos, h, 0, 1);
    if n > LINE {
      var d := (n + LINE - 1) / LINE;
      DrainedFull(t, hf, pos, h, Drained(|t.slots|), d);
    }
  }

  // ---------------------------------------------------------------- capacities with room

  lemma {:induction false} Log2OfPower(k: nat)
    ensures Log2(Pow2(k)) == k
  {
    if k > 0 { Log2OfPower(k - 1); }
  }

  lemma {:induction false} SpreadLess(y: nat, z: nat, a: nat)
    requires y <= z
    ensures Spread(y, a) <= Spread(z, a)
  {
    if a > 0 { SpreadLess(y, z, a - 1); }
  }

  lemma {:induction false} TwiceSpread(z: nat, a: nat)
    ensures 2 * Spread(z, a) == a * (2 * z + a + 17)
  {
    if a > 0 { TwiceSpread(z, a - 1); }
  }

  /** Room for n entries stays in all larger tables. */
  lemma RoomStays(k: nat, n: nat)
    requires Roomy(Pow2(k), n)
    ensures Roomy(Pow2(k + 1), n)
  {
    Log2OfPower(k);
    Log2OfPower(k + 1);
    if n > LINE {
      var d := (n + LINE - 1) / LINE;
      SpreadLess(Drained(Pow2(k + 1)), Drained(Pow2(k)), d - 1);
    }
  }

  /** The largest table has room for half a million entries, whatever their hashes. */
  lemma RoomAtMost(n: nat)
    requires n <= 520000
    ensures Roomy(MOST, n)
  {
    Words();
    Log2OfPower(31);
    if n > LINE {
      var d := (n + LINE - 1) / LINE;
      SpreadGrows(32, d - 1, 64999);
      TwiceSpread(32, 64999);
    }
  }
}
