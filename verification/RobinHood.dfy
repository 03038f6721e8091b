/** The robin-hood hash set of src/ck_rhs.c: its probe sequence, and the rehash of `ck_rhs_grow`.

  A map has M lines of L slots, M a power of two; L is 4, or 8 in read-mostly mode. Masking with a
  power of two less one is the remainder. */
module RobinHood {
  import opened Prelude
  import HashTable

  type Object = HashTable.Object

  // ---------------------------------------------------------------- probe sequence

  /** `ck_rhs_map_probe_next`: on inside the line, or after a whole line to another line. */
  function Next(C: nat, L: nat, offset: nat, p: nat): (r: nat)
    requires L > 0 && C > 0
  {
    if p % L != 0 then offset - offset % L + (offset + 1) % L else (offset + p) % C
  }

  /** `ck_rhs_map_probe_prev`. */
  function Prev(C: nat, L: nat, offset: nat, p: nat): (r: nat)
    requires L > 0 && C > 0
  {
    if p % L != 0 then offset - offset % L + (offset - 1) % L else (offset - p) % C
  }

  /** The slot at position p of the sequence of h; positions count from 1. */
  ghost function SlotAt(C: nat, L: nat, h: nat, p: nat): (r: nat)
    requires L > 0 && C > 0 && p > 0
  {
    if p == 1 then h % C else Next(C, L, SlotAt(C, L, h, p - 1), p - 1)
  }

  ghost function Triangle(i: nat): nat { if i == 0 then 0 else Triangle(i - 1) + i }

  /** The slot j places on in the line searched after i others, from the home r places into line l, in
    closed form: lines are taken at triangular distances, and each line is entered one place earlier
    than the one before. */
  ghost function Place(M: nat, L: nat, l: nat, r: nat, i: nat, j: nat): nat
    requires L > 0 && M > 0
  {
    L * ((l + Triangle(i)) % M) + (r - i + j) % L
  }

  lemma Split(L: nat, a: nat, b: nat)
    requires b < L
    ensures (L * a + b) / L == a && (L * a + b) % L == b
  {
    ModUnique(L * a + b, L, a, b);
  }

  /** Turning by d places inside a line. */
  lemma Turned(L: nat, a: nat, x: int, d: int)
    requires L > 0
    ensures var o := L * a + x % L; o - o % L + (o + d) % L == L * a + (x + d) % L
  {
    ModRange(x, L);
    Split(L, a, x % L);
    ModAdd(x, d, L);
    Shifted(x % L + d, L * a + x % L + d, L, a);
  }

  lemma NextTurn(C: nat, L: nat, a: nat, x: int, p: nat)
    requires C > 0 && L > 0 && p % L != 0
    ensures 0 <= x % L && Next(C, L, L * a + x % L, p) == L * a + (x + 1) % L
  {
    ModRange(x, L);
    Turned(L, a, x, 1);
  }

  lemma Spread(M: nat, L: nat, k: int, s: nat, b: nat)
    requires s < M && b < L
    ensures L * M > 0 && (L * (M * k + s) + b) % (L * M) == L * s + b
  {
    LineInRange(M, L, s);
    assert L * (M * k + s) == (L * M) * k + L * s;
    ModUnique(L * (M * k + s) + b, L * M, k, L * s + b);
  }

  lemma LineInRange(M: nat, L: nat, a: nat)
    requires a < M
    ensures L * a + L <= L * M
  {
    if L > 0 { MulSign(M - a - 1, L); }
    assert L * M == L * a + L + L * (M - a - 1);
  }

  /** Going on, or back, by i lines. */
  lemma Moved(M: nat, L: nat, l: int, b: nat, i: int)
    requires M > 0 && b < L
    ensures L * M > 0 && (L * (l % M) + b + L * i) % (L * M) == L * ((l + i) % M) + b
  {
    ModAdd(l, i, M);
    ModRange(l + i, M);
    var k := Quotient(l % M + i, M);
    Spread(M, L, k, (l + i) % M, b);
    assert L * (l % M) + L * i == L * (l % M + i);
  }

  lemma NextInLine(M: nat, L: nat, l: nat, r: nat, i: nat, j: nat)
    requires M > 0 && 0 < j < L
    ensures L * M > 0 && L * i + j >= 0 && Next(L * M, L, Place(M, L, l, r, i, j - 1), L * i + j) == Place(M, L, l, r, i, j)
  {
    MulSign(M, L);
    Split(L, i, j);
    NextTurn(L * M, L, (l + Triangle(i)) % M, r - i + (j - 1), L * i + j);
  }

  lemma NextLine(M: nat, L: nat, l: nat, r: nat, i: nat)
    requires M > 0 && L > 0 && i > 0
    ensures L * M > 0 && L * i >= 0 && Next(L * M, L, Place(M, L, l, r, i - 1, L - 1), L * i) == Place(M, L, l, r, i, 0)
  {
    Split(L, i, 0);
    Shifted(r - i, r - (i - 1) + (L - 1), L, 1);
    ModRange(r - i, L);
    Moved(M, L, l + Triangle(i - 1), (r - i) % L, i);
  }

  lemma LineEnd(L: nat, i: nat)
    requires L > 0 && i > 0
    ensures L * (i - 1) + (L - 1) + 1 == L * i > 0
  {
    MulSign(i, L);
  }

  /** The sequence in closed form. */
  lemma {:induction false} AtPlace(M: nat, L: nat, h: nat, l: nat, r: nat, i: nat, j: nat)
    requires l < M && r < L && j < L && L * M > 0 && h % (L * M) == L * l + r
    ensures L * i + j >= 0 && SlotAt(L * M, L, h, L * i + j + 1) == Place(M, L, l, r, i, j)
    decreases i, j
  {
    if j > 0 {
      AtPlace(M, L, h, l, r, i, j - 1);
      NextInLine(M, L, l, r, i, j);
    } else if i > 0 {
      AtPlace(M, L, h, l, r, i - 1, L - 1);
      NextLine(M, L, l, r, i);
      LineEnd(L, i);
    } else {
      FirstPlace(M, L, l, r);
    }
  }

  lemma FirstPlace(M: nat, L: nat, l: nat, r: nat)
    requires l < M && r < L
    ensures Place(M, L, l, r, 0, 0) == L * l + r
  {
    ModUnique(l, M, 0, l);
    ModUnique(r, L, 0, r);
  }

  /** Line and place in it of the x-th position. */
  lemma Coordinates(x: nat, L: nat, M: nat) returns (i: nat, j: nat)
    requires L > 0
    ensures x == L * i + j && j < L && (x < L * M ==> i < M)
  {
    i, j := x / L, x % L;
    MulSign(i - M, L);
    assert L * i == L * M + L * (i - M);
  }

  lemma HomeAt(M: nat, L: nat, h: nat) returns (l: nat, r: nat)
    requires M > 0 && L > 0
    ensures L * M > 0 && h % (L * M) == L * l + r && l < M && r < L
  {
    MulSign(M, L);
    l, r := Coordinates(h % (L * M), L, M);
  }

  // ---------------------------------------------------------------- every slot once

  lemma OddPart(y: nat, v: nat, x: nat)
    requires (2 * y + 1) * v == 2 * x
    ensures v == 2 * (x - y * v)
  {
    assert (2 * y + 1) * v == 2 * (y * v) + v;
  }

  lemma TwicePart(u: nat, half: int)
    ensures u * (2 * half) == 2 * (u * half)
  {
  }

  lemma OddHalf(u: nat, v: nat, x: nat) returns (half: nat)
    requires u % 2 == 1 && u * v == 2 * x
    ensures v == 2 * half && u * half == x
  {
    OddPart(u / 2, v, x);
    half := x - u / 2 * v;
    TwicePart(u, half);
  }

  /** An odd factor can be left out of a product that a power of two divides. */
  lemma {:induction false} OddFactor(k: nat, u: nat, v: nat, z: nat) returns (w: nat)
    requires u % 2 == 1 && u * v == Pow2(k) * z
    ensures v == Pow2(k) * w
  {
    if k == 0 {
      w := v;
    } else {
      assert Pow2(k) * z == 2 * (Pow2(k - 1) * z);
      var half := OddHalf(u, v, Pow2(k - 1) * z);
      w := OddFactor(k - 1, u, half, z);
      assert 2 * (Pow2(k - 1) * w) == Pow2(k) * w;
    }
  }

  lemma {:induction false} TwiceTriangle(i: nat)
    ensures 2 * Triangle(i) == i * (i + 1)
  {
    if i > 0 { TwiceTriangle(i - 1); }
  }

  lemma TriangleGap(a: nat, b: nat)
    ensures 2 * (Triangle(b) - Triangle(a)) == (b - a) * (a + b + 1)
  {
    TwiceTriangle(a);
    TwiceTriangle(b);
  }

  /** The first 2^m triangular numbers differ modulo 2^m. */
  lemma TrianglesDiffer(m: nat, a: nat, b: nat)
    requires a < b < Pow2(m)
    ensures Triangle(a) % Pow2(m) != Triangle(b) % Pow2(m)
  {
    if Triangle(a) % Pow2(m) == Triangle(b) % Pow2(m) {
      var z := Multiple(Triangle(a), Triangle(b), Pow2(m));
      NoMultiple(m, a, b, z);
    }
  }

  lemma NoMultiple(m: nat, a: nat, b: nat, z: int)
    requires a < b < Pow2(m)
    ensures Triangle(b) - Triangle(a) != Pow2(m) * z
  {
    TriangleGap(a, b);
    NoSuchGap(m, b - a, a + b + 1, z);
  }

  lemma NoSuchGap(m: nat, u: nat, v: nat, z: int)
    requires 0 < u < Pow2(m + 1) && 0 < v < Pow2(m + 1) && u % 2 != v % 2
    ensures u * v != 2 * (Pow2(m) * z)
  {
    if u * v == 2 * (Pow2(m) * z) {
      assert u * v == Pow2(m + 1) * z && v * u == u * v;
      Positive(u, v, Pow2(m + 1), z);
      var w;
      if u % 2 == 1 {
        w := OddFactor(m + 1, u, v, z);
        TooSmall(v, Pow2(m + 1), w);
      } else {
        w := OddFactor(m + 1, v, u, z);
        TooSmall(u, Pow2(m + 1), w);
      }
    }
  }

  lemma Positive(u: nat, v: nat, n: nat, z: int)
    requires u * v == n * z && u > 0 && v > 0 && n > 0
    ensures z > 0
  {
    MulSign(u, v);
    MulSign(z, n);
  }

  lemma TooSmall(v: nat, n: nat, w: nat)
    requires 0 < v == n * w
    ensures v >= n
  {
    MulSign(w, n);
  }

  /** Two of the first C positions are never at the same slot. */
  lemma PlacesDiffer(m: nat, L: nat, l: nat, r: nat, i: nat, j: nat, i': nat, j': nat)
    requires i < Pow2(m) && i' < Pow2(m) && j < L && j' < L
    requires Place(Pow2(m), L, l, r, i, j) == Place(Pow2(m), L, l, r, i', j')
    ensures i == i' && j == j'
  {
    var M := Pow2(m);
    ModRange(r - i + j, L);
    ModRange(r - i' + j', L);
    Split(L, (l + Triangle(i)) % M, (r - i + j) % L);
    Split(L, (l + Triangle(i')) % M, (r - i' + j') % L);
    Cancel(l, Triangle(i), Triangle(i'), M);
    if i < i' { TrianglesDiffer(m, i, i'); }
    if i' < i { TrianglesDiffer(m, i', i); }
    SameRest(r - i + j, r - i' + j', L);
  }

  lemma Cancel(x: int, a: int, b: int, n: int)
    requires n > 0 && (x + a) % n == (x + b) % n
    ensures a % n == b % n
  {
    var z := Multiple(x + a, x + b, n);
    Shifted(a, b, n, z);
  }

  lemma SlotsDiffer(m: nat, L: nat, h: nat, p: nat, q: nat)
    requires L > 0 && 0 < p < q <= L * Pow2(m)
    ensures SlotAt(L * Pow2(m), L, h, p) != SlotAt(L * Pow2(m), L, h, q)
  {
    var M := Pow2(m);
    var l, r := HomeAt(M, L, h);
    var i, j := Coordinates(p - 1, L, M);
    var i', j' := Coordinates(q - 1, L, M);
    AtPlace(M, L, h, l, r, i, j);
    AtPlace(M, L, h, l, r, i', j');
    if Place(M, L, l, r, i, j) == Place(M, L, l, r, i', j') { PlacesDiffer(m, L, l, r, i, j, i', j'); }
  }

  lemma InRange(M: nat, L: nat, h: nat, p: nat)
    requires M > 0 && L > 0 && p > 0
    ensures L * M > 0 && SlotAt(L * M, L, h, p) < L * M
  {
    var l, r := HomeAt(M, L, h);
    var i, j := Coordinates(p - 1, L, M);
    AtPlace(M, L, h, l, r, i, j);
    PlaceInRange(M, L, l, r, i, j);
  }

  lemma PlaceInRange(M: nat, L: nat, l: nat, r: nat, i: nat, j: nat)
    requires M > 0 && L > 0
    ensures Place(M, L, l, r, i, j) < L * M
  {
    ModRange(l + Triangle(i), M);
    ModRange(r - i + j, L);
    LineInRange(M, L, (l + Triangle(i)) % M);
  }

  /** n different numbers below n are all of them. */
  lemma {:induction false} Pigeons(s: seq<nat>, bound: set<nat>)
    requires |bound| == |s| && (forall i | 0 <= i < |s| :: s[i] in bound)
    requires forall i, j | 0 <= i < j < |s| :: s[i] != s[j]
    ensures forall x | x in bound :: x in s
  {
    if s != [] {
      var last := s[|s| - 1];
      var rest := s[..|s| - 1];
      assert |bound - {last}| == |rest|;
      Pigeons(rest, bound - {last});
      forall x | x in bound ensures x in s {
        if x != last { assert x in rest; }
      }
    }
  }

  ghost function Upto(n: nat): (r: set<nat>)
    ensures |r| == n && forall x: nat :: x in r <==> x < n
  {
    if n == 0 then {} else Upto(n - 1) + {n - 1}
  }

  /** From any home, the first C positions of the probe sequence visit every slot, each exactly once. */
  lemma VisitsAll(m: nat, L: nat, h: nat, s: nat)
    requires L > 0 && s < L * Pow2(m)
    ensures var C := L * Pow2(m);
            && (exists p: nat | 0 < p <= C :: SlotAt(C, L, h, p) == s)
            && forall p: nat, q: nat | 0 < p < q <= C :: SlotAt(C, L, h, p) != SlotAt(C, L, h, q)
  {
    var C := L * Pow2(m);
    MulSign(Pow2(m), L);
    forall p: nat, q: nat | 0 < p < q <= C ensures SlotAt(C, L, h, p) != SlotAt(C, L, h, q) { SlotsDiffer(m, L, h, p, q); }
    forall p: nat | 0 < p <= C ensures SlotAt(C, L, h, p) < C { InRange(Pow2(m), L, h, p); }
    var seen := seq(C, (i: nat) => SlotAt(C, L, h, i + 1));
    Pigeons(seen, Upto(C));
    assert s in seen;
    var i :| 0 <= i < C && seen[i] == s;
    assert SlotAt(C, L, h, i + 1) == s;
  }

  // ---------------------------------------------------------------- going back

  /** `ck_rhs_map_probe_prev` undoes `ck_rhs_map_probe_next`, and the other way around. */
  lemma PrevUndoesNext(M: nat, L: nat, o: nat, p: nat)
    requires L > 0 && M > 0 && o < L * M
    ensures Prev(L * M, L, Next(L * M, L, o, p), p) == o && Next(L * M, L, Prev(L * M, L, o, p), p) == o
  {
    if p % L != 0 {
      assert o == L * (o / L) + o % L;
      TurnBack(L, o / L, o % L);
    } else {
      JumpBack(L * M, o, p);
    }
  }

  lemma JumpBack(C: nat, o: nat, p: nat)
    requires o < C
    ensures ((o + p) % C - p) % C == o && ((o - p) % C + p) % C == o
  {
    ModAdd(o + p, 0 - p, C);
    ModAdd(o - p, p, C);
    ModUnique(o, C, 0, o);
  }

  lemma TurnBack(L: nat, a: nat, b: nat)
    requires b < L
    ensures var o, n, m := L * a + b, L * a + (b + 1) % L, L * a + (b - 1) % L;
            && o - o % L + (o + 1) % L == n && n - n % L + (n - 1) % L == o
            && o - o % L + (o - 1) % L == m && m - m % L + (m + 1) % L == o
  {
    ModUnique(b, L, 0, b);
    Turned(L, a, b, 1);
    Turned(L, a, b + 1, -1);
    Turned(L, a, b, -1);
    Turned(L, a, b - 1, 1);
  }

  /** One round of the loop of `ck_rhs_get_first_offset`: to the same place of the line before. */
  lemma BackALine(M: nat, L: nat, l: nat, r: nat, i: nat, j: nat)
    requires L > 0 && M > 0 && i > 0 && j < L
    ensures L * M > 0
    ensures var o := (Place(M, L, l, r, i, j) - L * i) % (L * M);
            o - o % L + (o - (L - 1)) % L == Place(M, L, l, r, i - 1, j)
  {
    var x := r - i + j;
    ModRange(x, L);
    Moved(M, L, l + Triangle(i), x % L, 0 - i);
    assert L * (0 - i) == 0 - L * i;
    ModRange(l + Triangle(i - 1), M);
    Turned(L, (l + Triangle(i - 1)) % M, x, 1 - L);
    Shifted(x - (L - 1), x + 1, L, 1);
  }

  lemma RoundBack(M: nat, L: nat, l: nat, r: nat, i: nat, j: nat, probes: nat)
    requires M > 0 && j < L && i > 0 && L * M > 0 && probes - 1 == L * i + j
    ensures var o := (Place(M, L, l, r, i, j) - (probes - 1 - (probes - 1) % L)) % (L * M);
            o - o % L + (o - (L - 1)) % L == Place(M, L, l, r, i - 1, j)
    ensures probes - L - 1 == L * (i - 1) + j
  {
    Split(L, i, j);
    BackALine(M, L, l, r, i, j);
    assert L * i == L * (i - 1) + L;
  }

  lemma LastBack(M: nat, L: nat, l: nat, r: nat, j: nat)
    requires l < M && r < L && j < L
    ensures var o := Place(M, L, l, r, 0, j); o - o % L + (o - j) % L == L * l + r
  {
    ModUnique(l, M, 0, l);
    Turned(L, l, r + j, 0 - j);
    ModUnique(r, L, 0, r);
  }

  /** In the first line: no more than a whole line of probes. */
  lemma FirstLine(L: nat, i: nat, j: nat, probes: nat)
    requires j < L && probes - 1 == L * i + j
    ensures probes > L <==> i > 0
    ensures i == 0 ==> j == probes - 1
  {
    MulSign(i, L);
  }

  /** `ck_rhs_get_first_offset`: the home, from a slot and its position in the sequence. */
  method FirstOffset(M: nat, L: nat, offset0: nat, probes0: nat, ghost h: nat) returns (home: nat)
    requires L > 0 && M > 0 && L * M > 0 && probes0 > 0 && offset0 == SlotAt(L * M, L, h, probes0)
    ensures home == h % (L * M)
  {
    var offset, probes := offset0, probes0;
    ghost var l, r := HomeAt(M, L, h);
    ghost var i, j := Coordinates(probes - 1, L, M);
    AtPlace(M, L, h, l, r, i, j);
    FirstLine(L, i, j, probes);
    while probes > L
      invariant probes > 0 && j < L && probes - 1 == L * i + j && offset == Place(M, L, l, r, i, j)
      invariant (probes > L <==> i > 0) && (i == 0 ==> j == probes - 1)
    {
      RoundBack(M, L, l, r, i, j, probes);
      offset := (offset - (probes - 1 - (probes - 1) % L)) % (L * M);
      offset := offset - offset % L + (offset - (L - 1)) % L;
      probes := probes - L;
      i := i - 1;
      FirstLine(L, i, j, probes);
    }
    LastBack(M, L, l, r, j);
    home := offset - offset % L + (offset - (probes - 1)) % L;
  }
}
