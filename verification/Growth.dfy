/** How ck_hs_grow and ck_rhs_grow choose a capacity: `ck_hs_map_create` (src/ck_hs.c:239-241) and
  `ck_rhs_map_capacity` (src/ck_rhs.c:340-342) hand an `unsigned long` of 64 bits to
  `ck_internal_power_2`, which takes 32, and a capacity whose table hits its probe limit is doubled in
  64 bits. `malloc` tells which allocations succeed, by their number. */
module Growth {
  import opened Prelude
  import Bits

  const WORD32 := Bits.WORDS
  const WORD64 := 0x1_0000_0000_0000_0000
  const MOST := 0x8000_0000
  const LEAST := 8

  /** The slots of a map made for n entries. */
  function Capacity(n: nat): nat {
    var w := n % WORD32;
    var r := if 0 < w <= MOST then Pow2(Bits.Exponent(0, w)) else 0;
    if r < LEAST then LEAST else r
  }

  method CapacityOf(n: nat) returns (r: nat)
    ensures r == Capacity(n)
  {
    r := Bits.NextPower(n % WORD32);
    if r < LEAST { r := LEAST; }
  }

  /** The capacity asked for after j restarts. */
  function Doubled(c: nat, j: nat): nat {
    if j == 0 then c else Doubled(c, j - 1) * 2 % WORD64
  }

  // ---------------------------------------------------------------- powers of two

  lemma {:induction false} PowAdd(a: nat, b: nat)
    ensures Pow2(a + b) == Pow2(a) * Pow2(b)
  {
    if b > 0 {
      PowAdd(a, b - 1);
      assert a + b - 1 == a + (b - 1);
    }
  }

  lemma {:induction false} PowOrder(a: nat, b: nat)
    ensures a <= b <==> Pow2(a) <= Pow2(b)
    decreases a + b
  {
    if a > 0 && b > 0 { PowOrder(a - 1, b - 1); }
  }

  lemma Word16()
    ensures Pow2(8) == 0x100 && Pow2(15) == 0x8000 && Pow2(16) == 0x10000
  {
    assert Pow2(4) == 16;
    assert Pow2(8) == 256;
    PowAdd(8, 8);
  }

  lemma Word64()
    ensures Pow2(32) == WORD32 && Pow2(64) == WORD64
  {
    Word16();
    PowAdd(16, 16);
    PowAdd(32, 32);
  }

  lemma Words()
    ensures Pow2(3) == LEAST && Pow2(31) == MOST && Pow2(32) == WORD32 && Pow2(64) == WORD64
  {
    Word64();
    assert Pow2(32) == 2 * Pow2(31);
  }

  /** The least exponent is the exponent of a power. */
  lemma PowerExponent(k: nat)
    ensures Bits.Exponent(0, Pow2(k)) == k
  {
    Bits.ExponentIs(0, Pow2(k), k);
  }

  lemma ExponentFits(w: nat)
    requires 0 < w <= MOST
    ensures Bits.Exponent(0, w) <= 31
  {
    Words();
    if Bits.Exponent(0, w) > 31 { Bits.ExponentLeast(0, w, 31); }
  }

  /** A capacity is a power of two, at least one line and at most 2^31. */
  lemma CapacityIsPower(n: nat) returns (k: nat)
    ensures 3 <= k <= 31 && Capacity(n) == Pow2(k) <= MOST
  {
    var w := n % WORD32;
    Words();
    k := 3;
    if 0 < w <= MOST {
      ExponentFits(w);
      var s := Bits.Exponent(0, w);
      PowOrder(s, 31);
      PowOrder(3, s);
      if s >= 3 { k := s; }
    }
  }

  /** It is enough for n exactly as long as n is at most 2^31. */
  lemma CapacityCovers(n: nat)
    ensures Capacity(n) >= n <==> n <= MOST
    ensures Capacity(n) <= MOST
  {
    var k := CapacityIsPower(n);
    if n <= MOST { ModUnique(n, WORD32, 0, n); }
  }

  lemma PowerRest(k: nat, n: nat)
    ensures Pow2(k) % Pow2(n) == if k < n then Pow2(k) else 0
  {
    if k < n {
      PowOrder(n, k);
      Rest(Pow2(k), Pow2(n), 0, Pow2(k));
    } else {
      PowAdd(n, k - n);
      Rest(Pow2(k), Pow2(n), Pow2(k - n), 0);
    }
  }

  lemma Rest(x: nat, n: nat, q: nat, r: nat)
    requires x == n * q + r && r < n
    ensures x % n == r
  {
    ModUnique(x, n, q, r);
  }

  /** The capacity for a power of two is that power, between one line and 2^31; otherwise one line. */
  lemma CapacityOfPower(k: nat)
    ensures Capacity(Pow2(k)) == if 3 <= k <= 31 then Pow2(k) else LEAST
  {
    Words();
    PowerRest(k, 32);
    PowOrder(k, 31);
    PowOrder(k, 3);
    PowOrder(3, k);
    if k <= 31 { PowerExponent(k); }
  }

  // ---------------------------------------------------------------- doubling

  lemma TwiceRest(x: nat, n: nat)
    requires n > 0
    ensures x % n * 2 % n == 2 * x % n
  {
    var q := Quotient(x, n);
    assert 2 * x - x % n * 2 == n * (2 * q);
    Shifted(x % n * 2, 2 * x, n, 2 * q);
  }

  lemma {:induction false} DoubledIs(c: nat, j: nat)
    requires c < WORD64
    ensures Doubled(c, j) == c * Pow2(j) % WORD64
  {
    if j == 0 {
      ModUnique(c, WORD64, 0, c);
    } else {
      DoubledIs(c, j - 1);
      TwiceRest(c * Pow2(j - 1), WORD64);
      assert 2 * (c * Pow2(j - 1)) == c * Pow2(j);
    }
  }

  lemma DoubledEnds(c: nat)
    requires c < WORD64
    ensures Doubled(c, 64) == 0
  {
    Words();
    DoubledIs(c, 64);
    ModUnique(c * Pow2(64), WORD64, c, 0);
  }

  lemma DoubledPower(k: nat, j: nat)
    requires k < 64
    ensures Doubled(Pow2(k), j) == if k + j < 64 then Pow2(k + j) else 0
  {
    Words();
    PowOrder(64, k);
    DoubledIs(Pow2(k), j);
    PowAdd(k, j);
    PowerRest(k + j, 64);
  }

  lemma CapacityOfDoubled(k: nat, j: nat)
    requires k < 64
    ensures Capacity(Doubled(Pow2(k), j)) == if 3 <= k + j <= 31 then Pow2(k + j) else LEAST
  {
    DoubledPower(k, j);
    if k + j < 64 { CapacityOfPower(k + j); }
  }

  // ---------------------------------------------------------------- what a grow can do

  /** Attempt number j finds memory, and does not fit all entries. */
  ghost predicate Restarts(room: (nat, nat) -> bool, len: nat, count: nat, c: nat, malloc: nat -> bool, at: nat, j: nat) {
    len <= Doubled(c, j) && malloc(at + j) && !room(Capacity(Doubled(c, j)), count)
  }

  ghost predicate AllRestart(room: (nat, nat) -> bool, len: nat, count: nat, c: nat, malloc: nat -> bool, at: nat, tries: nat) {
    forall j: nat | j < tries :: Restarts(room, len, count, c, malloc, at, j)
  }

  lemma OneMore(room: (nat, nat) -> bool, len: nat, count: nat, c: nat, malloc: nat -> bool, at: nat, tries: nat)
    requires AllRestart(room, len, count, c, malloc, at, tries)
    requires Restarts(room, len, count, c, malloc, at, tries)
    ensures AllRestart(room, len, count, c, malloc, at, tries + 1)
  {
  }

  /** A grow of a table of `len` slots with `count` entries, when c is asked for: after some restarts it
    installs a table of `size` slots, or the doubled capacity has become less than the present one, or an
    allocation fails. Entries that there is `room` for fit; those that there is none for may fit too.
    Allocations are numbered from `at` on, and the next one will be number `next`. */
  ghost predicate Grows(room: (nat, nat) -> bool, len: nat, count: nat, c: nat, malloc: nat -> bool, at: nat,
                        tries: nat, ok: bool, size: nat, next: nat)
  {
    && AllRestart(room, len, count, c, malloc, at, tries)
    && (if ok then
          && len <= Doubled(c, tries) && malloc(at + tries) && next == at + tries + 1
          && size == Capacity(Doubled(c, tries)) && count <= size
        else if len <= Doubled(c, tries) then
          !malloc(at + tries) && next == at + tries + 1
        else
          next == at + tries)
  }

  /** Entries for which there is room in the capacity asked for: as long as that is at most 2^31, the
    first attempt decides. */
  lemma FirstFits(room: (nat, nat) -> bool, len: nat, count: nat, c: nat, malloc: nat -> bool, at: nat,
                  tries: nat, ok: bool, size: nat, next: nat)
    requires Grows(room, len, count, c, malloc, at, tries, ok, size, next)
    requires c < WORD64 && room(Capacity(c), count)
    ensures tries == 0
    ensures ok ==> size == Capacity(c)
    ensures !ok ==> c < len || (next == at + 1 && !malloc(at))
  {
    assert tries > 0 ==> Restarts(room, len, count, c, malloc, at, 0);
  }

  /** What the documentation promises (doc/ck_hs_grow, doc/ck_rhs_grow): unless memory is short, a grow
    succeeds, and the table then holds as many entries as were asked for. When the capacity asked for has
    room for the entries there are, that is so exactly if it is neither less than the present one nor more
    than 2^31. */
  lemma PromiseExactly(room: (nat, nat) -> bool, len: nat, count: nat, c: nat, malloc: nat -> bool, at: nat,
                       tries: nat, ok: bool, size: nat, next: nat)
    requires Grows(room, len, count, c, malloc, at, tries, ok, size, next)
    requires c < WORD64 && (forall i | at <= i < next :: malloc(i))
    requires c <= MOST ==> room(Capacity(c), count)
    ensures ok && size >= c <==> len <= c <= MOST
  {
    CapacityCovers(Doubled(c, tries));
    CapacityCovers(c);
    if c <= MOST { FirstFits(room, len, count, c, malloc, at, tries, ok, size, next); }
  }

  /** Asked for 2^32 slots, few entries end up in a table of one line. */
  lemma ShrinksAtWord(room: (nat, nat) -> bool, len: nat, count: nat, malloc: nat -> bool, at: nat,
                      tries: nat, ok: bool, size: nat, next: nat)
    requires Grows(room, len, count, WORD32, malloc, at, tries, ok, size, next)
    requires len <= MOST && room(LEAST, count) && malloc(at)
    ensures ok && size == LEAST
  {
    Words();
    CapacityOfPower(32);
    FirstFits(room, len, count, WORD32, malloc, at, tries, ok, size, next);
  }

  /** With more entries than a line has slots, the grow fails, with memory for all its attempts: each
    makes one line, until the doubled capacity is 0. */
  lemma FailsAtWord(room: (nat, nat) -> bool, len: nat, count: nat, malloc: nat -> bool, at: nat,
                    tries: nat, ok: bool, size: nat, next: nat)
    requires Grows(room, len, count, WORD32, malloc, at, tries, ok, size, next)
    requires 0 < len <= MOST && count > LEAST && (forall i | at <= i < next :: malloc(i))
    ensures !ok && tries == 32 && next == at + 32
  {
    Words();
    CapacityOfDoubled(32, tries);
    DoubledPower(32, tries);
    DoubledPower(32, 32);
    PowOrder(32, 32 + tries);
    assert tries > 32 ==> Restarts(room, len, count, WORD32, malloc, at, 32);
  }

  /** Doubling a table whose size is a power of two never yields a smaller one, as long as no room for
    the entries means that they are more than a line takes. */
  lemma DoublingGrows(room: (nat, nat) -> bool, k: nat, count: nat, malloc: nat -> bool, at: nat,
                      tries: nat, ok: bool, size: nat, next: nat)
    requires Grows(room, Pow2(k), count, 2 * Pow2(k), malloc, at, tries, ok, size, next) && ok
    requires 3 <= k <= 31 && (k == 31 ==> count > LEAST)
    requires forall cap: nat {:trigger room(cap, count)} :: !room(cap, count) ==> count > LEAST
    ensures size >= 2 * Pow2(k)
  {
    Words();
    assert 2 * Pow2(k) == Pow2(k + 1);
    CapacityOfDoubled(k + 1, tries);
    PowOrder(k + 1, k + 1 + tries);
    if tries > 0 { assert Restarts(room, Pow2(k), count, Pow2(k + 1), malloc, at, 0); }
  }
}
