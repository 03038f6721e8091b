/** The bit tricks of src/ck_internal.h:31-89 on 32-bit words, and the numbers that they compute. */
module Bits {
  import opened Prelude

  const WORDS := 0x1_0000_0000

  /** `ck_internal_log`. */
  function Log(v: bv32): bv32 {
    (if v & 0xAAAAAAAA != 0 then 1 else 0)
    | ((if v & 0xFFFF0000 != 0 then 1 else 0) << 4)
    | ((if v & 0xFF00FF00 != 0 then 1 else 0) << 3)
    | ((if v & 0xF0F0F0F0 != 0 then 1 else 0) << 2)
    | ((if v & 0xCCCCCCCC != 0 then 1 else 0) << 1)
  }

  /** `ck_internal_power_2`. */
  function PowerOf2(v: bv32): bv32 {
    var v0 := v - 1;
    var v1 := v0 | (v0 >> 1);
    var v2 := v1 | (v1 >> 2);
    var v3 := v2 | (v2 >> 4);
    var v4 := v3 | (v3 >> 8);
    (v4 | (v4 >> 16)) + 1
  }

  /** `ck_internal_max_32`; the negation of a comparison is all ones or 0. */
  function Max(x: bv32, y: bv32): bv32 {
    Select(x, y, x < y)
  }

  function Select(x: bv32, y: bv32, second: bool): bv32 {
    x ^ ((x ^ y) & (if second then 0xFFFFFFFF else 0))
  }

  predicate OneBit(v: bv32) {
    v != 0 && v & (v - 1) == 0
  }

  /** The least power of two that is not below v, as far as a word can hold it. */
  lemma PowerOf2IsNext(v: bv32)
    ensures 0 < v <= 0x80000000 <==> PowerOf2(v) != 0
    ensures PowerOf2(v) != 0 ==> OneBit(PowerOf2(v)) && PowerOf2(v) >= v && PowerOf2(v) >> 1 < v
  {
  }

  lemma MaxIsMax(x: bv32, y: bv32)
    ensures Max(x, y) == if x < y then y else x
  {
    SelectsSecond(x, y);
    SelectsFirst(x, y);
  }

  lemma SelectsSecond(x: bv32, y: bv32)
    ensures Select(x, y, true) == y
  {
  }

  lemma SelectsFirst(x: bv32, y: bv32)
    ensures Select(x, y, false) == x
  {
  }

  // ---------------------------------------------------------------- words as numbers

  function Half(v: bv32): bv32 { v >> 1 }

  function Low(v: bv32): nat { if v & 1 == 0 then 0 else 1 }

  lemma Doubled(w: bv32)
    requires w < 0x80000000
    ensures (w << 1) as nat == 2 * (w as nat) && ((w << 1) | 1) as nat == 2 * (w as nat) + 1
  {
  }

  lemma HalfBits(v: bv32)
    ensures Half(v) < 0x80000000
    ensures v == if v & 1 == 0 then Half(v) << 1 else (Half(v) << 1) | 1
  {
  }

  lemma Halved(v: bv32)
    ensures v as nat == 2 * (Half(v) as nat) + Low(v)
  {
    HalfBits(v);
    Doubled(Half(v));
  }

  lemma Small(v: bv32)
    ensures v == 0 <==> v as nat == 0
    ensures v != 0 ==> Half(v) as nat < v as nat
  {
    Halved(v);
  }

  /** A number that fits, as a word. */
  function Word(n: nat): (v: bv32)
    requires n < WORDS
    ensures v as nat == n
  {
    if n == 0 then 0
    else
      var w := Word(n / 2);
      WordFits(w, n);
      if n % 2 == 0 then w << 1 else (w << 1) | 1
  }

  lemma WordFits(w: bv32, n: nat)
    requires n < WORDS && w as nat == n / 2
    ensures w < 0x80000000
    ensures (w << 1) as nat == 2 * (n / 2) && ((w << 1) | 1) as nat == 2 * (n / 2) + 1
  {
    assert w as nat < 0x80000000;
    Doubled(w);
  }

  /** The logarithm of a power of two. */
  lemma {:induction false} LogIsExponent(v: bv32)
    requires OneBit(v)
    ensures Pow2(Log(v) as nat) == v as nat
    decreases v as nat
  {
    if v == 1 {
      assert Log(1) == 0;
    } else {
      LogBits(v);
      LowBitClear(v);
      Small(v);
      LogIsExponent(Half(v));
      LogStep(Number(Log(v)), Number(Log(Half(v))), Number(v), Number(Half(v)));
    }
  }

  lemma LowBitClear(v: bv32)
    requires v & 1 == 0
    ensures Number(v) == 2 * Number(Half(v))
  {
    Halved(v);
  }

  lemma LogStep(s: nat, s': nat, n: nat, n': nat)
    requires s == s' + 1 && n == 2 * n' && Pow2(s') == n'
    ensures Pow2(s) == n
  {
  }

  lemma LogBits(v: bv32)
    requires OneBit(v)
    ensures v == 1 ==> Log(v) == 0
    ensures v != 1 ==> v & 1 == 0 && OneBit(Half(v)) && Log(v) as nat == Log(Half(v)) as nat + 1
  {
    assert v != 1 ==> Log(Half(v)) < 31 && Log(v) == Log(Half(v)) + 1;
  }

  function Masked(x: bv32, m: bv32): bv32 { x & (m - 1) }

  lemma MaskBits(x: bv32, m: bv32)
    requires OneBit(m)
    ensures m == 1 ==> Masked(x, m) == 0
    ensures m != 1 ==>
      m & 1 == 0 && OneBit(Half(m)) && Half(Masked(x, m)) == Masked(Half(x), Half(m)) && Low(Masked(x, m)) == Low(x)
  {
  }

  /** Masking with a power of two less one is the remainder. */
  lemma {:induction false} MaskIsMod(x: bv32, m: bv32)
    requires OneBit(m)
    ensures m as nat > 0 && Masked(x, m) as nat == x as nat % m as nat
    decreases m as nat
  {
    Small(m);
    if m != 1 {
      var r := Masked(x, m);
      HalfAll(x, m);
      MaskBits(x, m);
      MaskIsMod(Half(x), Half(m));
      HalfMod(Number(x), Number(Half(x)), Number(m), Number(Half(m)), Number(r), Number(Half(r)), Low(x));
    } else {
      assert Masked(x, m) == 0;
    }
  }

  function Number(v: bv32): nat { v as nat }

  lemma HalfAll(x: bv32, m: bv32)
    requires OneBit(m) && m != 1
    ensures var r := Masked(x, m);
            && Number(m) == 2 * Number(Half(m)) && Number(x) == 2 * Number(Half(x)) + Low(x)
            && Number(r) == 2 * Number(Half(r)) + Low(x)
  {
    MaskBits(x, m);
    Halved(x);
    Halved(m);
    Halved(Masked(x, m));
  }

  lemma HalfMod(x: nat, y: nat, m: nat, k: nat, r: nat, h: nat, b: nat)
    requires k > 0 && b <= 1 && x == 2 * y + b && m == 2 * k && r == 2 * h + b && h == y % k
    ensures r == x % m
  {
    var q := y / k;
    assert y == q * k + h;
    assert 2 * (q * k) == q * m;
    ModUnique(x, m, q, r);
  }

  /** The order of words is that of numbers, at least against a power of two. */
  lemma {:induction false} BelowPower(v: bv32, r: bv32)
    requires OneBit(r) && v < r
    ensures Number(v) < Number(r)
    decreases r as nat
  {
    Small(r);
    if r != 1 {
      BelowBits(v, r);
      BelowPower(Half(v), Half(r));
      HalfNumbers(v, r);
    }
  }

  lemma BelowBits(v: bv32, r: bv32)
    requires OneBit(r) && v < r && r != 1
    ensures OneBit(Half(r)) && Half(v) < Half(r) && r & 1 == 0
  {
  }

  lemma HalfNumbers(v: bv32, r: bv32)
    ensures Number(v) == 2 * Number(Half(v)) + Low(v) && Number(r) == 2 * Number(Half(r)) + Low(r)
  {
    Halved(v);
    Halved(r);
  }

  lemma AbovePower(v: bv32, r: bv32)
    requires OneBit(r) && r < v
    ensures Number(r) < Number(v)
  {
  }

  /** The least s, from `from` on, with 2^s >= n. */
  function Exponent(from: nat, n: nat): (s: nat)
    ensures s >= from && Pow2(s) >= n
    decreases n - Pow2(from)
  {
    if Pow2(from) >= n then from else Exponent(from + 1, n)
  }

  lemma {:induction false} ExponentIs(from: nat, n: nat, s: nat)
    requires from <= s && Pow2(s) >= n && (s == from || Pow2(s) < 2 * n)
    ensures Exponent(from, n) == s
    decreases s - from
  {
    if from < s {
      PowersGrow(from + 1, s);
      ExponentIs(from + 1, n, s);
    }
  }

  lemma {:induction false} ExponentLeast(from: nat, n: nat, k: nat)
    requires from <= k < Exponent(from, n)
    ensures Pow2(k) < n
    decreases k - from
  {
    if from < k { ExponentLeast(from + 1, n, k); }
  }

  lemma {:induction false} PowersGrow(a: nat, b: nat)
    requires a <= b
    ensures Pow2(a) <= Pow2(b)
  {
    if a < b { PowersGrow(a, b - 1); }
  }

  /** `ck_internal_log` after `ck_internal_power_2`: the rounded-up logarithm of n, exactly as long as
    a word can hold the power. */
  method CeilLog(n: nat) returns (s: nat)
    requires 0 < n < WORDS
    ensures s == if n <= 0x80000000 then Exponent(0, n) else 0
  {
    var v := Word(n);
    s := Log(PowerOf2(v)) as nat;
    LogOfPower(v, s);
  }

  lemma LogOfPower(v: bv32, s: nat)
    requires Number(v) > 0 && s == Number(Log(PowerOf2(v)))
    ensures s == if Number(v) <= 0x80000000 then Exponent(0, Number(v)) else 0
  {
    if Number(v) <= 0x80000000 {
      ShortPower(v);
      ExponentIs(0, Number(v), s);
    } else {
      NoPower(v);
    }
  }

  /** `ck_internal_power_2` as a number: the least power of two that is not below n, or 0 where a word
    cannot hold it, and for 0. */
  method NextPower(n: nat) returns (r: nat)
    requires n < WORDS
    ensures r == if 0 < n <= 0x80000000 then Pow2(Exponent(0, n)) else 0
  {
    var v := Word(n);
    r := PowerOf2(v) as nat;
    PowerIs(v);
  }

  lemma PowerIs(v: bv32)
    ensures Number(PowerOf2(v)) == if 0 < Number(v) <= 0x80000000 then Pow2(Exponent(0, Number(v))) else 0
  {
    PowerOf2IsNext(v);
    if 0 < Number(v) <= 0x80000000 {
      assert 0 < v <= 0x80000000;
      LogIsExponent(PowerOf2(v));
      LogOfPower(v, Number(Log(PowerOf2(v))));
    } else {
      assert v == 0 || v > 0x80000000;
    }
  }

  /** A remainder, by masking when the divisor is a power of two. */
  method Remainder(x: nat, m: nat) returns (r: nat)
    requires x < WORDS && 0 < m < WORDS
    ensures r == x % m
  {
    var w := Word(m);
    if w & (w - 1) == 0 {
      MaskIsMod(Word(x), w);
      r := Masked(Word(x), w) as nat;
    } else {
      r := x % m;
    }
  }

  lemma ShortPower(v: bv32)
    requires 0 < Number(v) <= 0x80000000
    ensures var s := Number(Log(PowerOf2(v))); Pow2(s) >= Number(v) && (Number(v) > 1 ==> Pow2(s) < 2 * Number(v))
  {
    assert 0 < v <= 0x80000000;
    PowerOf2IsNext(v);
    Rounds(v, PowerOf2(v));
  }

  lemma NoPower(v: bv32)
    requires Number(v) > 0x80000000
    ensures Number(Log(PowerOf2(v))) == 0
  {
    assert v > 0x80000000;
    PowerOf2IsNext(v);
    assert PowerOf2(v) == 0 && Log(0) == 0;
  }

  lemma Rounds(v: bv32, r: bv32)
    requires OneBit(r) && v <= r && Half(r) < v
    ensures var s := Number(Log(r)); Number(v) <= Pow2(s) && (Number(v) > 1 ==> Pow2(s) < 2 * Number(v))
  {
    AtMost(v, r);
    LessThanTwice(v, r);
    LogIsExponent(r);
  }

  lemma AtMost(v: bv32, r: bv32)
    requires OneBit(r) && v <= r
    ensures Number(v) <= Number(r)
  {
    if v < r { BelowPower(v, r); }
  }

  lemma LessThanTwice(v: bv32, r: bv32)
    requires OneBit(r) && v <= r && Half(r) < v
    ensures Number(v) > 1 ==> Number(r) < 2 * Number(v)
  {
    if r == 1 {
      assert v == 1;
    } else {
      EvenHalf(r);
      AbovePower(v, Half(r));
      HalfNumbers(v, r);
    }
  }

  lemma EvenHalf(r: bv32)
    requires OneBit(r) && r != 1
    ensures OneBit(Half(r)) && Low(r) == 0
  {
  }
}
