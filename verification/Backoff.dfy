/** The sleeping times of src/ck_ec.c:100-180 and src/ck_ec_timeutil.h: when the inner loop of
  `exponential_backoff` finds a deadline that is still to come. Times are in nanoseconds, without the
  clamping at the end of time. */
module Backoff {
  import opened Prelude
  import Growth

  const UINT_MAX := 0xFFFF_FFFF
  const SECOND := 1_000_000_000

  type Word = n: nat | n <= UINT_MAX

  /** The shift count is documented to be less than 32 (include/ck_ec.h:96-99). */
  type Shift = n: nat | n < 32

  /** The product and the threshold of `wait_time_scale` lose no bits in 64-bit words. */
  lemma NoBitsLost(ns: Word, factor: Word, shift: Shift)
    ensures ns * factor < 0x1_0000_0000_0000_0000 && UINT_MAX * Pow2(shift) < 0x1_0000_0000_0000_0000
  {
    Times(ns, UINT_MAX, factor);
    Growth.Words();
    Growth.PowOrder(shift, 31);
  }

  /** `wait_time_scale`: (ns * factor) >> shift, clamped. */
  function Scale(ns: nat, factor: Word, shift: Shift): (r: nat)
    requires ns <= UINT_MAX
    ensures r <= UINT_MAX
  {
    if ns * factor >= UINT_MAX * Pow2(shift) then UINT_MAX
    else
      QuotientBelow(ns * factor, Pow2(shift), UINT_MAX);
      Shifted(ns * factor, Pow2(shift))
  }

  function Shifted(x: nat, p: nat): (q: nat)
    requires p > 0
    ensures q == x / p
  {
    x / p
  }

  lemma QuotientBelow(x: nat, p: nat, b: nat)
    requires p > 0 && x < b * p
    ensures x / p < b
  {
    var q := x / p;
    assert x == p * q + x % p;
    MulSign(q - b, p);
  }

  /** A quotient reaches b exactly when the dividend reaches b times the divisor. */
  lemma Reaches(x: nat, p: nat, b: nat)
    requires p > 0
    ensures x / p >= b <==> x >= b * p
  {
    var q := x / p;
    assert x == p * q + x % p;
    MulSign(q - b, p);
    MulSign(b - q, p);
    assert (q - b) * p == q * p - b * p;
  }

  /** What `timespec_add_ns` adds: at most a second. */
  function Clamp(ns: nat): nat { if ns > SECOND then SECOND else ns }

  ghost predicate Grows(ns: nat, factor: Word, shift: Shift) {
    ns <= UINT_MAX && Scale(ns, factor, shift) > ns
  }

  lemma GrowsMeans(ns: nat, factor: Word, shift: Shift)
    requires ns <= UINT_MAX
    ensures Grows(ns, factor, shift) <==> ns < UINT_MAX && ns * factor >= (ns + 1) * Pow2(shift)
  {
    var p := Pow2(shift);
    Reaches(ns * factor, p, ns + 1);
    if ns < UINT_MAX {
      Times(ns + 1, UINT_MAX, p);
    }
  }

  lemma Times(a: nat, b: nat, p: nat)
    requires a <= b
    ensures a * p <= b * p
  {
    assert (b - a) * p >= 0;
    assert (b - a) * p == b * p - a * p;
  }

  lemma Exceeds(n: nat, f: nat, p: nat)
    requires n * f >= (n + 1) * p && p > 0
    ensures f > p
  {
    assert (n + 1) * p == n * p + p;
    if f <= p { Times(f, p, n); }
  }

  lemma Further(n: nat, m: nat, f: nat, p: nat)
    requires n <= m && n * f >= (n + 1) * p && p > 0
    ensures m * f >= (m + 1) * p
  {
    Exceeds(n, f, p);
    assert (m - n) * (f - p) >= 0;
    assert (m - n) * (f - p) == m * f - n * f - m * p + n * p;
  }

  /** A time that grows once keeps growing, up to the largest word. */
  lemma GrowsOn(n: nat, m: nat, factor: Word, shift: Shift)
    requires Grows(n, factor, shift) && n <= m < UINT_MAX
    ensures Grows(m, factor, shift)
  {
    GrowsMeans(n, factor, shift);
    Further(n, m, factor, Pow2(shift));
    GrowsMeans(m, factor, shift);
  }

  /** A time that does not grow is never exceeded by those that follow it. */
  lemma ShrinksOn(n: nat, m: nat, factor: Word, shift: Shift)
    requires n <= UINT_MAX && m <= n && !Grows(n, factor, shift)
    ensures Scale(m, factor, shift) <= n
  {
    var p := Pow2(shift);
    Times(m, n, factor);
    Reaches(m * factor, p, n + 1);
    Reaches(n * factor, p, n + 1);
    if n < UINT_MAX { GrowsMeans(n, factor, shift); Times(n + 1, UINT_MAX, p); }
  }

  /** The time that the inner loop tries after k rounds. */
  ghost function Tried(ns: nat, k: nat, factor: Word, shift: Shift): (r: nat)
    requires ns <= UINT_MAX
    ensures r <= UINT_MAX
  {
    if k == 0 then ns else Scale(Tried(ns, k - 1, factor, shift), factor, shift)
  }

  /** Some round of the loop finds a deadline after `elapsed` nanoseconds. */
  ghost predicate Ends(ns: nat, elapsed: nat, factor: Word, shift: Shift)
    requires ns <= UINT_MAX
  {
    exists k: nat :: Clamp(Tried(ns, k, factor, shift)) > elapsed
  }

  lemma {:induction false} Stuck(ns: nat, k: nat, factor: Word, shift: Shift)
    requires ns <= UINT_MAX && !Grows(ns, factor, shift)
    ensures Tried(ns, k, factor, shift) <= ns
  {
    if k > 0 {
      Stuck(ns, k - 1, factor, shift);
      ShrinksOn(ns, Tried(ns, k - 1, factor, shift), factor, shift);
    }
  }

  lemma {:induction false} Climbs(ns: nat, k: nat, factor: Word, shift: Shift)
    requires Grows(ns, factor, shift)
    ensures Tried(ns, k, factor, shift) >= (if ns + k < UINT_MAX then ns + k else UINT_MAX)
  {
    if k > 0 {
      Climbs(ns, k - 1, factor, shift);
      var t := Tried(ns, k - 1, factor, shift);
      if t < UINT_MAX { GrowsOn(ns, t, factor, shift); } else { AtMost(ns, factor, shift); }
    }
  }

  /** The largest word stays. */
  lemma AtMost(ns: nat, factor: Word, shift: Shift)
    requires Grows(ns, factor, shift)
    ensures Scale(UINT_MAX, factor, shift) == UINT_MAX
  {
    GrowsMeans(ns, factor, shift);
    Further(ns, UINT_MAX, factor, Pow2(shift));
    Times(UINT_MAX, UINT_MAX + 1, Pow2(shift));
  }

  /** The inner loop ends exactly when the present time is long enough or the scaling makes it grow. */
  lemma EndsExactly(ns: nat, elapsed: nat, factor: Word, shift: Shift)
    requires ns <= UINT_MAX && elapsed < SECOND
    ensures Ends(ns, elapsed, factor, shift) <==> ns > elapsed || Grows(ns, factor, shift)
  {
    if ns > elapsed {
      assert Clamp(Tried(ns, 0, factor, shift)) > elapsed;
    } else if Grows(ns, factor, shift) {
      Climbs(ns, SECOND, factor, shift);
      assert Clamp(Tried(ns, SECOND, factor, shift)) > elapsed;
    } else {
      forall k: nat ensures Clamp(Tried(ns, k, factor, shift)) <= elapsed { Stuck(ns, k, factor, shift); }
    }
  }

  /** The inner loop. A time that grows goes on to do so, or has reached the largest word: so the loop
    ends in every later round of the backoff too. */
  method NextDeadline(begin: nat, now: nat, ns: nat, factor: Word, shift: Shift) returns (deadline: nat, ns': nat, ghost k: nat)
    requires begin <= now < begin + SECOND && ns <= UINT_MAX
    requires ns > now - begin || Grows(ns, factor, shift)
    ensures now < deadline <= begin + SECOND && ns' <= UINT_MAX
    ensures deadline == begin + Clamp(Tried(ns, k, factor, shift)) && ns' == Tried(ns, k + 1, factor, shift)
    ensures forall j: nat | j < k :: begin + Clamp(Tried(ns, j, factor, shift)) <= now
    ensures Grows(ns, factor, shift) ==> ns' == UINT_MAX || Grows(ns', factor, shift)
  {
    k := 0;
    deadline, ns' := begin + Clamp(ns), Scale(ns, factor, shift);
    if Grows(ns, factor, shift) && ns' < UINT_MAX { GrowsOn(ns, ns', factor, shift); }
    while deadline <= now
      invariant ns' <= UINT_MAX && deadline == begin + Clamp(Tried(ns, k, factor, shift)) && ns' == Tried(ns, k + 1, factor, shift)
      invariant Grows(ns, factor, shift) ==> ns' == UINT_MAX || Grows(ns', factor, shift)
      invariant forall j: nat | j < k :: begin + Clamp(Tried(ns, j, factor, shift)) <= now
      invariant deadline <= now ==> Grows(ns, factor, shift) && ns' > deadline - begin
      decreases if deadline <= now then begin + SECOND - deadline else 0
    {
      ghost var was := ns';
      deadline, ns' := begin + Clamp(ns'), Scale(ns', factor, shift);
      k := k + 1;
      if was == UINT_MAX { AtMost(ns, factor, shift); }
      if ns' < UINT_MAX { GrowsOn(was, ns', factor, shift); }
    }
  }
}
