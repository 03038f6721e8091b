/** The dissemination barrier of src/ck_barrier_dissemination.c: how its flags are linked, and that no
  thread leaves an episode before every thread has entered it. */
module Barrier {
  import opened Prelude
  import Machine
  import Bits

  /** The flag of a thread for one round, in one of the two sets. A flag is 0 or ~0: false or true. */
  datatype Flag = Flag(parity: nat, tid: nat, round: nat)

  /** How many rounds an episode has: enough for n threads, exactly as long as a word can hold the
    power of two that they are rounded up to. */
  function Size(n: nat): nat {
    if n <= 0x80000000 then Bits.Exponent(0, n) else 0
  }

  /** The thread that t signals in round r. */
  function Partner(n: nat, t: nat, r: nat): (j: nat)
    requires n > 0
    ensures j < n
  {
    (t + Pow2(r)) % n
  }

  class Barrier {
    const nthr: nat
    const size: nat
    const pflag: array3<Flag>
    const tflag: array3<bool>

    /** `ck_barrier_dissemination_init`. Indices are parity, thread and round; additions wrap as
      those of `unsigned int` do. */
    constructor (n: nat)
      requires 0 < n < Bits.WORDS
      ensures nthr == n && size == Size(n) && fresh(pflag) && fresh(tflag)
      ensures pflag.Length0 == tflag.Length0 == 2 && pflag.Length1 == tflag.Length1 == n && pflag.Length2 == tflag.Length2 == size
      ensures forall p: nat, i: nat, k: nat | p < 2 && i < n && k < size ::
        pflag[p, i, k] == Flag(p, Partner(n, i, k), k) && !tflag[p, i, k]
    {
      nthr := n;
      var s := Bits.CeilLog(n);
      size := s;
      pflag := new Flag[2, n, s]((_, _, _) => Flag(0, 0, 0));
      tflag := new bool[2, n, s]((_, _, _) => true);
      new;
      var i := 0;
      while i < n
        invariant i <= n
        invariant forall p: nat, x: nat, k: nat | p < 2 && x < i && k < s ::
          pflag[p, x, k] == Flag(p, Partner(n, x, k), k) && !tflag[p, x, k]
      {
        LinkThread(i);
        i := i + 1;
      }
    }

    /** The rounds of one thread. */
    method LinkThread(i: nat)
      requires 0 < nthr < Bits.WORDS && size == Size(nthr) && i < nthr
      requires pflag.Length0 == tflag.Length0 == 2 && pflag.Length1 == tflag.Length1 == nthr && pflag.Length2 == tflag.Length2 == size
      modifies pflag, tflag
      ensures forall p: nat, k: nat | p < 2 && k < size :: pflag[p, i, k] == Flag(p, Partner(nthr, i, k), k) && !tflag[p, i, k]
      ensures forall p: nat, x: nat, k: nat | p < 2 && x < nthr && x != i && k < size ::
        pflag[p, x, k] == old(pflag[p, x, k]) && tflag[p, x, k] == old(tflag[p, x, k])
    {
      var k, offset := 0, 1;
      while k < size
        invariant k <= size && offset == Pow2(k)
        invariant forall p: nat, y: nat | p < 2 && y < k :: pflag[p, i, y] == Flag(p, Partner(nthr, i, y), y) && !tflag[p, i, y]
        invariant forall p: nat, x: nat, y: nat | p < 2 && x < nthr && x != i && y < size ::
          pflag[p, x, y] == old(pflag[p, x, y]) && tflag[p, x, y] == old(tflag[p, x, y])
      {
        NoWrap(nthr, i, k);
        var j := Bits.Remainder((i + offset) % Bits.WORDS, nthr);
        pflag[0, i, k] := Flag(0, j, k);
        pflag[1, i, k] := Flag(1, j, k);
        tflag[0, i, k], tflag[1, i, k] := false, false;
        k, offset := k + 1, offset * 2;
      }
    }
  }

  lemma NoWrap(n: nat, i: nat, k: nat)
    requires 0 < n && i < n && k < Size(n)
    ensures Pow2(k) < n && i + Pow2(k) < Bits.WORDS
  {
    Bits.ExponentLeast(0, n, k);
  }

  // ---------------------------------------------------------------- episodes

  /** Where a thread is: outside, or at a round, before its store or waiting after it. */
  datatype Pc = Out | Round(r: nat, waiting: bool)

  /** `struct ck_barrier_dissemination_state`, and how many episodes the thread has left. */
  datatype Thread = Thread(parity: nat, sense: bool, ep: nat, pc: Pc)

  /** `up` is the set of the flags that are ~0. */
  datatype State = State(up: set<Flag>, threads: seq<Thread>)

  ghost function Start(n: nat): State {
    State({}, seq(n, _ => Thread(0, true, 0, Out)))
  }

  /** Thread t takes a step of `ck_barrier_dissemination`: it enters, stores its partner's flag, loads
    its own, or leaves. */
  ghost function Step(n: nat, size: nat, s: State, t: nat): State
    requires t < |s.threads| && n > 0
  {
    var x := s.threads[t];
    match x.pc
    case Out => s.(threads := s.threads[t := x.(pc := Round(0, false))])
    case Round(r, waiting) =>
      if r >= size then
        s.(threads := s.threads[t := Thread(1 - x.parity % 2, if x.parity == 1 then !x.sense else x.sense, x.ep + 1, Out)])
      else if !waiting then
        var f := Flag(x.parity, Partner(n, t, r), r);
        State(if x.sense then s.up + {f} else s.up - {f}, s.threads[t := x.(pc := Round(r, true))])
      else if (Flag(x.parity, t, r) in s.up) == x.sense then
        s.(threads := s.threads[t := x.(pc := Round(r + 1, false))])
      else s
  }

  /** How many episodes a thread has entered. */
  ghost function Entered(x: Thread): nat { x.ep + if x.pc.Round? then 1 else 0 }

  /** In how many episodes it has stored its flag of round r. */
  ghost function Sent(x: Thread, r: nat): nat {
    x.ep + if x.pc.Round? && (r < x.pc.r || (r == x.pc.r && x.pc.waiting)) then 1 else 0
  }

  /** In how many episodes it has got past round r. */
  ghost function Heard(x: Thread, r: nat): nat { x.ep + if x.pc.Round? && r < x.pc.r then 1 else 0 }

  /** The thread d places before t. */
  ghost function Back(n: nat, t: int, d: int): (j: nat)
    requires n > 0
    ensures j < n
  {
    (t - d) % n
  }

  // ---------------------------------------------------------------- invariant

  ghost predicate ThreadOk(size: nat, x: Thread) {
    && x.parity == x.ep % 2 && x.sense == (x.ep / 2 % 2 == 0)
    && (x.pc.Round? ==> x.pc.r <= size && (x.pc.waiting ==> x.pc.r < size))
  }

  /** The value of a flag of set p after it was stored in the first k episodes: those of its parity
    alternate between ~0 and 0. */
  ghost predicate UpAfter(k: nat, p: nat) { (k + 1 - p) / 2 % 2 == 1 }

  /** The flags that thread i sets in round r tell in how many episodes it has done so. */
  ghost predicate FlagOk(n: nat, s: State, i: nat, r: nat, p: nat)
    requires i < |s.threads| && n > 0 && p < 2
  {
    Flag(p, Partner(n, i, r), r) in s.up <==> UpAfter(Sent(s.threads[i], r), p)
  }

  /** Its partner is not ahead of it. */
  ghost predicate PartnerOk(n: nat, s: State, i: nat, r: nat)
    requires i < |s.threads| == n
  {
    Heard(s.threads[Partner(n, i, r)], r) <= Sent(s.threads[i], r)
  }

  /** A thread past round r has heard, directly or not, from the thread d places before it. */
  ghost predicate HeardFrom(n: nat, s: State, j: nat, r: nat, d: nat)
    requires j < |s.threads| == n
  {
    Heard(s.threads[j], r) <= Entered(s.threads[Back(n, j, d)])
  }

  ghost predicate Inv(n: nat, size: nat, s: State) {
    && |s.threads| == n > 0
    && (forall t: nat | t < n :: ThreadOk(size, s.threads[t]))
    && (forall i: nat, r: nat, p: nat | i < n && r < size && p < 2 :: FlagOk(n, s, i, r, p))
    && (forall i: nat, r: nat | i < n && r < size :: PartnerOk(n, s, i, r))
    && (forall j: nat, r: nat, d: nat | j < n && r < size && d < Pow2(r + 1) :: HeardFrom(n, s, j, r, d))
  }

  /** Walking back d places and on by d places, or back in two parts. */
  lemma BackAndOn(n: nat, t: nat, a: nat, b: nat)
    requires t < n
    ensures (Back(n, t, a) + a) % n == t
    ensures Back(n, Back(n, t, a), b) == Back(n, t, a + b)
  {
    var j, q := Back(n, t, a), (t - a) / n;
    assert t - a == n * q + j;
    assert n * (-q) == -(n * q);
    ModUnique(j + a, n, -q, t);
    var j2, q2 := Back(n, j, b), (j - b) / n;
    assert j - b == n * q2 + j2;
    assert n * (q + q2) == n * q + n * q2;
    ModUnique(t - (a + b), n, q + q2, j2);
  }

  /** Two threads have different partners. */
  lemma PartnersDiffer(n: nat, a: nat, b: nat, r: nat)
    requires a < n && b < n && Partner(n, a, r) == Partner(n, b, r)
    ensures a == b
  {
    SameRest(a + Pow2(r), b + Pow2(r), n);
  }

  lemma BackTo(n: nat, i: nat, j: nat)
    requires i < n && j < n
    ensures Back(n, i, Back(n, i, j)) == j
  {
    var d, q := Back(n, i, j), (i - j) / n;
    assert i - j == n * q + d;
    ModUnique(i - d, n, q, j);
  }

  /** With enough rounds, whoever has left an episode has heard from every thread in it. */
  lemma Together(n: nat, size: nat, s: State, i: nat, j: nat)
    requires Inv(n, size, s) && n <= Pow2(size) && i < n && j < n
    ensures s.threads[i].ep <= Entered(s.threads[j])
  {
    if size > 0 {
      BackTo(n, i, j);
      assert HeardFrom(n, s, i, size - 1, Back(n, i, j));
    }
  }

  // ---------------------------------------------------------------- every step keeps it

  /** Entering, leaving and waiting in vain set no flag and bring no news. */
  lemma QuietKeeps(n: nat, size: nat, s: State, t: nat, x: Thread)
    requires Inv(n, size, s) && t < n && ThreadOk(size, x) && Entered(s.threads[t]) <= Entered(x)
    requires forall r: nat | r < size :: Heard(x, r) == Heard(s.threads[t], r) && Sent(x, r) == Sent(s.threads[t], r)
    ensures Inv(n, size, s.(threads := s.threads[t := x]))
  {
    var s' := s.(threads := s.threads[t := x]);
    forall i: nat, r: nat, p: nat | i < n && r < size && p < 2 ensures FlagOk(n, s', i, r, p) { assert FlagOk(n, s, i, r, p); }
    forall i: nat, r: nat | i < n && r < size ensures PartnerOk(n, s', i, r) { assert PartnerOk(n, s, i, r); }
    forall j: nat, r: nat, d: nat | j < n && r < size && d < Pow2(r + 1) ensures HeardFrom(n, s', j, r, d) {
      assert HeardFrom(n, s, j, r, d);
    }
  }

  lemma StoreKeeps(n: nat, size: nat, s: State, t: nat)
    requires Inv(n, size, s) && t < n && s.threads[t].pc.Round? && s.threads[t].pc.r < size && !s.threads[t].pc.waiting
    ensures Inv(n, size, Step(n, size, s, t))
  {
    var s', x := Step(n, size, s, t), s.threads[t];
    assert ThreadOk(size, x);
    forall i: nat, r: nat, p: nat | i < n && r < size && p < 2 ensures FlagOk(n, s', i, r, p) {
      assert FlagOk(n, s, i, r, p);
      if i != t && r == x.pc.r && Partner(n, i, r) == Partner(n, t, r) { PartnersDiffer(n, i, t, r); }
      if i == t && r == x.pc.r { Toggles(x.ep, p); }
    }
    forall i: nat, r: nat | i < n && r < size ensures PartnerOk(n, s', i, r) { assert PartnerOk(n, s, i, r); }
    forall j: nat, r: nat, d: nat | j < n && r < size && d < Pow2(r + 1) ensures HeardFrom(n, s', j, r, d) {
      assert HeardFrom(n, s, j, r, d);
    }
  }

  /** The store of episode e reverses the flag in the set of its parity, to the sense of e. */
  lemma Toggles(e: nat, p: nat)
    requires p < 2
    ensures e % 2 == p ==> (UpAfter(e + 1, p) <==> e / 2 % 2 == 0) && !UpAfter(e, p) == UpAfter(e + 1, p) == UpAfter(e + 2, p)
    ensures e % 2 != p ==> UpAfter(e + 1, p) == UpAfter(e, p)
  {
  }

  /** A thread that has stored its flag of round r has heard from the 2^r threads up to itself. */
  lemma SentKnows(n: nat, size: nat, s: State, i: nat, r: nat, d: nat)
    requires Inv(n, size, s) && i < n && r < size && d < Pow2(r)
    ensures Sent(s.threads[i], r) <= Entered(s.threads[Back(n, i, d)])
  {
    if r == 0 {
      ModUnique(i, n, 0, i);
    } else {
      assert HeardFrom(n, s, i, r - 1, d);
    }
  }

  /** The flag that a waiting thread sees with its sense was set in this very episode: the thread that
    sets it is neither behind nor two episodes ahead. */
  lemma SeenIsNew(n: nat, size: nat, s: State, j: nat)
    requires Inv(n, size, s) && n <= Pow2(size) && j < n
    requires s.threads[j].pc.Round? && s.threads[j].pc.r < size && s.threads[j].pc.waiting
    requires (Flag(s.threads[j].parity, j, s.threads[j].pc.r) in s.up) == s.threads[j].sense
    ensures Sent(s.threads[Back(n, j, Pow2(s.threads[j].pc.r))], s.threads[j].pc.r) > s.threads[j].ep
  {
    var x, r := s.threads[j], s.threads[j].pc.r;
    var i := Back(n, j, Pow2(r));
    BackAndOn(n, j, Pow2(r), 0);
    assert ThreadOk(size, x) && PartnerOk(n, s, i, r) && FlagOk(n, s, i, r, x.parity);
    Together(n, size, s, i, j);
    Toggles(x.ep, x.parity);
  }

  lemma WaitKeeps(n: nat, size: nat, s: State, t: nat)
    requires Inv(n, size, s) && n <= Pow2(size) && t < n
    requires s.threads[t].pc.Round? && s.threads[t].pc.r < size && s.threads[t].pc.waiting
    requires (Flag(s.threads[t].parity, t, s.threads[t].pc.r) in s.up) == s.threads[t].sense
    ensures Inv(n, size, Step(n, size, s, t))
  {
    var s', x := Step(n, size, s, t), s.threads[t];
    var c := x.pc.r;
    assert ThreadOk(size, x);
    SeenIsNew(n, size, s, t);
    forall i: nat, r: nat, p: nat | i < n && r < size && p < 2 ensures FlagOk(n, s', i, r, p) { assert FlagOk(n, s, i, r, p); }
    forall i: nat, r: nat | i < n && r < size ensures PartnerOk(n, s', i, r) {
      assert PartnerOk(n, s, i, r);
      if Partner(n, i, r) == t && r == c {
        BackAndOn(n, t, Pow2(r), 0);
        PartnersDiffer(n, i, Back(n, t, Pow2(r)), r);
      }
    }
    forall j: nat, r: nat, d: nat | j < n && r < size && d < Pow2(r + 1) ensures HeardFrom(n, s', j, r, d) {
      assert HeardFrom(n, s, j, r, d);
      if j == t && r == c { NewsOf(n, size, s, t, d); }
    }
  }

  /** After round r a thread has heard from its 2^(r + 1) - 1 predecessors. */
  lemma NewsOf(n: nat, size: nat, s: State, j: nat, d: nat)
    requires Inv(n, size, s) && n <= Pow2(size) && j < n
    requires s.threads[j].pc.Round? && s.threads[j].pc.r < size && s.threads[j].pc.waiting && d < Pow2(s.threads[j].pc.r + 1)
    requires (Flag(s.threads[j].parity, j, s.threads[j].pc.r) in s.up) == s.threads[j].sense
    ensures s.threads[j].ep < Entered(s.threads[Back(n, j, d)])
  {
    var r := s.threads[j].pc.r;
    if d < Pow2(r) {
      SentKnows(n, size, s, j, r, d);
    } else {
      var i := Back(n, j, Pow2(r));
      SeenIsNew(n, size, s, j);
      BackAndOn(n, j, Pow2(r), d - Pow2(r));
      SentKnows(n, size, s, i, r, d - Pow2(r));
    }
  }

  lemma EnterKeeps(n: nat, size: nat, s: State, t: nat)
    requires Inv(n, size, s) && t < n && s.threads[t].pc.Out?
    ensures Inv(n, size, Step(n, size, s, t))
  {
    assert ThreadOk(size, s.threads[t]);
    QuietKeeps(n, size, s, t, s.threads[t].(pc := Round(0, false)));
  }

  lemma LeaveKeeps(n: nat, size: nat, s: State, t: nat)
    requires Inv(n, size, s) && t < n && s.threads[t].pc.Round? && s.threads[t].pc.r >= size
    ensures Inv(n, size, Step(n, size, s, t))
  {
    assert ThreadOk(size, s.threads[t]);
    QuietKeeps(n, size, s, t, Step(n, size, s, t).threads[t]);
  }

  /** Every step keeps the invariant, whoever takes it. */
  lemma StepKeeps(n: nat, size: nat, s: State, t: nat)
    requires Inv(n, size, s) && n <= Pow2(size) && t < n
    ensures Inv(n, size, Step(n, size, s, t))
  {
    var x := s.threads[t];
    if x.pc.Out? {
      EnterKeeps(n, size, s, t);
    } else if x.pc.r >= size {
      LeaveKeeps(n, size, s, t);
    } else if !x.pc.waiting {
      StoreKeeps(n, size, s, t);
    } else if (Flag(x.parity, t, x.pc.r) in s.up) == x.sense {
      WaitKeeps(n, size, s, t);
    }
  }

  // ---------------------------------------------------------------- nobody waits for ever

  /** The flag of a waiting thread has its sense as soon as the thread that sets it has done so in this episode. */
  lemma SentIsSeen(n: nat, size: nat, s: State, j: nat)
    requires Inv(n, size, s) && n <= Pow2(size) && j < n
    requires s.threads[j].pc.Round? && s.threads[j].pc.r < size && s.threads[j].pc.waiting
    requires Sent(s.threads[Back(n, j, Pow2(s.threads[j].pc.r))], s.threads[j].pc.r) > s.threads[j].ep
    ensures (Flag(s.threads[j].parity, j, s.threads[j].pc.r) in s.up) == s.threads[j].sense
  {
    var x, r := s.threads[j], s.threads[j].pc.r;
    var i := Back(n, j, Pow2(r));
    BackAndOn(n, j, Pow2(r), 0);
    assert ThreadOk(size, x) && FlagOk(n, s, i, r, x.parity);
    Together(n, size, s, i, j);
    Toggles(x.ep, x.parity);
  }

  /** If all threads have entered an episode that thread t has not left, there is one in it whose next access
    takes it further: t, or one that it waits for, directly or not. */
  lemma SomeoneMoves(n: nat, size: nat, s: State, t: nat) returns (u: nat)
    requires Inv(n, size, s) && n <= Pow2(size) && t < n && s.threads[t].pc.Round?
    requires forall j: nat | j < n :: Entered(s.threads[j]) > s.threads[t].ep
    ensures u < n && s.threads[u].ep == s.threads[t].ep && s.threads[u].pc.Round?
    ensures Step(n, size, s, u).threads[u] != s.threads[u]
    decreases s.threads[t].pc.r
  {
    var x := s.threads[t];
    u := t;
    assert ThreadOk(size, x);
    if x.pc.r < size && x.pc.waiting {
      var i := Back(n, t, Pow2(x.pc.r));
      if Sent(s.threads[i], x.pc.r) > x.ep {
        SentIsSeen(n, size, s, t);
      } else if s.threads[i].pc.r < x.pc.r {
        u := SomeoneMoves(n, size, s, i);
      } else {
        u := i;
        assert ThreadOk(size, s.threads[i]);
      }
    }
  }

  // ---------------------------------------------------------------- runs

  ghost function Moves(n: nat): (State, nat, State) -> bool {
    (s: State, t: nat, s': State) => n > 0 && t < |s.threads| && s' == Step(n, Size(n), s, t)
  }

  /** A run of the barrier of n threads, in which thread ts[k] takes step k. */
  ghost predicate IsRun(n: nat, run: seq<State>, ts: seq<nat>) {
    Machine.Steps(Moves(n), run, ts) && run[0] == Start(n)
  }

  lemma RunInv(n: nat, run: seq<State>, ts: seq<nat>, k: nat)
    requires IsRun(n, run, ts) && 0 < n <= Pow2(Size(n)) && k < |run|
    ensures Inv(n, Size(n), run[k])
  {
    var inv := (s: State) => Inv(n, Size(n), s);
    forall s, t, s' | inv(s) && Moves(n)(s, t, s') ensures inv(s') { StepKeeps(n, Size(n), s, t); }
    Machine.Invariant(Moves(n), inv, run, ts, k);
  }

  /** In no run can the threads of an episode that all have entered wait for each other for ever. */
  lemma NeverStuck(n: nat, run: seq<State>, ts: seq<nat>, k: nat, t: nat) returns (u: nat)
    requires IsRun(n, run, ts) && 0 < n <= 0x80000000 && k < |run| && t < |run[k].threads| && run[k].threads[t].pc.Round?
    requires forall j: nat | j < |run[k].threads| :: Entered(run[k].threads[j]) > run[k].threads[t].ep
    ensures u < |run[k].threads| && run[k].threads[u].ep == run[k].threads[t].ep && run[k].threads[u].pc.Round?
    ensures Step(n, Size(n), run[k], u).threads[u] != run[k].threads[u]
  {
    RunInv(n, run, ts, k);
    u := SomeoneMoves(n, Size(n), run[k], t);
  }

  /** No thread has left an episode that another one has not entered. */
  ghost predicate Separates(s: State) {
    forall i, j | 0 <= i < |s.threads| && 0 <= j < |s.threads| :: s.threads[i].ep <= Entered(s.threads[j])
  }

  ghost predicate Safe(n: nat) {
    forall run: seq<State>, ts: seq<nat>, k: nat | IsRun(n, run, ts) && k < |run| :: Separates(run[k])
  }

  lemma RunSeparates(n: nat, run: seq<State>, ts: seq<nat>, k: nat)
    requires IsRun(n, run, ts) && 0 < n <= 0x80000000 && k < |run|
    ensures Separates(run[k])
  {
    RunInv(n, run, ts, k);
    forall i, j | 0 <= i < |run[k].threads| && 0 <= j < |run[k].threads|
      ensures run[k].threads[i].ep <= Entered(run[k].threads[j])
    {
      Together(n, Size(n), run[k], i, j);
    }
  }

  /** With too many threads there are no rounds, and thread 0 leaves while thread 1 is still outside. */
  lemma TooMany(n: nat)
    requires n > 0x80000000
    ensures !Safe(n)
  {
    var s0 := Start(n);
    var s1 := Step(n, 0, s0, 0);
    var s2 := Step(n, 0, s1, 0);
    var run, ts: seq<nat> := [s0, s1, s2], [0, 0];
    assert Size(n) == 0 && Moves(n)(s0, 0, s1) && Moves(n)(s1, 0, s2);
    assert Machine.StepAt(Moves(n), run, ts, 0) && Machine.StepAt(Moves(n), run, ts, 1);
    assert IsRun(n, run, ts);
    assert s2.threads[0].ep == 1 && Entered(s2.threads[1]) == 0;
    assert !Separates(run[2]);
  }

  /** In every run, no thread leaves an episode before all have entered it: exactly when the number of
    rounds did not overflow. */
  lemma SafeExactly(n: nat)
    requires n > 0
    ensures Safe(n) <==> n <= 0x80000000
  {
    if n > 0x80000000 {
      TooMany(n);
    } else {
      forall run: seq<State>, ts: seq<nat>, k: nat | IsRun(n, run, ts) && k < |run| ensures Separates(run[k]) {
        RunSeparates(n, run, ts, k);
      }
    }
  }
}
