/** The event count of src/ck_ec.c and include/ck_ec.h, for several producers, on 32-bit and on 64-bit
  words.

  A step is one `ck_pr` access or one call to the operating system. Sleeping compares the word, or its
  low half, and puts the thread to sleep in one step; waking ends every sleep. `total` and what a
  waiter remembers besides the value it waits on are history variables. */
module EventCount {
  import opened Prelude
  import Machine

  datatype Width = W32 | W64

  const TWO31 := 0x8000_0000
  const TWO32 := 0x1_0000_0000
  const TWO63 := 0x8000_0000_0000_0000
  const TWO64 := 0x1_0000_0000_0000_0000

  /** How many values there are. */
  function Limit(w: Width): nat { if w.W32? then TWO31 else TWO63 }

  /** In a 32-bit word the flag is the top bit, in a 64-bit word the bottom bit. */
  ghost function Flagged(w: Width, x: nat): bool { if w.W32? then x >= TWO31 else x % 2 == 1 }

  ghost function Value(w: Width, x: nat): nat { if w.W32? then x % TWO31 else x / 2 }

  ghost function Pack(w: Width, v: nat, flag: bool): nat {
    if w.W32? then v + (if flag then TWO31 else 0) else 2 * v + if flag then 1 else 0
  }

  ghost function Add(w: Width, x: nat, d: nat): nat {
    if w.W32? then (x + d) % TWO32 else (x + 2 * d) % TWO64
  }

  ghost function Cleared(w: Width, x: nat): nat { if w.W32? then x % TWO31 else x - x % 2 }

  /** What the operating system compares before it lets a thread sleep. */
  ghost predicate Matches(w: Width, x: nat, y: nat) {
    if w.W32? then x == y else x % TWO32 == y % TWO32
  }

  /** The answer of a wait: 0, or -1 or what the predicate returned. */
  datatype Pc =
    | Idle
    | PAdd(d: nat)
    | PClear
    | PWake
    | WLoad(v: nat, again: bool)
    | WEasy(v: nat)
    | WCas(v: nat)
    | WSpin(v: nat)
    | WBackoff(v: nat)
    | WCheck(v: nat)
    | WFutex(v: nat)
    | WSleep(v: nat)
    | WPost(v: nat)
    | WAfter(v: nat)
    | WDone(v: nat, zero: bool)

  /** `base` is the total when the waiter last saw its word flagged; `differed` says that the value has
    differed from the one waited on, and `cleared` that some producer has cleared the flag, at an
    instant since the call began. */
  datatype Notes = Notes(base: nat, differed: bool, cleared: bool)

  datatype Shared = Shared(w: Width, word: nat, start: nat, total: nat)

  datatype State = State(m: Shared, pcs: seq<Pc>, notes: seq<Notes>)

  datatype Label =
    | AddCall(t: nat, d: nat)
    | WaitCall(t: nat, v: nat)
    | Access(t: nat, spin: bool)
    | GiveUp(t: nat)
    | Spurious(t: nat)

  ghost predicate Init(s: State) {
    && s.m.start < Limit(s.m.w) && s.m.word == Pack(s.m.w, s.m.start, false) && s.m.total == 0
    && |s.notes| == |s.pcs| && forall t | 0 <= t < |s.pcs| :: s.pcs[t].Idle?
  }

  /** The next step of a thread; with `spin` a busy loop goes on. Upgrading is WEasy and WCas, and
    WSpin is the second busy loop. */
  ghost function Step(m: Shared, pc: Pc, spin: bool): (Shared, Pc) {
    match pc
    case PAdd(d) =>
      (m.(word := Add(m.w, m.word, d), total := m.total + d), if Flagged(m.w, m.word) then PClear else Idle)
    case PClear => (m.(word := Cleared(m.w, m.word)), PWake)
    case PWake => (m, Idle)
    case WLoad(v, again) =>
      (m, if Value(m.w, m.word) != v then WDone(v, true) else if again then WEasy(v) else WLoad(v, true))
    case WEasy(v) =>
      (m, if m.word == Pack(m.w, v, false) then (if spin then pc else WCas(v))
          else if m.word == Pack(m.w, v, true) then WSpin(v)
          else WDone(v, true))
    case WCas(v) =>
      if m.word == Pack(m.w, v, false) then (m.(word := Pack(m.w, v, true)), WSpin(v))
      else (m, if m.word == Pack(m.w, v, true) then WSpin(v) else WDone(v, true))
    case WSpin(v) =>
      (m, if m.word != Pack(m.w, v, true) then WDone(v, true) else if spin then pc else WBackoff(v))
    case WBackoff(v) => (m, if m.w.W64? then WCheck(v) else WFutex(v))
    case WCheck(v) => (m, if m.word != Pack(m.w, v, true) then WAfter(v) else WFutex(v))
    case WFutex(v) => (m, if Matches(m.w, m.word, Pack(m.w, v, true)) then WSleep(v) else WPost(v))
    case WPost(v) => (m, if m.word != Pack(m.w, v, true) then WAfter(v) else WBackoff(v))
    case WAfter(v) => (m, if Value(m.w, m.word) != v then WDone(v, true) else WEasy(v))
    case _ => (m, pc)
  }

  ghost predicate Waiting(pc: Pc) {
    !pc.Idle? && !pc.PAdd? && !pc.PClear? && !pc.PWake?
  }

  /** A wake ends every sleep. */
  ghost function Woken(pc: Pc, wake: bool): Pc {
    if wake && pc.WSleep? then WPost(pc.v) else pc
  }

  /** What a waiter notes after a step that led to m. A wait that is over notes nothing any more. */
  ghost function Noted(m: Shared, pc: Pc, pc': Pc, clear: bool, n: Notes): Notes {
    if !Waiting(pc') || pc.WDone? then n
    else Notes(if m.word == Pack(m.w, pc'.v, true) then m.total else n.base,
               n.differed || Value(m.w, m.word) != pc'.v, n.cleared || clear)
  }

  ghost predicate Next(s: State, l: Label, s': State) {
    && l.t < |s.pcs| == |s.notes|
    && match l
       case AddCall(t, d) =>
         (s.pcs[t].Idle? || s.pcs[t].WDone?) && d < Limit(s.m.w) && s' == s.(pcs := s.pcs[t := PAdd(d)])
       case WaitCall(t, v) =>
         && (s.pcs[t].Idle? || s.pcs[t].WDone?)
         && s' == State(s.m, s.pcs[t := WLoad(v, false)], s.notes[t := Notes(s.m.total, Value(s.m.w, s.m.word) != v, false)])
       case GiveUp(t) =>
         (s.pcs[t].WBackoff? || s.pcs[t].WSleep?) && s' == s.(pcs := s.pcs[t := WDone(s.pcs[t].v, false)])
       case Spurious(t) => s.pcs[t].WSleep? && s' == s.(pcs := s.pcs[t := WPost(s.pcs[t].v)])
       case Access(t, spin) =>
         var (m', pc') := Step(s.m, s.pcs[t], spin);
         && s'.m == m' && |s'.pcs| == |s'.notes| == |s.pcs|
         && (forall u | 0 <= u < |s.pcs| :: s'.pcs[u] == if u == t then pc' else Woken(s.pcs[u], s.pcs[t].PWake?))
         && (forall u | 0 <= u < |s.pcs| :: s'.notes[u] == Noted(m', s.pcs[u], s'.pcs[u], s.pcs[t].PClear?, s.notes[u]))
  }

  // ---------------------------------------------------------------- words

  ghost predicate InRange(w: Width, x: nat) { x < if w.W32? then TWO32 else TWO64 }

  lemma Packs(w: Width, v: nat, flag: bool)
    requires v < Limit(w)
    ensures InRange(w, Pack(w, v, flag)) && Value(w, Pack(w, v, flag)) == v && Flagged(w, Pack(w, v, flag)) == flag
  {
  }

  /** A word is its value and its flag. */
  lemma Unpacks(w: Width, x: nat)
    requires InRange(w, x)
    ensures Value(w, x) < Limit(w) && x == Pack(w, Value(w, x), Flagged(w, x))
    ensures Cleared(w, x) == Pack(w, Value(w, x), false)
  {
  }

  lemma Adds(w: Width, x: nat, d: nat)
    requires InRange(w, x) && d < Limit(w)
    ensures InRange(w, Add(w, x, d)) && Value(w, Add(w, x, d)) == (Value(w, x) + d) % Limit(w)
    ensures d == 0 ==> Add(w, x, d) == x
    ensures d > 0 ==> Value(w, Add(w, x, d)) != Value(w, x)
  {
    if w.W32? { Adds32(x, d); } else { Adds64(x, d); }
  }

  lemma Adds32(x: nat, d: nat)
    requires x < TWO32 && d < TWO31
    ensures (x + d) % TWO32 % TWO31 == (x % TWO31 + d) % TWO31
    ensures d > 0 ==> (x + d) % TWO32 % TWO31 != x % TWO31
  {
    var q, r := x / TWO31, x % TWO31;
    assert x == TWO31 * q + r && q <= 1;
    var k, e := (r + d) / TWO31, (r + d) % TWO31;
    assert r + d == TWO31 * k + e && k <= 1;
    var c := q + k;
    ModUnique(x + d, TWO32, c / 2, TWO31 * (c % 2) + e);
    ModUnique(TWO31 * (c % 2) + e, TWO31, c % 2, e);
  }

  lemma Adds64(x: nat, d: nat)
    requires x < TWO64 && d < TWO63
    ensures (x + 2 * d) % TWO64 / 2 == (x / 2 + d) % TWO63
    ensures d > 0 ==> (x + 2 * d) % TWO64 / 2 != x / 2
  {
    var v, b := x / 2, x % 2;
    var k, e := (v + d) / TWO63, (v + d) % TWO63;
    assert v + d == TWO63 * k + e && k <= 1;
    ModUnique(x + 2 * d, TWO64, k, 2 * e + b);
  }

  /** What the operating system compares includes the flag, and the value up to multiples of 2^31. */
  lemma MatchesMeans(w: Width, x: nat, y: nat)
    requires Matches(w, x, y)
    ensures Flagged(w, x) == Flagged(w, y) && Value(w, x) % TWO31 == Value(w, y) % TWO31
  {
    if w.W64? {
      var p, q := x / TWO32, y / TWO32;
      assert x == TWO32 * p + x % TWO32 && y == TWO32 * q + y % TWO32;
      ModUnique(x, 2, TWO31 * p + x % TWO32 / 2, x % TWO32 % 2);
      ModUnique(y, 2, TWO31 * q + y % TWO32 / 2, y % TWO32 % 2);
      ModUnique(x / 2, TWO31, p, x % TWO32 / 2);
      ModUnique(y / 2, TWO31, q, y % TWO32 / 2);
    }
  }

  // ---------------------------------------------------------------- invariant

  ghost predicate SharedOk(m: Shared) {
    InRange(m.w, m.word) && m.start < Limit(m.w) && Value(m.w, m.word) == (m.start + m.total) % Limit(m.w)
  }

  /** A waiter that has seen its value flagged, and will sleep on that word. */
  ghost predicate Seen(pc: Pc) {
    pc.WSpin? || pc.WBackoff? || pc.WCheck? || pc.WFutex? || pc.WSleep? || pc.WPost?
  }

  ghost predicate ThreadOk(m: Shared, pc: Pc, n: Notes) {
    && (pc.PAdd? ==> pc.d < Limit(m.w))
    && (Waiting(pc) && !pc.WDone? && !pc.WLoad? ==> pc.v < Limit(m.w))
    && (pc.WLoad? && pc.again ==> pc.v < Limit(m.w))
    && (Waiting(pc) && !pc.WDone? && Value(m.w, m.word) != pc.v ==> n.differed)
    && (Seen(pc) ==>
          && n.base <= m.total && pc.v == (m.start + n.base) % Limit(m.w)
          && (m.word == Pack(m.w, pc.v, true) || n.differed || n.cleared))
    && (pc.WDone? && pc.zero ==> n.differed || n.cleared)
  }

  ghost predicate Pending(pc: Pc) { pc.PClear? || pc.PWake? }

  ghost predicate SomePending(pcs: seq<Pc>) {
    exists p: nat :: p < |pcs| && Pending(pcs[p])
  }

  ghost predicate SleepsWell(m: Shared, pc: Pc) {
    pc.WSleep? ==> Matches(m.w, m.word, Pack(m.w, pc.v, true))
  }

  /** Whoever sleeps does so on the present word, or a wake is on its way. */
  ghost predicate NoneLost(m: Shared, pcs: seq<Pc>) {
    SomePending(pcs) || forall t: nat | t < |pcs| :: SleepsWell(m, pcs[t])
  }

  ghost predicate Inv(s: State) {
    && SharedOk(s.m) && |s.notes| == |s.pcs| && NoneLost(s.m, s.pcs)
    && forall t: nat | t < |s.pcs| :: ThreadOk(s.m, s.pcs[t], s.notes[t])
  }

  /** The ways in which a step changes the word. */
  datatype Change = Same | Added(d: nat) | FlagCleared | FlagSet(v: nat)

  ghost predicate Changes(m: Shared, m': Shared, c: Change) {
    && m'.w == m.w && m'.start == m.start
    && match c
       case Same => m' == m
       case Added(d) => d < Limit(m.w) && m'.word == Add(m.w, m.word, d) && m'.total == m.total + d
       case FlagCleared => m'.word == Cleared(m.w, m.word) && m'.total == m.total
       case FlagSet(v) => v < Limit(m.w) && m.word == Pack(m.w, v, false) && m'.word == Pack(m.w, v, true) && m'.total == m.total
  }

  lemma ChangeKeeps(m: Shared, m': Shared, c: Change)
    requires SharedOk(m) && Changes(m, m', c)
    ensures SharedOk(m') && m.total <= m'.total
    ensures c.Same? || c.FlagCleared? || c.FlagSet? ==> Value(m.w, m'.word) == Value(m.w, m.word)
    ensures c.Added? ==> m'.word == m.word || Value(m.w, m'.word) != Value(m.w, m.word)
  {
    match c
    case Same =>
    case Added(d) =>
      Adds(m.w, m.word, d);
      ModAdd(m.start + m.total, d, Limit(m.w));
    case FlagCleared =>
      Unpacks(m.w, m.word);
      Packs(m.w, Value(m.w, m.word), false);
    case FlagSet(v) =>
      Packs(m.w, v, false);
      Packs(m.w, v, true);
  }

  /** A waiter's notes stay true through the steps of others. */
  lemma OthersStay(m: Shared, m': Shared, c: Change, pc: Pc, wake: bool, n: Notes)
    requires SharedOk(m) && Changes(m, m', c) && ThreadOk(m, pc, n)
    ensures ThreadOk(m', Woken(pc, wake), Noted(m', pc, Woken(pc, wake), c.FlagCleared?, n))
  {
    ChangeKeeps(m, m', c);
    if Waiting(pc) && pc.v < Limit(m.w) { Packs(m.w, pc.v, true); }
    if c.FlagSet? { Packs(m.w, c.v, false); }
  }

  lemma LoadOk(m: Shared, pc: Pc, spin: bool, n: Notes)
    requires SharedOk(m) && ThreadOk(m, pc, n) && Waiting(pc) && Step(m, pc, spin).0 == m
    ensures var pc' := Step(m, pc, spin).1; ThreadOk(m, pc', Noted(m, pc, pc', false, n))
  {
    Unpacks(m.w, m.word);
    if pc.v < Limit(m.w) { Packs(m.w, pc.v, true); }
  }

  lemma CasOk(m: Shared, pc: Pc, n: Notes)
    requires SharedOk(m) && ThreadOk(m, pc, n) && pc.WCas? && m.word == Pack(m.w, pc.v, false)
    ensures var (m', pc') := Step(m, pc, false);
            Changes(m, m', FlagSet(pc.v)) && ThreadOk(m', pc', Noted(m', pc, pc', false, n))
  {
    Packs(m.w, pc.v, false);
    Packs(m.w, pc.v, true);
  }

  /** How the next step of a thread changes the word. */
  ghost function ChangeOf(m: Shared, pc: Pc): Change {
    if pc.PAdd? then Added(pc.d)
    else if pc.PClear? then FlagCleared
    else if pc.WCas? && m.word == Pack(m.w, pc.v, false) then FlagSet(pc.v)
    else Same
  }

  lemma StepOk(m: Shared, pc: Pc, spin: bool, n: Notes)
    requires SharedOk(m) && ThreadOk(m, pc, n)
    ensures var (m', pc') := Step(m, pc, spin);
            Changes(m, m', ChangeOf(m, pc)) && ThreadOk(m', pc', Noted(m', pc, pc', pc.PClear?, n))
  {
    if pc.WCas? && m.word == Pack(m.w, pc.v, false) {
      CasOk(m, pc, n);
    } else if Waiting(pc) {
      LoadOk(m, pc, spin, n);
    }
  }

  /** A word that a sleeper waits on is flagged; so whoever finds it without the flag finds no sleeper
    without a wake on its way. */
  lemma FlagGuards(s: State, t: nat)
    requires Inv(s) && !SomePending(s.pcs) && t < |s.pcs| && s.pcs[t].WSleep?
    ensures Flagged(s.m.w, s.m.word)
  {
    var v := s.pcs[t].v;
    assert ThreadOk(s.m, s.pcs[t], s.notes[t]) && SleepsWell(s.m, s.pcs[t]);
    Packs(s.m.w, v, true);
    MatchesMeans(s.m.w, s.m.word, Pack(s.m.w, v, true));
  }

  lemma NoneIsLost(s: State, t: nat, spin: bool, s': State)
    requires Inv(s) && Next(s, Access(t, spin), s')
    ensures NoneLost(s'.m, s'.pcs)
  {
    var m, pc := s.m, s.pcs[t];
    assert ThreadOk(m, pc, s.notes[t]);
    if pc.PWake? {
      forall u: nat | u < |s'.pcs| ensures SleepsWell(s'.m, s'.pcs[u]) {}
    } else if SomePending(s.pcs) {
      var p: nat :| p < |s.pcs| && Pending(s.pcs[p]);
      assert Pending(s'.pcs[p]);
    } else if s'.pcs[t].PClear? {
      assert Pending(s'.pcs[t]);
    } else {
      assert !Pending(pc);
      forall u: nat | u < |s'.pcs| ensures SleepsWell(s'.m, s'.pcs[u]) {
        assert SleepsWell(m, s.pcs[u]);
        if s.pcs[u].WSleep? { FlagGuards(s, u); }
        if pc.WCas? && pc.v < Limit(m.w) { Packs(m.w, pc.v, false); }
      }
    }
  }

  /** Starting to add or to wait, giving up at a deadline or by the predicate, and waking for no reason. */
  lemma CallKeeps(s: State, l: Label, s': State)
    requires Inv(s) && Next(s, l, s') && !l.Access?
    ensures Inv(s')
  {
    assert ThreadOk(s.m, s.pcs[l.t], s.notes[l.t]);
    forall u: nat | u < |s'.pcs| ensures ThreadOk(s'.m, s'.pcs[u], s'.notes[u]) { assert ThreadOk(s.m, s.pcs[u], s.notes[u]); }
    if SomePending(s.pcs) {
      var p: nat :| p < |s.pcs| && Pending(s.pcs[p]);
      assert Pending(s'.pcs[p]);
    } else {
      forall u: nat | u < |s'.pcs| ensures SleepsWell(s'.m, s'.pcs[u]) { assert SleepsWell(s.m, s.pcs[u]); }
    }
  }

  lemma NextInv(s: State, l: Label, s': State)
    requires Inv(s) && Next(s, l, s')
    ensures Inv(s')
  {
    if l.Access? {
      var m, pc := s.m, s.pcs[l.t];
      assert ThreadOk(m, pc, s.notes[l.t]);
      StepOk(m, pc, l.spin, s.notes[l.t]);
      ChangeKeeps(m, s'.m, ChangeOf(m, pc));
      forall u: nat | u < |s'.pcs| ensures ThreadOk(s'.m, s'.pcs[u], s'.notes[u]) {
        assert ThreadOk(m, s.pcs[u], s.notes[u]);
        if u != l.t { OthersStay(m, s'.m, ChangeOf(m, pc), s.pcs[u], pc.PWake?, s.notes[u]); }
      }
      NoneIsLost(s, l.t, l.spin, s');
    } else {
      CallKeeps(s, l, s');
    }
  }

  // ---------------------------------------------------------------- runs

  ghost predicate IsRun(run: seq<State>, ls: seq<Label>) {
    Machine.Steps(Next, run, ls) && Init(run[0])
  }

  lemma InitInv(s: State)
    requires Init(s)
    ensures Inv(s)
  {
    Packs(s.m.w, s.m.start, false);
    ModUnique(s.m.start, Limit(s.m.w), 0, s.m.start);
    forall t: nat | t < |s.pcs| ensures SleepsWell(s.m, s.pcs[t]) && ThreadOk(s.m, s.pcs[t], s.notes[t]) {}
  }

  lemma StepsInv(run: seq<State>, ls: seq<Label>, k: nat)
    requires Machine.Steps(Next, run, ls) && Inv(run[0]) && k < |run|
    ensures Inv(run[k])
  {
    forall s, l, s' | Inv(s) && Next(s, l, s') ensures Inv(s') { NextInv(s, l, s'); }
    Machine.Invariant(Next, Inv, run, ls, k);
  }

  lemma RunInv(run: seq<State>, ls: seq<Label>, k: nat)
    requires IsRun(run, ls) && k < |run|
    ensures Inv(run[k])
  {
    InitInv(run[0]);
    StepsInv(run, ls, k);
  }

  lemma SameMod(a: nat, b: nat, n: nat)
    requires n > 0 && a % n == b % n && a <= b
    ensures (b - a) % n == 0 && (b - a < n ==> a == b)
  {
    var q := b / n - a / n;
    assert b - a == n * q;
    ModUnique(b - a, n, q, 0);
    MulSign(q, n);
  }

  /** No wake-up is lost. In every run, when a thread sleeps and no producer is between its addition and
    its wake, the word still matches the one that the thread waits on: a 32-bit word is that very word,
    and in any case what was added since the thread last saw its word flagged is a multiple of 2^31. */
  lemma NoWakeUpIsLost(run: seq<State>, ls: seq<Label>, k: nat, t: nat)
    requires IsRun(run, ls) && k < |run| && t < |run[k].pcs| && run[k].pcs[t].WSleep? && !SomePending(run[k].pcs)
    ensures |run[k].notes| == |run[k].pcs|
    ensures var m, v, base := run[k].m, run[k].pcs[t].v, run[k].notes[t].base;
            && (m.w.W32? ==> m.word == Pack(W32, v, true))
            && base <= m.total && (m.total - base) % TWO31 == 0
            && (m.total - base < TWO31 ==> m.total == base)
  {
    RunInv(run, ls, k);
    var m, v, n := run[k].m, run[k].pcs[t].v, run[k].notes[t];
    assert ThreadOk(m, run[k].pcs[t], n) && SleepsWell(m, run[k].pcs[t]);
    Packs(m.w, v, true);
    MatchesMeans(m.w, m.word, Pack(m.w, v, true));
    Nested(m.start + m.total, m.w);
    Nested(m.start + n.base, m.w);
    SameMod(m.start + n.base, m.start + m.total, TWO31);
  }

  lemma Nested(x: nat, w: Width)
    ensures x % Limit(w) % TWO31 == x % TWO31
  {
    if w.W64? {
      var q, r := x / TWO63, x % TWO63;
      assert x == TWO63 * q + r && r == TWO31 * (r / TWO31) + r % TWO31;
      ModUnique(x, TWO31, TWO32 * q + r / TWO31, r % TWO31);
    }
  }

  // ---------------------------------------------------------------- what a wait answers

  ghost predicate DiffersAt(run: seq<State>, j: nat, v: nat) {
    j < |run| && Value(run[j].m.w, run[j].m.word) != v
  }

  ghost predicate ClearsAt(run: seq<State>, ls: seq<Label>, j: nat) {
    j < |ls| && ls[j].Access? && j < |run| && ls[j].t < |run[j].pcs| && run[j].pcs[ls[j].t].PClear?
  }

  /** The thread has been in one and the same wait, for v, from step a + 1 to step b. */
  ghost predicate WaitsFor(run: seq<State>, t: nat, v: nat, a: nat, b: nat) {
    forall i: nat | a < i <= b :: WaitsAt(run, t, v, i)
  }

  ghost predicate WaitsAt(run: seq<State>, t: nat, v: nat, i: nat) {
    i < |run| && t < |run[i].pcs| && Waiting(run[i].pcs[t]) && run[i].pcs[t].v == v
  }

  lemma {:induction false} NotesTrue(run: seq<State>, ls: seq<Label>, t: nat, v: nat, a: nat, b: nat)
    requires Machine.Steps(Next, run, ls) && a < b < |run| && ls[a] == WaitCall(t, v) && WaitsFor(run, t, v, a, b)
    ensures t < |run[b].notes|
    ensures run[b].notes[t].differed ==> exists j: nat | a < j <= b :: DiffersAt(run, j, v)
    ensures run[b].notes[t].cleared ==> exists j: nat | a < j < b :: ClearsAt(run, ls, j)
  {
    assert Machine.StepAt(Next, run, ls, b - 1) && WaitsAt(run, t, v, b);
    if b == a + 1 {
      assert run[b].notes[t].differed ==> DiffersAt(run, b, v);
    } else {
      assert WaitsAt(run, t, v, b - 1);
      NotesTrue(run, ls, t, v, a, b - 1);
      var n, n' := run[b - 1].notes[t], run[b].notes[t];
      if n'.differed && !n.differed { assert DiffersAt(run, b, v); }
      if n'.cleared && !n.cleared { assert ClearsAt(run, ls, b - 1); }
    }
  }

  /** When a wait answers 0, the value has differed from the one it waited on at an instant of the call,
    or some producer has cleared the flag during the call. */
  lemma ZeroMeans(run: seq<State>, ls: seq<Label>, t: nat, v: nat, a: nat, b: nat)
    requires Machine.Steps(Next, run, ls) && Inv(run[0]) && a < b < |run| && ls[a] == WaitCall(t, v) && WaitsFor(run, t, v, a, b)
    requires t < |run[b].pcs| && run[b].pcs[t] == WDone(v, true)
    ensures (exists j: nat | a < j <= b :: DiffersAt(run, j, v)) || (exists j: nat | a < j < b :: ClearsAt(run, ls, j))
  {
    StepsInv(run, ls, b);
    NotesTrue(run, ls, t, v, a, b);
    assert ThreadOk(run[b].m, run[b].pcs[t], run[b].notes[t]);
  }

  /** Thread t's next access, as a function. */
  ghost function After(s: State, t: nat): State
    requires t < |s.pcs| == |s.notes|
  {
    var (m', pc') := Step(s.m, s.pcs[t], false);
    var pcs' := seq(|s.pcs|, u requires 0 <= u < |s.pcs| => if u == t then pc' else Woken(s.pcs[u], s.pcs[t].PWake?));
    State(m', pcs', seq(|s.pcs|, u requires 0 <= u < |s.pcs| => Noted(m', s.pcs[u], pcs'[u], s.pcs[t].PClear?, s.notes[u])))
  }

  lemma AfterIsNext(s: State, t: nat)
    requires t < |s.pcs| == |s.notes|
    ensures Next(s, Access(t, false), After(s, t))
  {
  }

  ghost predicate Extends(run: seq<State>, ls: seq<Label>, s: State) {
    Machine.Steps(Next, run, ls) && run[|ls|] == s && |s.notes| == |s.pcs|
  }

  lemma Extend(run: seq<State>, ls: seq<Label>, s: State, l: Label, s': State) returns (run': seq<State>, ls': seq<Label>)
    requires Extends(run, ls, s) && Next(s, l, s') && |s'.notes| == |s'.pcs|
    ensures Extends(run', ls', s') && run' == run + [s'] && ls' == ls + [l]
  {
    run', ls' := run + [s'], ls + [l];
    forall i: nat | i < |ls'| ensures Machine.StepAt(Next, run', ls', i) {
      if i < |ls| { assert Machine.StepAt(Next, run, ls, i); }
    }
  }

  lemma Proceed(run: seq<State>, ls: seq<Label>, s: State, t: nat) returns (run': seq<State>, ls': seq<Label>, s': State)
    requires Extends(run, ls, s) && t < |s.pcs|
    ensures s' == After(s, t) && Extends(run', ls', s') && run' == run + [s'] && ls' == ls + [Access(t, false)]
  {
    s' := After(s, t);
    AfterIsNext(s, t);
    run', ls' := Extend(run, ls, s, Access(t, false), s');
  }

  // ---------------------------------------------------------------- when 0 means a change

  /** No producer is about to clear a flag that it has found, or to add nothing. */
  ghost predicate Quiet(s: State) {
    forall p: nat | p < |s.pcs| :: Harmless(s.pcs[p])
  }

  ghost predicate Harmless(pc: Pc) { !pc.PClear? && pc != PAdd(0) }

  /** A wait for v that thread t begins in state s answers 0 at the end of the run; meanwhile nobody
    begins to add 0. */
  ghost predicate AnswersZero(s: State, t: nat, v: nat, run: seq<State>, ls: seq<Label>) {
    && Machine.Steps(Next, run, ls) && run[0] == s && |ls| > 0 && ls[0] == WaitCall(t, v)
    && (forall i: nat | i < |ls| :: AddsSome(ls[i]))
    && WaitsFor(run, t, v, 0, |ls|) && t < |run[|ls|].pcs| && run[|ls|].pcs[t] == WDone(v, true)
  }

  ghost predicate AddsSome(l: Label) { l.AddCall? ==> l.d > 0 }

  /** The value has differed from v at an instant since the call. */
  ghost predicate Changed(run: seq<State>, v: nat) {
    exists j: nat | 0 < j < |run| :: DiffersAt(run, j, v)
  }

  /** As long as the value is v, no producer comes to clear a flag. */
  lemma QuietStays(s: State, l: Label, s': State, v: nat)
    requires Inv(s) && Next(s, l, s') && Quiet(s) && AddsSome(l)
    requires l.WaitCall? || Value(s.m.w, s.m.word) == v
    ensures Quiet(s') || Value(s'.m.w, s'.m.word) != v
  {
    if l.Access? {
      assert ThreadOk(s.m, s.pcs[l.t], s.notes[l.t]) && Harmless(s.pcs[l.t]);
      if s.pcs[l.t].PAdd? { Adds(s.m.w, s.m.word, s.pcs[l.t].d); }
    }
    forall p: nat | p < |s'.pcs| && !Harmless(s'.pcs[p]) ensures Value(s'.m.w, s'.m.word) != v {
      assert Harmless(s.pcs[p]);
    }
  }

  lemma {:induction false} QuietUntilChange(s: State, t: nat, v: nat, run: seq<State>, ls: seq<Label>, k: nat)
    requires Inv(s) && Quiet(s) && AnswersZero(s, t, v, run, ls) && !Changed(run, v) && k < |run|
    ensures Quiet(run[k])
  {
    if k > 0 {
      QuietUntilChange(s, t, v, run, ls, k - 1);
      StepsInv(run, ls, k - 1);
      assert Machine.StepAt(Next, run, ls, k - 1) && !DiffersAt(run, k, v) && AddsSome(ls[k - 1]);
      assert k > 1 ==> !DiffersAt(run, k - 1, v);
      QuietStays(run[k - 1], ls[k - 1], run[k], v);
    }
  }

  lemma QuietMeansChange(s: State, t: nat, v: nat, run: seq<State>, ls: seq<Label>)
    requires Inv(s) && Quiet(s) && AnswersZero(s, t, v, run, ls)
    ensures Changed(run, v)
  {
    ZeroMeans(run, ls, t, v, 0, |ls|);
    if !Changed(run, v) {
      forall j: nat | 0 < j < |ls| ensures !ClearsAt(run, ls, j) {
        QuietUntilChange(s, t, v, run, ls, j);
        assert ls[j].t < |run[j].pcs| ==> Harmless(run[j].pcs[ls[j].t]);
      }
    }
  }

  /** So far a wait for v that thread t began in state s0, with the value v throughout. */
  ghost predicate Unchanged(s0: State, t: nat, v: nat, run: seq<State>, ls: seq<Label>, s: State) {
    && Extends(run, ls, s) && run[0] == s0 && |ls| > 0 && ls[0] == WaitCall(t, v)
    && (forall i: nat | i < |ls| :: AddsSome(ls[i])) && WaitsFor(run, t, v, 0, |ls|) && !Changed(run, v)
  }

  lemma GoOn(s0: State, t: nat, v: nat, run: seq<State>, ls: seq<Label>, s: State, u: nat)
      returns (run': seq<State>, ls': seq<Label>, s': State)
    requires Unchanged(s0, t, v, run, ls, s) && u < |s.pcs|
    requires var n := After(s, u); Value(n.m.w, n.m.word) == v && t < |n.pcs| && Waiting(n.pcs[t]) && n.pcs[t].v == v
    ensures s' == After(s, u) && Unchanged(s0, t, v, run', ls', s')
  {
    run', ls', s' := Proceed(run, ls, s, u);
    forall i: nat | i < |ls'| ensures AddsSome(ls'[i]) { assert i < |ls| ==> AddsSome(ls[i]); }
    forall i: nat | 0 < i <= |ls'| ensures WaitsAt(run', t, v, i) { assert i <= |ls| ==> WaitsAt(run, t, v, i); }
    forall j: nat | 0 < j < |run'| ensures !DiffersAt(run', j, v) { assert j < |run| ==> !DiffersAt(run, j, v); }
  }

  /** A waiter sets the flag, or finds it set. */
  lemma ToFlag(s0: State, t: nat, p: nat) returns (v: nat, run: seq<State>, ls: seq<Label>, s: State)
    requires Inv(s0) && t < |s0.pcs| && p < |s0.pcs| && (s0.pcs[t].Idle? || s0.pcs[t].WDone?) && !Harmless(s0.pcs[p])
    ensures Unchanged(s0, t, v, run, ls, s) && v < Limit(s.m.w) && s.m.word == Pack(s.m.w, v, true)
    ensures |s.pcs| == |s0.pcs| && s.pcs[t] == WSpin(v) && s.pcs[p] == s0.pcs[p]
  {
    var w := s0.m.w;
    v := Value(w, s0.m.word);
    Unpacks(w, s0.m.word);
    Packs(w, v, false);
    Packs(w, v, true);
    s := State(s0.m, s0.pcs[t := WLoad(v, false)], s0.notes[t := Notes(s0.m.total, false, false)]);
    run, ls := Extend([s0], [], s0, WaitCall(t, v), s);
    assert WaitsAt(run, t, v, 1) && !DiffersAt(run, 1, v);
    run, ls, s := GoOn(s0, t, v, run, ls, s, t);
    run, ls, s := GoOn(s0, t, v, run, ls, s, t);
    assert s.pcs[t] == WEasy(v) && s.pcs[p] == s0.pcs[p];
    run, ls, s := GoOn(s0, t, v, run, ls, s, t);
    if s.pcs[t].WCas? { run, ls, s := GoOn(s0, t, v, run, ls, s, t); }
  }

  /** The producer clears the flag, and the waiter takes that for a change. */
  lemma NoisyMeansNothing(s0: State, t: nat, p: nat) returns (v: nat, run: seq<State>, ls: seq<Label>)
    requires Inv(s0) && t < |s0.pcs| && p < |s0.pcs| && (s0.pcs[t].Idle? || s0.pcs[t].WDone?) && !Harmless(s0.pcs[p])
    ensures AnswersZero(s0, t, v, run, ls) && !Changed(run, v)
  {
    var s;
    v, run, ls, s := ToFlag(s0, t, p);
    Packs(s.m.w, v, true);
    Packs(s.m.w, v, false);
    Unpacks(s.m.w, s.m.word);
    if s.pcs[p].PAdd? {
      Adds(s.m.w, s.m.word, 0);
      run, ls, s := GoOn(s0, t, v, run, ls, s, p);
    }
    run, ls, s := GoOn(s0, t, v, run, ls, s, p);
    run, ls, s := GoOn(s0, t, v, run, ls, s, t);
  }

  /** An answer of 0 is sure to mean that the value has differed from the one waited on exactly if, at
    the call, no producer is about to clear a flag or to add nothing. */
  lemma ZeroMeansExactly(s: State, t: nat)
    requires Inv(s) && t < |s.pcs| && (s.pcs[t].Idle? || s.pcs[t].WDone?)
    ensures (forall v: nat, run, ls | AnswersZero(s, t, v, run, ls) :: Changed(run, v)) <==> Quiet(s)
  {
    if Quiet(s) {
      forall v: nat, run, ls | AnswersZero(s, t, v, run, ls) ensures Changed(run, v) { QuietMeansChange(s, t, v, run, ls); }
    } else {
      var p: nat :| p < |s.pcs| && !Harmless(s.pcs[p]);
      var v, run, ls := NoisyMeansNothing(s, t, p);
    }
  }

  /** A waiter for 0 has flagged the word, and a producer has made it 1 but not yet cleared the flag. */
  lemma FlagIsLeft() returns (run: seq<State>, ls: seq<Label>, s: State)
    ensures Extends(run, ls, s) && Init(run[0]) && s.m == Shared(W64, 3, 0, 1) && s.pcs == [WSpin(0), PClear, Idle]
  {
    run, ls, s := FlagIsSet();
    var s1 := s.(pcs := s.pcs[1 := PAdd(1)]);
    run, ls := Extend(run, ls, s, AddCall(1, 1), s1);
    run, ls, s := Proceed(run, ls, s1, 1);
    assert s.pcs == [WSpin(0), PClear, Idle];
  }

  lemma FlagIsSet() returns (run: seq<State>, ls: seq<Label>, s: State)
    ensures Extends(run, ls, s) && Init(run[0]) && s.m == Shared(W64, 1, 0, 0)
    ensures s.pcs == [WSpin(0), Idle, Idle] && s.notes[0].base == 0
  {
    var none := Notes(0, false, false);
    s := State(Shared(W64, 0, 0, 0), [Idle, Idle, Idle], [none, none, none]);
    run, ls := [s], [];
    var s1 := State(s.m, [WLoad(0, false), Idle, Idle], [none, none, none]);
    run, ls := Extend(run, ls, s, WaitCall(0, 0), s1);
    run, ls, s := Proceed(run, ls, s1, 0);
    run, ls, s := Proceed(run, ls, s, 0);
    assert s.pcs == [WEasy(0), Idle, Idle];
    run, ls, s := Proceed(run, ls, s, 0);
    run, ls, s := Proceed(run, ls, s, 0);
    assert s.pcs == [WSpin(0), Idle, Idle];
  }

  /** A wait may answer 0 although the value has been the one it waited on all along: here a producer
    that found the flag of an earlier waiter clears that of this one. */
  lemma ZeroWithoutChange() returns (run: seq<State>, ls: seq<Label>, a: nat)
    ensures IsRun(run, ls) && a < |ls| && ls[a] == WaitCall(2, 1)
    ensures 2 < |run[|ls|].pcs| && run[|ls|].pcs[2] == WDone(1, true)
    ensures forall j: nat | a < j <= |ls| :: !DiffersAt(run, j, 1)
  {
    var s;
    run, ls, s := FlagIsLeft();
    a := |ls|;
    var s1 := State(s.m, s.pcs[2 := WLoad(1, false)], s.notes[2 := Notes(1, false, false)]);
    run, ls := Extend(run, ls, s, WaitCall(2, 1), s1);
    run, ls, s := Proceed(run, ls, s1, 2);
    run, ls, s := Proceed(run, ls, s, 2);
    run, ls, s := Proceed(run, ls, s, 2);
    assert s.pcs == [WSpin(0), PClear, WSpin(1)] && s.m.word == 3;
    run, ls, s := Proceed(run, ls, s, 1);
    assert s.m.word == 2;
    run, ls, s := Proceed(run, ls, s, 2);
    assert s.pcs[2] == WDone(1, true);
  }

  // ---------------------------------------------------------------- sleeping through 2^31

  /** The waiter for 0 has checked the word and is about to sleep. */
  lemma AboutToSleep() returns (run: seq<State>, ls: seq<Label>, s: State)
    ensures Extends(run, ls, s) && Init(run[0]) && s.m == Shared(W64, 1, 0, 0)
    ensures s.pcs == [WFutex(0), Idle, Idle] && s.notes[0].base == 0
  {
    run, ls, s := FlagIsSet();
    run, ls, s := Proceed(run, ls, s, 0);
    run, ls, s := Proceed(run, ls, s, 0);
    run, ls, s := Proceed(run, ls, s, 0);
    assert s.pcs == [WFutex(0), Idle, Idle];
  }

  /** The count goes up by 2^31, and the wake comes before the sleep. */
  lemma WokenTooEarly() returns (run: seq<State>, ls: seq<Label>, s: State)
    ensures Extends(run, ls, s) && Init(run[0]) && s.m == Shared(W64, TWO32, 0, TWO31)
    ensures s.pcs == [WFutex(0), Idle, Idle] && s.notes[0].base == 0
  {
    run, ls, s := AboutToSleep();
    var s1 := s.(pcs := s.pcs[1 := PAdd(TWO31)]);
    run, ls := Extend(run, ls, s, AddCall(1, TWO31), s1);
    run, ls, s := Proceed(run, ls, s1, 1);
    assert s.m.word == TWO32 + 1 && s.pcs == [WFutex(0), PClear, Idle] && s.notes[0].base == 0;
    run, ls, s := Proceed(run, ls, s, 1);
    assert s.m.word == TWO32 && s.pcs == [WFutex(0), PWake, Idle] && s.notes[0].base == 0;
    run, ls, s := Proceed(run, ls, s, 1);
    assert s.pcs == [WFutex(0), Idle, Idle];
  }

  /** Another waiter begins to wait for 2^31. */
  lemma AnotherWaits() returns (run: seq<State>, ls: seq<Label>, s: State)
    ensures Extends(run, ls, s) && Init(run[0]) && s.m == Shared(W64, TWO32, 0, TWO31)
    ensures s.pcs == [WFutex(0), Idle, WEasy(TWO31)] && s.notes[0].base == 0
  {
    run, ls, s := WokenTooEarly();
    var s1 := State(s.m, s.pcs[2 := WLoad(TWO31, false)], s.notes[2 := Notes(TWO31, false, false)]);
    run, ls := Extend(run, ls, s, WaitCall(2, TWO31), s1);
    run, ls, s := Proceed(run, ls, s1, 2);
    run, ls, s := Proceed(run, ls, s, 2);
    assert s.pcs == [WFutex(0), Idle, WEasy(TWO31)];
  }

  /** On a 64-bit word 2^31 is missed: when another waiter flags the value 2^31, the waiter for 0 goes to
    sleep on it, and nobody is about to wake it. */
  lemma SleepsThrough() returns (run: seq<State>, ls: seq<Label>)
    ensures IsRun(run, ls)
    ensures var s := run[|ls|];
            && |s.pcs| == |s.notes| == 3 && s.pcs[0] == WSleep(0) && !SomePending(s.pcs)
            && s.m.w.W64? && s.m.total - s.notes[0].base == TWO31 && Value(s.m.w, s.m.word) == TWO31
  {
    var s;
    run, ls, s := AnotherWaits();
    run, ls, s := Proceed(run, ls, s, 2);
    run, ls, s := Proceed(run, ls, s, 2);
    assert s.m.word == TWO32 + 1 && s.pcs == [WFutex(0), Idle, WSpin(TWO31)] && s.notes[0].base == 0;
    run, ls, s := Proceed(run, ls, s, 0);
    assert s.pcs == [WSleep(0), Idle, WSpin(TWO31)];
  }
}
