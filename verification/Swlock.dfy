/** The single-writer reader-writer lock of include/ck_swlock.h.

  A step is one `ck_pr` access to the one word of the lock, whose writer bit, latch bit and reader
  field are the parts of `Shared`; FieldFits shows that they never run into each other. Writers take
  turns: who calls a writer operation waits outside until no other thread is in one. `owner` and
  `strays` are history variables. */
module Swlock {
  import opened Prelude
  import Machine

  /** `strays` are the threads that have incremented the reader field under the present latch. */
  datatype Shared = Shared(writer: bool, latch: bool, field: int, owner: Option<nat>, strays: set<nat>)

  datatype Pc =
    | Idle
    | RLoad(try_: bool)
    | RAdd(try_: bool)
    | RBack(try_: bool)
    | RHold
    | WTry
    | WLockOr
    | WLockSpin
    | WLatchOr
    | WLatchCas
    | WLatchSpin
    | WHold(latched: bool)
    | WDown

  datatype State = State(m: Shared, pcs: seq<Pc>)

  /** What a thread calls: which of the operations that it may call now. */
  datatype Label =
    | ReadCall(t: nat, try_: bool)
    | TryCall(t: nat)
    | LockCall(t: nat)
    | LatchCall(t: nat)
    | Downgrade(t: nat)
    | Access(t: nat)

  ghost predicate Init(s: State) {
    s.m == Shared(false, false, 0, None, {}) && forall t | 0 <= t < |s.pcs| :: s.pcs[t].Idle?
  }

  /** A reader that does not get the lock gives up or starts over. */
  ghost function Refused(try_: bool): Pc {
    if try_ then Idle else RLoad(false)
  }

  /** The next access of thread t. From RHold and WHold it is that of the unlock, or of the unlatch. */
  ghost function Step(m: Shared, t: nat, pc: Pc): (Shared, Pc) {
    match pc
    case Idle => (m, pc)
    case RLoad(try_) => (m, if !m.writer then RAdd(try_) else Refused(try_))
    case RAdd(try_) =>
      if !m.writer && !m.latch then (m.(field := m.field + 1), RHold)
      else if m.writer && !m.latch then (m.(field := m.field + 1), RBack(try_))
      else (m.(field := m.field + 1, strays := m.strays + {t}), Refused(try_))
    case RBack(try_) => (m.(field := m.field - 1), Refused(try_))
    case RHold => (m.(field := m.field - 1), Idle)
    case WTry =>
      if !m.writer && !m.latch && m.field == 0 then (m.(writer := true), WHold(false))
      else (m.(owner := None), Idle)
    case WLockOr => (m.(writer := true), WLockSpin)
    case WLockSpin => (m, if m.field == 0 then WHold(false) else pc)
    case WLatchOr => (m.(writer := true), WLatchCas)
    case WLatchCas =>
      if m.writer && !m.latch && m.field == 0 then (m.(latch := true), WHold(true)) else (m, WLatchSpin)
    case WLatchSpin => (m, if m.writer && !m.latch && m.field == 0 then WLatchCas else pc)
    case WHold(latched) =>
      if latched then (Shared(false, false, 0, None, {}), Idle)
      else (m.(writer := false, latch := false, owner := None), Idle)
    case WDown => (m.(writer := false, latch := false, owner := None), RHold)
  }

  ghost predicate Next(s: State, l: Label, s': State) {
    && l.t < |s.pcs|
    && match l
       case ReadCall(t, try_) => s.pcs[t].Idle? && s' == s.(pcs := s.pcs[t := RLoad(try_)])
       case TryCall(t) =>
         s.pcs[t].Idle? && s.m.owner == None && s' == State(s.m.(owner := Some(t)), s.pcs[t := WTry])
       case LockCall(t) =>
         s.pcs[t].Idle? && s.m.owner == None && s' == State(s.m.(owner := Some(t)), s.pcs[t := WLockOr])
       case LatchCall(t) =>
         && ((s.pcs[t].Idle? && s.m.owner == None) || s.pcs[t] == WHold(false))
         && s' == State(s.m.(owner := Some(t)), s.pcs[t := WLatchOr])
       case Downgrade(t) =>
         s.pcs[t] == WHold(false) && s' == State(s.m.(field := s.m.field + 1), s.pcs[t := WDown])
       case Access(t) =>
         var (m', pc') := Step(s.m, t, s.pcs[t]); s' == State(m', s.pcs[t := pc'])
  }

  // ---------------------------------------------------------------- invariant

  /** Holders of the read lock, readers that still have to back out, and a writer becoming a reader. */
  ghost predicate Counts(pc: Pc) { pc.RHold? || pc.RBack? || pc.WDown? }

  ghost function Counted(pcs: seq<Pc>): set<nat> {
    set t: nat | t < |pcs| && Counts(pcs[t])
  }

  ghost predicate InWriter(pc: Pc) {
    pc.WTry? || pc.WLockOr? || pc.WLockSpin? || pc.WLatchOr? || pc.WLatchCas? || pc.WLatchSpin? || pc.WHold? || pc.WDown?
  }

  ghost predicate BitSet(pc: Pc) {
    pc.WLockSpin? || pc.WLatchCas? || pc.WLatchSpin? || pc.WHold? || pc.WDown?
  }

  ghost predicate FieldOk(m: Shared, pcs: seq<Pc>) {
    if m.latch then m.writer && |Counted(pcs)| == 0 && m.field == |m.strays| && forall t | t in m.strays :: t < |pcs|
    else m.strays == {} && m.field == |Counted(pcs)|
  }

  /** The bits are those of the thread in a writer operation, if there is one. A writer that calls the
    latch with the lock held has its bit set already. */
  ghost predicate OwnerOk(m: Shared, pcs: seq<Pc>) {
    && (m.owner.Some? ==> m.owner.value < |pcs| && InWriter(pcs[m.owner.value]))
    && (m.latch <==> m.owner.Some? && pcs[m.owner.value] == WHold(true))
    && (m.owner.Some? && BitSet(pcs[m.owner.value]) ==> m.writer)
    && (m.writer ==> m.owner.Some? && (BitSet(pcs[m.owner.value]) || pcs[m.owner.value].WLatchOr?))
  }

  ghost predicate ThreadOk(m: Shared, pcs: seq<Pc>, t: nat)
    requires t < |pcs|
  {
    && (InWriter(pcs[t]) ==> m.owner == Some(t))
    && (pcs[t].RAdd? ==> t !in m.strays)
    && (pcs[t].RHold? && m.owner.Some? && m.owner.value < |pcs| ==> !pcs[m.owner.value].WHold? && !pcs[m.owner.value].WDown?)
  }

  ghost predicate Inv(s: State) {
    && OwnerOk(s.m, s.pcs) && FieldOk(s.m, s.pcs)
    && forall t: nat | t < |s.pcs| :: ThreadOk(s.m, s.pcs, t)
  }

  lemma CountedChange(pcs: seq<Pc>, t: nat, pcs': seq<Pc>)
    requires t < |pcs| == |pcs'| && pcs' == pcs[t := pcs'[t]]
    ensures |Counted(pcs')| == |Counted(pcs)| - (if Counts(pcs[t]) then 1 else 0) + if Counts(pcs'[t]) then 1 else 0
  {
    assert Counted(pcs') == Counted(pcs) - {t} + if Counts(pcs'[t]) then {t} else {};
    assert t in Counted(pcs) <==> Counts(pcs[t]);
  }

  /** Without anything counted, nobody holds the read lock. */
  lemma NobodyCounted(pcs: seq<Pc>, t: nat)
    requires t < |pcs| && |Counted(pcs)| == 0
    ensures !Counts(pcs[t])
  {
    assert t in Counted(pcs) <==> Counts(pcs[t]);
  }

  lemma ReaderKeeps(s: State, t: nat, s': State)
    requires Inv(s) && Next(s, Access(t), s')
    requires s.pcs[t].Idle? || s.pcs[t].RLoad? || s.pcs[t].RBack? || s.pcs[t].RHold?
    ensures Inv(s')
  {
    assert ThreadOk(s.m, s.pcs, t);
    if Counts(s.pcs[t]) { NobodyUnderLatch(s, t); }
    CountedChange(s.pcs, t, s'.pcs);
    ReaderThreads(s, t, s');
  }

  lemma NobodyUnderLatch(s: State, t: nat)
    requires Inv(s) && t < |s.pcs| && Counts(s.pcs[t])
    ensures !s.m.latch
  {
    if s.m.latch { NobodyCounted(s.pcs, t); }
  }

  /** A step of a reader in which it does not come to hold the lock. */
  lemma ReaderThreads(s: State, t: nat, s': State)
    requires Inv(s) && t < |s.pcs| == |s'.pcs| && s'.pcs == s.pcs[t := s'.pcs[t]] && !InWriter(s.pcs[t]) && !InWriter(s'.pcs[t])
    requires s'.m == s.m.(field := s'.m.field, strays := s'.m.strays) && s'.m.strays <= s.m.strays + {t}
    requires s'.pcs[t].RAdd? ==> !s.m.writer && s'.m.strays == s.m.strays
    requires s'.pcs[t].RHold? ==> !s.m.writer
    ensures OwnerOk(s'.m, s'.pcs) && forall u: nat | u < |s'.pcs| :: ThreadOk(s'.m, s'.pcs, u)
  {
    assert ThreadOk(s.m, s.pcs, t);
    if s.m.owner.Some? { assert ThreadOk(s.m, s.pcs, s.m.owner.value); }
    forall u: nat | u < |s'.pcs| ensures ThreadOk(s'.m, s'.pcs, u) { assert ThreadOk(s.m, s.pcs, u); }
  }

  lemma AddKeeps(s: State, t: nat, s': State)
    requires Inv(s) && Next(s, Access(t), s') && s.pcs[t].RAdd?
    ensures Inv(s')
  {
    assert ThreadOk(s.m, s.pcs, t);
    CountedChange(s.pcs, t, s'.pcs);
    ReaderThreads(s, t, s');
  }

  /** A step of the thread in a writer operation: when it comes to hold the lock, the field is 0. */
  lemma WriterThreads(s: State, t: nat, s': State)
    requires Inv(s) && t < |s.pcs| == |s'.pcs| && s'.pcs == s.pcs[t := s'.pcs[t]] && InWriter(s.pcs[t])
    requires s'.m.owner == (if InWriter(s'.pcs[t]) then Some(t) else None) && s'.m.strays <= s.m.strays
    requires s'.pcs[t].WHold? ==> !s.m.latch && s.m.field == 0
    requires s'.pcs[t].WDown? ==> s.pcs[t].WHold?
    requires !s'.pcs[t].RAdd?
    ensures forall u: nat | u < |s'.pcs| :: ThreadOk(s'.m, s'.pcs, u)
  {
    forall u: nat | u < |s'.pcs| ensures ThreadOk(s'.m, s'.pcs, u) {
      assert ThreadOk(s.m, s.pcs, u) && ThreadOk(s.m, s.pcs, t);
      if s'.pcs[t].WHold? { NobodyCounted(s.pcs, u); }
    }
  }

  lemma WriterKeeps(s: State, t: nat, s': State)
    requires Inv(s) && Next(s, Access(t), s') && InWriter(s.pcs[t])
    ensures Inv(s')
  {
    assert ThreadOk(s.m, s.pcs, t);
    CountedChange(s.pcs, t, s'.pcs);
    if s'.pcs[t].WHold? || !InWriter(s'.pcs[t]) { WriterEnds(s, t, s'); } else { WriterThreads(s, t, s'); }
  }

  lemma WriterEnds(s: State, t: nat, s': State)
    requires Inv(s) && Next(s, Access(t), s') && InWriter(s.pcs[t]) && (s'.pcs[t].WHold? || !InWriter(s'.pcs[t]))
    ensures forall u: nat | u < |s'.pcs| :: ThreadOk(s'.m, s'.pcs, u)
  {
    assert ThreadOk(s.m, s.pcs, t);
    WriterThreads(s, t, s');
  }

  lemma CallKeeps(s: State, l: Label, s': State)
    requires Inv(s) && Next(s, l, s') && !l.Access?
    ensures Inv(s')
  {
    assert ThreadOk(s.m, s.pcs, l.t);
    CountedChange(s.pcs, l.t, s'.pcs);
    if l.ReadCall? {
      ReaderThreads(s, l.t, s');
    } else if l.Downgrade? || s.pcs[l.t].WHold? {
      WriterThreads(s, l.t, s');
    } else {
      forall u: nat | u < |s'.pcs| ensures ThreadOk(s'.m, s'.pcs, u) { assert ThreadOk(s.m, s.pcs, u); }
    }
  }

  lemma NextInv(s: State, l: Label, s': State)
    requires Inv(s) && Next(s, l, s')
    ensures Inv(s')
  {
    if !l.Access? {
      CallKeeps(s, l, s');
    } else if InWriter(s.pcs[l.t]) {
      WriterKeeps(s, l.t, s');
    } else if s.pcs[l.t].RAdd? {
      AddKeeps(s, l.t, s');
    } else {
      ReaderKeeps(s, l.t, s');
    }
  }

  // ---------------------------------------------------------------- runs

  ghost predicate IsRun(run: seq<State>, ls: seq<Label>) {
    Machine.Steps(Next, run, ls) && Init(run[0])
  }

  lemma RunInv(run: seq<State>, ls: seq<Label>, k: nat)
    requires IsRun(run, ls) && k < |run|
    ensures Inv(run[k])
  {
    assert Counted(run[0].pcs) == {};
    forall s, l, s' | Inv(s) && Next(s, l, s') ensures Inv(s') { NextInv(s, l, s'); }
    Machine.Invariant(Next, Inv, run, ls, k);
  }

  /** In every run, while a write lock or a latch is held, no thread holds the read lock, and no other
    thread holds the write lock or the latch. */
  lemma WriterExcludes(run: seq<State>, ls: seq<Label>, k: nat, t: nat, u: nat)
    requires IsRun(run, ls) && k < |run| && t < |run[k].pcs| && u < |run[k].pcs| && t != u
    requires run[k].pcs[t].WHold?
    ensures !run[k].pcs[u].RHold? && !run[k].pcs[u].WHold?
  {
    RunInv(run, ls, k);
    assert ThreadOk(run[k].m, run[k].pcs, t) && ThreadOk(run[k].m, run[k].pcs, u);
  }

  /** While the lock is not latched, the reader field counts the holders and the readers that still
    have to back out; while it is, there are none of them, and the field counts strays only. */
  lemma FieldCounts(run: seq<State>, ls: seq<Label>, k: nat)
    requires IsRun(run, ls) && k < |run|
    ensures !run[k].m.latch ==> run[k].m.field == |Counted(run[k].pcs)|
    ensures run[k].m.latch ==> Counted(run[k].pcs) == {}
  {
    RunInv(run, ls, k);
  }

  /** Storing 0 to unlatch erases no holder and no pending decrement. */
  lemma UnlatchErasesNobody(run: seq<State>, ls: seq<Label>, k: nat, t: nat)
    requires IsRun(run, ls) && k < |ls| && ls[k] == Access(t)
    requires t < |run[k].pcs| && run[k].pcs[t] == WHold(true)
    ensures Counted(run[k].pcs) == {} == Counted(run[k + 1].pcs) && run[k + 1].m.field == 0
  {
    RunInv(run, ls, k);
    RunInv(run, ls, k + 1);
    assert Machine.StepAt(Next, run, ls, k);
    assert ThreadOk(run[k].m, run[k].pcs, t);
    CountedChange(run[k].pcs, t, run[k + 1].pcs);
  }

  /** Every decrement finds something to take away. */
  lemma DecrementsFind(run: seq<State>, ls: seq<Label>, k: nat, t: nat)
    requires IsRun(run, ls) && k < |run| && t < |run[k].pcs| && (run[k].pcs[t].RHold? || run[k].pcs[t].RBack?)
    ensures run[k].m.field > 0 && !run[k].m.latch
  {
    RunInv(run, ls, k);
    assert t in Counted(run[k].pcs);
  }

  lemma {:induction false} SetOfThreads(a: set<nat>, n: nat)
    requires forall t | t in a :: t < n
    ensures |a| <= n
  {
    if n > 0 {
      SetOfThreads(a - {n - 1}, n - 1);
    } else {
      assert a == {};
    }
  }

  /** The reader field never exceeds the number of threads, not even by what is left over under a latch:
    it stays clear of the two bits above it when there are fewer than 2^30 threads. */
  lemma FieldFits(run: seq<State>, ls: seq<Label>, k: nat)
    requires IsRun(run, ls) && k < |run|
    ensures 0 <= run[k].m.field <= |run[k].pcs|
  {
    RunInv(run, ls, k);
    SetOfThreads(if run[k].m.latch then run[k].m.strays else Counted(run[k].pcs), |run[k].pcs|);
  }

  // ---------------------------------------------------------------- nobody waits for ever

  /** The next access of thread t takes it further. */
  ghost predicate MovesOn(s: State, t: nat) {
    t < |s.pcs| && !s.pcs[t].Idle? && Step(s.m, t, s.pcs[t]).1 != s.pcs[t]
  }

  /** A writer that waits for the readers to leave waits for a thread that can go on. */
  lemma WriterWaitsFor(s: State, t: nat) returns (u: nat)
    requires Inv(s) && t < |s.pcs| && (s.pcs[t].WLockSpin? || s.pcs[t].WLatchSpin?) && !MovesOn(s, t)
    ensures MovesOn(s, u)
  {
    assert ThreadOk(s.m, s.pcs, t);
    assert s.m.writer && !s.m.latch && |Counted(s.pcs)| != 0;
    u :| u in Counted(s.pcs);
  }

  /** At no point of any run do threads wait for each other in a circle: if one is in a call or holds the lock,
    some thread can go on. */
  lemma NeverStuck(run: seq<State>, ls: seq<Label>, k: nat, t: nat) returns (u: nat)
    requires IsRun(run, ls) && k < |run| && t < |run[k].pcs| && !run[k].pcs[t].Idle?
    ensures MovesOn(run[k], u)
  {
    RunInv(run, ls, k);
    var s := run[k];
    assert ThreadOk(s.m, s.pcs, t);
    u := t;
    if !MovesOn(s, t) {
      if s.pcs[t].RLoad? { u := s.m.owner.value; }
      if !MovesOn(s, u) { u := WriterWaitsFor(s, u); }
    }
  }

  // ---------------------------------------------------------------- calls

  ghost function CallBy(t: nat): Label -> bool {
    (l: Label) => !l.Access? && l.t == t
  }

  /** What a call is for: the thread holds the lock in the way it asked for. */
  ghost predicate Granted(l: Label, pc: Pc) {
    match l
    case ReadCall(_, _) => pc.RHold?
    case TryCall(_) => pc == WHold(false)
    case LockCall(_) => pc == WHold(false)
    case LatchCall(_) => pc == WHold(true)
    case Downgrade(_) => pc.RHold?
    case Access(_) => false
  }

  /** On the way there. */
  ghost predicate Acquires(l: Label, pc: Pc) {
    match l
    case ReadCall(_, try_) => (pc.RLoad? || pc.RAdd? || pc.RBack?) && pc.try_ == try_
    case TryCall(_) => pc.WTry?
    case LockCall(_) => pc.WLockOr? || pc.WLockSpin?
    case LatchCall(_) => pc.WLatchOr? || pc.WLatchCas? || pc.WLatchSpin?
    case Downgrade(_) => pc.WDown?
    case Access(_) => false
  }

  /** At step j, an access of the call, the lock is in its way. */
  ghost predicate Refuses(run: seq<State>, ls: seq<Label>, t: nat, call: Label, j: nat) {
    && j < |ls| && j < |run| && ls[j] == Access(t)
    && (run[j].m.writer || run[j].m.latch || (call.TryCall? && run[j].m.field != 0))
  }

  ghost predicate Tries(call: Label) { call.TryCall? || (call.ReadCall? && call.try_) }

  ghost predicate GrantedAt(run: seq<State>, t: nat, call: Label, j: nat) {
    j < |run| && t < |run[j].pcs| && Granted(call, run[j].pcs[t])
  }

  ghost predicate WasGranted(run: seq<State>, t: nat, call: Label, a: nat, k: nat) {
    exists j: nat :: a < j <= k && GrantedAt(run, t, call, j)
  }

  ghost predicate WasRefused(run: seq<State>, ls: seq<Label>, t: nat, call: Label, a: nat, k: nat) {
    exists j: nat :: a < j < k && Refuses(run, ls, t, call, j)
  }

  /** How a call stands: on the way, and if it backs out then because of a writer; or it had the lock; or it
    was one that may give up, and did. */
  ghost predicate Stands(run: seq<State>, ls: seq<Label>, t: nat, a: nat, k: nat)
    requires a < |ls| && k < |run| && t < |run[k].pcs|
  {
    var pc := run[k].pcs[t];
    || (Acquires(ls[a], pc) && (pc.RBack? ==> WasRefused(run, ls, t, ls[a], a, k)))
    || WasGranted(run, t, ls[a], a, k)
    || (pc.Idle? && Tries(ls[a]) && WasRefused(run, ls, t, ls[a], a, k))
  }

  lemma {:induction false} Outcome(run: seq<State>, ls: seq<Label>, k: nat, t: nat)
    requires IsRun(run, ls) && k < |run| && t < |run[0].pcs|
    ensures |run[k].pcs| == |run[0].pcs|
    ensures match Machine.Last(CallBy(t), ls, k)
            case None => run[k].pcs[t].Idle?
            case Some(a) => Stands(run, ls, t, a, k)
  {
    if k > 0 {
      Outcome(run, ls, k - 1, t);
      assert Machine.StepAt(Next, run, ls, k - 1);
      var last := Machine.Last(CallBy(t), ls, k - 1);
      if !CallBy(t)(ls[k - 1]) && last.Some? { OutcomeNext(run, ls, k, t, last.value); }
    }
  }

  lemma OutcomeNext(run: seq<State>, ls: seq<Label>, k: nat, t: nat, a: nat)
    requires IsRun(run, ls) && a + 1 < k < |run| && t < |run[k - 1].pcs| == |run[k].pcs| && !CallBy(t)(ls[k - 1])
    requires Stands(run, ls, t, a, k - 1)
    ensures Stands(run, ls, t, a, k)
  {
    assert Machine.StepAt(Next, run, ls, k - 1);
    StillSo(run, ls, t, a, k);
    if ls[k - 1] == Access(t) && Acquires(ls[a], run[k - 1].pcs[t]) {
      assert Granted(ls[a], run[k].pcs[t]) ==> GrantedAt(run, t, ls[a], k);
      assert (run[k].pcs[t].Idle? || run[k].pcs[t].RBack?) && !run[k - 1].pcs[t].RBack? ==> Refuses(run, ls, t, ls[a], k - 1);
    }
  }

  lemma StillSo(run: seq<State>, ls: seq<Label>, t: nat, a: nat, k: nat)
    requires a + 1 < k && a < |ls|
    ensures WasGranted(run, t, ls[a], a, k - 1) ==> WasGranted(run, t, ls[a], a, k)
    ensures WasRefused(run, ls, t, ls[a], a, k - 1) ==> WasRefused(run, ls, t, ls[a], a, k)
  {
    var p: nat := k - 1;
    if WasGranted(run, t, ls[a], a, p) {
      var j: nat :| a < j <= p && GrantedAt(run, t, ls[a], j);
      assert a < j <= k && GrantedAt(run, t, ls[a], j);
    }
    if WasRefused(run, ls, t, ls[a], a, p) {
      var j: nat :| a < j < p && Refuses(run, ls, t, ls[a], j);
      assert a < j < k && Refuses(run, ls, t, ls[a], j);
    }
  }

  /** A thread that is done with a call has held the lock since, in the way it asked for. Only a try may end
    without that, and only if at some access of it the lock was in its way. */
  lemma CallIsGranted(run: seq<State>, ls: seq<Label>, k: nat, t: nat, a: nat)
    requires IsRun(run, ls) && k < |run| && t < |run[k].pcs| && run[k].pcs[t].Idle?
    requires Machine.Last(CallBy(t), ls, k) == Some(a)
    ensures WasGranted(run, t, ls[a], a, k) || (Tries(ls[a]) && WasRefused(run, ls, t, ls[a], a, k))
  {
    PcsKept(run, ls, k);
    Outcome(run, ls, k, t);
  }

  lemma {:induction false} PcsKept(run: seq<State>, ls: seq<Label>, k: nat)
    requires IsRun(run, ls) && k < |run|
    ensures |run[k].pcs| == |run[0].pcs|
  {
    if k > 0 {
      PcsKept(run, ls, k - 1);
      assert Machine.StepAt(Next, run, ls, k - 1);
    }
  }
}
