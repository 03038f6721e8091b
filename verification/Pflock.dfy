/** The phase-fair reader-writer lock of include/ck_pflock.h.

  A step is one `ck_pr` access. The words are unbounded here; WrapAgrees relates them to 32-bit words.
  `phase`, `owner` and `begun`, and what a reader remembers besides the writer bits, are history variables. */
module Pflock {
  import opened Prelude
  import Machine

  const RINC := 0x100

  /** What the writer that holds the writers' ticket is doing: nothing yet, waiting for the readers that
    arrived before r0 others, writing, or done but for letting the next writer go on. */
  datatype Phase = Free | Flushing(r0: nat) | Writing(r0: nat) | Cleared

  datatype Shared = Shared(rin: nat, rout: nat, win: nat, wout: nat, phase: Phase, owner: nat, begun: nat)

  /** A reader remembers the writer bits `w` that it saw; and for the record, how many readers arrived
    before it, the ticket of the writer that was present, and how many writers had entered. */
  datatype Pc =
    | Idle
    | WSpin(ticket: nat)
    | WEnter(ticket: nat)
    | WFlush(ticket: nat, rt: nat)
    | WCrit(ticket: nat)
    | WRelease(ticket: nat)
    | RWait(w: nat, id: nat, k: nat, since: nat)
    | RCrit(id: nat)

  datatype State = State(m: Shared, pcs: seq<Pc>)

  datatype Label = WriteCall(t: nat) | ReadCall(t: nat) | Access(t: nat)

  ghost predicate Init(s: State) {
    s.m == Shared(0, 0, 0, 0, Free, 0, 0) && forall t | 0 <= t < |s.pcs| :: s.pcs[t].Idle?
  }

  /** `ck_pflock_read_lock`: the arrival. */
  ghost function Arrive(m: Shared): (Shared, Pc) {
    var w := m.rin % 4;
    (m.(rin := m.rin + RINC), if w == 0 then RCrit(m.rin / RINC) else RWait(w, m.rin / RINC, m.wout, m.begun))
  }

  /** The next access of a thread; in a critical section, the first of the unlock. */
  ghost function Step(m: Shared, t: nat, pc: Pc): (Shared, Pc) {
    match pc
    case Idle => (m, pc)
    case WSpin(ticket) => (m, if m.wout == ticket then WEnter(ticket) else pc)
    case WEnter(ticket) =>
      (m.(rin := m.rin + (ticket % 2 + 2), phase := Flushing(m.rin / RINC), owner := t), WFlush(ticket, m.rin))
    case WFlush(ticket, rt) =>
      if m.rout == rt then (m.(phase := Writing(rt / RINC), begun := m.begun + 1), WCrit(ticket)) else (m, pc)
    case WCrit(ticket) => (m.(rin := m.rin - m.rin % 16, phase := Cleared), WRelease(ticket))
    case WRelease(ticket) => (m.(wout := m.wout + 1, phase := Free), Idle)
    case RWait(w, id, _, _) => (m, if m.rin % 4 == w then pc else RCrit(id))
    case RCrit(_) => (m.(rout := m.rout + RINC), Idle)
  }

  ghost predicate Next(s: State, l: Label, s': State) {
    && l.t < |s.pcs|
    && match l
       case WriteCall(t) =>
         s.pcs[t].Idle? && s' == State(s.m.(win := s.m.win + 1), s.pcs[t := WSpin(s.m.win)])
       case ReadCall(t) =>
         s.pcs[t].Idle? && var (m', pc') := Arrive(s.m); s' == State(m', s.pcs[t := pc'])
       case Access(t) =>
         var (m', pc') := Step(s.m, t, s.pcs[t]); s' == State(m', s.pcs[t := pc'])
  }

  // ---------------------------------------------------------------- invariant

  ghost predicate Inside(pc: Pc) { pc.RWait? || pc.RCrit? }

  /** The readers inside that arrived after r0 others. */
  ghost function Readers(pcs: seq<Pc>, r0: nat): set<nat> {
    set t: nat | t < |pcs| && Inside(pcs[t]) && pcs[t].id >= r0
  }

  ghost predicate Writer(pc: Pc) { pc.WSpin? || pc.WEnter? || pc.WFlush? || pc.WCrit? || pc.WRelease? }

  ghost function R(m: Shared): nat { m.rin / RINC }

  ghost function D(m: Shared): nat { m.rout / RINC }

  ghost predicate PhaseOk(m: Shared) {
    && (m.phase.Flushing? || m.phase.Writing? ==> m.phase.r0 <= R(m))
    && m.rin % RINC == (if m.phase.Flushing? || m.phase.Writing? then 2 + m.wout % 2 else 0)
    && m.rout % RINC == 0 && D(m) <= R(m) && m.wout <= m.win
    && (m.phase.Writing? ==> D(m) == m.phase.r0)
    && m.begun == m.wout + (if m.phase.Writing? || m.phase.Cleared? then 1 else 0)
  }

  ghost predicate WriterOk(m: Shared, pc: Pc)
    requires Writer(pc)
  {
    && m.wout <= pc.ticket < m.win
    && (!pc.WSpin? ==> pc.ticket == m.wout)
    && (pc.WEnter? ==> m.phase == Free)
    && (pc.WFlush? ==> m.phase == Flushing(pc.rt / RINC) && pc.rt % RINC == 0)
    && (pc.WCrit? ==> m.phase.Writing?)
    && (pc.WRelease? ==> m.phase.Cleared?)
  }

  /** A waiting reader: the writer that it met is still there, or the next one is waiting for it. */
  ghost predicate WaitOk(m: Shared, pc: Pc)
    requires pc.RWait?
  {
    && pc.w == 2 + pc.k % 2 && pc.k <= m.wout <= pc.k + 1 && pc.since >= pc.k && m.begun <= pc.k + 1
    && (m.wout == pc.k ==> !m.phase.Free? && (m.phase.Cleared? || m.phase.r0 <= pc.id))
    && (m.wout == pc.k + 1 ==> m.phase.Free? || (m.phase.Flushing? && pc.id < m.phase.r0))
  }

  ghost predicate ThreadOk(m: Shared, pc: Pc) {
    && (Writer(pc) ==> WriterOk(m, pc))
    && (Inside(pc) ==> pc.id < R(m))
    && (pc.RWait? ==> WaitOk(m, pc))
    && (pc.RCrit? && (m.phase.Flushing? || m.phase.Writing?) ==> pc.id < m.phase.r0)
  }

  ghost predicate TicketsDiffer(pcs: seq<Pc>, t: nat, u: nat)
    requires t < |pcs| && u < |pcs|
  {
    t != u && Writer(pcs[t]) && Writer(pcs[u]) ==> pcs[t].ticket != pcs[u].ticket
  }

  /** Whoever has begun a phase is still in it. */
  ghost predicate OwnerOk(m: Shared, pcs: seq<Pc>) {
    m.phase.Free? || (m.owner < |pcs| && (pcs[m.owner].WFlush? || pcs[m.owner].WCrit? || pcs[m.owner].WRelease?))
  }

  ghost predicate Counted(m: Shared, pcs: seq<Pc>) {
    && |Readers(pcs, 0)| == R(m) - D(m)
    && (m.phase.Flushing? || m.phase.Writing? ==> |Readers(pcs, m.phase.r0)| == R(m) - m.phase.r0)
  }

  ghost predicate Inv(s: State) {
    && PhaseOk(s.m) && OwnerOk(s.m, s.pcs) && Counted(s.m, s.pcs)
    && (forall t: nat | t < |s.pcs| :: ThreadOk(s.m, s.pcs[t]))
    && (forall t: nat, u: nat | t < |s.pcs| && u < |s.pcs| :: TicketsDiffer(s.pcs, t, u))
  }

  // ---------------------------------------------------------------- every step keeps it

  lemma ReadersChange(pcs: seq<Pc>, t: nat, pc: Pc, r0: nat)
    requires t < |pcs|
    ensures Readers(pcs[t := pc], r0) == Readers(pcs, r0) - {t} + if Inside(pc) && pc.id >= r0 then {t} else {}
  {
  }

  /** A step that changes no reader's place. */
  lemma SameReaders(pcs: seq<Pc>, t: nat, pc: Pc, r0: nat)
    requires t < |pcs| && (Inside(pcs[t]) <==> Inside(pc)) && (Inside(pc) ==> pc.id == pcs[t].id)
    ensures Readers(pcs[t := pc], r0) == Readers(pcs, r0)
  {
    ReadersChange(pcs, t, pc, r0);
  }

  /** Nobody that arrived before r0 others is inside any more, once as many have left. */
  lemma Flushed(s: State, t: nat)
    requires Inv(s) && t < |s.pcs| && (s.m.phase.Flushing? || s.m.phase.Writing?) && D(s.m) == s.m.phase.r0
    ensures Inside(s.pcs[t]) ==> s.pcs[t].id >= s.m.phase.r0
  {
    var all, new_ := Readers(s.pcs, 0), Readers(s.pcs, s.m.phase.r0);
    if Inside(s.pcs[t]) && s.pcs[t].id < s.m.phase.r0 {
      assert new_ <= all - {t} && t in all;
      assert |all - {t}| == |all| - 1;
      SubsetSize(new_, all - {t});
    }
  }

  lemma {:induction false} SubsetSize(a: set<nat>, b: set<nat>)
    requires a <= b
    ensures |a| <= |b|
  {
    if a != {} {
      var x :| x in a;
      SubsetSize(a - {x}, b - {x});
    }
  }

  lemma SameTickets(s: State, t: nat, pcs: seq<Pc>)
    requires Inv(s) && t < |s.pcs| == |pcs| && pcs == s.pcs[t := pcs[t]]
    requires Writer(pcs[t]) ==> Writer(s.pcs[t]) && pcs[t].ticket == s.pcs[t].ticket
    ensures forall u: nat, v: nat | u < |pcs| && v < |pcs| :: TicketsDiffer(pcs, u, v)
  {
    forall u: nat, v: nat | u < |pcs| && v < |pcs| ensures TicketsDiffer(pcs, u, v) { assert TicketsDiffer(s.pcs, u, v); }
  }

  lemma Bits(m: Shared)
    requires PhaseOk(m)
    ensures (m.rin + RINC) / RINC == R(m) + 1 && (m.rin + RINC) % RINC == m.rin % RINC
    ensures (m.rout + RINC) / RINC == D(m) + 1 && (m.rout + RINC) % RINC == 0
    ensures m.rin % 4 == m.rin % RINC
    ensures (m.rin - m.rin % 16) / RINC == R(m) && (m.rin - m.rin % 16) % RINC == 0
  {
    var q, b := R(m), m.rin % RINC;
    assert b < 4;
    ModUnique(m.rin + RINC, RINC, q + 1, b);
    ModUnique(m.rout + RINC, RINC, D(m) + 1, 0);
    ModUnique(m.rin, 4, 64 * q, b);
    ModUnique(m.rin, 16, 16 * q, b);
    ModUnique(m.rin - b, RINC, q, 0);
  }

  lemma ArriveCounts(s: State, t: nat)
    requires Inv(s) && t < |s.pcs| && s.pcs[t].Idle?
    ensures var (m', pc') := Arrive(s.m); PhaseOk(m') && Counted(m', s.pcs[t := pc'])
  {
    Bits(s.m);
    var (m', pc') := Arrive(s.m);
    ReadersChange(s.pcs, t, pc', 0);
    if s.m.phase.Flushing? || s.m.phase.Writing? { ReadersChange(s.pcs, t, pc', s.m.phase.r0); }
  }

  lemma ArriveKeeps(s: State, t: nat, s': State)
    requires Inv(s) && Next(s, ReadCall(t), s')
    ensures Inv(s')
  {
    Bits(s.m);
    ArriveCounts(s, t);
    SameTickets(s, t, s'.pcs);
    forall u: nat | u < |s'.pcs| ensures ThreadOk(s'.m, s'.pcs[u]) { assert ThreadOk(s.m, s.pcs[u]); }
  }

  lemma WriteCallKeeps(s: State, t: nat, s': State)
    requires Inv(s) && Next(s, WriteCall(t), s')
    ensures Inv(s')
  {
    SameReaders(s.pcs, t, s'.pcs[t], 0);
    if s.m.phase.Flushing? || s.m.phase.Writing? { SameReaders(s.pcs, t, s'.pcs[t], s.m.phase.r0); }
    forall u: nat | u < |s'.pcs| ensures ThreadOk(s'.m, s'.pcs[u]) { assert ThreadOk(s.m, s.pcs[u]); }
    forall u: nat, v: nat | u < |s'.pcs| && v < |s'.pcs| ensures TicketsDiffer(s'.pcs, u, v) {
      assert TicketsDiffer(s.pcs, u, v) && ThreadOk(s.m, s.pcs[u]) && ThreadOk(s.m, s.pcs[v]);
    }
  }

  lemma LeaveCounts(s: State, t: nat)
    requires Inv(s) && t < |s.pcs| && s.pcs[t].RCrit?
    ensures var m' := s.m.(rout := s.m.rout + RINC); PhaseOk(m') && Counted(m', s.pcs[t := Idle])
  {
    Bits(s.m);
    assert ThreadOk(s.m, s.pcs[t]) && t in Readers(s.pcs, 0);
    ReadersChange(s.pcs, t, Idle, 0);
    if s.m.phase.Writing? { Flushed(s, t); }
    if s.m.phase.Flushing? { ReadersChange(s.pcs, t, Idle, s.m.phase.r0); }
  }

  lemma LeaveKeeps(s: State, t: nat, s': State)
    requires Inv(s) && Next(s, Access(t), s') && s.pcs[t].RCrit?
    ensures Inv(s')
  {
    LeaveCounts(s, t);
    SameTickets(s, t, s'.pcs);
    forall u: nat | u < |s'.pcs| ensures ThreadOk(s'.m, s'.pcs[u]) { assert ThreadOk(s.m, s.pcs[u]); }
  }

  /** A load that only moves the thread on: the writers' turn has come, or the phase has changed. */
  lemma LoadKeeps(s: State, t: nat, s': State)
    requires Inv(s) && Next(s, Access(t), s') && (s.pcs[t].WSpin? || s.pcs[t].RWait? || s.pcs[t].Idle?)
    ensures Inv(s')
  {
    SameReaders(s.pcs, t, s'.pcs[t], 0);
    if s.m.phase.Flushing? || s.m.phase.Writing? { SameReaders(s.pcs, t, s'.pcs[t], s.m.phase.r0); }
    SameTickets(s, t, s'.pcs);
    LoadOk(s, t);
    forall u: nat | u < |s'.pcs| ensures ThreadOk(s'.m, s'.pcs[u]) { assert ThreadOk(s.m, s.pcs[u]); }
  }

  lemma LoadOk(s: State, t: nat)
    requires Inv(s) && t < |s.pcs| && (s.pcs[t].WSpin? || s.pcs[t].RWait? || s.pcs[t].Idle?)
    ensures ThreadOk(s.m, Step(s.m, t, s.pcs[t]).1)
  {
    var pc := s.pcs[t];
    assert ThreadOk(s.m, pc);
    Bits(s.m);
    if pc.WSpin? && !s.m.phase.Free? {
      assert TicketsDiffer(s.pcs, t, s.m.owner) && ThreadOk(s.m, s.pcs[s.m.owner]);
    }
  }

  lemma EnterKeeps(s: State, t: nat, s': State)
    requires Inv(s) && Next(s, Access(t), s') && s.pcs[t].WEnter?
    ensures Inv(s')
  {
    var m, m' := s.m, s'.m;
    assert ThreadOk(m, s.pcs[t]) && R(m') == R(m);
    SameReaders(s.pcs, t, s'.pcs[t], 0);
    forall u: nat | u < |s'.pcs| ensures ThreadOk(m', s'.pcs[u]) {
      assert ThreadOk(m, s.pcs[u]) && TicketsDiffer(s.pcs, t, u);
    }
    NoneAfter(s', R(m'));
    SameTickets(s, t, s'.pcs);
  }

  lemma NoneAfter(s: State, r0: nat)
    requires forall t: nat | t < |s.pcs| :: ThreadOk(s.m, s.pcs[t])
    requires r0 == R(s.m)
    ensures Readers(s.pcs, r0) == {}
  {
    forall t: nat | t < |s.pcs| ensures t !in Readers(s.pcs, r0) { assert ThreadOk(s.m, s.pcs[t]); }
  }

  /** The writer enters when all earlier readers have left: none of them is inside, waiting or not. */
  lemma FlushKeeps(s: State, t: nat, s': State)
    requires Inv(s) && Next(s, Access(t), s') && s.pcs[t].WFlush?
    ensures Inv(s')
  {
    var m, m' := s.m, s'.m;
    assert ThreadOk(m, s.pcs[t]);
    SameReaders(s.pcs, t, s'.pcs[t], 0);
    SameReaders(s.pcs, t, s'.pcs[t], m.phase.r0);
    forall u: nat | u < |s'.pcs| ensures ThreadOk(m', s'.pcs[u]) {
      assert ThreadOk(m, s.pcs[u]) && TicketsDiffer(s.pcs, t, u);
      if m'.phase.Writing? { Flushed(s, u); }
    }
    SameTickets(s, t, s'.pcs);
  }

  lemma ClearKeeps(s: State, t: nat, s': State)
    requires Inv(s) && Next(s, Access(t), s') && s.pcs[t].WCrit?
    ensures Inv(s')
  {
    var m, m' := s.m, s'.m;
    Bits(m);
    assert ThreadOk(m, s.pcs[t]);
    SameReaders(s.pcs, t, s'.pcs[t], 0);
    forall u: nat | u < |s'.pcs| ensures ThreadOk(m', s'.pcs[u]) {
      assert ThreadOk(m, s.pcs[u]) && TicketsDiffer(s.pcs, t, u);
    }
    SameTickets(s, t, s'.pcs);
  }

  lemma ReleaseKeeps(s: State, t: nat, s': State)
    requires Inv(s) && Next(s, Access(t), s') && s.pcs[t].WRelease?
    ensures Inv(s')
  {
    var m, m' := s.m, s'.m;
    assert ThreadOk(m, s.pcs[t]);
    SameReaders(s.pcs, t, s'.pcs[t], 0);
    forall u: nat | u < |s'.pcs| ensures ThreadOk(m', s'.pcs[u]) {
      assert ThreadOk(m, s.pcs[u]) && TicketsDiffer(s.pcs, t, u);
    }
    SameTickets(s, t, s'.pcs);
  }

  lemma NextInv(s: State, l: Label, s': State)
    requires Inv(s) && Next(s, l, s')
    ensures Inv(s')
  {
    match l
    case WriteCall(t) => WriteCallKeeps(s, t, s');
    case ReadCall(t) => ArriveKeeps(s, t, s');
    case Access(t) =>
      match s.pcs[t]
      case WEnter(_) => EnterKeeps(s, t, s');
      case WFlush(_, _) => FlushKeeps(s, t, s');
      case WCrit(_) => ClearKeeps(s, t, s');
      case WRelease(_) => ReleaseKeeps(s, t, s');
      case RCrit(_) => LeaveKeeps(s, t, s');
      case _ => LoadKeeps(s, t, s');
  }

  // ---------------------------------------------------------------- runs

  ghost predicate IsRun(run: seq<State>, ls: seq<Label>) {
    Machine.Steps(Next, run, ls) && Init(run[0])
  }

  lemma InitInv(s: State)
    requires Init(s)
    ensures Inv(s)
  {
    assert Readers(s.pcs, 0) == {};
  }

  lemma RunInv(run: seq<State>, ls: seq<Label>, k: nat)
    requires IsRun(run, ls) && k < |run|
    ensures Inv(run[k])
  {
    InitInv(run[0]);
    forall s, l, s' | Inv(s) && Next(s, l, s') ensures Inv(s') { NextInv(s, l, s'); }
    Machine.Invariant(Next, Inv, run, ls, k);
  }

  /** In every run, a writer in its critical section excludes every reader and every other writer. */
  lemma WriterExcludes(run: seq<State>, ls: seq<Label>, k: nat, t: nat, u: nat)
    requires IsRun(run, ls) && k < |run| && t < |run[k].pcs| && u < |run[k].pcs| && t != u
    requires run[k].pcs[t].WCrit?
    ensures !run[k].pcs[u].WCrit? && !run[k].pcs[u].RCrit?
  {
    RunInv(run, ls, k);
    var s := run[k];
    assert ThreadOk(s.m, s.pcs[t]) && ThreadOk(s.m, s.pcs[u]) && TicketsDiffer(s.pcs, t, u);
    Flushed(s, u);
  }

  /** How many writers have entered in the first k steps. */
  ghost function Entries(run: seq<State>, k: nat): nat
    requires k < |run|
  {
    if k == 0 then 0 else Entries(run, k - 1) + if Entering(run[k - 1], run[k]) then 1 else 0
  }

  ghost predicate Entering(s: State, s': State) {
    exists t | 0 <= t < |s.pcs| == |s'.pcs| :: s.pcs[t].WFlush? && s'.pcs[t].WCrit?
  }

  lemma {:induction false} EntriesAreCounted(run: seq<State>, ls: seq<Label>, k: nat)
    requires IsRun(run, ls) && k < |run|
    ensures run[k].m.begun == Entries(run, k)
  {
    if k > 0 {
      EntriesAreCounted(run, ls, k - 1);
      assert Machine.StepAt(Next, run, ls, k - 1);
      var s, l, s' := run[k - 1], ls[k - 1], run[k];
      if l.Access? && s.pcs[l.t].WFlush? && s'.pcs[l.t].WCrit? { assert Entering(s, s'); }
    }
  }

  /** The thread takes no other step than to go on waiting from step a to step b. */
  ghost predicate Waits(run: seq<State>, t: nat, a: nat, b: nat) {
    forall i: nat | a <= i <= b :: i < |run| && t < |run[i].pcs| && run[i].pcs[t].RWait?
  }

  lemma {:induction false} WaitRemembers(run: seq<State>, ls: seq<Label>, t: nat, a: nat, b: nat)
    requires IsRun(run, ls) && a <= b < |run| && Waits(run, t, a, b)
    ensures run[b].pcs[t].since == run[a].pcs[t].since
  {
    if a < b {
      assert run[b - 1].pcs[t].RWait? && run[b].pcs[t].RWait?;
      assert Machine.StepAt(Next, run, ls, b - 1);
      WaitRemembers(run, ls, t, a, b - 1);
    }
  }

  /** Phase fairness: from the arrival of a reader, for as long as it waits, at most one writer enters;
    so at most one writer's critical section comes between. */
  lemma OneWriterBetween(run: seq<State>, ls: seq<Label>, t: nat, a: nat, b: nat)
    requires IsRun(run, ls) && a < b < |run| && ls[a] == ReadCall(t) && Waits(run, t, a + 1, b)
    ensures Entries(run, b) <= Entries(run, a) + 1
  {
    assert Machine.StepAt(Next, run, ls, a);
    assert run[a + 1].pcs[t].RWait? && run[b].pcs[t].RWait?;
    WaitRemembers(run, ls, t, a + 1, b);
    EntriesAreCounted(run, ls, a);
    EntriesAreCounted(run, ls, b);
    RunInv(run, ls, b);
    assert ThreadOk(run[b].m, run[b].pcs[t]);
  }

  // ---------------------------------------------------------------- nobody waits for ever

  ghost predicate HoldsTicket(pcs: seq<Pc>, t: nat, i: nat) {
    t < |pcs| && Writer(pcs[t]) && pcs[t].ticket == i
  }

  ghost predicate IsHeld(pcs: seq<Pc>, i: nat) { exists t: nat :: HoldsTicket(pcs, t, i) }

  lemma HeldNext(s: State, l: Label, s': State, i: nat)
    requires Inv(s) && Next(s, l, s') && s'.m.wout <= i < s'.m.win
    requires i < s.m.win ==> IsHeld(s.pcs, i)
    ensures IsHeld(s'.pcs, i)
  {
    if s.m.win <= i {
      assert HoldsTicket(s'.pcs, l.t, i);
    } else {
      var t: nat :| HoldsTicket(s.pcs, t, i);
      assert ThreadOk(s.m, s.pcs[t]);
      assert HoldsTicket(s'.pcs, t, i);
    }
  }

  /** Every ticket whose turn is now or still to come is in the hands of a writer. */
  lemma {:induction false} TicketsAreHeld(run: seq<State>, ls: seq<Label>, k: nat, i: nat)
    requires IsRun(run, ls) && k < |run| && run[k].m.wout <= i < run[k].m.win
    ensures IsHeld(run[k].pcs, i)
  {
    if k > 0 {
      RunInv(run, ls, k - 1);
      assert Machine.StepAt(Next, run, ls, k - 1);
      var s, s' := run[k - 1], run[k];
      if i < s.m.win { TicketsAreHeld(run, ls, k - 1, i); }
      HeldNext(s, ls[k - 1], s', i);
    }
  }

  /** The next access of thread t takes it further. */
  ghost predicate MovesOn(s: State, t: nat) {
    t < |s.pcs| && !s.pcs[t].Idle? && Step(s.m, t, s.pcs[t]).1 != s.pcs[t]
  }

  /** A writer that waits for the readers before it to leave waits for a thread that can go on. */
  lemma FlushWaitsFor(s: State, t: nat) returns (u: nat)
    requires Inv(s) && t < |s.pcs| && s.pcs[t].WFlush?
    ensures MovesOn(s, u)
  {
    u := t;
    assert ThreadOk(s.m, s.pcs[t]);
    var r0 := s.m.phase.r0;
    var all, later := Readers(s.pcs, 0), Readers(s.pcs, r0);
    if D(s.m) != r0 {
      SubsetSize(later, all);
      if all <= later { SubsetSize(all, later); }
      u :| u in all && u !in later;
      assert ThreadOk(s.m, s.pcs[u]);
      Bits(s.m);
    }
  }

  /** So does a reader that waits for a writer. */
  lemma ReaderWaitsFor(s: State, t: nat) returns (u: nat)
    requires Inv(s) && t < |s.pcs| && s.pcs[t].RWait?
    ensures MovesOn(s, u)
  {
    u := t;
    assert ThreadOk(s.m, s.pcs[t]);
    Bits(s.m);
    if !MovesOn(s, t) {
      u := s.m.owner;
      if s.pcs[u].WFlush? { u := FlushWaitsFor(s, u); }
    }
  }

  /** At no point of any run do threads wait for each other in a circle: if one is in a call or holds the lock,
    some thread can go on. */
  lemma NeverStuck(run: seq<State>, ls: seq<Label>, k: nat, t: nat) returns (u: nat)
    requires IsRun(run, ls) && k < |run| && t < |run[k].pcs| && !run[k].pcs[t].Idle?
    ensures MovesOn(run[k], u)
  {
    RunInv(run, ls, k);
    var s := run[k];
    assert ThreadOk(s.m, s.pcs[t]);
    u := t;
    if s.pcs[t].WSpin? {
      TicketsAreHeld(run, ls, k, s.m.wout);
      u :| HoldsTicket(s.pcs, u, s.m.wout);
    }
    if s.pcs[u].WFlush? {
      u := FlushWaitsFor(s, u);
    } else if s.pcs[u].RWait? {
      u := ReaderWaitsFor(s, u);
    }
  }

  // ---------------------------------------------------------------- calls

  ghost function CallBy(t: nat): Label -> bool {
    (l: Label) => !l.Access? && l.t == t
  }

  /** What a call is for. */
  ghost predicate Granted(l: Label, pc: Pc) { if l.WriteCall? then pc.WCrit? else pc.RCrit? }

  ghost predicate GrantedAt(run: seq<State>, t: nat, call: Label, j: nat) {
    j < |run| && t < |run[j].pcs| && Granted(call, run[j].pcs[t])
  }

  ghost predicate WasGranted(run: seq<State>, t: nat, call: Label, a: nat, k: nat) {
    exists j: nat :: a < j <= k && GrantedAt(run, t, call, j)
  }

  ghost predicate Acquires(l: Label, pc: Pc) {
    if l.WriteCall? then pc.WSpin? || pc.WEnter? || pc.WFlush? else pc.RWait?
  }

  lemma {:induction false} Outcome(run: seq<State>, ls: seq<Label>, k: nat, t: nat)
    requires IsRun(run, ls) && k < |run| && t < |run[0].pcs|
    ensures |run[k].pcs| == |run[0].pcs|
    ensures match Machine.Last(CallBy(t), ls, k)
            case None => run[k].pcs[t].Idle?
            case Some(a) => Acquires(ls[a], run[k].pcs[t]) || WasGranted(run, t, ls[a], a, k)
  {
    if k > 0 {
      var p: nat := k - 1;
      Outcome(run, ls, p, t);
      assert Machine.StepAt(Next, run, ls, p);
      if CallBy(t)(ls[p]) {
        assert Granted(ls[p], run[k].pcs[t]) ==> GrantedAt(run, t, ls[p], k);
      } else if a: nat :| Machine.Last(CallBy(t), ls, p) == Some(a) {
        assert Granted(ls[a], run[k].pcs[t]) ==> GrantedAt(run, t, ls[a], k);
        if WasGranted(run, t, ls[a], a, p) {
          var j: nat :| a < j <= p && GrantedAt(run, t, ls[a], j);
          assert a < j <= k && GrantedAt(run, t, ls[a], j);
        }
      }
    }
  }

  /** A thread that is done with a call has been in the critical section that it asked for. */
  lemma CallIsGranted(run: seq<State>, ls: seq<Label>, k: nat, t: nat, a: nat)
    requires IsRun(run, ls) && k < |run| && t < |run[0].pcs| && t < |run[k].pcs| && run[k].pcs[t].Idle?
    requires Machine.Last(CallBy(t), ls, k) == Some(a)
    ensures WasGranted(run, t, ls[a], a, k)
  {
    Outcome(run, ls, k, t);
  }

  // ---------------------------------------------------------------- 32-bit words

  const WORDS := 0x1_0000_0000

  /** The comparisons of the code, on words that wrap, agree with those above while fewer than 2^24
    readers are inside and fewer than 2^32 writers hold tickets. */
  lemma WrapAgrees(m: Shared, rt: nat, ticket: nat)
    requires rt % RINC == 0 && m.rout % RINC == 0 && m.rout <= rt < m.rout + WORDS
    requires m.wout <= ticket < m.wout + WORDS
    ensures m.rout % WORDS == rt % WORDS <==> m.rout == rt
    ensures m.wout % WORDS == ticket % WORDS <==> m.wout == ticket
    ensures m.rin % WORDS % 4 == m.rin % 4 && ticket % WORDS % 2 == ticket % 2
  {
    SameWord(m.rout, rt);
    SameWord(m.wout, ticket);
    LowBits(m.rin);
    LowBits(ticket);
  }

  lemma SameWord(a: nat, b: nat)
    requires a <= b < a + WORDS
    ensures a % WORDS == b % WORDS <==> a == b
  {
    var p, q := a / WORDS, b / WORDS;
    assert a == WORDS * p + a % WORDS && b == WORDS * q + b % WORDS;
  }

  lemma LowBits(a: nat)
    ensures a % WORDS % 4 == a % 4 && a % WORDS % 2 == a % 2
  {
    var p, r := a / WORDS, a % WORDS;
    assert a == WORDS * p + r;
    ModUnique(a, 4, 0x4000_0000 * p + r / 4, r % 4);
    ModUnique(a, 2, 0x8000_0000 * p + r / 2, r % 2);
  }
}
