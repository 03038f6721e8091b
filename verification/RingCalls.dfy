/** The calls of the ring from beginning to end (include/ck_ring.h:317-489): each does what it was asked
  for, once; the entries that come out are the arguments of the enqueues; and what a call can wait for. */
module RingCalls {
  import opened Prelude
  import Machine
  import opened Ring

  // ---------------------------------------------------------------- a lost try

  ghost predicate InDequeue(pc: Pc) {
    pc.DeqLoadHead? || pc.DeqLoadTail? || pc.DeqCopy? || pc.DeqTake?
  }

  /** From point i up to point k thread t stays inside one dequeue, and c was the consumer counter at i. */
  ghost predicate HeadAt(run: seq<State>, k: nat, t: nat, i: nat, c: nat) {
    && i < k < |run| && run[i].m.cHead == c
    && forall j: nat | i <= j <= k :: t < |run[j].pcs| && InDequeue(run[j].pcs[t])
  }

  lemma {:induction false} HeadWitness(run: seq<State>, ls: seq<Label>, k: nat, t: nat)
    requires IsRun(run, ls) && k < |run| && t < |run[k].pcs|
    requires run[k].pcs[t].DeqLoadTail? || run[k].pcs[t].DeqCopy? || run[k].pcs[t].DeqTake?
    ensures exists i: nat :: HeadAt(run, k, t, i, run[k].pcs[t].c)
  {
    assert k > 0;
    var p: nat, c := k - 1, run[k].pcs[t].c;
    var s := run[p];
    assert Machine.StepAt(Next, run, ls, p);
    if s.m.cHead == c && InDequeue(s.pcs[t]) {
      assert HeadAt(run, k, t, p, c);
    } else {
      assert !s.pcs[t].DeqLoadHead? && InDequeue(s.pcs[t]) && s.pcs[t].c == c;
      HeadWitness(run, ls, p, t);
      var i: nat :| HeadAt(run, p, t, i, c);
      assert HeadAt(run, k, t, i, c);
    }
  }

  /** A single try that gives up has lost to another consumer: one entry at least was taken since it began. */
  lemma LostWasTrue(run: seq<State>, ls: seq<Label>, k: nat, t: nat)
    requires IsRun(run, ls) && k < |ls| && t < |run[k].pcs| && ls[k] == Access(t) && !run[k].pcs[t].Idle?
    requires t < |run[k + 1].pcs| && run[k + 1].pcs[t] == Idle(Lost)
    ensures exists i: nat, c: nat :: HeadAt(run, k, t, i, c) && c < run[k].m.cHead
  {
    RunInv(run, ls, k);
    assert Machine.StepAt(Next, run, ls, k);
    assert ThreadInv(run[k].m, t, run[k].pcs[t]);
    HeadWitness(run, ls, k, t);
  }

  // ---------------------------------------------------------------- calls

  ghost function CallBy(t: nat): Label -> bool {
    (l: Label) => !l.Access? && l.t == t
  }

  /** The entry that an enqueue carries. */
  ghost function Carried(pc: Pc): Option<Entry> {
    if pc.EnqLoadHead? || pc.EnqLoadCons? || pc.EnqReserve? || pc.EnqRecheck? || pc.EnqWrite? || pc.EnqWait? || pc.EnqPublish?
    then Some(pc.v) else None
  }

  /** Where a thread can be in a call, or after it: an enqueue carries the entry of its call. */
  ghost predicate Serves(l: Label, pc: Pc) {
    match l
    case EnqueueCall(_, v) => Carried(pc) == Some(v) || (pc.Idle? && (pc.answer.Enqueued? || pc.answer.Full?))
    case DequeueCall(_, once) =>
      || ((pc.DeqLoadHead? || pc.DeqLoadTail? || pc.DeqCopy? || pc.DeqTake?) && pc.once == once)
      || (pc.Idle? && (pc.answer.Dequeued? || pc.answer.Empty? || (once && pc.answer.Lost?)))
    case Access(_) => false
  }

  lemma {:induction false} Serving(run: seq<State>, ls: seq<Label>, k: nat, t: nat)
    requires IsRun(run, ls) && k < |run| && t < |run[0].pcs|
    ensures |run[k].pcs| == |run[0].pcs|
    ensures match Machine.Last(CallBy(t), ls, k)
            case None => run[k].pcs[t] == Idle(NoAnswer)
            case Some(a) => Serves(ls[a], run[k].pcs[t])
  {
    if k > 0 {
      Serving(run, ls, k - 1, t);
      assert Machine.StepAt(Next, run, ls, k - 1);
    }
  }

  lemma {:induction false} PcsKept(run: seq<State>, ls: seq<Label>, k: nat)
    requires IsRun(run, ls) && k < |run|
    ensures |run[k].pcs| == |run[0].pcs|
  {
    if k > 0 {
      PcsKept(run, ls, k - 1);
      assert Machine.StepAt(Next, run, ls, k - 1);
    }
  }

  /** Step j gives out no ticket and hands out no entry. */
  ghost predicate Leaves(run: seq<State>, j: nat) {
    j + 1 < |run| && run[j + 1].m.vals == run[j].m.vals && run[j + 1].m.cHead == run[j].m.cHead
  }

  /** Step j gives out ticket p, for entry v. */
  ghost predicate Tickets(run: seq<State>, j: nat, p: nat, v: Entry) {
    j + 1 < |run| && |run[j].m.vals| == p && run[j + 1].m.vals == run[j].m.vals + [v] && run[j + 1].m.cHead == run[j].m.cHead
  }

  /** The accesses of thread t after its call at step a and before step k take nothing, except that at
    step i, if that is one of them. */
  ghost predicate OnlyAt(run: seq<State>, ls: seq<Label>, t: nat, a: nat, k: nat, i: nat) {
    k <= |ls| && forall j | a < j < k && j != i && ls[j] == Access(t) :: Leaves(run, j)
  }

  /** Step i is the one access of the call at step a that takes a ticket, p, for v. */
  ghost predicate TicketAt(run: seq<State>, ls: seq<Label>, t: nat, a: nat, k: nat, i: nat, p: nat, v: Entry) {
    a < i < k <= |ls| && ls[i] == Access(t) && Tickets(run, i, p, v) && OnlyAt(run, ls, t, a, k, i)
  }

  /** The ticket that a thread holds. */
  ghost function Ticket(pc: Pc): Option<nat> {
    if pc.EnqWrite? || pc.EnqWait? || pc.EnqPublish? then Some(pc.p) else None
  }

  ghost predicate DoneSoFar(run: seq<State>, ls: seq<Label>, t: nat, a: nat, k: nat)
    requires a < k < |run| && |run| == |ls| + 1 && t < |run[k].pcs|
  {
    match Ticket(run[k].pcs[t])
    case Some(p) => ls[a].EnqueueCall? && exists i: nat :: TicketAt(run, ls, t, a, k, i, p, ls[a].v)
    case None => OnlyAt(run, ls, t, a, k, a)
  }

  /** What an access within a call does: it takes a ticket for the argument, or nothing. */
  lemma StepDoes(s: State, l: Label, s': State, call: Label)
    requires Inv(s) && Next(s, l, s') && l.Access? && Serves(call, s.pcs[l.t]) && !s.pcs[l.t].Idle? && !s'.pcs[l.t].Idle?
    ensures s'.m.cHead == s.m.cHead
    ensures
      match Ticket(s'.pcs[l.t])
      case None => Ticket(s.pcs[l.t]).None? && s'.m.vals == s.m.vals
      case Some(p) =>
        if Ticket(s.pcs[l.t]).Some? then Ticket(s.pcs[l.t]).value == p && s'.m.vals == s.m.vals
        else call.EnqueueCall? && |s.m.vals| == p && s'.m.vals == s.m.vals + [call.v]
  {
    assert ThreadInv(s.m, l.t, s.pcs[l.t]);
  }

  lemma {:induction false} SoFar(run: seq<State>, ls: seq<Label>, k: nat, t: nat, a: nat)
    requires IsRun(run, ls) && a < k < |run| && t < |run[0].pcs| && t < |run[k].pcs| && !run[k].pcs[t].Idle?
    requires Machine.Last(CallBy(t), ls, k) == Some(a)
    ensures DoneSoFar(run, ls, t, a, k)
  {
    assert Machine.StepAt(Next, run, ls, k - 1);
    if a + 1 < k {
      Serving(run, ls, k - 1, t);
      RunInv(run, ls, k - 1);
      SoFar(run, ls, k - 1, t, a);
      if ls[k - 1] == Access(t) { StepDoes(run[k - 1], ls[k - 1], run[k], ls[a]); }
      SoFarNext(run, ls, k, t, a);
    }
  }

  lemma SoFarNext(run: seq<State>, ls: seq<Label>, k: nat, t: nat, a: nat)
    requires |run| == |ls| + 1 && a + 1 < k < |run| && t < |run[k - 1].pcs| == |run[k].pcs|
    requires DoneSoFar(run, ls, t, a, k - 1)
    requires ls[k - 1] != Access(t) ==> run[k].pcs[t] == run[k - 1].pcs[t]
    requires Ticket(run[k - 1].pcs[t]).Some? ==> Ticket(run[k].pcs[t]) == Ticket(run[k - 1].pcs[t])
    requires
      ls[k - 1] == Access(t) ==>
        if Ticket(run[k].pcs[t]) == Ticket(run[k - 1].pcs[t]) then Leaves(run, k - 1)
        else ls[a].EnqueueCall? && Ticket(run[k].pcs[t]).Some? && Tickets(run, k - 1, Ticket(run[k].pcs[t]).value, ls[a].v)
    ensures DoneSoFar(run, ls, t, a, k)
  {
    if Ticket(run[k - 1].pcs[t]).Some? {
      var p := Ticket(run[k - 1].pcs[t]).value;
      var i: nat :| TicketAt(run, ls, t, a, k - 1, i, p, ls[a].v);
      OnlyNext(run, ls, t, a, k, i);
      assert TicketAt(run, ls, t, a, k, i, p, ls[a].v);
    } else if Ticket(run[k].pcs[t]).Some? {
      OnlyNext(run, ls, t, a, k, k - 1);
      assert TicketAt(run, ls, t, a, k, k - 1, Ticket(run[k].pcs[t]).value, ls[a].v);
    } else {
      OnlyNext(run, ls, t, a, k, a);
    }
  }

  lemma OnlyNext(run: seq<State>, ls: seq<Label>, t: nat, a: nat, k: nat, i: nat)
    requires a + 1 < k <= |ls| && (OnlyAt(run, ls, t, a, k - 1, i) || OnlyAt(run, ls, t, a, k - 1, a))
    requires ls[k - 1] == Access(t) && i != k - 1 ==> Leaves(run, k - 1)
    ensures OnlyAt(run, ls, t, a, k, i)
  {
  }

  /** In step k entry v is published under ticket p: its slot holds the whole of it. */
  ghost predicate Publishes(m: Shared, m': Shared, p: nat, v: Entry) {
    && m.size > 0 && |m.buf| == m.size && m.pTail == p && m'.pTail == p + 1 && m.buf[Slot(m, p)] == v && m'.buf == m.buf
  }

  lemma PublishIs(s: State, l: Label, s': State)
    requires Inv(s) && Next(s, l, s') && l.Access? && s.pcs[l.t].EnqPublish?
    ensures Publishes(s.m, s'.m, s.pcs[l.t].p, s.pcs[l.t].v) && s'.m.vals == s.m.vals
  {
    var m, pc := s.m, s.pcs[l.t];
    assert ThreadInv(m, l.t, pc);
    assert m.buf[Slot(m, pc.p)][..m.words] == m.buf[Slot(m, pc.p)] && pc.v[..m.words] == pc.v;
  }

  /** Every call does what was asked for, once. An enqueue has taken one ticket for its entry, and
    returns when it has published it under that ticket; or it has taken none and says that the ring is
    full, which it was in between. A dequeue takes the oldest entry in the step with which it returns, or
    says that nothing is published; a single try may instead lose to another consumer, which has taken an
    entry in between. */
  lemma CallTakesEffect(run: seq<State>, ls: seq<Label>, k: nat, t: nat)
    requires IsRun(run, ls) && k < |ls| && ls[k] == Access(t) && t < |run[k].pcs| && t < |run[k + 1].pcs|
    requires !run[k].pcs[t].Idle? && run[k + 1].pcs[t].Idle?
    ensures Machine.Last(CallBy(t), ls, k).Some?
    ensures
      var a, answer, m, m' := Machine.Last(CallBy(t), ls, k).value, run[k + 1].pcs[t].answer, run[k].m, run[k + 1].m;
      match ls[a]
      case EnqueueCall(_, v) =>
        m'.vals == m.vals && m'.cHead == m.cHead &&
        (match answer
         case Enqueued => exists i: nat :: TicketAt(run, ls, t, a, k, i, m.pTail, v) && Publishes(m, m', m.pTail, v)
         case Full => OnlyAt(run, ls, t, a, k, a) && m' == m && exists i: nat :: a < i && FullDuring(run, k, t, i)
         case _ => false)
      case DequeueCall(_, once) =>
        OnlyAt(run, ls, t, a, k, a) &&
        (match answer
         case Dequeued(d) => m.cHead < m.pTail && m.cHead < |m.vals| && d == m.vals[m.cHead] && m' == m.(cHead := m.cHead + 1)
         case Empty => m.cHead == m.pTail && m' == m
         case Lost => once && m' == m && exists i: nat, c: nat :: a < i && HeadAt(run, k, t, i, c) && c < m.cHead
         case _ => false)
      case Access(_) => false
  {
    PcsKept(run, ls, k);
    Serving(run, ls, k, t);
    Serving(run, ls, k + 1, t);
    var a := Machine.Last(CallBy(t), ls, k).value;
    SoFar(run, ls, k, t, a);
    RunInv(run, ls, k);
    assert Machine.StepAt(Next, run, ls, k);
    AnswersAreRight(run[k], ls[k], run[k + 1]);
    if ls[a].EnqueueCall? { EnqueueEnds(run, ls, k, t, a); }
    if run[k + 1].pcs[t].answer.Lost? {
      LostWasTrue(run, ls, k, t);
      var i: nat, c: nat :| HeadAt(run, k, t, i, c) && c < run[k].m.cHead;
      CallWasIdle(run, ls, a);
    }
  }

  lemma CallWasIdle(run: seq<State>, ls: seq<Label>, a: nat)
    requires IsRun(run, ls) && a < |ls| && !ls[a].Access?
    ensures ls[a].t < |run[a].pcs| && run[a].pcs[ls[a].t].Idle?
  {
    assert Machine.StepAt(Next, run, ls, a);
  }

  lemma EnqueueEnds(run: seq<State>, ls: seq<Label>, k: nat, t: nat, a: nat)
    requires IsRun(run, ls) && a < k < |ls| && ls[k] == Access(t) && t < |run[k].pcs| && t < |run[k + 1].pcs|
    requires !run[k].pcs[t].Idle? && run[k + 1].pcs[t].Idle? && ls[a].EnqueueCall? && ls[a].t == t
    requires Serves(ls[a], run[k].pcs[t]) && DoneSoFar(run, ls, t, a, k)
    ensures var answer, m, m' := run[k + 1].pcs[t].answer, run[k].m, run[k + 1].m;
            && m'.vals == m.vals && m'.cHead == m.cHead
            && (answer.Enqueued? ==>
                  exists i: nat :: TicketAt(run, ls, t, a, k, i, m.pTail, ls[a].v) && Publishes(m, m', m.pTail, ls[a].v))
            && (answer.Full? ==> OnlyAt(run, ls, t, a, k, a) && m' == m && exists i: nat :: a < i && FullDuring(run, k, t, i))
  {
    RunInv(run, ls, k);
    assert Machine.StepAt(Next, run, ls, k);
    AnswersAreRight(run[k], ls[k], run[k + 1]);
    if run[k].pcs[t].EnqPublish? {
      PublishIs(run[k], ls[k], run[k + 1]);
    } else if run[k + 1].pcs[t].answer.Full? {
      FullWasTrue(run, ls, k, t);
      var i: nat :| FullDuring(run, k, t, i);
      CallWasIdle(run, ls, a);
    }
  }

  /** The arguments of the enqueues in ticket order: at each step that gives out a ticket, the entry of
    the last call of the thread that takes it. */
  ghost function AllAsked(run: seq<State>, ls: seq<Label>, k: nat): seq<Entry>
    requires |run| == |ls| + 1 && k < |run|
  {
    if k == 0 then []
    else AllAsked(run, ls, k - 1)
         + if |run[k].m.vals| <= |run[k - 1].m.vals| then [] else Argument(ls, ls[k - 1].t, k - 1)
  }

  ghost function Argument(ls: seq<Label>, t: nat, k: nat): seq<Entry>
    requires k <= |ls|
  {
    match Machine.Last(CallBy(t), ls, k)
    case None => []
    case Some(a) => if ls[a].EnqueueCall? then [ls[a].v] else []
  }

  lemma TicketedIsArgument(run: seq<State>, ls: seq<Label>, k: nat)
    requires IsRun(run, ls) && k < |ls|
    ensures Ticketed(run[k], ls[k], run[k + 1])
         == if |run[k + 1].m.vals| <= |run[k].m.vals| then [] else Argument(ls, ls[k].t, k)
  {
    RunInv(run, ls, k);
    assert Machine.StepAt(Next, run, ls, k);
    StepLogs(run[k], ls[k], run[k + 1]);
    PcsKept(run, ls, k);
    Serving(run, ls, k, ls[k].t);
  }

  /** In every run, at every point: the entries handed out are the arguments of the enqueues, in ticket
    order, up to the consumer counter. */
  lemma {:induction false} ReturnsWhatWasAsked(run: seq<State>, ls: seq<Label>, k: nat)
    requires IsRun(run, ls) && k < |run|
    ensures AllAsked(run, ls, k) == AllTicketed(run, ls, k)
    ensures run[k].m.cHead <= |AllAsked(run, ls, k)| && AllTaken(run, ls, k) == AllAsked(run, ls, k)[..run[k].m.cHead]
  {
    RunIsFifo(run, ls, k);
    if k > 0 {
      ReturnsWhatWasAsked(run, ls, k - 1);
      TicketedIsArgument(run, ls, k - 1);
    }
  }

  // ---------------------------------------------------------------- a thread that runs alone

  ghost predicate Fresh(m: Shared, pc: Pc) {
    match pc
    case EnqLoadCons(_, p) => p == m.pHead
    case EnqReserve(_, p) => p == m.pHead
    case EnqRecheck(_, p, _) => p == m.pHead
    case DeqLoadTail(_, c) => c == m.cHead
    case DeqCopy(_, c, _) => c == m.cHead
    case DeqTake(_, c, _) => c == m.cHead
    case _ => true
  }

  /** How many accesses a call takes at most, if no other thread takes a step and none of them holds a
    ticket. A counter that was loaded too long ago costs one more round. */
  ghost function Rank(m: Shared, pc: Pc): nat {
    match pc
    case Idle(_) => 0
    case EnqLoadHead(_) => m.words + 5
    case EnqLoadCons(_, _) => if Fresh(m, pc) then m.words + 4 else m.words + 6
    case EnqReserve(_, _) => if Fresh(m, pc) then m.words + 3 else m.words + 5
    case EnqRecheck(_, _, _) => if Fresh(m, pc) then 1 else m.words + 5
    case EnqWrite(_, _, j) => if j < m.words then m.words - j + 2 else 0
    case EnqWait(_, _) => 2
    case EnqPublish(_, _) => 1
    case DeqLoadHead(_) => m.words + 3
    case DeqLoadTail(_, _) => if Fresh(m, pc) then m.words + 2 else 2 * m.words + 4
    case DeqCopy(_, _, d) => if |d| < m.words then m.words - |d| + (if Fresh(m, pc) then 1 else m.words + 3) else 0
    case DeqTake(_, _, _) => if Fresh(m, pc) then 1 else m.words + 3
  }

  /** Nobody but a thread with this program counter holds a ticket that is not published. */
  ghost predicate NoneBefore(m: Shared, pc: Pc) {
    m.pHead == m.pTail + if Ticket(pc).Some? then 1 else 0
  }

  ghost function Alone(t: nat): (State, Label, State) -> bool {
    (s: State, l: Label, s': State) => l == Access(t) && Next(s, l, s')
  }

  lemma EnqueueFalls(s: State, t: nat, s': State)
    requires Inv(s) && Next(s, Access(t), s') && Carried(s.pcs[t]).Some? && NoneBefore(s.m, s.pcs[t])
    ensures NoneBefore(s'.m, s'.pcs[t]) && Rank(s'.m, s'.pcs[t]) < Rank(s.m, s.pcs[t]) && s'.m.words == s.m.words
    ensures Carried(s'.pcs[t]).Some? || s'.pcs[t].Idle?
  {
    assert ThreadInv(s.m, t, s.pcs[t]);
  }

  lemma DequeueFalls(s: State, t: nat, s': State)
    requires Inv(s) && Next(s, Access(t), s') && InDequeue(s.pcs[t])
    ensures Rank(s'.m, s'.pcs[t]) < Rank(s.m, s.pcs[t]) && (InDequeue(s'.pcs[t]) || s'.pcs[t].Idle?)
  {
    assert ThreadInv(s.m, t, s.pcs[t]);
  }

  lemma RankBounded(m: Shared, t: nat, pc: Pc)
    requires ThreadInv(m, t, pc)
    ensures !pc.Idle? ==> 0 < Rank(m, pc) <= 2 * m.words + 5
  {
  }

  lemma {:induction false} AloneKeeps(run: seq<State>, ls: seq<Label>, t: nat, k: nat)
    requires Machine.Steps(Alone(t), run, ls) && k < |run| && Inv(run[0])
    ensures |run[k].pcs| == |run[0].pcs| && Inv(run[k])
  {
    if k > 0 {
      AloneKeeps(run, ls, t, k - 1);
      assert Machine.StepAt(Alone(t), run, ls, k - 1);
      NextInv(run[k - 1], ls[k - 1], run[k]);
    }
  }

  /** Whatever others have left undone, a dequeue that runs alone is done after at most two accesses for each
    word and five more. */
  lemma DequeueAlone(run: seq<State>, ls: seq<Label>, t: nat) returns (k: nat)
    requires Machine.Steps(Alone(t), run, ls) && Inv(run[0]) && t < |run[0].pcs| && InDequeue(run[0].pcs[t])
    requires |ls| >= 2 * run[0].m.words + 5
    ensures k < |run| && k <= 2 * run[0].m.words + 5 && t < |run[k].pcs| && run[k].pcs[t].Idle?
  {
    assert ThreadInv(run[0].m, t, run[0].pcs[t]);
    RankBounded(run[0].m, t, run[0].pcs[t]);
    var inv := (s: State) => Inv(s) && t < |s.pcs| && (s.pcs[t].Idle? || InDequeue(s.pcs[t]));
    var busy := (s: State) => t < |s.pcs| && !s.pcs[t].Idle?;
    var rank := (s: State) => if t < |s.pcs| then Rank(s.m, s.pcs[t]) else 0;
    forall s | inv(s) && busy(s) ensures rank(s) > 0 {
      assert ThreadInv(s.m, t, s.pcs[t]);
      RankBounded(s.m, t, s.pcs[t]);
    }
    forall s, l, s' | inv(s) && busy(s) && Alone(t)(s, l, s') ensures inv(s') && (busy(s') ==> rank(s') < rank(s)) {
      NextInv(s, l, s');
      DequeueFalls(s, t, s');
    }
    k := Machine.Ends(Alone(t), inv, busy, rank, run, ls);
  }

  /** So is an enqueue, if no other thread holds a ticket that it has not published. */
  lemma EnqueueAlone(run: seq<State>, ls: seq<Label>, t: nat) returns (k: nat)
    requires Machine.Steps(Alone(t), run, ls) && Inv(run[0]) && t < |run[0].pcs| && Carried(run[0].pcs[t]).Some?
    requires |ls| >= 2 * run[0].m.words + 5 && NoneBefore(run[0].m, run[0].pcs[t])
    ensures k < |run| && k <= 2 * run[0].m.words + 5 && t < |run[k].pcs| && run[k].pcs[t].Idle?
  {
    assert ThreadInv(run[0].m, t, run[0].pcs[t]);
    RankBounded(run[0].m, t, run[0].pcs[t]);
    var inv := (s: State) =>
      Inv(s) && t < |s.pcs| && NoneBefore(s.m, s.pcs[t]) && (s.pcs[t].Idle? || Carried(s.pcs[t]).Some?);
    var busy := (s: State) => t < |s.pcs| && !s.pcs[t].Idle?;
    var rank := (s: State) => if t < |s.pcs| then Rank(s.m, s.pcs[t]) else 0;
    forall s | inv(s) && busy(s) ensures rank(s) > 0 {
      assert ThreadInv(s.m, t, s.pcs[t]);
      RankBounded(s.m, t, s.pcs[t]);
    }
    forall s, l, s' | inv(s) && busy(s) && Alone(t)(s, l, s') ensures inv(s') && (busy(s') ==> rank(s') < rank(s)) {
      NextInv(s, l, s');
      EnqueueFalls(s, t, s');
    }
    k := Machine.Ends(Alone(t), inv, busy, rank, run, ls);
  }

  /** An enqueue that has its ticket does not return for as long as an earlier one is not published. */
  lemma {:induction false} EnqueueWaits(run: seq<State>, ls: seq<Label>, t: nat, k: nat)
    requires Machine.Steps(Alone(t), run, ls) && Inv(run[0]) && t < |run[0].pcs| && k < |run|
    requires Ticket(run[0].pcs[t]).Some? && run[0].m.pTail < Ticket(run[0].pcs[t]).value
    ensures t < |run[k].pcs| && Ticket(run[k].pcs[t]) == Ticket(run[0].pcs[t]) && run[k].m.pTail == run[0].m.pTail
  {
    if k > 0 {
      EnqueueWaits(run, ls, t, k - 1);
      AloneKeeps(run, ls, t, k - 1);
      assert Machine.StepAt(Alone(t), run, ls, k - 1);
      assert ThreadInv(run[k - 1].m, t, run[k - 1].pcs[t]);
    }
  }
}
