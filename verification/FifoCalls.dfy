/** What each call of the machine of `Fifo.dfy` does by the time it returns, and that a thread that runs alone
  comes to the end of its call. */
module FifoCalls {
  import opened Prelude
  import Machine
  import opened Fifo

  // ---------------------------------------------------------------- calls

  ghost function CallBy(t: nat): Label -> bool {
    (l: Label) => !l.Access? && l.t == t
  }

  /** Where a thread can be in a call, or after it: an enqueue carries its node and its value. */
  ghost predicate Serves(l: Label, pc: Pc) {
    match l
    case EnqueueCall(_, n, v) =>
      (Entry(pc) == Some(n) && pc.v == v) || (pc.SwingTail? && pc.n == n) || pc == Idle(Enqueued)
    case DequeueCall(_) => InDequeue(pc) || (pc.Idle? && (pc.answer.Empty? || pc.answer.Dequeued?))
    case Access(_) => false
  }

  lemma ServesNext(s: State, t: nat, s': State, l: Label)
    requires Runs(s, t, s') && Serves(l, s.pcs[t])
    ensures Serves(l, s'.pcs[t])
  {
  }

  lemma {:induction false} Serving(run: seq<State>, ls: seq<Label>, k: nat, t: nat)
    requires IsRun(run, ls) && k < |run| && t < |run[0].pcs|
    ensures |run[k].pcs| == |run[0].pcs|
    ensures match Machine.Last(CallBy(t), ls, k)
            case None => run[k].pcs[t] == Idle(NoAnswer)
            case Some(a) => Serves(ls[a], run[k].pcs[t])
  {
    if k > 0 {
      Serving(run, ls, k - 1, t);
      assert Machine.StepAt(Next, run, ls, k - 1);
      if ls[k - 1] == Access(t) && Machine.Last(CallBy(t), ls, k - 1).Some? {
        ServesNext(run[k - 1], t, run[k], ls[Machine.Last(CallBy(t), ls, k - 1).value]);
      }
    }
  }

  /** Step j leaves the contents as they were. */
  ghost predicate Leaves(run: seq<State>, j: nat) {
    j + 1 < |run| && Contents(run[j + 1].m) == Contents(run[j].m)
  }

  /** Step j appends value v, in node n. */
  ghost predicate Appends(run: seq<State>, j: nat, n: Node, v: Value) {
    j + 1 < |run| && Contents(run[j + 1].m) == Contents(run[j].m) + [v] && run[j + 1].m.chain == run[j].m.chain + [n]
  }

  /** The accesses of thread t after its call at step a and before step k leave the contents alone,
    except that at step i, if that is one of them. */
  ghost predicate OnlyAt(run: seq<State>, ls: seq<Label>, t: nat, a: nat, k: nat, i: nat) {
    k <= |ls| && forall j | a < j < k && j != i && ls[j] == Access(t) :: Leaves(run, j)
  }

  /** Step i is the one access of the call at step a that appends v in n, and the others before k leave the contents alone. */
  ghost predicate LinksAt(run: seq<State>, ls: seq<Label>, t: nat, a: nat, k: nat, i: nat, n: Node, v: Value) {
    a < i < k <= |ls| && ls[i] == Access(t) && Appends(run, i, n, v) && OnlyAt(run, ls, t, a, k, i)
  }

  /** What a call has done so far: nothing, or an enqueue has linked its node. */
  ghost predicate DoneSoFar(run: seq<State>, ls: seq<Label>, t: nat, a: nat, k: nat)
    requires a < k < |run| && |run| == |ls| + 1 && t < |run[k].pcs|
  {
    if run[k].pcs[t].SwingTail? then
      ls[a].EnqueueCall? && exists i: nat :: LinksAt(run, ls, t, a, k, i, ls[a].n, ls[a].v)
    else OnlyAt(run, ls, t, a, k, a)
  }

  /** Only the link comes before the swing of the tail, and it makes the node the last of the chain. */
  lemma LinkNode(s: State, l: Label, s': State)
    requires Next(s, l, s') && l.Access? && s'.pcs[l.t].SwingTail? && !s.pcs[l.t].SwingTail?
    ensures s.pcs[l.t].LinkEntry? && s'.m.chain == s.m.chain + [s.pcs[l.t].n]
  {
  }

  /** What an access within a call does to the contents: the link appends the argument. */
  lemma StepDoes(s: State, l: Label, s': State, call: Label)
    requires Inv(s) && Next(s, l, s') && l.Access? && Serves(call, s.pcs[l.t]) && !s.pcs[l.t].Idle? && !s'.pcs[l.t].Idle?
    ensures !s.pcs[l.t].SwingTail?
    ensures s'.pcs[l.t].SwingTail? ==>
              call.EnqueueCall? && Contents(s'.m) == Contents(s.m) + [call.v] && s'.m.chain == s.m.chain + [call.n]
    ensures !s'.pcs[l.t].SwingTail? ==> Contents(s'.m) == Contents(s.m)
  {
    StepIsFifo(s, l, s');
    ServesNext(s, l.t, s', call);
    if s.pcs[l.t].SwingTail? { SwingStays(s, l, s'); }
    if s'.pcs[l.t].SwingTail? { LinkNode(s, l, s'); }
  }

  /** The swing of the tail is the last access of its call. */
  lemma SwingStays(s: State, l: Label, s': State)
    requires Next(s, l, s') && l.Access? && s.pcs[l.t].SwingTail?
    ensures s'.pcs[l.t].Idle?
  {
  }

  lemma {:induction false} SoFar(run: seq<State>, ls: seq<Label>, k: nat, t: nat, a: nat)
    requires IsRun(run, ls) && a < k < |run| && t < |run[0].pcs| && t < |run[k].pcs| && !run[k].pcs[t].Idle?
    requires Machine.Last(CallBy(t), ls, k) == Some(a)
    ensures DoneSoFar(run, ls, t, a, k)
  {
    assert Machine.StepAt(Next, run, ls, k - 1);
    if a + 1 < k {
      Serving(run, ls, k - 1, t);
      RunInv(run, ls, k - 1);
      SoFar(run, ls, k - 1, t, a);
      if ls[k - 1] == Access(t) { StepDoes(run[k - 1], ls[k - 1], run[k], ls[a]); }
      SoFarNext(run, ls, k, t, a);
    }
  }

  lemma SoFarNext(run: seq<State>, ls: seq<Label>, k: nat, t: nat, a: nat)
    requires |run| == |ls| + 1 && a + 1 < k < |run| && t < |run[k - 1].pcs| == |run[k].pcs|
    requires DoneSoFar(run, ls, t, a, k - 1)
    requires ls[k - 1] != Access(t) ==> run[k].pcs[t] == run[k - 1].pcs[t]
    requires ls[k - 1] == Access(t) ==> !run[k - 1].pcs[t].SwingTail?
    requires ls[k - 1] == Access(t) && run[k].pcs[t].SwingTail? ==> ls[a].EnqueueCall? && Appends(run, k - 1, ls[a].n, ls[a].v)
    requires ls[k - 1] == Access(t) && !run[k].pcs[t].SwingTail? ==> Leaves(run, k - 1)
    ensures DoneSoFar(run, ls, t, a, k)
  {
    if run[k - 1].pcs[t].SwingTail? {
      var i: nat :| LinksAt(run, ls, t, a, k - 1, i, ls[a].n, ls[a].v);
      OnlyNext(run, ls, t, a, k, i);
      assert LinksAt(run, ls, t, a, k, i, ls[a].n, ls[a].v);
    } else if run[k].pcs[t].SwingTail? {
      OnlyNext(run, ls, t, a, k, k - 1);
      assert LinksAt(run, ls, t, a, k, k - 1, ls[a].n, ls[a].v);
    } else {
      OnlyNext(run, ls, t, a, k, a);
    }
  }

  lemma OnlyNext(run: seq<State>, ls: seq<Label>, t: nat, a: nat, k: nat, i: nat)
    requires a + 1 < k <= |ls| && (OnlyAt(run, ls, t, a, k - 1, i) || OnlyAt(run, ls, t, a, k - 1, a))
    requires ls[k - 1] == Access(t) && i != k - 1 ==> Leaves(run, k - 1)
    ensures OnlyAt(run, ls, t, a, k, i)
  {
  }

  lemma DequeueEffect(run: seq<State>, ls: seq<Label>, k: nat, t: nat, a: nat)
    requires IsRun(run, ls) && a < k < |ls| && ls[k] == Access(t) && t < |run[k].pcs| && t < |run[k + 1].pcs|
    requires !run[k].pcs[t].Idle? && ls[a].DequeueCall? && ls[a].t == t && run[k + 1].pcs[t] == Idle(Empty)
    ensures exists i: nat :: a < i && EmptyDuring(run, k, t, i)
  {
    EmptyWasTrue(run, ls, k, t);
    var i: nat :| EmptyDuring(run, k, t, i);
    assert Machine.StepAt(Next, run, ls, a);
    assert run[a].pcs[t].Idle?;
  }

  /** Every call does what was asked for, once. By the time an enqueue returns, exactly one of its steps
    has appended its value, in the node that it was given. A dequeue takes the oldest value in the step
    with which it returns, and hands back the node that was the head; or it says that there is nothing, and
    has seen the list empty. */
  lemma CallTakesEffect(run: seq<State>, ls: seq<Label>, k: nat, t: nat)
    requires IsRun(run, ls) && k < |ls| && ls[k] == Access(t) && t < |run[k].pcs| && t < |run[k + 1].pcs|
    requires !run[k].pcs[t].Idle? && run[k + 1].pcs[t].Idle?
    ensures Machine.Last(CallBy(t), ls, k).Some?
    ensures
      var a, answer := Machine.Last(CallBy(t), ls, k).value, run[k + 1].pcs[t].answer;
      var q, q' := Contents(run[k].m), Contents(run[k + 1].m);
      match ls[a]
      case EnqueueCall(_, n, v) => answer == Enqueued && q' == q && exists i: nat :: LinksAt(run, ls, t, a, k, i, n, v)
      case DequeueCall(_) =>
        && OnlyAt(run, ls, t, a, k, a)
        && (match answer
            case Dequeued(v, garbage) => q == [v] + q' && garbage == run[k].m.head.ptr
            case Empty => q' == q && exists i: nat :: a < i && EmptyDuring(run, k, t, i)
            case _ => false)
      case Access(_) => false
  {
    PcsKept(run, ls, k);
    Serving(run, ls, k, t);
    Serving(run, ls, k + 1, t);
    var a := Machine.Last(CallBy(t), ls, k).value;
    SoFar(run, ls, k, t, a);
    RunInv(run, ls, k);
    assert Machine.StepAt(Next, run, ls, k);
    AnswersAreRight(run[k], ls[k], run[k + 1]);
    if run[k + 1].pcs[t].answer.Empty? { DequeueEffect(run, ls, k, t, a); }
  }

  lemma {:induction false} PcsKept(run: seq<State>, ls: seq<Label>, k: nat)
    requires IsRun(run, ls) && k < |run|
    ensures |run[k].pcs| == |run[0].pcs|
  {
    if k > 0 {
      PcsKept(run, ls, k - 1);
      assert Machine.StepAt(Next, run, ls, k - 1);
    }
  }

  /** The arguments of the enqueues, in the order in which their nodes were linked: at each step that
    makes the list longer, the value of the last call of the thread that takes it. */
  ghost function AllEnqueued(run: seq<State>, ls: seq<Label>, k: nat): seq<Value>
    requires |run| == |ls| + 1 && k < |run|
  {
    if k == 0 then []
    else AllEnqueued(run, ls, k - 1)
         + if |run[k].m.chain| <= |run[k - 1].m.chain| then [] else Argument(ls, ls[k - 1].t, k - 1)
  }

  ghost function Argument(ls: seq<Label>, t: nat, k: nat): seq<Value>
    requires k <= |ls|
  {
    match Machine.Last(CallBy(t), ls, k)
    case None => []
    case Some(a) => if ls[a].EnqueueCall? then [ls[a].v] else []
  }

  lemma LinkedIsArgument(run: seq<State>, ls: seq<Label>, k: nat)
    requires IsRun(run, ls) && k < |ls|
    ensures Linked(run[k], ls[k], run[k + 1])
         == if |run[k + 1].m.chain| <= |run[k].m.chain| then [] else Argument(ls, ls[k].t, k)
  {
    assert Machine.StepAt(Next, run, ls, k);
    PcsKept(run, ls, k);
    if ls[k].Access? { Serving(run, ls, k, ls[k].t); }
  }

  /** In every run, at every point: the values that dequeues have returned, followed by the contents, are
    the arguments of the enqueues in the order of their links. */
  lemma {:induction false} ReturnsWhatWasAsked(run: seq<State>, ls: seq<Label>, k: nat)
    requires IsRun(run, ls) && k < |run|
    ensures AllLinked(run, ls, k) == AllEnqueued(run, ls, k)
    ensures AllRemoved(run, ls, k) + Contents(run[k].m) == AllEnqueued(run, ls, k)
  {
    RunIsFifo(run, ls, k);
    if k > 0 {
      ReturnsWhatWasAsked(run, ls, k - 1);
      LinkedIsArgument(run, ls, k - 1);
    }
  }

  // ---------------------------------------------------------------- a thread that runs alone

  /** How far the tail is behind: one node at most. */
  ghost function Lag(m: Shared): nat { if Last(m) > m.tail.gen then 1 else 0 }

  /** How many accesses an enqueue takes at most from where it loads the tail, and a dequeue from where it
    loads the head, if no other thread takes a step. */
  ghost function EnqueueAgain(m: Shared): nat { 7 + 6 * Lag(m) }

  ghost function DequeueAgain(m: Shared): nat { 8 + 7 * Lag(m) }

  /** The same from the end of a round: n accesses if its snapshots still stand, otherwise d, and again. */
  ghost function Round(stands: bool, n: nat, d: nat, again: nat): nat { if stands then n else d + again }

  ghost function EnqueueRank(m: Shared, pc: Pc): nat {
    var again := EnqueueAgain(m);
    match pc
    case StoreValue(_, _) => 4 + again
    case StoreNext(_, _) => 3 + again
    case LoadFirstGen(_, _) => 2 + again
    case StoreGen(_, _, _) => 1 + again
    case LoadTailGen(_, _) => again
    case LoadTailPtr(_, _, tg) => Round(tg == m.tail.gen, again - 1, 4, again)
    case LoadNextGen(_, _, tg, _) => Round(tg == m.tail.gen, again - 2, 3, again)
    case LoadNextPtr(_, _, tg, _, _) => Round(tg == m.tail.gen, again - 3, 2, again)
    case CheckTail(_, _, tg, tp, ng, np) =>
      Round(tg == m.tail.gen && (np.Some? || Links(m, tp, ng)), again - 4, if tg == m.tail.gen then 2 else 1, again)
    case HelpTail(_, _, tg, tp, _) => if m.tail == Link(tp, tg) then 8 else 1 + again
    case LinkEntry(_, _, _, tp, ng) => Round(Links(m, tp, ng), 2, 1, again)
    case SwingTail(_, _, _) => 1
    case _ => 0
  }

  /** The compare-and-swap on the next field of tp will succeed. */
  ghost predicate Links(m: Shared, tp: Node, ng: nat) {
    tp < |m.mem| && m.mem[tp].next == None && m.mem[tp].gen == ng
  }

  ghost function DequeueRank(m: Shared, pc: Pc): nat {
    var again := DequeueAgain(m);
    match pc
    case DeqHeadGen => again
    case DeqHeadPtr(hg) => Round(hg == m.head.gen, again - 1, 7, again)
    case DeqTailGen(hg, hp) => Round(m.head == Link(hp, hg), again - 2, 6, again)
    case DeqTailPtr(hg, hp, tg) => Round(m.head == Link(hp, hg) && tg == m.tail.gen, again - 3, 5, again)
    case DeqNextGen(hg, hp, tg, tp) => Round(m.head == Link(hp, hg) && m.tail == Link(tp, tg), again - 4, 4, again)
    case DeqNextPtr(hg, hp, tg, tp) => Round(m.head == Link(hp, hg) && m.tail == Link(tp, tg), again - 5, 3, again)
    case DeqCheckHead(hg, _) => Round(hg == m.head.gen, 1, 1, again)
    case DeqHelpTail(tg, tp, _) => if m.tail == Link(tp, tg) then 9 else 1 + again
    case DeqLoadValue(hg, hp, _) => Round(m.head == Link(hp, hg), 2, 2, again)
    case DeqSwingHead(hg, hp, _, _) => Round(m.head == Link(hp, hg), 1, 1, again)
    case _ => 0
  }

  ghost function Rank(m: Shared, pc: Pc): nat { EnqueueRank(m, pc) + DequeueRank(m, pc) }

  lemma EnqueueLoadFalls(m: Shared, t: nat, pc: Pc)
    requires SharedInv(m) && ThreadInv(m, t, pc) && InRange(m, pc) && Entry(pc).Some?
    requires !pc.CheckTail? && !pc.HelpTail? && !pc.LinkEntry?
    ensures var (m', pc') := EnqueueStep(m, pc); DequeueRank(m', pc') == 0 && EnqueueRank(m', pc') < EnqueueRank(m, pc)
  {
    assert CellOk(m, m.tail.gen);
  }

  lemma EnqueueFalls(m: Shared, t: nat, pc: Pc)
    requires SharedInv(m) && ThreadInv(m, t, pc) && InRange(m, pc) && (Entry(pc).Some? || pc.SwingTail?)
    ensures var (m', pc') := EnqueueStep(m, pc); DequeueRank(m', pc') == 0 && EnqueueRank(m', pc') < EnqueueRank(m, pc)
  {
    if pc.CheckTail? || pc.HelpTail? || pc.LinkEntry? || pc.SwingTail? {
      assert CellOk(m, Last(m)) && CellOk(m, m.tail.gen);
    } else {
      EnqueueLoadFalls(m, t, pc);
    }
  }

  lemma DequeueLoadFalls(m: Shared, t: nat, pc: Pc)
    requires SharedInv(m) && ThreadInv(m, t, pc) && InRange(m, pc) && InDequeue(pc) && !pc.DeqNextPtr? && !pc.DeqHelpTail?
    ensures var (m', pc') := DequeueStep(m, pc); EnqueueRank(m', pc') == 0 && DequeueRank(m', pc') < DequeueRank(m, pc)
  {
  }

  lemma NextPtrFalls(m: Shared, t: nat, pc: Pc)
    requires SharedInv(m) && ThreadInv(m, t, pc) && InRange(m, pc) && pc.DeqNextPtr?
    ensures var (m', pc') := DequeueStep(m, pc); EnqueueRank(m', pc') == 0 && DequeueRank(m', pc') < DequeueRank(m, pc)
  {
    assert CellOk(m, m.head.gen) && CellOk(m, m.tail.gen);
  }

  lemma DequeueFalls(m: Shared, t: nat, pc: Pc)
    requires SharedInv(m) && ThreadInv(m, t, pc) && InRange(m, pc) && InDequeue(pc)
    ensures var (m', pc') := DequeueStep(m, pc); EnqueueRank(m', pc') == 0 && DequeueRank(m', pc') < DequeueRank(m, pc)
  {
    if pc.DeqNextPtr? {
      NextPtrFalls(m, t, pc);
    } else if pc.DeqHelpTail? {
      assert CellOk(m, m.tail.gen);
    } else {
      DequeueLoadFalls(m, t, pc);
    }
  }

  ghost function Alone(t: nat): (State, Label, State) -> bool {
    (s: State, l: Label, s': State) => l == Access(t) && Next(s, l, s')
  }

  lemma RankFalls(s: State, t: nat, s': State)
    requires Inv(s) && Next(s, Access(t), s') && !s.pcs[t].Idle?
    ensures Rank(s'.m, s'.pcs[t]) < Rank(s.m, s.pcs[t])
  {
    var pc := s.pcs[t];
    assert ThreadInv(s.m, t, pc);
    if InDequeue(pc) {
      assert EnqueueStep(s.m, pc) == (s.m, pc);
      DequeueFalls(s.m, t, pc);
    } else {
      EnqueueFalls(s.m, t, pc);
      assert EnqueueStep(s.m, pc).1 != pc;
    }
  }

  lemma RankBounded(s: State, t: nat)
    requires Inv(s) && t < |s.pcs|
    ensures Rank(s.m, s.pcs[t]) <= 22 && (!s.pcs[t].Idle? ==> Rank(s.m, s.pcs[t]) > 0)
  {
    assert ThreadInv(s.m, t, s.pcs[t]);
  }

  /** In every state that a run can reach, the next access of a thread is possible; and whatever others have
    left undone, a thread that runs alone is done with its call after at most 22 accesses. */
  lemma AloneEnds(run: seq<State>, ls: seq<Label>, t: nat) returns (k: nat)
    requires Machine.Steps(Alone(t), run, ls) && Inv(run[0]) && t < |run[0].pcs| && |ls| >= 22
    ensures k < |run| && k <= 22 && t < |run[k].pcs| && run[k].pcs[t].Idle?
    ensures InRange(run[0].m, run[0].pcs[t])
  {
    var inv := (s: State) => Inv(s) && t < |s.pcs|;
    var busy := (s: State) => t < |s.pcs| && !s.pcs[t].Idle?;
    var rank := (s: State) => if t < |s.pcs| then Rank(s.m, s.pcs[t]) else 0;
    forall s, l, s' | inv(s) && busy(s) && Alone(t)(s, l, s') ensures inv(s') && (busy(s') ==> rank(s') < rank(s)) {
      NextInv(s, l, s');
      RankFalls(s, t, s');
    }
    forall s | inv(s) && busy(s) ensures rank(s) > 0 { RankBounded(s, t); }
    RankBounded(run[0], t);
    k := Machine.Ends(Alone(t), inv, busy, rank, run, ls);
    NothingOutOfRange(run[0].m, t, run[0].pcs[t]);
  }
}
