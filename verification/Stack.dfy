/** The multi-producer multi-consumer stack of include/ck_stack.h: `push_mpmc`, and `pop_mpmc` and
  `batch_pop_mpmc` with a double-width compare-and-swap on head and generation.

  A step is one `ck_pr` access. A removed entry is free at once, so it may be pushed again while
  other threads still hold snapshots of it. `stk` (bottom first) and `place` are history variables
  that no access reads. */
module Stack {
  import opened Prelude
  import Machine

  type Node = nat

  datatype Answer = NoAnswer | Pushed | Popped(n: Node) | Batch(first: Node) | Empty

  datatype Pc =
    | Idle(answer: Answer)
    | PushLoadHead(n: Node)
    | PushStoreNext(n: Node, h: Option<Node>)
    | PushSwing(n: Node, h: Option<Node>)
    | PopLoadGen(batch: bool)
    | PopLoadHead(batch: bool, g: nat)
    | PopLoadNext(g: nat, top: Node)
    | PopSwing(g: nat, top: Node, nx: Option<Node>)
    | BatchSwing(g: nat, top: Node)

  /** A node is not in use, or thread `tid` is about to push it, or it is entry `at` of the stack,
    counted from the bottom. */
  datatype Place = Unused | Held(tid: nat) | Stacked(at: nat)

  datatype Shared = Shared(next: seq<Option<Node>>, head: Option<Node>, gen: nat,
                           stk: seq<Node>, place: seq<Place>)

  datatype State = State(m: Shared, pcs: seq<Pc>)

  ghost predicate Init(s: State) {
    && s.m.head == None && s.m.stk == [] && |s.m.place| == |s.m.next|
    && (forall n | 0 <= n < |s.m.next| :: s.m.place[n] == Unused)
    && (forall t | 0 <= t < |s.pcs| :: s.pcs[t] == Idle(NoAnswer))
  }

  /** The entry a thread is about to push and still owns. */
  ghost function Entry(pc: Pc): Option<Node> {
    if pc.PushLoadHead? || pc.PushStoreNext? || pc.PushSwing? then Some(pc.n) else None
  }

  ghost predicate InRange(m: Shared, pc: Pc) {
    && |m.place| == |m.next|
    && (Entry(pc).Some? ==> Entry(pc).value < |m.next|)
    && (pc.PopLoadNext? || pc.PopSwing? ==> pc.top < |m.next|)
    && (pc.PopSwing? && m.head.Some? ==> m.head.value < |m.next|)
  }

  ghost function Top(stk: seq<Node>): Option<Node> {
    if stk == [] then None else Some(stk[|stk| - 1])
  }

  ghost function Release(place: seq<Place>): seq<Place> {
    seq(|place|, n requires 0 <= n < |place| => if place[n].Stacked? then Unused else place[n])
  }

  /** The next access of a thread. A failed double-width compare-and-swap hands back the current
    head and generation, and the retry starts from those. */
  ghost function Step(m: Shared, pc: Pc): (Shared, Pc)
    requires InRange(m, pc)
  {
    match pc
    case PushLoadHead(n) => (m, PushStoreNext(n, m.head))
    case PushStoreNext(n, h) => (m.(next := m.next[n := h]), PushSwing(n, h))
    case PushSwing(n, h) =>
      if m.head == h then
        (m.(head := Some(n), stk := m.stk + [n], place := m.place[n := Stacked(|m.stk|)]), Idle(Pushed))
      else (m, PushStoreNext(n, m.head))
    case PopLoadGen(batch) => (m, PopLoadHead(batch, m.gen))
    case PopLoadHead(batch, g) =>
      if m.head == None then (m, Idle(Empty))
      else if batch then (m, BatchSwing(g, m.head.value))
      else (m, PopLoadNext(g, m.head.value))
    case PopLoadNext(g, top) => (m, PopSwing(g, top, m.next[top]))
    case PopSwing(g, top, nx) =>
      if m.head == Some(top) && m.gen == g then
        (m.(head := nx, gen := g + 1, stk := if m.stk == [] then [] else m.stk[..|m.stk| - 1],
            place := m.place[top := Unused]), Idle(Popped(top)))
      else if m.head == None then (m, Idle(Empty))
      else (m, PopLoadNext(m.gen, m.head.value))
    case BatchSwing(g, top) =>
      if m.head == Some(top) && m.gen == g then
        (m.(head := None, gen := g + 1, stk := [], place := Release(m.place)), Idle(Batch(top)))
      else if m.head == None then (m, Idle(Empty))
      else (m, BatchSwing(m.gen, m.head.value))
    case _ => (m, pc)
  }

  datatype Label = PushCall(t: nat, n: Node) | PopCall(t: nat, batch: bool) | Access(t: nat)

  ghost predicate Next(s: State, l: Label, s': State) {
    && l.t < |s.pcs|
    && match l
       case PushCall(t, n) =>
         && s.pcs[t].Idle? && n < |s.m.place| && s.m.place[n] == Unused
         && s' == State(s.m.(place := s.m.place[n := Held(t)]), s.pcs[t := PushLoadHead(n)])
       case PopCall(t, batch) => s.pcs[t].Idle? && s' == s.(pcs := s.pcs[t := PopLoadGen(batch)])
       case Access(t) =>
         && InRange(s.m, s.pcs[t])
         && var (m', pc') := Step(s.m, s.pcs[t]); s' == State(m', s.pcs[t := pc'])
  }

  // ---------------------------------------------------------------- invariant

  ghost predicate EntryOk(m: Shared, i: nat)
    requires i < |m.stk| && |m.place| == |m.next|
  {
    && m.stk[i] < |m.next| && m.place[m.stk[i]] == Stacked(i)
    && m.next[m.stk[i]] == (if i == 0 then None else Some(m.stk[i - 1]))
  }

  ghost predicate SharedInv(m: Shared) {
    && |m.place| == |m.next| && m.head == Top(m.stk)
    && (forall i: nat | i < |m.stk| :: EntryOk(m, i))
    && (forall n | 0 <= n < |m.next| && m.place[n].Stacked? ::
          m.place[n].at < |m.stk| && m.stk[m.place[n].at] == n)
  }

  /** While the generation stands, the node of the snapshot is still on the stack. */
  ghost predicate StillStacked(m: Shared, g: nat, top: Node) {
    && g <= m.gen && top < |m.next| == |m.place|
    && (g == m.gen ==> m.place[top].Stacked?)
  }

  ghost predicate ThreadInv(m: Shared, t: nat, pc: Pc) {
    && |m.place| == |m.next|
    && (Entry(pc).Some? ==> pc.n < |m.next| && m.place[pc.n] == Held(t))
    && (pc.PushSwing? ==> m.next[pc.n] == pc.h)
    && (pc.PopLoadHead? ==> pc.g <= m.gen)
    && (pc.PopLoadNext? || pc.BatchSwing? || pc.PopSwing? ==> StillStacked(m, pc.g, pc.top))
    && (pc.PopSwing? && pc.g == m.gen ==> m.next[pc.top] == pc.nx)
  }

  ghost predicate Inv(s: State) {
    SharedInv(s.m) && forall t: nat | t < |s.pcs| :: ThreadInv(s.m, t, s.pcs[t])
  }

  /** What a step of thread t may do to anything that another thread's assertions mention. */
  ghost predicate Rely(m: Shared, t: nat, m': Shared) {
    && |m'.next| == |m.next| == |m.place| == |m'.place| && m.gen <= m'.gen
    && (forall n | 0 <= n < |m.next| && m.place[n].Held? && m.place[n].tid != t ::
          m'.place[n] == m.place[n] && m'.next[n] == m.next[n])
    && (m'.gen == m.gen ==>
          forall n | 0 <= n < |m.next| && m.place[n].Stacked? ::
            m'.place[n] == m.place[n] && m'.next[n] == m.next[n])
  }

  lemma Stable(m: Shared, t: nat, m': Shared, u: nat, pc: Pc)
    requires Rely(m, t, m') && ThreadInv(m, u, pc) && u != t
    ensures ThreadInv(m', u, pc)
  {
  }

  lemma InitInv(s: State)
    requires Init(s)
    ensures Inv(s)
  {
  }

  lemma PushKeeps(m: Shared, t: nat, n: Node, h: Option<Node>)
    requires SharedInv(m) && ThreadInv(m, t, PushSwing(n, h)) && m.head == h
    ensures var m' := Step(m, PushSwing(n, h)).0; SharedInv(m') && Rely(m, t, m')
  {
    var m' := Step(m, PushSwing(n, h)).0;
    forall i: nat | i < |m'.stk| ensures EntryOk(m', i) {
      if i < |m.stk| { assert EntryOk(m, i); }
    }
  }

  lemma PopKeeps(m: Shared, t: nat, g: nat, top: Node, nx: Option<Node>)
    requires SharedInv(m) && ThreadInv(m, t, PopSwing(g, top, nx)) && m.head == Some(top) && m.gen == g
    ensures var m' := Step(m, PopSwing(g, top, nx)).0; SharedInv(m') && Rely(m, t, m')
    ensures m.stk == Step(m, PopSwing(g, top, nx)).0.stk + [top]
  {
    var m' := Step(m, PopSwing(g, top, nx)).0;
    assert EntryOk(m, |m.stk| - 1);
    forall i: nat | i < |m'.stk| ensures EntryOk(m', i) { assert EntryOk(m, i); }
    if |m.stk| > 1 { assert EntryOk(m, |m.stk| - 2); }
  }

  lemma BatchKeeps(m: Shared, t: nat, g: nat, top: Node)
    requires SharedInv(m) && ThreadInv(m, t, BatchSwing(g, top)) && m.head == Some(top) && m.gen == g
    ensures var m' := Step(m, BatchSwing(g, top)).0; SharedInv(m') && Rely(m, t, m')
  {
  }

  lemma StoreNextKeeps(m: Shared, t: nat, n: Node, h: Option<Node>)
    requires SharedInv(m) && ThreadInv(m, t, PushStoreNext(n, h))
    ensures var (m', pc') := Step(m, PushStoreNext(n, h)); SharedInv(m') && Rely(m, t, m') && ThreadInv(m', t, pc')
  {
    var m' := Step(m, PushStoreNext(n, h)).0;
    forall i: nat | i < |m'.stk| ensures EntryOk(m', i) { assert EntryOk(m, i); }
  }

  lemma LoadKeeps(m: Shared, t: nat, pc: Pc)
    requires SharedInv(m) && ThreadInv(m, t, pc) && InRange(m, pc)
    requires Step(m, pc).0 == m
    ensures ThreadInv(m, t, Step(m, pc).1)
  {
    if m.stk != [] { assert EntryOk(m, |m.stk| - 1); }
    if pc.PopLoadNext? && pc.g == m.gen { assert EntryOk(m, m.place[pc.top].at); }
  }

  lemma StepKeeps(m: Shared, t: nat, pc: Pc)
    requires SharedInv(m) && ThreadInv(m, t, pc)
    ensures InRange(m, pc)
    ensures var (m', pc') := Step(m, pc); SharedInv(m') && Rely(m, t, m') && ThreadInv(m', t, pc')
  {
    if m.stk != [] { assert EntryOk(m, |m.stk| - 1); }
    match pc
    case PushStoreNext(n, h) => StoreNextKeeps(m, t, n, h);
    case PushSwing(n, h) =>
      if m.head == h { PushKeeps(m, t, n, h); } else { LoadKeeps(m, t, pc); }
    case PopSwing(g, top, nx) =>
      if m.head == Some(top) && m.gen == g { PopKeeps(m, t, g, top, nx); } else { LoadKeeps(m, t, pc); }
    case BatchSwing(g, top) =>
      if m.head == Some(top) && m.gen == g { BatchKeeps(m, t, g, top); } else { LoadKeeps(m, t, pc); }
    case _ => LoadKeeps(m, t, pc);
  }

  lemma NextInv(s: State, l: Label, s': State)
    requires Inv(s) && Next(s, l, s')
    ensures Inv(s')
  {
    if l.Access? {
      assert ThreadInv(s.m, l.t, s.pcs[l.t]);
      StepKeeps(s.m, l.t, s.pcs[l.t]);
    } else if l.PushCall? {
      forall i: nat | i < |s'.m.stk| ensures EntryOk(s'.m, i) { assert EntryOk(s.m, i); }
    }
    forall u: nat | u < |s.pcs| && u != l.t ensures ThreadInv(s'.m, u, s.pcs[u]) {
      Stable(s.m, l.t, s'.m, u, s.pcs[u]);
    }
  }

  // ---------------------------------------------------------------- one step

  /** Following next pointers from `h` visits exactly the nodes of `stk`, top to bottom. */
  ghost predicate Holds(next: seq<Option<Node>>, h: Option<Node>, stk: seq<Node>)
    decreases |stk|
  {
    if stk == [] then h == None
    else
      var n := stk[|stk| - 1];
      h == Some(n) && n < |next| && Holds(next, next[n], stk[..|stk| - 1])
  }

  lemma {:induction false} HoldsBelow(m: Shared, k: nat)
    requires SharedInv(m) && k <= |m.stk|
    ensures Holds(m.next, Top(m.stk[..k]), m.stk[..k])
  {
    if k > 0 {
      HoldsBelow(m, k - 1);
      assert EntryOk(m, k - 1);
      assert m.stk[..k][..k - 1] == m.stk[..k - 1];
    }
  }

  /** A successful pop installs the node that is below the top right now, even if nodes were
    removed and pushed back since the snapshot was taken. */
  lemma PopInstallsSuccessor(s: State, t: nat)
    requires Inv(s) && t < |s.pcs| && s.pcs[t].PopSwing?
    requires s.m.head == Some(s.pcs[t].top) && s.m.gen == s.pcs[t].g
    ensures |s.m.stk| > 0 && s.pcs[t].nx == Top(s.m.stk[..|s.m.stk| - 1])
  {
    assert ThreadInv(s.m, t, s.pcs[t]);
    assert EntryOk(s.m, |s.m.stk| - 1);
  }

  ghost function PushedBy(s: State, l: Label, s': State): multiset<Node> {
    if l.Access? && l.t < |s.pcs| == |s'.pcs| && s.pcs[l.t].PushSwing? && s'.pcs[l.t] == Idle(Pushed)
    then multiset{s.pcs[l.t].n} else multiset{}
  }

  ghost function PoppedBy(s: State, l: Label, s': State): multiset<Node> {
    if l.Access? && l.t < |s.pcs| == |s'.pcs| && s.pcs[l.t].PopSwing? && s'.pcs[l.t].Idle? && s'.pcs[l.t].answer.Popped?
    then multiset{s'.pcs[l.t].answer.n}
    else if l.Access? && l.t < |s.pcs| == |s'.pcs| && s.pcs[l.t].BatchSwing? && s'.pcs[l.t].Idle? && s'.pcs[l.t].answer.Batch?
    then multiset(s.m.stk) else multiset{}
  }

  /** Every step is a step of a last-in first-out stack, and the answer a thread gets is what that
    step did: a pop returns the top, a batch returns a list of everything, top first, and "empty"
    is said only at an instant at which the stack is empty. */
  lemma StepIsLifo(s: State, l: Label, s': State)
    requires Inv(s) && Next(s, l, s')
    ensures
      var pc, pc' := s.pcs[l.t], s'.pcs[l.t];
      if l.Access? && pc'.Idle? && !pc.Idle? then
        match pc'.answer
        case Pushed => Entry(pc).Some? && s'.m.stk == s.m.stk + [pc.n]
        case Popped(n) => s.m.stk == s'.m.stk + [n]
        case Batch(n) => s'.m.stk == [] && s.m.stk != [] && Holds(s'.m.next, Some(n), s.m.stk)
        case Empty => s.m.stk == [] && s'.m == s.m
        case NoAnswer => false
      else s'.m.stk == s.m.stk && s'.m.head == s.m.head
  {
    if l.Access? {
      var m, pc := s.m, s.pcs[l.t];
      assert ThreadInv(m, l.t, pc);
      if pc.PopSwing? && m.head == Some(pc.top) && m.gen == pc.g { PopKeeps(m, l.t, pc.g, pc.top, pc.nx); }
      if pc.BatchSwing? {
        HoldsBelow(m, |m.stk|);
        assert m.stk[..|m.stk|] == m.stk;
      }
    }
  }

  // ---------------------------------------------------------------- whole runs

  ghost predicate IsRun(run: seq<State>, ls: seq<Label>) {
    Machine.Steps(Next, run, ls) && Init(run[0])
  }

  lemma RunInv(run: seq<State>, ls: seq<Label>, k: nat)
    requires IsRun(run, ls) && k < |run|
    ensures Inv(run[k])
  {
    InitInv(run[0]);
    forall s, l, s' | Inv(s) && Next(s, l, s') ensures Inv(s') { NextInv(s, l, s'); }
    Machine.Invariant(Next, Inv, run, ls, k);
  }

  ghost function AllPushed(run: seq<State>, ls: seq<Label>, k: nat): multiset<Node>
    requires |run| == |ls| + 1 && k < |run|
  {
    if k == 0 then multiset{} else AllPushed(run, ls, k - 1) + PushedBy(run[k - 1], ls[k - 1], run[k])
  }

  ghost function AllPopped(run: seq<State>, ls: seq<Label>, k: nat): multiset<Node>
    requires |run| == |ls| + 1 && k < |run|
  {
    if k == 0 then multiset{} else AllPopped(run, ls, k - 1) + PoppedBy(run[k - 1], ls[k - 1], run[k])
  }

  lemma PushConserves(s: State, t: nat, s': State)
    requires Inv(s) && Next(s, Access(t), s') && s.pcs[t].PushSwing?
    ensures multiset(s.m.stk) + PushedBy(s, Access(t), s') == multiset(s'.m.stk)
    ensures PoppedBy(s, Access(t), s') == multiset{}
  {
  }

  lemma PopConserves(s: State, t: nat, s': State)
    requires Inv(s) && Next(s, Access(t), s') && (s.pcs[t].PopSwing? || s.pcs[t].BatchSwing?)
    ensures multiset(s.m.stk) == multiset(s'.m.stk) + PoppedBy(s, Access(t), s')
    ensures PushedBy(s, Access(t), s') == multiset{}
  {
    StepIsLifo(s, Access(t), s');
    if s'.pcs[t].Idle? && s'.pcs[t].answer.Popped? { OnTop(s'.m.stk, s'.pcs[t].answer.n, s.m.stk); }
  }

  lemma OnTop(rest: seq<Node>, n: Node, all: seq<Node>)
    requires all == rest + [n]
    ensures multiset(all) == multiset(rest) + multiset{n}
  {
  }

  lemma StepConserves(s: State, l: Label, s': State)
    requires Inv(s) && Next(s, l, s')
    ensures multiset(s.m.stk) + PushedBy(s, l, s') == multiset(s'.m.stk) + PoppedBy(s, l, s')
  {
    if l.Access? && s.pcs[l.t].PushSwing? {
      PushConserves(s, l.t, s');
    } else if l.Access? && (s.pcs[l.t].PopSwing? || s.pcs[l.t].BatchSwing?) {
      PopConserves(s, l.t, s');
    } else {
      StepIsLifo(s, l, s');
    }
  }

  /** No entry is lost or duplicated: in every run, at every point, what was pushed is what was
    popped plus what is on the stack. */
  lemma {:induction false} RunConserves(run: seq<State>, ls: seq<Label>, k: nat)
    requires IsRun(run, ls) && k < |run|
    ensures AllPushed(run, ls, k) == AllPopped(run, ls, k) + multiset(run[k].m.stk)
  {
    if k > 0 {
      RunConserves(run, ls, k - 1);
      RunInv(run, ls, k - 1);
      assert Machine.StepAt(Next, run, ls, k - 1);
      StepConserves(run[k - 1], ls[k - 1], run[k]);
      Regroup(AllPopped(run, ls, k - 1), multiset(run[k - 1].m.stk), PushedBy(run[k - 1], ls[k - 1], run[k]),
              multiset(run[k].m.stk), PoppedBy(run[k - 1], ls[k - 1], run[k]));
    }
  }

  lemma Regroup(out: multiset<Node>, stk: multiset<Node>, pushed: multiset<Node>, stk': multiset<Node>, popped: multiset<Node>)
    requires stk + pushed == stk' + popped
    ensures out + stk + pushed == out + popped + stk'
  {
    assert out + stk + pushed == out + (stk + pushed);
  }

  /** In every run, at every point, a walk through memory from the head finds the stack. */
  lemma RunMemory(run: seq<State>, ls: seq<Label>, k: nat)
    requires IsRun(run, ls) && k < |run|
    ensures Holds(run[k].m.next, run[k].m.head, run[k].m.stk)
  {
    RunInv(run, ls, k);
    HoldsBelow(run[k].m, |run[k].m.stk|);
    assert run[k].m.stk[..|run[k].m.stk|] == run[k].m.stk;
  }

  // ---------------------------------------------------------------- calls

  ghost function CallBy(t: nat): Label -> bool {
    (l: Label) => !l.Access? && l.t == t
  }

  /** Where a thread can be in a call, or after it. */
  ghost predicate Serves(l: Label, pc: Pc) {
    match l
    case PushCall(_, n) => Entry(pc) == Some(n) || pc == Idle(Pushed)
    case PopCall(_, batch) =>
      || ((pc.PopLoadGen? || pc.PopLoadHead?) && pc.batch == batch)
      || (if batch then pc.BatchSwing? else pc.PopLoadNext? || pc.PopSwing?)
      || (pc.Idle? && (pc.answer.Empty? || if batch then pc.answer.Batch? else pc.answer.Popped?))
    case Access(_) => false
  }

  lemma {:induction false} Serving(run: seq<State>, ls: seq<Label>, k: nat, t: nat)
    requires IsRun(run, ls) && k < |run| && t < |run[0].pcs|
    ensures |run[k].pcs| == |run[0].pcs|
    ensures match Machine.Last(CallBy(t), ls, k)
            case None => run[k].pcs[t] == Idle(NoAnswer)
            case Some(a) => Serves(ls[a], run[k].pcs[t])
  {
    if k > 0 {
      Serving(run, ls, k - 1, t);
      assert Machine.StepAt(Next, run, ls, k - 1);
    }
  }

  /** The access at step j leaves the stack as it was. */
  ghost predicate Leaves(run: seq<State>, j: nat) {
    j + 1 < |run| && run[j + 1].m.stk == run[j].m.stk
  }

  lemma {:induction false} NothingSince(run: seq<State>, ls: seq<Label>, k: nat, t: nat, a: nat)
    requires IsRun(run, ls) && a < k < |run| && t < |run[k].pcs| && !run[k].pcs[t].Idle?
    requires Machine.Last(CallBy(t), ls, k) == Some(a)
    ensures forall j | a < j < k && ls[j] == Access(t) :: Leaves(run, j)
  {
    if a + 1 < k {
      var s, l, s' := run[k - 1], ls[k - 1], run[k];
      RunInv(run, ls, k - 1);
      assert Machine.StepAt(Next, run, ls, k - 1);
      StepIsLifo(s, l, s');
      NothingSince(run, ls, k - 1, t, a);
      assert l == Access(t) ==> Leaves(run, k - 1);
    }
  }

  /** Every call does what was asked for, once, by the step with which it returns. A push returns when it
    has pushed its node; a pop takes the top, and a batch everything, or says that there is nothing. */
  lemma CallTakesEffect(run: seq<State>, ls: seq<Label>, k: nat, t: nat)
    requires IsRun(run, ls) && k < |ls| && ls[k] == Access(t) && t < |run[k].pcs| && t < |run[k + 1].pcs|
    requires !run[k].pcs[t].Idle? && run[k + 1].pcs[t].Idle?
    ensures Machine.Last(CallBy(t), ls, k).Some?
    ensures
      var a, answer, stk, stk' := Machine.Last(CallBy(t), ls, k).value, run[k + 1].pcs[t].answer, run[k].m.stk, run[k + 1].m.stk;
      && (forall j | a < j < k && ls[j] == Access(t) :: Leaves(run, j))
      && match ls[a]
         case PushCall(_, n) => answer == Pushed && stk' == stk + [n]
         case PopCall(_, batch) =>
           if stk == [] then answer == Empty && stk' == []
           else if batch then
             answer.Batch? && stk' == [] && Holds(run[k + 1].m.next, Some(answer.first), stk)
           else answer.Popped? && stk == stk' + [answer.n]
         case Access(_) => false
  {
    PcsKept(run, ls, k);
    Serving(run, ls, k, t);
    Serving(run, ls, k + 1, t);
    NothingSince(run, ls, k, t, Machine.Last(CallBy(t), ls, k).value);
    RunInv(run, ls, k);
    assert Machine.StepAt(Next, run, ls, k);
    StepIsLifo(run[k], ls[k], run[k + 1]);
  }

  lemma {:induction false} PcsKept(run: seq<State>, ls: seq<Label>, k: nat)
    requires IsRun(run, ls) && k < |run|
    ensures |run[k].pcs| == |run[0].pcs|
  {
    if k > 0 {
      PcsKept(run, ls, k - 1);
      assert Machine.StepAt(Next, run, ls, k - 1);
    }
  }

  // ---------------------------------------------------------------- a thread that runs alone

  /** How many accesses a call takes at most, if no other thread takes a step. */
  ghost function Rank(m: Shared, pc: Pc): nat {
    match pc
    case Idle(_) => 0
    case PushLoadHead(_) => 3
    case PushStoreNext(_, h) => if h == m.head then 2 else 4
    case PushSwing(_, h) => if h == m.head then 1 else 3
    case PopLoadGen(_) => 4
    case PopLoadHead(_, g) => if g == m.gen then 3 else 5
    case PopLoadNext(g, top) => if m.head == Some(top) && m.gen == g then 2 else 4
    case PopSwing(g, top, _) => if m.head == Some(top) && m.gen == g then 1 else 3
    case BatchSwing(g, top) => if m.head == Some(top) && m.gen == g then 1 else 2
  }

  ghost function Alone(t: nat): (State, Label, State) -> bool {
    (s: State, l: Label, s': State) => l == Access(t) && Next(s, l, s')
  }

  lemma RankFalls(s: State, t: nat, s': State)
    requires Inv(s) && Next(s, Access(t), s') && !s.pcs[t].Idle?
    ensures Rank(s'.m, s'.pcs[t]) < Rank(s.m, s.pcs[t])
  {
  }

  /** In every state that a run can reach, the next access of a thread is possible; and whatever others have
    left undone, a thread that runs alone is done with its call after at most five accesses. */
  lemma AloneEnds(run: seq<State>, ls: seq<Label>, t: nat) returns (k: nat)
    requires Machine.Steps(Alone(t), run, ls) && Inv(run[0]) && t < |run[0].pcs| && |ls| >= 5
    ensures k < |run| && k <= 5 && t < |run[k].pcs| && run[k].pcs[t].Idle?
    ensures InRange(run[0].m, run[0].pcs[t])
  {
    var inv := (s: State) => Inv(s) && t < |s.pcs|;
    var busy := (s: State) => t < |s.pcs| && !s.pcs[t].Idle?;
    var rank := (s: State) => if t < |s.pcs| then Rank(s.m, s.pcs[t]) else 0;
    forall s, l, s' | inv(s) && busy(s) && Alone(t)(s, l, s') ensures inv(s') && (busy(s') ==> rank(s') < rank(s)) {
      NextInv(s, l, s');
      RankFalls(s, t, s');
    }
    k := Machine.Ends(Alone(t), inv, busy, rank, run, ls);
    StepKeeps(run[0].m, t, run[0].pcs[t]);
  }
}
