/** What hazard pointers guarantee over whole runs of the machine of `HazardStack.dfy`: nothing that a
  thread may still use is destroyed, and the stack needs no generation count. */
module HazardStackRuns {
  import opened Prelude
  import Machine
  import opened HazardStack

  ghost predicate IsRun(run: seq<State>, ls: seq<Label>) {
    Machine.Steps(Next, run, ls) && Init(run[0])
  }

  lemma RunInv(run: seq<State>, ls: seq<Label>, k: nat)
    requires IsRun(run, ls) && k < |run|
    ensures Inv(run[k])
  {
    InitInv(run[0]);
    forall s, l, s' | Inv(s) && Next(s, l, s') ensures Inv(s') { NextInv(s, l, s'); }
    Machine.Invariant(Next, Inv, run, ls, k);
  }

  /** In every run, a node is never destroyed while a thread that has found it to be the head after
    publishing it has not overwritten its hazard slot. */
  lemma DestroysNothingGuarded(run: seq<State>, ls: seq<Label>, k: nat, n: Node)
    requires IsRun(run, ls) && k < |ls|
    requires n < |run[k].m.place| && n < |run[k + 1].m.place|
    requires run[k].m.place[n] != Unused && run[k + 1].m.place[n] == Unused
    ensures forall u | 0 <= u < |run[k].m.guard| :: run[k].m.guard[u] != Some(n)
  {
    RunInv(run, ls, k);
    assert Machine.StepAt(Next, run, ls, k);
    var s, l := run[k], ls[k];
    assert ThreadInv(s.m, l.t, s.pcs[l.t]);
    if l.Access? && s.pcs[l.t].Destroy? {
      Unguarded(s.m, l.t, s.pcs[l.t].marker, s.pcs[l.t].cache);
    }
  }

  /** A thread that reads the next field of a node, or is about to swing the head past it, does so
    while the node is in the stack, or popped but not destroyed since. */
  lemma ReadsNothingFreed(run: seq<State>, ls: seq<Label>, k: nat, t: nat)
    requires IsRun(run, ls) && k < |run| && t < |run[k].pcs| && (run[k].pcs[t].PopNext? || run[k].pcs[t].PopSwing?)
    ensures Sizes(run[k].m) && t < |run[k].m.guard| && run[k].m.guard[t] == Some(run[k].pcs[t].top)
    ensures Alive(run[k].m, run[k].pcs[t].top)
  {
    RunInv(run, ls, k);
    assert ThreadInv(run[k].m, t, run[k].pcs[t]);
  }

  /** Without any generation count, a successful pop installs the node that is below the top. */
  lemma PopInstallsSuccessor(s: State, t: nat)
    requires Inv(s) && t < |s.pcs| && s.pcs[t].PopSwing? && s.m.head == Some(s.pcs[t].top)
    ensures |s.m.stk| > 0 && s.pcs[t].nx == Top(s.m.stk[..|s.m.stk| - 1])
  {
    assert ThreadInv(s.m, t, s.pcs[t]) && EntryOk(s.m, |s.m.stk| - 1);
  }

  /** Every step is a step of a last-in first-out stack, and the answer is what that step did. */
  lemma StepIsLifo(s: State, l: Label, s': State)
    requires Inv(s) && Next(s, l, s')
    ensures
      var pc, pc' := s.pcs[l.t], s'.pcs[l.t];
      if l.Access? && pc'.Idle? && !pc.Idle? then
        match pc'.answer
        case Pushed => Entry(pc).Some? && s'.m.stk == s.m.stk + [pc.n]
        case Popped(n) => s.m.stk == s'.m.stk + [n] && s'.m.place[n] == Taken(l.t)
        case Empty => s.m.stk == [] && s'.m == s.m
        case Reclaimed => s'.m == s.m
        case NoAnswer => false
      else s'.m.stk == s.m.stk && s'.m.head == s.m.head
  {
    if l.Access? {
      var m, pc := s.m, s.pcs[l.t];
      assert ThreadInv(m, l.t, pc);
      if pc.PopSwing? && m.head == Some(pc.top) { PopKeeps(m, l.t, pc.top, pc.nx); }
    }
  }

  // ---------------------------------------------------------------- calls

  ghost function CallBy(t: nat): Label -> bool {
    (l: Label) => (l.PushCall? || l.PopCall? || l.Reclaim?) && l.t == t
  }

  ghost predicate InPop(pc: Pc) {
    pc.PopLoad? || pc.PopPublish? || pc.PopReread? || pc.PopNext? || pc.PopSwing? || pc.Republish? || pc.Reload?
  }

  /** Where a thread can be in a call, or after it. */
  ghost predicate Serves(l: Label, pc: Pc) {
    match l
    case PushCall(_, n) => Entry(pc) == Some(n) || pc == Idle(Pushed)
    case PopCall(_) => InPop(pc) || (pc.Idle? && (pc.answer.Popped? || pc.answer.Empty?))
    case Reclaim(_, _) => Reclaiming(pc) || pc == Idle(Reclaimed)
    case _ => false
  }

  lemma ServesNext(m: Shared, t: nat, pc: Pc, l: Label)
    requires InRange(m, t, pc) && Serves(l, pc)
    ensures Serves(l, Step(m, t, pc).1)
  {
  }

  lemma {:induction false} Serving(run: seq<State>, ls: seq<Label>, k: nat, t: nat)
    requires IsRun(run, ls) && k < |run| && t < |run[0].pcs|
    ensures |run[k].pcs| == |run[0].pcs|
    ensures match Machine.Last(CallBy(t), ls, k)
            case None => run[k].pcs[t] == Idle(NoAnswer)
            case Some(a) => Serves(ls[a], run[k].pcs[t])
  {
    if k > 0 {
      Serving(run, ls, k - 1, t);
      assert Machine.StepAt(Next, run, ls, k - 1);
      var a := Machine.Last(CallBy(t), ls, k - 1);
      if a.Some? && ls[k - 1] == Access(t) { ServesNext(run[k - 1].m, t, run[k - 1].pcs[t], ls[a.value]); }
    }
  }

  lemma {:induction false} PcsKept(run: seq<State>, ls: seq<Label>, k: nat)
    requires IsRun(run, ls) && k < |run|
    ensures |run[k].pcs| == |run[0].pcs|
  {
    if k > 0 {
      PcsKept(run, ls, k - 1);
      assert Machine.StepAt(Next, run, ls, k - 1);
    }
  }

  ghost predicate Leaves(run: seq<State>, j: nat) {
    j + 1 < |run| && run[j + 1].m.stk == run[j].m.stk
  }

  lemma {:induction false} NothingSince(run: seq<State>, ls: seq<Label>, k: nat, t: nat, a: nat)
    requires IsRun(run, ls) && a < k < |run| && t < |run[k].pcs| && !run[k].pcs[t].Idle?
    requires Machine.Last(CallBy(t), ls, k) == Some(a)
    ensures forall j | a < j < k && ls[j] == Access(t) :: Leaves(run, j)
  {
    if a + 1 < k {
      RunInv(run, ls, k - 1);
      assert Machine.StepAt(Next, run, ls, k - 1);
      StepIsLifo(run[k - 1], ls[k - 1], run[k]);
      NothingSince(run, ls, k - 1, t, a);
      assert ls[k - 1] == Access(t) ==> Leaves(run, k - 1);
    }
  }

  /** Every call does what was asked for, once, by the step with which it returns: a push has pushed its node,
    a pop takes the top or says that there is nothing, and a reclaim leaves the stack alone. */
  lemma CallTakesEffect(run: seq<State>, ls: seq<Label>, k: nat, t: nat)
    requires IsRun(run, ls) && k < |ls| && ls[k] == Access(t) && t < |run[k].pcs| && t < |run[k + 1].pcs|
    requires !run[k].pcs[t].Idle? && run[k + 1].pcs[t].Idle?
    ensures Machine.Last(CallBy(t), ls, k).Some?
    ensures
      var a, answer, stk, stk' := Machine.Last(CallBy(t), ls, k).value, run[k + 1].pcs[t].answer, run[k].m.stk, run[k + 1].m.stk;
      && (forall j | a < j < k && ls[j] == Access(t) :: Leaves(run, j))
      && match ls[a]
         case PushCall(_, n) => answer == Pushed && stk' == stk + [n]
         case PopCall(_) => if stk == [] then answer == Empty && stk' == [] else answer.Popped? && stk == stk' + [answer.n]
         case Reclaim(_, _) => answer == Reclaimed && stk' == stk
         case _ => false
  {
    PcsKept(run, ls, k);
    Serving(run, ls, k, t);
    Serving(run, ls, k + 1, t);
    NothingSince(run, ls, k, t, Machine.Last(CallBy(t), ls, k).value);
    RunInv(run, ls, k);
    assert Machine.StepAt(Next, run, ls, k);
    StepIsLifo(run[k], ls[k], run[k + 1]);
  }

  // ---------------------------------------------------------------- what a reclaim leaves over

  /** At step j thread t loads the hazard slot of a record and finds node x. */
  ghost predicate FindsAt(run: seq<State>, ls: seq<Label>, t: nat, j: nat, x: Node) {
    && j < |ls| && j < |run| && ls[j] == Access(t) && t < |run[j].pcs|
    && (run[j].pcs[t].CollectLoad? || run[j].pcs[t].RescanLoad?)
    && run[j].pcs[t].r < |run[j].m.haz| && run[j].m.haz[run[j].pcs[t].r] == Some(x)
  }

  /** At step j thread t destroys node x, which was pending in its record. */
  ghost predicate DestroysAt(run: seq<State>, ls: seq<Label>, t: nat, j: nat, x: Node) {
    && j < |ls| && j + 1 < |run| && ls[j] == Access(t)
    && x < |run[j].m.place| == |run[j + 1].m.place| && run[j].m.place[x] == Retired(t) && run[j + 1].m.place[x] == Unused
  }

  ghost predicate Found(run: seq<State>, ls: seq<Label>, t: nat, a: nat, k: nat, x: Node) {
    exists j: nat :: a < j < k && FindsAt(run, ls, t, j, x)
  }

  ghost predicate Destroyed(run: seq<State>, ls: seq<Label>, t: nat, a: nat, k: nat, x: Node) {
    exists j: nat :: a < j < k && DestroysAt(run, ls, t, j, x)
  }

  ghost predicate Dealt(run: seq<State>, ls: seq<Label>, t: nat, a: nat, k: nat, x: Node) {
    Found(run, ls, t, a, k, x) || Destroyed(run, ls, t, a, k, x)
  }

  /** How far a reclaim has come: it has dealt with the entries before the i-th, and what is in its cache
    was found in a hazard slot. */
  ghost predicate ReclaimedTo(run: seq<State>, ls: seq<Label>, t: nat, a: nat, k: nat, i: nat)
    requires a < |ls| && ls[a].Reclaim?
  {
    && k < |run| && t < |run[k].m.todo| && t < |run[k].pcs| && i <= |ls[a].todo| && run[k].m.todo[t] == ls[a].todo[i..]
    && (forall x | x in ls[a].todo[..i] :: Dealt(run, ls, t, a, k, x))
    && (Reclaiming(run[k].pcs[t]) ==> AllFound(run, ls, t, a, k, run[k].pcs[t].cache))
  }

  ghost predicate AllFound(run: seq<State>, ls: seq<Label>, t: nat, a: nat, k: nat, cache: seq<Node>) {
    forall x: Node | x in cache :: Found(run, ls, t, a, k, x)
  }

  /** What was found or destroyed by step k - 1 was so by step k. */
  ghost predicate StillKnown(run: seq<State>, ls: seq<Label>, t: nat, a: nat, k: nat)
    requires k > 0
  {
    && (forall x: Node :: Found(run, ls, t, a, k - 1, x) ==> Found(run, ls, t, a, k, x))
    && (forall x: Node :: Destroyed(run, ls, t, a, k - 1, x) ==> Destroyed(run, ls, t, a, k, x))
  }

  lemma StillDealt(run: seq<State>, ls: seq<Label>, t: nat, a: nat, k: nat)
    requires k > 0
    ensures StillKnown(run, ls, t, a, k)
  {
    var p: nat := k - 1;
    forall x: Node | Found(run, ls, t, a, p, x) ensures Found(run, ls, t, a, k, x) {
      var j: nat :| a < j < p && FindsAt(run, ls, t, j, x);
      assert a < j < k && FindsAt(run, ls, t, j, x);
    }
    forall x: Node | Destroyed(run, ls, t, a, p, x) ensures Destroyed(run, ls, t, a, k, x) {
      var j: nat :| a < j < p && DestroysAt(run, ls, t, j, x);
      assert a < j < k && DestroysAt(run, ls, t, j, x);
    }
  }

  lemma TodoKept(s: State, l: Label, s': State, t: nat)
    requires Inv(s) && Next(s, l, s') && t < |s.pcs| && l != Access(t) && !CallBy(t)(l)
    ensures t < |s.m.todo| && t < |s'.m.todo| && s'.m.todo[t] == s.m.todo[t] && t < |s'.pcs| && s'.pcs[t] == s.pcs[t]
  {
  }

  /** What an access of a reclaim does: it goes on with the same entries, or deals with the first of them. */
  lemma ReclaimStep(s: State, t: nat, s': State)
    requires Inv(s) && Next(s, Access(t), s') && Reclaiming(s.pcs[t])
    ensures t < |s.m.todo| && t < |s'.m.todo|
    ensures
      var pc, pc', todo := s.pcs[t], s'.pcs[t], s.m.todo[t];
      && (pc' == Idle(Reclaimed) ==> todo == [])
      && (Reclaiming(pc') ==> pc'.cache == pc.cache || (pc.CollectLoad? && pc.r < |s.m.haz| && s.m.haz[pc.r].Some?
                                                        && pc'.cache == pc.cache + [s.m.haz[pc.r].value]))
      && (if s'.m.todo[t] == todo then true
          else todo != [] && s'.m.todo[t] == todo[1..]
               && (todo[0] in pc.cache || (pc.RescanLoad? && pc.r < |s.m.haz| && s.m.haz[pc.r] == Some(todo[0]))
                   || (todo[0] < |s.m.place| == |s'.m.place| && s.m.place[todo[0]] == Retired(t) && s'.m.place[todo[0]] == Unused)))
  {
    assert ThreadInv(s.m, t, s.pcs[t]);
  }

  lemma {:induction false} ReclaimSoFar(run: seq<State>, ls: seq<Label>, k: nat, t: nat, a: nat) returns (i: nat)
    requires IsRun(run, ls) && a < k < |run| && t < |run[0].pcs|
    requires Machine.Last(CallBy(t), ls, k) == Some(a) && ls[a].Reclaim?
    ensures ReclaimedTo(run, ls, t, a, k, i) && (run[k].pcs[t].Idle? ==> i == |ls[a].todo|)
  {
    var p: nat := k - 1;
    RunInv(run, ls, p);
    assert Machine.StepAt(Next, run, ls, p);
    if a + 1 == k {
      i := 0;
      assert ls[a].todo[0..] == ls[a].todo;
    } else {
      Serving(run, ls, p, t);
      i := ReclaimSoFar(run, ls, p, t, a);
      StillDealt(run, ls, t, a, k);
      if ls[p] == Access(t) && Reclaiming(run[p].pcs[t]) {
        i := ReclaimNext(run, ls, k, t, a, i);
      } else if ls[p] != Access(t) {
        TodoKept(run[p], ls[p], run[k], t);
      }
    }
  }

  /** What the access at step k - 1 finds or destroys is known by step k. */
  lemma ReclaimFinds(run: seq<State>, ls: seq<Label>, k: nat, t: nat, a: nat)
    requires IsRun(run, ls) && a + 1 < k < |run| && Inv(run[k - 1]) && ls[k - 1] == Access(t)
    requires t < |run[k - 1].pcs| && Reclaiming(run[k - 1].pcs[t]) && t < |run[k].m.todo|
    requires ls[a].Reclaim? && StillKnown(run, ls, t, a, k)
    requires AllFound(run, ls, t, a, k - 1, run[k - 1].pcs[t].cache)
    ensures t < |run[k - 1].m.todo|
    ensures t < |run[k].pcs| && (Reclaiming(run[k].pcs[t]) ==> AllFound(run, ls, t, a, k, run[k].pcs[t].cache))
    ensures run[k].m.todo[t] != run[k - 1].m.todo[t] ==>
              && run[k - 1].m.todo[t] != [] && run[k].m.todo[t] == run[k - 1].m.todo[t][1..]
              && Dealt(run, ls, t, a, k, run[k - 1].m.todo[t][0])
    ensures run[k].pcs[t].Idle? ==> run[k].m.todo[t] == []
  {
    var p: nat := k - 1;
    var s, s' := run[p], run[k];
    assert Next(s, ls[p], s') by { assert Machine.StepAt(Next, run, ls, p); }
    ReclaimStep(s, t, s');
    var pc, todo := s.pcs[t], s.m.todo[t];
    if (pc.CollectLoad? || pc.RescanLoad?) && pc.r < |s.m.haz| && s.m.haz[pc.r].Some? {
      assert FindsAt(run, ls, t, p, s.m.haz[pc.r].value);
    }
    if s'.m.todo[t] != todo && s.m.place[todo[0]] == Retired(t) && s'.m.place[todo[0]] == Unused {
      assert DestroysAt(run, ls, t, p, todo[0]);
    }
  }

  lemma ReclaimNext(run: seq<State>, ls: seq<Label>, k: nat, t: nat, a: nat, i: nat) returns (i': nat)
    requires IsRun(run, ls) && a + 1 < k < |run| && Inv(run[k - 1]) && ls[k - 1] == Access(t) && ls[a].Reclaim?
    requires ReclaimedTo(run, ls, t, a, k - 1, i) && Reclaiming(run[k - 1].pcs[t]) && t < |run[k].pcs| && t < |run[k].m.todo|
    requires StillKnown(run, ls, t, a, k)
    ensures ReclaimedTo(run, ls, t, a, k, i') && (run[k].pcs[t].Idle? ==> i' == |ls[a].todo|)
  {
    var todo := ls[a].todo;
    ReclaimFinds(run, ls, k, t, a);
    i' := i;
    if run[k].m.todo[t] != run[k - 1].m.todo[t] {
      i' := i + 1;
      assert run[k - 1].m.todo[t][0] == todo[i] && todo[..i + 1] == todo[..i] + [todo[i]];
    }
  }

  /** A reclaim that is done has destroyed every entry that it was to go through, but for those that it
    found in a hazard slot at some step. */
  lemma ReclaimDestroysTheRest(run: seq<State>, ls: seq<Label>, k: nat, t: nat, x: Node)
    requires IsRun(run, ls) && k < |ls| && ls[k] == Access(t) && t < |run[k].pcs| && t < |run[k + 1].pcs|
    requires !run[k].pcs[t].Idle? && run[k + 1].pcs[t] == Idle(Reclaimed)
    ensures var a := Machine.Last(CallBy(t), ls, k);
            && a.Some? && ls[a.value].Reclaim?
            && (x in ls[a.value].todo ==> Dealt(run, ls, t, a.value, k + 1, x))
  {
    PcsKept(run, ls, k);
    CallTakesEffect(run, ls, k, t);
    var a := Machine.Last(CallBy(t), ls, k).value;
    var i := ReclaimSoFar(run, ls, k + 1, t, a);
    assert ls[a].todo[..i] == ls[a].todo;
  }

  // ---------------------------------------------------------------- how long a reclaim takes

  ghost function Left(n: nat, r: nat): nat {
    if r < n then n - r else 0
  }

  /** Accesses for `left` entries, when there are n records. */
  ghost function Sweeps(left: nat, n: nat): nat {
    if left == 0 then 1 else 2 * n + 3 + Sweeps(left - 1, n)
  }

  /** How many accesses a reclaim that has `left` entries before it has still to make at most. */
  ghost function Remaining(n: nat, left: nat, pc: Pc): nat {
    match pc
    case CollectState(r, _) => 2 * Left(n, r) + 1 + Sweeps(left, n)
    case CollectLoad(r, _) => 2 * Left(n, r) + (if r < n then 0 else 1) + Sweeps(left, n)
    case Sweep(_, _) => Sweeps(left, n)
    case RescanState(_, _, r) => if left == 0 then 1 else 2 * Left(n, r) + 2 + Sweeps(left - 1, n)
    case RescanLoad(_, _, r) => if left == 0 then 1 else 2 * Left(n, r) + (if r < n then 1 else 3) + Sweeps(left - 1, n)
    case Destroy(_, _) => if left == 0 then 1 else 1 + Sweeps(left - 1, n)
    case _ => 0
  }

  ghost function ReclaimRank(t: nat): State -> nat {
    (s: State) => if t < |s.pcs| && t < |s.m.todo| then Remaining(|s.m.used|, |s.m.todo[t]|, s.pcs[t]) else 0
  }

  ghost function AccessOf(t: nat): Label -> bool {
    (l: Label) => l == Access(t)
  }

  lemma CollectFalls(m: Shared, t: nat, pc: Pc)
    requires InRange(m, t, pc) && (pc.CollectState? || pc.CollectLoad?)
    ensures var (m', pc') := Step(m, t, pc);
            m' == m && Remaining(|m.used|, |m.todo[t]|, pc') < Remaining(|m.used|, |m.todo[t]|, pc)
  {
  }

  lemma SweepFalls(m: Shared, t: nat, pc: Pc)
    requires InRange(m, t, pc) && (pc.Sweep? || pc.Destroy?)
    ensures var (m', pc') := Step(m, t, pc);
            && |m'.used| == |m.used| && |m'.todo| == |m.todo|
            && Remaining(|m.used|, |m'.todo[t]|, pc') < Remaining(|m.used|, |m.todo[t]|, pc)
  {
  }

  lemma RescanFalls(m: Shared, t: nat, pc: Pc)
    requires InRange(m, t, pc) && (pc.RescanState? || pc.RescanLoad?) && m.todo[t] != []
    ensures var (m', pc') := Step(m, t, pc);
            && |m'.used| == |m.used| && |m'.todo| == |m.todo|
            && Remaining(|m.used|, |m'.todo[t]|, pc') < Remaining(|m.used|, |m.todo[t]|, pc)
  {
  }

  lemma ReclaimFalls(s: State, t: nat, s': State)
    requires Inv(s) && Next(s, Access(t), s') && Reclaiming(s.pcs[t])
    ensures ReclaimRank(t)(s') < ReclaimRank(t)(s)
  {
    var m, pc := s.m, s.pcs[t];
    assert ThreadInv(m, t, pc);
    if pc.CollectState? || pc.CollectLoad? {
      CollectFalls(m, t, pc);
    } else if pc.Sweep? || pc.Destroy? {
      SweepFalls(m, t, pc);
    } else {
      RescanFalls(m, t, pc);
    }
  }

  /** Thread t is in the reclaim that it began at step a, from there up to step n. */
  ghost predicate InReclaim(run: seq<State>, ls: seq<Label>, t: nat, a: nat, n: nat) {
    && a < n < |run| == |ls| + 1 && ls[a].Reclaim? && ls[a].t == t
    && forall j: nat | a < j < n :: t < |run[j].pcs| && Reclaiming(run[j].pcs[t])
  }

  lemma ReclaimGoesOn(run: seq<State>, ls: seq<Label>, t: nat, a: nat, n: nat, j: nat)
    requires IsRun(run, ls) && InReclaim(run, ls, t, a, n) && a < j < n
    ensures Machine.Falls(ReclaimRank(t), AccessOf(t), run, ls, j)
  {
    RunInv(run, ls, j);
    assert Machine.StepAt(Next, run, ls, j);
    assert ThreadInv(run[j].m, t, run[j].pcs[t]);
    if ls[j] == Access(t) {
      ReclaimFalls(run[j], t, run[j + 1]);
    } else {
      TodoKept(run[j], ls[j], run[j + 1], t);
    }
  }

  /** A reclaim waits for nobody: whatever the other threads do, it is over after a number of accesses that
    the number of its entries and of the records fixes from the start. */
  lemma ReclaimEnds(run: seq<State>, ls: seq<Label>, t: nat, a: nat, n: nat)
    requires IsRun(run, ls) && InReclaim(run, ls, t, a, n)
    ensures var records := |run[a].m.used|;
            Machine.Count(AccessOf(t), ls, a + 1, n) + ReclaimRank(t)(run[n]) <= 2 * records + 1 + Sweeps(|ls[a].todo|, records)
  {
    forall j: nat | a + 1 <= j < n ensures Machine.Falls(ReclaimRank(t), AccessOf(t), run, ls, j) {
      ReclaimGoesOn(run, ls, t, a, n, j);
    }
    Machine.Bounded(ReclaimRank(t), AccessOf(t), run, ls, a + 1, n);
    assert Machine.StepAt(Next, run, ls, a);
  }

  // ---------------------------------------------------------------- a push or a pop that runs alone

  /** How many accesses it takes at most, if no other thread takes a step. */
  ghost function Rank(m: Shared, pc: Pc): nat {
    match pc
    case PushLoadHead(_) => 3
    case PushStoreNext(_, h) => if h == m.head then 2 else 4
    case PushSwing(_, h) => if h == m.head then 1 else 3
    case PopLoad => 5
    case PopPublish(top) => if m.head == Some(top) then 4 else 7
    case PopReread(top) => if m.head == Some(top) then 3 else 6
    case PopNext(top) => if m.head == Some(top) then 2 else 6
    case PopSwing(top, _) => if m.head == Some(top) || m.head == None then 1 else 5
    case Republish(e, first) => if e != m.head then 6 else if e.Some? || first then 4 else 2
    case Reload(e, first) => if e != m.head then 5 else if e.Some? || first then 3 else 1
    case _ => 0
  }

  ghost function Alone(t: nat): (State, Label, State) -> bool {
    (s: State, l: Label, s': State) => l == Access(t) && Next(s, l, s')
  }

  lemma RankFalls(s: State, t: nat, s': State)
    requires Inv(s) && Next(s, Access(t), s') && !s.pcs[t].Idle? && !Reclaiming(s.pcs[t])
    ensures Rank(s'.m, s'.pcs[t]) < Rank(s.m, s.pcs[t]) && !Reclaiming(s'.pcs[t])
  {
  }

  /** Whatever others have left undone, a push or a pop that runs alone is done after at most seven accesses. */
  lemma AloneEnds(run: seq<State>, ls: seq<Label>, t: nat) returns (k: nat)
    requires Machine.Steps(Alone(t), run, ls) && Inv(run[0]) && t < |run[0].pcs| && !Reclaiming(run[0].pcs[t]) && |ls| >= 7
    ensures k < |run| && k <= 7 && t < |run[k].pcs| && run[k].pcs[t].Idle?
  {
    var inv := (s: State) => Inv(s) && t < |s.pcs| && !Reclaiming(s.pcs[t]);
    var busy := (s: State) => t < |s.pcs| && !s.pcs[t].Idle?;
    var rank := (s: State) => if t < |s.pcs| then Rank(s.m, s.pcs[t]) else 0;
    forall s, l, s' | inv(s) && busy(s) && Alone(t)(s, l, s') ensures inv(s') && (busy(s') ==> rank(s') < rank(s)) {
      NextInv(s, l, s');
      RankFalls(s, t, s');
    }
    k := Machine.Ends(Alone(t), inv, busy, rank, run, ls);
  }
}
