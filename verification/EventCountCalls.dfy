/** The calls on an event count from beginning to end: what an addition adds, what a wait answers, and how
  soon a waiter that is awake notices a change (src/ck_ec.c:34-41 and 309-425). */
module EventCountCalls {
  import opened Prelude
  import Machine
  import opened EventCount

  // ---------------------------------------------------------------- calls

  ghost function CallBy(t: nat): Label -> bool {
    (l: Label) => (l.AddCall? || l.WaitCall?) && l.t == t
  }

  /** Where a thread can be in a call, or after it. */
  ghost predicate Serves(l: Label, pc: Pc) {
    match l
    case AddCall(_, d) => pc == PAdd(d) || pc.PClear? || pc.PWake? || pc.Idle?
    case WaitCall(_, v) => Waiting(pc) && pc.v == v
    case _ => false
  }

  lemma ServesNext(s: State, l: Label, s': State, t: nat, call: Label)
    requires Next(s, l, s') && t < |s.pcs| && Serves(call, s.pcs[t]) && !CallBy(t)(l)
    ensures t < |s'.pcs| && Serves(call, s'.pcs[t])
  {
  }

  lemma {:induction false} Serving(run: seq<State>, ls: seq<Label>, k: nat, t: nat)
    requires IsRun(run, ls) && k < |run| && t < |run[0].pcs|
    ensures |run[k].pcs| == |run[0].pcs|
    ensures match Machine.Last(CallBy(t), ls, k)
            case None => run[k].pcs[t].Idle?
            case Some(a) => Serves(ls[a], run[k].pcs[t])
  {
    if k > 0 {
      Serving(run, ls, k - 1, t);
      assert Machine.StepAt(Next, run, ls, k - 1);
      var a := Machine.Last(CallBy(t), ls, k - 1);
      if a.Some? && !CallBy(t)(ls[k - 1]) { ServesNext(run[k - 1], ls[k - 1], run[k], t, ls[a.value]); }
    }
  }

  /** A wait answers anything but 0 only if it gives up: at its deadline, or because its predicate says so. */
  lemma {:induction false} NonzeroIsGivingUp(run: seq<State>, ls: seq<Label>, k: nat, t: nat)
    requires IsRun(run, ls) && k < |run| && t < |run[k].pcs| && run[k].pcs[t].WDone? && !run[k].pcs[t].zero
    ensures var a := Machine.Last(CallBy(t), ls, k);
            && a.Some? && ls[a.value] == WaitCall(t, run[k].pcs[t].v)
            && exists j | a.value < j < k :: ls[j] == GiveUp(t)
  {
    PcsKept(run, ls, k);
    Serving(run, ls, k, t);
    if k > 0 {
      assert Machine.StepAt(Next, run, ls, k - 1);
      if ls[k - 1] != GiveUp(t) { NonzeroIsGivingUp(run, ls, k - 1, t); }
    }
  }

  lemma {:induction false} PcsKept(run: seq<State>, ls: seq<Label>, k: nat)
    requires IsRun(run, ls) && k < |run|
    ensures |run[k].pcs| == |run[0].pcs|
  {
    if k > 0 {
      PcsKept(run, ls, k - 1);
      assert Machine.StepAt(Next, run, ls, k - 1);
    }
  }

  /** Step j leaves the value and the total alone, or adds d to both. */
  ghost predicate CountsAt(run: seq<State>, j: nat, d: nat) {
    j + 1 < |run| && var m, m' := run[j].m, run[j + 1].m;
    m'.total == m.total + d && m'.w == m.w && Value(m.w, m'.word) == (Value(m.w, m.word) + d) % Limit(m.w)
  }

  /** The accesses of thread t after its call at step a and before step k add nothing, except that at i. */
  ghost predicate OnlyAt(run: seq<State>, ls: seq<Label>, t: nat, a: nat, k: nat, i: nat) {
    k <= |ls| && forall j | a < j < k && j != i && ls[j].Access? && ls[j].t == t :: CountsAt(run, j, 0)
  }

  ghost predicate AddsAt(run: seq<State>, ls: seq<Label>, t: nat, a: nat, k: nat, i: nat, d: nat) {
    a < i < k <= |ls| && ls[i].Access? && ls[i].t == t && CountsAt(run, i, d) && OnlyAt(run, ls, t, a, k, i)
  }

  lemma AddStep(s: State, l: Label, s': State)
    requires Inv(s) && Next(s, l, s') && l.Access?
    ensures var m, m', pc := s.m, s'.m, s.pcs[l.t];
            && m'.w == m.w && m'.total == m.total + (if pc.PAdd? then pc.d else 0)
            && Value(m.w, m'.word) == (Value(m.w, m.word) + if pc.PAdd? then pc.d else 0) % Limit(m.w)
  {
    var m, pc := s.m, s.pcs[l.t];
    assert ThreadOk(m, pc, s.notes[l.t]);
    Unpacks(m.w, m.word);
    ModUnique(Value(m.w, m.word), Limit(m.w), 0, Value(m.w, m.word));
    StepOk(m, pc, l.spin, s.notes[l.t]);
    if pc.PAdd? { Adds(m.w, m.word, pc.d); } else { ChangeKeeps(m, s'.m, ChangeOf(m, pc)); }
  }

  /** An addition is before its one access that adds, or after it. */
  lemma AddNext(s: State, l: Label, s': State, t: nat, d: nat)
    requires Inv(s) && Next(s, l, s') && t < |s.pcs| && Serves(AddCall(t, d), s.pcs[t]) && !CallBy(t)(l)
    ensures t < |s'.pcs|
    ensures l.Access? && l.t == t && s.pcs[t].PAdd? ==>
              !s'.pcs[t].PAdd? && s'.m.total == s.m.total + d && s'.m.w == s.m.w
              && Value(s.m.w, s'.m.word) == (Value(s.m.w, s.m.word) + d) % Limit(s.m.w)
    ensures l.Access? && l.t == t && !s.pcs[t].PAdd? ==>
              !s'.pcs[t].PAdd? && s'.m.total == s.m.total && s'.m.w == s.m.w
              && Value(s.m.w, s'.m.word) == Value(s.m.w, s.m.word) % Limit(s.m.w)
    ensures !(l.Access? && l.t == t) ==> s'.pcs[t] == s.pcs[t]
  {
    if l.Access? && l.t == t { AddStep(s, l, s'); }
  }

  lemma {:induction false} AddSoFar(run: seq<State>, ls: seq<Label>, k: nat, t: nat, a: nat)
    requires IsRun(run, ls) && a < k < |run| && t < |run[0].pcs| && t < |run[k].pcs|
    requires Machine.Last(CallBy(t), ls, k) == Some(a) && ls[a].AddCall?
    ensures if run[k].pcs[t].PAdd? then OnlyAt(run, ls, t, a, k, a) else exists i: nat :: AddsAt(run, ls, t, a, k, i, ls[a].d)
  {
    RunInv(run, ls, k - 1);
    assert Machine.StepAt(Next, run, ls, k - 1);
    if a + 1 < k {
      Serving(run, ls, k - 1, t);
      var p: nat := k - 1;
      AddSoFar(run, ls, p, t, a);
      AddNext(run[p], ls[p], run[k], t, ls[a].d);
      if !run[p].pcs[t].PAdd? {
        var i: nat :| AddsAt(run, ls, t, a, p, i, ls[a].d);
        OnlyNext(run, ls, t, a, k, i);
        assert AddsAt(run, ls, t, a, k, i, ls[a].d);
      } else if !run[k].pcs[t].PAdd? {
        OnlyNext(run, ls, t, a, k, p);
        assert AddsAt(run, ls, t, a, k, p, ls[a].d);
      }
    }
  }

  lemma OnlyNext(run: seq<State>, ls: seq<Label>, t: nat, a: nat, k: nat, i: nat)
    requires a + 1 < k <= |ls| && (OnlyAt(run, ls, t, a, k - 1, i) || OnlyAt(run, ls, t, a, k - 1, a))
    requires ls[k - 1].Access? && ls[k - 1].t == t && i != k - 1 ==> CountsAt(run, k - 1, 0)
    ensures OnlyAt(run, ls, t, a, k, i)
  {
  }

  /** When an addition returns, exactly one of its accesses has added its argument, to the value and to the
    total; and a wait adds nothing. */
  lemma AddTakesEffect(run: seq<State>, ls: seq<Label>, k: nat, t: nat, a: nat)
    requires IsRun(run, ls) && k < |run| && t < |run[k].pcs| && Machine.Last(CallBy(t), ls, k) == Some(a)
    ensures ls[a].AddCall? && run[k].pcs[t].Idle? ==> exists i: nat :: AddsAt(run, ls, t, a, k, i, ls[a].d)
    ensures ls[a].WaitCall? ==> OnlyAt(run, ls, t, a, k, a)
  {
    PcsKept(run, ls, k);
    if ls[a].AddCall? { AddSoFar(run, ls, k, t, a); } else { WaitSoFar(run, ls, k, t, a); }
  }

  lemma {:induction false} WaitSoFar(run: seq<State>, ls: seq<Label>, k: nat, t: nat, a: nat)
    requires IsRun(run, ls) && a < k < |run| && t < |run[0].pcs|
    requires Machine.Last(CallBy(t), ls, k) == Some(a) && ls[a].WaitCall?
    ensures OnlyAt(run, ls, t, a, k, a)
  {
    if a + 1 < k {
      WaitSoFar(run, ls, k - 1, t, a);
      Serving(run, ls, k - 1, t);
      RunInv(run, ls, k - 1);
      assert Machine.StepAt(Next, run, ls, k - 1);
      if ls[k - 1].Access? && ls[k - 1].t == t { AddStep(run[k - 1], ls[k - 1], run[k]); }
      OnlyNext(run, ls, t, a, k, a);
    }
  }

  // ---------------------------------------------------------------- how soon a change is noticed

  /** The value is not the one that the waiter waits on. */
  ghost predicate Moved(m: Shared, pc: Pc) {
    Waiting(pc) && pc.v < Limit(m.w) && InRange(m.w, m.word) && Value(m.w, m.word) != pc.v
  }

  /** Asleep, or about to sleep on a word that the operating system takes for the awaited one. */
  ghost predicate Asleep(m: Shared, pc: Pc) {
    pc.WSleep? || (pc.WFutex? && Matches(m.w, m.word, Pack(m.w, pc.v, true)))
  }

  /** How many accesses it takes a waiter to notice that the value has moved. */
  ghost function Rank(m: Shared, pc: Pc): nat {
    match pc
    case WBackoff(_) => 4
    case WFutex(_) => 3
    case WCheck(_) => 2
    case WPost(_) => 2
    case WDone(_, _) => 0
    case _ => 1
  }

  lemma NoticesStep(m: Shared, pc: Pc, spin: bool)
    requires Moved(m, pc) && !Asleep(m, pc) && !pc.WDone?
    ensures var (m', pc') := Step(m, pc, spin);
            && m' == m && Rank(m, pc') < Rank(m, pc) && Moved(m, pc') && !Asleep(m, pc')
            && pc'.v == pc.v && (pc'.WDone? ==> pc'.zero)
  {
    Packs(m.w, pc.v, false);
    Packs(m.w, pc.v, true);
  }

  /** Only thread t takes steps, and it does not give up. */
  ghost function Alone(t: nat): (State, Label, State) -> bool {
    (s: State, l: Label, s': State) => l.Access? && l.t == t && Next(s, l, s')
  }

  /** Once the value has moved, a waiter that is awake and is left to run returns 0 after at most four accesses,
    however its busy loops go. */
  lemma ChangeIsNoticed(run: seq<State>, ls: seq<Label>, t: nat) returns (k: nat)
    requires Machine.Steps(Alone(t), run, ls) && t < |run[0].pcs| && |ls| >= 4
    requires Moved(run[0].m, run[0].pcs[t]) && !Asleep(run[0].m, run[0].pcs[t]) && !run[0].pcs[t].WDone?
    ensures k < |run| && k <= 4 && t < |run[k].pcs| && run[k].pcs[t] == WDone(run[0].pcs[t].v, true)
  {
    var v := run[0].pcs[t].v;
    var inv := (s: State) =>
      && t < |s.pcs| && Moved(s.m, s.pcs[t]) && !Asleep(s.m, s.pcs[t]) && s.pcs[t].v == v
      && (s.pcs[t].WDone? ==> s.pcs[t].zero);
    var busy := (s: State) => t < |s.pcs| && !s.pcs[t].WDone?;
    var rank := (s: State) => if t < |s.pcs| then Rank(s.m, s.pcs[t]) else 0;
    forall s, l, s' | inv(s) && busy(s) && Alone(t)(s, l, s') ensures inv(s') && (busy(s') ==> rank(s') < rank(s)) {
      NoticesStep(s.m, s.pcs[t], l.spin);
    }
    k := Machine.Ends(Alone(t), inv, busy, rank, run, ls);
  }
}
