/** The operations of the one writer and the calls of its readers, from beginning to end: what each does
  to the set, and after how many loads or stores it is over (src/ck_hs.c:816-934, 843-859, 937-986). */
module HashSetCalls {
  import opened Prelude
  import Machine
  import opened HashTable
  import opened HashSetSpmc

  // ---------------------------------------------------------------- what the writer's operations do

  /** In the middle of storing op, the set stands for what it stood for before, or for that with op. */
  ghost predicate Storing(m: Shared, op: Op, was: map<int, Object>) {
    match m.w
    case RaiseMax(x) => x == op && m.model == was
    case RaiseWord(x) => x == op && m.model == was
    case Write(x) => x == op && m.model == was
    case Signal(x) => x == op && m.model == was[op.o.key := op.o]
    case Bury(x) => x == op && m.model == was[op.o.key := op.o]
    case _ => false
  }

  lemma StoringNext(s: State, l: Label, s': State, hf: int -> Hash, op: Op, was: map<int, Object>)
    requires Inv(s, hf) && Next(s, l, s', hf) && Storing(s.m, op, was)
    ensures if s'.m.w.Idle? then s'.m.model == was[op.o.key := op.o] else Storing(s'.m, op, was)
    ensures s.m.model == was[op.o.key := op.o] ==> s'.m.model == s.m.model
  {
  }

  /** The writer is busy from step a + 1 up to, but not including, step b. */
  ghost predicate BusyBetween(run: seq<State>, a: nat, b: nat) {
    a < b < |run| && run[a].m.w.Idle? && run[b].m.w.Idle? && forall j | a < j < b :: !run[j].m.w.Idle?
  }

  lemma {:induction false} StoringAt(run: seq<State>, ls: seq<Label>, hf: int -> Hash, a: nat, k: nat, b: nat,
                                     op: Op, raise: bool)
    requires IsRun(run, ls, hf) && BusyBetween(run, a, b) && a < k <= b && ls[a] == Writes(Begin(op, raise))
    ensures if k == b then run[k].m.model == run[a].m.model[op.o.key := op.o] else Storing(run[k].m, op, run[a].m.model)
    ensures a + 1 < k && run[k - 1].m.model == run[a].m.model[op.o.key := op.o] ==> run[k].m.model == run[k - 1].m.model
  {
    RunInv(run, ls, hf, k - 1);
    assert Machine.StepAt(Moves(hf), run, ls, k - 1);
    if a + 1 < k {
      StoringAt(run, ls, hf, a, k - 1, b, op, raise);
      StoringNext(run[k - 1], ls[k - 1], run[k], hf, op, run[a].m.model);
    }
  }

  /** From step a up to step i the set stands for one map, and from there up to step b for another. */
  ghost predicate ChangesAt(run: seq<State>, a: nat, i: nat, b: nat, was: map<int, Object>, now: map<int, Object>) {
    && a < i <= b < |run|
    && (forall j | a <= j < i :: run[j].m.model == was) && (forall j | i <= j <= b :: run[j].m.model == now)
  }

  lemma {:induction false} ChangesOnce(run: seq<State>, ls: seq<Label>, hf: int -> Hash, a: nat, k: nat, b: nat,
                                       op: Op, raise: bool)
    requires IsRun(run, ls, hf) && BusyBetween(run, a, b) && a < k <= b && ls[a] == Writes(Begin(op, raise))
    ensures var was, now := run[a].m.model, run[a].m.model[op.o.key := op.o];
            (exists i: nat :: ChangesAt(run, a, i, k, was, now)) || (k < b && forall j | a <= j <= k :: run[j].m.model == was)
  {
    var was, now := run[a].m.model, run[a].m.model[op.o.key := op.o];
    StoringAt(run, ls, hf, a, k, b, op, raise);
    if a + 1 < k {
      var p: nat := k - 1;
      ChangesOnce(run, ls, hf, a, p, b, op, raise);
      if i: nat :| ChangesAt(run, a, i, p, was, now) {
        assert ChangesAt(run, a, i, k, was, now);
      } else if run[k].m.model == now {
        assert ChangesAt(run, a, k, k, was, now);
      }
    } else if run[k].m.model == now {
      assert ChangesAt(run, a, k, k, was, now);
    }
  }

  /** An insertion or a replacement takes effect: by the time the writer is idle again the key has the new
    object, all others are as they were, and there was one instant at which that changed. */
  lemma PutTakesEffect(run: seq<State>, ls: seq<Label>, hf: int -> Hash, a: nat, b: nat, op: Op, raise: bool)
    requires IsRun(run, ls, hf) && BusyBetween(run, a, b) && ls[a] == Writes(Begin(op, raise))
    ensures run[b].m.model == run[a].m.model[op.o.key := op.o]
    ensures var was, now := run[a].m.model, run[a].m.model[op.o.key := op.o]; exists i: nat :: ChangesAt(run, a, i, b, was, now)
  {
    StoringAt(run, ls, hf, a, b, b, op, raise);
    ChangesOnce(run, ls, hf, a, b, b, op, raise);
  }

  /** In the middle of lowering the bounds of table t. */
  ghost predicate Lowering(m: Shared, t: Table, x: nat, bounds: Option<seq<nat>>) {
    m.w.Lower? && m.w.maximum == x && m.w.bounds == bounds && m.base == t
  }

  lemma LoweringEnds(m: Shared, hf: int -> Hash)
    requires SharedInv(m, hf) && m.w.Lower? && Proceed(m, hf).w.Idle?
    ensures Cur(Proceed(m, hf)).t == m.base.(maximum := m.w.maximum, bounds := m.w.bounds)
  {
    var b, bounds, i := m.base, m.w.bounds, m.w.i;
    if bounds.Some? { assert bounds.value[..i] + b.bounds.value[i..] == bounds.value; }
  }

  lemma LoweringNext(s: State, l: Label, s': State, hf: int -> Hash, t: Table, x: nat, bounds: Option<seq<nat>>)
    requires Inv(s, hf) && Next(s, l, s', hf) && Lowering(s.m, t, x, bounds)
    ensures s'.m.model == s.m.model
    ensures if s'.m.w.Idle? then |s'.m.maps| > 0 && Cur(s'.m).t == t.(maximum := x, bounds := bounds)
            else Lowering(s'.m, t, x, bounds)
  {
    if l.Writes? && s'.m.w.Idle? { LoweringEnds(s.m, hf); }
  }

  lemma LoweringBegins(s: State, l: Label, s': State, hf: int -> Hash)
    requires Inv(s, hf) && Next(s, l, s', hf) && l.Writes? && l.a.BeginLower?
    ensures s'.m.model == s.m.model && Lowering(s'.m, Cur(s.m).t, l.a.maximum, l.a.bounds)
  {
  }

  lemma {:induction false} LoweringAt(run: seq<State>, ls: seq<Label>, hf: int -> Hash, a: nat, k: nat, b: nat)
    requires IsRun(run, ls, hf) && BusyBetween(run, a, b) && a < k <= b && ls[a].Writes? && ls[a].a.BeginLower?
    ensures run[k].m.model == run[a].m.model && |run[a].m.maps| > 0
    ensures var t, x, bounds := Cur(run[a].m).t, ls[a].a.maximum, ls[a].a.bounds;
            if k == b then |run[k].m.maps| > 0 && Cur(run[k].m).t == t.(maximum := x, bounds := bounds)
            else Lowering(run[k].m, t, x, bounds)
  {
    var p: nat := k - 1;
    RunInv(run, ls, hf, p);
    assert Next(run[p], ls[p], run[k], hf) by { assert Machine.StepAt(Moves(hf), run, ls, p); }
    if a < p {
      LoweringAt(run, ls, hf, a, p, b);
      LoweringNext(run[p], ls[p], run[k], hf, Cur(run[a].m).t, ls[a].a.maximum, ls[a].a.bounds);
    } else {
      LoweringBegins(run[p], ls[p], run[k], hf);
    }
  }

  /** Lowering the bounds changes the map at no point, and leaves the table as it was, with the lower bounds. */
  lemma LowerTakesEffect(run: seq<State>, ls: seq<Label>, hf: int -> Hash, a: nat, b: nat)
    requires IsRun(run, ls, hf) && BusyBetween(run, a, b) && ls[a].Writes? && ls[a].a.BeginLower?
    ensures forall j: nat | a <= j <= b :: run[j].m.model == run[a].m.model
    ensures |run[a].m.maps| > 0 && |run[b].m.maps| > 0
    ensures Cur(run[b].m).t == Cur(run[a].m).t.(maximum := ls[a].a.maximum, bounds := ls[a].a.bounds)
  {
    forall j: nat | a <= j <= b ensures run[j].m.model == run[a].m.model {
      if a < j { LoweringAt(run, ls, hf, a, j, b); }
    }
    LoweringAt(run, ls, hf, a, b, b);
  }

  /** The other steps of a run: a removal takes exactly its key away, at once; a grow or a reset
    publishes its new table, which stands for the same or, after a reset, for nothing; and readers change nothing. */
  lemma OthersTakeEffect(run: seq<State>, ls: seq<Label>, hf: int -> Hash, a: nat)
    requires IsRun(run, ls, hf) && a < |ls|
    ensures !run[a].m.w.Idle? && ls[a].Writes? ==> ls[a].a.Advance?
    ensures !ls[a].Writes? ==> run[a + 1].m == run[a].m
    ensures ls[a].Writes? && ls[a].a.Remove? ==> run[a + 1].m.w.Idle? && run[a + 1].m.model == run[a].m.model - {ls[a].a.key}
    ensures ls[a].Writes? && ls[a].a.Publish? ==>
              && run[a + 1].m.w.Idle? && |run[a + 1].m.maps| > 0 && Cur(run[a + 1].m).t == ls[a].a.u
              && (run[a + 1].m.model == run[a].m.model || run[a + 1].m.model == map[])
  {
    RunInv(run, ls, hf, a);
    assert Machine.StepAt(Moves(hf), run, ls, a);
    if ls[a].Writes? && ls[a].a.Remove? {
      assert Placed(run[a].m.base, hf, ls[a].a.key, run[a].m.bpos[ls[a].a.key]);
    }
  }

  // ---------------------------------------------------------------- how long an operation of the writer takes

  /** How many more stores the writer has to make. */
  ghost function Stores(w: Writer): nat {
    match w
    case Idle => 0
    case RaiseMax(op) => if op.bury.Some? then 5 else 3
    case RaiseWord(op) => if op.bury.Some? then 4 else 2
    case Write(op) => if op.bury.Some? then 3 else 1
    case Signal(_) => 2
    case Bury(_) => 1
    case Lower(_, bounds, i) => if bounds.Some? && i <= |bounds.value| then |bounds.value| - i + 1 else 1
  }

  ghost function ByWriter(): Label -> bool {
    (l: Label) => l.Writes?
  }

  ghost predicate Busy(run: seq<State>, a: nat, n: nat) {
    a < n < |run| && forall j | a < j < n :: !run[j].m.w.Idle?
  }

  lemma StoringFalls(m: Shared, hf: int -> Hash)
    requires |m.maps| > 0 && !m.w.Idle? && !m.w.Lower? && m.w.op.n > 0 && Form(Cur(m).t)
    requires m.w.Signal? || m.w.Bury? ==> m.w.op.bury.Some?
    ensures Stores(Proceed(m, hf).w) < Stores(m.w)
  {
  }

  lemma StoresFall(m: Shared, hf: int -> Hash)
    requires SharedInv(m, hf) && !m.w.Idle?
    ensures Stores(Proceed(m, hf).w) < Stores(m.w)
  {
    if !m.w.Lower? { StoringFalls(m, hf); }
  }

  /** The writer waits for no reader: however many calls are in progress, what it has begun is over after at
    most five steps, or one for each bound that it lowers and one more. */
  lemma WriterEnds(run: seq<State>, ls: seq<Label>, hf: int -> Hash, a: nat, n: nat)
    requires IsRun(run, ls, hf) && Busy(run, a, n) && ls[a].Writes? && (ls[a].a.Begin? || ls[a].a.BeginLower?)
    ensures Machine.Count(ByWriter(), ls, a + 1, n) + Stores(run[n].m.w) <= Stores(run[a + 1].m.w)
    ensures Stores(run[a + 1].m.w) <=
            if ls[a].a.Begin? then 5 else if ls[a].a.bounds.Some? then |ls[a].a.bounds.value| + 1 else 1
    ensures !run[n].m.w.Idle? ==> Stores(run[n].m.w) > 0 && CanAct(run[n].m, hf, Advance)
  {
    var rank := (s: State) => Stores(s.m.w);
    forall j: nat | a + 1 <= j < n ensures Machine.Falls(rank, ByWriter(), run, ls, j) {
      RunInv(run, ls, hf, j);
      assert Machine.StepAt(Moves(hf), run, ls, j);
      StoresFall(run[j].m, hf);
    }
    Machine.Bounded(rank, ByWriter(), run, ls, a + 1, n);
    RunInv(run, ls, hf, n);
    assert Machine.StepAt(Moves(hf), run, ls, a);
  }

  // ---------------------------------------------------------------- how long a get takes

  /** The bound that a get of hash h computes if it loads both parts of it from map x now. */
  ghost function Reach(x: Map, h: nat): nat {
    if Form(x.t) && x.t.bounds.Some? && Word(x.t, h) != WORD_MAX then Word(x.t, h) else x.t.maximum
  }

  /** How many loads a get has to make if it starts now, and the writer leaves the set alone. */
  ghost function Whole(m: Shared, h: nat): nat
    requires |m.maps| > 0
  {
    Reach(Cur(m), h) + 6
  }

  /** How many it has to make from where it is: a generation that has changed makes it start over once. */
  ghost function Loads(m: Shared, hf: int -> Hash, r: Reader): nat
    requires |m.maps| > 0
  {
    var h := hf(r.key);
    match r.pc
    case LoadMap => Whole(m, h)
    case LoadGen(mi) => if mi < |m.maps| then Reach(m.maps[mi], h) + 5 else 0
    case LoadWord(mi, g) => if mi < |m.maps| then Reach(m.maps[mi], h) + 4 + Again(m, mi, h, g) else 0
    case LoadMax(mi, g) => if mi < |m.maps| then m.maps[mi].t.maximum + 3 + Again(m, mi, h, g) else 0
    case Scan(mi, g, b, p) => if mi < |m.maps| && p <= b + 1 then b + 1 - p + 2 + Again(m, mi, h, g) else 0
    case Check(mi, g, _) => if mi < |m.maps| then 1 + Again(m, mi, h, g) else 0
    case Done(_) => 0
  }

  ghost function Again(m: Shared, mi: nat, h: nat, g: nat): nat
    requires mi < |m.maps|
  {
    if Gen(m.maps[mi], h) == g then 0 else Whole(m, h)
  }

  lemma LoadsFall(m: Shared, hf: int -> Hash, r: Reader)
    requires SharedInv(m, hf) && ReaderInv(m, hf, r) && !r.pc.Done?
    ensures Loads(m, hf, r.(pc := Get(m, hf, r))) < Loads(m, hf, r)
  {
    CurReadable(m, hf);
    if r.pc.LoadWord? || r.pc.Scan? { MapReadable(m, hf, r.pc.mi); }
  }

  ghost function LoadOf(i: nat): Label -> bool {
    (l: Label) => l == Reads(i)
  }

  /** The same as a rank of states. */
  ghost function LoadsOf(s: State, hf: int -> Hash, i: nat): nat {
    if |s.m.maps| > 0 && i < |s.rs| then Loads(s.m, hf, s.rs[i]) else 0
  }

  ghost function LoadRank(hf: int -> Hash, i: nat): State -> nat {
    (s: State) => LoadsOf(s, hf, i)
  }

  lemma LoadStep(s: State, l: Label, s': State, hf: int -> Hash, i: nat)
    requires Inv(s, hf) && Next(s, l, s', hf) && !l.Writes? && i < |s.rs| && !s.rs[i].pc.Done?
    ensures s'.m == s.m && i < |s'.rs|
    ensures if l == Reads(i) then LoadsOf(s', hf, i) < LoadsOf(s, hf, i) else LoadsOf(s', hf, i) <= LoadsOf(s, hf, i)
  {
    assert Known(s.m, hf, s.rs[i]);
    LoadsFall(s.m, hf, s.rs[i]);
  }

  lemma LoadsLeft(run: seq<State>, ls: seq<Label>, hf: int -> Hash, i: nat, n: nat)
    requires IsRun(run, ls, hf) && n < |run| && i < |run[n].rs|
    ensures !run[n].rs[i].pc.Done? ==> LoadRank(hf, i)(run[n]) > 0
  {
    RunInv(run, ls, hf, n);
    assert Known(run[n].m, hf, run[n].rs[i]);
  }

  /** Call i is in progress, and the writer makes no store, from step a up to step n. */
  ghost predicate Undisturbed(run: seq<State>, ls: seq<Label>, i: nat, a: nat, n: nat) {
    && a <= n < |run| == |ls| + 1
    && forall j | a <= j < n :: !ls[j].Writes? && i < |run[j].rs| && !run[j].rs[i].pc.Done?
  }

  lemma UndisturbedStep(run: seq<State>, ls: seq<Label>, hf: int -> Hash, i: nat, a: nat, n: nat, j: nat)
    requires IsRun(run, ls, hf) && Undisturbed(run, ls, i, a, n) && a <= j < n
    ensures run[j + 1].m == run[j].m && i < |run[j + 1].rs|
    ensures Machine.Falls(LoadRank(hf, i), LoadOf(i), run, ls, j)
  {
    RunInv(run, ls, hf, j);
    assert Machine.StepAt(Moves(hf), run, ls, j);
    LoadStep(run[j], ls[j], run[j + 1], hf, i);
  }

  /** While the writer makes no store, every get gets on, no matter what the other readers do: the loads that
    it has made and those that it has still to make come to no more than was clear from the start. */
  lemma GetFalls(run: seq<State>, ls: seq<Label>, hf: int -> Hash, i: nat, a: nat, n: nat)
    requires IsRun(run, ls, hf) && Undisturbed(run, ls, i, a, n)
    ensures Machine.Count(LoadOf(i), ls, a, n) + LoadRank(hf, i)(run[n]) <= LoadRank(hf, i)(run[a])
  {
    forall j: nat | a <= j < n ensures Machine.Falls(LoadRank(hf, i), LoadOf(i), run, ls, j) {
      UndisturbedStep(run, ls, hf, i, a, n, j);
    }
    Machine.Bounded(LoadRank(hf, i), LoadOf(i), run, ls, a, n);
  }

  lemma {:induction false} ReadersStay(run: seq<State>, ls: seq<Label>, hf: int -> Hash, i: nat, a: nat, n: nat)
    requires IsRun(run, ls, hf) && a <= n < |run| && i < |run[a].rs|
    ensures i < |run[n].rs|
  {
    if a < n {
      ReadersStay(run, ls, hf, i, a, n - 1);
      assert Machine.StepAt(Moves(hf), run, ls, n - 1);
    }
  }

  /** So a get that has made that many loads has its answer. */
  lemma GetEnds(run: seq<State>, ls: seq<Label>, hf: int -> Hash, i: nat, a: nat, n: nat)
    requires IsRun(run, ls, hf) && Undisturbed(run, ls, i, a, n) && i < |run[a].rs|
    requires Machine.Count(LoadOf(i), ls, a, n) >= LoadRank(hf, i)(run[a])
    ensures i < |run[n].rs| && run[n].rs[i].pc.Done?
  {
    GetFalls(run, ls, hf, i, a, n);
    ReadersStay(run, ls, hf, i, a, n);
    LoadsLeft(run, ls, hf, i, n);
  }
}
