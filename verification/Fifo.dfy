/** The multi-producer multi-consumer queue of include/ck_fifo.h.

  A state is the shared memory plus one program counter per thread; a step is one `ck_pr` load,
  store or compare-and-swap. A node that a dequeue has unlinked is free at once, so any thread may
  enqueue it again while others still hold stale snapshots of it.

  `chain`, `vals` and `place` are history variables: the nodes in the order in which they were
  linked, the values they carried, and who holds a node now. No access reads them. */
module Fifo {
  import opened Prelude
  import Machine

  type Value = int
  type Node = nat

  datatype Cell = Cell(value: Value, next: Option<Node>, gen: nat)
  datatype Link = Link(ptr: Node, gen: nat)
  datatype Answer = NoAnswer | Enqueued | Dequeued(value: Value, garbage: Node) | Empty

  /** Where a thread stands: each constructor names the access that is due next, its parameters are
    the local variables that are still needed. */
  datatype Pc =
    | Idle(answer: Answer)
    | StoreValue(n: Node, v: Value)
    | StoreNext(n: Node, v: Value)
    | LoadFirstGen(n: Node, v: Value)
    | StoreGen(n: Node, v: Value, g: nat)
    | LoadTailGen(n: Node, v: Value)
    | LoadTailPtr(n: Node, v: Value, tg: nat)
    | LoadNextGen(n: Node, v: Value, tg: nat, tp: Node)
    | LoadNextPtr(n: Node, v: Value, tg: nat, tp: Node, ng: nat)
    | CheckTail(n: Node, v: Value, tg: nat, tp: Node, ng: nat, np: Option<Node>)
    | HelpTail(n: Node, v: Value, tg: nat, tp: Node, help: Node)
    | LinkEntry(n: Node, v: Value, tg: nat, tp: Node, ng: nat)
    | SwingTail(n: Node, tg: nat, tp: Node)
    | DeqHeadGen
    | DeqHeadPtr(hg: nat)
    | DeqTailGen(hg: nat, hp: Node)
    | DeqTailPtr(hg: nat, hp: Node, tg: nat)
    | DeqNextGen(hg: nat, hp: Node, tg: nat, tp: Node)
    | DeqNextPtr(hg: nat, hp: Node, tg: nat, tp: Node)
    | DeqCheckHead(hg: nat, sawEmpty: bool)
    | DeqHelpTail(tg: nat, tp: Node, help: Node)
    | DeqLoadValue(hg: nat, hp: Node, nx: Node)
    | DeqSwingHead(hg: nat, hp: Node, nx: Node, v: Value)

  /** A node is not in use, or thread `tid` is about to enqueue it, or it is the node at index `at`
    of the list (counting the stub that the head points to). */
  datatype Place = Unused | Held(tid: nat) | Listed(at: nat)

  /** Shared memory, and the history variables. */
  datatype Shared = Shared(mem: seq<Cell>, head: Link, tail: Link,
                           chain: seq<Node>, vals: seq<Value>, place: seq<Place>)

  datatype State = State(m: Shared, pcs: seq<Pc>)

  /** The queue contents according to the history variables. */
  ghost function Contents(m: Shared): seq<Value> {
    if m.head.gen < |m.vals| then m.vals[m.head.gen + 1..] else []
  }

  /** The list that memory holds behind node `p` carries exactly the values `q`. */
  ghost predicate Holds(mem: seq<Cell>, p: Node, q: seq<Value>)
    decreases |q|
  {
    && p < |mem|
    && if q == [] then mem[p].next == None
       else mem[p].next.Some? && var n := mem[p].next.value;
            n < |mem| && mem[n].value == q[0] && Holds(mem, n, q[1..])
  }

  // ---------------------------------------------------------------- steps

  /** The node a thread is about to enqueue and still owns. */
  ghost function Entry(pc: Pc): Option<Node> {
    if pc.StoreValue? || pc.StoreNext? || pc.LoadFirstGen? || pc.StoreGen? || pc.LoadTailGen?
       || pc.LoadTailPtr? || pc.LoadNextGen? || pc.LoadNextPtr? || pc.CheckTail? || pc.HelpTail?
       || pc.LinkEntry?
    then Some(pc.n) else None
  }

  ghost predicate Init(s: State) {
    var m := s.m;
    && m.head == m.tail == Link(m.head.ptr, 0)
    && m.head.ptr < |m.mem|
    && m.mem[m.head.ptr].next == None && m.mem[m.head.ptr].gen == 0
    && m.chain == [m.head.ptr] && |m.vals| == 1
    && |m.place| == |m.mem|
    && (forall n | 0 <= n < |m.mem| :: m.place[n] == if n == m.head.ptr then Listed(0) else Unused)
    && (forall n | 0 <= n < |m.mem| && m.mem[n].next.Some? :: m.mem[n].next.value < |m.mem|)
    && (forall t | 0 <= t < |s.pcs| :: s.pcs[t] == Idle(NoAnswer))
  }

  /** Every access that is due stays inside memory. */
  ghost predicate InRange(m: Shared, pc: Pc) {
    && (pc.LoadNextGen? || pc.LoadNextPtr? || pc.LinkEntry? ==> pc.tp < |m.mem|)
    && (pc.DeqNextGen? || pc.DeqNextPtr? ==> pc.hp < |m.mem|)
    && (pc.DeqLoadValue? ==> pc.nx < |m.mem|)
    && (Entry(pc).Some? ==> Entry(pc).value < |m.mem|)
    && m.head.gen < |m.vals| && |m.place| == |m.mem|
    && (pc.DeqSwingHead? ==> pc.hp < |m.mem|)
  }

  /** `ck_pr_cas_ptr_2` on the tail. */
  ghost function CasTail(m: Shared, expected: Link, update: Link): Shared {
    if m.tail == expected then m.(tail := update) else m
  }

  /** The next access of a thread inside `ck_fifo_mpmc_enqueue`. */
  ghost function EnqueueStep(m: Shared, pc: Pc): (Shared, Pc)
    requires InRange(m, pc)
  {
    match pc
    case StoreValue(n, v) => (m.(mem := m.mem[n := m.mem[n].(value := v)]), StoreNext(n, v))
    case StoreNext(n, v) => (m.(mem := m.mem[n := m.mem[n].(next := None)]), LoadFirstGen(n, v))
    case LoadFirstGen(n, v) => (m, StoreGen(n, v, m.tail.gen))
    case StoreGen(n, v, g) => (m.(mem := m.mem[n := m.mem[n].(gen := g)]), LoadTailGen(n, v))
    case LoadTailGen(n, v) => (m, LoadTailPtr(n, v, m.tail.gen))
    case LoadTailPtr(n, v, tg) => (m, LoadNextGen(n, v, tg, m.tail.ptr))
    case LoadNextGen(n, v, tg, tp) => (m, LoadNextPtr(n, v, tg, tp, m.mem[tp].gen))
    case LoadNextPtr(n, v, tg, tp, ng) => (m, CheckTail(n, v, tg, tp, ng, m.mem[tp].next))
    case CheckTail(n, v, tg, tp, ng, np) =>
      if m.tail.gen != tg then (m, LoadTailGen(n, v))
      else if np.Some? then (m, HelpTail(n, v, tg, tp, np.value))
      else (m, LinkEntry(n, v, tg, tp, ng))
    case HelpTail(n, v, tg, tp, help) =>
      (CasTail(m, Link(tp, tg), Link(help, tg + 1)), LoadTailGen(n, v))
    case LinkEntry(n, v, tg, tp, ng) =>
      if m.mem[tp].next == None && m.mem[tp].gen == ng then
        (m.(mem := m.mem[tp := m.mem[tp].(next := Some(n), gen := ng + 1)],
            chain := m.chain + [n], vals := m.vals + [v],
            place := m.place[n := Listed(|m.chain|)]),
         SwingTail(n, tg, tp))
      else (m, LoadTailGen(n, v))
    case SwingTail(n, tg, tp) =>
      (CasTail(m, Link(tp, tg), Link(n, tg + 1)), Idle(Enqueued))
    case _ => (m, pc)
  }

  /** The next access of a thread inside `ck_fifo_mpmc_dequeue`. */
  ghost function DequeueStep(m: Shared, pc: Pc): (Shared, Pc)
    requires InRange(m, pc)
  {
    match pc
    case DeqHeadGen => (m, DeqHeadPtr(m.head.gen))
    case DeqHeadPtr(hg) => (m, DeqTailGen(hg, m.head.ptr))
    case DeqTailGen(hg, hp) => (m, DeqTailPtr(hg, hp, m.tail.gen))
    case DeqTailPtr(hg, hp, tg) => (m, DeqNextGen(hg, hp, tg, m.tail.ptr))
    case DeqNextGen(hg, hp, tg, tp) => (m, DeqNextPtr(hg, hp, tg, tp))
    case DeqNextPtr(hg, hp, tg, tp) =>
      var np := m.mem[hp].next;
      if hp == tp then
        if np == None then (m, DeqCheckHead(hg, Contents(m) == []))
        else (m, DeqHelpTail(tg, tp, np.value))
      else if np == None then (m, DeqHeadGen)
      else (m, DeqLoadValue(hg, hp, np.value))
    case DeqCheckHead(hg, _) =>
      (m, if m.head.gen != hg then DeqHeadGen else Idle(Empty))
    case DeqHelpTail(tg, tp, help) =>
      (CasTail(m, Link(tp, tg), Link(help, tg + 1)), DeqHeadGen)
    case DeqLoadValue(hg, hp, nx) => (m, DeqSwingHead(hg, hp, nx, m.mem[nx].value))
    case DeqSwingHead(hg, hp, nx, v) =>
      if m.head == Link(hp, hg) then
        (m.(head := Link(nx, hg + 1), place := m.place[hp := Unused]), Idle(Dequeued(v, hp)))
      else (m, DeqHeadGen)
    case _ => (m, pc)
  }

  /** Thread t performs the access that is due. */
  ghost predicate Runs(s: State, t: nat, s': State) {
    && t < |s.pcs| && InRange(s.m, s.pcs[t])
    && var (m', pc') := if EnqueueStep(s.m, s.pcs[t]).1 != s.pcs[t] then EnqueueStep(s.m, s.pcs[t])
                        else DequeueStep(s.m, s.pcs[t]);
       s' == State(m', s.pcs[t := pc'])
  }

  /** A caller invokes `ck_fifo_mpmc_enqueue` with any node that is not in use. */
  ghost predicate CallEnqueue(s: State, t: nat, n: Node, v: Value, s': State) {
    && t < |s.pcs| && s.pcs[t].Idle? && n < |s.m.place| && s.m.place[n] == Unused
    && s' == State(s.m.(place := s.m.place[n := Held(t)]), s.pcs[t := StoreValue(n, v)])
  }

  ghost predicate CallDequeue(s: State, t: nat, s': State) {
    t < |s.pcs| && s.pcs[t].Idle? && s' == s.(pcs := s.pcs[t := DeqHeadGen])
  }

  /** What the scheduler picks: a new call by an idle thread, or the next access of a thread. */
  datatype Label = EnqueueCall(t: nat, n: Node, v: Value) | DequeueCall(t: nat) | Access(t: nat)

  ghost predicate Next(s: State, l: Label, s': State) {
    match l
    case EnqueueCall(t, n, v) => CallEnqueue(s, t, n, v, s')
    case DequeueCall(t) => CallDequeue(s, t, s')
    case Access(t) => Runs(s, t, s')
  }

  // ---------------------------------------------------------------- invariant

  /** Index of the last node that was linked. */
  ghost function Last(m: Shared): int { |m.chain| - 1 }

  ghost predicate Shape(m: Shared) {
    && |m.vals| == |m.chain| && |m.place| == |m.mem|
    && m.head.gen <= m.tail.gen <= Last(m) <= m.tail.gen + 1
    && m.head.ptr == m.chain[m.head.gen]
    && m.tail.ptr == m.chain[m.tail.gen]
    && (forall i | 0 <= i < |m.chain| :: m.chain[i] < |m.mem|)
    && (forall n | 0 <= n < |m.mem| && m.mem[n].next.Some? :: m.mem[n].next.value < |m.mem|)
  }

  /** What memory holds for the node at index i of the list. */
  ghost predicate CellOk(m: Shared, i: nat)
    requires Shape(m) && m.head.gen <= i <= Last(m)
  {
    var c := m.mem[m.chain[i]];
    && m.place[m.chain[i]] == Listed(i)
    && (i > m.head.gen ==> c.value == m.vals[i])
    && c.next == (if i < Last(m) then Some(m.chain[i + 1]) else None)
    && (i == Last(m) ==> c.gen <= (if i == 0 then 0 else i - 1))
  }

  ghost predicate SharedInv(m: Shared) {
    && Shape(m)
    && (forall i: nat | m.head.gen <= i <= Last(m) :: CellOk(m, i))
    && (forall n | 0 <= n < |m.mem| && m.place[n].Listed?  ::
          m.head.gen <= m.place[n].at <= Last(m) && m.chain[m.place[n].at] == n)
    && (forall i | 0 <= i <= Last(m) :: m.mem[m.chain[i]].gen <= (if m.tail.gen == 0 then 1 else m.tail.gen))
  }

  /** The snapshot (NULL, ng) of tp's next field, taken while tp was the node at index tg, is
    either still current with nothing linked behind tp, or can never match again. */
  ghost predicate Snapshot(m: Shared, tg: nat, tp: Node, ng: nat) {
    && tg < |m.chain| && tp < |m.mem| && tp == m.chain[tg]
    && (if Last(m) == tg then m.mem[tp].gen == ng else m.mem[tp].gen > ng)
  }

  ghost predicate Prepared(m: Shared, n: Node, v: Value) {
    n < |m.mem| && m.mem[n].next == None && m.mem[n].value == v && m.mem[n].gen <= m.tail.gen
  }

  ghost predicate LinkedAt(m: Shared, i: nat, n: Node) {
    i < |m.chain| && m.chain[i] == n
  }

  /** Every incarnation of n that was ever linked satisfies the bound on its generation. */
  ghost predicate GenBelow(m: Shared, n: Node, g: nat) {
    n < |m.mem| && forall i | 0 <= i < |m.chain| && m.chain[i] == n :: m.mem[n].gen <= g
  }

  ghost predicate EnqueueInv(m: Shared, pc: Pc)
    requires Shape(m)
  {
    match pc
    case StoreValue(n, v) => n < |m.mem|
    case StoreNext(n, v) => n < |m.mem| && m.mem[n].value == v
    case LoadFirstGen(n, v) => n < |m.mem| && m.mem[n].value == v && m.mem[n].next == None
    case StoreGen(n, v, g) =>
      GenBelow(m, n, g) && g <= m.tail.gen && m.mem[n].value == v && m.mem[n].next == None
    case LoadTailGen(n, v) => Prepared(m, n, v)
    case LoadTailPtr(n, v, tg) => Prepared(m, n, v) && tg <= m.tail.gen
    case LoadNextGen(n, v, tg, tp) =>
      && Prepared(m, n, v) && tg <= m.tail.gen && tp < |m.mem|
      && (tg == m.tail.gen ==> tp == m.tail.ptr)
    case LoadNextPtr(n, v, tg, tp, ng) =>
      && Prepared(m, n, v) && tg <= m.tail.gen && tp < |m.mem|
      && (tg == m.tail.gen ==> LinkedAt(m, tg, tp) && (Last(m) == tg ==> m.mem[tp].gen == ng))
    case CheckTail(n, v, tg, tp, ng, np) =>
      && Prepared(m, n, v) && tg <= m.tail.gen && tp < |m.mem|
      && (tg == m.tail.gen ==>
            && LinkedAt(m, tg, tp)
            && (np == None ==> Snapshot(m, tg, tp, ng))
            && (np.Some? ==> LinkedAt(m, tg + 1, np.value)))
    case HelpTail(n, v, tg, tp, help) =>
      Prepared(m, n, v) && LinkedAt(m, tg, tp) && LinkedAt(m, tg + 1, help)
    case LinkEntry(n, v, tg, tp, ng) =>
      Prepared(m, n, v) && tg <= m.tail.gen && Snapshot(m, tg, tp, ng)
    case SwingTail(n, tg, tp) => LinkedAt(m, tg, tp) && LinkedAt(m, tg + 1, n)
    case _ => true
  }

  ghost predicate HeadSnapshot(m: Shared, hg: nat, hp: Node) {
    hg <= m.head.gen && hp < |m.mem| && (hg == m.head.gen ==> hp == m.head.ptr)
  }

  ghost predicate TailSnapshot(m: Shared, hg: nat, hp: Node, tg: nat, tp: Node) {
    && tg <= m.tail.gen
    && (tg == m.tail.gen ==> tp == m.tail.ptr)
    && (hg == m.head.gen && tp != hp ==> hg < m.tail.gen)
  }

  ghost predicate DequeueInv(m: Shared, pc: Pc)
    requires Shape(m)
  {
    match pc
    case DeqHeadPtr(hg) => hg <= m.head.gen
    case DeqTailGen(hg, hp) => HeadSnapshot(m, hg, hp)
    case DeqTailPtr(hg, hp, tg) => HeadSnapshot(m, hg, hp) && tg <= m.tail.gen
    case DeqNextGen(hg, hp, tg, tp) => HeadSnapshot(m, hg, hp) && TailSnapshot(m, hg, hp, tg, tp)
    case DeqNextPtr(hg, hp, tg, tp) => HeadSnapshot(m, hg, hp) && TailSnapshot(m, hg, hp, tg, tp)
    case DeqCheckHead(hg, sawEmpty) => hg <= m.head.gen && (hg == m.head.gen ==> sawEmpty)
    case DeqHelpTail(tg, tp, help) =>
      tg <= m.tail.gen && (tg == m.tail.gen ==> LinkedAt(m, tg + 1, help))
    case DeqLoadValue(hg, hp, nx) =>
      && hg <= m.head.gen && hp < |m.mem| && nx < |m.mem|
      && (hg == m.head.gen ==> hg < m.tail.gen && LinkedAt(m, hg + 1, nx))
    case DeqSwingHead(hg, hp, nx, v) =>
      && hg <= m.head.gen && hp < |m.mem| && nx < |m.mem|
      && (hg == m.head.gen ==> hg < m.tail.gen && LinkedAt(m, hg + 1, nx) && m.vals[hg + 1] == v)
    case _ => true
  }

  /** An entry under preparation is held by the thread that prepares it. */
  ghost predicate ThreadInv(m: Shared, t: nat, pc: Pc) {
    && Shape(m) && EnqueueInv(m, pc) && DequeueInv(m, pc)
    && (Entry(pc).Some? ==> m.place[Entry(pc).value] == Held(t))
  }

  ghost predicate Inv(s: State) {
    SharedInv(s.m) && forall t: nat | t < |s.pcs| :: ThreadInv(s.m, t, s.pcs[t])
  }

  /** What a step of thread t may do to anything that another thread's assertions mention. */
  ghost predicate Rely(m: Shared, t: nat, m': Shared) {
    && Shape(m) && Shape(m') && |m'.mem| == |m.mem|
    && |m.chain| <= |m'.chain|
    && (forall i | 0 <= i < |m.chain| :: m'.chain[i] == m.chain[i] && m'.vals[i] == m.vals[i])
    && m.head.gen <= m'.head.gen && m.tail.gen <= m'.tail.gen
    && (forall i | 0 <= i < |m.chain| :: m.mem[m.chain[i]].gen <= m'.mem[m.chain[i]].gen)
    && (forall i | |m.chain| <= i < |m'.chain| :: m'.place[m'.chain[i]].Listed?)
    && (forall n | 0 <= n < |m.mem| && m.place[n].Held? && m.place[n].tid != t ::
          m'.place[n] == m.place[n] && m'.mem[n] == m.mem[n])
    && var n := m.chain[Last(m)];
       if |m'.chain| == |m.chain| then m'.mem[n].gen == m.mem[n].gen
       else m'.mem[n].gen > m.mem[n].gen
  }

  /** No other thread's assertions can be broken by a step. */
  lemma Stable(m: Shared, t: nat, m': Shared, u: nat, pc: Pc)
    requires Rely(m, t, m') && ThreadInv(m, u, pc) && u != t
    ensures ThreadInv(m', u, pc)
  {
  }

  /** No access leaves memory. */
  lemma NothingOutOfRange(m: Shared, t: nat, pc: Pc)
    requires SharedInv(m) && ThreadInv(m, t, pc)
    ensures InRange(m, pc)
  {
  }

  lemma InitInv(s: State)
    requires Init(s)
    ensures Inv(s)
  {
  }

  lemma KeepCells(m: Shared, m': Shared)
    requires SharedInv(m) && Shape(m') && m'.chain == m.chain && m'.vals == m.vals
    requires m.head.gen <= m'.head.gen
    requires forall i | m'.head.gen <= i <= Last(m) ::
               m'.mem[m.chain[i]] == m.mem[m.chain[i]] && m'.place[m.chain[i]] == m.place[m.chain[i]]
    ensures forall i: nat | m'.head.gen <= i <= Last(m') :: CellOk(m', i)
  {
    forall i: nat | m'.head.gen <= i <= Last(m') ensures CellOk(m', i) {
      assert CellOk(m, i);
    }
  }

  /** A thread writes to the entry it is preparing. */
  lemma OwnWrite(m: Shared, t: nat, n: Node, c: Cell, m': Shared)
    requires SharedInv(m)
    requires n < |m.mem| && m.place[n] == Held(t)
    requires c.next.Some? ==> c.next.value < |m.mem|
    requires GenBelow(m, n, c.gen) && (c.gen == m.mem[n].gen || c.gen <= m.tail.gen)
    requires m' == m.(mem := m.mem[n := c])
    ensures Rely(m, t, m') && SharedInv(m')
  {
    forall i: nat | m.head.gen <= i <= Last(m) ensures m.chain[i] != n {
      assert CellOk(m, i);
    }
    KeepCells(m, m');
  }

  lemma ForwardTail(m: Shared, t: nat, e: Link, help: Node)
    requires SharedInv(m)
    requires e.gen == m.tail.gen ==> LinkedAt(m, e.gen + 1, help)
    ensures var m' := CasTail(m, e, Link(help, e.gen + 1)); Rely(m, t, m') && SharedInv(m')
  {
    KeepCells(m, CasTail(m, e, Link(help, e.gen + 1)));
  }

  /** A compare-and-swap on a next field succeeds only on the node that is the last one now. */
  lemma LinkIsCurrent(m: Shared, tg: nat, tp: Node, ng: nat)
    requires SharedInv(m)
    requires tg <= m.tail.gen && Snapshot(m, tg, tp, ng) && m.mem[tp].gen == ng
    ensures tg == Last(m) == m.tail.gen
    ensures ng + 1 <= (if tg == 0 then 1 else tg)
  {
    assert CellOk(m, tg);
  }

  lemma LinkAdvances(m: Shared, t: nat, n: Node, v: Value, tp: Node, m': Shared)
    requires SharedInv(m)
    requires Prepared(m, n, v) && m.place[n] == Held(t)
    requires tp == m.chain[Last(m)] && m.tail.gen == Last(m)
    requires m.mem[tp].gen + 1 <= (if Last(m) == 0 then 1 else Last(m))
    requires m' == m.(mem := m.mem[tp := m.mem[tp].(next := Some(n), gen := m.mem[tp].gen + 1)],
                      chain := m.chain + [n], vals := m.vals + [v],
                      place := m.place[n := Listed(|m.chain|)])
    ensures Rely(m, t, m') && SharedInv(m')
  {
    assert CellOk(m, Last(m));
    forall i: nat | m'.head.gen <= i <= Last(m') ensures CellOk(m', i) {
      if i <= Last(m) { assert CellOk(m, i); }
    }
  }

  /** Unlinking: a successful compare-and-swap on the head removes the oldest node. */
  lemma UnlinkAdvances(m: Shared, t: nat, hg: nat, hp: Node, nx: Node, m': Shared)
    requires SharedInv(m) && m.head == Link(hp, hg)
    requires hg < m.tail.gen && LinkedAt(m, hg + 1, nx)
    requires m' == m.(head := Link(nx, hg + 1), place := m.place[hp := Unused])
    ensures Rely(m, t, m') && SharedInv(m')
  {
    assert CellOk(m, hg);
    forall i: nat | hg < i <= Last(m) ensures m.chain[i] != hp {
      assert CellOk(m, i);
    }
    KeepCells(m, m');
  }

  /** Loads, and compare-and-swaps that fail, leave memory alone. */
  lemma EnqueueLoadKeeps(m: Shared, t: nat, pc: Pc)
    requires Shape(m) && ThreadInv(m, t, pc) && InRange(m, pc)
    requires EnqueueStep(m, pc).0 == m && !pc.SwingTail? && !pc.LoadFirstGen? && !pc.LoadNextPtr?
    ensures ThreadInv(m, t, EnqueueStep(m, pc).1)
  {
  }

  lemma LoadFirstGenKeeps(m: Shared, t: nat, pc: Pc)
    requires SharedInv(m) && ThreadInv(m, t, pc) && pc.LoadFirstGen?
    ensures ThreadInv(m, t, StoreGen(pc.n, pc.v, m.tail.gen))
  {
    if m.tail.gen == 0 {
      assert CellOk(m, 0);
      if Last(m) == 1 { assert CellOk(m, 1); }
    }
  }

  lemma LoadNextPtrKeeps(m: Shared, t: nat, pc: Pc)
    requires SharedInv(m) && ThreadInv(m, t, pc) && pc.LoadNextPtr?
    ensures ThreadInv(m, t, CheckTail(pc.n, pc.v, pc.tg, pc.tp, pc.ng, m.mem[pc.tp].next))
  {
    if pc.tg == m.tail.gen { assert CellOk(m, pc.tg); }
  }

  /** The invariant follows from what a step does to memory and to its own thread. */
  lemma Compose(s: State, t: nat, m': Shared, pc': Pc)
    requires Inv(s) && t < |s.pcs|
    requires Rely(s.m, t, m') && SharedInv(m') && ThreadInv(m', t, pc')
    ensures Inv(State(m', s.pcs[t := pc']))
  {
    forall u: nat | u < |s.pcs| && u != t ensures ThreadInv(m', u, s.pcs[u]) {
      Stable(s.m, t, m', u, s.pcs[u]);
    }
  }

  lemma PrepareInv(s: State, t: nat)
    requires Inv(s) && t < |s.pcs|
    requires s.pcs[t].StoreValue? || s.pcs[t].StoreNext? || s.pcs[t].StoreGen?
    ensures var (m', pc') := EnqueueStep(s.m, s.pcs[t]); Inv(State(m', s.pcs[t := pc']))
  {
    var pc := s.pcs[t];
    var (m', pc') := EnqueueStep(s.m, pc);
    OwnWrite(s.m, t, pc.n, m'.mem[pc.n], m');
    Compose(s, t, m', pc');
  }

  lemma TailInv(s: State, t: nat, e: Link, help: Node, pc': Pc)
    requires Inv(s) && t < |s.pcs| && ThreadInv(s.m, t, pc')
    requires e.gen == s.m.tail.gen ==> LinkedAt(s.m, e.gen + 1, help)
    ensures Inv(State(CasTail(s.m, e, Link(help, e.gen + 1)), s.pcs[t := pc']))
  {
    var m' := CasTail(s.m, e, Link(help, e.gen + 1));
    ForwardTail(s.m, t, e, help);
    Stable(s.m, t + 1, m', t, pc');
    Compose(s, t, m', pc');
  }

  lemma LinkInv(s: State, t: nat)
    requires Inv(s) && t < |s.pcs| && s.pcs[t].LinkEntry?
    requires s.m.mem[s.pcs[t].tp].next == None && s.m.mem[s.pcs[t].tp].gen == s.pcs[t].ng
    ensures var (m', pc') := EnqueueStep(s.m, s.pcs[t]); Inv(State(m', s.pcs[t := pc']))
  {
    var pc := s.pcs[t];
    var (m', pc') := EnqueueStep(s.m, pc);
    LinkIsCurrent(s.m, pc.tg, pc.tp, pc.ng);
    LinkAdvances(s.m, t, pc.n, pc.v, pc.tp, m');
    Compose(s, t, m', pc');
  }

  lemma UnlinkInv(s: State, t: nat)
    requires Inv(s) && t < |s.pcs| && s.pcs[t].DeqSwingHead?
    requires s.m.head == Link(s.pcs[t].hp, s.pcs[t].hg)
    ensures var (m', pc') := DequeueStep(s.m, s.pcs[t]); Inv(State(m', s.pcs[t := pc']))
  {
    var pc := s.pcs[t];
    var (m', pc') := DequeueStep(s.m, pc);
    UnlinkAdvances(s.m, t, pc.hg, pc.hp, pc.nx, m');
    Compose(s, t, m', pc');
  }

  /** A step that only moves the thread's own program counter. */
  lemma ObserveInv(s: State, t: nat, pc': Pc)
    requires Inv(s) && t < |s.pcs| && ThreadInv(s.m, t, pc')
    ensures Inv(s.(pcs := s.pcs[t := pc']))
  {
  }

  lemma DequeueLoadKeeps(m: Shared, t: nat, pc: Pc)
    requires Shape(m) && ThreadInv(m, t, pc) && InRange(m, pc)
    requires pc.DeqHeadGen? || pc.DeqHeadPtr? || pc.DeqTailGen? || pc.DeqTailPtr? || pc.DeqNextGen?
    ensures ThreadInv(m, t, DequeueStep(m, pc).1)
  {
  }

  lemma DequeueRetryKeeps(m: Shared, t: nat, pc: Pc)
    requires Shape(m) && ThreadInv(m, t, pc) && InRange(m, pc)
    requires pc.DeqCheckHead? || (pc.DeqSwingHead? && m.head != Link(pc.hp, pc.hg))
    ensures ThreadInv(m, t, DequeueStep(m, pc).1)
  {
  }

  lemma DeqNextPtrKeeps(m: Shared, t: nat, pc: Pc)
    requires SharedInv(m) && ThreadInv(m, t, pc) && pc.DeqNextPtr?
    ensures ThreadInv(m, t, DequeueStep(m, pc).1)
  {
    if pc.hp == pc.tp { DeqNextAtTail(m, t, pc); } else { DeqNextBehindTail(m, t, pc); }
  }

  lemma DeqNextAtTail(m: Shared, t: nat, pc: Pc)
    requires SharedInv(m) && ThreadInv(m, t, pc) && pc.DeqNextPtr? && pc.hp == pc.tp
    ensures ThreadInv(m, t, DequeueStep(m, pc).1)
  {
    if pc.hg == m.head.gen { assert CellOk(m, pc.hg); }
    if pc.tg == m.tail.gen { assert CellOk(m, pc.tg); }
  }

  lemma DeqNextBehindTail(m: Shared, t: nat, pc: Pc)
    requires SharedInv(m) && ThreadInv(m, t, pc) && pc.DeqNextPtr? && pc.hp != pc.tp
    ensures ThreadInv(m, t, DequeueStep(m, pc).1)
  {
    if pc.hg == m.head.gen { assert CellOk(m, pc.hg); }
  }

  lemma DeqLoadValueKeeps(m: Shared, t: nat, pc: Pc)
    requires SharedInv(m) && ThreadInv(m, t, pc) && pc.DeqLoadValue?
    ensures ThreadInv(m, t, DequeueStep(m, pc).1)
  {
    if pc.hg == m.head.gen { assert CellOk(m, pc.hg + 1); }
  }

  lemma CallEnqueueInv(s: State, t: nat, n: Node, v: Value, s': State)
    requires Inv(s) && CallEnqueue(s, t, n, v, s')
    ensures Inv(s')
  {
    forall i: nat | s.m.head.gen <= i <= Last(s.m) ensures s.m.chain[i] != n {
      assert CellOk(s.m, i);
    }
    KeepCells(s.m, s'.m);
    Compose(s, t, s'.m, StoreValue(n, v));
  }

  lemma EnqueueStepInv(s: State, t: nat)
    requires Inv(s) && t < |s.pcs| && InRange(s.m, s.pcs[t])
    ensures var (m', pc') := EnqueueStep(s.m, s.pcs[t]); Inv(State(m', s.pcs[t := pc']))
  {
    var m, pc := s.m, s.pcs[t];
    if pc.StoreValue? || pc.StoreNext? || pc.StoreGen? {
      PrepareInv(s, t);
    } else if pc.HelpTail? {
      TailInv(s, t, Link(pc.tp, pc.tg), pc.help, LoadTailGen(pc.n, pc.v));
    } else if pc.SwingTail? {
      TailInv(s, t, Link(pc.tp, pc.tg), pc.n, Idle(Enqueued));
    } else if pc.LinkEntry? && m.mem[pc.tp].next == None && m.mem[pc.tp].gen == pc.ng {
      LinkInv(s, t);
    } else {
      if pc.LoadFirstGen? { LoadFirstGenKeeps(m, t, pc); }
      else if pc.LoadNextPtr? { LoadNextPtrKeeps(m, t, pc); }
      else { EnqueueLoadKeeps(m, t, pc); }
      ObserveInv(s, t, EnqueueStep(m, pc).1);
    }
  }

  lemma DequeueStepInv(s: State, t: nat)
    requires Inv(s) && t < |s.pcs| && InRange(s.m, s.pcs[t])
    ensures var (m', pc') := DequeueStep(s.m, s.pcs[t]); Inv(State(m', s.pcs[t := pc']))
  {
    var m, pc := s.m, s.pcs[t];
    if pc.DeqHelpTail? {
      TailInv(s, t, Link(pc.tp, pc.tg), pc.help, DeqHeadGen);
    } else if pc.DeqSwingHead? && m.head == Link(pc.hp, pc.hg) {
      UnlinkInv(s, t);
    } else {
      if pc.DeqNextPtr? { DeqNextPtrKeeps(m, t, pc); }
      else if pc.DeqLoadValue? { DeqLoadValueKeeps(m, t, pc); }
      else if pc.DeqCheckHead? || pc.DeqSwingHead? { DequeueRetryKeeps(m, t, pc); }
      else if Entry(pc).Some? || pc.SwingTail? || pc.Idle? {}
      else { DequeueLoadKeeps(m, t, pc); }
      ObserveInv(s, t, DequeueStep(m, pc).1);
    }
  }

  lemma NextInv(s: State, l: Label, s': State)
    requires Inv(s) && Next(s, l, s')
    ensures Inv(s')
  {
    match l
    case EnqueueCall(t, n, v) => CallEnqueueInv(s, t, n, v, s');
    case DequeueCall(t) => ObserveInv(s, t, DeqHeadGen);
    case Access(t) =>
      EnqueueStepInv(s, t);
      DequeueStepInv(s, t);
  }

  // ---------------------------------------------------------------- one step

  /** The walk from the head through memory finds exactly the abstract contents. */
  lemma MemoryHoldsContents(m: Shared)
    requires SharedInv(m)
    ensures Holds(m.mem, m.head.ptr, Contents(m))
  {
    HoldsFrom(m, m.head.gen);
  }

  lemma {:induction false} HoldsFrom(m: Shared, i: nat)
    requires SharedInv(m) && m.head.gen <= i <= Last(m)
    ensures Holds(m.mem, m.chain[i], m.vals[i + 1..])
    decreases Last(m) - i
  {
    assert CellOk(m, i);
    if i < Last(m) {
      assert CellOk(m, i + 1);
      HoldsFrom(m, i + 1);
      assert m.vals[i + 1..][1..] == m.vals[i + 2..];
    }
  }

  /** The value a step appends to the queue, if any: the argument of the call that links its node. */
  ghost function Linked(s: State, l: Label, s': State): seq<Value> {
    if l.Access? && l.t < |s.pcs| == |s'.pcs| && s.pcs[l.t].LinkEntry? && s'.pcs[l.t].SwingTail?
    then [s.pcs[l.t].v] else []
  }

  /** The value a step removes, if any: the one that the dequeue returns. */
  ghost function Removed(s: State, l: Label, s': State): seq<Value> {
    if l.Access? && l.t < |s.pcs| == |s'.pcs| && !s.pcs[l.t].Idle? && s'.pcs[l.t].Idle? && s'.pcs[l.t].answer.Dequeued?
    then [s'.pcs[l.t].answer.value] else []
  }

  lemma OtherStepsKeepContents(m: Shared, pc: Pc)
    requires InRange(m, pc) && !pc.LinkEntry? && !pc.DeqSwingHead?
    ensures EnqueueStep(m, pc).0.head == m.head && EnqueueStep(m, pc).0.vals == m.vals
    ensures DequeueStep(m, pc).0.head == m.head && DequeueStep(m, pc).0.vals == m.vals
  {
  }

  lemma LinkIsFifo(s: State, t: nat, s': State)
    requires Inv(s) && Runs(s, t, s') && s.pcs[t].LinkEntry?
    ensures Contents(s.m) + Linked(s, Access(t), s') == Contents(s'.m)
  {
    var pc := s.pcs[t];
    assert EnqueueStep(s.m, pc).1 != pc;
    if s'.pcs[t].SwingTail? { assert s'.m.vals == s.m.vals + [pc.v]; }
  }

  lemma UnlinkIsFifo(s: State, t: nat, s': State)
    requires Inv(s) && Runs(s, t, s') && s.pcs[t].DeqSwingHead?
    ensures Contents(s.m) == Removed(s, Access(t), s') + Contents(s'.m)
  {
    var m, pc := s.m, s.pcs[t];
    assert ThreadInv(m, t, pc);
    assert EnqueueStep(m, pc) == (m, pc);
    if m.head == Link(pc.hp, pc.hg) {
      assert m.vals[pc.hg + 1..] == [pc.v] + m.vals[pc.hg + 2..];
    }
  }

  /** Every step is a step of a first-in first-out queue. */
  lemma StepIsFifo(s: State, l: Label, s': State)
    requires Inv(s) && Next(s, l, s')
    ensures Contents(s.m) + Linked(s, l, s') == Removed(s, l, s') + Contents(s'.m)
  {
    if l.Access? {
      if s.pcs[l.t].LinkEntry? { LinkIsFifo(s, l.t, s'); }
      else if s.pcs[l.t].DeqSwingHead? { UnlinkIsFifo(s, l.t, s'); }
      else { OtherStepsKeepContents(s.m, s.pcs[l.t]); }
    }
  }

  /** What each answer means at the step that gives it. */
  lemma AnswersAreRight(s: State, l: Label, s': State)
    requires Inv(s) && Next(s, l, s') && l.Access? && !s.pcs[l.t].Idle? && s'.pcs[l.t].Idle?
    ensures
      match s'.pcs[l.t].answer
      case Enqueued => Contents(s'.m) == Contents(s.m) && s.pcs[l.t].SwingTail?
      case Dequeued(v, garbage) =>
        && Contents(s.m) == [v] + Contents(s'.m) && garbage == s.m.head.ptr
        && garbage < |s'.m.place| && s'.m.place[garbage] == Unused
      case Empty => s'.m == s.m && s.pcs[l.t].DeqCheckHead? && s.pcs[l.t].sawEmpty
      case NoAnswer => false
  {
    var m, pc := s.m, s.pcs[l.t];
    assert ThreadInv(m, l.t, pc);
    if pc.DeqSwingHead? { UnlinkIsFifo(s, l.t, s'); } else { OtherStepsKeepContents(m, pc); }
  }

  /** A successful link goes to the node that is last in the list, whatever was recycled since the
    snapshot; so a stale enqueuer never writes into a node that has left the list. */
  lemma LinkNeverStale(s: State, t: nat)
    requires Inv(s) && t < |s.pcs| && s.pcs[t].LinkEntry?
    ensures var pc := s.pcs[t];
            (s.m.mem[pc.tp].next == None && s.m.mem[pc.tp].gen == pc.ng)
            <==> pc.tp == s.m.chain[Last(s.m)] && pc.tg == Last(s.m)
  {
    var pc := s.pcs[t];
    if s.m.mem[pc.tp].gen == pc.ng { LinkIsCurrent(s.m, pc.tg, pc.tp, pc.ng); }
    if pc.tg == Last(s.m) { assert CellOk(s.m, pc.tg); }
  }

  // ---------------------------------------------------------------- whole runs

  ghost predicate IsRun(run: seq<State>, ls: seq<Label>) {
    Machine.Steps(Next, run, ls) && Init(run[0])
  }

  lemma RunInv(run: seq<State>, ls: seq<Label>, k: nat)
    requires IsRun(run, ls) && k < |run|
    ensures Inv(run[k])
  {
    InitInv(run[0]);
    forall s, l, s' | Inv(s) && Next(s, l, s') ensures Inv(s') { NextInv(s, l, s'); }
    Machine.Invariant(Next, Inv, run, ls, k);
  }

  ghost function AllLinked(run: seq<State>, ls: seq<Label>, k: nat): seq<Value>
    requires |run| == |ls| + 1 && k < |run|
  {
    if k == 0 then [] else AllLinked(run, ls, k - 1) + Linked(run[k - 1], ls[k - 1], run[k])
  }

  ghost function AllRemoved(run: seq<State>, ls: seq<Label>, k: nat): seq<Value>
    requires |run| == |ls| + 1 && k < |run|
  {
    if k == 0 then [] else AllRemoved(run, ls, k - 1) + Removed(run[k - 1], ls[k - 1], run[k])
  }

  lemma Regroup(done: seq<Value>, q: seq<Value>, linked: seq<Value>, r: seq<Value>, q': seq<Value>, l: seq<Value>)
    requires done + q == linked && q + l == r + q'
    ensures done + r + q' == linked + l
  {
    assert done + r + q' == done + (r + q');
    assert done + q + l == done + (q + l);
  }

  lemma InitEmpty(s: State)
    requires Init(s)
    ensures Contents(s.m) == []
  {
  }

  lemma RunStep(run: seq<State>, ls: seq<Label>, k: nat) returns (r: seq<Value>, l: seq<Value>)
    requires IsRun(run, ls) && 0 < k < |run|
    ensures Contents(run[k - 1].m) + l == r + Contents(run[k].m)
    ensures AllRemoved(run, ls, k) == AllRemoved(run, ls, k - 1) + r
    ensures AllLinked(run, ls, k) == AllLinked(run, ls, k - 1) + l
  {
    var p: nat := k - 1;
    r, l := Removed(run[p], ls[p], run[k]), Linked(run[p], ls[p], run[k]);
    RunInv(run, ls, p);
    assert Machine.StepAt(Next, run, ls, p);
    StepIsFifo(run[p], ls[p], run[k]);
  }

  /** In every run, at every point: the values returned so far, followed by the contents of the
    queue, are the values linked so far, in that order. So each value comes out at most once, in
    the order of the links, and none is lost. */
  lemma {:induction false} RunIsFifo(run: seq<State>, ls: seq<Label>, k: nat)
    requires IsRun(run, ls) && k < |run|
    ensures AllRemoved(run, ls, k) + Contents(run[k].m) == AllLinked(run, ls, k)
  {
    if k == 0 {
      InitEmpty(run[0]);
    } else {
      RunIsFifo(run, ls, k - 1);
      var r, l := RunStep(run, ls, k);
      Regroup(AllRemoved(run, ls, k - 1), Contents(run[k - 1].m), AllLinked(run, ls, k - 1), r, Contents(run[k].m), l);
    }
  }

  /** In every run, at every point, the list in memory carries the contents. */
  lemma RunMemory(run: seq<State>, ls: seq<Label>, k: nat)
    requires IsRun(run, ls) && k < |run|
    ensures Holds(run[k].m.mem, run[k].m.head.ptr, Contents(run[k].m))
    ensures run[k].m.head.gen <= run[k].m.tail.gen
  {
    RunInv(run, ls, k);
    MemoryHoldsContents(run[k].m);
  }

  ghost predicate InDequeue(pc: Pc) {
    !pc.Idle? && Entry(pc) == None && !pc.SwingTail?
  }

  /** The list in memory is empty at point i, and from there up to point k thread t stays inside
    one dequeue. */
  ghost predicate EmptyDuring(run: seq<State>, k: nat, t: nat, i: nat) {
    && i <= k < |run|
    && Contents(run[i].m) == []
    && Holds(run[i].m.mem, run[i].m.head.ptr, [])
    && forall j: nat | i <= j <= k :: t < |run[j].pcs| && InDequeue(run[j].pcs[t])
  }

  /** A dequeue that answers "empty" is right: at some point of its own call the list in memory
    was empty. */
  lemma EmptyWasTrue(run: seq<State>, ls: seq<Label>, k: nat, t: nat)
    requires IsRun(run, ls) && k < |ls| && t < |run[k].pcs| && ls[k] == Access(t) && !run[k].pcs[t].Idle?
    requires t < |run[k + 1].pcs| && run[k + 1].pcs[t] == Idle(Empty)
    ensures exists i: nat :: EmptyDuring(run, k, t, i)
  {
    RunInv(run, ls, k);
    assert Machine.StepAt(Next, run, ls, k);
    AnswersAreRight(run[k], ls[k], run[k + 1]);
    EmptyWitness(run, ls, k, t);
  }

  lemma EmptyStep(s: State, l: Label, s': State, t: nat)
    requires Next(s, l, s') && t < |s'.pcs| && s'.pcs[t].DeqCheckHead? && s'.pcs[t].sawEmpty
    ensures t < |s.pcs|
    ensures s.pcs[t] == s'.pcs[t] || (s.pcs[t].DeqNextPtr? && Contents(s.m) == [])
  {
  }

  lemma {:induction false} EmptyWitness(run: seq<State>, ls: seq<Label>, k: nat, t: nat)
    requires IsRun(run, ls) && k < |run| && t < |run[k].pcs|
    requires run[k].pcs[t].DeqCheckHead? && run[k].pcs[t].sawEmpty
    ensures exists i: nat :: EmptyDuring(run, k, t, i)
  {
    assert k > 0;
    assert Machine.StepAt(Next, run, ls, k - 1);
    EmptyStep(run[k - 1], ls[k - 1], run[k], t);
    if run[k - 1].pcs[t].DeqNextPtr? {
      RunMemory(run, ls, k - 1);
      assert EmptyDuring(run, k, t, k - 1);
    } else {
      EmptyWitness(run, ls, k - 1, t);
      var i: nat :| EmptyDuring(run, k - 1, t, i);
      assert EmptyDuring(run, k, t, i);
    }
  }

  /** Calls of either kind that thread t has made, and the outcomes it has had. */
  ghost function Calls(ls: seq<Label>, t: nat, k: nat): nat
    requires k <= |ls|
  {
    if k == 0 then 0 else Calls(ls, t, k - 1) + if ls[k - 1].EnqueueCall? && ls[k - 1].t == t then 1 else 0
  }

  ghost function LinksBy(run: seq<State>, ls: seq<Label>, t: nat, k: nat): nat
    requires |run| == |ls| + 1 && k < |run|
  {
    if k == 0 then 0
    else LinksBy(run, ls, t, k - 1)
         + if ls[k - 1] == Access(t) && Linked(run[k - 1], ls[k - 1], run[k]) != [] then 1 else 0
  }

  ghost function Pending(pc: Pc): nat { if Entry(pc).Some? then 1 else 0 }

  lemma StepLinksOnce(s: State, l: Label, s': State, t: nat)
    requires Next(s, l, s') && t < |s.pcs|
    ensures |s'.pcs| == |s.pcs|
    ensures Pending(s.pcs[t]) + (if l.EnqueueCall? && l.t == t then 1 else 0)
         == Pending(s'.pcs[t]) + (if l == Access(t) && Linked(s, l, s') != [] then 1 else 0)
  {
  }

  /** Each enqueue links exactly once before it returns. */
  lemma {:induction false} EnqueueLinksOnce(run: seq<State>, ls: seq<Label>, t: nat, k: nat)
    requires IsRun(run, ls) && k < |run| && t < |run[0].pcs|
    ensures |run[k].pcs| == |run[0].pcs|
    ensures Calls(ls, t, k) == LinksBy(run, ls, t, k) + Pending(run[k].pcs[t])
  {
    if k > 0 {
      EnqueueLinksOnce(run, ls, t, k - 1);
      assert Machine.StepAt(Next, run, ls, k - 1);
      StepLinksOnce(run[k - 1], ls[k - 1], run[k], t);
    }
  }
}
