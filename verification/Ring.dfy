/** The multi-producer multi-consumer ring of include/ck_ring.h: `_ck_ring_enqueue_mp` (which is
  reserve, copy, commit), `_ck_ring_dequeue_mc` and `_ck_ring_trydequeue_mc`.

  A step is one access: a load, store or compare-and-swap of a counter, or the copy of one word of
  an entry, so that an entry of several words can be overwritten in the middle of a copy. The
  counters run freely and are unbounded here; `WrapAgrees` relates them to the 32-bit ones.
  `vals` and `owner` are history variables: the entry and the thread of every ticket. */
module Ring {
  import opened Prelude
  import Machine

  type Entry = seq<int>

  datatype Answer = NoAnswer | Enqueued | Full | Dequeued(data: Entry) | Empty | Lost

  datatype Pc =
    | Idle(answer: Answer)
    | EnqLoadHead(v: Entry)
    | EnqLoadCons(v: Entry, p: nat)
    | EnqReserve(v: Entry, p: nat)
    | EnqRecheck(v: Entry, p: nat, sawFull: bool)
    | EnqWrite(v: Entry, p: nat, j: nat)
    | EnqWait(v: Entry, p: nat)
    | EnqPublish(v: Entry, p: nat)
    | DeqLoadHead(once: bool)
    | DeqLoadTail(once: bool, c: nat)
    | DeqCopy(once: bool, c: nat, d: Entry)
    | DeqTake(once: bool, c: nat, d: Entry)

  /** `size` slots of `words` words each. */
  datatype Shared = Shared(size: nat, words: nat, cHead: nat, pTail: nat, pHead: nat, buf: seq<Entry>,
                           vals: seq<Entry>, owner: seq<nat>)

  datatype State = State(m: Shared, pcs: seq<Pc>)

  /** The slot of a ticket; the code masks, which is the same for a power of two. */
  ghost function Slot(m: Shared, i: nat): nat
    requires m.size > 0
  {
    i % m.size
  }

  ghost predicate Init(s: State) {
    var m := s.m;
    && m.size > 0 && m.words > 0 && m.cHead == m.pTail == m.pHead == 0
    && |m.buf| == m.size && (forall k | 0 <= k < m.size :: |m.buf[k]| == m.words)
    && m.vals == [] && m.owner == []
    && (forall t | 0 <= t < |s.pcs| :: s.pcs[t] == Idle(NoAnswer))
  }

  ghost predicate InRange(m: Shared, pc: Pc) {
    && m.size > 0 && |m.buf| == m.size
    && (forall k | 0 <= k < m.size :: |m.buf[k]| == m.words)
    && (pc.EnqWrite? ==> pc.j < m.words == |pc.v|)
    && (pc.DeqCopy? ==> |pc.d| < m.words)
  }

  /** The comparison `(producer - consumer) < mask` on free-running counters. */
  ghost predicate Room(m: Shared, p: nat, c: nat) {
    c <= p && p - c < m.size - 1
  }

  /** The next access of thread t. */
  ghost function Step(m: Shared, t: nat, pc: Pc): (Shared, Pc)
    requires InRange(m, pc)
  {
    match pc
    case EnqLoadHead(v) => (m, EnqLoadCons(v, m.pHead))
    case EnqLoadCons(v, p) =>
      if Room(m, p, m.cHead) then (m, EnqReserve(v, p))
      else (m, EnqRecheck(v, p, m.pHead == m.cHead + m.size - 1))
    case EnqReserve(v, p) =>
      if m.pHead == p then
        (m.(pHead := p + 1, vals := m.vals + [v], owner := m.owner + [t]), EnqWrite(v, p, 0))
      else (m, EnqLoadCons(v, m.pHead))
    case EnqRecheck(v, p, _) =>
      (m, if m.pHead == p then Idle(Full) else EnqLoadCons(v, m.pHead))
    case EnqWrite(v, p, j) =>
      var k := Slot(m, p);
      (m.(buf := m.buf[k := m.buf[k][j := v[j]]]),
       if j + 1 < m.words then EnqWrite(v, p, j + 1) else EnqWait(v, p))
    case EnqWait(v, p) => (m, if m.pTail == p then EnqPublish(v, p) else pc)
    case EnqPublish(v, p) => (m.(pTail := p + 1), Idle(Enqueued))
    case DeqLoadHead(once) => (m, DeqLoadTail(once, m.cHead))
    case DeqLoadTail(once, c) =>
      (m, if c == m.pTail then Idle(Empty) else DeqCopy(once, c, []))
    case DeqCopy(once, c, d) =>
      var d' := d + [m.buf[Slot(m, c)][|d|]];
      (m, if |d'| < m.words then DeqCopy(once, c, d') else DeqTake(once, c, d'))
    case DeqTake(once, c, d) =>
      if m.cHead == c then (m.(cHead := c + 1), Idle(Dequeued(d)))
      else (m, if once then Idle(Lost) else DeqLoadTail(once, m.cHead))
    case _ => (m, pc)
  }

  datatype Label = EnqueueCall(t: nat, v: Entry) | DequeueCall(t: nat, once: bool) | Access(t: nat)

  ghost predicate Next(s: State, l: Label, s': State) {
    && l.t < |s.pcs|
    && match l
       case EnqueueCall(t, v) =>
         s.pcs[t].Idle? && |v| == s.m.words && s' == s.(pcs := s.pcs[t := EnqLoadHead(v)])
       case DequeueCall(t, once) => s.pcs[t].Idle? && s' == s.(pcs := s.pcs[t := DeqLoadHead(once)])
       case Access(t) =>
         && InRange(s.m, s.pcs[t])
         && var (m', pc') := Step(s.m, t, s.pcs[t]); s' == State(m', s.pcs[t := pc'])
  }

  // ---------------------------------------------------------------- invariant

  ghost predicate Shape(m: Shared) {
    && m.size > 0 && m.words > 0 && |m.buf| == m.size
    && m.cHead <= m.pTail <= m.pHead <= m.cHead + m.size - 1
    && |m.vals| == |m.owner| == m.pHead
    && (forall k | 0 <= k < m.size :: |m.buf[k]| == m.words)
    && (forall i | 0 <= i < m.pHead :: |m.vals[i]| == m.words)
  }

  ghost predicate SlotOk(m: Shared, i: nat)
    requires Shape(m) && i < m.pTail
  {
    m.buf[Slot(m, i)] == m.vals[i]
  }

  ghost predicate SharedInv(m: Shared) {
    Shape(m) && forall i: nat | m.cHead <= i < m.pTail :: SlotOk(m, i)
  }

  /** Thread t holds ticket p and has written the first j words of its entry v. */
  ghost predicate Holds(m: Shared, t: nat, v: Entry, p: nat, j: nat)
    requires Shape(m)
  {
    && m.pTail <= p < m.pHead && m.owner[p] == t && m.vals[p] == v
    && j <= m.words && m.buf[Slot(m, p)][..j] == v[..j]
  }

  ghost predicate ThreadInv(m: Shared, t: nat, pc: Pc) {
    && Shape(m)
    && match pc
       case EnqLoadHead(v) => |v| == m.words
       case EnqLoadCons(v, p) => |v| == m.words && p <= m.pHead
       case EnqReserve(v, p) => |v| == m.words && p <= m.pHead && p < m.cHead + m.size - 1
       case EnqRecheck(v, p, sawFull) => |v| == m.words && p <= m.pHead && (p == m.pHead ==> sawFull)
       case EnqWrite(v, p, j) => j < m.words && Holds(m, t, v, p, j)
       case EnqWait(v, p) => Holds(m, t, v, p, m.words)
       case EnqPublish(v, p) => p == m.pTail && Holds(m, t, v, p, m.words)
       case DeqLoadTail(once, c) => c <= m.cHead
       case DeqCopy(once, c, d) =>
         && c <= m.cHead && c < m.pTail && |d| < m.words
         && (c == m.cHead ==> d == m.vals[c][..|d|])
       case DeqTake(once, c, d) => c <= m.cHead && c < m.pTail && (c == m.cHead ==> d == m.vals[c])
       case _ => true
  }

  ghost predicate Inv(s: State) {
    SharedInv(s.m) && forall t: nat | t < |s.pcs| :: ThreadInv(s.m, t, s.pcs[t])
  }

  ghost predicate Rely(m: Shared, t: nat, m': Shared) {
    && Shape(m) && Shape(m') && m'.size == m.size && m'.words == m.words
    && m.cHead <= m'.cHead && m.pTail <= m'.pTail && m.pHead <= m'.pHead
    && (forall i | 0 <= i < m.pHead :: m'.vals[i] == m.vals[i] && m'.owner[i] == m.owner[i])
    && (forall i: nat | m.pTail <= i < m.pHead && m.owner[i] != t ::
          m'.pTail <= i && m'.buf[Slot(m', i)] == m.buf[Slot(m, i)])
  }

  lemma Stable(m: Shared, t: nat, m': Shared, u: nat, pc: Pc)
    requires Rely(m, t, m') && ThreadInv(m, u, pc) && u != t
    ensures ThreadInv(m', u, pc)
  {
  }

  lemma InitInv(s: State)
    requires Init(s)
    ensures Inv(s)
  {
  }

  /** Tickets less than one lap apart have different slots. */
  lemma SlotsDiffer(size: nat, a: nat, b: nat)
    requires size > 0 && a < b < a + size
    ensures a % size != b % size
  {
    var d, r := b - a, a % size;
    if r + d < size { ModUnique(b, size, a / size, r + d); }
    else {
      assert b == (a / size + 1) * size + (r + d - size);
      ModUnique(b, size, a / size + 1, r + d - size);
    }
  }

  lemma WriteKeeps(m: Shared, t: nat, v: Entry, p: nat, j: nat)
    requires SharedInv(m) && ThreadInv(m, t, EnqWrite(v, p, j))
    ensures InRange(m, EnqWrite(v, p, j))
    ensures var (m', pc') := Step(m, t, EnqWrite(v, p, j));
            SharedInv(m') && Rely(m, t, m') && ThreadInv(m', t, pc')
  {
    var m' := Step(m, t, EnqWrite(v, p, j)).0;
    forall i: nat | m.cHead <= i < m.pHead && i != p ensures m'.buf[Slot(m', i)] == m.buf[Slot(m, i)] {
      if i < p { SlotsDiffer(m.size, i, p); } else { SlotsDiffer(m.size, p, i); }
    }
    forall i: nat | m'.cHead <= i < m'.pTail ensures SlotOk(m', i) { assert SlotOk(m, i); }
    var old', new' := m.buf[Slot(m, p)], m'.buf[Slot(m, p)];
    assert new'[..j + 1] == old'[..j] + [v[j]];
    assert v[..j + 1] == v[..j] + [v[j]];
    assert new'[..m.words] == new' && v[..m.words] == v;
  }

  lemma ReserveKeeps(m: Shared, t: nat, v: Entry, p: nat)
    requires SharedInv(m) && ThreadInv(m, t, EnqReserve(v, p)) && m.pHead == p
    ensures var (m', pc') := Step(m, t, EnqReserve(v, p));
            SharedInv(m') && Rely(m, t, m') && ThreadInv(m', t, pc')
  {
    var m' := Step(m, t, EnqReserve(v, p)).0;
    forall i: nat | m'.cHead <= i < m'.pTail ensures SlotOk(m', i) { assert SlotOk(m, i); }
  }

  lemma PublishKeeps(m: Shared, t: nat, v: Entry, p: nat)
    requires SharedInv(m) && ThreadInv(m, t, EnqPublish(v, p))
    ensures var (m', pc') := Step(m, t, EnqPublish(v, p));
            SharedInv(m') && Rely(m, t, m') && ThreadInv(m', t, pc')
  {
    var m' := Step(m, t, EnqPublish(v, p)).0;
    assert m.buf[Slot(m, p)][..m.words] == m.buf[Slot(m, p)] && v[..m.words] == v;
    forall i: nat | m'.cHead <= i < m'.pTail ensures SlotOk(m', i) {
      if i < m.pTail { assert SlotOk(m, i); }
    }
  }

  lemma TakeKeeps(m: Shared, t: nat, once: bool, c: nat, d: Entry)
    requires SharedInv(m) && ThreadInv(m, t, DeqTake(once, c, d)) && m.cHead == c
    ensures var (m', pc') := Step(m, t, DeqTake(once, c, d));
            SharedInv(m') && Rely(m, t, m') && ThreadInv(m', t, pc')
  {
    var m' := Step(m, t, DeqTake(once, c, d)).0;
    forall i: nat | m'.cHead <= i < m'.pTail ensures SlotOk(m', i) { assert SlotOk(m, i); }
  }

  lemma CopyKeeps(m: Shared, t: nat, once: bool, c: nat, d: Entry)
    requires SharedInv(m) && ThreadInv(m, t, DeqCopy(once, c, d))
    ensures InRange(m, DeqCopy(once, c, d))
    ensures var (m', pc') := Step(m, t, DeqCopy(once, c, d)); m' == m && ThreadInv(m, t, pc')
  {
    if c == m.cHead {
      assert SlotOk(m, c);
      assert m.vals[c][..|d| + 1] == m.vals[c][..|d|] + [m.vals[c][|d|]];
      assert m.vals[c][..m.words] == m.vals[c];
    }
  }

  lemma LoadKeeps(m: Shared, t: nat, pc: Pc)
    requires SharedInv(m) && ThreadInv(m, t, pc) && InRange(m, pc) && Step(m, t, pc).0 == m
    requires !pc.DeqCopy? && !pc.EnqWrite?
    ensures ThreadInv(m, t, Step(m, t, pc).1)
  {
  }

  lemma EnqueueKeeps(m: Shared, t: nat, pc: Pc)
    requires SharedInv(m) && ThreadInv(m, t, pc) && (pc.EnqWrite? || pc.EnqReserve? || pc.EnqPublish?)
    ensures InRange(m, pc)
    ensures var (m', pc') := Step(m, t, pc); SharedInv(m') && Rely(m, t, m') && ThreadInv(m', t, pc')
  {
    match pc
    case EnqWrite(v, p, j) => WriteKeeps(m, t, v, p, j);
    case EnqReserve(v, p) => if m.pHead == p { ReserveKeeps(m, t, v, p); } else { LoadKeeps(m, t, pc); }
    case EnqPublish(v, p) => PublishKeeps(m, t, v, p);
  }

  lemma OtherKeeps(m: Shared, t: nat, pc: Pc)
    requires SharedInv(m) && ThreadInv(m, t, pc) && !pc.EnqWrite? && !pc.EnqReserve? && !pc.EnqPublish?
    ensures InRange(m, pc)
    ensures var (m', pc') := Step(m, t, pc); SharedInv(m') && Rely(m, t, m') && ThreadInv(m', t, pc')
  {
    match pc
    case DeqTake(once, c, d) => if m.cHead == c { TakeKeeps(m, t, once, c, d); } else { LoadKeeps(m, t, pc); }
    case DeqCopy(once, c, d) => CopyKeeps(m, t, once, c, d);
    case _ => LoadKeeps(m, t, pc);
  }

  lemma AccessInv(s: State, t: nat, s': State)
    requires Inv(s) && t < |s.pcs|
    requires InRange(s.m, s.pcs[t]) && s' == State(Step(s.m, t, s.pcs[t]).0, s.pcs[t := Step(s.m, t, s.pcs[t]).1])
    ensures Inv(s')
  {
    assert ThreadInv(s.m, t, s.pcs[t]);
    var pc := s.pcs[t];
    if pc.EnqWrite? || pc.EnqReserve? || pc.EnqPublish? { EnqueueKeeps(s.m, t, pc); } else { OtherKeeps(s.m, t, pc); }
    forall u: nat | u < |s.pcs| && u != t ensures ThreadInv(s'.m, u, s.pcs[u]) {
      Stable(s.m, t, s'.m, u, s.pcs[u]);
    }
  }

  lemma NextInv(s: State, l: Label, s': State)
    requires Inv(s) && Next(s, l, s')
    ensures Inv(s')
  {
    assert ThreadInv(s.m, l.t, s.pcs[l.t]);
    if l.Access? { AccessInv(s, l.t, s'); }
  }

  // ---------------------------------------------------------------- one step

  /** What each answer means at the step that gives it. A taken entry is the oldest published one
    and was copied whole; an entry is published in the order of the tickets; "empty" is said when
    nothing is published. */
  lemma AnswersAreRight(s: State, l: Label, s': State)
    requires Inv(s) && Next(s, l, s') && l.Access? && !s.pcs[l.t].Idle? && s'.pcs[l.t].Idle?
    ensures
      var m, m', pc := s.m, s'.m, s.pcs[l.t];
      match s'.pcs[l.t].answer
      case Enqueued => pc.EnqPublish? && m'.pTail == m.pTail + 1 && m.vals[m.pTail] == pc.v && m.owner[m.pTail] == l.t
      case Dequeued(d) => m.cHead < m.pTail && m'.cHead == m.cHead + 1 && d == m.vals[m.cHead] && d == m.buf[Slot(m, m.cHead)]
      case Empty => m.cHead == m.pTail && m' == m
      case Full => pc.EnqRecheck? && pc.sawFull && m' == m
      case Lost => m' == m && pc.once
      case NoAnswer => false
  {
    assert ThreadInv(s.m, l.t, s.pcs[l.t]);
    if s.m.cHead < s.m.pTail { assert SlotOk(s.m, s.m.cHead); }
  }

  // ---------------------------------------------------------------- whole runs

  ghost predicate IsRun(run: seq<State>, ls: seq<Label>) {
    Machine.Steps(Next, run, ls) && Init(run[0])
  }

  lemma RunInv(run: seq<State>, ls: seq<Label>, k: nat)
    requires IsRun(run, ls) && k < |run|
    ensures Inv(run[k])
  {
    InitInv(run[0]);
    forall s, l, s' | Inv(s) && Next(s, l, s') ensures Inv(s') { NextInv(s, l, s'); }
    Machine.Invariant(Next, Inv, run, ls, k);
  }

  /** The bounds on the counters, in every run. */
  lemma RunCounters(run: seq<State>, ls: seq<Label>, k: nat)
    requires IsRun(run, ls) && k < |run|
    ensures var m := run[k].m; m.size > 0 && m.cHead <= m.pTail <= m.pHead <= m.cHead + (m.size - 1)
  {
    RunInv(run, ls, k);
  }

  /** The entry that a step takes a ticket for, if any. */
  ghost function Ticketed(s: State, l: Label, s': State): seq<Entry> {
    if l.Access? && l.t < |s.pcs| == |s'.pcs| && s.pcs[l.t].EnqReserve? && s'.pcs[l.t].EnqWrite?
    then [s.pcs[l.t].v] else []
  }

  /** The entry that a step hands to a consumer, if any. */
  ghost function Taken(s: State, l: Label, s': State): seq<Entry> {
    if l.Access? && l.t < |s.pcs| == |s'.pcs| && !s.pcs[l.t].Idle? && s'.pcs[l.t].Idle? && s'.pcs[l.t].answer.Dequeued?
    then [s'.pcs[l.t].answer.data] else []
  }

  ghost function AllTicketed(run: seq<State>, ls: seq<Label>, k: nat): seq<Entry>
    requires |run| == |ls| + 1 && k < |run|
  {
    if k == 0 then [] else AllTicketed(run, ls, k - 1) + Ticketed(run[k - 1], ls[k - 1], run[k])
  }

  ghost function AllTaken(run: seq<State>, ls: seq<Label>, k: nat): seq<Entry>
    requires |run| == |ls| + 1 && k < |run|
  {
    if k == 0 then [] else AllTaken(run, ls, k - 1) + Taken(run[k - 1], ls[k - 1], run[k])
  }

  lemma StepLogs(s: State, l: Label, s': State)
    requires Inv(s) && Next(s, l, s')
    ensures Shape(s.m) && Shape(s'.m)
    ensures s'.m.vals == s.m.vals + Ticketed(s, l, s')
    ensures s'.m.vals[..s'.m.cHead] == s.m.vals[..s.m.cHead] + Taken(s, l, s')
  {
    NextInv(s, l, s');
    assert ThreadInv(s.m, l.t, s.pcs[l.t]);
  }

  /** In every run, at every point: the entries handed out are exactly the first `cHead` entries in
    the order of the tickets. So entries come out whole, once each, in ticket order. */
  lemma {:induction false} RunIsFifo(run: seq<State>, ls: seq<Label>, k: nat)
    requires IsRun(run, ls) && k < |run|
    ensures Shape(run[k].m)
    ensures AllTicketed(run, ls, k) == run[k].m.vals
    ensures AllTaken(run, ls, k) == AllTicketed(run, ls, k)[..run[k].m.cHead]
  {
    RunInv(run, ls, k);
    if k > 0 {
      RunIsFifo(run, ls, k - 1);
      RunInv(run, ls, k - 1);
      assert Machine.StepAt(Next, run, ls, k - 1);
      StepLogs(run[k - 1], ls[k - 1], run[k]);
    }
  }

  ghost predicate InEnqueue(pc: Pc) {
    pc.EnqLoadCons? || pc.EnqReserve? || pc.EnqRecheck?
  }

  /** At point i every slot that can be used is reserved or unread, and from there up to point k
    thread t stays inside one enqueue. */
  ghost predicate FullDuring(run: seq<State>, k: nat, t: nat, i: nat) {
    && i <= k < |run|
    && run[i].m.pHead == run[i].m.cHead + run[i].m.size - 1
    && forall j: nat | i <= j <= k :: t < |run[j].pcs| && InEnqueue(run[j].pcs[t])
  }

  /** An enqueue that answers "full" is right: the ring was full at some point of its call. */
  lemma FullWasTrue(run: seq<State>, ls: seq<Label>, k: nat, t: nat)
    requires IsRun(run, ls) && k < |ls| && t < |run[k].pcs| && ls[k] == Access(t) && !run[k].pcs[t].Idle?
    requires t < |run[k + 1].pcs| && run[k + 1].pcs[t] == Idle(Full)
    ensures exists i: nat :: FullDuring(run, k, t, i)
  {
    RunInv(run, ls, k);
    assert Machine.StepAt(Next, run, ls, k);
    AnswersAreRight(run[k], ls[k], run[k + 1]);
    FullWitness(run, ls, k, t);
  }

  lemma FullStep(s: State, l: Label, s': State, t: nat)
    requires Next(s, l, s') && t < |s'.pcs| && s'.pcs[t].EnqRecheck? && s'.pcs[t].sawFull
    ensures t < |s.pcs|
    ensures s.pcs[t] == s'.pcs[t] || (s.pcs[t].EnqLoadCons? && s.m.pHead == s.m.cHead + s.m.size - 1)
  {
  }

  lemma {:induction false} FullWitness(run: seq<State>, ls: seq<Label>, k: nat, t: nat)
    requires IsRun(run, ls) && k < |run| && t < |run[k].pcs|
    requires run[k].pcs[t].EnqRecheck? && run[k].pcs[t].sawFull
    ensures exists i: nat :: FullDuring(run, k, t, i)
  {
    assert k > 0;
    assert Machine.StepAt(Next, run, ls, k - 1);
    FullStep(run[k - 1], ls[k - 1], run[k], t);
    if run[k - 1].pcs[t].EnqLoadCons? {
      assert FullDuring(run, k, t, k - 1);
    } else {
      FullWitness(run, ls, k - 1, t);
      var i: nat :| FullDuring(run, k - 1, t, i);
      assert FullDuring(run, k, t, i);
    }
  }

  // ---------------------------------------------------------------- 32-bit counters

  /** The unsigned 32-bit comparison of the code agrees with `Room` as long as the two snapshots
    are less than 2^32 - mask apart. */
  lemma WrapAgrees(p: nat, c: nat, mask: nat)
    requires mask < 0x1_0000_0000
    requires -(0x1_0000_0000 - mask) <= p - c < 0x1_0000_0000
    ensures (((p % 0x1_0000_0000) - (c % 0x1_0000_0000)) % 0x1_0000_0000 < mask) <==> (c <= p && p - c < mask)
  {
    var w := 0x1_0000_0000;
    var x := (p % w) - (c % w);
    assert (p - c - x) % w == 0;
  }
}
