/** A stack whose nodes are reclaimed by hazard pointers: `ck_hp_stack_push_mpmc` and
  `ck_hp_stack_pop_mpmc` of include/ck_hp_stack.h, with `ck_hp_retire` and `ck_hp_reclaim` of
  src/ck_hp.c.

  A step is one `ck_pr` access, or one private action. The memory of a destroyed node is reused at
  once: the node may be pushed again. Every record has one hazard slot. `stk` (bottom first), `place`
  and `guard` are history variables that no access reads; guard[t] is the node that thread t has
  found to be the head again after publishing it, until it overwrites its hazard slot. */
module HazardStack {
  import opened Prelude

  type Node = nat

  datatype Answer = NoAnswer | Pushed | Popped(n: Node) | Empty | Reclaimed

  datatype Pc =
    | Idle(answer: Answer)
    | PushLoadHead(n: Node)
    | PushStoreNext(n: Node, h: Option<Node>)
    | PushSwing(n: Node, h: Option<Node>)
    | PopLoad
    | PopPublish(top: Node)
    | PopReread(top: Node)
    | PopNext(top: Node)
    | PopSwing(top: Node, nx: Option<Node>)
    | Republish(e: Option<Node>, first: bool)
    | Reload(e: Option<Node>, first: bool)
    | CollectState(r: nat, cache: seq<Node>)
    | CollectLoad(r: nat, cache: seq<Node>)
    | Sweep(marker: nat, cache: seq<Node>)
    | RescanState(marker: nat, cache: seq<Node>, r: nat)
    | RescanLoad(marker: nat, cache: seq<Node>, r: nat)
    | Destroy(marker: nat, cache: seq<Node>)

  /** Where a node is: destroyed or never used, about to be pushed, in the stack, popped and owned by
    its popper, or pending in a record. */
  datatype Place = Unused | Held(tid: nat) | Stacked(at: nat) | Taken(tid: nat) | Retired(tid: nat)

  /** `used` and `haz` are the records; `cap` is the size of the hazard cache; `todo` is, for each
    thread, what its reclaim has still to look at. */
  datatype Shared = Shared(next: seq<Option<Node>>, head: Option<Node>, used: seq<bool>, haz: seq<Option<Node>>, cap: nat,
                           todo: seq<seq<Node>>, stk: seq<Node>, place: seq<Place>, guard: seq<Option<Node>>)

  datatype State = State(m: Shared, pcs: seq<Pc>)

  ghost predicate Sizes(m: Shared) {
    && |m.place| == |m.next| && |m.haz| == |m.used| == |m.guard| == |m.todo|
  }

  ghost predicate Init(s: State) {
    && Sizes(s.m) && |s.pcs| == |s.m.used| && s.m.head == None && s.m.stk == []
    && (forall n | 0 <= n < |s.m.next| :: s.m.place[n] == Unused)
    && (forall t | 0 <= t < |s.pcs| :: s.pcs[t] == Idle(NoAnswer) && s.m.guard[t] == None && s.m.todo[t] == [])
  }

  ghost function Entry(pc: Pc): Option<Node> {
    if pc.PushLoadHead? || pc.PushStoreNext? || pc.PushSwing? then Some(pc.n) else None
  }

  ghost predicate InRange(m: Shared, t: nat, pc: Pc) {
    && Sizes(m) && t < |m.used|
    && (Entry(pc).Some? ==> pc.n < |m.next|)
    && (pc.PopNext? || pc.PopSwing? ==> pc.top < |m.next|)
    && (pc.Destroy? ==> m.todo[t] != [] && m.todo[t][0] < |m.next|)
    && (pc.RescanLoad? ==> m.todo[t] != [])
  }

  ghost function Publish(m: Shared, t: nat, e: Option<Node>): Shared
    requires Sizes(m) && t < |m.used|
  {
    m.(haz := m.haz[t := e], guard := m.guard[t := None])
  }

  ghost function Validated(m: Shared, t: nat, top: Node): Shared
    requires Sizes(m) && t < |m.used|
  {
    m.(guard := m.guard[t := Some(top)])
  }

  ghost function Advance(m: Shared, t: nat): Shared
    requires Sizes(m) && t < |m.used|
  {
    m.(todo := m.todo[t := if m.todo[t] == [] then [] else m.todo[t][1..]])
  }

  /** The next access of thread t. */
  ghost function Step(m: Shared, t: nat, pc: Pc): (Shared, Pc)
    requires InRange(m, t, pc)
  {
    match pc
    case PushLoadHead(n) => (m, PushStoreNext(n, m.head))
    case PushStoreNext(n, h) => (m.(next := m.next[n := h]), PushSwing(n, h))
    case PushSwing(n, h) =>
      if m.head == h then
        (m.(head := Some(n), stk := m.stk + [n], place := m.place[n := Stacked(|m.stk|)]), Idle(Pushed))
      else (m, PushStoreNext(n, m.head))
    case PopLoad => if m.head == None then (m, Idle(Empty)) else (m, PopPublish(m.head.value))
    case PopPublish(top) => (Publish(m, t, Some(top)), PopReread(top))
    case PopReread(top) => if m.head == Some(top) then (Validated(m, t, top), PopNext(top)) else (m, PopLoad)
    case PopNext(top) => (m, PopSwing(top, m.next[top]))
    case PopSwing(top, nx) =>
      if m.head == Some(top) then
        (m.(head := nx, stk := if m.stk == [] then [] else m.stk[..|m.stk| - 1], place := m.place[top := Taken(t)]),
         Idle(Popped(top)))
      else if m.head == None then (m, Idle(Empty))
      else (m, Republish(m.head, true))
    case Republish(e, first) => (Publish(m, t, e), Reload(e, first))
    case Reload(e, first) =>
      if m.head == None && !first then (m, Idle(Empty))
      else if m.head == e && e.Some? then (Validated(m, t, e.value), PopNext(e.value))
      else (m, Republish(m.head, false))
    case CollectState(r, cache) =>
      if r >= |m.used| then (m, Sweep(r, cache))
      else if m.used[r] then (m, CollectLoad(r, cache))
      else (m, CollectState(r + 1, cache))
    case CollectLoad(r, cache) =>
      if |cache| >= m.cap || r >= |m.used| then (m, Sweep(r, cache))
      else (m, CollectState(r + 1, if m.haz[r].Some? then cache + [m.haz[r].value] else cache))
    case Sweep(marker, cache) =>
      if m.todo[t] == [] then (m, Idle(Reclaimed))
      else if m.todo[t][0] in cache then (Advance(m, t), pc)
      else (m, RescanState(marker, cache, marker))
    case RescanState(marker, cache, r) =>
      if r >= |m.used| then (m, Destroy(marker, cache))
      else if m.used[r] then (m, RescanLoad(marker, cache, r))
      else (m, RescanState(marker, cache, r + 1))
    case RescanLoad(marker, cache, r) =>
      if r < |m.used| && m.haz[r] == Some(m.todo[t][0]) then (Advance(m, t), Sweep(marker, cache))
      else (m, RescanState(marker, cache, r + 1))
    case Destroy(marker, cache) =>
      (Advance(m.(place := m.place[m.todo[t][0] := Unused]), t), Sweep(marker, cache))
    case Idle(_) => (m, pc)
  }

  datatype Label =
    | PushCall(t: nat, n: Node)
    | PopCall(t: nat)
    | Clear(t: nat)
    | Retire(t: nat, n: Node)
    | Reclaim(t: nat, todo: seq<Node>)
    | Join(t: nat)
    | Leave(t: nat)
    | Access(t: nat)

  /** The entries that a reclaim of thread t goes through: pending in its record, each once. */
  ghost predicate Pending(m: Shared, t: nat, todo: seq<Node>)
    requires Sizes(m)
  {
    && (forall i | 0 <= i < |todo| :: todo[i] < |m.place| && m.place[todo[i]] == Retired(t))
    && (forall i, j | 0 <= i < j < |todo| :: todo[i] != todo[j])
  }

  ghost predicate Next(s: State, l: Label, s': State) {
    && Sizes(s.m) && l.t < |s.pcs| == |s.m.used|
    && (!l.Access? ==> s.pcs[l.t].Idle?)
    && (!l.Access? && !l.Join? ==> s.m.used[l.t])
    && match l
       case PushCall(t, n) =>
         && n < |s.m.place| && s.m.place[n] == Unused
         && s' == State(s.m.(place := s.m.place[n := Held(t)]), s.pcs[t := PushLoadHead(n)])
       case PopCall(t) => s' == s.(pcs := s.pcs[t := PopLoad])
       case Clear(t) => s' == s.(m := Publish(s.m, t, None))
       case Retire(t, n) =>
         && n < |s.m.place| && s.m.place[n] == Taken(t)
         && s' == s.(m := s.m.(place := s.m.place[n := Retired(t)]))
       case Reclaim(t, todo) =>
         && Pending(s.m, t, todo)
         && s' == State(s.m.(todo := s.m.todo[t := todo]), s.pcs[t := CollectState(0, [])])
       case Join(t) => s' == s.(m := s.m.(used := s.m.used[t := true]))
       case Leave(t) =>
         s' == s.(m := s.m.(used := s.m.used[t := false], guard := s.m.guard[t := None]))
       case Access(t) =>
         && InRange(s.m, t, s.pcs[t])
         && var (m', pc') := Step(s.m, t, s.pcs[t]); s' == State(m', s.pcs[t := pc'])
  }

  // ---------------------------------------------------------------- invariant

  ghost function Top(stk: seq<Node>): Option<Node> {
    if stk == [] then None else Some(stk[|stk| - 1])
  }

  ghost predicate EntryOk(m: Shared, i: nat)
    requires i < |m.stk| && Sizes(m)
  {
    && m.stk[i] < |m.next| && m.place[m.stk[i]] == Stacked(i)
    && m.next[m.stk[i]] == (if i == 0 then None else Some(m.stk[i - 1]))
  }

  /** A node that has been in the stack and has not been destroyed since. */
  ghost predicate Alive(m: Shared, n: Node)
    requires Sizes(m)
  {
    n < |m.place| && (m.place[n].Stacked? || m.place[n].Taken? || m.place[n].Retired?)
  }

  /** A guarded node is published by a record in use, and alive. */
  ghost predicate GuardOk(m: Shared, u: nat)
    requires Sizes(m) && u < |m.used|
  {
    m.guard[u].Some? ==> m.used[u] && m.haz[u] == m.guard[u] && Alive(m, m.guard[u].value)
  }

  ghost predicate SharedInv(m: Shared) {
    && Sizes(m) && m.head == Top(m.stk)
    && (forall i: nat | i < |m.stk| :: EntryOk(m, i))
    && (forall n | 0 <= n < |m.next| && m.place[n].Stacked? ::
          m.place[n].at < |m.stk| && m.stk[m.place[n].at] == n)
    && (forall u: nat | u < |m.used| :: GuardOk(m, u))
  }

  /** Every pending entry x of thread t that a record before r guards is in the cache. */
  ghost predicate Covered(m: Shared, t: nat, r: nat, cache: seq<Node>, x: Node)
    requires Sizes(m)
  {
    forall u: nat | u < r && u < |m.used| :: m.guard[u] == Some(x) ==> x in cache
  }

  ghost predicate AllCovered(m: Shared, t: nat, r: nat, cache: seq<Node>)
    requires Sizes(m) && t < |m.todo|
  {
    forall i | 0 <= i < |m.todo[t]| :: Covered(m, t, r, cache, m.todo[t][i])
  }

  ghost predicate Reclaiming(pc: Pc) {
    pc.CollectState? || pc.CollectLoad? || pc.Sweep? || pc.RescanState? || pc.RescanLoad? || pc.Destroy?
  }

  ghost predicate ReclaimInv(m: Shared, t: nat, pc: Pc)
    requires Reclaiming(pc) && Sizes(m) && t < |m.used|
  {
    match pc
    case CollectState(r, cache) => AllCovered(m, t, r, cache)
    case CollectLoad(r, cache) => AllCovered(m, t, r, cache)
    case Sweep(marker, cache) => AllCovered(m, t, marker, cache)
    case RescanState(marker, cache, r) =>
      && AllCovered(m, t, marker, cache) && m.todo[t] != [] && Covered(m, t, r, [], m.todo[t][0])
    case RescanLoad(marker, cache, r) =>
      && AllCovered(m, t, marker, cache) && m.todo[t] != [] && Covered(m, t, r, [], m.todo[t][0])
    case Destroy(marker, cache) =>
      && AllCovered(m, t, marker, cache) && m.todo[t] != [] && Covered(m, t, |m.used|, [], m.todo[t][0])
  }

  ghost predicate ThreadInv(m: Shared, t: nat, pc: Pc) {
    && Sizes(m) && t < |m.used| && (pc.Idle? || m.used[t])
    && (Entry(pc).Some? ==> pc.n < |m.next| && m.place[pc.n] == Held(t))
    && (pc.PushSwing? ==> m.next[pc.n] == pc.h)
    && (pc.PopReread? ==> m.haz[t] == Some(pc.top))
    && (pc.Reload? ==> m.haz[t] == pc.e)
    && (pc.PopNext? || pc.PopSwing? ==> m.guard[t] == Some(pc.top) && Alive(m, pc.top))
    && (pc.PopSwing? ==> m.next[pc.top] == pc.nx)
    && (Reclaiming(pc) ==> Pending(m, t, m.todo[t]) && ReclaimInv(m, t, pc))
  }

  ghost predicate Inv(s: State) {
    && SharedInv(s.m) && |s.pcs| == |s.m.used|
    && forall t: nat | t < |s.pcs| :: ThreadInv(s.m, t, s.pcs[t])
  }

  // ---------------------------------------------------------------- rely

  /** What a step of thread t may do to a node that another thread's assertions mention. */
  ghost predicate NodeRely(m: Shared, t: nat, m': Shared, n: Node)
    requires Sizes(m) && Sizes(m') && n < |m.place| == |m'.place|
  {
    && (m.place[n].Held? && m.place[n].tid != t ==> m'.place[n] == m.place[n] && m'.next[n] == m.next[n])
    && (m.place[n].Retired? && m.place[n].tid != t ==> m'.place[n] == m.place[n])
    && (Alive(m, n) && Alive(m', n) ==> m'.next[n] == m.next[n])
  }

  /** The record of another thread is its own; and no record comes to guard what is not in the stack. */
  ghost predicate RecordRely(m: Shared, t: nat, m': Shared, u: nat)
    requires Sizes(m) && Sizes(m') && u < |m.used| == |m'.used|
  {
    && (u != t ==> m'.used[u] == m.used[u] && m'.haz[u] == m.haz[u] && m'.guard[u] == m.guard[u] && m'.todo[u] == m.todo[u])
    && (m'.guard[u].Some? && m'.guard[u] != m.guard[u] ==>
          m'.guard[u].value < |m.place| && m.place[m'.guard[u].value].Stacked?)
  }

  ghost predicate Rely(m: Shared, t: nat, m': Shared) {
    && Sizes(m) && Sizes(m') && |m'.place| == |m.place| && |m'.used| == |m.used|
    && (forall n: nat | n < |m.place| :: NodeRely(m, t, m', n))
    && (forall u: nat | u < |m.used| :: RecordRely(m, t, m', u))
  }

  lemma PendingStable(m: Shared, t: nat, m': Shared, u: nat)
    requires Rely(m, t, m') && u < |m.used| && u != t && Pending(m, u, m.todo[u])
    ensures Pending(m', u, m'.todo[u]) && m'.todo[u] == m.todo[u]
  {
    assert RecordRely(m, t, m', u);
    forall i | 0 <= i < |m.todo[u]| ensures m'.place[m.todo[u][i]] == Retired(u) {
      assert NodeRely(m, t, m', m.todo[u][i]);
    }
  }

  lemma CoveredStable(m: Shared, t: nat, m': Shared, u: nat, r: nat, cache: seq<Node>, x: Node)
    requires Rely(m, t, m') && x < |m.place| && m.place[x].Retired? && Covered(m, u, r, cache, x)
    ensures Covered(m', u, r, cache, x)
  {
    forall v: nat | v < r && v < |m'.used| && m'.guard[v] == Some(x) ensures x in cache {
      assert RecordRely(m, t, m', v);
    }
  }

  lemma ReclaimStable(m: Shared, t: nat, m': Shared, u: nat, pc: Pc)
    requires Rely(m, t, m') && ThreadInv(m, u, pc) && u != t && Reclaiming(pc)
    ensures Pending(m', u, m'.todo[u]) && ReclaimInv(m', u, pc)
  {
    PendingStable(m, t, m', u);
    var r := if pc.CollectState? || pc.CollectLoad? then pc.r else pc.marker;
    forall i | 0 <= i < |m'.todo[u]| ensures Covered(m', u, r, pc.cache, m'.todo[u][i]) {
      CoveredStable(m, t, m', u, r, pc.cache, m.todo[u][i]);
    }
    if pc.RescanState? || pc.RescanLoad? { CoveredStable(m, t, m', u, pc.r, [], m.todo[u][0]); }
    if pc.Destroy? { CoveredStable(m, t, m', u, |m.used|, [], m.todo[u][0]); }
  }

  lemma Stable(m: Shared, t: nat, m': Shared, u: nat, pc: Pc)
    requires Rely(m, t, m') && SharedInv(m') && ThreadInv(m, u, pc) && u != t
    ensures ThreadInv(m', u, pc)
  {
    assert RecordRely(m, t, m', u) && GuardOk(m', u);
    if Entry(pc).Some? { assert NodeRely(m, t, m', pc.n); }
    if pc.PopSwing? || pc.PopNext? { assert NodeRely(m, t, m', pc.top); }
    if Reclaiming(pc) { ReclaimStable(m, t, m', u, pc); }
  }

  // ---------------------------------------------------------------- every step keeps it

  lemma InitInv(s: State)
    requires Init(s)
    ensures Inv(s)
  {
  }

  /** Writing to one's own record: the hazard slot, or the list of what is still to be looked at. */
  lemma OwnRecordKeeps(m: Shared, t: nat, m': Shared)
    requires SharedInv(m) && t < |m.used| && Sizes(m') && |m'.used| == |m.used|
    requires m' == m.(used := m.used[t := m'.used[t]], haz := m.haz[t := m'.haz[t]], todo := m.todo[t := m'.todo[t]],
                      guard := m.guard[t := m'.guard[t]])
    requires GuardOk(m', t) && (m'.guard[t].Some? && m'.guard[t] != m.guard[t] ==> m.place[m'.guard[t].value].Stacked?)
    ensures SharedInv(m') && Rely(m, t, m')
  {
    forall i: nat | i < |m'.stk| ensures EntryOk(m', i) { assert EntryOk(m, i); }
    forall u: nat | u < |m.used| ensures GuardOk(m', u) && RecordRely(m, t, m', u) { assert GuardOk(m, u); }
  }

  lemma PublishKeeps(m: Shared, t: nat, e: Option<Node>)
    requires SharedInv(m) && t < |m.used|
    ensures SharedInv(Publish(m, t, e)) && Rely(m, t, Publish(m, t, e))
  {
    OwnRecordKeeps(m, t, Publish(m, t, e));
  }

  /** A node that is found to be the head after it was published is guarded from then on. */
  lemma ValidateKeeps(m: Shared, t: nat, top: Node)
    requires SharedInv(m) && t < |m.used| && m.used[t] && m.haz[t] == Some(top) && m.head == Some(top)
    ensures var m' := Validated(m, t, top); SharedInv(m') && Rely(m, t, m') && Alive(m', top)
  {
    assert EntryOk(m, |m.stk| - 1);
    OwnRecordKeeps(m, t, Validated(m, t, top));
  }

  lemma StoreNextKeeps(m: Shared, t: nat, n: Node, h: Option<Node>)
    requires SharedInv(m) && ThreadInv(m, t, PushStoreNext(n, h))
    ensures var (m', pc') := Step(m, t, PushStoreNext(n, h)); SharedInv(m') && Rely(m, t, m') && ThreadInv(m', t, pc')
  {
    var m' := Step(m, t, PushStoreNext(n, h)).0;
    forall i: nat | i < |m'.stk| ensures EntryOk(m', i) { assert EntryOk(m, i); }
    forall u: nat | u < |m.used| ensures GuardOk(m', u) { assert GuardOk(m, u); }
  }

  lemma PushKeeps(m: Shared, t: nat, n: Node, h: Option<Node>)
    requires SharedInv(m) && ThreadInv(m, t, PushSwing(n, h)) && m.head == h
    ensures var (m', pc') := Step(m, t, PushSwing(n, h)); SharedInv(m') && Rely(m, t, m') && ThreadInv(m', t, pc')
  {
    var m' := Step(m, t, PushSwing(n, h)).0;
    forall i: nat | i < |m'.stk| ensures EntryOk(m', i) {
      if i < |m.stk| { assert EntryOk(m, i); }
    }
    forall u: nat | u < |m.used| ensures GuardOk(m', u) { assert GuardOk(m, u); }
  }

  lemma PopEntries(m: Shared, t: nat, top: Node, nx: Option<Node>)
    requires SharedInv(m) && ThreadInv(m, t, PopSwing(top, nx)) && m.head == Some(top)
    ensures var m' := Step(m, t, PopSwing(top, nx)).0;
            && Sizes(m') && m.stk == m'.stk + [top] && m'.head == Top(m'.stk) && m.place[top].Stacked?
            && (forall i: nat | i < |m'.stk| :: EntryOk(m', i))
            && forall n | 0 <= n < |m'.next| && m'.place[n].Stacked? :: m'.place[n].at < |m'.stk| && m'.stk[m'.place[n].at] == n
  {
    var m' := Step(m, t, PopSwing(top, nx)).0;
    assert EntryOk(m, |m.stk| - 1);
    forall i: nat | i < |m'.stk| ensures EntryOk(m', i) { assert EntryOk(m, i); }
    if |m.stk| > 1 { assert EntryOk(m, |m.stk| - 2); }
  }

  lemma PopKeeps(m: Shared, t: nat, top: Node, nx: Option<Node>)
    requires SharedInv(m) && ThreadInv(m, t, PopSwing(top, nx)) && m.head == Some(top)
    ensures var (m', pc') := Step(m, t, PopSwing(top, nx)); SharedInv(m') && Rely(m, t, m') && ThreadInv(m', t, pc')
    ensures m.stk == Step(m, t, PopSwing(top, nx)).0.stk + [top]
  {
    var m' := Step(m, t, PopSwing(top, nx)).0;
    PopEntries(m, t, top, nx);
    forall u: nat | u < |m.used| ensures GuardOk(m', u) { assert GuardOk(m, u); }
  }

  /** What is left of the list is still pending and covered. */
  lemma AdvanceKeeps(m: Shared, t: nat, marker: nat, cache: seq<Node>)
    requires SharedInv(m) && t < |m.used| && m.used[t] && Pending(m, t, m.todo[t]) && AllCovered(m, t, marker, cache)
    requires m.todo[t] != []
    ensures var m' := Advance(m, t); SharedInv(m') && Rely(m, t, m') && ThreadInv(m', t, Sweep(marker, cache))
  {
    var m' := Advance(m, t);
    assert GuardOk(m, t);
    OwnRecordKeeps(m, t, m');
    forall i | 0 <= i < |m'.todo[t]| ensures Covered(m', t, marker, cache, m'.todo[t][i]) {
      assert Covered(m, t, marker, cache, m.todo[t][i + 1]);
    }
  }

  /** No record guards an entry that the cache and the new scan have not shown to be a hazard. */
  lemma Unguarded(m: Shared, t: nat, marker: nat, cache: seq<Node>)
    requires SharedInv(m) && ThreadInv(m, t, Destroy(marker, cache))
    ensures forall u: nat | u < |m.used| :: m.guard[u] != Some(m.todo[t][0])
  {
    assert Covered(m, t, |m.used|, [], m.todo[t][0]);
  }

  lemma DestroyShared(m: Shared, t: nat, marker: nat, cache: seq<Node>)
    requires SharedInv(m) && ThreadInv(m, t, Destroy(marker, cache))
    ensures InRange(m, t, Destroy(marker, cache))
    ensures var m' := Step(m, t, Destroy(marker, cache)).0; SharedInv(m') && Rely(m, t, m')
  {
    var m' := Step(m, t, Destroy(marker, cache)).0;
    Unguarded(m, t, marker, cache);
    forall i: nat | i < |m'.stk| ensures EntryOk(m', i) { assert EntryOk(m, i); }
    forall u: nat | u < |m.used| ensures GuardOk(m', u) && RecordRely(m, t, m', u) { assert GuardOk(m, u); }
  }

  lemma DestroyKeeps(m: Shared, t: nat, marker: nat, cache: seq<Node>)
    requires SharedInv(m) && ThreadInv(m, t, Destroy(marker, cache))
    ensures InRange(m, t, Destroy(marker, cache))
    ensures var (m', pc') := Step(m, t, Destroy(marker, cache)); SharedInv(m') && Rely(m, t, m') && ThreadInv(m', t, pc')
  {
    var m' := Step(m, t, Destroy(marker, cache)).0;
    DestroyShared(m, t, marker, cache);
    forall i | 0 <= i < |m'.todo[t]| ensures Covered(m', t, marker, cache, m'.todo[t][i]) {
      assert Covered(m, t, marker, cache, m.todo[t][i + 1]);
    }
  }

  /** A record that is not in use guards nothing; one that is has its guarded node in its hazard slot. */
  lemma CollectKeeps(m: Shared, t: nat, pc: Pc)
    requires SharedInv(m) && ThreadInv(m, t, pc) && (pc.CollectState? || pc.CollectLoad?)
    ensures var (m', pc') := Step(m, t, pc); m' == m && ThreadInv(m, t, pc')
  {
    var r := pc.r;
    if r < |m.used| { assert GuardOk(m, r); }
    var pc' := Step(m, t, pc).1;
    var r' := if pc'.Sweep? then pc'.marker else pc'.r;
    forall i | 0 <= i < |m.todo[t]| ensures Covered(m, t, r', pc'.cache, m.todo[t][i]) {
      assert Covered(m, t, r, pc.cache, m.todo[t][i]);
    }
  }

  lemma RescanKeeps(m: Shared, t: nat, pc: Pc)
    requires SharedInv(m) && ThreadInv(m, t, pc) && (pc.RescanState? || pc.RescanLoad? || pc.Sweep?)
    ensures InRange(m, t, pc)
    ensures var (m', pc') := Step(m, t, pc); SharedInv(m') && Rely(m, t, m') && ThreadInv(m', t, pc')
  {
    var (m', pc') := Step(m, t, pc);
    if m'.todo != m.todo {
      AdvanceKeeps(m, t, pc.marker, pc.cache);
    } else if pc.Sweep? {
      if m.todo[t] != [] { assert Covered(m, t, pc.marker, pc.cache, m.todo[t][0]); }
      assert Rely(m, t, m);
    } else {
      if pc.r < |m.used| { assert GuardOk(m, pc.r); }
      if pc'.Sweep? { AdvanceKeeps(m, t, pc.marker, pc.cache); }
    }
  }

  lemma SameRely(m: Shared, t: nat)
    requires Sizes(m)
    ensures Rely(m, t, m)
  {
  }

  lemma PopPublishKeeps(m: Shared, t: nat, pc: Pc)
    requires SharedInv(m) && ThreadInv(m, t, pc) && (pc.PopPublish? || pc.Republish?)
    ensures var (m', pc') := Step(m, t, pc); SharedInv(m') && Rely(m, t, m') && ThreadInv(m', t, pc')
  {
    PublishKeeps(m, t, if pc.PopPublish? then Some(pc.top) else pc.e);
  }

  lemma PopReloadKeeps(m: Shared, t: nat, pc: Pc)
    requires SharedInv(m) && ThreadInv(m, t, pc) && (pc.PopReread? || pc.Reload?)
    ensures var (m', pc') := Step(m, t, pc); SharedInv(m') && Rely(m, t, m') && ThreadInv(m', t, pc')
  {
    var pc' := Step(m, t, pc).1;
    if pc'.PopNext? { ValidateKeeps(m, t, pc'.top); } else { SameRely(m, t); }
  }

  lemma PlainLoadKeeps(m: Shared, t: nat, pc: Pc)
    requires SharedInv(m) && ThreadInv(m, t, pc) && InRange(m, t, pc) && Step(m, t, pc).0 == m
    requires pc.Idle? || pc.PushLoadHead? || pc.PushSwing? || pc.PopLoad? || pc.PopNext? || pc.PopSwing?
    requires pc.PushSwing? ==> m.head != pc.h
    requires pc.PopSwing? ==> m.head != Some(pc.top)
    ensures Rely(m, t, m) && ThreadInv(m, t, Step(m, t, pc).1)
  {
    SameRely(m, t);
  }

  lemma StepKeeps(m: Shared, t: nat, pc: Pc)
    requires SharedInv(m) && ThreadInv(m, t, pc)
    ensures InRange(m, t, pc)
    ensures var (m', pc') := Step(m, t, pc); SharedInv(m') && Rely(m, t, m') && ThreadInv(m', t, pc')
  {
    match pc
    case PushStoreNext(n, h) => StoreNextKeeps(m, t, n, h);
    case PushSwing(n, h) => if m.head == h { PushKeeps(m, t, n, h); } else { PlainLoadKeeps(m, t, pc); }
    case PopSwing(top, nx) => if m.head == Some(top) { PopKeeps(m, t, top, nx); } else { PlainLoadKeeps(m, t, pc); }
    case PopPublish(_) => PopPublishKeeps(m, t, pc);
    case Republish(_, _) => PopPublishKeeps(m, t, pc);
    case PopReread(_) => PopReloadKeeps(m, t, pc);
    case Reload(_, _) => PopReloadKeeps(m, t, pc);
    case CollectState(_, _) => CollectKeeps(m, t, pc); SameRely(m, t);
    case CollectLoad(_, _) => CollectKeeps(m, t, pc); SameRely(m, t);
    case Sweep(_, _) => RescanKeeps(m, t, pc);
    case RescanState(_, _, _) => RescanKeeps(m, t, pc);
    case RescanLoad(_, _, _) => RescanKeeps(m, t, pc);
    case Destroy(marker, cache) => DestroyKeeps(m, t, marker, cache);
    case _ => PlainLoadKeeps(m, t, pc);
  }

  // ---------------------------------------------------------------- calls and private actions

  /** Taking an unused node to push it, or retiring a popped one. */
  lemma PlaceKeeps(m: Shared, t: nat, n: Node, p: Place)
    requires SharedInv(m) && t < |m.used| && n < |m.place|
    requires (m.place[n] == Unused && p == Held(t)) || (m.place[n] == Taken(t) && p == Retired(t))
    ensures var m' := m.(place := m.place[n := p]); SharedInv(m') && Rely(m, t, m')
  {
    var m' := m.(place := m.place[n := p]);
    forall i: nat | i < |m'.stk| ensures EntryOk(m', i) { assert EntryOk(m, i); }
    forall u: nat | u < |m.used| ensures GuardOk(m', u) && RecordRely(m, t, m', u) { assert GuardOk(m, u); }
  }

  /** When a reclaim begins, no record has been looked at. */
  lemma ReclaimBegins(m: Shared, t: nat, todo: seq<Node>)
    requires SharedInv(m) && t < |m.used| && m.used[t] && Pending(m, t, todo)
    ensures var m' := m.(todo := m.todo[t := todo]);
            SharedInv(m') && Rely(m, t, m') && ThreadInv(m', t, CollectState(0, []))
  {
    assert GuardOk(m, t);
    OwnRecordKeeps(m, t, m.(todo := m.todo[t := todo]));
  }

  lemma CallKeeps(s: State, l: Label, s': State)
    requires Inv(s) && Next(s, l, s') && !l.Access?
    ensures SharedInv(s'.m) && Rely(s.m, l.t, s'.m) && ThreadInv(s'.m, l.t, s'.pcs[l.t])
  {
    assert ThreadInv(s.m, l.t, s.pcs[l.t]) && GuardOk(s.m, l.t);
    match l
    case PushCall(t, n) => PlaceKeeps(s.m, t, n, Held(t));
    case PopCall(t) => SameRely(s.m, t);
    case Clear(t) => PublishKeeps(s.m, t, None);
    case Retire(t, n) => PlaceKeeps(s.m, t, n, Retired(t));
    case Reclaim(t, todo) => ReclaimBegins(s.m, t, todo);
    case Join(t) => OwnRecordKeeps(s.m, t, s'.m);
    case Leave(t) => OwnRecordKeeps(s.m, t, s'.m);
  }

  lemma NextInv(s: State, l: Label, s': State)
    requires Inv(s) && Next(s, l, s')
    ensures Inv(s')
  {
    assert ThreadInv(s.m, l.t, s.pcs[l.t]);
    if l.Access? { StepKeeps(s.m, l.t, s.pcs[l.t]); } else { CallKeeps(s, l, s'); }
    forall u: nat | u < |s'.pcs| ensures ThreadInv(s'.m, u, s'.pcs[u]) {
      if u != l.t { Stable(s.m, l.t, s'.m, u, s.pcs[u]); }
    }
  }
}
