/** Epoch reclamation: src/ck_epoch.c and include/ck_epoch.h.

  Thread t owns record t. A step is one access to a word that other threads read or write; what a
  thread does to fields that only it uses (buckets, pending lists) is part of the step beside it.
  The records are scanned from the newest to the oldest, as the list is. The epoch is unbounded.

  With `objects` every section is begun and ended with a section object, without it none is.

  `secs`, `live`, `low`, and the parts of entries and program counters named in their comments
  are history variables: no branch depends on them. */
module Epoch {
  import opened Prelude

  const GRACE := 3
  const SLOTS := 4

  /** A deferred callback: the function `cb`. History: the epoch under which it was filed and the sections
    that were open when `ck_epoch_call` read that epoch. */
  datatype Entry = Entry(cb: int, filed: nat, hazards: set<nat>)

  datatype Ref = Ref(epoch: nat, count: nat)

  /** History: `live` are the open sections, `low` is the oldest epoch that a section of the record,
    open or about to open, can have observed. */
  datatype Rec = Rec(free: bool, epoch: nat, active: nat, bucket: seq<Ref>, pending: seq<seq<Entry>>,
                     live: set<nat>, low: Option<nat>)

  /** One section: the epoch it observed (history) and its bucket index. */
  datatype Section = Section(at: nat, bucket: nat)

  datatype Shared = Shared(objects: bool, epoch: nat, recs: seq<Rec>, secs: seq<Section>)

  /** Who scans: a poll, or a synchronize that read epoch e0 while the sections `held` were open
    (history) and is in round i. */
  datatype Job = Poll | Sync(e0: nat, held: set<nat>, i: nat)

  /** `last` is what the end of a section returns. */
  datatype Answer = NoAnswer | Opened(id: nat) | Closed(last: bool) | Called | PollFalse | PollTrue | Synced(held: set<nat>)

  /** In the scan, `k` records are left, `af` is the activity flag, and `w` (history) is the number
    of sections that had been opened when the scan started. */
  datatype Pc =
    | Idle(answer: Answer)
    | BeginEnter
    | BeginLoad
    | BeginStore(g: nat)
    | AddRefLoad
    | AddRef(e: nat)
    | EndStore(id: nat)
    | DelRef(b: nat)
    | DelRefStore(e: nat)
    | CallLoad(cb: int)
    | CallPush(entry: Entry)
    | PollLoad
    | SyncLoad
    | ScanStart(job: Job, e: nat)
    | ScanState(job: Job, e: nat, k: nat, af: bool, w: nat)
    | ScanActive(job: Job, e: nat, k: nat, af: bool, w: nat)
    | ScanEpoch(job: Job, e: nat, k: nat, w: nat)
    | SyncReload(job: Job, e: nat, k: nat, w: nat)
    | Tick(job: Job, e: nat)
    | Quiesce(e: nat)
    | Drain(slot: nat)
    | Dispatch(e: nat)

  datatype State = State(m: Shared, pcs: seq<Pc>)

  const FreshRec := Rec(false, 0, 0, [Ref(0, 0), Ref(0, 0)], [[], [], [], []], {}, None)

  ghost predicate Init(s: State) {
    && s.m.epoch == 1 && s.m.secs == [] && |s.m.recs| == |s.pcs|
    && (forall t | 0 <= t < |s.pcs| :: s.m.recs[t] == FreshRec && s.pcs[t] == Idle(NoAnswer))
  }

  ghost function OpenSections(m: Shared): set<nat> {
    set r, id | 0 <= r < |m.recs| && id in m.recs[r].live :: id
  }

  /** Every section with this number has been closed. */
  ghost predicate Ended(m: Shared, id: nat) {
    id < |m.secs| && forall r | 0 <= r < |m.recs| :: id !in m.recs[r].live
  }

  ghost predicate InRange(m: Shared, t: nat, pc: Pc) {
    && t < |m.recs| && |m.recs[t].bucket| == 2 && |m.recs[t].pending| == SLOTS
    && (pc.ScanActive? || pc.ScanEpoch? || pc.ScanState? || pc.SyncReload? ==> pc.k <= |m.recs|)
    && (pc.ScanActive? || pc.ScanEpoch? || pc.SyncReload? ==> pc.k > 0)
    && (pc.EndStore? ==> pc.id < |m.secs| && m.recs[t].active > 0)
    && (pc.DelRef? ==> pc.b < 2 && m.recs[t].bucket[pc.b].count > 0)
    && (pc.Drain? ==> pc.slot < SLOTS)
    && (pc.SyncReload? ==> pc.job.Sync?)
  }

  ghost function Put(m: Shared, t: nat, r: Rec): Shared
    requires t < |m.recs|
  {
    m.(recs := m.recs[t := r])
  }

  /** `ck_epoch_begin`, with `_ck_epoch_addref`. */
  ghost function BeginStep(m: Shared, t: nat, pc: Pc): (Shared, Pc)
    requires InRange(m, t, pc)
  {
    var r := m.recs[t];
    match pc
    case BeginEnter =>
      (Put(m, t, r.(active := r.active + 1)), if r.active == 0 then BeginLoad else AddRefLoad)
    case BeginLoad => (Put(m, t, r.(low := Some(m.epoch))), BeginStore(m.epoch))
    case BeginStore(g) => (Put(m, t, r.(epoch := g)), AddRefLoad)
    case AddRefLoad =>
      if m.objects then (m, AddRef(m.epoch))
      else
        (Put(m, t, r.(live := r.live + {|m.secs|})).(secs := m.secs + [Section(r.epoch, 0)]),
         Idle(Opened(|m.secs|)))
    case AddRef(e) =>
      var b := e % 2;
      var ref := r.bucket[b];
      var ref' := Ref(if ref.count == 0 then e else ref.epoch, ref.count + 1);
      (Put(m, t, r.(bucket := r.bucket[b := ref'], live := r.live + {|m.secs|}))
         .(secs := m.secs + [Section(e, b)]),
       Idle(Opened(|m.secs|)))
    case _ => (m, pc)
  }

  /** `ck_epoch_end`, with `_ck_epoch_delref`. */
  ghost function EndStep(m: Shared, t: nat, pc: Pc): (Shared, Pc)
    requires InRange(m, t, pc)
  {
    var r := m.recs[t];
    match pc
    case EndStore(id) =>
      var live := r.live - {id};
      (Put(m, t, r.(active := r.active - 1, live := live, low := if live == {} then None else r.low)),
       if m.objects then DelRef(m.secs[id].bucket) else Idle(Closed(r.active == 1)))
    case DelRef(b) =>
      var cur := r.bucket[b].(count := r.bucket[b].count - 1);
      var other := r.bucket[(b + 1) % 2];
      (Put(m, t, r.(bucket := r.bucket[b := cur])),
       if cur.count == 0 && other.count > 0 && cur.epoch < other.epoch then DelRefStore(other.epoch)
       else Idle(Closed(cur.count == 0)))
    case DelRefStore(e) =>
      (Put(m, t, r.(epoch := e, low := if r.low.Some? then Some(e) else None)), Idle(Closed(true)))
    case _ => (m, pc)
  }

  /** `ck_epoch_call`. */
  ghost function CallStep(m: Shared, t: nat, pc: Pc): (Shared, Pc)
    requires InRange(m, t, pc)
  {
    var r := m.recs[t];
    match pc
    case CallLoad(cb) => (m, CallPush(Entry(cb, m.epoch, OpenSections(m))))
    case CallPush(x) =>
      var o := x.filed % SLOTS;
      (Put(m, t, r.(pending := r.pending[o := [x] + r.pending[o]])), Idle(Called))
    case _ => (m, pc)
  }

  /** What follows a scan that found no record in the way. */
  ghost function Scanned(job: Job, e: nat, af: bool): Pc {
    if af then Tick(job, e) else if job.Poll? then Quiesce(e) else Idle(Synced(job.held))
  }

  /** `ck_epoch_scan` as `ck_epoch_poll_deferred` and `ck_epoch_synchronize_wait` use it. */
  ghost function ScanStep(m: Shared, t: nat, pc: Pc): (Shared, Pc)
    requires InRange(m, t, pc)
  {
    match pc
    case PollLoad => (m, ScanStart(Poll, m.epoch))
    case SyncLoad => (m, ScanStart(Sync(m.epoch, OpenSections(m), 0), m.epoch))
    case ScanStart(job, e) => (m, ScanState(job, e, |m.recs|, false, |m.secs|))
    case ScanState(job, e, k, af, w) =>
      if k == 0 then (m, Scanned(job, e, af))
      else if m.recs[k - 1].free then (m, ScanState(job, e, k - 1, af, w))
      else (m, ScanActive(job, e, k, af, w))
    case ScanActive(job, e, k, af, w) =>
      if m.recs[k - 1].active == 0 then (m, ScanState(job, e, k - 1, af, w))
      else (m, ScanEpoch(job, e, k, w))
    case ScanEpoch(job, e, k, w) =>
      if m.recs[k - 1].epoch == e then (m, ScanState(job, e, k - 1, true, w))
      else if job.Poll? then (m, Idle(PollFalse))
      else (m, SyncReload(job, e, k, w))
    case SyncReload(job, e, k, w) =>
      if m.epoch == e then (m, ScanState(job, e, k, true, w))
      else if m.epoch >= job.e0 + GRACE then (m, Idle(Synced(job.held)))
      else (m, ScanStart(job, m.epoch))
    case _ => (m, pc)
  }

  /** The tick, and the dispatch of a poll. */
  ghost function FinishStep(m: Shared, t: nat, pc: Pc): (Shared, Pc)
    requires InRange(m, t, pc)
  {
    var r := m.recs[t];
    match pc
    case Tick(job, e) =>
      var m' := if m.epoch == e then m.(epoch := e + 1) else m;
      (m', if job.Poll? then Dispatch(e)
           else if job.i + 1 == GRACE - 1 then Idle(Synced(job.held))
           else ScanStart(job.(i := job.i + 1), m'.epoch))
    case Quiesce(e) => (Put(m, t, r.(epoch := e)), Drain(0))
    case Drain(slot) =>
      (Put(m, t, r.(pending := r.pending[slot := []])),
       if slot + 1 == SLOTS then Idle(PollTrue) else Drain(slot + 1))
    case Dispatch(e) => (Put(m, t, r.(pending := r.pending[DispatchSlot(e) := []])), Idle(PollTrue))
    case _ => (m, pc)
  }

  /** `(epoch - 2) & (CK_EPOCH_LENGTH - 1)` on unsigned integers. */
  ghost function DispatchSlot(e: nat): nat {
    (e + SLOTS - 2) % SLOTS
  }

  ghost function Step(m: Shared, t: nat, pc: Pc): (Shared, Pc)
    requires InRange(m, t, pc)
  {
    if pc.BeginEnter? || pc.BeginLoad? || pc.BeginStore? || pc.AddRefLoad? || pc.AddRef? then BeginStep(m, t, pc)
    else if pc.EndStore? || pc.DelRef? || pc.DelRefStore? then EndStep(m, t, pc)
    else if pc.CallLoad? || pc.CallPush? then CallStep(m, t, pc)
    else if pc.Tick? || pc.Quiesce? || pc.Drain? || pc.Dispatch? then FinishStep(m, t, pc)
    else ScanStep(m, t, pc)
  }

  /** The callbacks that a step of thread t runs. */
  ghost function Runs(m: Shared, t: nat, pc: Pc): seq<Entry>
    requires InRange(m, t, pc)
  {
    if pc.Drain? then m.recs[t].pending[pc.slot]
    else if pc.Dispatch? then m.recs[t].pending[DispatchSlot(pc.e)] else []
  }

  datatype Label =
    | Begin(t: nat) | End(t: nat, id: nat) | Call(t: nat, cb: int) | PollCall(t: nat) | SyncCall(t: nat)
    | Access(t: nat) | Register | Unregister(t: nat) | Recycle(t: nat)

  /** A thread may call when it is idle and its record is in use. */
  ghost predicate MayCall(s: State, t: nat) {
    t < |s.pcs| == |s.m.recs| && s.pcs[t].Idle? && !s.m.recs[t].free
  }

  ghost predicate Next(s: State, l: Label, s': State) {
    match l
    case Begin(t) => MayCall(s, t) && s' == s.(pcs := s.pcs[t := BeginEnter])
    case End(t, id) =>
      MayCall(s, t) && id in s.m.recs[t].live && s' == s.(pcs := s.pcs[t := EndStore(id)])
    case Call(t, cb) => MayCall(s, t) && s' == s.(pcs := s.pcs[t := CallLoad(cb)])
    case PollCall(t) => MayCall(s, t) && s' == s.(pcs := s.pcs[t := PollLoad])
    case SyncCall(t) =>
      MayCall(s, t) && s.m.recs[t].live == {} && s' == s.(pcs := s.pcs[t := SyncLoad])
    case Access(t) =>
      && t < |s.pcs| && InRange(s.m, t, s.pcs[t])
      && var (m', pc') := Step(s.m, t, s.pcs[t]); s' == State(m', s.pcs[t := pc'])
    case Register =>
      s' == State(s.m.(recs := s.m.recs + [FreshRec]), s.pcs + [Idle(NoAnswer)])
    case Unregister(t) =>
      && MayCall(s, t) && s.m.recs[t].live == {} && s.m.recs[t].pending == FreshRec.pending
      && s' == s.(m := Put(s.m, t, FreshRec.(free := true)))
    case Recycle(t) =>
      && t < |s.pcs| == |s.m.recs| && s.m.recs[t].free && s.pcs[t].Idle?
      && s' == s.(m := Put(s.m, t, s.m.recs[t].(free := false)))
  }

  // ---------------------------------------------------------------- invariant

  /** The first clause is the bound that the whole scheme rests on: what a section of the record
    can have observed is the global epoch or the one before it. */
  ghost predicate RecOk(m: Shared, r: nat)
    requires r < |m.recs|
  {
    var c := m.recs[r];
    && (c.low.Some? ==> c.low.value <= m.epoch <= c.low.value + 1 && c.epoch <= c.low.value)
    && (c.live != {} ==> c.low.Some?)
    && (c.active == 0 ==> c.low == None)
    && (c.free ==> c.active == 0)
    && c.epoch <= m.epoch
    && (forall id | id in c.live ::
          id < |m.secs| && m.secs[id].at <= m.epoch && (c.low.Some? ==> c.low.value <= m.secs[id].at))
    && |c.bucket| == 2 && |c.pending| == SLOTS
  }

  ghost predicate SharedInv(m: Shared) {
    forall r: nat | r < |m.recs| :: RecOk(m, r)
  }

  ghost predicate EntryOk(m: Shared, x: Entry) {
    x.filed <= m.epoch && forall h | h in x.hazards :: h < |m.secs| && m.secs[h].at <= x.filed
  }

  ghost predicate Pending(m: Shared, t: nat, bound: nat)
    requires t < |m.recs| && |m.recs[t].pending| == SLOTS
  {
    forall o, i | 0 <= o < SLOTS && 0 <= i < |m.recs[t].pending[o]| ::
      var x := m.recs[t].pending[o][i]; EntryOk(m, x) && x.filed % SLOTS == o && x.filed <= bound
  }

  ghost function InBucket(secs: seq<Section>, live: set<nat>, b: nat): set<nat> {
    set id | id in live && id < |secs| && secs[id].bucket == b
  }

  /** Bucket b counts the live sections that were opened under its epoch and no others; `left` is 1
    while a section that has ended is still counted. */
  ghost predicate BucketOk(secs: seq<Section>, live: set<nat>, ref: Ref, left: nat, b: nat) {
    && ref.count == |InBucket(secs, live, b)| + left
    && (forall id | id in InBucket(secs, live, b) :: secs[id].at == ref.epoch && secs[id].at % 2 == b)
  }

  ghost predicate BucketsOk(m: Shared, t: nat, pc: Pc)
    requires t < |m.recs| && |m.recs[t].bucket| == 2
  {
    var c := m.recs[t];
    && BucketOk(m.secs, c.live, c.bucket[0], if pc == DelRef(0) then 1 else 0, 0)
    && BucketOk(m.secs, c.live, c.bucket[1], if pc == DelRef(1) then 1 else 0, 1)
  }

  ghost predicate Begun(pc: Pc) {
    pc.BeginLoad? || pc.BeginStore? || pc.AddRefLoad? || pc.AddRef?
  }

  /** How a thread's own record fits its program counter. */
  ghost predicate OwnInv(m: Shared, t: nat, pc: Pc)
    requires t < |m.recs| && RecOk(m, t)
  {
    var c := m.recs[t];
    && c.active == |c.live| + (if Begun(pc) then 1 else 0)
    && (c.low.Some? <==> c.live != {} || pc.BeginStore? || pc.AddRefLoad? || pc.AddRef?)
    && (pc.BeginLoad? || pc.BeginStore? ==> c.live == {})
    && (pc.BeginStore? ==> c.low == Some(pc.g))
    && (c.low.Some? && !pc.BeginStore? ==> c.low.value == c.epoch)
    && (pc.AddRef? ==> m.objects && c.epoch <= pc.e <= m.epoch)
    && (pc.EndStore? ==> pc.id in c.live)
    && (pc.DelRef? ==> m.objects && pc.b < 2)
    && (pc.DelRefStore? ==> m.objects && c.live != {} && c.epoch <= pc.e && forall id | id in c.live :: pc.e <= m.secs[id].at)
    && (c.free ==> pc.Idle?)
    && (forall id | id in c.live && m.objects :: m.secs[id].bucket < 2)
    && (m.objects ==> BucketsOk(m, t, pc))
    && (pc.CallPush? ==> EntryOk(m, pc.entry))
    && Pending(m, t, m.epoch)
  }

  /** A scan at epoch e that has passed record r: no section of r, now or later, observed less. */
  ghost predicate Passed(m: Shared, r: nat, e: nat)
    requires r < |m.recs|
  {
    m.recs[r].low.Some? ==> e <= m.recs[r].low.value
  }

  /** Record r was seen inactive: what is open in it now was opened after the scan began. */
  ghost predicate Quiet(m: Shared, r: nat, w: nat)
    requires r < |m.recs|
  {
    forall id | id in m.recs[r].live :: w <= id
  }

  ghost predicate ScanInv(m: Shared, t: nat, job: Job, e: nat, k: nat, af: bool, w: nat)
    requires t < |m.recs| && RecOk(m, t)
  {
    && JobInv(m, t, job, e) && k <= |m.recs| && w <= |m.secs|
    && (forall r: nat | k <= r < |m.recs| :: Passed(m, r, e))
    && (!af ==> forall r: nat | k <= r < |m.recs| :: Quiet(m, r, w))
    && (forall id | id in m.recs[t].live :: id < w)
    && (job.Sync? ==> forall h | h in job.held :: h < w)
    && (job.Poll? ==> forall o, i, h | 0 <= o < SLOTS && 0 <= i < |m.recs[t].pending[o]|
                                       && h in m.recs[t].pending[o][i].hazards :: h < w)
  }

  ghost predicate JobInv(m: Shared, t: nat, job: Job, e: nat)
    requires t < |m.recs| && RecOk(m, t)
  {
    && e <= m.epoch
    && match job
       case Poll => Pending(m, t, e)
       case Sync(e0, held, i) =>
         && e0 <= e && i < GRACE - 1 && (i > 0 ==> e0 < e)
         && forall h | h in held :: h < |m.secs| && m.secs[h].at <= e0
  }

  ghost predicate AllPassed(m: Shared, e: nat) {
    forall r: nat | r < |m.recs| :: Passed(m, r, e)
  }

  ghost predicate HazardsEnded(m: Shared, t: nat)
    requires t < |m.recs| && |m.recs[t].pending| == SLOTS
  {
    forall o, i, h | 0 <= o < SLOTS && 0 <= i < |m.recs[t].pending[o]| && h in m.recs[t].pending[o][i].hazards ::
      Ended(m, h)
  }

  ghost predicate ScannerInv(m: Shared, t: nat, pc: Pc)
    requires t < |m.recs| && RecOk(m, t)
  {
    match pc
    case ScanStart(job, e) => JobInv(m, t, job, e)
    case ScanState(job, e, k, af, w) => ScanInv(m, t, job, e, k, af, w)
    case ScanActive(job, e, k, af, w) => k > 0 && ScanInv(m, t, job, e, k, af, w)
    case ScanEpoch(job, e, k, w) => k > 0 && ScanInv(m, t, job, e, k, true, w)
    case SyncReload(job, e, k, w) => job.Sync? && k > 0 && ScanInv(m, t, job, e, k, true, w)
    case Tick(job, e) => JobInv(m, t, job, e) && AllPassed(m, e)
    case Quiesce(e) => e <= m.epoch && m.recs[t].live == {} && HazardsEnded(m, t)
    case Drain(slot) => slot < SLOTS && HazardsEnded(m, t)
    case Dispatch(e) => JobInv(m, t, Poll, e) && AllPassed(m, e)
    case Idle(Synced(held)) => forall h | h in held :: Ended(m, h)
    case _ => true
  }

  ghost predicate ThreadInv(m: Shared, t: nat, pc: Pc) {
    t < |m.recs| && RecOk(m, t) && OwnInv(m, t, pc) && ScannerInv(m, t, pc)
  }

  ghost predicate Inv(s: State) {
    && SharedInv(s.m) && |s.pcs| == |s.m.recs|
    && forall t: nat | t < |s.pcs| :: ThreadInv(s.m, t, s.pcs[t])
  }

  /** What a step of thread t may do to anything that another thread's assertions mention: it writes
    only its own record, and the view of that record never moves back behind the global epoch. */
  ghost predicate Rely(m: Shared, t: nat, m': Shared) {
    && m'.objects == m.objects && m.epoch <= m'.epoch
    && |m.recs| <= |m'.recs| && |m.secs| <= |m'.secs|
    && (forall i | 0 <= i < |m.secs| :: m'.secs[i] == m.secs[i])
    && (forall r | 0 <= r < |m.recs| && r != t :: m'.recs[r] == m.recs[r])
    && (forall r | |m.recs| <= r < |m'.recs| :: m'.recs[r].live == {} && m'.recs[r].low == None)
    && (t < |m.recs| ==>
          && (m'.recs[t].low.Some? ==>
                (m.recs[t].low.Some? && m.recs[t].low.value <= m'.recs[t].low.value) || m.epoch <= m'.recs[t].low.value)
          && (forall id | id in m'.recs[t].live :: id in m.recs[t].live || |m.secs| <= id))
  }

  lemma PassedStable(m: Shared, t: nat, m': Shared, e: nat, k: nat)
    requires Rely(m, t, m') && e <= m.epoch && k <= |m.recs|
    requires forall r: nat | k <= r < |m.recs| :: Passed(m, r, e)
    ensures forall r: nat | k <= r < |m'.recs| :: Passed(m', r, e)
  {
    forall r: nat | k <= r < |m'.recs| ensures Passed(m', r, e) {
      if r < |m.recs| { assert Passed(m, r, e); }
    }
  }

  lemma QuietStable(m: Shared, t: nat, m': Shared, w: nat, k: nat)
    requires Rely(m, t, m') && w <= |m.secs| && k <= |m.recs|
    requires forall r: nat | k <= r < |m.recs| :: Quiet(m, r, w)
    ensures forall r: nat | k <= r < |m'.recs| :: Quiet(m', r, w)
  {
    forall r: nat | k <= r < |m'.recs| ensures Quiet(m', r, w) {
      if r < |m.recs| { assert Quiet(m, r, w); }
    }
  }

  lemma EndedStable(m: Shared, t: nat, m': Shared, h: nat)
    requires Rely(m, t, m') && Ended(m, h)
    ensures Ended(m', h)
  {
  }

  lemma OwnStable(m: Shared, t: nat, m': Shared, u: nat, pc: Pc)
    requires Rely(m, t, m') && ThreadInv(m, u, pc) && u != t && RecOk(m', u)
    ensures OwnInv(m', u, pc)
  {
    BucketGrow(m.secs, m'.secs, m.recs[u].live);
  }

  /** Sections opened elsewhere do not enter this record's buckets. */
  lemma BucketGrow(secs: seq<Section>, secs': seq<Section>, live: set<nat>)
    requires |secs| <= |secs'| && forall i | 0 <= i < |secs| :: secs'[i] == secs[i]
    requires forall id | id in live :: id < |secs|
    ensures forall b: nat :: InBucket(secs', live, b) == InBucket(secs, live, b)
  {
  }

  lemma BucketAdd(secs: seq<Section>, live: set<nat>, ref: Ref, e: nat, b: nat)
    requires BucketOk(secs, live, ref, 0, b) && e % 2 == b
    requires forall id | id in live :: id < |secs|
    requires forall id | id in InBucket(secs, live, b) :: secs[id].at == e
    ensures BucketOk(secs + [Section(e, b)], live + {|secs|}, Ref(if ref.count == 0 then e else ref.epoch, ref.count + 1), 0, b)
  {
    var secs' := secs + [Section(e, b)];
    assert InBucket(secs', live + {|secs|}, b) == InBucket(secs, live, b) + {|secs|};
    if ref.count > 0 {
      assert InBucket(secs, live, b) != {};
      var x :| x in InBucket(secs, live, b);
    }
  }

  lemma BucketSkip(secs: seq<Section>, live: set<nat>, ref: Ref, x: Section, b: nat)
    requires BucketOk(secs, live, ref, 0, b) && x.bucket != b
    requires forall id | id in live :: id < |secs|
    ensures BucketOk(secs + [x], live + {|secs|}, ref, 0, b)
  {
    assert InBucket(secs + [x], live + {|secs|}, b) == InBucket(secs, live, b);
  }

  lemma BucketDrop(secs: seq<Section>, live: set<nat>, ref: Ref, id: nat, b: nat)
    requires BucketOk(secs, live, ref, 0, b) && id in live && id < |secs|
    ensures BucketOk(secs, live - {id}, ref, if secs[id].bucket == b then 1 else 0, b)
  {
    if secs[id].bucket == b {
      assert InBucket(secs, live, b) == InBucket(secs, live - {id}, b) + {id};
    } else {
      assert InBucket(secs, live, b) == InBucket(secs, live - {id}, b);
    }
  }

  lemma JobStable(m: Shared, t: nat, m': Shared, u: nat, job: Job, e: nat)
    requires Rely(m, t, m') && u != t && u < |m.recs| && RecOk(m, u) && RecOk(m', u) && JobInv(m, u, job, e)
    ensures JobInv(m', u, job, e)
  {
  }

  lemma ScanStable(m: Shared, t: nat, m': Shared, u: nat, job: Job, e: nat, k: nat, af: bool, w: nat)
    requires Rely(m, t, m') && u != t && u < |m.recs| && RecOk(m, u) && RecOk(m', u) && ScanInv(m, u, job, e, k, af, w)
    ensures ScanInv(m', u, job, e, k, af, w)
  {
    JobStable(m, t, m', u, job, e);
    PassedStable(m, t, m', e, k);
    if !af { QuietStable(m, t, m', w, k); }
  }

  lemma ScannerStable(m: Shared, t: nat, m': Shared, u: nat, pc: Pc)
    requires Rely(m, t, m') && ThreadInv(m, u, pc) && u != t && RecOk(m', u)
    ensures ScannerInv(m', u, pc)
  {
    match pc {
      case ScanState(job, e, k, af, w) => ScanStable(m, t, m', u, job, e, k, af, w);
      case ScanActive(job, e, k, af, w) => ScanStable(m, t, m', u, job, e, k, af, w);
      case ScanEpoch(job, e, k, w) => ScanStable(m, t, m', u, job, e, k, true, w);
      case SyncReload(job, e, k, w) => ScanStable(m, t, m', u, job, e, k, true, w);
      case ScanStart(job, e) => JobStable(m, t, m', u, job, e);
      case Tick(job, e) => TickStable(m, t, m', u, job, e);
      case Dispatch(e) => TickStable(m, t, m', u, Poll, e);
      case Quiesce(_) => HazardsStable(m, t, m', u);
      case Drain(_) => HazardsStable(m, t, m', u);
      case Idle(answer) =>
        if answer.Synced? {
          forall h | h in answer.held ensures Ended(m', h) { EndedStable(m, t, m', h); }
        }
      case _ =>
    }
  }

  lemma TickStable(m: Shared, t: nat, m': Shared, u: nat, job: Job, e: nat)
    requires Rely(m, t, m') && u != t && u < |m.recs| && RecOk(m, u) && RecOk(m', u) && JobInv(m, u, job, e) && AllPassed(m, e)
    ensures JobInv(m', u, job, e) && AllPassed(m', e)
  {
    JobStable(m, t, m', u, job, e);
    PassedStable(m, t, m', e, 0);
  }

  lemma HazardsStable(m: Shared, t: nat, m': Shared, u: nat)
    requires Rely(m, t, m') && u != t && u < |m.recs| && |m.recs[u].pending| == SLOTS && HazardsEnded(m, u)
    ensures m'.recs[u] == m.recs[u] && HazardsEnded(m', u)
  {
    forall h: nat | Ended(m, h) ensures Ended(m', h) { EndedStable(m, t, m', h); }
  }
}
