/** Every step of the machine of `Epoch.dfy` keeps its invariant. */
module EpochSteps {
  import opened Prelude
  import opened Epoch

  lemma InitInv(s: State)
    requires Init(s)
    ensures Inv(s)
  {
  }

  ghost predicate Kept(m: Shared, t: nat, m': Shared, pc': Pc) {
    SharedInv(m') && Rely(m, t, m') && ThreadInv(m', t, pc')
  }

  /** A step that writes only record t, and possibly opens a section, keeps the other records. */
  lemma OnlyOwn(m: Shared, t: nat, m': Shared)
    requires SharedInv(m) && t < |m.recs| && |m'.recs| == |m.recs| && m'.epoch == m.epoch
    requires m'.recs == m.recs[t := m'.recs[t]] && m.secs <= m'.secs && RecOk(m', t)
    ensures SharedInv(m')
  {
    forall r: nat | r < |m'.recs| ensures RecOk(m', r) { assert RecOk(m, r); }
  }

  lemma EnterKeeps(m: Shared, t: nat, pc: Pc)
    requires SharedInv(m) && ThreadInv(m, t, pc) && (pc.BeginEnter? || pc.BeginLoad? || pc.BeginStore?)
    ensures InRange(m, t, pc)
    ensures var (m', pc') := BeginStep(m, t, pc); Kept(m, t, m', pc')
  {
    OnlyOwn(m, t, BeginStep(m, t, pc).0);
  }

  /** Opening a section without an object. */
  lemma OpenPlainKeeps(m: Shared, t: nat)
    requires SharedInv(m) && ThreadInv(m, t, AddRefLoad) && !m.objects
    ensures InRange(m, t, AddRefLoad)
    ensures var (m', pc') := BeginStep(m, t, AddRefLoad); Kept(m, t, m', pc')
  {
    var m' := BeginStep(m, t, AddRefLoad).0;
    OnlyOwn(m, t, m');
    assert |m'.recs[t].live| == |m.recs[t].live| + 1;
  }

  /** Taking a reference: the bucket of the epoch just read holds references of that epoch only,
    because the record's sections reach back one epoch at most. */
  lemma AddRefBuckets(m: Shared, t: nat, e: nat)
    requires ThreadInv(m, t, AddRef(e))
    ensures var (m', pc') := BeginStep(m, t, AddRef(e)); RecOk(m', t) && BucketsOk(m', t, pc')
  {
    var c, b := m.recs[t], e % 2;
    forall id | id in InBucket(m.secs, c.live, b) ensures m.secs[id].at == e {
      assert m.epoch - 1 <= m.secs[id].at <= m.epoch;
    }
    BucketAdd(m.secs, c.live, c.bucket[b], e, b);
    BucketSkip(m.secs, c.live, c.bucket[1 - b], Section(e, b), 1 - b);
  }

  lemma AddRefKeeps(m: Shared, t: nat, e: nat)
    requires SharedInv(m) && ThreadInv(m, t, AddRef(e))
    ensures InRange(m, t, AddRef(e))
    ensures var (m', pc') := BeginStep(m, t, AddRef(e)); Kept(m, t, m', pc')
  {
    var m' := BeginStep(m, t, AddRef(e)).0;
    AddRefBuckets(m, t, e);
    assert |m'.recs[t].live| == |m.recs[t].live| + 1;
    OnlyOwn(m, t, m');
  }

  lemma AddRefLoadKeeps(m: Shared, t: nat)
    requires SharedInv(m) && ThreadInv(m, t, AddRefLoad) && m.objects
    ensures Kept(m, t, m, AddRef(m.epoch))
  {
  }

  lemma EndStoreBuckets(m: Shared, t: nat, id: nat)
    requires SharedInv(m) && ThreadInv(m, t, EndStore(id)) && m.objects
    ensures InRange(m, t, EndStore(id))
    ensures var (m', pc') := EndStep(m, t, EndStore(id)); |m'.recs[t].bucket| == 2 && BucketsOk(m', t, pc')
  {
    var c := m.recs[t];
    assert c.live != {};
    BucketDrop(m.secs, c.live, c.bucket[0], id, 0);
    BucketDrop(m.secs, c.live, c.bucket[1], id, 1);
  }

  lemma EndStoreKeeps(m: Shared, t: nat, id: nat)
    requires SharedInv(m) && ThreadInv(m, t, EndStore(id))
    ensures InRange(m, t, EndStore(id))
    ensures var (m', pc') := EndStep(m, t, EndStore(id)); Kept(m, t, m', pc')
  {
    var m', c := EndStep(m, t, EndStore(id)).0, m.recs[t];
    OneLess(c.live, id);
    if m.objects { EndStoreBuckets(m, t, id); }
    OnlyOwn(m, t, m');
  }

  lemma OneLess(live: set<nat>, id: nat)
    requires id in live
    ensures |live| == |live - {id}| + 1
  {
    assert live == live - {id} + {id};
  }

  /** Dropping a reference; the store that may follow never passes a live section. */
  lemma DelRefKeeps(m: Shared, t: nat, b: nat)
    requires SharedInv(m) && ThreadInv(m, t, DelRef(b))
    ensures InRange(m, t, DelRef(b))
    ensures var (m', pc') := EndStep(m, t, DelRef(b)); Kept(m, t, m', pc')
  {
    var (m', pc') := EndStep(m, t, DelRef(b));
    var live := m.recs[t].live;
    OnlyOwn(m, t, m');
    if pc'.DelRefStore? {
      assert InBucket(m.secs, live, b) == {};
      forall id | id in live ensures m.secs[id].at == pc'.e {
        assert id in InBucket(m.secs, live, 0) || id in InBucket(m.secs, live, 1);
      }
      assert InBucket(m.secs, live, 1 - b) != {};
      var x :| x in InBucket(m.secs, live, 1 - b);
      assert m.secs[x].at == pc'.e;
    }
  }

  lemma DelRefStoreKeeps(m: Shared, t: nat, e: nat)
    requires SharedInv(m) && ThreadInv(m, t, DelRefStore(e))
    ensures InRange(m, t, DelRefStore(e))
    ensures var (m', pc') := EndStep(m, t, DelRefStore(e)); Kept(m, t, m', pc')
  {
    var x :| x in m.recs[t].live;
    assert e <= m.secs[x].at <= m.epoch;
    OnlyOwn(m, t, EndStep(m, t, DelRefStore(e)).0);
  }

  lemma CallLoadKeeps(m: Shared, t: nat, cb: int)
    requires SharedInv(m) && ThreadInv(m, t, CallLoad(cb))
    ensures Kept(m, t, m, CallPush(Entry(cb, m.epoch, OpenSections(m))))
  {
    forall h | h in OpenSections(m) ensures h < |m.secs| && m.secs[h].at <= m.epoch {
      var r: nat :| r < |m.recs| && h in m.recs[r].live;
      assert RecOk(m, r);
    }
  }

  lemma CallPushKeeps(m: Shared, t: nat, x: Entry)
    requires SharedInv(m) && ThreadInv(m, t, CallPush(x))
    ensures InRange(m, t, CallPush(x))
    ensures var (m', pc') := CallStep(m, t, CallPush(x)); Kept(m, t, m', pc')
  {
    var m' := CallStep(m, t, CallPush(x)).0;
    var o := x.filed % SLOTS;
    OnlyOwn(m, t, m');
    forall k, i | 0 <= k < SLOTS && 0 <= i < |m'.recs[t].pending[k]|
      ensures var y := m'.recs[t].pending[k][i]; EntryOk(m', y) && y.filed % SLOTS == k
    {
      if k == o && i == 0 {} else {
        var y := m.recs[t].pending[k][if k == o then i - 1 else i];
        assert m'.recs[t].pending[k][i] == y && EntryOk(m, y);
      }
    }
  }

  // ---------------------------------------------------------------- scan, tick, dispatch

  lemma ScanBeginKeeps(m: Shared, t: nat, pc: Pc)
    requires SharedInv(m) && ThreadInv(m, t, pc)
    requires pc.PollLoad? || pc.SyncLoad? || pc.ScanStart?
    ensures ThreadInv(m, t, ScanStep(m, t, pc).1)
  {
    if pc.SyncLoad? {
      forall h | h in OpenSections(m) ensures h < |m.secs| && m.secs[h].at <= m.epoch {
        var r: nat :| r < |m.recs| && h in m.recs[r].live;
        assert RecOk(m, r);
      }
    }
  }

  /** Seen inactive, or seen active under the epoch of the scan: either way the record is passed. */
  lemma ScanRecord(m: Shared, e: nat, k: nat, af: bool, w: nat)
    requires SharedInv(m) && 0 < k <= |m.recs| && w <= |m.secs|
    requires forall r: nat | k <= r < |m.recs| :: Passed(m, r, e)
    requires !af ==> forall r: nat | k <= r < |m.recs| :: Quiet(m, r, w)
    requires m.recs[k - 1].active == 0 || (af && m.recs[k - 1].epoch == e)
    ensures forall r: nat | k - 1 <= r < |m.recs| :: Passed(m, r, e)
    ensures !af ==> forall r: nat | k - 1 <= r < |m.recs| :: Quiet(m, r, w)
  {
    assert RecOk(m, k - 1);
  }

  lemma ScanMoveKeeps(m: Shared, t: nat, pc: Pc)
    requires SharedInv(m) && ThreadInv(m, t, pc)
    requires pc.ScanActive? || pc.ScanEpoch? || pc.SyncReload? || (pc.ScanState? && pc.k > 0)
    requires !ScanStep(m, t, pc).1.Idle?
    ensures ThreadInv(m, t, ScanStep(m, t, pc).1)
  {
    var pc' := ScanStep(m, t, pc).1;
    assert RecOk(m, pc.k - 1);
    if pc'.ScanState? && pc'.k < pc.k {
      ScanRecord(m, pc.e, pc.k, pc.ScanEpoch? || pc.af, pc.w);
    }
  }

  /** Nothing observed before the scan's epoch is open any more. */
  lemma OlderEnded(m: Shared, e: nat, h: nat)
    requires SharedInv(m) && AllPassed(m, e) && h < |m.secs| && m.secs[h].at < e
    ensures Ended(m, h)
  {
    forall r | 0 <= r < |m.recs| ensures h !in m.recs[r].live {
      assert RecOk(m, r) && Passed(m, r, e);
    }
  }

  /** Nothing opened before a scan that saw every record inactive is open any more. */
  lemma QuietEnded(m: Shared, w: nat, h: nat)
    requires SharedInv(m) && h < w <= |m.secs|
    requires forall r: nat | r < |m.recs| :: Quiet(m, r, w)
    ensures Ended(m, h)
  {
    forall r | 0 <= r < |m.recs| ensures h !in m.recs[r].live {
      assert Quiet(m, r, w);
    }
  }

  lemma ScanDoneKeeps(m: Shared, t: nat, pc: Pc)
    requires SharedInv(m) && ThreadInv(m, t, pc) && pc.ScanState? && pc.k == 0
    ensures ThreadInv(m, t, Scanned(pc.job, pc.e, pc.af))
  {
    if !pc.af {
      forall h | 0 <= h < pc.w ensures Ended(m, h) { QuietEnded(m, pc.w, h); }
      assert Quiet(m, t, pc.w);
    }
  }

  /** The third exit of a synchronize: the epoch moved three steps, and whoever is active now
    cannot have observed the one it started from. */
  lemma GoalKeeps(m: Shared, t: nat, pc: Pc)
    requires SharedInv(m) && ThreadInv(m, t, pc) && pc.SyncReload? && m.epoch >= pc.job.e0 + GRACE
    ensures ThreadInv(m, t, Idle(Synced(pc.job.held)))
  {
    var e := m.epoch - 1;
    forall r: nat | r < |m.recs| ensures Passed(m, r, e) { assert RecOk(m, r); }
    forall h | h in pc.job.held ensures Ended(m, h) { OlderEnded(m, e, h); }
  }

  /** A tick keeps every active record within one epoch of the new value. */
  lemma TickShared(m: Shared, e: nat)
    requires SharedInv(m) && AllPassed(m, e) && m.epoch == e
    ensures SharedInv(m.(epoch := e + 1))
  {
    var m' := m.(epoch := e + 1);
    forall r: nat | r < |m'.recs| ensures RecOk(m', r) { assert RecOk(m, r) && Passed(m, r, e); }
  }

  lemma TickKeeps(m: Shared, t: nat, job: Job, e: nat)
    requires SharedInv(m) && ThreadInv(m, t, Tick(job, e))
    ensures InRange(m, t, Tick(job, e))
    ensures var (m', pc') := FinishStep(m, t, Tick(job, e)); Kept(m, t, m', pc')
  {
    var (m', pc') := FinishStep(m, t, Tick(job, e));
    if m.epoch == e { TickShared(m, e); }
    PassedStable(m, t, m', e, 0);
    if job.Sync? && job.i > 0 {
      forall h | h in job.held ensures Ended(m', h) { OlderEnded(m', e, h); }
    }
  }

  lemma QuiesceKeeps(m: Shared, t: nat, e: nat)
    requires SharedInv(m) && ThreadInv(m, t, Quiesce(e))
    ensures InRange(m, t, Quiesce(e))
    ensures var (m', pc') := FinishStep(m, t, Quiesce(e)); Kept(m, t, m', pc')
  {
    var m' := FinishStep(m, t, Quiesce(e)).0;
    OnlyOwn(m, t, m');
    forall h: nat | Ended(m, h) ensures Ended(m', h) {}
  }

  lemma DrainKeeps(m: Shared, t: nat, pc: Pc)
    requires SharedInv(m) && ThreadInv(m, t, pc) && (pc.Drain? || pc.Dispatch?)
    ensures InRange(m, t, pc)
    ensures var (m', pc') := FinishStep(m, t, pc); Kept(m, t, m', pc')
  {
    var m' := FinishStep(m, t, pc).0;
    OnlyOwn(m, t, m');
    forall h: nat | Ended(m, h) ensures Ended(m', h) {}
  }

  lemma Compose(s: State, t: nat, m': Shared, pc': Pc)
    requires Inv(s) && t < |s.pcs| && Kept(s.m, t, m', pc') && |m'.recs| == |s.m.recs|
    ensures Inv(State(m', s.pcs[t := pc']))
  {
    forall u: nat | u < |s.pcs| && u != t ensures ThreadInv(m', u, s.pcs[u]) {
      assert ThreadInv(s.m, u, s.pcs[u]) && RecOk(m', u);
      OwnStable(s.m, t, m', u, s.pcs[u]);
      ScannerStable(s.m, t, m', u, s.pcs[u]);
    }
  }

  lemma BeginInv(s: State, t: nat)
    requires Inv(s) && t < |s.pcs| && Begun(s.pcs[t])
    ensures InRange(s.m, t, s.pcs[t])
    ensures var (m', pc') := BeginStep(s.m, t, s.pcs[t]); Inv(State(m', s.pcs[t := pc']))
  {
    var m, pc := s.m, s.pcs[t];
    assert ThreadInv(m, t, pc);
    if pc.AddRefLoad? {
      if m.objects { AddRefLoadKeeps(m, t); } else { OpenPlainKeeps(m, t); }
    } else if pc.AddRef? { AddRefKeeps(m, t, pc.e); }
    else { EnterKeeps(m, t, pc); }
    Compose(s, t, BeginStep(m, t, pc).0, BeginStep(m, t, pc).1);
  }

  lemma EnterInv(s: State, t: nat)
    requires Inv(s) && t < |s.pcs| && s.pcs[t].BeginEnter?
    ensures InRange(s.m, t, s.pcs[t])
    ensures var (m', pc') := BeginStep(s.m, t, s.pcs[t]); Inv(State(m', s.pcs[t := pc']))
  {
    assert ThreadInv(s.m, t, s.pcs[t]);
    EnterKeeps(s.m, t, s.pcs[t]);
    Compose(s, t, BeginStep(s.m, t, s.pcs[t]).0, BeginStep(s.m, t, s.pcs[t]).1);
  }

  lemma EndInv(s: State, t: nat)
    requires Inv(s) && t < |s.pcs| && (s.pcs[t].EndStore? || s.pcs[t].DelRef? || s.pcs[t].DelRefStore?)
    ensures InRange(s.m, t, s.pcs[t])
    ensures var (m', pc') := EndStep(s.m, t, s.pcs[t]); Inv(State(m', s.pcs[t := pc']))
  {
    var m, pc := s.m, s.pcs[t];
    assert ThreadInv(m, t, pc);
    match pc {
      case EndStore(id) => EndStoreKeeps(m, t, id);
      case DelRef(b) => DelRefKeeps(m, t, b);
      case DelRefStore(e) => DelRefStoreKeeps(m, t, e);
    }
    Compose(s, t, EndStep(m, t, pc).0, EndStep(m, t, pc).1);
  }

  lemma CallInv(s: State, t: nat)
    requires Inv(s) && t < |s.pcs| && (s.pcs[t].CallLoad? || s.pcs[t].CallPush?)
    ensures InRange(s.m, t, s.pcs[t])
    ensures var (m', pc') := CallStep(s.m, t, s.pcs[t]); Inv(State(m', s.pcs[t := pc']))
  {
    var m, pc := s.m, s.pcs[t];
    assert ThreadInv(m, t, pc);
    if pc.CallLoad? { CallLoadKeeps(m, t, pc.cb); } else { CallPushKeeps(m, t, pc.entry); }
    Compose(s, t, CallStep(m, t, pc).0, CallStep(m, t, pc).1);
  }

  lemma FinishInv(s: State, t: nat)
    requires Inv(s) && t < |s.pcs|
    requires s.pcs[t].Tick? || s.pcs[t].Quiesce? || s.pcs[t].Drain? || s.pcs[t].Dispatch?
    ensures InRange(s.m, t, s.pcs[t])
    ensures var (m', pc') := FinishStep(s.m, t, s.pcs[t]); Inv(State(m', s.pcs[t := pc']))
  {
    var m, pc := s.m, s.pcs[t];
    assert ThreadInv(m, t, pc);
    if pc.Tick? { TickKeeps(m, t, pc.job, pc.e); }
    else if pc.Quiesce? { QuiesceKeeps(m, t, pc.e); }
    else { DrainKeeps(m, t, pc); }
    Compose(s, t, FinishStep(m, t, pc).0, FinishStep(m, t, pc).1);
  }

  /** A step that only moves the thread's own program counter. */
  lemma ObserveInv(s: State, t: nat, pc': Pc)
    requires Inv(s) && t < |s.pcs| && ThreadInv(s.m, t, pc')
    ensures Inv(s.(pcs := s.pcs[t := pc']))
  {
  }

  lemma PollFalseKeeps(m: Shared, t: nat, pc: Pc)
    requires ThreadInv(m, t, pc) && pc.ScanEpoch?
    ensures ThreadInv(m, t, Idle(PollFalse))
  {
  }

  lemma ScanInvStep(s: State, t: nat)
    requires Inv(s) && t < |s.pcs|
    requires var pc := s.pcs[t];
             || pc.PollLoad? || pc.SyncLoad? || pc.ScanStart? || pc.ScanState? || pc.ScanActive? || pc.ScanEpoch?
             || pc.SyncReload?
    ensures InRange(s.m, t, s.pcs[t])
    ensures var (m', pc') := ScanStep(s.m, t, s.pcs[t]); Inv(State(m', s.pcs[t := pc']))
  {
    var m, pc := s.m, s.pcs[t];
    assert ThreadInv(m, t, pc);
    if pc.PollLoad? || pc.SyncLoad? || pc.ScanStart? { ScanBeginKeeps(m, t, pc); }
    else if pc.ScanState? && pc.k == 0 { ScanDoneKeeps(m, t, pc); }
    else if pc.SyncReload? && m.epoch != pc.e && m.epoch >= pc.job.e0 + GRACE { GoalKeeps(m, t, pc); }
    else if pc.ScanEpoch? && ScanStep(m, t, pc).1.Idle? { PollFalseKeeps(m, t, pc); }
    else { ScanMoveKeeps(m, t, pc); }
    ObserveInv(s, t, ScanStep(m, t, pc).1);
  }

  lemma AccessInv(s: State, t: nat, s': State)
    requires Inv(s) && Next(s, Access(t), s')
    ensures Inv(s')
  {
    var pc := s.pcs[t];
    if pc.BeginEnter? { EnterInv(s, t); }
    else if Begun(pc) { BeginInv(s, t); }
    else if pc.EndStore? || pc.DelRef? || pc.DelRefStore? { EndInv(s, t); }
    else if pc.CallLoad? || pc.CallPush? { CallInv(s, t); }
    else if pc.Tick? || pc.Quiesce? || pc.Drain? || pc.Dispatch? { FinishInv(s, t); }
    else if pc.Idle? {}
    else { ScanInvStep(s, t); }
  }

  lemma RegisterInv(s: State, s': State)
    requires Inv(s) && Next(s, Register, s')
    ensures Inv(s')
  {
    var m, m', n := s.m, s'.m, |s.m.recs|;
    forall r: nat | r < |m'.recs| ensures RecOk(m', r) { if r < n { assert RecOk(m, r); } }
    forall u: nat | u < |s'.pcs| ensures ThreadInv(m', u, s'.pcs[u]) {
      if u < n {
        assert ThreadInv(m, u, s.pcs[u]) && RecOk(m', u);
        OwnStable(m, n, m', u, s.pcs[u]);
        ScannerStable(m, n, m', u, s.pcs[u]);
      }
    }
  }

  lemma UnregisterInv(s: State, t: nat, s': State)
    requires Inv(s) && Next(s, Unregister(t), s')
    ensures Inv(s')
  {
    assert ThreadInv(s.m, t, s.pcs[t]);
    assert InBucket(s.m.secs, {}, 0) == InBucket(s.m.secs, {}, 1) == {};
    OnlyOwn(s.m, t, s'.m);
    forall h: nat | Ended(s.m, h) ensures Ended(s'.m, h) {}
    Compose(s, t, s'.m, s.pcs[t]);
    assert s'.pcs == s.pcs[t := s.pcs[t]];
  }

  lemma RecycleInv(s: State, t: nat, s': State)
    requires Inv(s) && Next(s, Recycle(t), s')
    ensures Inv(s')
  {
    assert ThreadInv(s.m, t, s.pcs[t]);
    OnlyOwn(s.m, t, s'.m);
    forall h: nat | Ended(s.m, h) ensures Ended(s'.m, h) {}
    Compose(s, t, s'.m, s.pcs[t]);
    assert s'.pcs == s.pcs[t := s.pcs[t]];
  }

  lemma CallsInv(s: State, l: Label, s': State)
    requires Inv(s) && Next(s, l, s') && (l.Begin? || l.End? || l.Call? || l.PollCall? || l.SyncCall?)
    ensures Inv(s')
  {
    assert ThreadInv(s.m, l.t, s.pcs[l.t]);
    ObserveInv(s, l.t, s'.pcs[l.t]);
  }

  lemma NextInv(s: State, l: Label, s': State)
    requires Inv(s) && Next(s, l, s')
    ensures Inv(s')
  {
    match l
    case Access(t) => AccessInv(s, t, s');
    case Register => RegisterInv(s, s');
    case Unregister(t) => UnregisterInv(s, t, s');
    case Recycle(t) => RecycleInv(s, t, s');
    case _ => CallsInv(s, l, s');
  }
}
