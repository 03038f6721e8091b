/** What each call of the machine of `Epoch.dfy` does by the time it returns: which sections it opens and
  closes, which callbacks it files and runs; and that no callback is lost. */
module EpochCalls {
  import opened Prelude
  import Machine
  import opened Epoch
  import opened EpochSteps
  import opened EpochRuns

  // ---------------------------------------------------------------- calls and answers

  ghost function CallBy(t: nat): Label -> bool {
    (l: Label) => (l.Begin? || l.End? || l.Call? || l.PollCall? || l.SyncCall?) && l.t == t
  }

  ghost predicate Scans(pc: Pc) {
    pc.ScanStart? || pc.ScanState? || pc.ScanActive? || pc.ScanEpoch? || pc.SyncReload? || pc.Tick?
  }

  /** Where a thread can be in a call, or after it. */
  ghost predicate Serves(l: Label, pc: Pc) {
    match l
    case Begin(_) => pc.BeginEnter? || Begun(pc) || (pc.Idle? && pc.answer.Opened?)
    case End(_, id) => pc == EndStore(id) || pc.DelRef? || pc.DelRefStore? || (pc.Idle? && pc.answer.Closed?)
    case Call(_, cb) => pc == CallLoad(cb) || (pc.CallPush? && pc.entry.cb == cb) || pc == Idle(Called)
    case PollCall(_) =>
      || pc.PollLoad? || (Scans(pc) && !pc.SyncReload? && pc.job.Poll?) || pc.Quiesce? || pc.Drain? || pc.Dispatch?
      || (pc.Idle? && (pc.answer.PollTrue? || pc.answer.PollFalse?))
    case SyncCall(_) => pc.SyncLoad? || (Scans(pc) && pc.job.Sync?) || (pc.Idle? && pc.answer.Synced?)
    case _ => false
  }

  lemma ServesNext(m: Shared, t: nat, pc: Pc, l: Label)
    requires InRange(m, t, pc) && Serves(l, pc)
    ensures Serves(l, Step(m, t, pc).1)
  {
  }

  lemma ServesStep(s: State, l: Label, s': State, t: nat, call: Label)
    requires Next(s, l, s') && !CallBy(t)(l) && t < |s.pcs| && Serves(call, s.pcs[t])
    ensures t < |s'.pcs| && Serves(call, s'.pcs[t])
  {
    if l == Access(t) { ServesNext(s.m, t, s.pcs[t], call); }
  }

  lemma ServesFirst(s: State, l: Label, s': State, t: nat)
    requires Next(s, l, s') && CallBy(t)(l)
    ensures t < |s'.pcs| && Serves(l, s'.pcs[t])
  {
  }

  lemma StillIdle(s: State, l: Label, s': State, t: nat)
    requires Next(s, l, s') && !CallBy(t)(l) && t < |s'.pcs| && (t < |s.pcs| ==> s.pcs[t] == Idle(NoAnswer))
    ensures s'.pcs[t] == Idle(NoAnswer)
  {
  }

  lemma {:induction false} Serving(run: seq<State>, ls: seq<Label>, k: nat, t: nat)
    requires IsRun(run, ls) && k < |run|
    ensures match Machine.Last(CallBy(t), ls, k)
            case None => t < |run[k].pcs| ==> run[k].pcs[t] == Idle(NoAnswer)
            case Some(a) => t < |run[k].pcs| && Serves(ls[a], run[k].pcs[t])
  {
    if k > 0 {
      var p: nat := k - 1;
      Serving(run, ls, p, t);
      assert Next(run[p], ls[p], run[k]) by { assert Machine.StepAt(Next, run, ls, p); }
      if CallBy(t)(ls[p]) {
        ServesFirst(run[p], ls[p], run[k], t);
      } else if Machine.Last(CallBy(t), ls, p).Some? {
        ServesStep(run[p], ls[p], run[k], t, ls[Machine.Last(CallBy(t), ls, p).value]);
      } else if t < |run[k].pcs| {
        StillIdle(run[p], ls[p], run[k], t);
      }
    }
  }

  // ---------------------------------------------------------------- in the course of a call

  /** At step i thread t, in a poll, reads epoch e. */
  ghost predicate ReadsAt(run: seq<State>, ls: seq<Label>, t: nat, i: nat, e: nat) {
    i < |ls| && i < |run| && ls[i] == Access(t) && t < |run[i].pcs| && run[i].pcs[t].PollLoad? && e == run[i].m.epoch
  }

  /** At step i thread t, in a scan, comes to a record that is active. */
  ghost predicate MeetsAt(run: seq<State>, ls: seq<Label>, t: nat, i: nat) {
    && i < |ls| && i < |run| && ls[i] == Access(t) && t < |run[i].pcs| && run[i].pcs[t].ScanActive?
    && 0 < run[i].pcs[t].k <= |run[i].m.recs| && run[i].m.recs[run[i].pcs[t].k - 1].active != 0
  }

  ghost predicate Read(run: seq<State>, ls: seq<Label>, t: nat, a: nat, k: nat, e: nat) {
    exists i: nat :: a < i < k && ReadsAt(run, ls, t, i, e)
  }

  /** Between steps a and k thread t has come to an active record. */
  ghost predicate Met(run: seq<State>, ls: seq<Label>, t: nat, a: nat, k: nat) {
    exists i: nat :: a < i < k && MeetsAt(run, ls, t, i)
  }

  /** Between steps a and k thread t has come to record r and found it active. */
  ghost predicate MetRecord(run: seq<State>, ls: seq<Label>, t: nat, a: nat, k: nat, r: nat) {
    exists i: nat :: a < i < k && MeetsAt(run, ls, t, i) && r == run[i].pcs[t].k - 1
  }

  /** A scan for epoch e finds record r, which it met as active, with another epoch. */
  ghost predicate Lags(run: seq<State>, ls: seq<Label>, t: nat, a: nat, k: nat, e: nat, r: nat) {
    k < |run| && r < |run[k].m.recs| && run[k].m.recs[r].epoch != e && MetRecord(run, ls, t, a, k, r)
  }

  /** How the record of a thread in a call differs from what it was at the call. */
  ghost predicate Changed(call: Label, pc: Pc, r0: Rec, r: Rec) {
    && r.free == r0.free && |r.pending| == |r0.pending| == SLOTS
    && (call.End? || call.Call? || call.SyncCall? ==> r.epoch == r0.epoch)
    && r.live == (if call.End? && (pc.DelRef? || pc.DelRefStore?) then r0.live - {call.id} else r0.live)
    && (forall o | 0 <= o < SLOTS :: r.pending[o] == if pc.Drain? && o < pc.slot then [] else r0.pending[o])
  }

  /** What a poll knows about its epoch and its scan. */
  ghost predicate Polled(run: seq<State>, ls: seq<Label>, t: nat, a: nat, k: nat, pc: Pc) {
    && (Scans(pc) || pc.Dispatch? ==> Read(run, ls, t, a, k, pc.e))
    && (pc.ScanState? || pc.ScanActive? ==> (pc.af <==> Met(run, ls, t, a, k)))
    && (pc.ScanEpoch? ==> pc.k > 0 && MetRecord(run, ls, t, a, k, pc.k - 1))
    && (pc.ScanEpoch? || pc.Tick? || pc.Dispatch? ==> Met(run, ls, t, a, k))
    && (pc.PollLoad? || pc.ScanStart? || pc.Quiesce? || pc.Drain? ==> !Met(run, ls, t, a, k))
    && (pc.Quiesce? ==> Read(run, ls, t, a, k, pc.e))
    && (pc.Drain? ==> k < |run| && t < |run[k].m.recs| && Read(run, ls, t, a, k, run[k].m.recs[t].epoch))
    && (pc.Dispatch? ==> k < |run| && run[k].m.epoch > pc.e)
  }

  /** Only the owner of a record, and then only within its calls, changes it. */
  lemma OthersLeave(s: State, l: Label, s': State, t: nat)
    requires |s.pcs| == |s.m.recs| && Next(s, l, s') && t < |s.pcs| && l != Access(t) && !CallBy(t)(l) && !s.pcs[t].Idle?
    requires t < |s.m.recs| && !s.m.recs[t].free
    ensures t < |s'.pcs| && t < |s'.m.recs| && s'.pcs[t] == s.pcs[t] && s'.m.recs[t] == s.m.recs[t] && s'.m.epoch >= s.m.epoch
  {
    if l.Access? { OtherPending(s.m, l.t, s.pcs[l.t], t); }
  }

  lemma ChangedNext(m: Shared, t: nat, pc: Pc, call: Label, r0: Rec)
    requires InRange(m, t, pc) && Serves(call, pc) && !pc.Idle? && Changed(call, pc, r0, m.recs[t])
    requires !Step(m, t, pc).1.Idle?
    ensures t < |Step(m, t, pc).0.recs| && Changed(call, Step(m, t, pc).1, r0, Step(m, t, pc).0.recs[t])
  {
  }

  lemma NotIdle(s: State, l: Label, s': State, t: nat)
    requires Next(s, l, s') && !CallBy(t)(l) && t < |s'.pcs| && !s'.pcs[t].Idle?
    ensures t < |s.pcs| && !s.pcs[t].Idle?
  {
  }

  lemma ChangedFirst(s: State, l: Label, s': State, t: nat)
    requires Inv(s) && Next(s, l, s') && CallBy(t)(l)
    ensures t < |s.m.recs| && t < |s'.m.recs| && t < |s'.pcs| && !s'.m.recs[t].free
    ensures Changed(l, s'.pcs[t], s.m.recs[t], s'.m.recs[t])
  {
    assert ThreadInv(s.m, t, s.pcs[t]);
  }

  lemma ChangedStep(s: State, l: Label, s': State, t: nat, call: Label, r0: Rec)
    requires |s.pcs| == |s.m.recs| && Next(s, l, s') && !CallBy(t)(l) && t < |s.pcs| && t < |s'.pcs| && !s'.pcs[t].Idle?
    requires Serves(call, s.pcs[t]) && !s.m.recs[t].free && Changed(call, s.pcs[t], r0, s.m.recs[t])
    ensures t < |s'.m.recs| && !s'.m.recs[t].free && Changed(call, s'.pcs[t], r0, s'.m.recs[t])
  {
    NotIdle(s, l, s', t);
    if l == Access(t) { ChangedNext(s.m, t, s.pcs[t], call, r0); } else { OthersLeave(s, l, s', t); }
  }

  lemma {:induction false} SoFar(run: seq<State>, ls: seq<Label>, k: nat, t: nat, a: nat)
    requires IsRun(run, ls) && a < k < |run| && t < |run[k].pcs| && !run[k].pcs[t].Idle?
    requires Machine.Last(CallBy(t), ls, k) == Some(a)
    ensures t < |run[a].m.recs| && t < |run[k].m.recs| && !run[k].m.recs[t].free
    ensures Changed(ls[a], run[k].pcs[t], run[a].m.recs[t], run[k].m.recs[t])
  {
    var p: nat := k - 1;
    RunInv(run, ls, p);
    assert Next(run[p], ls[p], run[k]) by { assert Machine.StepAt(Next, run, ls, p); }
    if a < p {
      NotIdle(run[p], ls[p], run[k], t);
      Serving(run, ls, p, t);
      SoFar(run, ls, p, t, a);
      ChangedStep(run[p], ls[p], run[k], t, ls[a], run[a].m.recs[t]);
    } else {
      ChangedFirst(run[p], ls[p], run[k], t);
    }
  }

  lemma {:induction false} PollSoFar(run: seq<State>, ls: seq<Label>, k: nat, t: nat, a: nat)
    requires IsRun(run, ls) && a < k < |run| && t < |run[k].pcs| && !run[k].pcs[t].Idle?
    requires Machine.Last(CallBy(t), ls, k) == Some(a) && ls[a].PollCall?
    ensures Polled(run, ls, t, a, k, run[k].pcs[t])
  {
    var p: nat := k - 1;
    assert Next(run[p], ls[p], run[k]) by { assert Machine.StepAt(Next, run, ls, p); }
    if a < p {
      NotIdle(run[p], ls[p], run[k], t);
      Serving(run, ls, p, t);
      PollSoFar(run, ls, p, t, a);
      if ls[p] == Access(t) {
        PolledNext(run, ls, k, t, a);
      } else {
        PolledStays(run, ls, k, t, a);
      }
    }
  }

  lemma PolledStays(run: seq<State>, ls: seq<Label>, k: nat, t: nat, a: nat)
    requires IsRun(run, ls) && a + 1 < k < |run| && t < |run[k - 1].pcs| && !run[k - 1].pcs[t].Idle?
    requires ls[k - 1] != Access(t) && Machine.Last(CallBy(t), ls, k) == Some(a)
    requires Polled(run, ls, t, a, k - 1, run[k - 1].pcs[t])
    ensures t < |run[k].pcs| && Polled(run, ls, t, a, k, run[k].pcs[t])
  {
    var p: nat := k - 1;
    RunInv(run, ls, p);
    SoFar(run, ls, p, t, a);
    assert Next(run[p], ls[p], run[k]) by { assert Machine.StepAt(Next, run, ls, p); }
    OthersLeave(run[p], ls[p], run[k], t);
    SameHistory(run, ls, k, t, a);
  }

  /** What is known of reads and meetings one step later. */
  lemma SameHistory(run: seq<State>, ls: seq<Label>, k: nat, t: nat, a: nat)
    requires a + 1 < k
    ensures Met(run, ls, t, a, k) <==> Met(run, ls, t, a, k - 1) || MeetsAt(run, ls, t, k - 1)
    ensures forall e: nat :: Read(run, ls, t, a, k - 1, e) ==> Read(run, ls, t, a, k, e)
    ensures forall e: nat :: ReadsAt(run, ls, t, k - 1, e) ==> Read(run, ls, t, a, k, e)
    ensures forall r: nat :: MetRecord(run, ls, t, a, k - 1, r) ==> MetRecord(run, ls, t, a, k, r)
  {
    forall r: nat | MetRecord(run, ls, t, a, k - 1, r) ensures MetRecord(run, ls, t, a, k, r) {
      var i: nat :| a < i < k - 1 && MeetsAt(run, ls, t, i) && r == run[i].pcs[t].k - 1;
      assert a < i < k && MeetsAt(run, ls, t, i);
    }
    if Met(run, ls, t, a, k - 1) {
      var i: nat :| a < i < k - 1 && MeetsAt(run, ls, t, i);
      assert a < i < k && MeetsAt(run, ls, t, i);
    }
    forall e: nat | Read(run, ls, t, a, k - 1, e) ensures Read(run, ls, t, a, k, e) {
      var i: nat :| a < i < k - 1 && ReadsAt(run, ls, t, i, e);
      assert a < i < k && ReadsAt(run, ls, t, i, e);
    }
  }

  lemma PolledNext(run: seq<State>, ls: seq<Label>, k: nat, t: nat, a: nat)
    requires IsRun(run, ls) && a + 1 < k < |run| && ls[k - 1] == Access(t) && t < |run[k - 1].pcs| && t < |run[k].pcs|
    requires Serves(PollCall(t), run[k - 1].pcs[t]) && !run[k - 1].pcs[t].Idle? && !run[k].pcs[t].Idle?
    requires Polled(run, ls, t, a, k - 1, run[k - 1].pcs[t])
    ensures Polled(run, ls, t, a, k, run[k].pcs[t])
  {
    assert Machine.StepAt(Next, run, ls, k - 1);
    SameHistory(run, ls, k, t, a);
    RunInv(run, ls, k - 1);
    assert ThreadInv(run[k - 1].m, t, run[k - 1].pcs[t]);
    if run[k - 1].pcs[t].PollLoad? { assert ReadsAt(run, ls, t, k - 1, run[k - 1].m.epoch); }
    if run[k].pcs[t].ScanEpoch? { assert MeetsAt(run, ls, t, k - 1); }
  }

  // ---------------------------------------------------------------- what the calls do

  lemma {:induction false} Loaded(run: seq<State>, ls: seq<Label>, k: nat, t: nat, a: nat)
    requires IsRun(run, ls) && a < k < |run| && t < |run[k].pcs| && run[k].pcs[t].CallPush?
    requires Machine.Last(CallBy(t), ls, k) == Some(a)
    ensures exists j: nat :: a < j < k && FiledAt(run, ls, j, t, run[k].pcs[t].entry)
  {
    var p: nat := k - 1;
    assert Next(run[p], ls[p], run[k]) by { assert Machine.StepAt(Next, run, ls, p); }
    LoadedStep(run[p], ls[p], run[k], t);
    if run[p].pcs[t] == run[k].pcs[t] {
      Loaded(run, ls, p, t, a);
    } else {
      assert FiledAt(run, ls, p, t, run[k].pcs[t].entry);
    }
  }

  lemma LoadedStep(s: State, l: Label, s': State, t: nat)
    requires Next(s, l, s') && t < |s'.pcs| && s'.pcs[t].CallPush?
    ensures t < |s.pcs|
    ensures if s.pcs[t] == s'.pcs[t] then l != Access(t) && !CallBy(t)(l)
            else l == Access(t) && s.pcs[t].CallLoad? && s'.pcs[t].entry == Entry(s.pcs[t].cb, s.m.epoch, OpenSections(s.m))
  {
  }

  ghost predicate Empty(r: Rec) {
    |r.pending| == SLOTS && forall o | 0 <= o < SLOTS :: r.pending[o] == []
  }

  /** What a poll has done when it answers, to the record that was r0 at its call. A poll that came to
    an active record under another epoch than it had read runs nothing; one that came only to active
    records under that epoch runs the callbacks of one slot, two epochs back, and the epoch moves on; and
    one that came to none runs everything, and its record publishes the epoch that it read. */
  ghost predicate PollDoes(run: seq<State>, ls: seq<Label>, t: nat, a: nat, k: nat, answer: Answer, r0: Rec, r: Rec)
    requires k + 1 < |run| && |r0.pending| == SLOTS
  {
    && r.live == r0.live
    && match answer
       case PollFalse =>
         r.pending == r0.pending && exists e: nat, q: nat :: Read(run, ls, t, a, k, e) && Lags(run, ls, t, a, k, e, q)
       case PollTrue =>
         if Met(run, ls, t, a, k) then
           exists e: nat :: Read(run, ls, t, a, k, e) && run[k + 1].m.epoch > e && r.pending == r0.pending[DispatchSlot(e) := []]
         else Empty(r) && Read(run, ls, t, a, k, r.epoch)
       case _ => false
  }

  lemma PollEnds(run: seq<State>, ls: seq<Label>, k: nat, t: nat, a: nat)
    requires IsRun(run, ls) && a < k < |ls| && ls[k] == Access(t) && t < |run[k].pcs| && t < |run[k + 1].pcs|
    requires !run[k].pcs[t].Idle? && run[k + 1].pcs[t].Idle?
    requires Machine.Last(CallBy(t), ls, k) == Some(a) && ls[a].PollCall?
    ensures t < |run[a].m.recs| && t < |run[k + 1].m.recs| && |run[a].m.recs[t].pending| == SLOTS
    ensures PollDoes(run, ls, t, a, k, run[k + 1].pcs[t].answer, run[a].m.recs[t], run[k + 1].m.recs[t])
  {
    Serving(run, ls, k, t);
    SoFar(run, ls, k, t, a);
    PollSoFar(run, ls, k, t, a);
    RunInv(run, ls, k);
    assert Next(run[k], ls[k], run[k + 1]) by { assert Machine.StepAt(Next, run, ls, k); }
    PollStep(run[k], t, run[k + 1], run[a].m.recs[t]);
    var pc := run[k].pcs[t];
    if pc.ScanEpoch? {
      var q: nat := pc.k - 1;
      assert Read(run, ls, t, a, k, pc.e) && Lags(run, ls, t, a, k, pc.e, q);
    }
  }

  /** With which access a poll ends, and what it leaves in the record. */
  lemma PollStep(s: State, t: nat, s': State, r0: Rec)
    requires Inv(s) && Next(s, Access(t), s') && Serves(PollCall(t), s.pcs[t]) && !s.pcs[t].Idle? && s'.pcs[t].Idle?
    requires Changed(PollCall(t), s.pcs[t], r0, s.m.recs[t])
    ensures t < |s'.m.recs| && s'.m.epoch == s.m.epoch
    ensures
      var pc, r, r' := s.pcs[t], s.m.recs[t], s'.m.recs[t];
      && r'.live == r0.live
      && if pc.ScanEpoch? then
           && s'.pcs[t].answer == PollFalse && r'.pending == r0.pending
           && 0 < pc.k <= |s.m.recs| && s.m.recs[pc.k - 1].epoch != pc.e
         else if pc.Dispatch? then s'.pcs[t].answer == PollTrue && r'.pending == r0.pending[DispatchSlot(pc.e) := []]
         else pc.Drain? && s'.pcs[t].answer == PollTrue && Empty(r') && r'.epoch == r.epoch
  {
    var pc := s.pcs[t];
    assert ThreadInv(s.m, t, pc);
    if !pc.Drain? { assert s.m.recs[t].pending == r0.pending; }
  }

  /** Every call does what was asked for, once, and leaves the rest of its record alone: a section is
    opened under a new number, or the given one closed; a callback is filed in front of its slot; a poll
    does what PollDoes says; a synchronize changes nothing of its own. */
  lemma CallTakesEffect(run: seq<State>, ls: seq<Label>, k: nat, t: nat)
    requires IsRun(run, ls) && k < |ls| && ls[k] == Access(t) && t < |run[k].pcs| && t < |run[k + 1].pcs|
    requires !run[k].pcs[t].Idle? && run[k + 1].pcs[t].Idle?
    ensures Machine.Last(CallBy(t), ls, k).Some?
    ensures
      var a := Machine.Last(CallBy(t), ls, k).value;
      t < |run[a].m.recs| && t < |run[k + 1].m.recs| && |run[a].m.recs[t].pending| == SLOTS &&
      var answer, r0, r := run[k + 1].pcs[t].answer, run[a].m.recs[t], run[k + 1].m.recs[t];
      match ls[a]
      case Begin(_) =>
        && answer == Opened(|run[k].m.secs|) && |run[k + 1].m.secs| == |run[k].m.secs| + 1
        && r.live == r0.live + {|run[k].m.secs|} && r.pending == r0.pending
      case End(_, id) => answer.Closed? && r.live == r0.live - {id} && r.pending == r0.pending
      case Call(_, cb) =>
        && answer == Called && r.live == r0.live
        && exists j: nat, x :: a < j < k && FiledAt(run, ls, j, t, x) && x.cb == cb
                            && r.pending == r0.pending[x.filed % SLOTS := [x] + r0.pending[x.filed % SLOTS]]
      case PollCall(_) => PollDoes(run, ls, t, a, k, answer, r0, r)
      case SyncCall(_) => answer.Synced? && r.live == r0.live && r.pending == r0.pending
      case _ => false
  {
    Serving(run, ls, k, t);
    var a := Machine.Last(CallBy(t), ls, k).value;
    if ls[a].PollCall? {
      PollEnds(run, ls, k, t, a);
    } else {
      SoFar(run, ls, k, t, a);
      OtherEnds(run, ls, k, t, a);
    }
  }

  lemma OtherEnds(run: seq<State>, ls: seq<Label>, k: nat, t: nat, a: nat)
    requires IsRun(run, ls) && a < k < |ls| && ls[k] == Access(t) && t < |run[k].pcs| && t < |run[k + 1].pcs|
    requires !run[k].pcs[t].Idle? && run[k + 1].pcs[t].Idle?
    requires Machine.Last(CallBy(t), ls, k) == Some(a) && !ls[a].PollCall? && Serves(ls[a], run[k].pcs[t])
    requires t < |run[a].m.recs| && t < |run[k].m.recs| && Changed(ls[a], run[k].pcs[t], run[a].m.recs[t], run[k].m.recs[t])
    ensures t < |run[k + 1].m.recs|
    ensures
      var answer, r0, r := run[k + 1].pcs[t].answer, run[a].m.recs[t], run[k + 1].m.recs[t];
      match ls[a]
      case Begin(_) =>
        && answer == Opened(|run[k].m.secs|) && |run[k + 1].m.secs| == |run[k].m.secs| + 1
        && r.live == r0.live + {|run[k].m.secs|} && r.pending == r0.pending
      case End(_, id) => answer.Closed? && r.live == r0.live - {id} && r.pending == r0.pending
      case Call(_, cb) =>
        && answer == Called && r.live == r0.live
        && exists j: nat, x :: a < j < k && FiledAt(run, ls, j, t, x) && x.cb == cb
                            && r.pending == r0.pending[x.filed % SLOTS := [x] + r0.pending[x.filed % SLOTS]]
      case SyncCall(_) => answer.Synced? && r.live == r0.live && r.pending == r0.pending
      case _ => false
  {
    assert Machine.StepAt(Next, run, ls, k);
    assert run[k].m.recs[t].pending == run[a].m.recs[t].pending;
    if run[k].pcs[t].CallPush? { Loaded(run, ls, k, t, a); }
  }

  // ---------------------------------------------------------------- no callback is lost

  /** How often callback c is in a list, and in all slots of a record. */
  ghost function Count(q: seq<Entry>, c: int): nat {
    if q == [] then 0 else (if q[0].cb == c then 1 else 0) + Count(q[1..], c)
  }

  ghost function CountAll(p: seq<seq<Entry>>, c: int): nat {
    if p == [] then 0 else Count(p[0], c) + CountAll(p[1..], c)
  }

  lemma {:induction false} CountUpdate(p: seq<seq<Entry>>, o: nat, q: seq<Entry>, c: int)
    requires o < |p|
    ensures CountAll(p[o := q], c) + Count(p[o], c) == CountAll(p, c) + Count(q, c)
  {
    if o == 0 {
      assert p[0 := q][1..] == p[1..];
    } else {
      CountUpdate(p[1..], o - 1, q, c);
      assert p[o := q][1..] == p[1..][o - 1 := q];
    }
  }

  lemma CountFront(x: Entry, q: seq<Entry>, c: int)
    ensures Count([x] + q, c) == Count(q, c) + if x.cb == c then 1 else 0
  {
    assert ([x] + q)[1..] == q;
  }

  lemma {:induction false} CountNone(p: seq<seq<Entry>>, c: int)
    requires forall o | 0 <= o < |p| :: p[o] == []
    ensures CountAll(p, c) == 0
  {
    if p != [] { CountNone(p[1..], c); }
  }

  /** How often thread t runs callback c in a step. */
  ghost function RanBy(s: State, l: Label, t: nat, c: int): nat {
    if l == Access(t) && t < |s.pcs| && InRange(s.m, t, s.pcs[t]) then Count(Runs(s.m, t, s.pcs[t]), c) else 0
  }

  ghost function FiledBy(s: State, l: Label, t: nat, c: int): nat {
    if l == Access(t) && t < |s.pcs| && s.pcs[t].CallPush? && s.pcs[t].entry.cb == c then 1 else 0
  }

  lemma PushConserves(m: Shared, t: nat, x: Entry, c: int)
    requires InRange(m, t, CallPush(x))
    ensures CountAll(Step(m, t, CallPush(x)).0.recs[t].pending, c) == CountAll(m.recs[t].pending, c) + if x.cb == c then 1 else 0
  {
    var p, o := m.recs[t].pending, x.filed % SLOTS;
    CountUpdate(p, o, [x] + p[o], c);
    CountFront(x, p[o], c);
  }

  lemma DispatchConserves(m: Shared, t: nat, pc: Pc, c: int)
    requires InRange(m, t, pc) && (pc.Drain? || pc.Dispatch?)
    ensures CountAll(Step(m, t, pc).0.recs[t].pending, c) + Count(Runs(m, t, pc), c) == CountAll(m.recs[t].pending, c)
  {
    CountUpdate(m.recs[t].pending, if pc.Drain? then pc.slot else DispatchSlot(pc.e), [], c);
  }

  lemma AccessConserves(m: Shared, t: nat, pc: Pc, c: int)
    requires InRange(m, t, pc)
    ensures t < |Step(m, t, pc).0.recs|
    ensures CountAll(Step(m, t, pc).0.recs[t].pending, c) + Count(Runs(m, t, pc), c)
         == CountAll(m.recs[t].pending, c) + if pc.CallPush? && pc.entry.cb == c then 1 else 0
  {
    if pc.CallPush? {
      PushConserves(m, t, pc.entry, c);
    } else if pc.Drain? || pc.Dispatch? {
      DispatchConserves(m, t, pc, c);
    } else {
      PendingKept(m, t, pc);
    }
  }

  ghost function Pends(m: Shared, t: nat, c: int): nat {
    if t < |m.recs| then CountAll(m.recs[t].pending, c) else 0
  }

  lemma StepConserves(s: State, l: Label, s': State, t: nat, c: int)
    requires |s.pcs| == |s.m.recs| && Next(s, l, s')
    ensures Pends(s'.m, t, c) + RanBy(s, l, t, c) == Pends(s.m, t, c) + FiledBy(s, l, t, c)
  {
    CountNone(FreshRec.pending, c);
    if l == Access(t) {
      AccessConserves(s.m, t, s.pcs[t], c);
    } else if l.Access? && t < |s.m.recs| {
      OtherPending(s.m, l.t, s.pcs[l.t], t);
    }
  }

  /** Whether step k finishes a call of thread t with callback c. */
  ghost function Finished(run: seq<State>, ls: seq<Label>, k: nat, t: nat, c: int): nat
    requires |run| == |ls| + 1 && k < |ls|
  {
    var a := Machine.Last(CallBy(t), ls, k);
    if ls[k] == Access(t) && t < |run[k].pcs| && t < |run[k + 1].pcs| && !run[k].pcs[t].Idle? && run[k + 1].pcs[t].Idle?
       && a.Some? && ls[a.value] == Call(t, c)
    then 1 else 0
  }

  ghost function AllFinished(run: seq<State>, ls: seq<Label>, k: nat, t: nat, c: int): nat
    requires |run| == |ls| + 1 && k < |run|
  {
    if k == 0 then 0 else AllFinished(run, ls, k - 1, t, c) + Finished(run, ls, k - 1, t, c)
  }

  ghost function AllRun(run: seq<State>, ls: seq<Label>, k: nat, t: nat, c: int): nat
    requires |run| == |ls| + 1 && k < |run|
  {
    if k == 0 then 0 else AllRun(run, ls, k - 1, t, c) + RanBy(run[k - 1], ls[k - 1], t, c)
  }

  lemma FinishedIsFiled(run: seq<State>, ls: seq<Label>, k: nat, t: nat, c: int)
    requires IsRun(run, ls) && k < |ls|
    ensures Finished(run, ls, k, t, c) == FiledBy(run[k], ls[k], t, c)
  {
    Serving(run, ls, k, t);
    assert Machine.StepAt(Next, run, ls, k);
  }

  /** In every run, at every point, for every thread and callback: it has been the argument of as many
    finished calls of the thread as its polls have run it and it is pending in its record. */
  lemma {:induction false} NoCallbackIsLost(run: seq<State>, ls: seq<Label>, k: nat, t: nat, c: int)
    requires IsRun(run, ls) && k < |run|
    ensures AllFinished(run, ls, k, t, c) == AllRun(run, ls, k, t, c) + Pends(run[k].m, t, c)
  {
    CountNone(FreshRec.pending, c);
    if k > 0 {
      NoCallbackIsLost(run, ls, k - 1, t, c);
      RunInv(run, ls, k - 1);
      assert Machine.StepAt(Next, run, ls, k - 1);
      FinishedIsFiled(run, ls, k - 1, t, c);
      StepConserves(run[k - 1], ls[k - 1], run[k], t, c);
    }
  }

  lemma {:induction false} FinishesNothing(run: seq<State>, ls: seq<Label>, a: nat, k: nat, t: nat, c: int)
    requires IsRun(run, ls) && a < k <= |ls| && ls[a] == PollCall(t) && Machine.Last(CallBy(t), ls, k) == Some(a)
    ensures AllFinished(run, ls, k, t, c) == AllFinished(run, ls, a, t, c)
  {
    if a + 1 < k { FinishesNothing(run, ls, a, k - 1, t, c); }
  }

  /** A poll runs exactly what it takes out of its record, and nothing if it answers false. */
  lemma PollRunsWhatItTakes(run: seq<State>, ls: seq<Label>, k: nat, t: nat, c: int)
    requires IsRun(run, ls) && k < |ls| && ls[k] == Access(t) && t < |run[k].pcs| && t < |run[k + 1].pcs|
    requires !run[k].pcs[t].Idle? && run[k + 1].pcs[t].Idle?
    requires Machine.Last(CallBy(t), ls, k).Some? && ls[Machine.Last(CallBy(t), ls, k).value].PollCall?
    ensures
      var a := Machine.Last(CallBy(t), ls, k).value;
      && AllRun(run, ls, k + 1, t, c) + Pends(run[k + 1].m, t, c) == AllRun(run, ls, a, t, c) + Pends(run[a].m, t, c)
      && (run[k + 1].pcs[t].answer.PollFalse? ==> AllRun(run, ls, k + 1, t, c) == AllRun(run, ls, a, t, c))
      && (run[k + 1].pcs[t].answer.PollTrue? && !Met(run, ls, t, a, k) ==> Pends(run[k + 1].m, t, c) == 0)
  {
    var a := Machine.Last(CallBy(t), ls, k).value;
    CallTakesEffect(run, ls, k, t);
    FinishesNothing(run, ls, a, k + 1, t, c);
    NoCallbackIsLost(run, ls, a, t, c);
    NoCallbackIsLost(run, ls, k + 1, t, c);
    if Empty(run[k + 1].m.recs[t]) { CountNone(run[k + 1].m.recs[t].pending, c); }
  }

  // ---------------------------------------------------------------- sections

  lemma LiveStep(s: State, l: Label, s': State, t: nat, id: nat)
    requires |s.pcs| == |s.m.recs| && Next(s, l, s') && t < |s'.m.recs|
    ensures id in s'.m.recs[t].live ==> |s.m.secs| <= id || (t < |s.m.recs| && id in s.m.recs[t].live)
    ensures |s.m.secs| <= |s'.m.secs|
    ensures t < |s.m.recs| && id in s.m.recs[t].live && id !in s'.m.recs[t].live ==> l == Access(t) && s.pcs[t] == EndStore(id)
    ensures t < |s'.pcs| && s'.pcs[t] == EndStore(id) ==>
              l == End(t, id) || (t < |s.pcs| && s.pcs[t] == EndStore(id) && l != Access(t))
  {
    if l.Access? && l.t != t { OtherPending(s.m, l.t, s.pcs[l.t], t); }
  }

  lemma RecordsStay(s: State, l: Label, s': State)
    requires Inv(s) && Next(s, l, s')
    ensures |s.pcs| == |s.m.recs| <= |s'.m.recs| == |s'.pcs|
  {
  }

  /** A section stays open until its thread asks to end it. */
  lemma {:induction false} StaysOpen(run: seq<State>, ls: seq<Label>, j: nat, k: nat, t: nat, id: nat)
    requires IsRun(run, ls) && j <= k < |run| && t < |run[j].m.recs| && id in run[j].m.recs[t].live
    requires t < |run[j].pcs| && run[j].pcs[t] != EndStore(id)
    requires forall i | j <= i < k :: ls[i] != End(t, id)
    ensures t < |run[k].pcs| && t < |run[k].m.recs| && id in run[k].m.recs[t].live && run[k].pcs[t] != EndStore(id)
  {
    if j < k {
      var p: nat := k - 1;
      StaysOpen(run, ls, j, p, t, id);
      RunInv(run, ls, p);
      assert Next(run[p], ls[p], run[k]) by { assert Machine.StepAt(Next, run, ls, p); }
      RecordsStay(run[p], ls[p], run[k]);
      LiveStep(run[p], ls[p], run[k], t, id);
    }
  }

  /** A section belongs to one record for good. */
  lemma {:induction false} OneOwner(run: seq<State>, ls: seq<Label>, j: nat, k: nat, r: nat, q: nat, id: nat)
    requires IsRun(run, ls) && j <= k < |run| && r < |run[j].m.recs| && q < |run[k].m.recs|
    requires id in run[j].m.recs[r].live && id in run[k].m.recs[q].live
    ensures r == q
    decreases k, j
  {
    RunInv(run, ls, j);
    assert RecOk(run[j].m, r);
    if k > 0 {
      RunInv(run, ls, k - 1);
      assert Machine.StepAt(Next, run, ls, k - 1);
      LiveStep(run[k - 1], ls[k - 1], run[k], q, id);
      if j < k {
        SectionsGrow(run, ls, j, k - 1);
        OneOwner(run, ls, j, k - 1, r, q, id);
      } else {
        LiveStep(run[k - 1], ls[k - 1], run[k], r, id);
        if id < |run[k - 1].m.secs| {
          OneOwner(run, ls, k - 1, k - 1, r, q, id);
        } else {
          OnlyOpener(run[k - 1], ls[k - 1], run[k], r, q, id);
        }
      }
    }
  }

  lemma {:induction false} SectionsGrow(run: seq<State>, ls: seq<Label>, j: nat, k: nat)
    requires IsRun(run, ls) && j <= k < |run|
    ensures |run[j].m.secs| <= |run[k].m.secs|
  {
    if j < k {
      SectionsGrow(run, ls, j, k - 1);
      assert Machine.StepAt(Next, run, ls, k - 1);
    }
  }

  lemma OnlyOpener(s: State, l: Label, s': State, r: nat, q: nat, id: nat)
    requires Inv(s) && Next(s, l, s') && r < |s'.m.recs| && q < |s'.m.recs|
    requires id in s'.m.recs[r].live && id in s'.m.recs[q].live && |s.m.secs| <= id
    ensures r == q
  {
    forall u: nat | u < |s.m.recs| ensures id !in s.m.recs[u].live { assert RecOk(s.m, u); }
    if l.Access? {
      if l.t != r && r < |s.m.recs| { OtherPending(s.m, l.t, s.pcs[l.t], r); }
      if l.t != q && q < |s.m.recs| { OtherPending(s.m, l.t, s.pcs[l.t], q); }
    }
  }

  /** When the end of a section returns, the section has ended, whoever looks. */
  lemma EndCloses(run: seq<State>, ls: seq<Label>, k: nat, t: nat)
    requires IsRun(run, ls) && k < |ls| && ls[k] == Access(t) && t < |run[k].pcs| && t < |run[k + 1].pcs|
    requires !run[k].pcs[t].Idle? && run[k + 1].pcs[t].Idle? && run[k + 1].pcs[t].answer.Closed?
    ensures Machine.Last(CallBy(t), ls, k).Some? && ls[Machine.Last(CallBy(t), ls, k).value].End?
    ensures Ended(run[k + 1].m, ls[Machine.Last(CallBy(t), ls, k).value].id)
  {
    CallTakesEffect(run, ls, k, t);
    var a := Machine.Last(CallBy(t), ls, k).value;
    var id := ls[a].id;
    assert Machine.StepAt(Next, run, ls, a);
    RunInv(run, ls, a);
    assert RecOk(run[a].m, t);
    SectionsGrow(run, ls, a, k + 1);
    var m := run[k + 1].m;
    forall q: nat | q < |m.recs| ensures id !in m.recs[q].live {
      if id in m.recs[q].live { OneOwner(run, ls, a, k + 1, t, q, id); }
    }
  }

  // ---------------------------------------------------------------- synchronize and barrier

  lemma {:induction false} SyncLoaded(run: seq<State>, ls: seq<Label>, k: nat, t: nat, a: nat)
    requires IsRun(run, ls) && a < k < |run| && t < |run[k].pcs| && Waits(run[k].pcs[t]).Some?
    requires Machine.Last(CallBy(t), ls, k) == Some(a)
    ensures exists j: nat :: a < j < k && SyncedAt(run, ls, j, t, Waits(run[k].pcs[t]).value)
  {
    var p: nat := k - 1;
    assert Machine.StepAt(Next, run, ls, p);
    WaitsStep(run[p], ls[p], run[k], t);
    if ls[p] == Access(t) && run[p].pcs[t].SyncLoad? && Waits(run[k].pcs[t]) == Some(OpenSections(run[p].m)) {
      assert a < p;
      assert SyncedAt(run, ls, p, t, Waits(run[k].pcs[t]).value);
    } else {
      SyncLoaded(run, ls, p, t, a);
    }
  }

  lemma {:induction false} EndedStays(run: seq<State>, ls: seq<Label>, j: nat, k: nat, h: nat)
    requires IsRun(run, ls) && j <= k < |run| && Ended(run[j].m, h)
    ensures Ended(run[k].m, h)
  {
    if j < k {
      EndedStays(run, ls, j, k - 1, h);
      RunInv(run, ls, k - 1);
      assert Machine.StepAt(Next, run, ls, k - 1);
      forall t: nat | t < |run[k].m.recs| ensures h !in run[k].m.recs[t].live {
        LiveStep(run[k - 1], ls[k - 1], run[k], t, h);
      }
    }
  }

  /** In the call of `ck_epoch_synchronize` that returns at step k, the epoch was read at a step j, and every
    section that was open then has ended. */
  lemma SynchronizeEnds(run: seq<State>, ls: seq<Label>, k: nat, t: nat) returns (j: nat)
    requires IsRun(run, ls) && k < |ls| && ls[k] == Access(t) && t < |run[k].pcs| && t < |run[k + 1].pcs|
    requires !run[k].pcs[t].Idle? && run[k + 1].pcs[t].Idle? && run[k + 1].pcs[t].answer.Synced?
    ensures var a := Machine.Last(CallBy(t), ls, k); a.Some? && ls[a.value] == SyncCall(t) && a.value < j <= k
    ensures SyncedAt(run, ls, j, t, run[k + 1].pcs[t].answer.held)
    ensures forall h | h in OpenSections(run[j].m) :: Ended(run[k + 1].m, h)
  {
    CallTakesEffect(run, ls, k, t);
    var a := Machine.Last(CallBy(t), ls, k).value;
    SyncLoaded(run, ls, k + 1, t, a);
    j :| a < j < k + 1 && SyncedAt(run, ls, j, t, run[k + 1].pcs[t].answer.held);
    RunInv(run, ls, k + 1);
    assert ThreadInv(run[k + 1].m, t, run[k + 1].pcs[t]);
  }

  /** So `ck_epoch_barrier`, which goes on to run every callback that is pending in its record, runs none early:
    when the synchronize has returned, all that was open when they were filed has ended. */
  lemma BarrierRunsNothingEarly(run: seq<State>, ls: seq<Label>, k: nat, t: nat)
    requires IsRun(run, ls) && k < |ls| && ls[k] == Access(t) && t < |run[k].pcs| && t < |run[k + 1].pcs|
    requires !run[k].pcs[t].Idle? && run[k + 1].pcs[t].Idle? && run[k + 1].pcs[t].answer.Synced?
    ensures t < |run[k + 1].m.recs| && |run[k + 1].m.recs[t].pending| == SLOTS && HazardsEnded(run[k + 1].m, t)
  {
    var j := SynchronizeEnds(run, ls, k, t);
    CallTakesEffect(run, ls, k, t);
    var a := Machine.Last(CallBy(t), ls, k).value;
    RunInv(run, ls, a);
    assert ThreadInv(run[a].m, t, run[a].pcs[t]) by { assert Machine.StepAt(Next, run, ls, a); }
    var q: seq<seq<Entry>> := run[a].m.recs[t].pending;
    SectionsGrow(run, ls, a, j);
    forall o: int, i: int, h: nat | 0 <= o < SLOTS && 0 <= i < |q[o]| && h in q[o][i].hazards ensures Ended(run[k + 1].m, h) {
      assert EntryOk(run[a].m, q[o][i]);
      if h !in OpenSections(run[j].m) {
        assert Ended(run[j].m, h);
        EndedStays(run, ls, j, k + 1, h);
      }
    }
  }
}
