/** What epoch reclamation guarantees, at each state and over whole runs of the machine of `Epoch.dfy`:
  deferred callbacks never run early, and a synchronize waits out every older section. */
module EpochRuns {
  import opened Prelude
  import Machine
  import opened Epoch
  import opened EpochSteps

  // ---------------------------------------------------------------- at one state

  /** When a poll runs a callback, by either way, every section that was open when the callback was
    filed has ended: a slot that the epoch selects never holds anything filed less than two epochs
    ago, and nothing that old is observed any more. */
  lemma DispatchIsSafe(s: State, t: nat, x: Entry, h: nat)
    requires Inv(s) && t < |s.pcs| && InRange(s.m, t, s.pcs[t])
    requires x in Runs(s.m, t, s.pcs[t]) && h in x.hazards
    ensures Ended(s.m, h)
    ensures s.pcs[t].Dispatch? ==> x.filed + 2 <= s.pcs[t].e
  {
    var m, pc := s.m, s.pcs[t];
    assert ThreadInv(m, t, pc);
    if pc.Dispatch? {
      var o := DispatchSlot(pc.e);
      var i :| 0 <= i < |m.recs[t].pending[o]| && m.recs[t].pending[o][i] == x;
      SlotAge(pc.e, x.filed);
      OlderEnded(m, pc.e, h);
    } else {
      var i :| 0 <= i < |m.recs[t].pending[pc.slot]| && m.recs[t].pending[pc.slot][i] == x;
    }
  }

  lemma SlotAge(e: nat, f: nat)
    requires f <= e && f % SLOTS == DispatchSlot(e)
    ensures f + 2 <= e
  {
  }

  /** Every open section has observed the global epoch or the one before it. */
  lemma SectionsAreNear(s: State, r: nat, id: nat)
    requires Inv(s) && r < |s.m.recs| && id in s.m.recs[r].live
    ensures id < |s.m.secs| && s.m.secs[id].at <= s.m.epoch <= s.m.secs[id].at + 1
  {
    assert RecOk(s.m, r);
  }

  /** With section objects, two open sections of a record that share a bucket observed the same
    epoch, and no open section is older than what the record publishes, also after the store by
    which the end of a section moves that value forward. */
  lemma BucketsNeverMix(s: State, r: nat, a: nat, b: nat)
    requires Inv(s) && s.m.objects && r < |s.m.recs| && a in s.m.recs[r].live && b in s.m.recs[r].live
    ensures a < |s.m.secs| && b < |s.m.secs|
    ensures s.m.secs[a].bucket == s.m.secs[b].bucket <==> s.m.secs[a].at == s.m.secs[b].at
    ensures s.m.recs[r].epoch <= s.m.secs[a].at
    ensures s.pcs[r].DelRefStore? ==> s.pcs[r].e <= s.m.secs[a].at
  {
    assert ThreadInv(s.m, r, s.pcs[r]);
    var c := s.m.recs[r];
    assert a in InBucket(s.m.secs, c.live, s.m.secs[a].bucket);
    assert b in InBucket(s.m.secs, c.live, s.m.secs[b].bucket);
  }

  // ---------------------------------------------------------------- whole runs

  ghost predicate IsRun(run: seq<State>, ls: seq<Label>) {
    Machine.Steps(Next, run, ls) && Init(run[0])
  }

  lemma RunInv(run: seq<State>, ls: seq<Label>, k: nat)
    requires IsRun(run, ls) && k < |run|
    ensures Inv(run[k])
  {
    InitInv(run[0]);
    forall s, l, s' | Inv(s) && Next(s, l, s') ensures Inv(s') { NextInv(s, l, s'); }
    Machine.Invariant(Next, Inv, run, ls, k);
  }

  /** At step j thread t, inside `ck_epoch_call`, read the epoch and filed x under it; the hazards
    of x are the sections that were open at that moment. */
  ghost predicate FiledAt(run: seq<State>, ls: seq<Label>, j: nat, t: nat, x: Entry) {
    && j < |ls| && j < |run| && ls[j] == Access(t) && t < |run[j].pcs| && run[j].pcs[t].CallLoad?
    && x == Entry(run[j].pcs[t].cb, run[j].m.epoch, OpenSections(run[j].m))
  }

  ghost predicate InPending(m: Shared, t: nat, x: Entry) {
    t < |m.recs| && exists o :: 0 <= o < |m.recs[t].pending| && x in m.recs[t].pending[o]
  }

  lemma PendingKept(m: Shared, t: nat, pc: Pc)
    requires InRange(m, t, pc)
    ensures BeginStep(m, t, pc).0.recs[t].pending == m.recs[t].pending
    ensures EndStep(m, t, pc).0.recs[t].pending == m.recs[t].pending
    ensures ScanStep(m, t, pc).0 == m
  {
  }

  lemma PendingFinish(m: Shared, t: nat, pc: Pc, o: nat)
    requires InRange(m, t, pc) && o < SLOTS
    ensures var p := FinishStep(m, t, pc).0.recs[t].pending;
            |p| == SLOTS && (p[o] == m.recs[t].pending[o] || p[o] == [])
  {
  }

  lemma PendingAccess(m: Shared, t: nat, pc: Pc, x: Entry)
    requires InRange(m, t, pc) && InPending(Step(m, t, pc).0, t, x)
    ensures InPending(m, t, x) || pc == CallPush(x)
  {
    var p' := Step(m, t, pc).0.recs[t].pending;
    var o :| 0 <= o < |p'| && x in p'[o];
    if pc.Tick? || pc.Quiesce? || pc.Drain? || pc.Dispatch? { PendingFinish(m, t, pc, o); }
    else if !pc.CallLoad? && !pc.CallPush? { PendingKept(m, t, pc); }
    if p'[o] == m.recs[t].pending[o] { assert x in m.recs[t].pending[o]; }
    else if pc.CallPush? && x != pc.entry { assert x in m.recs[t].pending[o]; }
  }

  lemma OtherPending(m: Shared, t: nat, pc: Pc, u: nat)
    requires InRange(m, t, pc) && u != t && u < |m.recs|
    ensures BeginStep(m, t, pc).0.recs[u] == m.recs[u] && EndStep(m, t, pc).0.recs[u] == m.recs[u]
    ensures CallStep(m, t, pc).0.recs[u] == m.recs[u] && FinishStep(m, t, pc).0.recs[u] == m.recs[u]
    ensures ScanStep(m, t, pc).0 == m
  {
  }

  lemma PendingStep(s: State, l: Label, s': State, t: nat, x: Entry)
    requires |s.pcs| == |s.m.recs| && Next(s, l, s') && t < |s'.pcs| && InPending(s'.m, t, x)
    ensures t < |s.pcs| && (InPending(s.m, t, x) || s.pcs[t] == CallPush(x))
  {
    if l.Access? {
      if l.t == t { PendingAccess(s.m, t, s.pcs[t], x); }
      else { OtherPending(s.m, l.t, s.pcs[l.t], t); }
    }
  }

  /** An entry that is pending, or about to be, was so before the step, or was filed by it. */
  lemma OriginStep(s: State, l: Label, s': State, t: nat, x: Entry)
    requires |s.pcs| == |s.m.recs| && Next(s, l, s') && t < |s'.pcs|
    requires InPending(s'.m, t, x) || s'.pcs[t] == CallPush(x)
    ensures t < |s.pcs|
    ensures InPending(s.m, t, x) || s.pcs[t] == CallPush(x)
            || (l == Access(t) && s.pcs[t].CallLoad? && s'.pcs[t] == CallPush(x))
  {
    if InPending(s'.m, t, x) { PendingStep(s, l, s', t, x); }
  }

  lemma {:induction false} EntryOrigin(run: seq<State>, ls: seq<Label>, k: nat, t: nat, x: Entry)
    requires IsRun(run, ls) && k < |run| && t < |run[k].pcs|
    requires InPending(run[k].m, t, x) || run[k].pcs[t] == CallPush(x)
    ensures exists j: nat :: j < k && FiledAt(run, ls, j, t, x)
  {
    if k > 0 {
      RunInv(run, ls, k - 1);
      assert Machine.StepAt(Next, run, ls, k - 1);
      OriginStep(run[k - 1], ls[k - 1], run[k], t, x);
      if run[k - 1].pcs[t].CallLoad? && ls[k - 1] == Access(t) && run[k].pcs[t] == CallPush(x) {
        assert FiledAt(run, ls, k - 1, t, x);
      } else {
        EntryOrigin(run, ls, k - 1, t, x);
      }
    }
  }

  /** In every run: a callback that a poll runs was filed by an earlier call, and every section that
    was open when that call read the epoch has ended. */
  lemma PollRunsNothingEarly(run: seq<State>, ls: seq<Label>, k: nat, t: nat, x: Entry)
    requires IsRun(run, ls) && k < |run| && t < |run[k].pcs| && InRange(run[k].m, t, run[k].pcs[t])
    requires x in Runs(run[k].m, t, run[k].pcs[t])
    ensures exists j: nat :: j < k && FiledAt(run, ls, j, t, x)
                          && forall h | h in OpenSections(run[j].m) :: Ended(run[k].m, h)
  {
    RunInv(run, ls, k);
    var m, pc := run[k].m, run[k].pcs[t];
    var o := if pc.Drain? then pc.slot else DispatchSlot(pc.e);
    assert x in m.recs[t].pending[o];
    assert InPending(m, t, x);
    EntryOrigin(run, ls, k, t, x);
    forall h | h in x.hazards ensures Ended(m, h) { DispatchIsSafe(run[k], t, x, h); }
  }

  /** At step j thread t, inside a synchronize, read the epoch while the sections `held` were open. */
  ghost predicate SyncedAt(run: seq<State>, ls: seq<Label>, j: nat, t: nat, held: set<nat>) {
    && j < |ls| && j < |run| && ls[j] == Access(t) && t < |run[j].pcs| && run[j].pcs[t].SyncLoad?
    && held == OpenSections(run[j].m)
  }

  /** The sections that a thread in a synchronize, or done with one, is waiting for. */
  ghost function Waits(pc: Pc): Option<set<nat>> {
    if (pc.ScanStart? || pc.ScanState? || pc.ScanActive? || pc.ScanEpoch? || pc.SyncReload? || pc.Tick?) && pc.job.Sync?
    then Some(pc.job.held)
    else if pc.Idle? && pc.answer.Synced? then Some(pc.answer.held) else None
  }

  lemma WaitsStep(s: State, l: Label, s': State, t: nat)
    requires Next(s, l, s') && t < |s'.pcs| && Waits(s'.pcs[t]).Some?
    ensures t < |s.pcs|
    ensures Waits(s.pcs[t]) == Waits(s'.pcs[t])
         || (l == Access(t) && s.pcs[t].SyncLoad? && Waits(s'.pcs[t]) == Some(OpenSections(s.m)))
  {
  }

  lemma {:induction false} SyncOrigin(run: seq<State>, ls: seq<Label>, k: nat, t: nat)
    requires IsRun(run, ls) && k < |run| && t < |run[k].pcs| && Waits(run[k].pcs[t]).Some?
    ensures exists j: nat :: j < k && SyncedAt(run, ls, j, t, Waits(run[k].pcs[t]).value)
  {
    if k > 0 {
      assert Machine.StepAt(Next, run, ls, k - 1);
      WaitsStep(run[k - 1], ls[k - 1], run[k], t);
      if Waits(run[k - 1].pcs[t]) == Waits(run[k].pcs[t]) {
        SyncOrigin(run, ls, k - 1, t);
      } else {
        assert SyncedAt(run, ls, k - 1, t, Waits(run[k].pcs[t]).value);
      }
    }
  }

  /** In every run: when a synchronize has returned, by any of its three exits, every section that
    was open when it read the epoch has ended. */
  lemma SynchronizeWaits(run: seq<State>, ls: seq<Label>, k: nat, t: nat)
    requires IsRun(run, ls) && k < |run| && t < |run[k].pcs|
    requires run[k].pcs[t].Idle? && run[k].pcs[t].answer.Synced?
    ensures exists j: nat :: j < k && SyncedAt(run, ls, j, t, run[k].pcs[t].answer.held)
                          && forall h | h in OpenSections(run[j].m) :: Ended(run[k].m, h)
  {
    RunInv(run, ls, k);
    assert ThreadInv(run[k].m, t, run[k].pcs[t]);
    SyncOrigin(run, ls, k, t);
  }
}
