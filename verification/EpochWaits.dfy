/** How long the calls of the machine of `Epoch.dfy` take: beginning and ending a section, `ck_epoch_call` and
  `ck_epoch_poll` wait for nobody, and `ck_epoch_synchronize` only for records that are active under
  another epoch than the global one (src/ck_epoch.c:436-640). */
module EpochWaits {
  import opened Prelude
  import Machine
  import opened Epoch
  import opened EpochSteps
  import opened EpochRuns
  import opened EpochCalls

  /** The accesses of a scan of n records that is followed by one tick. */
  ghost function Round(n: nat): nat {
    3 * n + 3
  }

  /** Two such rounds, and the load before them. */
  ghost function Rounds(n: nat): nat {
    2 * Round(n) + 1
  }

  ghost function Times(left: nat, x: nat): nat {
    if left == 0 then 0 else x + Times(left - 1, x)
  }

  /** How often a synchronize can still find that the epoch has moved on under it: with the last time it is done. */
  ghost function Restarts(n: nat, job: Job, e: nat): nat {
    if job.Sync? && e < job.e0 + GRACE then Times(job.e0 + GRACE - e, Rounds(n)) else 0
  }

  /** What comes after a scan: the rest of a poll, or the tick and the rounds that a synchronize has left. */
  ghost function After(n: nat, job: Job): nat {
    match job
    case Poll => 6
    case Sync(_, _, i) => if i + 1 < GRACE - 1 then Round(n) + 1 else 1
  }

  /** How many accesses a call has still to make at most, if there are never more than n records and nothing
    stalls a synchronize. */
  ghost function Rank(n: nat, pc: Pc): nat {
    match pc
    case Idle(_) => 0
    case BeginEnter => 5
    case BeginLoad => 4
    case BeginStore(_) => 3
    case AddRefLoad => 2
    case AddRef(_) => 1
    case EndStore(_) => 3
    case DelRef(_) => 2
    case DelRefStore(_) => 1
    case CallLoad(_) => 2
    case CallPush(_) => 1
    case PollLoad => 3 * n + 9
    case SyncLoad => Times(GRACE, Rounds(n)) + Rounds(n)
    case ScanStart(job, e) => Restarts(n, job, e) + 3 * n + 2 + After(n, job)
    case ScanState(job, e, k, _, _) => Restarts(n, job, e) + 3 * k + 1 + After(n, job)
    case ScanActive(job, e, k, _, _) => Restarts(n, job, e) + 3 * k + After(n, job)
    case ScanEpoch(job, e, k, _) => Restarts(n, job, e) + 3 * k - (if k > 0 then 1 else 0) + After(n, job)
    case SyncReload(job, e, _, _) => Restarts(n, job, e) + 1
    case Tick(job, e) => Restarts(n, job, e) + if job.Poll? then 2 else After(n, job)
    case Quiesce(_) => 5
    case Drain(slot) => if slot < SLOTS then SLOTS - slot else 0
    case Dispatch(_) => 1
  }

  lemma {:induction false} TimesGrow(a: nat, b: nat, x: nat)
    requires a < b
    ensures Times(a, x) + x <= Times(b, x)
  {
    if a + 1 < b { TimesGrow(a, b - 1, x); }
  }

  lemma ThreeTimes(x: nat)
    ensures Times(3, x) == 3 * x
  {
    assert Times(0, x) == 0;
    assert Times(1, x) == x + Times(0, x);
    assert Times(2, x) == x + Times(1, x);
    assert Times(3, x) == x + Times(2, x);
  }

  lemma RestartsFall(n: nat, job: Job, e: nat, e': nat)
    requires e <= e'
    ensures Restarts(n, job, e') <= Restarts(n, job, e)
    ensures job.Sync? && e < e' && e < job.e0 + GRACE ==> Restarts(n, job, e') + Rounds(n) <= Restarts(n, job, e)
  {
    if job.Sync? && e < e' && e < job.e0 + GRACE {
      TimesGrow(if e' < job.e0 + GRACE then job.e0 + GRACE - e' else 0, job.e0 + GRACE - e, Rounds(n));
    }
  }

  ghost function RankOf(n: nat, t: nat): State -> nat {
    (s: State) => if t < |s.pcs| then Rank(n, s.pcs[t]) else 0
  }

  ghost function AccessOf(t: nat): Label -> bool {
    (l: Label) => l == Access(t)
  }

  /** At step j a synchronize of thread t, which has come to a record that is active under another epoch,
    finds that the global epoch has not moved on since it began to scan. */
  ghost predicate StalledAt(run: seq<State>, ls: seq<Label>, t: nat, j: nat) {
    && j < |run| == |ls| + 1 && j < |ls| && ls[j] == Access(t) && t < |run[j].pcs| && run[j].pcs[t].SyncReload?
    && run[j].m.epoch == run[j].pcs[t].e
  }

  lemma ReloadFalls(s: State, t: nat, s': State, n: nat)
    requires Inv(s) && Next(s, Access(t), s') && |s.m.recs| <= n && s.pcs[t].SyncReload? && s.m.epoch != s.pcs[t].e
    ensures RankOf(n, t)(s') < RankOf(n, t)(s)
  {
    assert ThreadInv(s.m, t, s.pcs[t]);
    RestartsFall(n, s.pcs[t].job, s.pcs[t].e, s.m.epoch);
  }

  lemma TickFalls(s: State, t: nat, s': State, n: nat)
    requires Inv(s) && Next(s, Access(t), s') && |s.m.recs| <= n && s.pcs[t].Tick?
    ensures RankOf(n, t)(s') < RankOf(n, t)(s)
  {
    assert ThreadInv(s.m, t, s.pcs[t]);
    RestartsFall(n, s.pcs[t].job, s.pcs[t].e, s'.m.epoch);
  }

  lemma RankFalls(s: State, t: nat, s': State, n: nat)
    requires Inv(s) && Next(s, Access(t), s') && |s.m.recs| <= n && !s.pcs[t].Idle?
    requires s.pcs[t].SyncReload? ==> s.m.epoch != s.pcs[t].e
    ensures RankOf(n, t)(s') < RankOf(n, t)(s)
  {
    if s.pcs[t].SyncReload? {
      ReloadFalls(s, t, s', n);
    } else if s.pcs[t].Tick? {
      TickFalls(s, t, s', n);
    } else if s.pcs[t].PollLoad? || s.pcs[t].SyncLoad? || Scans(s.pcs[t]) {
      ScanFalls(s, t, s', n);
    } else {
      OtherRankFalls(s.m, t, s.pcs[t], n);
    }
  }

  lemma LoadRankFalls(m: Shared, t: nat, pc: Pc, n: nat)
    requires InRange(m, t, pc) && |m.recs| <= n && (pc.PollLoad? || pc.SyncLoad? || pc.ScanStart?)
    ensures Rank(n, ScanStep(m, t, pc).1) < Rank(n, pc)
  {
  }

  lemma ScanRankFalls(m: Shared, t: nat, pc: Pc, n: nat)
    requires InRange(m, t, pc) && (pc.ScanState? || pc.ScanActive? || pc.ScanEpoch?)
    ensures Rank(n, ScanStep(m, t, pc).1) < Rank(n, pc)
  {
  }

  lemma ScanFalls(s: State, t: nat, s': State, n: nat)
    requires Inv(s) && Next(s, Access(t), s') && |s.m.recs| <= n
    requires s.pcs[t].PollLoad? || s.pcs[t].SyncLoad? || (Scans(s.pcs[t]) && !s.pcs[t].SyncReload? && !s.pcs[t].Tick?)
    ensures RankOf(n, t)(s') < RankOf(n, t)(s)
  {
    var m, pc := s.m, s.pcs[t];
    assert s'.pcs[t] == ScanStep(m, t, pc).1;
    if pc.PollLoad? || pc.SyncLoad? || pc.ScanStart? { LoadRankFalls(m, t, pc, n); } else { ScanRankFalls(m, t, pc, n); }
  }

  lemma OtherRankFalls(m: Shared, t: nat, pc: Pc, n: nat)
    requires InRange(m, t, pc) && !pc.Idle? && !pc.PollLoad? && !pc.SyncLoad? && !Scans(pc)
    ensures Rank(n, Step(m, t, pc).1) < Rank(n, pc)
  {
  }

  // ---------------------------------------------------------------- what a stall is

  /** Thread t is in the call that it began at step a, from there up to step n. */
  ghost predicate InCall(run: seq<State>, ls: seq<Label>, t: nat, a: nat, n: nat) {
    && a < n < |run| == |ls| + 1 && CallBy(t)(ls[a])
    && forall j: nat | a < j < n :: t < |run[j].pcs| && !run[j].pcs[t].Idle?
  }

  lemma EntersEpoch(s: State, l: Label, s': State, t: nat)
    requires Inv(s) && Next(s, l, s') && t < |s.pcs| && t < |s'.pcs| && s'.pcs[t].ScanEpoch? && !s.pcs[t].Idle?
    ensures
      if l == Access(t) then
        && s.pcs[t].ScanActive? && s.pcs[t].k == s'.pcs[t].k
        && 0 < s.pcs[t].k <= |s.m.recs| && s.m.recs[s.pcs[t].k - 1].active != 0
      else s.pcs[t] == s'.pcs[t]
  {
    assert ThreadInv(s.m, t, s.pcs[t]);
  }

  /** A scan that looks at the epoch of a record has met it as active. */
  lemma {:induction false} ScanMet(run: seq<State>, ls: seq<Label>, t: nat, a: nat, n: nat)
    requires IsRun(run, ls) && InCall(run, ls, t, a, n) && t < |run[n].pcs| && run[n].pcs[t].ScanEpoch?
    ensures run[n].pcs[t].k > 0 && MetRecord(run, ls, t, a, n, run[n].pcs[t].k - 1)
  {
    var p: nat := n - 1;
    assert Next(run[p], ls[p], run[n]) by { assert Machine.StepAt(Next, run, ls, p); }
    if a < p {
      RunInv(run, ls, p);
      EntersEpoch(run[p], ls[p], run[n], t);
      if ls[p] == Access(t) {
        assert MeetsAt(run, ls, t, p);
      } else {
        ScanMet(run, ls, t, a, p);
        SameHistory(run, ls, n, t, a);
      }
    }
  }

  /** At step i a synchronize of thread t finds a record that it has met as active under another epoch than e. */
  ghost predicate LagsAt(run: seq<State>, ls: seq<Label>, t: nat, a: nat, i: nat, e: nat, r: nat) {
    i < |ls| && ls[i] == Access(t) && Lags(run, ls, t, a, i, e, r)
  }

  /** A stall is the fault of a record that the scan has found active under another epoch than the global one,
    which has not changed since the scan began. */
  lemma {:induction false} StallMeans(run: seq<State>, ls: seq<Label>, t: nat, a: nat, n: nat) returns (i: nat, r: nat)
    requires IsRun(run, ls) && InCall(run, ls, t, a, n) && t < |run[n].pcs| && run[n].pcs[t].SyncReload?
    ensures a < i < n && LagsAt(run, ls, t, a, i, run[n].pcs[t].e, r)
  {
    var p: nat := n - 1;
    assert Next(run[p], ls[p], run[n]) by { assert Machine.StepAt(Next, run, ls, p); }
    assert a < p;
    if ls[p] == Access(t) {
      ScanMet(run, ls, t, a, p);
      i, r := p, run[p].pcs[t].k - 1;
    } else {
      i, r := StallMeans(run, ls, t, a, p);
    }
  }

  // ---------------------------------------------------------------- how long a call takes

  lemma {:induction false} RecordsGrow(run: seq<State>, ls: seq<Label>, j: nat, n: nat)
    requires IsRun(run, ls) && j <= n < |run|
    ensures |run[j].m.recs| <= |run[n].m.recs|
  {
    if j < n {
      RecordsGrow(run, ls, j, n - 1);
      assert Machine.StepAt(Next, run, ls, n - 1);
    }
  }

  lemma CallGoesOn(run: seq<State>, ls: seq<Label>, t: nat, a: nat, n: nat, j: nat)
    requires IsRun(run, ls) && InCall(run, ls, t, a, n) && a < j < n && !StalledAt(run, ls, t, j)
    ensures Machine.Falls(RankOf(|run[n].m.recs|, t), AccessOf(t), run, ls, j)
  {
    RunInv(run, ls, j);
    RecordsGrow(run, ls, j, n);
    assert Machine.StepAt(Next, run, ls, j);
    if ls[j] == Access(t) { RankFalls(run[j], t, run[j + 1], |run[n].m.recs|); }
  }

  /** What a call costs at most, with n records. */
  ghost function Cost(n: nat, call: Label): nat {
    match call
    case Begin(_) => 5
    case End(_, _) => 3
    case Call(_, _) => 2
    case PollCall(_) => 3 * n + 9
    case SyncCall(_) => 24 * n + 28
    case _ => 0
  }

  /** A call is over after at most so many accesses, whatever the other threads do: a synchronize if it is
    never stalled, all others always. */
  lemma CallEnds(run: seq<State>, ls: seq<Label>, t: nat, a: nat, n: nat)
    requires IsRun(run, ls) && InCall(run, ls, t, a, n) && forall j: nat | a < j < n :: !StalledAt(run, ls, t, j)
    ensures var records := |run[n].m.recs|;
            Machine.Count(AccessOf(t), ls, a + 1, n) + RankOf(records, t)(run[n]) <= Cost(records, ls[a])
  {
    var records := |run[n].m.recs|;
    forall j: nat | a + 1 <= j < n ensures Machine.Falls(RankOf(records, t), AccessOf(t), run, ls, j) {
      CallGoesOn(run, ls, t, a, n, j);
    }
    Machine.Bounded(RankOf(records, t), AccessOf(t), run, ls, a + 1, n);
    assert Machine.StepAt(Next, run, ls, a);
    ThreeTimes(Rounds(records));
  }
}
