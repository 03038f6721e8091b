/** What the end of a section returns in the machine of `Epoch.dfy`, and when that is what
  include/ck_epoch.h:233-236 promises. */
module EpochEnds {
  import opened Prelude
  import Machine
  import opened Epoch
  import opened EpochSteps
  import opened EpochRuns
  import opened EpochCalls

  // ---------------------------------------------------------------- what the end of a section returns

  /** In the course of an end: the bucket of the section, and that it counts nothing any more. */
  ghost predicate Ending(m: Shared, t: nat, id: nat, pc: Pc) {
    && t < |m.recs| && id < |m.secs| && m.secs[id].bucket < 2
    && (pc.DelRef? ==> pc.b == m.secs[id].bucket && |m.recs[t].bucket| == 2 && m.recs[t].bucket[pc.b].epoch == m.secs[id].at)
    && (pc.DelRefStore? ==> InBucket(m.secs, m.recs[t].live, m.secs[id].bucket) == {} && pc.e > m.secs[id].at
                            && m.recs[t].live != {} && forall x | x in m.recs[t].live :: x < |m.secs| && m.secs[x].at == pc.e)
  }

  lemma StoreGoesOn(s: State, t: nat, s': State, id: nat)
    requires Inv(s) && Next(s, Access(t), s') && s.m.objects && s.pcs[t] == EndStore(id) && Ending(s.m, t, id, s.pcs[t])
    ensures Ending(s'.m, t, id, s'.pcs[t])
  {
    assert ThreadInv(s.m, t, s.pcs[t]);
    assert id in InBucket(s.m.secs, s.m.recs[t].live, s.m.secs[id].bucket);
  }

  lemma DelRefGoesOn(s: State, t: nat, s': State, id: nat)
    requires Inv(s) && Next(s, Access(t), s') && s.m.objects && s.pcs[t].DelRef? && Ending(s.m, t, id, s.pcs[t])
    requires !s'.pcs[t].Idle?
    ensures Ending(s'.m, t, id, s'.pcs[t])
  {
    assert ThreadInv(s.m, t, s.pcs[t]);
    var b, c := s.pcs[t].b, s.m.recs[t];
    assert BucketOk(s.m.secs, c.live, c.bucket[b], 1, b) && BucketOk(s.m.secs, c.live, c.bucket[1 - b], 0, 1 - b);
    if s'.pcs[t].DelRefStore? {
      assert InBucket(s.m.secs, c.live, 1 - b) != {};
      forall x | x in c.live ensures x < |s.m.secs| && s.m.secs[x].at == c.bucket[1 - b].epoch {
        assert x !in InBucket(s.m.secs, c.live, b);
        assert x in InBucket(s.m.secs, c.live, 1 - b);
      }
    }
  }

  lemma EndingNext(s: State, t: nat, s': State, id: nat)
    requires Inv(s) && Next(s, Access(t), s') && s.m.objects && Serves(End(t, id), s.pcs[t]) && Ending(s.m, t, id, s.pcs[t])
    requires !s.pcs[t].Idle? && !s'.pcs[t].Idle?
    ensures Ending(s'.m, t, id, s'.pcs[t])
  {
    if s.pcs[t].EndStore? { StoreGoesOn(s, t, s', id); } else if s.pcs[t].DelRef? { DelRefGoesOn(s, t, s', id); }
  }

  lemma {:induction false} SameObjects(run: seq<State>, ls: seq<Label>, k: nat)
    requires IsRun(run, ls) && k < |run|
    ensures run[k].m.objects == run[0].m.objects
  {
    if k > 0 {
      SameObjects(run, ls, k - 1);
      assert Machine.StepAt(Next, run, ls, k - 1);
    }
  }

  lemma {:induction false} EndSoFar(run: seq<State>, ls: seq<Label>, k: nat, t: nat, a: nat)
    requires IsRun(run, ls) && a < k < |run| && t < |run[k].pcs| && !run[k].pcs[t].Idle? && run[0].m.objects
    requires Machine.Last(CallBy(t), ls, k) == Some(a) && ls[a].End?
    ensures Ending(run[k].m, t, ls[a].id, run[k].pcs[t])
  {
    if a + 1 == k {
      EndFirst(run, ls, t, a);
    } else {
      Serving(run, ls, k - 1, t);
      assert Machine.StepAt(Next, run, ls, k - 1);
      EndSoFar(run, ls, k - 1, t, a);
      EndNext(run, ls, k, t, a);
    }
  }

  lemma EndFirst(run: seq<State>, ls: seq<Label>, t: nat, a: nat)
    requires IsRun(run, ls) && a < |ls| && ls[a].End? && ls[a].t == t && run[0].m.objects
    ensures t < |run[a + 1].pcs| && Ending(run[a + 1].m, t, ls[a].id, run[a + 1].pcs[t])
  {
    RunInv(run, ls, a);
    SameObjects(run, ls, a);
    assert Machine.StepAt(Next, run, ls, a);
    EndingStarts(run[a], t, run[a + 1], ls[a].id);
  }

  lemma EndNext(run: seq<State>, ls: seq<Label>, k: nat, t: nat, a: nat)
    requires IsRun(run, ls) && a + 1 < k < |run| && t < |run[k - 1].pcs| && t < |run[k].pcs| && run[0].m.objects
    requires Machine.Last(CallBy(t), ls, k) == Some(a) && ls[a].End? && !run[k - 1].pcs[t].Idle? && !run[k].pcs[t].Idle?
    requires Ending(run[k - 1].m, t, ls[a].id, run[k - 1].pcs[t])
    ensures Ending(run[k].m, t, ls[a].id, run[k].pcs[t])
  {
    RunInv(run, ls, k - 1);
    SameObjects(run, ls, k - 1);
    Serving(run, ls, k - 1, t);
    SoFar(run, ls, k - 1, t, a);
    assert Machine.StepAt(Next, run, ls, k - 1);
    EndingGoesOn(run[k - 1], ls[k - 1], run[k], t, ls[a].id);
  }

  lemma EndingGoesOn(s: State, l: Label, s': State, t: nat, id: nat)
    requires Inv(s) && Next(s, l, s') && !CallBy(t)(l) && s.m.objects && t < |s.pcs| && t < |s'.pcs|
    requires Serves(End(t, id), s.pcs[t]) && Ending(s.m, t, id, s.pcs[t])
    requires !s.m.recs[t].free && !s.pcs[t].Idle? && !s'.pcs[t].Idle?
    ensures Ending(s'.m, t, id, s'.pcs[t])
  {
    if l == Access(t) {
      EndingNext(s, t, s', id);
    } else {
      OthersLeave(s, l, s', t);
      SectionsStay(s, l, s');
      assert RecOk(s.m, t);
      EndingStays(s.m, s'.m, t, id, s.pcs[t]);
    }
  }

  lemma EndingStarts(s: State, t: nat, s': State, id: nat)
    requires Inv(s) && Next(s, End(t, id), s') && s.m.objects
    ensures Ending(s'.m, t, id, s'.pcs[t])
  {
    assert ThreadInv(s.m, t, s.pcs[t]);
  }

  lemma SectionsStay(s: State, l: Label, s': State)
    requires Next(s, l, s')
    ensures s.m.secs <= s'.m.secs
  {
  }

  lemma EndingStays(m: Shared, m': Shared, t: nat, id: nat, pc: Pc)
    requires Ending(m, t, id, pc) && RecOk(m, t) && m.secs <= m'.secs && t < |m'.recs| && m'.recs[t] == m.recs[t]
    ensures Ending(m', t, id, pc)
  {
    var live, b := m.recs[t].live, m.secs[id].bucket;
    assert InBucket(m'.secs, live, b) == InBucket(m.secs, live, b);
  }

  lemma LastStep(s: State, t: nat, s': State, id: nat)
    requires Inv(s) && Next(s, Access(t), s') && Serves(End(t, id), s.pcs[t]) && !s.pcs[t].Idle? && s'.pcs[t].Idle?
    requires s.m.objects ==> Ending(s.m, t, id, s.pcs[t])
    ensures t < |s'.m.recs| && s'.m.objects == s.m.objects && s'.m.secs == s.m.secs && s'.pcs[t].answer.Closed?
    ensures !s.m.objects ==> (s'.pcs[t].answer.last <==> s'.m.recs[t].live == {})
    ensures s.m.objects ==> (s'.pcs[t].answer.last <==> InBucket(s.m.secs, s'.m.recs[t].live, s.m.secs[id].bucket) == {})
  {
    assert ThreadInv(s.m, t, s.pcs[t]);
    if s.pcs[t].EndStore? { LastPlain(s.m, t, id); }
    if s.pcs[t].DelRef? { LastInBucket(s.m, t, s.pcs[t].b); }
  }

  lemma LastPlain(m: Shared, t: nat, id: nat)
    requires ThreadInv(m, t, EndStore(id))
    ensures m.recs[t].active == 1 <==> m.recs[t].live - {id} == {}
  {
    var live := m.recs[t].live;
    assert live == live - {id} + {id};
    assert |live| == |live - {id}| + 1;
  }

  lemma LastInBucket(m: Shared, t: nat, b: nat)
    requires ThreadInv(m, t, DelRef(b))
    ensures b < 2 && (m.recs[t].bucket[b].count == 1 <==> InBucket(m.secs, m.recs[t].live, b) == {})
  {
    assert BucketOk(m.secs, m.recs[t].live, m.recs[t].bucket[b], 1, b);
  }

  /** The end of a section returns whether no section is open that was counted with it: none at all
    without section objects, and with them none in the bucket of its epoch. */
  lemma EndReturns(run: seq<State>, ls: seq<Label>, k: nat, t: nat)
    requires IsRun(run, ls) && k < |ls| && ls[k] == Access(t) && t < |run[k].pcs| && t < |run[k + 1].pcs|
    requires !run[k].pcs[t].Idle? && run[k + 1].pcs[t].Idle? && run[k + 1].pcs[t].answer.Closed?
    ensures
      var a, m := Machine.Last(CallBy(t), ls, k), run[k + 1].m;
      && a.Some? && ls[a.value].End? && t < |m.recs|
      && (!m.objects ==> (run[k + 1].pcs[t].answer.last <==> m.recs[t].live == {}))
      && (m.objects ==> ls[a.value].id < |m.secs|)
      && (m.objects ==>
            (run[k + 1].pcs[t].answer.last <==> InBucket(m.secs, m.recs[t].live, m.secs[ls[a.value].id].bucket) == {}))
  {
    Serving(run, ls, k, t);
    Serving(run, ls, k + 1, t);
    RunInv(run, ls, k);
    assert Machine.StepAt(Next, run, ls, k);
    var a := Machine.Last(CallBy(t), ls, k).value;
    SameObjects(run, ls, k);
    if run[k].m.objects { EndSoFar(run, ls, k, t, a); }
    LastStep(run[k], t, run[k + 1], ls[a].id);
  }

  /** What the record of a thread publishes after the end of section id, if it published e0 before: the epoch
    of the sections that are still open, if none of them counts in the bucket of that section and they have
    observed a later epoch; otherwise what it published before. */
  ghost predicate MovedOn(m: Shared, t: nat, id: nat, e0: nat) {
    && t < |m.recs| && id < |m.secs|
    && var live, e := m.recs[t].live, m.recs[t].epoch;
       if InBucket(m.secs, live, m.secs[id].bucket) == {} && exists x :: x in live && x < |m.secs| && m.secs[x].at > m.secs[id].at
       then forall x | x in live :: x < |m.secs| && m.secs[x].at == e
       else e == e0
  }

  lemma MoveStep(s: State, t: nat, s': State, id: nat)
    requires Inv(s) && Next(s, Access(t), s') && Serves(End(t, id), s.pcs[t]) && !s.pcs[t].Idle? && s'.pcs[t].Idle?
    requires s.m.objects && Ending(s.m, t, id, s.pcs[t])
    ensures MovedOn(s'.m, t, id, s.m.recs[t].epoch)
  {
    assert ThreadInv(s.m, t, s.pcs[t]);
  }

  /** With the last section of a bucket, and only then, the record moves on to the epoch of the sections that
    are left, if that is later: so that they alone decide how long others wait. */
  lemma EndMovesOn(run: seq<State>, ls: seq<Label>, k: nat, t: nat)
    requires IsRun(run, ls) && k < |ls| && ls[k] == Access(t) && t < |run[k].pcs| && t < |run[k + 1].pcs|
    requires !run[k].pcs[t].Idle? && run[k + 1].pcs[t].Idle? && run[k + 1].pcs[t].answer.Closed? && run[k].m.objects
    ensures
      var a := Machine.Last(CallBy(t), ls, k);
      && a.Some? && ls[a.value].End? && t < |run[a.value].m.recs|
      && MovedOn(run[k + 1].m, t, ls[a.value].id, run[a.value].m.recs[t].epoch)
  {
    Serving(run, ls, k, t);
    Serving(run, ls, k + 1, t);
    RunInv(run, ls, k);
    assert Machine.StepAt(Next, run, ls, k);
    var a := Machine.Last(CallBy(t), ls, k).value;
    SameObjects(run, ls, k);
    EndSoFar(run, ls, k, t, a);
    SoFar(run, ls, k, t, a);
    MoveStep(run[k], t, run[k + 1], ls[a].id);
  }

  /** include/ck_epoch.h:233-236 promises true exactly if no section of the caller is open. With section
    objects that is so exactly unless the sections that are open all count in the other bucket. */
  lemma EndReturnsRight(run: seq<State>, ls: seq<Label>, k: nat, t: nat)
    requires IsRun(run, ls) && k < |ls| && ls[k] == Access(t) && t < |run[k].pcs| && t < |run[k + 1].pcs|
    requires !run[k].pcs[t].Idle? && run[k + 1].pcs[t].Idle? && run[k + 1].pcs[t].answer.Closed? && run[k].m.objects
    ensures
      var a, m := Machine.Last(CallBy(t), ls, k), run[k + 1].m;
      && a.Some? && ls[a.value].End? && t < |m.recs| && ls[a.value].id < |m.secs|
      && var live, b := m.recs[t].live, m.secs[ls[a.value].id].bucket;
         (run[k + 1].pcs[t].answer.last <==> live == {})
         <==> live == {} || exists id :: id in live && id < |m.secs| && m.secs[id].bucket == b
  {
    EndReturns(run, ls, k, t);
    assert Machine.StepAt(Next, run, ls, k);
    var a, m := Machine.Last(CallBy(t), ls, k), run[k + 1].m;
    var live, b := m.recs[t].live, m.secs[ls[a.value].id].bucket;
    if InBucket(m.secs, live, b) != {} {
      var x :| x in InBucket(m.secs, live, b);
    } else {
      forall id | id in live && id < |m.secs| ensures m.secs[id].bucket != b { assert id !in InBucket(m.secs, live, b); }
    }
  }

  // ---------------------------------------------------------------- a run in which the promise fails

  ghost predicate Extends(run: seq<State>, ls: seq<Label>, s: State) {
    IsRun(run, ls) && run[|ls|] == s
  }

  lemma Extend(run: seq<State>, ls: seq<Label>, s: State, l: Label, s': State) returns (run': seq<State>, ls': seq<Label>)
    requires Extends(run, ls, s) && Next(s, l, s')
    ensures Extends(run', ls', s') && run' == run + [s'] && ls' == ls + [l]
  {
    run', ls' := run + [s'], ls + [l];
    forall i: nat | i < |ls'| ensures Machine.StepAt(Next, run', ls', i) {
      if i < |ls| { assert Machine.StepAt(Next, run, ls, i); }
    }
  }

  /** Thread t's next access, which leads to m' and pc'. */
  lemma Proceed(run: seq<State>, ls: seq<Label>, s: State, t: nat, m': Shared, pc': Pc)
      returns (run': seq<State>, ls': seq<Label>, s': State)
    requires Extends(run, ls, s) && t < |s.pcs| && InRange(s.m, t, s.pcs[t]) && Step(s.m, t, s.pcs[t]) == (m', pc')
    ensures s' == State(m', s.pcs[t := pc']) && Extends(run', ls', s')
  {
    s' := State(m', s.pcs[t := pc']);
    run', ls' := Extend(run, ls, s, Access(t), s');
  }

  ghost function Owner(epoch: nat, active: nat, bucket: seq<Ref>, live: set<nat>): Rec {
    Rec(false, epoch, active, bucket, FreshRec.pending, live, Some(1))
  }

  lemma Begins() returns (run: seq<State>, ls: seq<Label>, s: State)
    ensures Extends(run, ls, s) && s.pcs == [AddRefLoad, Idle(NoAnswer)]
    ensures s.m == Shared(true, 1, [Owner(1, 1, [Ref(0, 0), Ref(0, 0)], {}), FreshRec], [])
  {
    s := State(Shared(true, 1, [FreshRec, FreshRec], []), [Idle(NoAnswer), Idle(NoAnswer)]);
    run, ls := [s], [];
    var s1 := s.(pcs := s.pcs[0 := BeginEnter]);
    run, ls := Extend(run, ls, s, Begin(0), s1);
    var r1 := FreshRec.(active := 1);
    run, ls, s := Proceed(run, ls, s1, 0, Put(s1.m, 0, r1), BeginLoad);
    run, ls, s := Proceed(run, ls, s, 0, Put(s.m, 0, r1.(low := Some(1))), BeginStore(1));
    run, ls, s := Proceed(run, ls, s, 0, Put(s.m, 0, r1.(low := Some(1), epoch := 1)), AddRefLoad);
    assert s.m.recs == [Owner(1, 1, [Ref(0, 0), Ref(0, 0)], {}), FreshRec] && s.pcs == [AddRefLoad, Idle(NoAnswer)];
  }

  /** Thread 0 has opened section 0 in epoch 1. */
  lemma OneOpen() returns (run: seq<State>, ls: seq<Label>, s: State)
    ensures Extends(run, ls, s) && s.pcs == [Idle(Opened(0)), Idle(NoAnswer)]
    ensures s.m == Shared(true, 1, [Owner(1, 1, [Ref(0, 0), Ref(1, 1)], {0}), FreshRec], [Section(1, 1)])
  {
    run, ls, s := Begins();
    run, ls, s := Proceed(run, ls, s, 0, s.m, AddRef(1));
    var r := s.m.recs[0];
    assert r.bucket[1 := Ref(1, 1)] == [Ref(0, 0), Ref(1, 1)] && r.live + {|s.m.secs|} == {0};
    assert s.m.secs + [Section(1, 1)] == [Section(1, 1)];
    var m' := Put(s.m, 0, Owner(1, 1, [Ref(0, 0), Ref(1, 1)], {0})).(secs := [Section(1, 1)]);
    run, ls, s := Proceed(run, ls, s, 0, m', Idle(Opened(0)));
    assert s.pcs == [Idle(Opened(0)), Idle(NoAnswer)] && s.m.recs == [Owner(1, 1, [Ref(0, 0), Ref(1, 1)], {0}), FreshRec];
  }

  /** A poll of thread 1 has moved the epoch on to 2. */
  lemma EpochMoved() returns (run: seq<State>, ls: seq<Label>, s: State)
    ensures Extends(run, ls, s) && s.pcs == [Idle(Opened(0)), Dispatch(1)]
    ensures s.m == Shared(true, 2, [Owner(1, 1, [Ref(0, 0), Ref(1, 1)], {0}), FreshRec], [Section(1, 1)])
  {
    run, ls, s := OneOpen();
    var s1 := s.(pcs := s.pcs[1 := PollLoad]);
    run, ls := Extend(run, ls, s, PollCall(1), s1);
    var m := s.m;
    run, ls, s := Proceed(run, ls, s1, 1, m, ScanStart(Poll, 1));
    run, ls, s := Proceed(run, ls, s, 1, m, ScanState(Poll, 1, 2, false, 1));
    run, ls, s := Proceed(run, ls, s, 1, m, ScanActive(Poll, 1, 2, false, 1));
    run, ls, s := Proceed(run, ls, s, 1, m, ScanState(Poll, 1, 1, false, 1));
    run, ls, s := Proceed(run, ls, s, 1, m, ScanActive(Poll, 1, 1, false, 1));
    run, ls, s := Proceed(run, ls, s, 1, m, ScanEpoch(Poll, 1, 1, 1));
    run, ls, s := Proceed(run, ls, s, 1, m, ScanState(Poll, 1, 0, true, 1));
    run, ls, s := Proceed(run, ls, s, 1, m, Tick(Poll, 1));
    run, ls, s := Proceed(run, ls, s, 1, m.(epoch := 2), Dispatch(1));
  }

  /** Thread 0 has opened section 1 inside section 0, in the other bucket. */
  lemma TwoOpen() returns (run: seq<State>, ls: seq<Label>, s: State)
    ensures Extends(run, ls, s) && s.pcs == [Idle(Opened(1)), Dispatch(1)]
    ensures s.m == Shared(true, 2, [Owner(1, 2, [Ref(2, 1), Ref(1, 1)], {0, 1}), FreshRec], [Section(1, 1), Section(2, 0)])
  {
    run, ls, s := EpochMoved();
    var s1 := s.(pcs := s.pcs[0 := BeginEnter]);
    run, ls := Extend(run, ls, s, Begin(0), s1);
    run, ls, s := Proceed(run, ls, s1, 0, Put(s.m, 0, Owner(1, 2, [Ref(0, 0), Ref(1, 1)], {0})), AddRefLoad);
    run, ls, s := Proceed(run, ls, s, 0, s.m, AddRef(2));
    var r := s.m.recs[0];
    assert r.bucket[0 := Ref(2, 1)] == [Ref(2, 1), Ref(1, 1)] && r.live + {|s.m.secs|} == {0, 1};
    assert s.m.secs + [Section(2, 0)] == [Section(1, 1), Section(2, 0)];
    var m' := Put(s.m, 0, Owner(1, 2, [Ref(2, 1), Ref(1, 1)], {0, 1})).(secs := [Section(1, 1), Section(2, 0)]);
    run, ls, s := Proceed(run, ls, s, 0, m', Idle(Opened(1)));
  }

  /** The end of section 0 returns true, although section 1 of the same thread is open. */
  lemma TrueTooEarly() returns (run: seq<State>, ls: seq<Label>)
    ensures IsRun(run, ls)
    ensures var s := run[|ls|];
            |s.pcs| == |s.m.recs| == 2 && s.pcs[0] == Idle(Closed(true)) && s.m.recs[0].live == {1}
  {
    var s;
    run, ls, s := TwoOpen();
    var s1 := s.(pcs := s.pcs[0 := EndStore(0)]);
    run, ls := Extend(run, ls, s, End(0, 0), s1);
    var r := Owner(1, 1, [Ref(2, 1), Ref(1, 1)], {1});
    var buckets := [Ref(2, 1), Ref(1, 1)];
    assert {0, 1} - {0} == {1} && buckets[1 := Ref(1, 0)] == [Ref(2, 1), Ref(1, 0)];
    run, ls, s := Proceed(run, ls, s1, 0, Put(s.m, 0, r), DelRef(1));
    run, ls, s := Proceed(run, ls, s, 0, Put(s.m, 0, r.(bucket := [Ref(2, 1), Ref(1, 0)])), DelRefStore(2));
    run, ls, s := Proceed(run, ls, s, 0, Put(s.m, 0, r.(bucket := [Ref(2, 1), Ref(1, 0)], epoch := 2, low := Some(2))), Idle(Closed(true)));
  }
}
