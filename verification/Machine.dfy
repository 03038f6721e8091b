/** Runs of a machine: a sequence of states, and the label of the step from each to the next. */
module Machine {
  import opened Prelude

  ghost predicate StepAt<S(!new), L(!new)>(next: (S, L, S) -> bool, run: seq<S>, ls: seq<L>, i: nat) {
    i < |ls| && i + 1 < |run| && next(run[i], ls[i], run[i + 1])
  }

  /** Steps from any state. */
  ghost predicate Steps<S(!new), L(!new)>(next: (S, L, S) -> bool, run: seq<S>, ls: seq<L>) {
    |run| == |ls| + 1 && forall i: nat | i < |ls| :: StepAt(next, run, ls, i)
  }

  /** The last label before step k that meets p. */
  ghost function Last<L(!new)>(p: L -> bool, ls: seq<L>, k: nat): (a: Option<nat>)
    requires k <= |ls|
    ensures a.Some? ==> a.value < k && p(ls[a.value]) && forall j | a.value < j < k :: !p(ls[j])
    ensures a.None? ==> forall j | 0 <= j < k :: !p(ls[j])
  {
    if k == 0 then None else if p(ls[k - 1]) then Some(k - 1) else Last(p, ls, k - 1)
  }

  /** What every step keeps holds at every point, if it holds at first. */
  lemma {:induction false} Invariant<S(!new), L(!new)>(next: (S, L, S) -> bool, inv: S -> bool, run: seq<S>, ls: seq<L>, k: nat)
    requires Steps(next, run, ls) && k < |run| && inv(run[0])
    requires forall s, l, s' | inv(s) && next(s, l, s') :: inv(s')
    ensures inv(run[k])
  {
    if k > 0 {
      Invariant(next, inv, run, ls, k - 1);
      assert StepAt(next, run, ls, k - 1);
    }
  }

  /** If each step brings a rank down for as long as something is going on, that comes to an end. */
  lemma Ends<S(!new), L(!new)>(next: (S, L, S) -> bool, inv: S -> bool, busy: S -> bool, rank: S -> nat, run: seq<S>, ls: seq<L>)
      returns (k: nat)
    requires Steps(next, run, ls) && inv(run[0]) && |ls| >= rank(run[0])
    requires forall s | inv(s) && busy(s) :: rank(s) > 0
    requires forall s, l, s' | inv(s) && busy(s) && next(s, l, s') :: inv(s') && (busy(s') ==> rank(s') < rank(s))
    ensures k < |run| && k <= rank(run[0]) && inv(run[k]) && !busy(run[k])
  {
    k := 0;
    while busy(run[k])
      invariant k < |run| && inv(run[k]) && k <= rank(run[0]) && (busy(run[k]) ==> rank(run[k]) + k <= rank(run[0]))
      decreases |run| - k
    {
      assert StepAt(next, run, ls, k);
      k := k + 1;
    }
  }

  /** How many of the labels from step a up to step n meet p. */
  ghost function Count<L(!new)>(p: L -> bool, ls: seq<L>, a: nat, n: nat): nat
    requires a <= n <= |ls|
  {
    if a == n then 0 else Count(p, ls, a, n - 1) + if p(ls[n - 1]) then 1 else 0
  }

  /** Step j does not bring the rank up, and brings it down if its label meets p. */
  ghost predicate Falls<S(!new), L(!new)>(rank: S -> nat, p: L -> bool, run: seq<S>, ls: seq<L>, j: nat) {
    j < |ls| && j + 1 < |run| && if p(ls[j]) then rank(run[j + 1]) < rank(run[j]) else rank(run[j + 1]) <= rank(run[j])
  }

  /** A rank bounds how many steps of one kind there can be, whatever other steps come in between. */
  lemma {:induction false} Bounded<S(!new), L(!new)>(rank: S -> nat, p: L -> bool, run: seq<S>, ls: seq<L>, a: nat, n: nat)
    requires a <= n <= |ls| && |run| == |ls| + 1 && forall j: nat | a <= j < n :: Falls(rank, p, run, ls, j)
    ensures Count(p, ls, a, n) + rank(run[n]) <= rank(run[a])
  {
    if a < n {
      Bounded(rank, p, run, ls, a, n - 1);
      assert Falls(rank, p, run, ls, n - 1);
    }
  }
}
