/**
 A node pool rolled one pod at a time, seen through the activity verdict
 (src/activity.rs): the counters are derived from the pods, everything else the
 verdict reads may change freely between two looks.
 */
module RollRun {
  import opened Activity

  /** A place in the StatefulSet: is there a pod, on the new revision, ready? */
  datatype Pod = Pod(present: bool, current: bool, ready: bool)

  datatype Act = Delete(i: nat) | Recreate(i: nat) | BecomeReady(i: nat)

  type Pool = seq<Pod>

  predicate IsReady(p: Pod) {
    p.present && p.ready
  }

  predicate IsUpdated(p: Pod) {
    p.present && p.current
  }

  predicate IsDone(p: Pod) {
    IsReady(p) && IsUpdated(p)
  }

  predicate All(pool: Pool, p: Pod -> bool) {
    forall i | 0 <= i < |pool| :: p(pool[i])
  }

  function Count(pool: Pool, p: Pod -> bool): (n: nat)
    ensures n <= |pool|
  {
    if pool == [] then 0 else (if p(pool[|pool| - 1]) then 1 else 0) + Count(pool[..|pool| - 1], p)
  }

  lemma {:induction false} CountFull(pool: Pool, p: Pod -> bool)
    ensures Count(pool, p) == |pool| <==> All(pool, p)
  {
    if pool != [] {
      CountFull(pool[..|pool| - 1], p);
      if Count(pool, p) == |pool| {
        assert forall i | 0 <= i < |pool| :: i < |pool| - 1 ==> pool[i] == pool[..|pool| - 1][i];
      }
    }
  }

  lemma {:induction false} CountUpdate(pool: Pool, i: nat, x: Pod, p: Pod -> bool)
    requires i < |pool|
    ensures Count(pool[i := x], p) == Count(pool, p) - (if p(pool[i]) then 1 else 0) + (if p(x) then 1 else 0)
  {
    var n := |pool| - 1;
    if i == n {
      assert pool[i := x][..n] == pool[..n];
    } else {
      assert pool[i := x][..n] == pool[..n][i := x];
      CountUpdate(pool[..n], i, x, p);
    }
  }

  /** All but at most one place satisfy `p`. */
  lemma {:induction false} CountButOne(pool: Pool, i: nat, p: Pod -> bool)
    requires i < |pool|
    requires forall j | 0 <= j < |pool| && j != i :: p(pool[j])
    ensures Count(pool, p) >= |pool| - 1
  {
    var n := |pool| - 1;
    if i == n {
      CountFull(pool[..n], p);
    } else {
      CountButOne(pool[..n], i, p);
    }
  }

  // ── the roll ────────────────────────────────────────────────────────

  /** The operator deletes an old pod only when every pod is ready. */
  predicate Enabled(pool: Pool, a: Act) {
    && a.i < |pool|
    && match a
       case Delete(i) => All(pool, IsReady) && !pool[i].current
       case Recreate(i) => !pool[i].present
       case BecomeReady(i) => pool[i].present && !pool[i].ready
  }

  function Step(pool: Pool, a: Act): Pool
    requires Enabled(pool, a)
  {
    match a
    case Delete(i) => pool[i := Pod(false, false, false)]
    case Recreate(i) => pool[i := Pod(true, true, false)]
    case BecomeReady(i) => pool[i := pool[i].(ready := true)]
  }

  predicate IsRoll(pool: Pool, acts: seq<Act>)
    decreases |acts|
  {
    acts != [] ==> Enabled(pool, acts[0]) && IsRoll(Step(pool, acts[0]), acts[1..])
  }

  function After(pool: Pool, acts: seq<Act>): (end: Pool)
    requires IsRoll(pool, acts)
    decreases |acts|
  {
    if acts == [] then pool else After(Step(pool, acts[0]), acts[1..])
  }

  /** At most one place is not ready, and it is empty or holds a pod of the new revision. */
  predicate OneDown(pool: Pool) {
    && (forall i, j | 0 <= i < j < |pool| :: IsReady(pool[i]) || IsReady(pool[j]))
    && (forall i | 0 <= i < |pool| :: !IsReady(pool[i]) ==> !pool[i].ready && (pool[i].present <==> pool[i].current))
  }

  lemma StepKeepsOneDown(pool: Pool, a: Act)
    requires OneDown(pool) && Enabled(pool, a)
    ensures OneDown(Step(pool, a)) && |Step(pool, a)| == |pool|
  {
  }

  lemma {:induction false} RollKeepsOneDown(pool: Pool, acts: seq<Act>)
    requires OneDown(pool) && IsRoll(pool, acts)
    ensures OneDown(After(pool, acts)) && |After(pool, acts)| == |pool|
    decreases |acts|
  {
    if acts != [] {
      StepKeepsOneDown(pool, acts[0]);
      RollKeepsOneDown(Step(pool, acts[0]), acts[1..]);
    }
  }

  // ── never settled before the end ────────────────────────────────────

  /** What is read of the pool, under whatever the rest of the input says. */
  predicate Reads(i: ActivityInput, pool: Pool) {
    i.nodesReady == Count(pool, IsReady) && i.nodesUpdated == Count(pool, IsUpdated)
  }

  /** Settled means every pod is ready and current, in any state of a pool no larger than asked for. */
  lemma SettledMeansDone(i: ActivityInput, pool: Pool)
    requires Reads(i, pool) && |pool| <= i.nodesDesired
    ensures Settled(i) ==> |pool| == i.nodesDesired && All(pool, IsDone)
  {
    CountFull(pool, IsReady);
    CountFull(pool, IsUpdated);
  }

  /**
   What the hold on Dashboards waits for, of a pool no larger than asked for: every
   pod there, ready and on the new revision, health green, the bootstrap done, no
   upgrade and no component still moving. Whether Dashboards is up does not matter.
   */
  lemma NodesSettledIff(i: ActivityInput, pool: Pool)
    requires Reads(i, pool) && |pool| <= i.nodesDesired
    ensures Evaluate(i).nodesSettled <==>
              && |pool| == i.nodesDesired > 0 && All(pool, IsDone)
              && i.health == "green" && i.initialized
              && i.upgrade != Pending && i.upgrade != Upgrading && NothingMoving(i.components)
  {
    CountFull(pool, IsReady);
    CountFull(pool, IsUpdated);
  }

  lemma ReadyInRoll(pool: Pool)
    requires OneDown(pool)
    ensures |pool| - 1 <= Count(pool, IsReady) <= |pool|
  {
    if !All(pool, IsReady) {
      var i :| 0 <= i < |pool| && !IsReady(pool[i]);
      CountButOne(pool, i, IsReady);
    }
  }

  /**
   In a roll, an unfinished pool reads as settled exactly when it has one pod more
   than asked for, the missing one is down, and the counters hide it.
   */
  lemma FalselySettled(i: ActivityInput, pool: Pool)
    requires Reads(i, pool) && OneDown(pool) && !All(pool, IsDone)
    ensures Settled(i) <==>
      && |pool| == i.nodesDesired + 1
      && !All(pool, IsReady)
      && Count(pool, IsUpdated) == i.nodesDesired > 0
      && i.health == "green" && i.initialized && i.dashboardsReady
      && !InFlight(i.upgrade) && NothingMoving(i.components)
  {
    ReadyInRoll(pool);
    CountFull(pool, IsReady);
    CountFull(pool, IsUpdated);
  }

  /**
   Working and converged are different claims: in a roll of a pool of the size asked
   for, the deployment is serving exactly between two restarts, whether or not it has
   anything left to roll.
   */
  lemma ServingBetweenRestarts(i: ActivityInput, pool: Pool)
    requires Reads(i, pool) && OneDown(pool) && |pool| == i.nodesDesired > 0 && i.initialized
    ensures Evaluate(i).serving <==> All(pool, IsReady) && i.health in {"green", "yellow"}
    ensures Evaluate(i).serving && !All(pool, IsDone) ==>
              !Evaluate(i).settled && Evaluate(i).kind in {InUpgrade, Restarting}
  {
    ReadyInRoll(pool);
    CountFull(pool, IsReady);
    SettledMeansDone(i, pool);
  }

  const OLD := Pod(true, false, true)
  const DONE := Pod(true, true, true)

  /** The first `k` of `n` pods rolled. */
  function Rolled(n: nat, k: nat): Pool
    requires k <= n
  {
    seq(n, i => if i < k then DONE else OLD)
  }

  /** The acts that roll the first `k` pods, in order. */
  function RollActs(k: nat): seq<Act> {
    if k == 0 then [] else RollActs(k - 1) + [Delete(k - 1), Recreate(k - 1), BecomeReady(k - 1)]
  }

  lemma {:induction false} AfterAppend(pool: Pool, a: seq<Act>, b: seq<Act>)
    requires IsRoll(pool, a) && IsRoll(After(pool, a), b)
    ensures IsRoll(pool, a + b) && After(pool, a + b) == After(After(pool, a), b)
    decreases |a|
  {
    if a == [] {
      assert a + b == b;
    } else {
      assert (a + b)[0] == a[0] && (a + b)[1..] == a[1..] + b;
      AfterAppend(Step(pool, a[0]), a[1..], b);
    }
  }

  lemma AfterOne(pool: Pool, a: Act)
    requires Enabled(pool, a)
    ensures IsRoll(pool, [a]) && After(pool, [a]) == Step(pool, a)
  {
    assert [a][1..] == [];
  }

  lemma RollOne(n: nat, k: nat)
    requires k < n
    ensures var acts := [Delete(k), Recreate(k), BecomeReady(k)];
            IsRoll(Rolled(n, k), acts) && After(Rolled(n, k), acts) == Rolled(n, k + 1)
  {
    var acts := [Delete(k), Recreate(k), BecomeReady(k)];
    var s0 := Rolled(n, k);
    assert Enabled(s0, acts[0]);
    var s1 := Step(s0, acts[0]);
    var s2 := Step(s1, acts[1]);
    var s3 := Step(s2, acts[2]);
    assert s3 == Rolled(n, k + 1);
    AfterOne(s2, acts[2]);
    AfterOne(s1, acts[1]);
    AfterOne(s0, acts[0]);
    AfterAppend(s0, [acts[0]], [acts[1]]);
    AfterAppend(s0, [acts[0]] + [acts[1]], [acts[2]]);
    assert acts == [acts[0]] + [acts[1]] + [acts[2]];
  }

  lemma {:induction false} RollsInOrder(n: nat, k: nat)
    requires k <= n
    ensures IsRoll(Rolled(n, 0), RollActs(k)) && After(Rolled(n, 0), RollActs(k)) == Rolled(n, k)
  {
    if k > 0 {
      RollsInOrder(n, k - 1);
      RollOne(n, k - 1);
      AfterAppend(Rolled(n, 0), RollActs(k - 1), [Delete(k - 1), Recreate(k - 1), BecomeReady(k - 1)]);
    }
  }

  /** It happens for every size: rolling a pool of one more than asked for passes a state that reads settled. */
  lemma LargerPoolReadsSettled(i: ActivityInput, desired: nat) returns (acts: seq<Act>)
    requires i.health == "green" && i.initialized && i.dashboardsReady
    requires !InFlight(i.upgrade) && NothingMoving(i.components) && i.nodesDesired == desired > 0
    ensures IsRoll(Rolled(desired + 1, 0), acts)
    ensures var pool := After(Rolled(desired + 1, 0), acts);
            && !All(pool, IsDone)
            && Settled(i.(nodesReady := Count(pool, IsReady), nodesUpdated := Count(pool, IsUpdated)))
  {
    var n := desired + 1;
    RollsInOrder(n, desired);
    var before := Rolled(n, desired);
    AfterOne(before, Delete(desired));
    acts := RollActs(desired) + [Delete(desired)];
    AfterAppend(Rolled(n, 0), RollActs(desired), [Delete(desired)]);
    LastOneDown(Step(before, Delete(desired)), desired);
  }

  lemma LastOneDown(pool: Pool, n: nat)
    requires |pool| == n + 1 && pool[n] == Pod(false, false, false)
    requires forall i | 0 <= i < n :: pool[i] == DONE
    ensures Count(pool, IsReady) == Count(pool, IsUpdated) == n
    ensures !All(pool, IsDone)
  {
    CountFull(pool[..n], IsReady);
    CountFull(pool[..n], IsUpdated);
    assert !IsDone(pool[n]);
  }

  // ── the percent ─────────────────────────────────────────────────────

  /** What a look reads besides the pool's counters: an initialised deployment whose volumes are bound. */
  predicate Looks(i: ActivityInput, pool: Pool, desired: int) {
    Reads(i, pool) && i.initialized && i.nodesDesired == desired && !VolumesPending(i)
  }

  /** While a pool no larger than asked for is unfinished, the percent is this of the pods alone. */
  function PodsDone(pool: Pool, desired: int): int {
    if Count(pool, IsUpdated) < desired then Count(pool, IsUpdated) else Count(pool, IsReady)
  }

  lemma PercentOfPods(i: ActivityInput, pool: Pool, desired: int)
    requires Looks(i, pool, desired) && |pool| <= desired && desired > 0
    ensures var done := PodsDone(pool, desired);
            && 0 <= done <= desired
            && (done == desired <==> |pool| == desired && All(pool, IsDone))
            && (done < desired ==>
                  Evaluate(i).stage == Nodes && Evaluate(i).percent == PercentFor(Nodes, done, desired))
            && (done == desired ==> Evaluate(i).percent >= Ceiling(Nodes))
  {
    CountFull(pool, IsReady);
    CountFull(pool, IsUpdated);
    VerdictIsCoherent(i);
    PercentStaysInRung(Nodes, PodsDone(pool, desired), PodsDone(pool, desired), desired);
  }

  lemma PodsDoneClimbs(pool: Pool, a: Act, desired: int)
    requires OneDown(pool) && Enabled(pool, a) && |pool| <= desired
    ensures PodsDone(pool, desired) <= PodsDone(Step(pool, a), desired)
  {
    var next := Step(pool, a);
    CountUpdate(pool, a.i, next[a.i], IsReady);
    CountUpdate(pool, a.i, next[a.i], IsUpdated);
    StepKeepsOneDown(pool, a);
    ReadyInRoll(pool);
    ReadyInRoll(next);
    CountFull(pool, IsUpdated);
  }

  lemma {:induction false} PodsDoneNeverFalls(pool: Pool, acts: seq<Act>, desired: int)
    requires OneDown(pool) && IsRoll(pool, acts) && |pool| <= desired
    ensures PodsDone(pool, desired) <= PodsDone(After(pool, acts), desired)
    decreases |acts|
  {
    if acts != [] {
      PodsDoneClimbs(pool, acts[0], desired);
      StepKeepsOneDown(pool, acts[0]);
      PodsDoneNeverFalls(Step(pool, acts[0]), acts[1..], desired);
    }
  }

  /**
   Two looks at a roll, any number of steps apart, with health, Dashboards, upgrade
   and components changed at will in between: while the roll was unfinished at the
   first look, the second never shows a lower percent.
   */
  lemma PercentNeverFalls(first: ActivityInput, second: ActivityInput, pool: Pool, acts: seq<Act>, desired: int)
    requires OneDown(pool) && IsRoll(pool, acts) && |pool| <= desired && desired > 0
    requires Looks(first, pool, desired) && Looks(second, After(pool, acts), desired)
    requires |pool| < desired || !All(pool, IsDone)
    ensures Evaluate(first).percent <= Evaluate(second).percent
  {
    var end := After(pool, acts);
    RollKeepsOneDown(pool, acts);
    PodsDoneNeverFalls(pool, acts, desired);
    PercentOfPods(first, pool, desired);
    PercentOfPods(second, end, desired);
    PercentStaysInRung(Nodes, PodsDone(pool, desired), PodsDone(end, desired), desired);
  }

  /** The pods the node rung counts, in a pool of any size. */
  function PodsShown(pool: Pool, desired: int): int {
    if Count(pool, IsUpdated) < desired then Count(pool, IsUpdated) else Clamp(Count(pool, IsReady), 0, desired)
  }

  lemma PodsShownClimbs(pool: Pool, a: Act, desired: int)
    requires OneDown(pool) && Enabled(pool, a) && desired > 0
    ensures PodsShown(pool, desired) <= PodsShown(Step(pool, a), desired)
  {
    var next := Step(pool, a);
    CountUpdate(pool, a.i, next[a.i], IsReady);
    CountUpdate(pool, a.i, next[a.i], IsUpdated);
    StepKeepsOneDown(pool, a);
    ReadyInRoll(pool);
    ReadyInRoll(next);
    CountFull(pool, IsUpdated);
  }

  lemma {:induction false} PodsShownNeverFalls(pool: Pool, acts: seq<Act>, desired: int)
    requires OneDown(pool) && IsRoll(pool, acts) && desired > 0
    ensures PodsShown(pool, desired) <= PodsShown(After(pool, acts), desired)
    decreases |acts|
  {
    if acts != [] {
      PodsShownClimbs(pool, acts[0], desired);
      StepKeepsOneDown(pool, acts[0]);
      PodsShownNeverFalls(Step(pool, acts[0]), acts[1..], desired);
    }
  }

  /** With every place counted the node rung is behind, and what is shown follows Dashboards and having settled. */
  lemma PercentShown(i: ActivityInput, pool: Pool, desired: int)
    requires Looks(i, pool, desired) && desired > 0
    ensures var shown := PodsShown(pool, desired);
            && 0 <= shown <= desired
            && (shown < desired ==>
                  !Settled(i) && Evaluate(i).percent == PercentFor(Nodes, shown, desired) <= Ceiling(Nodes))
            && (shown == desired ==>
                  Evaluate(i).percent == if Settled(i) then 100 else if i.dashboardsReady then 95 else 85)
  {
    PercentStaysInRung(Nodes, PodsShown(pool, desired), PodsShown(pool, desired), desired);
  }

  /**
   Two looks at a roll of a pool of any size: the percent falls exactly when every
   place asked for was already counted at the first look, and Dashboards, or having
   settled, is lost by the second. A pool larger than asked for counts them all
   before its roll is over.
   */
  lemma PercentFallsIff(first: ActivityInput, second: ActivityInput, pool: Pool, acts: seq<Act>, desired: int)
    requires OneDown(pool) && IsRoll(pool, acts) && desired > 0
    requires Looks(first, pool, desired) && Looks(second, After(pool, acts), desired)
    ensures Evaluate(second).percent < Evaluate(first).percent <==>
              && PodsShown(pool, desired) == desired
              && ((Settled(first) && !Settled(second)) || (first.dashboardsReady && !second.dashboardsReady))
  {
    var end := After(pool, acts);
    PodsShownNeverFalls(pool, acts, desired);
    PercentShown(first, pool, desired);
    PercentShown(second, end, desired);
    PercentStaysInRung(Nodes, PodsShown(pool, desired), PodsShown(end, desired), desired);
  }

  // ── the end ─────────────────────────────────────────────────────────

  /** Steps a place still needs. */
  function Left(p: Pod): nat {
    if !p.present then 2
    else if p.current then (if p.ready then 0 else 1)
    else if p.ready then 3 else 4
  }

  function Work(pool: Pool): nat {
    if pool == [] then 0 else Left(pool[|pool| - 1]) + Work(pool[..|pool| - 1])
  }

  lemma {:induction false} WorkUpdate(pool: Pool, i: nat, x: Pod)
    requires i < |pool|
    ensures Work(pool[i := x]) == Work(pool) - Left(pool[i]) + Left(x)
  {
    var n := |pool| - 1;
    if i == n {
      assert pool[i := x][..n] == pool[..n];
    } else {
      assert pool[i := x][..n] == pool[..n][i := x];
      WorkUpdate(pool[..n], i, x);
    }
  }

  lemma {:induction false} WorkDone(pool: Pool)
    ensures Work(pool) == 0 <==> All(pool, IsDone)
  {
    if pool != [] {
      WorkDone(pool[..|pool| - 1]);
      assert forall i | 0 <= i < |pool| - 1 :: pool[i] == pool[..|pool| - 1][i];
    }
  }

  lemma {:induction false} WorkBound(pool: Pool)
    requires OneDown(pool)
    ensures Work(pool) <= 3 * |pool|
  {
    if pool != [] {
      var rest := pool[..|pool| - 1];
      assert forall i | 0 <= i < |rest| :: rest[i] == pool[i];
      WorkBound(rest);
    }
  }

  /** Every step uses up one unit of work: no roll is longer than three steps a pod. */
  lemma {:induction false} RollEnds(pool: Pool, acts: seq<Act>)
    requires OneDown(pool) && IsRoll(pool, acts)
    ensures |acts| + Work(After(pool, acts)) == Work(pool) <= 3 * |pool|
    decreases |acts|
  {
    WorkBound(pool);
    if acts != [] {
      var next := Step(pool, acts[0]);
      WorkUpdate(pool, acts[0].i, next[acts[0].i]);
      StepKeepsOneDown(pool, acts[0]);
      RollEnds(next, acts[1..]);
    }
  }

  /** A step is possible exactly while the roll is unfinished: a roll that stops has finished. */
  lemma StopsOnlyWhenDone(pool: Pool)
    requires OneDown(pool)
    ensures (exists a :: Enabled(pool, a)) <==> !All(pool, IsDone)
  {
    if !All(pool, IsReady) {
      var i :| 0 <= i < |pool| && !IsReady(pool[i]);
      assert Enabled(pool, if pool[i].present then BecomeReady(i) else Recreate(i));
    } else if !All(pool, IsDone) {
      var i :| 0 <= i < |pool| && !IsDone(pool[i]);
      assert Enabled(pool, Delete(i));
    }
  }
}
