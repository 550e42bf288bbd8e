/**
 A deployment coming up, look by look (src/activity.rs): the ladder is climbed and
 the percent does not fall before the first settled look.
 */
module CreateRun {
  import opened Text
  import opened Activity

  /** A look at a create: the operator finishes the bootstrap only with every node ready and current. */
  predicate InCreate(i: ActivityInput) {
    && 0 <= i.nodesDesired
    && (i.initialized ==> i.nodesReady >= i.nodesDesired && i.nodesUpdated >= i.nodesDesired)
  }

  /** From one look to the next: what is known stays, and what was reached is not lost. */
  predicate Progresses(a: ActivityInput, b: ActivityInput) {
    && InCreate(a) && InCreate(b)
    && (a.phase != "" ==> b.phase != "")
    && (a.nodesDesired > 0 ==> b.nodesDesired == a.nodesDesired && b.pvcsTotal == a.pvcsTotal)
    && a.pvcsBound <= b.pvcsBound
    && a.nodesReady <= b.nodesReady
    && (a.initialized ==> b.initialized)
    && (a.dashboardsReady ==> b.dashboardsReady)
  }

  predicate IsCreate(looks: seq<ActivityInput>) {
    && (forall k | 0 <= k < |looks| :: InCreate(looks[k]))
    && (forall k | 0 < k < |looks| :: Progresses(looks[k - 1], looks[k]))
  }

  /** `b` shows a rung at least as high as `a`, and a percent at least as high. */
  predicate NotBelow(a: ActivityInput, b: ActivityInput) {
    && Position(Evaluate(a).stage) <= Position(Evaluate(b).stage)
    && Evaluate(a).percent <= Evaluate(b).percent
  }

  lemma RungClimbs(a: ActivityInput, b: ActivityInput)
    requires Progresses(a, b)
    ensures var (s, d) := StageOf(a); var (t, e) := StageOf(b);
            && Position(s) <= Position(t)
            && (s == t && d.Some? ==> e.Some? && d.value.total == e.value.total && d.value.done <= e.value.done)
            && (s == t && d.None? ==> e.None?)
  {
  }

  lemma StepClimbs(a: ActivityInput, b: ActivityInput)
    requires Progresses(a, b) && !Settled(a)
    ensures NotBelow(a, b)
  {
    RungClimbs(a, b);
    VerdictIsCoherent(a);
    VerdictIsCoherent(b);
    var (s, d) := StageOf(a); var (t, e) := StageOf(b);
    LadderIsContiguous(s, t);
    if s == t && d.Some? {
      PercentStaysInRung(s, d.value.done, e.value.done, d.value.total);
    }
  }

  /** A transitive relation that holds from each look to the next holds across them. */
  lemma {:induction false} Chain(
    looks: seq<ActivityInput>, r: (ActivityInput, ActivityInput) -> bool, i: nat, j: nat)
    requires i <= j < |looks|
    requires forall a :: r(a, a)
    requires forall a, b, c :: r(a, b) && r(b, c) ==> r(a, c)
    requires forall k | 0 < k <= j :: r(looks[k - 1], looks[k])
    ensures r(looks[i], looks[j])
    decreases j - i
  {
    if i < j {
      Chain(looks, r, i, j - 1);
      assert r(looks[j - 1], looks[j]);
    }
  }

  /** Up to and including the first settled look, no later look of a create shows less than an earlier one. */
  lemma CreateNeverFallsBack(looks: seq<ActivityInput>, i: nat, j: nat)
    requires IsCreate(looks) && i <= j < |looks|
    requires forall k | 0 <= k < j :: !Settled(looks[k])
    ensures NotBelow(looks[i], looks[j])
  {
    forall k | 0 < k <= j ensures NotBelow(looks[k - 1], looks[k]) {
      StepClimbs(looks[k - 1], looks[k]);
    }
    Chain(looks, NotBelow, i, j);
  }

  /** The bootstrap is the pivot: a create reads as creating up to it, and never again after it. */
  lemma CreatingFlipsOnce(looks: seq<ActivityInput>, i: nat, j: nat)
    requires IsCreate(looks) && i <= j < |looks|
    ensures Evaluate(looks[j]).kind == Creating ==> Evaluate(looks[i]).kind == Creating
    ensures Evaluate(looks[i]).kind == Creating <==> !looks[i].initialized
  {
    var r := (a: ActivityInput, b: ActivityInput) => a.initialized ==> b.initialized;
    forall k | 0 < k <= j ensures r(looks[k - 1], looks[k]) {
      assert Progresses(looks[k - 1], looks[k]);
    }
    Chain(looks, r, i, j);
  }

  /** A volume added after the node rung takes the percent back down, whatever else the create has reached. */
  lemma LateVolumeFallsBack(a: ActivityInput, b: ActivityInput)
    requires InCreate(a) && !VolumesPending(a) && a.nodesDesired > 0 && !Settled(a)
    requires b == a.(pvcsTotal := b.pvcsTotal) && VolumesPending(b) && !Settled(b)
    ensures Position(Evaluate(b).stage) < Position(Evaluate(a).stage)
    ensures 0 < b.pvcsTotal < 30 ==> Evaluate(b).percent < Evaluate(a).percent
  {
    VerdictIsCoherent(a);
    BelowTheCeiling(b.pvcsTotal);
    if b.pvcsBound < 0 {
      PercentStaysInRung(Volumes, b.pvcsBound, 0, b.pvcsTotal);
    }
  }
}
