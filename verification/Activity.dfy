/**
 What a deployment is doing, and whether it has settled (src/activity.rs). Counts
 are exact; the fraction inside a rung is the exact quotient, rounded half up. The
 fields of `Blocked` are not part of this model.
 */
module Activity {
  import opened Text

  datatype Rung = Storage | Accepted | Volumes | Nodes | Security | Dashboards | Settling | Ready

  datatype UpgradeState = Idle | Pending | Upgrading | Finished | Failed

  datatype Kind = AtRest | Creating | InUpgrade | Restarting

  datatype Component = Component(name: string, status: string)

  datatype ActivityInput = ActivityInput(
    phase: string,
    health: string,
    initialized: bool,
    nodesReady: int,
    nodesDesired: int,
    nodesUpdated: int,
    pvcsBound: int,
    pvcsTotal: int,
    dashboardsReady: bool,
    upgrade: UpgradeState,
    components: seq<Component>,
    sinceSecs: int)

  /** The fraction `done/total` shown inside a rung. */
  datatype Detail = Detail(done: int, total: int)

  datatype Verdict = Verdict(
    kind: Kind,
    stage: Rung,
    percent: int,
    detail: Option<Detail>,
    settled: bool,
    nodesSettled: bool,
    locksEdits: bool,
    nodesReady: int,
    nodesTotal: int,
    sinceSecs: int,
    stalled: bool,
    serving: bool)

  // ── the ladder ──────────────────────────────────────────────────────

  const LADDER: seq<(Rung, int)> := [
    (Storage, 5), (Accepted, 10), (Volumes, 25), (Nodes, 70), (Security, 85), (Dashboards, 95), (Settling, 100)]

  const STALL_AFTER_SECS := 240

  /** How far up the ladder a rung is; what is not on the ladder is above it. */
  function Position(stage: Rung): nat {
    match stage
    case Storage => 0
    case Accepted => 1
    case Volumes => 2
    case Nodes => 3
    case Security => 4
    case Dashboards => 5
    case Settling => 6
    case Ready => 7
  }

  function Ceiling(stage: Rung): int {
    if Position(stage) < |LADDER| then LADDER[Position(stage)].1 else 100
  }

  function Floor(stage: Rung): int {
    if Position(stage) == 0 then 0 else LADDER[Position(stage) - 1].1
  }

  /** `stage_floor`: the ceiling of the rung below. */
  method StageFloor(stage: Rung) returns (floor: int)
    ensures floor == Floor(stage)
  {
    floor := 0;
    for i := 0 to |LADDER|
      invariant i <= Position(stage)
      invariant floor == if i == 0 then 0 else LADDER[i - 1].1
    {
      var (name, ceiling) := LADDER[i];
      PositionOfRung(i);
      if name == stage {
        return floor;
      }
      PositionIsUnique(name, stage);
      floor := ceiling;
    }
  }

  lemma PositionOfRung(i: nat)
    requires i < |LADDER|
    ensures Position(LADDER[i].0) == i
  {
  }

  lemma PositionIsUnique(a: Rung, b: Rung)
    ensures Position(a) == Position(b) <==> a == b
  {
  }

  /** `f32::round` of a non-negative quotient. */
  function RoundHalfUp(n: int, d: int): int
    requires d > 0
  {
    (2 * n + d) / (2 * d)
  }

  function Clamp(x: int, lo: int, hi: int): int {
    if x < lo then lo else if x > hi then hi else x
  }

  /** `percent_for` at the fraction `k/total` of the rung. */
  function PercentFor(stage: Rung, k: int, total: int): int
    requires total > 0
  {
    RoundHalfUp(Floor(stage) * total + (Ceiling(stage) - Floor(stage)) * Clamp(k, 0, total), total)
  }

  lemma Scale(a: int, b: int, d: int)
    requires d > 0
    ensures a <= b <==> a * d <= b * d
    ensures a <= b ==> (b - a) * d == b * d - a * d
  {
  }

  lemma QuotientAtLeast(n: int, d: int, c: int)
    requires d > 0
    ensures n / d >= c <==> n >= c * d
  {
    var q := n / d;
    assert n == q * d + n % d;
    Scale(c, q, d);
    Scale(q + 1, c, d);
    assert (q + 1) * d == q * d + d;
  }

  lemma RoundAtLeast(n: int, d: int, c: int)
    requires d > 0
    ensures RoundHalfUp(n, d) >= c <==> 2 * n + d >= 2 * (c * d)
  {
    QuotientAtLeast(2 * n + d, 2 * d, c);
    assert c * (2 * d) == 2 * (c * d);
  }

  lemma RoundMonotone(n: int, m: int, d: int)
    requires d > 0 && n <= m
    ensures RoundHalfUp(n, d) <= RoundHalfUp(m, d)
  {
    RoundAtLeast(n, d, RoundHalfUp(n, d));
    RoundAtLeast(m, d, RoundHalfUp(n, d));
  }

  /** The rungs meet end to end and the ladder ends at 100. */
  lemma LadderIsContiguous(a: Rung, b: Rung)
    ensures Position(b) == Position(a) + 1 ==> Floor(b) == Ceiling(a)
    ensures Position(a) < Position(b) ==> Ceiling(a) <= Floor(b)
    ensures 0 <= Floor(a) <= Ceiling(a) <= 100
    ensures Floor(a) == Ceiling(a) <==> a == Ready
  {
  }

  /** Inside a rung the percent stays between its floor and its ceiling and never falls as the count grows. */
  lemma PercentStaysInRung(stage: Rung, k: int, more: int, total: int)
    requires total > 0 && k <= more
    ensures Floor(stage) <= PercentFor(stage, k, total) <= PercentFor(stage, more, total) <= Ceiling(stage)
  {
    LadderIsContiguous(stage, stage);
    Interpolates(Floor(stage), Ceiling(stage), Clamp(k, 0, total), Clamp(more, 0, total), total);
  }

  lemma Interpolates(floor: int, ceiling: int, low: int, high: int, total: int)
    requires floor <= ceiling && 0 <= low <= high <= total && total > 0
    ensures floor
         <= RoundHalfUp(floor * total + (ceiling - floor) * low, total)
         <= RoundHalfUp(floor * total + (ceiling - floor) * high, total)
         <= ceiling
  {
    var span := ceiling - floor;
    var atLow, atHigh := floor * total + span * low, floor * total + span * high;
    ScaleSpan(span, low, high, total);
    RoundMonotone(atLow, atHigh, total);
    RoundAtLeast(atLow, total, floor);
    RoundAtLeast(atHigh, total, ceiling + 1);
    CeilingScaled(floor, span, total);
  }

  lemma CeilingScaled(floor: int, span: int, total: int)
    ensures (floor + span + 1) * total == floor * total + span * total + total
  {
  }

  lemma ScaleSpan(span: int, low: int, high: int, total: int)
    requires span >= 0 && 0 <= low <= high <= total
    ensures 0 <= span * low <= span * high <= span * total
  {
  }

  /** The percent reaches the rung's ceiling early exactly when what is missing rounds away. */
  lemma CeilingReachedEarly(stage: Rung, k: int, total: int)
    requires 0 <= k < total
    ensures PercentFor(stage, k, total) == Ceiling(stage) <==>
              2 * (Ceiling(stage) - Floor(stage)) * (total - k) <= total
  {
    var floor, ceiling := Floor(stage), Ceiling(stage);
    var n := floor * total + (ceiling - floor) * k;
    PercentStaysInRung(stage, k, k, total);
    RoundAtLeast(n, total, ceiling);
    assert ceiling * total - n == (ceiling - floor) * (total - k);
  }

  /**
   The comment on `percent_for` says the ceiling is never reached inside a rung.
   That is so for every count below the total exactly with fewer than 30 volumes,
   and with fewer than 90 nodes.
   */
  lemma BelowTheCeiling(total: int)
    requires total > 0
    ensures (forall k | 0 <= k < total :: PercentFor(Volumes, k, total) < Ceiling(Volumes)) <==> total < 30
    ensures (forall k | 0 <= k < total :: PercentFor(Nodes, k, total) < Ceiling(Nodes)) <==> total < 90
  {
    forall k | 0 <= k < total
      ensures PercentFor(Volumes, k, total) < Ceiling(Volumes) <==> total < 30 * (total - k)
      ensures PercentFor(Nodes, k, total) < Ceiling(Nodes) <==> total < 90 * (total - k)
    {
      CeilingReachedEarly(Volumes, k, total);
      CeilingReachedEarly(Nodes, k, total);
      PercentStaysInRung(Volumes, k, k, total);
      PercentStaysInRung(Nodes, k, k, total);
    }
    var last := total - 1;
    assert PercentFor(Volumes, last, total) < Ceiling(Volumes) <==> total < 30;
    assert PercentFor(Nodes, last, total) < Ceiling(Nodes) <==> total < 90;
  }

  // ── the predicate ───────────────────────────────────────────────────

  const TERMINAL := ["finished", "upgraded", "completed", "done", "ready", ""]

  predicate ComponentIsTerminal(status: string) {
    exists t | t in TERMINAL :: SameIgnoringCase(status, t)
  }

  predicate InFlight(u: UpgradeState) {
    u.Pending? || u.Upgrading?
  }

  predicate NothingMoving(components: seq<Component>) {
    forall c | c in components :: ComponentIsTerminal(c.status)
  }

  predicate NodesSettled(i: ActivityInput) {
    && i.health == "green"
    && i.nodesDesired > 0
    && i.nodesReady == i.nodesDesired
    && i.nodesUpdated == i.nodesDesired
    && i.initialized
    && !InFlight(i.upgrade)
    && NothingMoving(i.components)
  }

  predicate Settled(i: ActivityInput) {
    NodesSettled(i) && i.dashboardsReady
  }

  predicate Serving(i: ActivityInput) {
    i.initialized && i.nodesDesired > 0 && i.nodesReady >= i.nodesDesired && i.health in {"green", "yellow"}
  }

  // ── the verdict ─────────────────────────────────────────────────────

  function NodesTotal(i: ActivityInput): int {
    if i.nodesDesired > 0 then i.nodesDesired else 0
  }

  function NodesShown(i: ActivityInput): int {
    Clamp(i.nodesReady, 0, NodesTotal(i))
  }

  predicate VolumesPending(i: ActivityInput) {
    i.pvcsTotal > 0 && i.pvcsBound < i.pvcsTotal
  }

  /** On a roll the pods that reached the new revision, on a create those that are ready. */
  function NodesDone(i: ActivityInput): int {
    if i.initialized && i.nodesUpdated < i.nodesDesired
    then Clamp(i.nodesUpdated, 0, NodesTotal(i)) else NodesShown(i)
  }

  /** `stage_of`: the furthest rung, and the fraction inside it where there is one. */
  function StageOf(i: ActivityInput): (Rung, Option<Detail>) {
    if i.nodesDesired == 0 then (if i.phase == "" then Storage else Accepted, None)
    else if VolumesPending(i) then (Volumes, Some(Detail(i.pvcsBound, i.pvcsTotal)))
    else if NodesDone(i) < NodesTotal(i) then (Nodes, Some(Detail(NodesDone(i), NodesTotal(i))))
    else if !i.initialized then (Security, None)
    else if !i.dashboardsReady then (Dashboards, None)
    else (Settling, None)
  }

  function KindOf(i: ActivityInput): Kind {
    if Settled(i) then AtRest
    else if !i.initialized then Creating
    else if InFlight(i.upgrade) then InUpgrade
    else Restarting
  }

  function PercentAt(stage: Rung, detail: Option<Detail>): int
    requires detail.Some? ==> detail.value.total > 0
  {
    if detail.Some? then PercentFor(stage, detail.value.done, detail.value.total) else PercentFor(stage, 0, 1)
  }

  function AtRestVerdict(nodesReady: int, nodesTotal: int, sinceSecs: int): Verdict {
    Verdict(AtRest, Ready, 100, None, true, true, false, nodesReady, nodesTotal, sinceSecs, false, true)
  }

  function Evaluate(i: ActivityInput): Verdict {
    if Settled(i) then AtRestVerdict(NodesShown(i), NodesTotal(i), i.sinceSecs)
    else
      var (stage, detail) := StageOf(i);
      var percent := PercentAt(stage, detail);
      Verdict(
        KindOf(i), stage, if percent < 99 then percent else 99, detail,
        false, NodesSettled(i), true,
        NodesShown(i), NodesTotal(i), i.sinceSecs,
        i.sinceSecs >= STALL_AFTER_SECS, Serving(i))
  }

  /**
   For any input at all: 100 is shown exactly when settled, edits are locked exactly
   when not, no counter exceeds its total, and the percent lies in the rung shown.
   */
  lemma VerdictIsCoherent(i: ActivityInput)
    ensures var v := Evaluate(i);
            && (v.percent == 100 <==> Settled(i)) && (v.settled <==> Settled(i))
            && (v.locksEdits <==> !v.settled) && (v.kind == AtRest <==> v.settled) && (v.stage == Ready <==> v.settled)
            && (v.settled ==> v.serving && v.nodesReady == v.nodesTotal)
            && (v.settled || i.sinceSecs < STALL_AFTER_SECS ==> !v.stalled)
            && 0 <= v.nodesReady <= v.nodesTotal
            && (v.detail.Some? ==> v.detail.value.done < v.detail.value.total)
            && Floor(v.stage) <= v.percent <= Ceiling(v.stage)
  {
    var (stage, detail) := StageOf(i);
    LadderIsContiguous(stage, Settling);
    if detail.Some? {
      PercentStaysInRung(stage, detail.value.done, detail.value.done, detail.value.total);
    } else {
      PercentStaysInRung(stage, 0, 0, 1);
    }
  }

  /** Bootstrapped, as many nodes ready as asked for, and no primary missing. */
  predicate InService(i: ActivityInput) {
    i.initialized && 0 < i.nodesDesired <= i.nodesReady && (i.health == "green" || i.health == "yellow")
  }

  /**
   The rest of the verdict, for any input: stalled is unsettled for four minutes
   without a move, settled is settled but for Dashboards and Dashboards up, and an
   unsettled deployment is created before its bootstrap and upgraded or restarted after.
   */
  lemma VerdictSays(i: ActivityInput)
    ensures var v := Evaluate(i);
            && (v.stalled <==> !v.settled && i.sinceSecs >= 240)
            && (v.settled <==> v.nodesSettled && i.dashboardsReady)
            && v.sinceSecs == i.sinceSecs
            && (v.kind == Creating <==> !v.settled && !i.initialized)
            && (v.kind == InUpgrade <==> !v.settled && i.initialized && i.upgrade in {Pending, Upgrading})
            && (v.settled || v.kind in {Creating, InUpgrade, Restarting})
            && (i.nodesDesired >= 0 ==> v.nodesTotal == i.nodesDesired)
            && (0 <= i.nodesReady <= i.nodesDesired ==> v.nodesReady == i.nodesReady)
            && (0 <= i.nodesDesired < i.nodesReady ==> v.nodesReady == i.nodesDesired)
            && (v.serving <==> v.settled || InService(i))
  {
  }

  /** `percent` is the whole number nearest to `floor + span * done / total`, and of two the higher. */
  predicate IsNearest(percent: int, floor: int, span: int, d: Detail) {
    -d.total < 2 * (d.total * (percent - floor)) - 2 * (span * d.done) <= d.total
  }

  lemma PercentIsNearest(stage: Rung, k: int, total: int)
    requires 0 <= k <= total && total > 0
    ensures IsNearest(PercentFor(stage, k, total), Floor(stage), Ceiling(stage) - Floor(stage), Detail(k, total))
  {
    NearestInRung(Floor(stage), (Ceiling(stage) - Floor(stage)) * k, total);
  }

  lemma NearestInRung(floor: int, part: int, total: int)
    requires total > 0
    ensures var x := RoundHalfUp(floor * total + part, total);
            -total < 2 * (total * (x - floor)) - 2 * part <= total
  {
    var x := RoundHalfUp(floor * total + part, total);
    NearestQuotient(floor * total + part, total);
    assert total * (x - floor) == total * x - floor * total;
  }

  lemma NearestQuotient(n: int, d: int)
    requires d > 0
    ensures -d < 2 * (d * RoundHalfUp(n, d)) - 2 * n <= d
  {
    var m := 2 * n + d;
    assert m == (2 * d) * (m / (2 * d)) + m % (2 * d);
  }

  predicate VolumesMissing(i: ActivityInput) {
    i.nodesDesired != 0 && 0 < i.pvcsTotal && i.pvcsBound < i.pvcsTotal
  }

  /** The pods a roll is waiting for are those on the new revision, and else those that are ready. */
  function Arrived(i: ActivityInput): int {
    if i.initialized && i.nodesUpdated < i.nodesDesired then i.nodesUpdated else i.nodesReady
  }

  /**
   Which rung an unsettled deployment is on: the first thing missing, from the storage
   up, with the count it waits for.
   */
  lemma StageSays(i: ActivityInput)
    requires 0 <= i.nodesDesired && 0 <= i.nodesReady && 0 <= i.nodesUpdated
    ensures var v := Evaluate(i);
            v.settled || (v.stage, v.detail) ==
              if i.nodesDesired == 0 then (if i.phase == "" then Storage else Accepted, None)
              else if VolumesMissing(i) then (Volumes, Some(Detail(i.pvcsBound, i.pvcsTotal)))
              else if Arrived(i) < i.nodesDesired then (Nodes, Some(Detail(Arrived(i), i.nodesDesired)))
              else (if !i.initialized then Security else if !i.dashboardsReady then Dashboards else Settling, None)
  {
  }

  /** The percent of each rung: where it begins for one without a count, and else as far in as the count is. */
  lemma PercentSays(i: ActivityInput)
    requires 0 <= i.pvcsBound
    ensures var v := Evaluate(i);
            match v.stage
            case Storage => v.percent == 0
            case Accepted => v.percent == 5
            case Volumes => v.detail.Some? && IsNearest(v.percent, 10, 15, v.detail.value)
            case Nodes => v.detail.Some? && IsNearest(v.percent, 25, 45, v.detail.value)
            case Security => v.percent == 70
            case Dashboards => v.percent == 85
            case Settling => v.percent == 95
            case Ready => v.percent == 100
  {
    var (stage, detail) := StageOf(i);
    if !Settled(i) && detail.Some? {
      var d := detail.value;
      PercentIsNearest(stage, d.done, d.total);
      PercentStaysInRung(stage, d.done, d.done, d.total);
    }
  }

  /** A component is done in any of five words, in either letter case, or with none. */
  lemma TerminalStatuses(status: string)
    ensures ComponentIsTerminal(status) <==>
              || status == "" || Spells(status, "finished", "FINISHED") || Spells(status, "upgraded", "UPGRADED")
              || Spells(status, "completed", "COMPLETED") || Spells(status, "done", "DONE")
              || Spells(status, "ready", "READY")
  {
    SpellsName(status, TERMINAL[0], "finished", "FINISHED");
    SpellsName(status, TERMINAL[1], "upgraded", "UPGRADED");
    SpellsName(status, TERMINAL[2], "completed", "COMPLETED");
    SpellsName(status, TERMINAL[3], "done", "DONE");
    SpellsName(status, TERMINAL[4], "ready", "READY");
    assert TERMINAL[5] == "" && SameIgnoringCase(status, TERMINAL[5]) == (status == "");
    assert forall k | 0 <= k < 6 :: TERMINAL[k] in TERMINAL;
  }

  // ── the fast path ───────────────────────────────────────────────────

  /** The clauses of `NodesSettled`, spelled again where the status is read; `FastPathAgrees` holds the two together. */
  predicate PlainlyStable(i: ActivityInput) {
    && i.health == "green"
    && i.nodesDesired > 0
    && i.nodesReady == i.nodesDesired
    && i.nodesUpdated == i.nodesDesired
    && i.initialized
    && !InFlight(i.upgrade)
    && NothingMoving(i.components)
  }

  /**
   The short-circuit of the status read (src/k8s.rs): a plainly stable deployment is
   judged without listing its volumes or its node pods.
   */
  function Observe(i: ActivityInput, throttleRaised: bool, dashboardsAge: int): Verdict {
    if PlainlyStable(i) && !throttleRaised then
      if i.dashboardsReady
      then AtRestVerdict(if i.nodesReady < i.nodesDesired then i.nodesReady else i.nodesDesired, i.nodesDesired, 0)
      else Evaluate(i.(pvcsBound := 0, pvcsTotal := 0, sinceSecs := dashboardsAge))
    else Evaluate(i)
  }

  /** The short-circuit changes no answer but the clock, unless volumes are pending under a missing Dashboards. */
  lemma FastPathAgrees(i: ActivityInput, throttleRaised: bool, dashboardsAge: int)
    ensures var fast, full := Observe(i, throttleRaised, dashboardsAge), Evaluate(i);
            && fast.settled == full.settled
            && ((fast == full.(sinceSecs := fast.sinceSecs, stalled := fast.stalled))
                <==> !(PlainlyStable(i) && !throttleRaised && !i.dashboardsReady && VolumesPending(i)))
  {
  }

  /**
   The clock: none at rest, the Dashboards pod's age while only that is missing, and
   otherwise the nodes'. It decides the stall.
   */
  lemma FastPathClock(i: ActivityInput, throttleRaised: bool, dashboardsAge: int)
    ensures var v := Observe(i, throttleRaised, dashboardsAge);
            && v.sinceSecs == (if v.nodesSettled && !throttleRaised then
                                 if i.dashboardsReady then 0 else dashboardsAge
                               else i.sinceSecs)
            && (v.stalled <==> !v.settled && v.sinceSecs >= 240)
  {
  }
}
