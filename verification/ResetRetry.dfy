/**
 The retry of a restore (src/k8s.rs): its failed Job is deleted before the marker is
 rewritten. When the delete lands and the marker write does not, the marker still asks
 for the retry and the failure that asked for it is gone.
 */
module ResetRetry {
  import opened Text
  import opened AdminReset
  import opened ResetRuns
  import opened SecretPatch
  import opened ResetProtocol
  import opened ResetVerdicts

  /** What a pass finds listed once a deleted Job's pod has been collected. */
  function Listed(w: World): Option<UpdateRun> {
    if w.jobGone then None else Newest(w.runs)
  }

  predicate Prompt(w: World, a: Action) {
    a.BackstopPass? ==> a.seen == Listed(w)
  }

  /** The first restore's marker, with the kept password still to go back to. */
  predicate AtFirstRestore(w: World, p: Pending) {
    && ValidPending(p) && p.stage == Stage.Restore(1)
    && w.marker == Some(MarkerText(p))
    && HasText(w.secret, PREVIOUS_PASSWORD_KEY)
  }

  predicate MarkedRetry(w: World) {
    && w.marker.Some? && ParsePending(w.marker.value).Some?
    && ParsePending(w.marker.value).value.stage == Stage.Restore(2)
  }

  /** A pass that can write and delete retries exactly on a failure it sees that is the restore's. */
  lemma RetriesIff(w: World, p: Pending, a: Action)
    requires AtFirstRestore(w, p) && a.BackstopPass? && Enabled(w, a) && a.writes >= 3 && a.deletable
    ensures MarkedRetry(Step(w, a)) <==> Failed(p, a.seen)
    ensures MarkedRetry(Step(w, a)) ==> Step(w, a).jobGone
  {
    if Failed(p, a.seen) {
      FailureRetries(w, p, a);
    } else {
      NoFailureNoRetry(w, p, a);
    }
  }

  lemma FailureRetries(w: World, p: Pending, a: Action)
    requires AtFirstRestore(w, p) && a.BackstopPass? && Enabled(w, a) && a.writes >= 3 && a.deletable
    requires Failed(p, a.seen)
    ensures MarkedRetry(Step(w, a)) && Step(w, a).jobGone
  {
    var next := Pending(RestoreSince(a.now, a.seen.value.created), Stage.Restore(2));
    NextIsValid(p, a.seen, a.now);
    FailureRestores(w, p, a);
    RestoreWrites(w, next, a.now, a.writes);
    MarkerRoundTrip(next);
  }

  lemma FailureRestores(w: World, p: Pending, a: Action)
    requires AtFirstRestore(w, p) && a.BackstopPass? && Enabled(w, a) && Failed(p, a.seen)
    ensures var next := Pending(RestoreSince(a.now, a.seen.value.created), Stage.Restore(2));
            ValidPending(next) && Step(w, a) == AfterRestore(w, next, a.now, a.writes, a.deletable)
  {
    MarkerRoundTrip(p);
  }

  lemma RestoreWrites(w: World, next: Pending, now: int, writes: nat)
    requires ValidPending(next) && next.stage.Restore? && ValidPending(Pending(now, Stalled))
    requires HasText(w.secret, PREVIOUS_PASSWORD_KEY) && writes >= 3
    ensures AfterRestore(w, next, now, writes, true) ==
              w.(marker := Some(MarkerText(next)),
                 secret := w.secret["password" := w.secret["previous-password"]],
                 jobGone := w.jobGone || next.stage.n > 1)
  {
    RestorePatchEffect(w.secret, w.secret[PREVIOUS_PASSWORD_KEY], false);
  }

  lemma NoFailureNoRetry(w: World, p: Pending, a: Action)
    requires AtFirstRestore(w, p) && a.BackstopPass? && Enabled(w, a) && !Failed(p, a.seen)
    ensures !MarkedRetry(Step(w, a))
  {
    NoFailureNoMove(w, p, a);
    MarkerRoundTrip(p);
  }

  // ── every verdict, by stage ─────────────────────────────────────────

  /** A Job in that phase, created no more than half a minute before the marker's nudge. */
  predicate Sees(seen: Option<UpdateRun>, phase: string, since: int) {
    seen.Some? && seen.value.phase == phase && seen.value.created + 30 >= since
  }

  predicate LeavesStage(end: World, stage: Stage) {
    && end.marker.Some? && ParsePending(end.marker.value).Some?
    && ParsePending(end.marker.value).value.stage == stage
  }

  /** A pass that can make all its writes. */
  predicate CanWrite(w: World, p: Pending, a: Action) {
    && ValidPending(p) && Written(p.stage) && w.marker == Some(MarkerText(p))
    && HasText(w.secret, PREVIOUS_PASSWORD_KEY)
    && a.BackstopPass? && Enabled(w, a) && a.writes >= 3 && a.deletable
  }

  /** What a pass makes of the stage: the next one on a failure, and otherwise the same. */
  function NextStage(stage: Stage): Stage {
    match stage
    case Reset => Stage.Restore(1)
    case Restore(n) => if n == 1 then Stage.Restore(2) else Stalled
    case Stalled => Stalled
  }

  /**
   The whole answer of a pass that can write, at every stage: forgotten on a success,
   or after an hour with no failure to act on; moved up on a failure, dated to the
   pass and out of the failed Job's reach; and otherwise left.
   */
  lemma VerdictByStage(w: World, p: Pending, a: Action)
    requires CanWrite(w, p, a)
    ensures var end := Step(w, a);
            var acts := Sees(a.seen, "Failed", p.since) && !p.stage.Stalled?;
            if Sees(a.seen, "Succeeded", p.since) then end.marker.None?
            else if acts then
              && LeavesStage(end, NextStage(p.stage))
              && ParsePending(end.marker.value).value.since ==
                   if !NextStage(p.stage).Stalled? && a.now < a.seen.value.created + 31
                   then a.seen.value.created + 31 else a.now
            else if a.now - p.since >= 3600 then end.marker.None?
            else end == w
  {
    MarkerRoundTrip(p);
    NextIsValid(p, a.seen, a.now);
    var d := Decide(p, a.seen, a.now);
    if d.Restore? {
      RestoreWrites(w, d.next, a.now, a.writes);
      MarkerRoundTrip(d.next);
    } else if d.Stall? {
      MarkerRoundTrip(d.next);
    }
  }

  /**
   And what it leaves besides the marker: a restore puts the kept password back and
   keeps its copy, the retry deletes the failed Job, a forget drops the copy, and
   nothing else moves.
   */
  lemma WritesByStage(w: World, p: Pending, a: Action)
    requires CanWrite(w, p, a)
    ensures var end := Step(w, a);
            var restores := Sees(a.seen, "Failed", p.since) && p.stage in {Reset, Stage.Restore(1)};
            var forgotten := end.marker.None?;
            end == w.(
              marker := end.marker,
              secret := if forgotten then w.secret - {"previous-password"}
                        else if restores then w.secret["password" := w.secret["previous-password"]]
                        else w.secret,
              jobGone := w.jobGone || (restores && p.stage == Stage.Restore(1)))
  {
    MarkerRoundTrip(p);
    NextIsValid(p, a.seen, a.now);
    DropKeptPatchEffect(w.secret);
    var d := Decide(p, a.seen, a.now);
    if d.Restore? {
      RestoreWrites(w, d.next, a.now, a.writes);
    }
  }

  /** At the last restore a pass that can write its marker stalls exactly on a failure it sees that is the restore's. */
  lemma StallsIff(w: World, p: Pending, a: Action)
    requires ValidPending(p) && p.stage == Stage.Restore(2) && w.marker == Some(MarkerText(p))
    requires a.BackstopPass? && Enabled(w, a) && a.writes >= 1
    ensures LeavesStage(Step(w, a), Stalled) <==> Sees(a.seen, "Failed", p.since)
  {
    MarkerRoundTrip(p);
    NextIsValid(p, a.seen, a.now);
    if Failed(p, a.seen) {
      FailureStalls(w, p, a);
    } else {
      NoFailureNoMove(w, p, a);
    }
  }

  lemma FailureStalls(w: World, p: Pending, a: Action)
    requires ValidPending(p) && p.stage == Stage.Restore(2) && w.marker == Some(MarkerText(p))
    requires a.BackstopPass? && Enabled(w, a) && a.writes >= 1 && Failed(p, a.seen)
    ensures LeavesStage(Step(w, a), Stalled)
  {
    StallIsMarked(w, p, a);
    MarkerRoundTrip(Pending(a.now, Stalled));
  }

  lemma StallIsMarked(w: World, p: Pending, a: Action)
    requires ValidPending(p) && p.stage == Stage.Restore(2) && w.marker == Some(MarkerText(p))
    requires a.BackstopPass? && Enabled(w, a) && a.writes >= 1 && Failed(p, a.seen)
    ensures ValidPending(Pending(a.now, Stalled)) && Step(w, a).marker == Some(MarkerText(Pending(a.now, Stalled)))
  {
    MarkerRoundTrip(p);
  }

  lemma NoFailureNoMove(w: World, p: Pending, a: Action)
    requires ValidPending(p) && w.marker == Some(MarkerText(p))
    requires a.BackstopPass? && Enabled(w, a) && !Failed(p, a.seen)
    ensures Step(w, a).marker.None? || Step(w, a).marker == Some(MarkerText(p))
  {
    MarkerRoundTrip(p);
  }

  // ── the retry ───────────────────────────────────────────────────────

  /** The delete lands and the marker write does not. */
  predicate LosesMarkerWrite(w: World, p: Pending, a: Action) {
    a.BackstopPass? && a.writes == 2 && a.deletable && Failed(p, a.seen)
  }

  /** It leaves the marker as it was, the password put back, and no Job. */
  lemma LostMarkerWrite(w: World, p: Pending, a: Action)
    requires AtFirstRestore(w, p) && Enabled(w, a) && LosesMarkerWrite(w, p, a)
    ensures var end := Step(w, a);
            && AtFirstRestore(end, p) && end.jobGone && end.runs == w.runs
            && Holds(end.secret, PASSWORD, w.secret[PREVIOUS_PASSWORD_KEY])
  {
    MarkerRoundTrip(p);
    NextIsValid(p, a.seen, a.now);
    RestorePatchEffect(w.secret, w.secret[PREVIOUS_PASSWORD_KEY], false);
    KeysDistinct();
  }

  /** Backstop passes only, each seeing what is listed. */
  predicate PromptPasses(w: World, acts: seq<Action>)
    requires IsRun(w, acts)
    decreases |acts|
  {
    acts != [] ==> acts[0].BackstopPass? && Prompt(w, acts[0]) && PromptPasses(Step(w, acts[0]), acts[1..])
  }

  /** No pass that can write comes at or past the end of the window. */
  predicate WithinWindow(acts: seq<Action>, since: int) {
    forall i | 0 <= i < |acts| :: acts[i].BackstopPass? ==> acts[i].now - since < WINDOW_SECS || acts[i].writes == 0
  }

  lemma UnseenPass(w: World, p: Pending, a: Action)
    requires AtFirstRestore(w, p) && a.BackstopPass? && a.seen.None? && Enabled(w, a)
    ensures if a.now - p.since < WINDOW_SECS then Step(w, a) == w else Step(w, a) == AfterForget(w, a.writes)
  {
    MarkerRoundTrip(p);
  }

  lemma {:induction false} UnmarkedStays(w: World, acts: seq<Action>)
    requires w.marker.None? && IsRun(w, acts) && PromptPasses(w, acts)
    ensures Run(w, acts) == w
    decreases |acts|
  {
    if acts != [] {
      UnmarkedStays(Step(w, acts[0]), acts[1..]);
    }
  }

  /**
   With the Job gone no pass retries any more, however many there are: the marker
   stays at the first restore exactly while no pass that can write reaches the end
   of its window, and then it goes.
   */
  lemma {:induction false} GoneJobIsNotRetried(w: World, p: Pending, acts: seq<Action>)
    requires AtFirstRestore(w, p) && w.jobGone
    requires IsRun(w, acts) && PromptPasses(w, acts)
    ensures var end := Run(w, acts);
            if WithinWindow(acts, p.since) then end == w else end.marker.None?
    decreases |acts|
  {
    if acts != [] {
      var a := acts[0];
      UnseenPass(w, p, a);
      assert forall i | 0 <= i < |acts[1..]| :: acts[1..][i] == acts[i + 1];
      var next := Step(w, a);
      if next.marker.None? {
        UnmarkedStays(next, acts[1..]);
      } else {
        GoneJobIsNotRetried(next, p, acts[1..]);
        assert WithinWindow(acts, p.since) <==> WithinWindow(acts[1..], p.since) by {
          assert forall i | 0 < i < |acts| :: acts[i] == acts[1..][i - 1];
        }
      }
    }
  }

  /**
   The retry still happens if the operator starts a Job on its own and that one
   fails too: then exactly when the new Job counts for the restore's marker.
   */
  lemma RetriedOnANewFailure(w: World, p: Pending, created: int, now: int)
    requires AtFirstRestore(w, p) && w.jobGone && PASSWORD in w.secret
    requires ClockTime(created) && ClockTime(now)
    ensures var failed := Step(Step(w, JobStarts(created)), JobEnds(false));
            var pass := BackstopPass(now, Listed(failed), 3, true);
            Enabled(failed, pass) && (MarkedRetry(Step(failed, pass)) <==> created + CLOCK_SKEW_SECS >= p.since)
  {
    var failed := Step(Step(w, JobStarts(created)), JobEnds(false));
    assert Listed(failed) == Some(UpdateRun(created, "Failed"));
    RetriesIff(failed, p, BackstopPass(now, Listed(failed), 3, true));
  }

  /**
   A failure midway is retried whole on the next read, says the restore. Of the
   retry that is so exactly when the deleted Job's pod is still listed: the same
   pass again, seeing it, rewrites the marker, and a prompt one changes nothing.
   */
  lemma NextReadRetriesIff(w: World, p: Pending, a: Action, again: Action)
    requires AtFirstRestore(w, p) && Enabled(w, a) && LosesMarkerWrite(w, p, a)
    requires again.BackstopPass? && again.seen in {a.seen, None} && again.writes >= 3 && again.deletable
    requires ClockTime(again.now) && again.now - p.since < WINDOW_SECS
    ensures var lost := Step(w, a);
            && Enabled(lost, again)
            && (MarkedRetry(Step(lost, again)) <==> again.seen.Some?)
            && (again.seen.None? ==> Step(lost, again) == lost)
  {
    LostMarkerWrite(w, p, a);
    RetriesIff(Step(w, a), p, again);
    if again.seen.None? {
      UnseenPass(Step(w, a), p, again);
    }
  }
}
