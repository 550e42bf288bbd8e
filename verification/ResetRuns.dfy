/**
 Whole runs of the backstop over one reset's marker: a poll is one pass of
 `reset_backstop_in` (src/k8s.rs), with whatever the API showed it. Job
 observations are arbitrary: any pod, at any phase, in any order.
 */
module ResetRuns {
  import opened Text
  import opened AdminReset

  /**
   One backstop pass. `completes` is false when an API call fails before the
   marker is rewritten; `kept` is whether the Secret still holds a previous
   password; `deletable` is whether the failed Job may be deleted.
   */
  datatype Poll = Poll(
    now: int,
    run: Option<UpdateRun>,
    completes: bool,
    kept: bool,
    deletable: bool)

  /** The marker a pass leaves behind. */
  function MarkerAfter(p: Pending, poll: Poll): Option<Pending> {
    if !poll.completes then Some(p)
    else
      match Decide(p, poll.run, poll.now)
      case Wait => Some(p)
      case Forget => None
      case Stall(next) => Some(next)
      case Restore(next) =>
        if !poll.kept then None
        else if next.stage.Restore? && next.stage.n > 1 && !poll.deletable then Some(Pending(poll.now, Stalled))
        else Some(next)
  }

  /**
   What a run of polls amounts to: the marker left, when it was forgotten, the
   stages entered and the run each of them was charged to.
   */
  datatype Watched = Watched(marker: Option<Pending>, forgottenAt: int, stages: seq<Stage>, charged: seq<UpdateRun>)

  function Watch(p: Pending, polls: seq<Poll>): Watched
    decreases |polls|
  {
    if polls == [] then Watched(Some(p), 0, [], [])
    else
      match MarkerAfter(p, polls[0])
      case None => Watched(None, polls[0].now, [], [])
      case Some(q) =>
        var rest := Watch(q, polls[1..]);
        if q == p || polls[0].run.None? then rest
        else rest.(stages := [q.stage] + rest.stages, charged := [polls[0].run.value] + rest.charged)
  }

  // ── bounded retries ─────────────────────────────────────────────────

  /** The stages a reset can still enter, in order, while the failed Job can be deleted. */
  function Ladder(stage: Stage): seq<Stage> {
    match stage
    case Reset => [Stage.Restore(1), Stage.Restore(2), Stalled]
    case Restore(n) => if n == 1 then [Stage.Restore(2), Stalled] else [Stalled]
    case Stalled => []
  }

  /** The same, when the retry's delete is refused: the second failure stalls. */
  function ShortLadder(stage: Stage): seq<Stage> {
    match stage
    case Reset => [Stage.Restore(1), Stalled]
    case Restore(_) => [Stalled]
    case Stalled => []
  }

  /** A completed pass was to retry the restore, had the kept password, and was refused the delete of the failed Job. */
  predicate RetryRefused(p: Pending, polls: seq<Poll>)
    decreases |polls|
  {
    polls != [] &&
    (|| RefusedAt(p, polls[0])
     || (MarkerAfter(p, polls[0]).Some? && RetryRefused(MarkerAfter(p, polls[0]).value, polls[1..])))
  }

  predicate RefusedAt(p: Pending, poll: Poll) {
    && poll.completes && poll.kept && !poll.deletable
    && p.stage == Stage.Restore(1) && Decide(p, poll.run, poll.now).Restore?
  }

  /** The stages of a marker this code wrote. */
  predicate Written(stage: Stage) {
    stage.Restore? ==> 1 <= stage.n <= MAX_RESTORES
  }

  lemma ShortIsNoPrefix(stage: Stage)
    ensures stage == Reset || stage == Stage.Restore(1) ==> !(ShortLadder(stage) <= Ladder(stage))
  {
    assert Ladder(Stage.Restore(1))[0] != ShortLadder(Stage.Restore(1))[0];
    assert Ladder(Reset)[1] != ShortLadder(Reset)[1];
  }

  /** The stages climb the ladder; the short one is climbed, whole, exactly when the retry was refused. */
  lemma {:induction false} StagesClimb(p: Pending, polls: seq<Poll>)
    requires Written(p.stage)
    ensures var w := Watch(p, polls);
            if RetryRefused(p, polls) then w.stages == ShortLadder(p.stage) else w.stages <= Ladder(p.stage)
    ensures p.stage == Reset || p.stage == Stage.Restore(1) ==>
              (Watch(p, polls).stages == ShortLadder(p.stage) <==> RetryRefused(p, polls))
    decreases |polls|
  {
    ShortIsNoPrefix(p.stage);
    if polls != [] {
      match MarkerAfter(p, polls[0])
      case None =>
      case Some(q) =>
        StagesClimb(q, polls[1..]);
        if q.stage.Stalled? {
          StalledIsFinal(q, polls[1..]);
        }
        if q.stage != Reset && q.stage != Stage.Restore(1) {
          NoRetryLeft(q, polls[1..]);
        }
    }
  }

  lemma {:induction false} NoRetryLeft(p: Pending, polls: seq<Poll>)
    requires Written(p.stage) && p.stage != Reset && p.stage != Stage.Restore(1)
    ensures !RetryRefused(p, polls)
    decreases |polls|
  {
    if polls != [] && MarkerAfter(p, polls[0]).Some? {
      NoRetryLeft(MarkerAfter(p, polls[0]).value, polls[1..]);
    }
  }

  /** No failed Job is charged twice: each charge is a failure created strictly after the one before. */
  predicate FreshFailures(runs: seq<UpdateRun>) {
    && (forall i | 0 <= i < |runs| :: runs[i].phase == "Failed")
    && (forall i, j | 0 <= i < j < |runs| :: runs[i].created < runs[j].created)
  }

  lemma {:induction false} ChargesAreFresh(p: Pending, polls: seq<Poll>)
    ensures var w := Watch(p, polls);
            && |w.charged| == |w.stages|
            && FreshFailures(w.charged)
            && (w.charged != [] ==> w.charged[0].created + CLOCK_SKEW_SECS >= p.since)
    decreases |polls|
  {
    if polls != [] {
      match MarkerAfter(p, polls[0])
      case None =>
      case Some(q) =>
        ChargesAreFresh(q, polls[1..]);
        if q.stage.Stalled? {
          StalledIsFinal(q, polls[1..]);
        }
    }
  }

  lemma {:induction false} StalledIsFinal(p: Pending, polls: seq<Poll>)
    requires p.stage.Stalled?
    ensures Watch(p, polls).stages == [] && Watch(p, polls).charged == []
  {
    if polls != [] && MarkerAfter(p, polls[0]).Some? {
      StalledIsFinal(p, polls[1..]);
    }
  }

  /**
   A reset's marker over any run: its stages climb Restore(1), Restore(2),
   Stalled, each charged to a failed Job younger than the one charged before. A
   stall costs two failed Jobs exactly when deleting the failed Job for the retry
   was refused, and three otherwise.
   */
  lemma BoundedRetries(since: int, polls: seq<Poll>)
    ensures var p := Pending(since, Reset);
            var w := Watch(p, polls);
            && (w.stages == [Stage.Restore(1), Stalled] <==> RetryRefused(p, polls))
            && (!RetryRefused(p, polls) ==> w.stages <= [Stage.Restore(1), Stage.Restore(2), Stalled])
            && FreshFailures(w.charged)
            && |w.charged| == |w.stages|
            && (Stalled in w.stages ==> |w.charged| == if RetryRefused(p, polls) then 2 else 3)
  {
    StagesClimb(Pending(since, Reset), polls);
    ChargesAreFresh(Pending(since, Reset), polls);
  }

  /** It happens: the reset's Job fails, the restore's Job fails, and the refused delete stalls the reset. */
  lemma TwoJobsStall(since: int)
    requires since > 0
    ensures var one, two := UpdateRun(since + 10, "Failed"), UpdateRun(since + 100, "Failed");
            var polls := [
              Poll(since + 20, Some(one), true, true, true),
              Poll(since + 110, Some(two), true, true, false)];
            var w := Watch(Pending(since, Reset), polls);
            && RetryRefused(Pending(since, Reset), polls)
            && w.stages == [Stage.Restore(1), Stalled] && w.charged == [one, two]
  {
    var one, two := UpdateRun(since + 10, "Failed"), UpdateRun(since + 100, "Failed");
    var first := Poll(since + 20, Some(one), true, true, true);
    var second := Poll(since + 110, Some(two), true, true, false);
    var restored := Pending(since + 41, Stage.Restore(1));
    var stalled := Pending(since + 110, Stalled);
    assert MarkerAfter(Pending(since, Reset), first) == Some(restored);
    assert MarkerAfter(restored, second) == Some(stalled) && RefusedAt(restored, second);
    assert [first, second][1..] == [second] && [second][1..] == [];
    assert Watch(stalled, []) == Watched(Some(stalled), 0, [], []);
    assert Watch(restored, [second]).stages == [Stalled];
  }

  /** The pass lands whole, with the kept password there and the delete allowed, and sees a failure of this nudge. */
  predicate SeesFailure(poll: Poll, since: int) {
    && poll.completes && poll.kept && poll.deletable
    && poll.run.Some? && poll.run.value.phase == "Failed" && poll.run.value.created + 30 >= since
  }

  /** The nudge a restore is dated to: now, but out of the failed Job's reach. */
  function NextNudge(poll: Poll): int
    requires poll.run.Some?
  {
    if poll.now > poll.run.value.created + 31 then poll.now else poll.run.value.created + 31
  }

  /** The pass does not land, or sees inside the window no verdict of this nudge's Job. */
  predicate SeesNothing(poll: Poll, since: int) {
    !poll.completes ||
    (poll.now - since < 3600 &&
     !(poll.run.Some? && poll.run.value.phase in {"Succeeded", "Failed"} && poll.run.value.created + 30 >= since))
  }

  /** The failures the passes see, each of the nudge the one before it led to. */
  function FailuresSeen(since: int, polls: seq<Poll>): seq<UpdateRun>
    decreases |polls|
  {
    if polls == [] then []
    else if SeesFailure(polls[0], since) then [polls[0].run.value] + FailuresSeen(NextNudge(polls[0]), polls[1..])
    else FailuresSeen(since, polls[1..])
  }

  /** Until `left` failures were seen, every pass sees one or nothing. */
  predicate OnlyFailures(since: int, left: nat, polls: seq<Poll>)
    decreases |polls|
  {
    polls != [] && left > 0 ==>
      if SeesFailure(polls[0], since) then OnlyFailures(NextNudge(polls[0]), left - 1, polls[1..])
      else SeesNothing(polls[0], since) && OnlyFailures(since, left, polls[1..])
  }

  /**
   With every delete allowed and nothing seen but failures, each failure takes the
   next rung, whatever passes come in between: the stages are as much of the ladder
   as there are failures, and those are what they are charged to.
   */
  lemma {:induction false} LadderIsClimbed(p: Pending, polls: seq<Poll>)
    requires Written(p.stage) && OnlyFailures(p.since, |Ladder(p.stage)|, polls)
    ensures var w, seen := Watch(p, polls), FailuresSeen(p.since, polls);
            var k := if |seen| < |Ladder(p.stage)| then |seen| else |Ladder(p.stage)|;
            w.stages == Ladder(p.stage)[..k] && w.charged == seen[..k]
    decreases |polls|
  {
    if p.stage.Stalled? {
      StalledIsFinal(p, polls);
    } else if polls != [] {
      if SeesFailure(polls[0], p.since) {
        var q := FailureClimbs(p, polls[0]);
        if q.stage.Stalled? {
          StalledIsFinal(q, polls[1..]);
        } else {
          LadderIsClimbed(q, polls[1..]);
        }
      } else {
        LadderIsClimbed(p, polls[1..]);
      }
    }
  }

  lemma FailureClimbs(p: Pending, poll: Poll) returns (q: Pending)
    requires Written(p.stage) && !p.stage.Stalled? && SeesFailure(poll, p.since)
    ensures MarkerAfter(p, poll) == Some(q) && q != p && Written(q.stage)
    ensures Ladder(p.stage) == [q.stage] + Ladder(q.stage)
    ensures !q.stage.Stalled? ==> q.since == NextNudge(poll)
  {
    q := MarkerAfter(p, poll).value;
  }

  /** So from a reset three failures climb the whole ladder, to the stall. */
  lemma WholeLadder(since: int, polls: seq<Poll>)
    requires OnlyFailures(since, 3, polls) && |FailuresSeen(since, polls)| >= 3
    ensures var w := Watch(Pending(since, Reset), polls);
            && w.stages == [Stage.Restore(1), Stage.Restore(2), Stalled]
            && w.charged == FailuresSeen(since, polls)[..3]
  {
    LadderIsClimbed(Pending(since, Reset), polls);
  }

  // ── the time bound ──────────────────────────────────────────────────

  /** Completed passes come at most `d` apart, and no Job is stamped further ahead than the tolerated skew. */
  predicate Spaced(polls: seq<Poll>, last: int, d: nat) {
    polls != [] ==>
      var poll := polls[0];
      if !poll.completes then Spaced(polls[1..], last, d)
      else
        && last <= poll.now <= last + d
        && (poll.run.Some? ==> poll.run.value.created <= poll.now + CLOCK_SKEW_SECS)
        && Spaced(polls[1..], poll.now, d)
  }

  function LastPoll(polls: seq<Poll>, last: int): int {
    if polls == [] then last
    else LastPoll(polls[1..], if polls[0].completes then polls[0].now else last)
  }

  /** Seconds a marker at `stage` may still live, counted from its own nudge. */
  function Budget(stage: Stage, d: nat): int {
    match stage
    case Reset => 4 * (WINDOW_SECS + d) + 2 * (2 * CLOCK_SKEW_SECS + 1)
    case Restore(n) =>
      if n < MAX_RESTORES then 3 * (WINDOW_SECS + d) + (2 * CLOCK_SKEW_SECS + 1) else 2 * (WINDOW_SECS + d)
    case Stalled => WINDOW_SECS + d
  }

  lemma {:induction false} LivesWithinBudget(p: Pending, polls: seq<Poll>, last: int, d: nat)
    requires Written(p.stage)
    requires last < p.since + WINDOW_SECS
    requires Spaced(polls, last, d)
    ensures var w := Watch(p, polls);
            var live := if w.marker.Some? then LastPoll(polls, last) else w.forgottenAt;
            live < p.since + Budget(p.stage, d)
    decreases |polls|
  {
    if polls != [] {
      var poll := polls[0];
      match MarkerAfter(p, poll)
      case None =>
      case Some(q) =>
        if poll.completes {
          assert q.since + Budget(q.stage, d) <= p.since + Budget(p.stage, d);
          LivesWithinBudget(q, polls[1..], poll.now, d);
        } else {
          LivesWithinBudget(q, polls[1..], last, d);
        }
    }
  }

  /**
   A reset's marker written at `t` is gone before
   t + 4 * (WINDOW_SECS + d) + MAX_RESTORES * (2 * CLOCK_SKEW_SECS + 1), whatever
   the Jobs do: once the polls reach that time, the marker has been forgotten, and
   it was forgotten earlier.
   */
  lemma ForgottenInTime(t: int, polls: seq<Poll>, d: nat)
    requires Spaced(polls, t, d)
    ensures var w := Watch(Pending(t, Reset), polls);
            var bound := t + 4 * (WINDOW_SECS + d) + MAX_RESTORES * (2 * CLOCK_SKEW_SECS + 1);
            && (LastPoll(polls, t) >= bound ==> w.marker.None?)
            && (w.marker.None? ==> w.forgottenAt < bound)
  {
    LivesWithinBudget(Pending(t, Reset), polls, t, d);
  }
}
