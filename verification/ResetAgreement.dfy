/**
 Is the password a reset can go back to the one OpenSearch takes (src/admin_reset.rs,
 src/k8s.rs)? The Secret keeps the password it held, so that is so exactly when the
 two agreed as the reset began. Here are the runs that keep them in agreement, and
 the ones that do not although no two writers overlap.
 */
module ResetAgreement {
  import opened Text
  import opened AdminReset
  import opened SecretPatch
  import opened ResetProtocol
  import opened ResetVerdicts

  /** OpenSearch takes the Secret's password, and a Job under way changes nothing about it. */
  predicate Agrees(w: World) {
    && Holds(w.secret, PASSWORD, w.accepted)
    && (w.runs != [] && Unfinished(Last(w.runs)) ==> Last(w.runs).applies == w.accepted)
  }

  /**
   From an applied reset until its marker goes, the Secret keeps the password that
   OpenSearch took when the reset began exactly when that was the Secret's password:
   whether the login in the Secret works is what a caller can ask before the reset.
   */
  lemma KeptIsAcceptedIff(w: World, reset: Action, acts: seq<Action>)
    requires reset.RequestReset? && Enabled(w, reset)
    requires ResetBegins(w, reset.settled) && reset.fate.started && reset.fate.landed && reset.fate.told
    requires IsRun(Step(w, reset), acts) && MarkerStands(Step(w, reset), acts)
    ensures var end := Run(Step(w, reset), acts);
            && end.wasAccepted == w.accepted
            && (Holds(end.secret, PREVIOUS_PASSWORD_KEY, w.accepted) <==> Holds(w.secret, PASSWORD, w.accepted))
  {
    KeptUntilForgotten(w, reset, acts);
    BeforeStands(Step(w, reset), acts);
  }

  // ── runs that stay in agreement ─────────────────────────────────────

  /** A request that rewrote the Secret, could neither nudge nor roll back, and left no marker. */
  predicate UnmarkedPartial(w: World, a: Action) {
    && a.RequestReset? && ResetBegins(w, a.settled)
    && a.fate.started && !a.fate.landed && !a.fate.rolledBack
  }

  predicate SawSuccess(w: World, a: Action) {
    && a.BackstopPass? && w.marker.Some? && ParsePending(w.marker.value).Some?
    && Succeeded(ParsePending(w.marker.value).value, a.seen)
  }

  /** The pass drops the marker for any other reason than a success it saw. */
  predicate ForgetsBlind(w: World, a: Action)
    requires Enabled(w, a)
  {
    a.BackstopPass? && w.marker.Some? && Step(w, a).marker.None? && !SawSuccess(w, a)
  }

  /**
   Forgetting loses nothing: the Secret's login works, and either the Secret keeps no
   other password or a Job of this reset has started.
   */
  predicate Harmless(w: World) {
    Holds(w.secret, PASSWORD, w.accepted) && (NothingElseKept(w.secret) || |w.runs| > w.resetRuns)
  }

  /** Quiet starts, honest passes, no unmarked partial request, and no reset forgotten blind but harmlessly. */
  predicate Orderly(w: World, acts: seq<Action>)
    requires IsRun(w, acts)
    decreases |acts|
  {
    acts != [] ==>
      && Honest(w, acts[0]) && QuietStart(w, acts[0])
      && !UnmarkedPartial(w, acts[0]) && (ForgetsBlind(w, acts[0]) ==> Harmless(w))
      && Orderly(Step(w, acts[0]), acts[1..])
  }

  predicate Sound(w: World) {
    && Attributed(w)
    && (w.marker.None? ==> Agrees(w))
    && (w.marker.Some? ==> w.before == w.wasAccepted)
    && (w.marker.Some? && 0 < |w.runs| <= w.resetRuns && Unfinished(Last(w.runs)) ==>
          Last(w.runs).applies == w.wasAccepted)
  }

  lemma RequestKeepsSound(w: World, a: Action)
    requires a.RequestReset? && Enabled(w, a) && Sound(w) && QuietStart(w, a) && !UnmarkedPartial(w, a)
    ensures Sound(Step(w, a))
  {
    ResetKeepsAttributed(w, a);
    if w.marker.Some? {
      MarkerGuardsTheWayBack(w, a);
    } else if ResetBegins(w, a.settled) && a.fate.started {
      var previous := w.secret[PASSWORD];
      StartPatchEffect(w.secret, ADMIN_USER, a.newPassword, previous);
      RestorePatchEffect(Patched(w.secret, StartPatch(ADMIN_USER, a.newPassword, previous)), previous, true);
    }
  }

  /** A success the pass saw is the newest Job's, a Job of this reset, and it pushed the Secret's password. */
  lemma SuccessAgrees(w: World, a: Action)
    requires a.BackstopPass? && Attributed(w) && Honest(w, a) && SawSuccess(w, a)
    ensures Agrees(w)
  {
  }

  lemma ForgetKeepsAgreement(w: World, writes: nat)
    requires Agrees(w)
    ensures Agrees(AfterForget(w, writes))
  {
    DropKeptPatchEffect(w.secret);
    KeysDistinct();
  }

  /** So does a world that a reset can be forgotten in without harm. */
  lemma HarmlessAgrees(w: World)
    requires Sound(w) && w.marker.Some? && Harmless(w)
    ensures Agrees(w)
  {
    GoesBackToBefore(w, false);
  }

  /** However a marker goes, it goes by a forget. */
  lemma DropIsAForget(w: World, a: Action)
    requires a.BackstopPass? && Enabled(w, a) && w.marker.Some? && Step(w, a).marker.None?
    ensures Step(w, a) == AfterForget(w, a.writes)
  {
  }

  lemma PassKeepsSound(w: World, a: Action)
    requires a.BackstopPass? && Enabled(w, a) && Sound(w) && Honest(w, a)
    requires ForgetsBlind(w, a) ==> Harmless(w)
    ensures Sound(Step(w, a))
  {
    PassKeepsAttributed(w, a);
    PassKeepsHistory(w, a);
    if w.marker.Some? {
      MarkerGuardsTheWayBack(w, a);
      if Step(w, a).marker.None? {
        DropIsAForget(w, a);
        if SawSuccess(w, a) {
          SuccessAgrees(w, a);
        } else {
          HarmlessAgrees(w);
        }
        ForgetKeepsAgreement(w, a.writes);
      }
    }
  }

  lemma JobsKeepSound(w: World, a: Action)
    requires (a.JobStarts? || a.JobEnds?) && Enabled(w, a) && Sound(w)
    ensures Sound(Step(w, a))
  {
    JobsKeepAttributed(w, a);
  }

  lemma {:induction false} OrderlyKeepsSound(w: World, acts: seq<Action>)
    requires IsRun(w, acts) && Orderly(w, acts) && Sound(w)
    ensures Sound(Run(w, acts))
    decreases |acts|
  {
    if acts != [] {
      var a := acts[0];
      match a {
        case RequestReset(_, _, _, _) => RequestKeepsSound(w, a);
        case BackstopPass(_, _, _, _) => PassKeepsSound(w, a);
        case JobStarts(_) => JobsKeepSound(w, a);
        case JobEnds(_) => JobsKeepSound(w, a);
      }
      OrderlyKeepsSound(Step(w, a), acts[1..]);
    }
  }

  /**
   Over every orderly run from a Secret that works, with no Job yet and no marker, past
   any number of resets, restores, stalls and windows that run out:
   where there is a marker, the password the backstop would go back to is the one
   OpenSearch took when the unconfirmed reset began; where there is none, OpenSearch
   takes the Secret's.
   */
  lemma WayBackIsAccepted(w: World, acts: seq<Action>)
    requires w.marker.None? && w.runs == [] && w.resetRuns == 0 && Holds(w.secret, PASSWORD, w.accepted)
    requires IsRun(w, acts) && Orderly(w, acts)
    ensures var end := Run(w, acts);
            if end.marker.Some? then GoesBackTo(end.secret) == Some(end.wasAccepted)
            else Holds(end.secret, PASSWORD, end.accepted)
  {
    OrderlyKeepsSound(w, acts);
    if Run(w, acts).marker.Some? {
      GoesBackToBefore(Run(w, acts), false);
    }
  }

  // ── runs that do not ────────────────────────────────────────────────

  /** Neither key of the Secret holds what OpenSearch takes. */
  predicate AcceptedIsLost(w: World) {
    !StillHeld(w.secret, w.accepted)
  }

  const APPLIED := ResetFate(true, true, true, false)
  const PARTIAL := ResetFate(true, false, false, false)
  const NOT_APPLIED := ResetFate(true, false, false, true)

  lemma FatesAreReported()
    ensures Report(APPLIED.landed && APPLIED.told, Some(APPLIED.rolledBack)) == Applied
    ensures Report(PARTIAL.landed && PARTIAL.told, Some(PARTIAL.rolledBack)) == Partial
    ensures Report(NOT_APPLIED.landed && NOT_APPLIED.told, Some(NOT_APPLIED.rolledBack)) == NotApplied
  {
  }

  /**
   A request answered Partial leaves no marker, so the gate lets the next one in. What
   OpenSearch takes survives that one exactly when it is what the Secret holds by
   then, or is asked for again by a request whose password stays.
   */
  lemma SecondRequestOverwrites(w: World, one: string, two: string, now: int, later: int, fate: ResetFate)
    requires ResetBegins(w, true) && Holds(w.secret, PASSWORD, w.accepted) && one != ""
    requires ClockTime(now) && ClockTime(later) && fate.started
    ensures var between := Step(w, RequestReset(true, one, now, PARTIAL));
            var end := Step(between, RequestReset(true, two, later, fate));
            && between.marker.None? && Holds(between.secret, PREVIOUS_PASSWORD_KEY, w.accepted)
            && end.accepted == w.accepted
            && (AcceptedIsLost(end) <==> w.accepted != one && !(LeavesNewPassword(fate) && w.accepted == two))
  {
    var between := Step(w, RequestReset(true, one, now, PARTIAL));
    StartPatchEffect(w.secret, ADMIN_USER, one, w.accepted);
    KeysDistinct();
    assert ResetBegins(between, true);
    LateWrites(between, two, later, fate);
  }

  /** Partial, then Applied: a marked reset with every invariant of the marker, and nothing to go back to that works. */
  lemma PartialThenApplied(w: World, one: string, two: string, now: int, later: int)
    requires ResetBegins(w, true) && Holds(w.secret, PASSWORD, w.accepted) && one != ""
    requires w.accepted != one && w.accepted != two && ClockTime(now) && ClockTime(later)
    ensures var between := Step(w, RequestReset(true, one, now, PARTIAL));
            var end := Step(between, RequestReset(true, two, later, APPLIED));
            end.marker.Some? && Recoverable(end, true) && AcceptedIsLost(end)
  {
    var between := Step(w, RequestReset(true, one, now, PARTIAL));
    SecondRequestOverwrites(w, one, two, now, later, APPLIED);
    ResetKeepsRecoverable(between, RequestReset(true, two, later, APPLIED), true);
    StartPatchEffect(w.secret, ADMIN_USER, one, w.accepted);
    KeysDistinct();
  }

  /** Partial, then a request answered NotApplied: the kept password is gone, with no marker at any time. */
  lemma PartialThenNotApplied(w: World, one: string, two: string, now: int, later: int)
    requires ResetBegins(w, true) && Holds(w.secret, PASSWORD, w.accepted) && one != ""
    requires w.accepted != one && ClockTime(now) && ClockTime(later)
    ensures var between := Step(w, RequestReset(true, one, now, PARTIAL));
            var end := Step(between, RequestReset(true, two, later, NOT_APPLIED));
            between.marker.None? && end.marker.None? && AcceptedIsLost(end)
  {
    var between := Step(w, RequestReset(true, one, now, PARTIAL));
    SecondRequestOverwrites(w, one, two, now, later, NOT_APPLIED);
  }

  /**
   A reset forgotten blind. What OpenSearch takes is lost exactly when the login in
   the Secret does not work; while OpenSearch has not moved since the reset began,
   that is exactly when the Secret keeps another password than the one it holds.
   */
  lemma BlindForgetLosesIff(w: World, a: Action)
    requires Enabled(w, a) && Sound(w) && ForgetsBlind(w, a) && a.writes >= 2
    ensures AcceptedIsLost(Step(w, a)) <==> !Holds(w.secret, PASSWORD, w.accepted)
    ensures w.accepted == w.wasAccepted ==> (AcceptedIsLost(Step(w, a)) <==> !NothingElseKept(w.secret))
  {
    DropIsAForget(w, a);
    DropKeptPatchEffect(w.secret);
    KeysDistinct();
    GoesBackToBefore(w, false);
  }

  /** While OpenSearch has not moved, whether forgetting is harmless can be read off the Secret. */
  lemma HarmlessIff(w: World)
    requires Sound(w) && w.marker.Some? && w.accepted == w.wasAccepted
    ensures Harmless(w) <==> NothingElseKept(w.secret)
  {
    GoesBackToBefore(w, false);
  }

  /** From the first restore on, and while OpenSearch has not moved, a blind forget leaves a login that works. */
  lemma RestoredForgetIsHarmless(w: World, a: Action)
    requires Enabled(w, a) && Sound(w) && ForgetsBlind(w, a) && w.accepted == w.wasAccepted
    requires ParsePending(w.marker.value) != None && !ParsePending(w.marker.value).value.stage.Reset?
    ensures Harmless(w)
    ensures Holds(Step(w, a).secret, PASSWORD, Step(w, a).accepted)
  {
    GoesBackToBefore(w, false);
    DropIsAForget(w, a);
    DropKeptPatchEffect(w.secret);
    KeysDistinct();
  }

  /** It happens at the first stage: a reset whose Job never ran is forgotten with the password that still works. */
  lemma ExpiryLosesTheAccepted(w: World, one: string, now: int, later: int)
    requires ResetBegins(w, true) && Holds(w.secret, PASSWORD, w.accepted) && w.accepted != one
    requires ClockTime(now) && ClockTime(later) && now + WINDOW_SECS <= later
    ensures var marked := Step(w, RequestReset(true, one, now, APPLIED));
            var end := Step(marked, BackstopPass(later, None, 2, true));
            end.marker.None? && AcceptedIsLost(end)
  {
    var marked := Step(w, RequestReset(true, one, now, APPLIED));
    StartPatchEffect(w.secret, ADMIN_USER, one, w.accepted);
    KeysDistinct();
    ExpiredPass(marked, Pending(now, Reset), later);
  }

  lemma ExpiredPass(w: World, p: Pending, later: int)
    requires ValidPending(p) && w.marker == Some(MarkerText(p))
    requires ClockTime(later) && p.since + WINDOW_SECS <= later
    ensures Step(w, BackstopPass(later, None, 2, true))
         == w.(marker := None, secret := w.secret - {PREVIOUS_PASSWORD_KEY})
  {
    MarkerRoundTrip(p);
    DropKeptPatchEffect(w.secret);
  }
}
