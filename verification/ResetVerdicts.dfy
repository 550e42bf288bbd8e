/**
 What a success verdict is worth (src/admin_reset.rs, src/k8s.rs): when the
 backstop forgets a reset because it saw a Job succeed, does OpenSearch take the
 password the Secret holds? It does, in every run whose resets start quietly. A Job
 from before the reset that is no older than the clock skew, and that has succeeded
 or still does, is enough to make it untrue.
 */
module ResetVerdicts {
  import opened Text
  import opened AdminReset
  import opened ResetRuns
  import opened SecretPatch
  import opened ResetProtocol

  function Newest(runs: seq<JobRun>): Option<UpdateRun> {
    if runs == [] then None else Some(UpdateRun(Last(runs).created, Last(runs).phase))
  }

  /** A pass sees the newest run, or nothing while its pod is not listed. */
  predicate Honest(w: World, a: Action) {
    a.BackstopPass? ==> a.seen.None? || a.seen == Newest(w.runs)
  }

  /** The newest run is older than the clock skew when a reset is stamped. */
  predicate QuietAt(runs: seq<JobRun>, now: int) {
    runs != [] ==> Last(runs).created + CLOCK_SKEW_SECS < now
  }

  predicate QuietStart(w: World, a: Action) {
    a.RequestReset? ==> QuietAt(w.runs, a.now)
  }

  predicate QuietRun(w: World, acts: seq<Action>)
    requires IsRun(w, acts)
    decreases |acts|
  {
    acts != [] ==>
      Honest(w, acts[0]) && QuietStart(w, acts[0]) && QuietRun(Step(w, acts[0]), acts[1..])
  }

  /** A succeeded run is what OpenSearch takes; a run of this reset that did not fail applies the Secret's password. */
  predicate Tracked(w: World) {
    && Recoverable(w, false)
    && w.resetRuns <= |w.runs|
    && (w.runs != [] && Last(w.runs).phase == "Succeeded" ==> w.accepted == Last(w.runs).applies)
    && (|w.runs| > w.resetRuns && Last(w.runs).phase != "Failed" ==> Holds(w.secret, PASSWORD, Last(w.runs).applies))
  }

  /** And an older run cannot pass for one of this reset. */
  predicate Attributed(w: World) {
    && Tracked(w)
    && (w.marker.Some? && 0 < |w.runs| <= w.resetRuns ==>
          Last(w.runs).created + CLOCK_SKEW_SECS < ParsePending(w.marker.value).value.since)
  }

  lemma ResetKeepsTracked(w: World, a: Action)
    requires a.RequestReset? && Enabled(w, a) && Tracked(w)
    ensures Tracked(Step(w, a))
  {
    ResetKeepsRecoverable(w, a, false);
  }

  /** A failure an honest pass sees is the newest run's, so a restore leaves no run to speak for. */
  lemma PassKeepsTracked(w: World, a: Action)
    requires a.BackstopPass? && Enabled(w, a) && Tracked(w) && Honest(w, a)
    ensures Tracked(Step(w, a))
  {
    PassKeepsRecoverable(w, a, false);
    PassKeepsHistory(w, a);
    if w.marker.Some? && !Failed(ParsePending(w.marker.value).value, a.seen) {
      ForgetKeepsTracked(w, a.writes);
    }
  }

  lemma ForgetKeepsTracked(w: World, writes: nat)
    requires Tracked(w)
    ensures Tracked(AfterForget(w, writes))
  {
    DropKeptPatchEffect(w.secret);
    KeysDistinct();
  }

  lemma JobsKeepTracked(w: World, a: Action)
    requires (a.JobStarts? || a.JobEnds?) && Enabled(w, a) && Tracked(w)
    ensures Tracked(Step(w, a))
  {
  }

  /** Every pass of the run sees the newest run or none. */
  predicate HonestRun(w: World, acts: seq<Action>)
    requires IsRun(w, acts)
    decreases |acts|
  {
    acts != [] ==> Honest(w, acts[0]) && HonestRun(Step(w, acts[0]), acts[1..])
  }

  lemma {:induction false} RunKeepsTracked(w: World, acts: seq<Action>)
    requires IsRun(w, acts) && HonestRun(w, acts) && Tracked(w)
    ensures Tracked(Run(w, acts))
    decreases |acts|
  {
    if acts != [] {
      var a := acts[0];
      match a {
        case RequestReset(_, _, _, _) => ResetKeepsTracked(w, a);
        case BackstopPass(_, _, _, _) => PassKeepsTracked(w, a);
        case JobStarts(_) => JobsKeepTracked(w, a);
        case JobEnds(_) => JobsKeepTracked(w, a);
      }
      RunKeepsTracked(Step(w, a), acts[1..]);
    }
  }

  lemma ResetKeepsAttributed(w: World, a: Action)
    requires a.RequestReset? && Enabled(w, a) && Attributed(w) && QuietStart(w, a)
    ensures Attributed(Step(w, a))
  {
    ResetKeepsTracked(w, a);
    MarkerRoundTrip(Pending(a.now, Reset));
  }

  /** A failure charged to a reset is the newest run, and a run of that reset. */
  lemma FailureIsOurs(w: World, a: Action)
    requires a.BackstopPass? && Attributed(w) && Honest(w, a) && w.marker.Some?
    requires Failed(ParsePending(w.marker.value).value, a.seen)
    ensures |w.runs| > w.resetRuns && Last(w.runs).phase == "Failed"
  {
  }

  lemma PassKeepsHistory(w: World, a: Action)
    requires a.BackstopPass? && Enabled(w, a)
    ensures var end := Step(w, a);
            end.runs == w.runs && end.accepted == w.accepted && end.resetRuns == w.resetRuns
  {
  }

  lemma ForgetKeepsAttributed(w: World, writes: nat)
    requires Attributed(w)
    ensures Attributed(AfterForget(w, writes))
  {
    ForgetKeepsTracked(w, writes);
  }

  lemma PassKeepsAttributed(w: World, a: Action)
    requires a.BackstopPass? && Enabled(w, a) && Attributed(w) && Honest(w, a)
    ensures Attributed(Step(w, a))
  {
    PassKeepsTracked(w, a);
    PassKeepsHistory(w, a);
    if w.marker.Some? {
      var p := ParsePending(w.marker.value).value;
      if Failed(p, a.seen) {
        FailureIsOurs(w, a);
      } else {
        ForgetKeepsAttributed(w, a.writes);
      }
    }
  }

  lemma JobsKeepAttributed(w: World, a: Action)
    requires (a.JobStarts? || a.JobEnds?) && Enabled(w, a) && Attributed(w)
    ensures Attributed(Step(w, a))
  {
  }

  lemma {:induction false} RunKeepsAttributed(w: World, acts: seq<Action>)
    requires IsRun(w, acts) && QuietRun(w, acts) && Attributed(w)
    ensures Attributed(Run(w, acts))
    decreases |acts|
  {
    if acts != [] {
      var a := acts[0];
      match a {
        case RequestReset(_, _, _, _) => ResetKeepsAttributed(w, a);
        case BackstopPass(_, _, _, _) => PassKeepsAttributed(w, a);
        case JobStarts(_) => JobsKeepAttributed(w, a);
        case JobEnds(_) => JobsKeepAttributed(w, a);
      }
      RunKeepsAttributed(Step(w, a), acts[1..]);
    }
  }

  /**
   Over every quiet run from a world with no marker and no Job yet: a pass that
   sees a success leaves OpenSearch and the Secret agreeing on the password.
   */
  lemma SuccessMeansAgreement(w: World, acts: seq<Action>, pass: Action)
    requires w.marker.None? && w.runs == [] && w.resetRuns == 0
    requires IsRun(w, acts) && QuietRun(w, acts)
    requires pass.BackstopPass? && Enabled(Run(w, acts), pass) && Honest(Run(w, acts), pass)
    requires var end := Run(w, acts);
             && end.marker.Some? && ParsePending(end.marker.value).Some?
             && Succeeded(ParsePending(end.marker.value).value, pass.seen)
    ensures var after := Step(Run(w, acts), pass);
            Holds(after.secret, PASSWORD, after.accepted)
  {
    RunKeepsAttributed(w, acts);
    SuccessLeaves(Run(w, acts), pass);
  }

  /**
   Over every run of honest passes, quiet or not: a pass that sees a success leaves
   OpenSearch and the Secret agreeing exactly when the newest Job started after the
   reset, or pushed the Secret's password all the same.
   */
  lemma SuccessMeansAgreementIff(w: World, acts: seq<Action>, pass: Action)
    requires w.marker.None? && w.runs == [] && w.resetRuns == 0
    requires IsRun(w, acts) && HonestRun(w, acts)
    requires pass.BackstopPass? && Enabled(Run(w, acts), pass) && Honest(Run(w, acts), pass)
    requires var end := Run(w, acts);
             && end.marker.Some? && ParsePending(end.marker.value).Some?
             && Succeeded(ParsePending(end.marker.value).value, pass.seen)
    ensures var end := Run(w, acts);
            var after := Step(end, pass);
            Holds(after.secret, PASSWORD, after.accepted) <==>
              |end.runs| > end.resetRuns || Holds(end.secret, PASSWORD, Last(end.runs).applies)
  {
    RunKeepsTracked(w, acts);
    SuccessLeaves(Run(w, acts), pass);
  }

  /** A pass that sees a success touches neither the Secret's password nor what OpenSearch takes. */
  lemma SuccessLeaves(w: World, pass: Action)
    requires pass.BackstopPass? && Enabled(w, pass) && w.marker.Some? && ParsePending(w.marker.value).Some?
    requires Succeeded(ParsePending(w.marker.value).value, pass.seen)
    ensures var after := Step(w, pass);
            && after.accepted == w.accepted
            && (Holds(after.secret, PASSWORD, w.accepted) <==> Holds(w.secret, PASSWORD, w.accepted))
  {
    DropKeptPatchEffect(w.secret);
    KeysDistinct();
  }

  /**
   The quiet start cannot be dropped. Right after an applied reset, before the
   operator starts its Job, a pass inside the window throws the way back away with
   OpenSearch still on another password exactly when the newest run had succeeded
   within the clock skew of the reset.
   */
  lemma EarlySuccessForgetsTooSoon(w: World, newPassword: string, now: int, later: int)
    requires w.marker.None? && HasText(w.secret, PASSWORD) && newPassword != w.accepted
    requires ClockTime(now) && ClockTime(later) && now <= later < now + WINDOW_SECS
    requires SeenInTime(Newest(w.runs))
    ensures var reset := RequestReset(true, newPassword, now, ResetFate(true, true, true, false));
            var pass := BackstopPass(later, Newest(w.runs), 2, true);
            var end := Step(Step(w, reset), pass);
            && (PREVIOUS_PASSWORD_KEY !in end.secret <==>
                  w.runs != [] && Last(w.runs).phase == "Succeeded" && !QuietAt(w.runs, now))
            && (PREVIOUS_PASSWORD_KEY !in end.secret ==>
                  Holds(end.secret, PASSWORD, newPassword) && end.accepted != newPassword)
  {
    var marked := Step(w, RequestReset(true, newPassword, now, ResetFate(true, true, true, false)));
    StartPatchEffect(w.secret, ADMIN_USER, newPassword, w.secret[PASSWORD]);
    KeysDistinct();
    FirstPass(marked, Pending(now, Reset), later);
  }

  /**
   The same of a Job still under way at the reset: it succeeds with its old password,
   and the next pass drops the way back exactly when the Job was created within the
   clock skew of the reset, or after it.
   */
  lemma LateSuccessForgetsTooSoon(w: World, newPassword: string, now: int, later: int)
    requires w.marker.None? && HasText(w.secret, PASSWORD)
    requires w.runs != [] && Unfinished(Last(w.runs)) && Last(w.runs).applies != newPassword
    requires ClockTime(now) && ClockTime(later) && now <= later < now + WINDOW_SECS
    requires ClockTime(Last(w.runs).created)
    ensures var marked := Step(w, RequestReset(true, newPassword, now, ResetFate(true, true, true, false)));
            var ended := Step(marked, JobEnds(true));
            var end := Step(ended, BackstopPass(later, Newest(ended.runs), 2, true));
            && (PREVIOUS_PASSWORD_KEY !in end.secret <==> !QuietAt(w.runs, now))
            && (PREVIOUS_PASSWORD_KEY !in end.secret ==>
                  Holds(end.secret, PASSWORD, newPassword) && end.accepted != newPassword)
  {
    var marked := Step(w, RequestReset(true, newPassword, now, ResetFate(true, true, true, false)));
    StartPatchEffect(w.secret, ADMIN_USER, newPassword, w.secret[PASSWORD]);
    KeysDistinct();
    FirstPass(Step(marked, JobEnds(true)), Pending(now, Reset), later);
  }

  /**
   The mirror of it: right after an applied reset, the first pass puts the old
   password back, before a Job of the new one has run, exactly when the newest Job had
   failed and was created within the clock skew of the reset, or after it.
   */
  lemma EarlyFailureRestoresTooSoon(w: World, newPassword: string, now: int, later: int)
    requires w.marker.None? && HasText(w.secret, PASSWORD) && newPassword != w.secret[PASSWORD]
    requires ClockTime(now) && ClockTime(later) && now <= later
    requires SeenInTime(Newest(w.runs))
    ensures var reset := RequestReset(true, newPassword, now, ResetFate(true, true, true, false));
            var end := Step(Step(w, reset), BackstopPass(later, Newest(w.runs), 2, true));
            Holds(end.secret, PASSWORD, w.secret[PASSWORD]) <==>
              w.runs != [] && Last(w.runs).phase == "Failed" && !QuietAt(w.runs, now)
  {
    var marked := Step(w, RequestReset(true, newPassword, now, ResetFate(true, true, true, false)));
    StartPatchEffect(w.secret, ADMIN_USER, newPassword, w.secret[PASSWORD]);
    KeysDistinct();
    FirstVerdict(marked, Pending(now, Reset), later);
  }

  /** The first pass over a fresh reset puts the kept password back on a failure it counts for the reset. */
  lemma FirstVerdict(w: World, p: Pending, later: int)
    requires ValidPending(p) && p.stage.Reset? && w.marker == Some(MarkerText(p))
    requires PASSWORD in w.secret && HasText(w.secret, PREVIOUS_PASSWORD_KEY)
    requires w.secret[PASSWORD] != w.secret[PREVIOUS_PASSWORD_KEY]
    requires ClockTime(later) && SeenInTime(Newest(w.runs))
    ensures var end := Step(w, BackstopPass(later, Newest(w.runs), 2, true));
            Holds(end.secret, PASSWORD, w.secret[PREVIOUS_PASSWORD_KEY]) <==>
              w.runs != [] && Last(w.runs).phase == "Failed" && !QuietAt(w.runs, p.since)
  {
    MarkerRoundTrip(p);
    NextIsValid(p, Newest(w.runs), later);
    DropKeptPatchEffect(w.secret);
    RestorePatchEffect(w.secret, w.secret[PREVIOUS_PASSWORD_KEY], false);
    KeysDistinct();
  }

  /** The first pass over a fresh reset, seeing the newest run. */
  lemma FirstPass(w: World, p: Pending, later: int)
    requires ValidPending(p) && p.stage.Reset? && w.marker == Some(MarkerText(p))
    requires PASSWORD in w.secret && HasText(w.secret, PREVIOUS_PASSWORD_KEY)
    requires ClockTime(later) && later < p.since + WINDOW_SECS && SeenInTime(Newest(w.runs))
    ensures var end := Step(w, BackstopPass(later, Newest(w.runs), 2, true));
            && (PREVIOUS_PASSWORD_KEY !in end.secret <==>
                  w.runs != [] && Last(w.runs).phase == "Succeeded" && !QuietAt(w.runs, p.since))
            && (PREVIOUS_PASSWORD_KEY !in end.secret ==> Holds(end.secret, PASSWORD, w.secret[PASSWORD]))
            && end.accepted == w.accepted
  {
    MarkerRoundTrip(p);
    NextIsValid(p, Newest(w.runs), later);
    DropKeptPatchEffect(w.secret);
    RestorePatchEffect(w.secret, w.secret[PREVIOUS_PASSWORD_KEY], false);
    KeysDistinct();
  }
}
