/**
 The admin-password reset as a protocol (src/admin_reset.rs, src/k8s.rs): the
 credentials Secret, the pending marker on the custom resource, the operator's
 one-shot securityconfig Jobs and the password OpenSearch takes. Requests and
 backstop passes run one at a time; each may fail at any of its writes.
 */
module ResetProtocol {
  import opened Text
  import opened Decimal
  import opened AdminReset
  import opened ResetRuns
  import opened SecretPatch

  const ADMIN_USER: string := "admin"

  /** One securityconfig run: its pod, and the password whose hash it pushes. */
  datatype JobRun = JobRun(created: int, phase: string, applies: string)

  /**
   `runs` is every securityconfig pod so far, oldest first, and `jobGone` whether the
   newest one's Job has been deleted since. The last three are
   history of the moment the latest reset rewrote the Secret: the password the
   Secret held, the one OpenSearch took, and how many runs there were.
   */
  datatype World = World(
    secret: Data,
    marker: Option<string>,
    runs: seq<JobRun>,
    jobGone: bool,
    accepted: string,
    before: string,
    wasAccepted: string,
    resetRuns: nat)

  /**
   How a request fares: whether its Secret write lands, whether the nudge lands,
   whether the nudge's answer says so, and whether the rollback lands.
   */
  datatype ResetFate = ResetFate(started: bool, landed: bool, told: bool, rolledBack: bool)

  datatype Action =
    | RequestReset(settled: bool, newPassword: string, now: int, fate: ResetFate)
    | BackstopPass(now: int, seen: Option<UpdateRun>, writes: nat, deletable: bool)
    | JobStarts(created: int)
    | JobEnds(ok: bool)

  // ── the steps ───────────────────────────────────────────────────────

  predicate Holds(d: Data, key: string, value: string) {
    key in d && d[key] == value
  }

  predicate HasText(d: Data, key: string) {
    key in d && d[key] != ""
  }

  /** The gate lets the request in and the Secret has a password to fall back on. */
  predicate ResetBegins(w: World, settled: bool) {
    Gate(settled, w.marker) == Open && HasText(w.secret, PASSWORD)
  }

  /** `reset_admin_password`: rewrite the Secret, nudge with the marker, roll back a nudge that failed. */
  function AfterReset(w: World, settled: bool, newPassword: string, now: int, fate: ResetFate): World
    requires now > 0
  {
    if !ResetBegins(w, settled) || !fate.started then w else AfterWrites(w, newPassword, now, fate)
  }

  /** The writes of a request that passed the gate. */
  function AfterWrites(w: World, newPassword: string, now: int, fate: ResetFate): World
    requires now > 0 && PASSWORD in w.secret
  {
    var previous := w.secret[PASSWORD];
    var rewritten := w.(
      secret := Patched(w.secret, StartPatch(ADMIN_USER, newPassword, previous)),
      before := previous,
      wasAccepted := w.accepted,
      resetRuns := |w.runs|);
    var nudged := if fate.landed then rewritten.(marker := Some(Print(now))) else rewritten;
    if fate.landed && fate.told then nudged
    else if fate.rolledBack then nudged.(secret := Patched(nudged.secret, RestorePatch(previous, true)))
    else nudged
  }

  /** `forget_reset_in`: drop the marker, then the kept password. */
  function AfterForget(w: World, writes: nat): (end: World)
    ensures end == w.(marker := end.marker, secret := end.secret)
  {
    if writes == 0 then w
    else if writes == 1 then w.(marker := None)
    else w.(marker := None, secret := Patched(w.secret, DropKeptPatch()))
  }

  function Marked(w: World, p: Pending): World
    requires ValidPending(p)
  {
    w.(marker := Some(MarkerText(p)))
  }

  /** A second restore runs only if the failed Job is out of the way. */
  predicate IsRetry(next: Pending) {
    next.stage.Restore? && next.stage.n > 1
  }

  /** `restore_reset_in`: put the kept password back, delete the Job of a retry, rewrite the marker. */
  function AfterRestore(w: World, next: Pending, now: int, writes: nat, deletable: bool): (end: World)
    requires ValidPending(next) && ValidPending(Pending(now, Stalled))
    ensures end == w.(marker := end.marker, jobGone := end.jobGone, secret := end.secret)
    ensures w.marker.Some? && end.marker.None? ==> end == AfterForget(w, writes)
  {
    if !HasText(w.secret, PREVIOUS_PASSWORD_KEY) then AfterForget(w, writes)
    else if writes == 0 then w
    else
      var restored := w.(secret := Patched(w.secret, RestorePatch(w.secret[PREVIOUS_PASSWORD_KEY], false)));
      AfterPutBack(restored, next, now, writes - 1, deletable)
  }

  /** The writes of a restore after the Secret's. */
  function AfterPutBack(w: World, next: Pending, now: int, writes: nat, deletable: bool): (end: World)
    requires ValidPending(next) && ValidPending(Pending(now, Stalled))
    ensures end == w.(marker := end.marker, jobGone := end.jobGone)
    ensures w.marker.Some? ==> end.marker.Some?
  {
    if writes == 0 then w
    else if !IsRetry(next) then Marked(w, next)
    else if !deletable then Marked(w, Pending(now, Stalled))
    else if writes == 1 then w.(jobGone := true)
    else Marked(w.(jobGone := true), next)
  }

  /** A time the marker can carry and a restore can push past. */
  predicate ClockTime(t: int) {
    0 < t && t + CLOCK_SKEW_SECS + 1 <= I64_MAX
  }

  predicate SeenInTime(seen: Option<UpdateRun>) {
    seen.Some? ==> ClockTime(seen.value.created)
  }

  lemma NextIsValid(p: Pending, seen: Option<UpdateRun>, now: int)
    requires ValidPending(p) && ClockTime(now) && SeenInTime(seen)
    ensures var d := Decide(p, seen, now);
            (d.Restore? || d.Stall?) ==> ValidPending(d.next)
  {
  }

  /** `reset_backstop_in`, run for a custom resource that carries the marker. */
  function AfterPass(w: World, now: int, seen: Option<UpdateRun>, writes: nat, deletable: bool): World
    requires ClockTime(now) && SeenInTime(seen)
  {
    if w.marker.None? then w
    else
      match ParsePending(w.marker.value)
      case None => AfterForget(w, writes)
      case Some(p) =>
        NextIsValid(p, seen, now);
        match Decide(p, seen, now)
        case Wait => w
        case Forget => AfterForget(w, writes)
        case Stall(next) => if writes == 0 then w else Marked(w, next)
        case Restore(next) => AfterRestore(w, next, now, writes, deletable)
  }

  /** Times are clock times; a run starts only from a Secret with a password; only the newest run, unfinished, ends. */
  predicate Enabled(w: World, a: Action) {
    match a
    case RequestReset(_, _, now, _) => ClockTime(now)
    case BackstopPass(now, seen, _, _) => ClockTime(now) && SeenInTime(seen)
    case JobStarts(created) => ClockTime(created) && PASSWORD in w.secret
    case JobEnds(_) => w.runs != [] && Unfinished(Last(w.runs))
  }

  function Last(runs: seq<JobRun>): JobRun
    requires runs != []
  {
    runs[|runs| - 1]
  }

  predicate Unfinished(r: JobRun) {
    r.phase != "Succeeded" && r.phase != "Failed"
  }

  function Step(w: World, a: Action): World
    requires Enabled(w, a)
  {
    match a
    case RequestReset(settled, newPassword, now, fate) => AfterReset(w, settled, newPassword, now, fate)
    case BackstopPass(now, seen, writes, deletable) => AfterPass(w, now, seen, writes, deletable)
    case JobStarts(created) =>
      w.(runs := w.runs + [JobRun(created, "Pending", w.secret[PASSWORD])], jobGone := false)
    case JobEnds(ok) =>
      var r := Last(w.runs);
      var ended := w.(runs := w.runs[..|w.runs| - 1] + [r.(phase := if ok then "Succeeded" else "Failed")]);
      if ok then ended.(accepted := r.applies) else ended
  }

  predicate IsRun(w: World, acts: seq<Action>)
    decreases |acts|
  {
    acts != [] ==> Enabled(w, acts[0]) && IsRun(Step(w, acts[0]), acts[1..])
  }

  function Run(w: World, acts: seq<Action>): World
    requires IsRun(w, acts)
    decreases |acts|
  {
    if acts == [] then w else Run(Step(w, acts[0]), acts[1..])
  }

  // ── the kept password ───────────────────────────────────────────────

  /** The nudge landed but its answer was lost, and the rollback ran all the same. */
  predicate AnswerLost(a: Action) {
    a.RequestReset? && a.fate.landed && !a.fate.told && a.fate.rolledBack
  }

  /**
   The Secret keeps exactly the password it held before the reset (or already has
   it back as the password, after a lost answer), and from the first restore on that
   password is the Secret's password.
   */
  predicate WayBack(d: Data, before: string, stage: Stage, answersKept: bool) {
    && before != ""
    && (|| Holds(d, PREVIOUS_PASSWORD_KEY, before)
        || (!answersKept && stage.Reset? && PREVIOUS_PASSWORD_KEY !in d && Holds(d, PASSWORD, before)))
    && (stage.Reset? || Holds(d, PASSWORD, before))
  }

  /** What every state carrying the marker satisfies: the marker is readable and the way back is there. */
  predicate Recoverable(w: World, answersKept: bool) {
    w.marker.Some? ==>
      var m := ParsePending(w.marker.value);
      m.Some? && Written(m.value.stage) && WayBack(w.secret, w.before, m.value.stage, answersKept)
  }

  lemma MarkedIsRecoverable(w: World, p: Pending, answersKept: bool)
    requires ValidPending(p) && Written(p.stage) && WayBack(w.secret, w.before, p.stage, answersKept)
    ensures Recoverable(Marked(w, p), answersKept)
  {
    MarkerRoundTrip(p);
  }

  lemma ResetKeepsRecoverable(w: World, a: Action, answersKept: bool)
    requires a.RequestReset? && Enabled(w, a)
    requires Recoverable(w, answersKept) && (answersKept ==> !AnswerLost(a))
    ensures Recoverable(Step(w, a), answersKept)
  {
    if ResetBegins(w, a.settled) && a.fate.started {
      var previous := w.secret[PASSWORD];
      var started := Patched(w.secret, StartPatch(ADMIN_USER, a.newPassword, previous));
      StartPatchEffect(w.secret, ADMIN_USER, a.newPassword, previous);
      RestorePatchEffect(started, previous, true);
      StartedHasWayBack(w.secret, ADMIN_USER, a.newPassword, previous);
      MarkerRoundTrip(Pending(a.now, Reset));
    }
  }

  lemma StartedHasWayBack(d: Data, user: string, newPassword: string, previous: string)
    requires previous != ""
    ensures var started := d[USERNAME := user][PASSWORD := newPassword][PREVIOUS_PASSWORD_KEY := previous];
            && WayBack(started, previous, Reset, true) && WayBack(started, previous, Reset, false)
            && WayBack((started - {PREVIOUS_PASSWORD_KEY})[PASSWORD := previous], previous, Reset, false)
  {
    KeysDistinct();
  }

  lemma RestoreKeepsRecoverable(
    w: World, next: Pending, now: int, writes: nat, deletable: bool, answersKept: bool)
    requires ValidPending(next) && next.stage.Restore? && Written(next.stage) && ValidPending(Pending(now, Stalled))
    requires Recoverable(w, answersKept) && w.marker.Some?
    ensures Recoverable(AfterRestore(w, next, now, writes, deletable), answersKept)
  {
    if HasText(w.secret, PREVIOUS_PASSWORD_KEY) {
      var previous := w.secret[PREVIOUS_PASSWORD_KEY];
      var restored := w.(secret := Patched(w.secret, RestorePatch(previous, false)));
      RestorePatchEffect(w.secret, previous, false);
      RestoredHasWayBack(w.secret, previous, ParsePending(w.marker.value).value.stage, answersKept);
      if writes > 0 {
        PutBackKeepsRecoverable(restored, next, now, writes - 1, deletable, answersKept);
      }
    }
  }

  lemma PutBackKeepsRecoverable(
    w: World, next: Pending, now: int, writes: nat, deletable: bool, answersKept: bool)
    requires ValidPending(next) && Written(next.stage) && ValidPending(Pending(now, Stalled))
    requires Recoverable(w, answersKept)
    requires Holds(w.secret, PREVIOUS_PASSWORD_KEY, w.before) && Holds(w.secret, PASSWORD, w.before) && w.before != ""
    ensures Recoverable(AfterPutBack(w, next, now, writes, deletable), answersKept)
  {
    var gone := w.(jobGone := true);
    MarkedIsRecoverable(w, next, answersKept);
    MarkedIsRecoverable(gone, next, answersKept);
    MarkedIsRecoverable(w, Pending(now, Stalled), answersKept);
  }

  lemma RestoredHasWayBack(d: Data, previous: string, stage: Stage, answersKept: bool)
    requires Holds(d, PREVIOUS_PASSWORD_KEY, previous) && previous != ""
    ensures WayBack(d[PASSWORD := previous], previous, stage, answersKept)
    ensures Holds(d[PASSWORD := previous], PREVIOUS_PASSWORD_KEY, previous)
  {
    KeysDistinct();
  }

  lemma PassKeepsRecoverable(w: World, a: Action, answersKept: bool)
    requires a.BackstopPass? && Enabled(w, a)
    requires Recoverable(w, answersKept)
    ensures Recoverable(Step(w, a), answersKept)
  {
    if w.marker.Some? {
      var p := ParsePending(w.marker.value).value;
      NextIsValid(p, a.seen, a.now);
      match Decide(p, a.seen, a.now)
      case Wait =>
      case Forget =>
      case Stall(next) => MarkedIsRecoverable(w, next, answersKept);
      case Restore(next) => RestoreKeepsRecoverable(w, next, a.now, a.writes, a.deletable, answersKept);
    }
  }

  lemma {:induction false} RunKeepsRecoverable(w: World, acts: seq<Action>, answersKept: bool)
    requires IsRun(w, acts) && Recoverable(w, answersKept)
    requires answersKept ==> forall i | 0 <= i < |acts| :: !AnswerLost(acts[i])
    ensures Recoverable(Run(w, acts), answersKept)
    decreases |acts|
  {
    if acts != [] {
      var a := acts[0];
      match a {
        case RequestReset(_, _, _, _) => ResetKeepsRecoverable(w, a, answersKept);
        case BackstopPass(_, _, _, _) => PassKeepsRecoverable(w, a, answersKept);
        case JobStarts(_) =>
        case JobEnds(_) =>
      }
      RunKeepsRecoverable(Step(w, a), acts[1..], answersKept);
    }
  }

  /** While the marker stands, no request starts and the password to go back to does not change. */
  lemma MarkerGuardsTheWayBack(w: World, a: Action)
    requires Enabled(w, a) && w.marker.Some?
    ensures a.RequestReset? ==> Step(w, a) == w
    ensures var end := Step(w, a);
            end.before == w.before && end.wasAccepted == w.wasAccepted && end.resetRuns == w.resetRuns
  {
  }

  /** The marker is there in every state of the run, first and last included. */
  predicate MarkerStands(w: World, acts: seq<Action>)
    requires IsRun(w, acts)
    decreases |acts|
  {
    w.marker.Some? && (acts != [] ==> MarkerStands(Step(w, acts[0]), acts[1..]))
  }

  lemma {:induction false} BeforeStands(w: World, acts: seq<Action>)
    requires IsRun(w, acts) && MarkerStands(w, acts)
    ensures var end := Run(w, acts);
            end.before == w.before && end.wasAccepted == w.wasAccepted && end.marker.Some?
    decreases |acts|
  {
    if acts != [] {
      MarkerGuardsTheWayBack(w, acts[0]);
      BeforeStands(Step(w, acts[0]), acts[1..]);
    }
  }

  /**
   From a reset that was applied until its marker goes, whatever requests, passes
   and Jobs do in between, the Secret keeps the password it had when the reset
   began; and once a restore stage is reached it is the Secret's password again.
   */
  lemma KeptUntilForgotten(w: World, reset: Action, acts: seq<Action>)
    requires reset.RequestReset? && Enabled(w, reset)
    requires ResetBegins(w, reset.settled) && reset.fate.started && reset.fate.landed && reset.fate.told
    requires IsRun(Step(w, reset), acts) && MarkerStands(Step(w, reset), acts)
    ensures var end := Run(Step(w, reset), acts);
            && Holds(end.secret, PREVIOUS_PASSWORD_KEY, w.secret[PASSWORD])
            && end.marker.Some? && ParsePending(end.marker.value).Some?
            && (!ParsePending(end.marker.value).value.stage.Reset? ==> Holds(end.secret, PASSWORD, w.secret[PASSWORD]))
  {
    ResetKeepsRecoverable(w, reset, true);
    NoAnswerLostUnderMarker(Step(w, reset), acts);
    BeforeStands(Step(w, reset), acts);
  }

  /** Under a standing marker even a lost answer changes nothing: the request was refused. */
  lemma {:induction false} NoAnswerLostUnderMarker(w: World, acts: seq<Action>)
    requires IsRun(w, acts) && MarkerStands(w, acts) && Recoverable(w, true)
    ensures Recoverable(Run(w, acts), true)
    decreases |acts|
  {
    if acts != [] {
      var a := acts[0];
      MarkerGuardsTheWayBack(w, a);
      if a.BackstopPass? {
        PassKeepsRecoverable(w, a, true);
      }
      NoAnswerLostUnderMarker(Step(w, a), acts[1..]);
    }
  }

  /** The pass drops the kept password: a success it saw, or a full window with no failure left to act on. */
  predicate Forgets(w: World, a: Action) {
    && a.BackstopPass? && a.writes >= 2
    && w.marker.Some? && ParsePending(w.marker.value).Some?
    && var p := ParsePending(w.marker.value).value;
       Succeeded(p, a.seen) || (a.now - p.since >= WINDOW_SECS && (p.stage.Stalled? || !Failed(p, a.seen)))
  }

  /** The request begins on a Secret that keeps a password no marker speaks for: its own writes take that place. */
  predicate Overwrites(w: World, a: Action) {
    && a.RequestReset? && ResetBegins(w, a.settled) && a.fate.started
    && ((a.fate.rolledBack && !(a.fate.landed && a.fate.told))
        || !Holds(w.secret, PREVIOUS_PASSWORD_KEY, w.secret[PASSWORD]))
  }

  /** A kept password stays through every step but these two, and through neither of them. */
  lemma KeptIsLostExactly(w: World, a: Action, answersKept: bool)
    requires Enabled(w, a) && Recoverable(w, answersKept) && PREVIOUS_PASSWORD_KEY in w.secret
    ensures Holds(Step(w, a).secret, PREVIOUS_PASSWORD_KEY, w.secret[PREVIOUS_PASSWORD_KEY])
      <==> !Forgets(w, a) && !Overwrites(w, a)
  {
    KeysDistinct();
    match a
    case RequestReset(settled, newPassword, now, fate) =>
      if ResetBegins(w, settled) && fate.started {
        StartPatchEffect(w.secret, ADMIN_USER, newPassword, w.secret[PASSWORD]);
        var started := Patched(w.secret, StartPatch(ADMIN_USER, newPassword, w.secret[PASSWORD]));
        RestorePatchEffect(started, w.secret[PASSWORD], true);
      }
    case BackstopPass(_, _, _, _) =>
      if w.marker.Some? {
        PassKeepsUnlessForgets(w, a, answersKept);
      }
    case JobStarts(_) =>
    case JobEnds(_) =>
  }

  /** A marker nobody can read is forgotten with the kept password, and nothing else moves. */
  lemma UnreadableIsForgotten(w: World, a: Action)
    requires a.BackstopPass? && Enabled(w, a) && a.writes >= 2
    requires w.marker.Some? && ParsePending(w.marker.value).None?
    ensures Step(w, a) == w.(marker := None, secret := w.secret - {"previous-password"})
  {
    DropKeptPatchEffect(w.secret);
  }

  /** The kept password, if the Secret has one. */
  function KeptIn(d: Data): Option<string> {
    if PREVIOUS_PASSWORD_KEY in d then Some(d[PREVIOUS_PASSWORD_KEY]) else None
  }

  lemma ForgetDropsKept(w: World, writes: nat)
    ensures KeptIn(AfterForget(w, writes).secret) == if writes >= 2 then None else KeptIn(w.secret)
  {
    DropKeptPatchEffect(w.secret);
  }

  lemma RestoreKeepsKept(w: World, next: Pending, now: int, writes: nat, deletable: bool)
    requires ValidPending(next) && ValidPending(Pending(now, Stalled)) && HasText(w.secret, PREVIOUS_PASSWORD_KEY)
    ensures KeptIn(AfterRestore(w, next, now, writes, deletable).secret) == KeptIn(w.secret)
  {
    KeysDistinct();
    RestorePatchEffect(w.secret, w.secret[PREVIOUS_PASSWORD_KEY], false);
  }

  lemma PassKeepsUnlessForgets(w: World, a: Action, answersKept: bool)
    requires Enabled(w, a) && a.BackstopPass? && w.marker.Some?
    requires Recoverable(w, answersKept) && PREVIOUS_PASSWORD_KEY in w.secret
    ensures KeptIn(Step(w, a).secret) == if Forgets(w, a) then None else KeptIn(w.secret)
  {
    var p := ParsePending(w.marker.value).value;
    NextIsValid(p, a.seen, a.now);
    match Decide(p, a.seen, a.now)
    case Wait =>
    case Forget => ForgetDropsKept(w, a.writes);
    case Stall(next) =>
    case Restore(next) => RestoreKeepsKept(w, next, a.now, a.writes, a.deletable);
  }

  /** Under a marker that leaves a success the pass saw, or a full window since the nudge; the marker goes first. */
  lemma DroppedOnlyWhenDone(w: World, a: Action, answersKept: bool)
    requires Enabled(w, a) && Recoverable(w, answersKept) && w.marker.Some?
    requires PREVIOUS_PASSWORD_KEY in w.secret && PREVIOUS_PASSWORD_KEY !in Step(w, a).secret
    ensures a.BackstopPass?
    ensures var p := ParsePending(w.marker.value).value;
            Succeeded(p, a.seen) || a.now - p.since >= WINDOW_SECS
    ensures Step(w, a).marker.None?
  {
    MarkerGuardsTheWayBack(w, a);
    KeptIsLostExactly(w, a, answersKept);
  }

  /**
   The answer tells the truth: Applied is a marked reset with the way back kept,
   NotApplied leaves the password as it was, Partial leaves the new one with the
   way back kept. The whole Secret is given, key by key.
   */
  lemma AnswerTellsTheTruth(w: World, settled: bool, newPassword: string, now: int, fate: ResetFate)
    requires now > 0 && ResetBegins(w, settled) && fate.started
    ensures var end := AfterReset(w, settled, newPassword, now, fate);
            var previous := w.secret[PASSWORD];
            match Report(fate.landed && fate.told, Some(fate.rolledBack))
            case Applied =>
              && end.marker == Some(Print(now))
              && end.secret ==
                   w.secret["username" := "admin"]["password" := newPassword]["previous-password" := previous]
            case NotApplied =>
              && end.marker == (if fate.landed then Some(Print(now)) else None)
              && end.secret == (w.secret - {"previous-password"})["username" := "admin"]["password" := previous]
            case Partial =>
              && end.marker == (if fate.landed then Some(Print(now)) else None)
              && end.secret ==
                   w.secret["username" := "admin"]["password" := newPassword]["previous-password" := previous]
  {
    StartedSecret(w.secret, newPassword, w.secret[PASSWORD]);
    RolledBackSecret(w.secret, newPassword, w.secret[PASSWORD]);
  }

  lemma StartedSecret(d: Data, newPassword: string, previous: string)
    ensures Patched(d, StartPatch(ADMIN_USER, newPassword, previous))
         == d["username" := "admin"]["password" := newPassword]["previous-password" := previous]
  {
    StartPatchEffect(d, ADMIN_USER, newPassword, previous);
  }

  lemma RolledBackSecret(d: Data, newPassword: string, previous: string)
    ensures Patched(Patched(d, StartPatch(ADMIN_USER, newPassword, previous)), RestorePatch(previous, true))
         == (d - {"previous-password"})["username" := "admin"]["password" := previous]
  {
    StartPatchEffect(d, ADMIN_USER, newPassword, previous);
    RestorePatchEffect(Patched(d, StartPatch(ADMIN_USER, newPassword, previous)), previous, true);
    KeysDistinct();
    UndoneUpdates(d, USERNAME, PASSWORD, PREVIOUS_PASSWORD_KEY, ADMIN_USER, newPassword, previous);
  }

  lemma UndoneUpdates(
    d: Data, user: string, key: string, kept: string, name: string, newPassword: string, previous: string)
    requires user != key && user != kept && key != kept
    ensures (d[user := name][key := newPassword][kept := previous] - {kept})[key := previous]
         == (d - {kept})[user := name][key := previous]
  {
  }

  // ── overlapping writers ─────────────────────────────────────────────

  /** The password a restore would put back: the kept one, or with none kept the Secret's own. */
  function GoesBackTo(d: Data): Option<string> {
    if PREVIOUS_PASSWORD_KEY in d then Some(d[PREVIOUS_PASSWORD_KEY])
    else if PASSWORD in d then Some(d[PASSWORD])
    else None
  }

  /** The Secret keeps no password besides the one it holds. */
  predicate NothingElseKept(d: Data) {
    PREVIOUS_PASSWORD_KEY in d ==> Holds(d, PASSWORD, d[PREVIOUS_PASSWORD_KEY])
  }

  predicate StillHeld(d: Data, password: string) {
    Holds(d, PREVIOUS_PASSWORD_KEY, password) || Holds(d, PASSWORD, password)
  }

  lemma GoesBackToBefore(w: World, answersKept: bool)
    requires Recoverable(w, answersKept) && w.marker.Some?
    ensures GoesBackTo(w.secret) == Some(w.before)
  {
  }

  /** The new password is left in the Secret: the nudge was confirmed, or the rollback did not land. */
  predicate LeavesNewPassword(fate: ResetFate) {
    (fate.landed && fate.told) || !fate.rolledBack
  }

  /**
   The gate is read before the Secret is written. If another reset gets in between,
   the password that reset replaced survives the late writes exactly when the Secret,
   as the late request finds it, would go back to the password it holds anyway, or
   to the one asked for, which then stays. Both can be read off the Secret before the write.
   */
  lemma LateRequestIsSafe(
    w: World, settled: bool, acts: seq<Action>, newPassword: string, now: int, fate: ResetFate)
    requires ResetBegins(w, settled) && IsRun(w, acts) && ClockTime(now)
    requires Run(w, acts).marker.Some? && HasText(Run(w, acts).secret, PASSWORD)
    ensures var between := Run(w, acts);
            var found := between.secret;
            StillHeld(AfterWrites(between, newPassword, now, fate).secret, between.before) <==>
              NothingElseKept(found) || (found[PREVIOUS_PASSWORD_KEY] == newPassword && LeavesNewPassword(fate))
  {
    var between := Run(w, acts);
    RunKeepsRecoverable(w, acts, false);
    GoesBackToBefore(between, false);
    LateWrites(between, newPassword, now, fate);
  }

  lemma LateWrites(w: World, newPassword: string, now: int, fate: ResetFate)
    requires ClockTime(now) && PASSWORD in w.secret
    ensures var end := AfterWrites(w, newPassword, now, fate).secret;
            forall held :: StillHeld(end, held)
              <==> held == w.secret[PASSWORD] || (LeavesNewPassword(fate) && held == newPassword)
  {
    var previous := w.secret[PASSWORD];
    StartPatchEffect(w.secret, ADMIN_USER, newPassword, previous);
    RestorePatchEffect(Patched(w.secret, StartPatch(ADMIN_USER, newPassword, previous)), previous, true);
    KeysDistinct();
  }

  /** Two requests that both passed the gate lose the password in force before the first. */
  lemma RacingRequestsLoseTheWayBack(w: World, one: string, two: string, now: int)
    requires ResetBegins(w, true) && ClockTime(now)
    requires one != "" && w.secret[PASSWORD] !in {one, two}
    ensures var first := Step(w, RequestReset(true, one, now, ResetFate(true, true, true, false)));
            && first.before == w.secret[PASSWORD] && HasText(first.secret, PASSWORD)
            && var end := AfterWrites(first, two, now, ResetFate(true, true, true, false));
            end.marker.Some? && !StillHeld(end.secret, w.secret[PASSWORD])
  {
    var reset := RequestReset(true, one, now, ResetFate(true, true, true, false));
    StartPatchEffect(w.secret, ADMIN_USER, one, w.secret[PASSWORD]);
    KeysDistinct();
    LateWrites(Step(w, reset), two, now, ResetFate(true, true, true, false));
  }

  /**
   A forget is two writes. If other actions run between them, dropping the kept
   password is safe exactly when there is no marker by then, or the Secret keeps no
   password besides the one it holds.
   */
  lemma SplitForgetIsSafe(w: World, acts: seq<Action>)
    requires Recoverable(w, false) && IsRun(AfterForget(w, 1), acts)
    ensures var between := Run(AfterForget(w, 1), acts);
            var found := between.secret;
            var end := between.(secret := Patched(found, DropKeptPatch()));
            (end.marker.Some? ==> StillHeld(end.secret, end.before)) <==>
              between.marker.None? || NothingElseKept(found)
  {
    var between := Run(AfterForget(w, 1), acts);
    RunKeepsRecoverable(AfterForget(w, 1), acts, false);
    DropKeptPatchEffect(between.secret);
    KeysDistinct();
  }

  /** It happens: a reset that lands between the two writes loses its way back. */
  lemma SplitForgetLosesTheWayBack(w: World, newPassword: string, now: int)
    requires Recoverable(w, false) && ClockTime(now)
    requires HasText(w.secret, PASSWORD) && newPassword != w.secret[PASSWORD]
    ensures var reset := RequestReset(true, newPassword, now, ResetFate(true, true, true, false));
            var between := Step(AfterForget(w, 1), reset);
            var end := between.(secret := Patched(between.secret, DropKeptPatch()));
            && end.marker.Some?
            && end.before == w.secret[PASSWORD]
            && !Holds(end.secret, PREVIOUS_PASSWORD_KEY, end.before)
            && !Holds(end.secret, PASSWORD, end.before)
  {
    var reset := RequestReset(true, newPassword, now, ResetFate(true, true, true, false));
    var between := Step(AfterForget(w, 1), reset);
    StartPatchEffect(w.secret, ADMIN_USER, newPassword, w.secret[PASSWORD]);
    DropKeptPatchEffect(between.secret);
    KeysDistinct();
  }
}
