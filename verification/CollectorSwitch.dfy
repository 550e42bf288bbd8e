/**
 A deployment's password reset and its collectors together (src/admin_reset.rs with
 `reconcile_creds_inner` of src/agents.rs): requests, backstop passes, securityconfig
 Jobs, reconcile ticks and pod restarts, interleaved in any order. A tick is one
 step, and no integration is installed in between.
 */
module CollectorSwitch {
  import opened Text
  import opened AdminReset
  import opened SecretPatch
  import opened ResetProtocol
  import opened AgentConfig
  import opened AgentManifests
  import opened AgentCluster

  datatype Site = Site(world: World, fleet: Fleet)

  datatype Event = Protocol(action: Action) | Tick(reachable: bool) | Restart(key: Key)

  /** `admin_creds`: an unreadable login has an empty password. */
  function AdminLogin(secret: Data): Login {
    if USERNAME in secret && PASSWORD in secret then Login(secret[USERNAME], secret[PASSWORD])
    else Login(ADMIN_USER, "")
  }

  predicate Accepts(w: World, login: Login) {
    login == Login(ADMIN_USER, w.accepted)
  }

  /** A restarted pod reads its password where its template says, unless its config still carries one itself. */
  function Restarted(f: Fleet, k: Key): Fleet {
    if k in f.live && !IsPlaintext(f, k.name)
    then f.(live := f.live[k := Started(f.live[k].workload, f.live[k].running, f.secrets)])
    else f
  }

  predicate Possible(s: Site, e: Event) {
    e.Protocol? ==> Enabled(s.world, e.action)
  }

  function Advance(s: Site, e: Event, dep: string, p: Platform): Site
    requires Possible(s, e)
  {
    match e
    case Protocol(a) => s.(world := Step(s.world, a))
    case Tick(reachable) =>
      var login := AdminLogin(s.world.secret);
      s.(fleet := Ticked(dep, s.fleet, login, reachable && Accepts(s.world, login), p))
    case Restart(k) => s.(fleet := Restarted(s.fleet, k))
  }

  predicate IsHistory(s: Site, events: seq<Event>, dep: string, p: Platform)
    decreases |events|
  {
    events != [] ==> Possible(s, events[0]) && IsHistory(Advance(s, events[0], dep, p), events[1..], dep, p)
  }

  function After(s: Site, events: seq<Event>, dep: string, p: Platform): Site
    requires IsHistory(s, events, dep, p)
    decreases |events|
  {
    if events == [] then s else After(Advance(s, events[0], dep, p), events[1..], dep, p)
  }

  // ── only to a password that works ───────────────────────────────────

  /** The passwords that reconcile ticks found accepted by OpenSearch, each at its own moment. */
  function AcceptedAtTicks(s: Site, events: seq<Event>, dep: string, p: Platform): set<string>
    requires IsHistory(s, events, dep, p)
    decreases |events|
  {
    if events == [] then {}
    else AcceptedAt(s, events[0]) + AcceptedAtTicks(Advance(s, events[0], dep, p), events[1..], dep, p)
  }

  function AcceptedAt(s: Site, e: Event): set<string> {
    if e.Tick? && e.reachable && Accepts(s.world, AdminLogin(s.world.secret)) then {s.world.accepted} else {}
  }

  /** The password a deployment's collectors would read. */
  predicate SecretIn(f: Fleet, dep: string, passwords: set<string>) {
    CredsSecretName(dep) in f.secrets && CREDS_PASSWORD in f.secrets[CredsSecretName(dep)] ==>
      f.secrets[CredsSecretName(dep)][CREDS_PASSWORD] in passwords
  }

  predicate RunningIn(dep: string, live: Live, passwords: set<string>) {
    live.workload.target == Some(dep) ==> WellWired(dep, live.workload) && live.running in passwords
  }

  predicate Keeps(f: Fleet, dep: string, passwords: set<string>) {
    SecretIn(f, dep, passwords) && forall k | k in f.live :: RunningIn(dep, f.live[k], passwords)
  }

  lemma TickKeeps(s: Site, reachable: bool, dep: string, p: Platform, passwords: set<string>)
    requires Keeps(s.fleet, dep, passwords)
    ensures Keeps(Advance(s, Tick(reachable), dep, p).fleet, dep, passwords + AcceptedAt(s, Tick(reachable)))
  {
    var login := AdminLogin(s.world.secret);
    var accepts := reachable && Accepts(s.world, login);
    var g := Advance(s, Tick(reachable), dep, p).fleet;
    TickWritesAtHome(dep, s.fleet, login, accepts, p);
    forall k | k in s.fleet.live
      ensures k in g.live && RunningIn(dep, g.live[k], passwords + AcceptedAt(s, Tick(reachable)))
    {
      TickStaysAtHome(dep, s.fleet, login, accepts, p, k);
      assert RunningIn(dep, s.fleet.live[k], passwords);
    }
    KeysAfterTick(dep, s.fleet, login, accepts, p);
  }

  lemma KeysAfterTick(dep: string, f: Fleet, login: Login, accepts: bool, p: Platform)
    ensures Ticked(dep, f, login, accepts, p).live.Keys == f.live.Keys
  {
  }

  lemma RestartKeeps(f: Fleet, k: Key, dep: string, passwords: set<string>)
    requires Keeps(f, dep, passwords)
    ensures Keeps(Restarted(f, k), dep, passwords)
  {
    if k in f.live {
      assert RunningIn(dep, f.live[k], passwords);
    }
  }

  lemma AdvanceKeeps(s: Site, e: Event, dep: string, p: Platform, passwords: set<string>)
    requires Possible(s, e) && Keeps(s.fleet, dep, passwords)
    ensures Keeps(Advance(s, e, dep, p).fleet, dep, passwords + AcceptedAt(s, e))
  {
    assert passwords + {} == passwords;
    match e
    case Protocol(_) =>
    case Tick(reachable) => TickKeeps(s, reachable, dep, p, passwords);
    case Restart(k) => RestartKeeps(s.fleet, k, dep, passwords);
  }

  /**
   Whatever happens, a collector ends with a password it had, one its Secret already
   held, or one that OpenSearch accepted at the moment a tick switched to it.
   */
  lemma {:induction false} SwitchedOnlyToAccepted(
    s: Site, events: seq<Event>, dep: string, p: Platform, passwords: set<string>)
    requires IsHistory(s, events, dep, p) && Keeps(s.fleet, dep, passwords)
    ensures Keeps(After(s, events, dep, p).fleet, dep, passwords + AcceptedAtTicks(s, events, dep, p))
    decreases |events|
  {
    if events == [] {
      assert passwords + {} == passwords;
    } else {
      var more := AcceptedAt(s, events[0]);
      AdvanceKeeps(s, events[0], dep, p, passwords);
      SwitchedOnlyToAccepted(Advance(s, events[0], dep, p), events[1..], dep, p, passwords + more);
      assert passwords + more + AcceptedAtTicks(Advance(s, events[0], dep, p), events[1..], dep, p)
          == passwords + AcceptedAtTicks(s, events, dep, p);
    }
  }

  // ── a reset that never took ─────────────────────────────────────────

  /** A securityconfig Job succeeds that pushes the password. */
  predicate Takes(s: Site, e: Event, password: string)
    requires Possible(s, e)
  {
    e.Protocol? && e.action.JobEnds? && e.action.ok && Last(s.world.runs).applies == password
  }

  /** No Job of the password succeeds, and up to the last event the marker stands. */
  predicate PendingWithout(s: Site, events: seq<Event>, dep: string, p: Platform, password: string)
    requires IsHistory(s, events, dep, p)
    decreases |events|
  {
    events != [] ==>
      && s.world.marker.Some?
      && !Takes(s, events[0], password)
      && PendingWithout(Advance(s, events[0], dep, p), events[1..], dep, p, password)
  }

  /** OpenSearch takes the old password, the Secret holds it or the new one, and so does any Job under way. */
  predicate Undecided(w: World, old_: string, new_: string) {
    && w.accepted == old_
    && Holds(w.secret, USERNAME, ADMIN_USER)
    && (Holds(w.secret, PASSWORD, old_) || Holds(w.secret, PASSWORD, new_))
    && (w.runs != [] && Unfinished(Last(w.runs)) ==> Last(w.runs).applies in {old_, new_})
    && (w.marker.Some? ==> w.before == old_)
    && Recoverable(w, true)
  }

  lemma RunsStayUndecided(w: World, a: Action, old_: string, new_: string)
    requires Undecided(w, old_, new_) && Enabled(w, a) && (a.JobStarts? || a.JobEnds?)
    requires a.JobEnds? && a.ok ==> Last(w.runs).applies != new_
    ensures Undecided(Step(w, a), old_, new_)
  {
  }

  lemma PassStaysUndecided(w: World, a: Action, old_: string, new_: string)
    requires Undecided(w, old_, new_) && Enabled(w, a) && a.BackstopPass? && w.marker.Some?
    ensures Undecided(Step(w, a), old_, new_)
  {
    PassKeepsRecoverable(w, a, true);
    PassKeepsSecret(w, a);
    KeysDistinct();
  }

  /** The Secret's user and history stand, and its password is the one there or the one to go back to. */
  predicate SecretKept(w: World, end: World) {
    && end.runs == w.runs && end.accepted == w.accepted && end.before == w.before
    && Holds(end.secret, USERNAME, ADMIN_USER)
    && PASSWORD in w.secret
    && (Holds(end.secret, PASSWORD, w.secret[PASSWORD]) || Holds(end.secret, PASSWORD, w.before))
  }

  lemma ForgetKeepsSecret(w: World, writes: nat)
    requires SecretKept(w, w)
    ensures SecretKept(w, AfterForget(w, writes))
  {
    KeysDistinct();
    DropKeptPatchEffect(w.secret);
  }

  lemma RestoreKeepsSecret(w: World, next: Pending, now: int, writes: nat, deletable: bool)
    requires ValidPending(next) && ValidPending(Pending(now, Stalled))
    requires SecretKept(w, w) && PREVIOUS_PASSWORD_KEY in w.secret && w.secret[PREVIOUS_PASSWORD_KEY] == w.before
    ensures SecretKept(w, AfterRestore(w, next, now, writes, deletable))
  {
    KeysDistinct();
    ForgetKeepsSecret(w, writes);
    RestorePatchEffect(w.secret, w.secret[PREVIOUS_PASSWORD_KEY], false);
  }

  lemma PassKeepsSecret(w: World, a: Action)
    requires Enabled(w, a) && a.BackstopPass? && Recoverable(w, true) && w.marker.Some?
    requires SecretKept(w, w)
    ensures SecretKept(w, Step(w, a))
  {
    var p := ParsePending(w.marker.value).value;
    NextIsValid(p, a.seen, a.now);
    match Decide(p, a.seen, a.now)
    case Wait =>
    case Forget => ForgetKeepsSecret(w, a.writes);
    case Stall(next) =>
    case Restore(next) => RestoreKeepsSecret(w, next, a.now, a.writes, a.deletable);
  }

  lemma UndecidedStep(s: Site, e: Event, dep: string, p: Platform, old_: string, new_: string)
    requires Possible(s, e) && s.world.marker.Some? && !Takes(s, e, new_)
    requires Undecided(s.world, old_, new_)
    ensures Undecided(Advance(s, e, dep, p).world, old_, new_)
  {
    if e.Protocol? {
      match e.action {
        case RequestReset(_, _, _, _) => MarkerGuardsTheWayBack(s.world, e.action);
        case BackstopPass(_, _, _, _) => PassStaysUndecided(s.world, e.action, old_, new_);
        case JobStarts(_) => RunsStayUndecided(s.world, e.action, old_, new_);
        case JobEnds(_) => RunsStayUndecided(s.world, e.action, old_, new_);
      }
    }
  }

  /** Under a pending reset a tick can only accept the old password. */
  lemma TickAddsNothing(s: Site, e: Event, dep: string, p: Platform, old_: string, new_: string)
    requires Possible(s, e) && Undecided(s.world, old_, new_)
    requires Keeps(s.fleet, dep, {old_})
    ensures Keeps(Advance(s, e, dep, p).fleet, dep, {old_})
  {
    var passwords := {old_};
    AdvanceKeeps(s, e, dep, p, passwords);
    assert passwords + {} == passwords && passwords + passwords == passwords;
  }

  lemma {:induction false} PendingKeepsCollectors(
    s: Site, events: seq<Event>, dep: string, p: Platform, old_: string, new_: string)
    requires IsHistory(s, events, dep, p) && PendingWithout(s, events, dep, p, new_)
    requires Undecided(s.world, old_, new_) && Keeps(s.fleet, dep, {old_})
    ensures var end := After(s, events, dep, p);
            && Undecided(end.world, old_, new_)
            && Keeps(end.fleet, dep, {old_})
    decreases |events|
  {
    if events != [] {
      UndecidedStep(s, events[0], dep, p, old_, new_);
      TickAddsNothing(s, events[0], dep, p, old_, new_);
      PendingKeepsCollectors(Advance(s, events[0], dep, p), events[1..], dep, p, old_, new_);
    }
  }

  /**
   The collectors held the accepted password when the reset began. If no Job of the
   new password succeeds up to the step that forgets the reset, then, whatever
   restores, ticks and restarts ran meanwhile, OpenSearch still takes that
   password and every collector still runs with it.
   */
  lemma FailedResetLeavesCollectorsAlone(s: Site, reset: Action, events: seq<Event>, dep: string, p: Platform)
    requires reset.RequestReset? && Enabled(s.world, reset)
    requires ResetBegins(s.world, reset.settled) && reset.fate.started && reset.fate.landed && reset.fate.told
    requires s.world.secret[PASSWORD] == s.world.accepted
    requires reset.newPassword != s.world.accepted
    requires s.world.runs != [] && Unfinished(Last(s.world.runs)) ==> Last(s.world.runs).applies == s.world.accepted
    requires Keeps(s.fleet, dep, {s.world.accepted})
    requires var begun := Advance(s, Protocol(reset), dep, p);
             IsHistory(begun, events, dep, p) && PendingWithout(begun, events, dep, p, reset.newPassword)
    ensures var end := After(Advance(s, Protocol(reset), dep, p), events, dep, p);
            && end.world.accepted == s.world.accepted
            && Keeps(end.fleet, dep, {s.world.accepted})
  {
    var begun := Advance(s, Protocol(reset), dep, p);
    ResetKeepsRecoverable(s.world, reset, true);
    StartPatchEffect(s.world.secret, ADMIN_USER, reset.newPassword, s.world.secret[PASSWORD]);
    KeysDistinct();
    PendingKeepsCollectors(begun, events, dep, p, s.world.accepted, reset.newPassword);
  }

  // ── a reset that took ───────────────────────────────────────────────

  /** A restart gives a stamped collector the password of its template's login, and one without a hash what it reads. */
  lemma RestartKeepsConsistent(dep: string, f: Fleet, k: Key)
    requires Consistent(dep, f)
    ensures Consistent(dep, Restarted(f, k))
  {
    var g := Restarted(f, k);
    assert forall x | x in OwnKeys(dep, g) :: x in OwnKeys(dep, f) && g.live[x].workload == f.live[x].workload;
    if k in OwnKeys(dep, f) && f.live[k].workload.credsHash.Some? && Wired(dep, f.live[k].workload) {
      HeldIsRead(dep, f, k, f.live[k].workload.credsHash.value);
    }
  }

  /**
   A restart moves that collector alone: one whose template reads the Secret runs with
   the password the Secret holds by then, and one whose config has its own keeps it.
   */
  lemma RestartReads(s: Site, k: Key, dep: string, p: Platform)
    requires k in s.fleet.live && Wired(dep, s.fleet.live[k].workload)
    requires CredsSecretName(dep) in s.fleet.secrets && "password" in s.fleet.secrets[CredsSecretName(dep)]
    ensures var t := Advance(s, Restart(k), dep, p);
            && t.fleet == s.fleet.(live := t.fleet.live) && t.world == s.world
            && t.fleet.live == s.fleet.live[k := s.fleet.live[k].(running :=
                 if IsPlaintext(s.fleet, k.name) then s.fleet.live[k].running
                 else s.fleet.secrets[CredsSecretName(dep)]["password"])]
  {
  }

  lemma HeldIsRead(dep: string, f: Fleet, k: Key, login: Login)
    requires k in f.live && HoldsLogin(dep, f, login) && Wired(dep, f.live[k].workload)
    ensures Started(f.live[k].workload, f.live[k].running, f.secrets).running == login.password
  {
    CredsKeysDiffer();
  }

  lemma AdvanceKeepsConsistent(s: Site, e: Event, dep: string, p: Platform)
    requires Possible(s, e) && Consistent(dep, s.fleet)
    ensures Consistent(dep, Advance(s, e, dep, p).fleet)
  {
    match e
    case Protocol(_) =>
    case Tick(_) => TickBringsEveryoneUp(dep, s.fleet, AdminLogin(s.world.secret), p);
    case Restart(k) => RestartKeepsConsistent(dep, s.fleet, k);
  }

  /** Every history keeps the templates truthful. */
  lemma {:induction false} HistoryKeepsConsistent(s: Site, events: seq<Event>, dep: string, p: Platform)
    requires IsHistory(s, events, dep, p) && Consistent(dep, s.fleet)
    ensures Consistent(dep, After(s, events, dep, p).fleet)
    decreases |events|
  {
    if events != [] {
      AdvanceKeepsConsistent(s, events[0], dep, p);
      HistoryKeepsConsistent(Advance(s, events[0], dep, p), events[1..], dep, p);
    }
  }

  /** A fleet whose collectors are all from before the hash, or that has none, is one to start from. */
  lemma UnstampedIsConsistent(dep: string, f: Fleet)
    requires forall k | k in OwnKeys(dep, f) :: f.live[k].workload.credsHash.None?
    ensures Consistent(dep, f)
  {
  }

  /** The Secret's login is the one OpenSearch takes. */
  predicate LoginWorks(w: World) {
    Holds(w.secret, "username", "admin") && Holds(w.secret, "password", w.accepted) && w.accepted != ""
  }

  /** A tick reaches for the collectors exactly when it can ask OpenSearch and the Secret's login works. */
  lemma TickActsIff(s: Site, reachable: bool, dep: string, p: Platform)
    ensures Advance(s, Tick(reachable), dep, p).fleet
         == if reachable && LoginWorks(s.world)
            then Reconciled(dep, s.fleet, Login(ADMIN_USER, s.world.accepted), p) else s.fleet
  {
    KeysDistinct();
  }

  /**
   After any history, a reachable tick with a login that works leaves every collector
   of the deployment stamped with it and every one that takes a password running with
   the one OpenSearch takes; the next tick, reachable or not, changes nothing. With a
   login that does not work a tick changes nothing.
   */
  lemma TickSwitchesEveryCollector(s: Site, events: seq<Event>, dep: string, p: Platform)
    requires IsNamespace(p.ns) && Consistent(dep, s.fleet) && IsHistory(s, events, dep, p)
    ensures var end := After(s, events, dep, p);
            var t := Advance(end, Tick(true), dep, p);
            var login := Login(ADMIN_USER, end.world.accepted);
            && OwnKeys(dep, t.fleet) == OwnKeys(dep, end.fleet)
            && (!LoginWorks(end.world) ==> t == end)
            && (LoginWorks(end.world) ==>
                  && (forall k | k in OwnKeys(dep, end.fleet) :: UpToDate(dep, t.fleet, k, login))
                  && (forall k | k in OwnKeys(dep, end.fleet) && TakesPassword(dep, end.fleet, k) ::
                        RunsWith(dep, t.fleet, k, login) && t.fleet.live[k].running == end.world.accepted)
                  && PlaintextKeys(dep, t.fleet) == {} && StaleKeys(dep, t.fleet, login) == {}
                  && forall reachable :: Advance(t, Tick(reachable), dep, p) == t)
  {
    var end := After(s, events, dep, p);
    var login := Login(ADMIN_USER, end.world.accepted);
    HistoryKeepsConsistent(s, events, dep, p);
    TickActsIff(end, true, dep, p);
    TickBringsEveryoneUp(dep, end.fleet, login, p);
    SecondTickFindsNothing(dep, end.fleet, login, p);
    var t := Advance(end, Tick(true), dep, p);
    forall reachable ensures LoginWorks(end.world) ==> Advance(t, Tick(reachable), dep, p) == t {
      TickActsIff(t, reachable, dep, p);
    }
  }
}
