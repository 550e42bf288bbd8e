/**
 The collectors of every deployment in the agents' namespace, and the tick that
 keeps one deployment's collectors on its current admin password
 (`own_agents`, `apply_agent_workload` and `reconcile_creds_inner` of src/agents.rs).
 */
module AgentCluster {
  import opened Text
  import opened AgentConfig
  import opened AgentManifests

  datatype Key = Key(kind: Kind, name: string)

  /** A workload and the password its pods run with: an env var is read when a container starts. */
  datatype Live = Live(workload: Workload, running: string)

  datatype Fleet = Fleet(configMaps: map<string, ConfigMap>, live: map<Key, Live>, secrets: Secrets)

  // ── what a tick finds ───────────────────────────────────────────────

  function Prefix(dep: string): string {
    "velox-agent-" + dep + "-"
  }

  /** Velox-named for the deployment and annotated with it as target. */
  predicate Owns(dep: string, f: Fleet, k: Key) {
    k in f.live && Prefix(dep) <= k.name && f.live[k].workload.target == Some(dep)
  }

  function ConfOf(f: Fleet, name: string): Option<string> {
    if name in f.configMaps && CONF_KEY in f.configMaps[name].data
    then Some(f.configMaps[name].data[CONF_KEY]) else None
  }

  predicate IsPlaintext(f: Fleet, name: string) {
    ConfOf(f, name).Some? && AnyLine(Lines(ConfOf(f, name).value), IsPlain)
  }

  predicate IsStale(f: Fleet, k: Key, login: Login) {
    k in f.live && !IsPlaintext(f, k.name) && f.live[k].workload.credsHash != Some(login)
  }

  function KeysThat(keys: set<Key>, p: Key -> bool): set<Key> {
    set k | k in keys && p(k)
  }

  function Owned(dep: string, f: Fleet): Key -> bool {
    (k: Key) => Owns(dep, f, k)
  }

  function Plaintext(f: Fleet): Key -> bool {
    (k: Key) => IsPlaintext(f, k.name)
  }

  function Stale(f: Fleet, login: Login): Key -> bool {
    (k: Key) => IsStale(f, k, login)
  }

  function OwnKeys(dep: string, f: Fleet): set<Key> {
    KeysThat(f.live.Keys, Owned(dep, f))
  }

  function PlaintextKeys(dep: string, f: Fleet): set<Key> {
    KeysThat(OwnKeys(dep, f), Plaintext(f))
  }

  function StaleKeys(dep: string, f: Fleet, login: Login): set<Key> {
    KeysThat(OwnKeys(dep, f), Stale(f, login))
  }

  // ── what a tick leaves ──────────────────────────────────────────────

  /** The Secrets with the deployment's login written. */
  function Written(secrets: Secrets, dep: string, login: Login): Secrets {
    secrets[CredsSecretName(dep) := CredsSecret(login)]
  }

  /** The workload with its pods started anew: they read the password, if the template has them read one. */
  function Started(w: Workload, running: string, secrets: Secrets): Live {
    Live(w, if PasswordRead(w, secrets).Some? then PasswordRead(w, secrets).value else running)
  }

  /** A server-side apply of a workload: a changed template restarts its pods. */
  function Installed(was: Live, w: Workload, secrets: Secrets): Live {
    if was.workload == w then was else Started(w, was.running, secrets)
  }

  function Restamped(was: Live, login: Login, secrets: Secrets): Live {
    Started(was.workload.(credsHash := Some(login)), was.running, secrets)
  }

  /** `apply_agent_workload` on an existing collector: the login, the ConfigMap and the workload. */
  function Applied(dep: string, f: Fleet, k: Key, conf: string, login: Login, p: Platform): Fleet
    requires k in f.live
  {
    var secrets := Written(f.secrets, dep, login);
    Fleet(
      f.configMaps[k.name := ConfigMapFor(k.name, conf, p)],
      f.live[k := Installed(f.live[k], WorkloadFor(dep, k.name, conf, k.kind == DaemonSet, login, p), secrets)],
      secrets)
  }

  predicate Rebuildable(f: Fleet, keys: set<Key>) {
    forall k | k in keys :: k in f.live && ConfOf(f, k.name).Some?
  }

  function Names(keys: set<Key>): set<string> {
    set k | k in keys :: k.name
  }

  function RebuiltMaps(f: Fleet, keys: set<Key>, p: Platform): map<string, ConfigMap>
    requires Rebuildable(f, keys)
  {
    map n | n in f.configMaps :: if n in Names(keys) then ConfigMapFor(n, ConfOf(f, n).value, p) else f.configMaps[n]
  }

  function RebuiltLive(dep: string, f: Fleet, k: Key, login: Login, p: Platform): Live
    requires k in f.live && ConfOf(f, k.name).Some?
  {
    var conf := ConfOf(f, k.name).value;
    Installed(
      f.live[k], WorkloadFor(dep, k.name, conf, k.kind == DaemonSet, login, p), Written(f.secrets, dep, login))
  }

  /** The fleet with exactly the collectors of `keys` rebuilt from the configs they had in `f`. */
  function WithRebuilt(dep: string, f: Fleet, keys: set<Key>, login: Login, p: Platform): Fleet
    requires Rebuildable(f, keys)
  {
    Fleet(
      RebuiltMaps(f, keys, p),
      map k | k in f.live :: if k in keys then RebuiltLive(dep, f, k, login, p) else f.live[k],
      if keys == {} then f.secrets else Written(f.secrets, dep, login))
  }

  /** The fleet with exactly the collectors of `keys` given the login's hash, and so restarted. */
  function WithRestamped(dep: string, f: Fleet, keys: set<Key>, login: Login): Fleet {
    var secrets := Written(f.secrets, dep, login);
    Fleet(
      f.configMaps,
      map k | k in f.live :: if k in keys then Restamped(f.live[k], login, secrets) else f.live[k],
      secrets)
  }

  /** The fleet after a tick that acts: plaintext collectors rebuilt, stale ones restamped, the rest untouched. */
  function Reconciled(dep: string, f: Fleet, login: Login, p: Platform): Fleet {
    var rebuilt := WithRebuilt(dep, f, PlaintextKeys(dep, f), login, p);
    var stale := StaleKeys(dep, f, login);
    if stale == {} then rebuilt else WithRestamped(dep, rebuilt, stale, login)
  }

  /** `reconcile_creds_inner` as a whole: nothing without a password or without OpenSearch taking it. */
  function Ticked(dep: string, f: Fleet, login: Login, accepts: bool, p: Platform): Fleet {
    if login.password == "" || !accepts then f else Reconciled(dep, f, login, p)
  }

  // ── the steps of the loops ──────────────────────────────────────────

  lemma KeysThatPush(keys: set<Key>, k: Key, p: Key -> bool)
    ensures KeysThat(keys + {k}, p) == KeysThat(keys, p) + (if p(k) then {k} else {})
  {
  }

  lemma NamesPush(keys: set<Key>, k: Key)
    ensures Names(keys + {k}) == Names(keys) + {k.name}
  {
    assert k in keys + {k};
  }

  lemma MapsStep(f: Fleet, done: set<Key>, k: Key, p: Platform)
    requires Rebuildable(f, done + {k}) && k !in done
    ensures RebuiltMaps(f, done, p)[k.name := ConfigMapFor(k.name, ConfOf(f, k.name).value, p)]
         == RebuiltMaps(f, done + {k}, p)
  {
    NamesPush(done, k);
    assert k in done + {k};
  }

  lemma AppliedStep(dep: string, f: Fleet, done: set<Key>, k: Key, login: Login, p: Platform)
    requires Rebuildable(f, done + {k}) && k !in done
    ensures Applied(dep, WithRebuilt(dep, f, done, login, p), k, ConfOf(f, k.name).value, login, p)
         == WithRebuilt(dep, f, done + {k}, login, p)
  {
    assert k in done + {k};
    MapsStep(f, done, k, p);
    LiveStep(dep, f, done, k, login, p);
  }

  lemma LiveStep(dep: string, f: Fleet, done: set<Key>, k: Key, login: Login, p: Platform)
    requires Rebuildable(f, done + {k}) && k !in done && k in f.live && ConfOf(f, k.name).Some?
    ensures WithRebuilt(dep, f, done, login, p).live[k := RebuiltLive(dep, f, k, login, p)]
         == WithRebuilt(dep, f, done + {k}, login, p).live
  {
  }

  lemma RestampedStep(dep: string, f: Fleet, done: set<Key>, k: Key, login: Login)
    requires k in f.live && k !in done
    ensures var before := WithRestamped(dep, f, done, login);
            before.(live := before.live[k := Restamped(before.live[k], login, before.secrets)])
              == WithRestamped(dep, f, done + {k}, login)
  {
    var before := WithRestamped(dep, f, done, login);
    assert before.live[k := Restamped(before.live[k], login, before.secrets)]
        == WithRestamped(dep, f, done + {k}, login).live;
  }

  predicate Distinct(keys: seq<Key>) {
    forall i, j | 0 <= i < j < |keys| :: keys[i] != keys[j]
  }

  function KeySet(keys: seq<Key>): set<Key> {
    set k | k in keys
  }

  lemma KeySetPush(keys: seq<Key>, i: nat)
    requires i < |keys| && Distinct(keys)
    ensures KeySet(keys[..i + 1]) == KeySet(keys[..i]) + {keys[i]}
    ensures keys[i] !in KeySet(keys[..i])
  {
    assert keys[..i + 1] == keys[..i] + [keys[i]];
  }

  lemma Among(list: seq<Key>, i: nat, keys: set<Key>)
    requires i < |list| && KeySet(list) <= keys
    ensures list[i] in keys && KeySet(list[..i]) <= keys
  {
    assert list[i] in KeySet(list);
    forall k | k in KeySet(list[..i]) ensures k in keys {
      assert k in KeySet(list);
    }
  }

  lemma {:induction false} DistinctCount(keys: seq<Key>)
    requires Distinct(keys)
    ensures |KeySet(keys)| == |keys|
  {
    if keys != [] {
      KeySetPush(keys, |keys| - 1);
      assert keys[..|keys| - 1 + 1] == keys;
      DistinctCount(keys[..|keys| - 1]);
    }
  }

  lemma Pushed(keys: seq<Key>, k: Key)
    ensures KeySet(keys + [k]) == KeySet(keys) + {k}
    ensures Distinct(keys) && k !in keys ==> Distinct(keys + [k])
  {
    assert forall x | x in keys + [k] :: x in keys || x == k;
  }

  /** `list` names each key of `keys` once. */
  predicate Lists(list: seq<Key>, keys: set<Key>) {
    Distinct(list) && KeySet(list) == keys
  }

  class Cluster {
    var configMaps: map<string, ConfigMap>
    var live: map<Key, Live>
    var secrets: Secrets

    function State(): Fleet
      reads this
    {
      Fleet(configMaps, live, secrets)
    }

    constructor (f: Fleet)
      ensures State() == f
    {
      configMaps, live, secrets := f.configMaps, f.live, f.secrets;
    }

    /** `own_agents`: the owned workloads, each once; the API lists them in any order within a kind. */
    method OwnAgents(dep: string) returns (out: seq<Key>)
      ensures Lists(out, OwnKeys(dep, State()))
    {
      var f := State();
      out := [];
      ghost var seen: set<Key> := {};
      var todo := f.live.Keys;
      while todo != {}
        invariant seen !! todo && seen + todo == f.live.Keys
        invariant Lists(out, KeysThat(seen, Owned(dep, f)))
      {
        var daemonSets := set k | k in todo && k.kind == DaemonSet;
        var k :| k in todo && (daemonSets != {} ==> k in daemonSets);
        KeysThatPush(seen, k, Owned(dep, f));
        if Owns(dep, f, k) {
          Pushed(out, k);
          out := out + [k];
        }
        seen, todo := seen + {k}, todo - {k};
      }
    }

    /** The rows whose ConfigMap still carries a password, with their configs, and those that only carry an old one. */
    method Sort(agents: seq<Key>, login: Login) returns (plaintext: seq<Key>, confs: seq<string>, stale: seq<Key>)
      requires Distinct(agents) && KeySet(agents) <= live.Keys
      ensures Lists(plaintext, KeysThat(KeySet(agents), Plaintext(State())))
      ensures Lists(stale, KeysThat(KeySet(agents), Stale(State(), login)))
      ensures |confs| == |plaintext|
      ensures forall i | 0 <= i < |confs| :: ConfOf(State(), plaintext[i].name) == Some(confs[i])
    {
      var f := State();
      plaintext, confs, stale := [], [], [];
      for i := 0 to |agents|
        invariant Lists(plaintext, KeysThat(KeySet(agents[..i]), Plaintext(f)))
        invariant Lists(stale, KeysThat(KeySet(agents[..i]), Stale(f, login)))
        invariant |confs| == |plaintext|
        invariant forall j | 0 <= j < |confs| :: ConfOf(f, plaintext[j].name) == Some(confs[j])
      {
        var k := agents[i];
        KeySetPush(agents, i);
        KeysThatPush(KeySet(agents[..i]), k, Plaintext(f));
        KeysThatPush(KeySet(agents[..i]), k, Stale(f, login));
        Pushed(plaintext, k);
        Pushed(stale, k);
        var conf := ConfOf(f, k.name);
        var owned := false;
        if conf.Some? {
          var _, rebuilt := ExternalizePasswordLoop(conf.value);
          owned := rebuilt;
        }
        if owned {
          plaintext, confs := plaintext + [k], confs + [conf.value];
        } else if f.live[k].workload.credsHash != Some(login) {
          stale := stale + [k];
        }
      }
      assert agents[..|agents|] == agents;
    }

    /** `apply_agent_workload` for one collector. */
    method ApplyAgentWorkload(dep: string, k: Key, conf: string, login: Login, p: Platform)
      requires k in live
      modifies this
      ensures State() == Applied(dep, old(State()), k, conf, login, p)
    {
      secrets := secrets[CredsSecretName(dep) := CredsSecret(login)];
      var configMap, workload := BuildManifests(dep, k.name, conf, k.kind == DaemonSet, login, p);
      configMaps := configMaps[k.name := configMap];
      live := live[k := Installed(live[k], workload, secrets)];
    }

    /** The loop over the rows whose ConfigMap still carries a password. */
    method RebuildEach(dep: string, plaintext: seq<Key>, confs: seq<string>, login: Login, p: Platform)
      requires Distinct(plaintext) && KeySet(plaintext) <= live.Keys && |confs| == |plaintext|
      requires forall i | 0 <= i < |confs| :: ConfOf(State(), plaintext[i].name) == Some(confs[i])
      modifies this
      ensures Rebuildable(old(State()), KeySet(plaintext))
      ensures State() == WithRebuilt(dep, old(State()), KeySet(plaintext), login, p)
    {
      ghost var f := State();
      RebuiltNone(dep, f, login, p);
      for i := 0 to |plaintext|
        invariant Rebuildable(f, KeySet(plaintext[..i]))
        invariant State() == WithRebuilt(dep, f, KeySet(plaintext[..i]), login, p)
      {
        Among(plaintext, i, f.live.Keys);
        KeySetPush(plaintext, i);
        AppliedStep(dep, f, KeySet(plaintext[..i]), plaintext[i], login, p);
        ApplyAgentWorkload(dep, plaintext[i], confs[i], login, p);
      }
      assert plaintext[..|plaintext|] == plaintext;
    }

    /** The Secret, and the loop over the rows that only carry an old login. */
    method RestampEach(dep: string, stale: seq<Key>, login: Login)
      requires Distinct(stale) && KeySet(stale) <= live.Keys
      modifies this
      ensures State() == WithRestamped(dep, old(State()), KeySet(stale), login)
    {
      ghost var f := State();
      secrets := secrets[CredsSecretName(dep) := CredsSecret(login)];
      for i := 0 to |stale|
        invariant State() == WithRestamped(dep, f, KeySet(stale[..i]), login)
      {
        Among(stale, i, f.live.Keys);
        KeySetPush(stale, i);
        RestampedStep(dep, f, KeySet(stale[..i]), stale[i], login);
        live := live[stale[i] := Restamped(live[stale[i]], login, secrets)];
      }
      assert stale[..|stale|] == stale;
    }

    /** `reconcile_creds_inner` for the Fluent Bit collectors; `n` is how many it brought up to date. */
    method ReconcileCreds(dep: string, login: Login, accepts: bool, p: Platform) returns (n: nat)
      modifies this
      ensures State() == Ticked(dep, old(State()), login, accepts, p)
      ensures n == if login.password == "" || !accepts then 0
                   else |PlaintextKeys(dep, old(State()))| + |StaleKeys(dep, old(State()), login)|
    {
      if login.password == "" {
        return 0;
      }
      ghost var f := State();
      var agents := OwnAgents(dep);
      var plaintext, confs, stale := Sort(agents, login);
      DistinctCount(plaintext);
      DistinctCount(stale);
      if plaintext == [] && stale == [] {
        NothingDone(dep, f, login, p);
        return 0;
      }
      if !accepts {
        return 0;
      }
      RebuildEach(dep, plaintext, confs, login, p);
      if stale != [] {
        RestampEach(dep, stale, login);
      }
      n := |plaintext| + |stale|;
    }
  }

  lemma RebuiltNone(dep: string, f: Fleet, login: Login, p: Platform)
    ensures WithRebuilt(dep, f, {}, login, p) == f
  {
    assert WithRebuilt(dep, f, {}, login, p).configMaps == f.configMaps;
    assert WithRebuilt(dep, f, {}, login, p).live == f.live;
  }

  lemma NothingDone(dep: string, f: Fleet, login: Login, p: Platform)
    requires PlaintextKeys(dep, f) == {} && StaleKeys(dep, f, login) == {}
    ensures Reconciled(dep, f, login, p) == f
  {
    RebuiltNone(dep, f, login, p);
  }

  // ── what a tick that acts leaves behind ─────────────────────────────

  /** Each collector is rebuilt, restamped or untouched, and none changes hands. */
  lemma ReconciledAt(dep: string, f: Fleet, login: Login, p: Platform, k: Key)
    requires k in f.live
    ensures var g := Reconciled(dep, f, login, p);
            && g.live.Keys == f.live.Keys
            && g.live[k] == (if k in PlaintextKeys(dep, f) then RebuiltLive(dep, f, k, login, p)
                             else if k in StaleKeys(dep, f, login)
                             then Restamped(f.live[k], login, Written(f.secrets, dep, login))
                             else f.live[k])
            && (Owns(dep, g, k) <==> Owns(dep, f, k))
  {
    ReconciledLive(dep, f, login, p, k);
  }

  lemma ReconciledLive(dep: string, f: Fleet, login: Login, p: Platform, k: Key)
    requires k in f.live
    ensures var g := Reconciled(dep, f, login, p);
            && g.live.Keys == f.live.Keys
            && g.live[k] == (if k in PlaintextKeys(dep, f) then RebuiltLive(dep, f, k, login, p)
                             else if k in StaleKeys(dep, f, login)
                             then Restamped(f.live[k], login, Written(f.secrets, dep, login))
                             else f.live[k])
  {
    var rebuilt := WithRebuilt(dep, f, PlaintextKeys(dep, f), login, p);
    assert k in StaleKeys(dep, f, login) ==> k !in PlaintextKeys(dep, f);
    assert Written(rebuilt.secrets, dep, login) == Written(f.secrets, dep, login);
  }

  /** A rebuild that changes nothing in the pod template, and a template that is up to date, restart no pod. */
  lemma SameTemplateStays(dep: string, f: Fleet, login: Login, p: Platform, k: Key)
    requires k in f.live && Reconciled(dep, f, login, p).live[k].workload == f.live[k].workload
    ensures Reconciled(dep, f, login, p).live[k] == f.live[k]
  {
    ReconciledAt(dep, f, login, p, k);
  }

  lemma ConfAfter(dep: string, f: Fleet, login: Login, p: Platform, name: string)
    ensures ConfOf(Reconciled(dep, f, login, p), name)
         == if name in Names(PlaintextKeys(dep, f))
            then Some(Normalised(ConfOf(f, name).value, p.ns)) else ConfOf(f, name)
  {
    if name in Names(PlaintextKeys(dep, f)) {
      KeysDiffer();
      assert ConfigMapFor(name, ConfOf(f, name).value, p).data[CONF_KEY] == Normalised(ConfOf(f, name).value, p.ns);
    }
  }

  /** A tick that acts installs anew, from its own config, each collector whose config carries a password. */
  lemma PlaintextIsRebuilt(dep: string, f: Fleet, login: Login, p: Platform, k: Key, conf: string)
    requires k in OwnKeys(dep, f) && k.name in f.configMaps
    requires "fluent-bit.conf" in f.configMaps[k.name].data && f.configMaps[k.name].data["fluent-bit.conf"] == conf
    requires AnyLine(Lines(conf), IsPlain)
    ensures var g := Reconciled(dep, f, login, p);
            && g.configMaps[k.name] == ConfigMapFor(k.name, conf, p)
            && g.live[k].workload == WorkloadFor(dep, k.name, conf, k.kind == DaemonSet, login, p)
  {
    ReconciledAt(dep, f, login, p, k);
    assert k.name in Names(PlaintextKeys(dep, f));
  }

  lemma NoLongerPlaintext(dep: string, f: Fleet, login: Login, p: Platform, k: Key)
    requires IsNamespace(p.ns) && k in OwnKeys(dep, f)
    ensures !IsPlaintext(Reconciled(dep, f, login, p), k.name)
  {
    ConfAfter(dep, f, login, p, k.name);
    if k.name in Names(PlaintextKeys(dep, f)) {
      NoPasswordLeft(ConfOf(f, k.name).value, p.ns);
    } else {
      assert k !in PlaintextKeys(dep, f);
    }
  }

  /** One tick is enough: right after one that acts, the next finds nothing plaintext and nothing stale. */
  lemma SecondTickFindsNothing(dep: string, f: Fleet, login: Login, p: Platform)
    requires IsNamespace(p.ns)
    ensures var g := Reconciled(dep, f, login, p);
            && PlaintextKeys(dep, g) == {} && StaleKeys(dep, g, login) == {}
            && Reconciled(dep, g, login, p) == g
  {
    var g := Reconciled(dep, f, login, p);
    forall k | k in OwnKeys(dep, g) ensures !IsPlaintext(g, k.name) && !IsStale(g, k, login) {
      ReconciledAt(dep, f, login, p, k);
      NoLongerPlaintext(dep, f, login, p, k);
    }
    NothingDone(dep, g, login, p);
  }

  /** The template has the pods read their password from the deployment's Secret. */
  predicate Wired(dep: string, w: Workload) {
    var v := PasswordVariable(w.containers);
    v.Some? && v.value.secret == CredsSecretName(dep) && v.value.key == CREDS_PASSWORD
  }

  /** Wired, or reading no password at all. */
  predicate WellWired(dep: string, w: Workload) {
    PasswordVariable(w.containers).Some? ==> Wired(dep, w)
  }

  lemma BuiltIsWired(dep: string, agent: string, conf: string, tailsLogs: bool, login: Login, p: Platform)
    ensures Wired(dep, WorkloadFor(dep, agent, conf, tailsLogs, login, p))
  {
    TheVariableExpands();
  }

  lemma StampedIsWired(dep: string, w: Workload, login: Login)
    ensures Wired(dep, w.(credsHash := Some(login))) <==> Wired(dep, w)
    ensures WellWired(dep, w.(credsHash := Some(login))) <==> WellWired(dep, w)
  {
  }

  /** A wired template's new pods run with the password written. */
  lemma StartedReads(dep: string, w: Workload, running: string, secrets: Secrets, login: Login)
    ensures var started := Started(w, running, Written(secrets, dep, login));
            && started.workload == w
            && (Wired(dep, w) ==> started.running == login.password)
            && (WellWired(dep, w) ==> started.running in {running, login.password})
  {
    CredsKeysDiffer();
  }

  lemma SecretNamesDiffer(a: string, b: string)
    ensures CredsSecretName(a) == CredsSecretName(b) ==> a == b
  {
    if CredsSecretName(a) == CredsSecretName(b) {
      MiddleIsUnique("velox-agent-", a, b, "-creds");
    }
  }

  /** An installed collector belongs to the deployment it was installed for, and to no other. */
  lemma InstalledIsOwned(
    dep: string, id: string, f: Fleet, k: Key, conf: string, login: Login, p: Platform, other: string)
    requires k in f.live && k.name == AgentName(dep, id)
    requires f.live[k].workload == WorkloadFor(dep, k.name, conf, k.kind == DaemonSet, login, p)
    ensures Owns(other, f, k) <==> other == dep
  {
    assert k.name == Prefix(dep) + id;
  }

  /** Kind and name of the object are those it is listed under. */
  predicate Keyed(k: Key, live: Live) {
    live.workload.kind == k.kind && live.workload.name == k.name
  }

  /**
   A tick touches its own deployment's collectors only, keeps each the object it is,
   and moves a collector to no password but its own.
   */
  lemma TickStaysAtHome(dep: string, f: Fleet, login: Login, accepts: bool, p: Platform, k: Key)
    requires k in f.live
    ensures var g := Ticked(dep, f, login, accepts, p);
            && g.live.Keys == f.live.Keys
            && g.live[k].workload.target == f.live[k].workload.target
            && (!("velox-agent-" + dep + "-" <= k.name && f.live[k].workload.target == Some(dep)) ==>
                  g.live[k] == f.live[k])
            && (Keyed(k, f.live[k]) ==> Keyed(k, g.live[k]))
            && (WellWired(dep, f.live[k].workload) ==>
                  && WellWired(dep, g.live[k].workload)
                  && (g.live[k].running == f.live[k].running || (accepts && g.live[k].running == login.password)))
  {
    ReconciledAt(dep, f, login, p, k);
    var secrets := Written(f.secrets, dep, login);
    if k in PlaintextKeys(dep, f) {
      var w := WorkloadFor(dep, k.name, ConfOf(f, k.name).value, k.kind == DaemonSet, login, p);
      BuiltIsWired(dep, k.name, ConfOf(f, k.name).value, k.kind == DaemonSet, login, p);
      StartedReads(dep, w, f.live[k].running, f.secrets, login);
    } else if k in StaleKeys(dep, f, login) {
      StampedIsWired(dep, f.live[k].workload, login);
      StartedReads(dep, f.live[k].workload.(credsHash := Some(login)), f.live[k].running, f.secrets, login);
    }
  }

  /** And its own Secret and configs only. */
  lemma TickWritesAtHome(dep: string, f: Fleet, login: Login, accepts: bool, p: Platform)
    ensures var g := Ticked(dep, f, login, accepts, p);
            && (g.secrets == f.secrets || (accepts && g.secrets == Written(f.secrets, dep, login)))
            && (forall d | d != dep && CredsSecretName(d) in f.secrets ::
                  CredsSecretName(d) in g.secrets && g.secrets[CredsSecretName(d)] == f.secrets[CredsSecretName(d)])
            && g.configMaps.Keys == f.configMaps.Keys
            && (forall n | n in f.configMaps && !IsPlaintext(f, n) :: g.configMaps[n] == f.configMaps[n])
  {
    forall d | d != dep ensures CredsSecretName(d) != CredsSecretName(dep) {
      SecretNamesDiffer(d, dep);
    }
    assert Written(Written(f.secrets, dep, login), dep, login) == Written(f.secrets, dep, login);
  }

  predicate HoldsLogin(dep: string, f: Fleet, login: Login) {
    CredsSecretName(dep) in f.secrets && f.secrets[CredsSecretName(dep)] == CredsSecret(login)
  }

  /** The hash on a collector's pod template is of the login its Secret holds, and its pods run with that password. */
  predicate Consistent(dep: string, f: Fleet) {
    forall k | k in OwnKeys(dep, f) && f.live[k].workload.credsHash.Some? ::
      var login := f.live[k].workload.credsHash.value;
      HoldsLogin(dep, f, login) && (Wired(dep, f.live[k].workload) ==> f.live[k].running == login.password)
  }

  /** The collector takes a password: its config still has one, or its template reads one. */
  predicate TakesPassword(dep: string, f: Fleet, k: Key) {
    k in f.live && (IsPlaintext(f, k.name) || Wired(dep, f.live[k].workload))
  }

  /** The collector's template is stamped with the login, and its Secret holds it. */
  predicate UpToDate(dep: string, f: Fleet, k: Key, login: Login) {
    k in f.live && f.live[k].workload.credsHash == Some(login) && HoldsLogin(dep, f, login)
  }

  /** And its pods read the password and run with it. */
  predicate RunsWith(dep: string, f: Fleet, k: Key, login: Login) {
    UpToDate(dep, f, k, login) && Wired(dep, f.live[k].workload) && f.live[k].running == login.password
  }

  lemma ActingTickWrites(dep: string, f: Fleet, login: Login, p: Platform, k: Key)
    requires k in PlaintextKeys(dep, f) || k in StaleKeys(dep, f, login)
    ensures HoldsLogin(dep, Reconciled(dep, f, login, p), login)
  {
  }

  lemma BroughtUp(dep: string, f: Fleet, login: Login, p: Platform, k: Key)
    requires Consistent(dep, f) && k in OwnKeys(dep, f)
    ensures var g := Reconciled(dep, f, login, p);
            && UpToDate(dep, g, k, login)
            && (Wired(dep, g.live[k].workload) ==> RunsWith(dep, g, k, login))
            && (TakesPassword(dep, f, k) ==> RunsWith(dep, g, k, login))
  {
    ReconciledAt(dep, f, login, p, k);
    if k in PlaintextKeys(dep, f) {
      var w := WorkloadFor(dep, k.name, ConfOf(f, k.name).value, k.kind == DaemonSet, login, p);
      BuiltIsWired(dep, k.name, ConfOf(f, k.name).value, k.kind == DaemonSet, login, p);
      StartedReads(dep, w, f.live[k].running, f.secrets, login);
      ActingTickWrites(dep, f, login, p, k);
    } else if k in StaleKeys(dep, f, login) {
      StampedIsWired(dep, f.live[k].workload, login);
      StartedReads(dep, f.live[k].workload.(credsHash := Some(login)), f.live[k].running, f.secrets, login);
      ActingTickWrites(dep, f, login, p, k);
    } else {
      TickWritesAtHome(dep, f, login, true, p);
    }
  }

  /** After a tick with an accepted password every collector of the deployment that takes one runs with it. */
  lemma TickBringsEveryoneUp(dep: string, f: Fleet, login: Login, p: Platform)
    requires Consistent(dep, f)
    ensures var g := Reconciled(dep, f, login, p);
            && Consistent(dep, g)
            && OwnKeys(dep, g) == OwnKeys(dep, f)
            && (forall k | k in OwnKeys(dep, g) :: UpToDate(dep, g, k, login))
            && (forall k | k in OwnKeys(dep, f) && TakesPassword(dep, f, k) :: RunsWith(dep, g, k, login))
  {
    var g := Reconciled(dep, f, login, p);
    SameOwners(dep, f, login, p);
    forall k | k in OwnKeys(dep, f)
      ensures UpToDate(dep, g, k, login)
      ensures Wired(dep, g.live[k].workload) ==> g.live[k].running == login.password
      ensures TakesPassword(dep, f, k) ==> RunsWith(dep, g, k, login)
    {
      BroughtUp(dep, f, login, p, k);
    }
  }

  lemma SameOwners(dep: string, f: Fleet, login: Login, p: Platform)
    ensures OwnKeys(dep, Reconciled(dep, f, login, p)) == OwnKeys(dep, f)
  {
    var g := Reconciled(dep, f, login, p);
    assert g.live.Keys == f.live.Keys;
    forall k | k in f.live ensures Owns(dep, g, k) <==> Owns(dep, f, k) {
      ReconciledAt(dep, f, login, p, k);
    }
  }
}
