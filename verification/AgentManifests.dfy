/**
 The collector's ConfigMap and workload (src/agents.rs), and the decision that
 repairs a k8s-events collector shipped before its prune filter. Manifests keep the
 fields the decisions read; a hash is its input, which makes it injective.
 */
module AgentManifests {
  import opened Text
  import opened AgentConfig

  const CONF_KEY: string := "fluent-bit.conf"
  const CONF_PATH: string := "/fluent-bit/etc/fluent-bit.conf"
  const PRUNE_LUA_KEY: string := "prune.lua"
  const APP_LABEL: string := "app"
  const PASSWORD_ENV: string := "VELOX_OS_PASSWORD"
  const EVENTS_RECIPE: string := "k8s-events"

  datatype Login = Login(user: string, password: string)

  datatype Kind = DaemonSet | Deployment

  datatype Mount = Mount(name: string, mountPath: string, subPath: Option<string>)

  datatype Volume = FromConfigMap(name: string, configMap: string) | FromHost(name: string, path: string)

  /** An environment variable read from a key of a Secret. */
  datatype SecretEnv = SecretEnv(name: string, secret: string, key: string)

  datatype Container = Container(env: seq<SecretEnv>, mounts: seq<Mount>)

  datatype ConfHash = ConfHash(conf: string, script: Option<string>)

  datatype Workload = Workload(
    kind: Kind,
    name: string,
    labels: map<string, string>,
    target: Option<string>,
    confHash: Option<ConfHash>,
    credsHash: Option<Login>,
    containers: seq<Container>,
    volumes: seq<Volume>)

  datatype ConfigMap = ConfigMap(name: string, data: map<string, string>)

  function AgentName(dep: string, id: string): string {
    "velox-agent-" + dep + "-" + id
  }

  function CredsSecretName(dep: string): string {
    "velox-agent-" + dep + "-creds"
  }

  // ── the credentials Secret ──────────────────────────────────────────

  const CREDS_USER: string := "username"
  const CREDS_PASSWORD: string := "password"

  type Secrets = map<string, map<string, string>>

  /** `creds_secret`: what the Secret of a deployment's collectors holds. */
  function CredsSecret(login: Login): map<string, string> {
    map[CREDS_USER := login.user, CREDS_PASSWORD := login.password]
  }

  /** Fluent Bit expands the variable where the config names it. */
  predicate Expands(e: SecretEnv) {
    "${" + e.name + "}" == PASSWORD_REF
  }

  /** The variable of a container that the config's reference expands to, if it has one. */
  function VariableIn(env: seq<SecretEnv>): Option<SecretEnv> {
    if env == [] then None else if Expands(env[0]) then Some(env[0]) else VariableIn(env[1..])
  }

  function PasswordVariable(containers: seq<Container>): Option<SecretEnv> {
    if containers == [] then None
    else
      var v := VariableIn(containers[0].env);
      if v.Some? then v else PasswordVariable(containers[1..])
  }

  /** What a pod that starts now reads as its password. */
  function PasswordRead(w: Workload, secrets: Secrets): Option<string> {
    var v := PasswordVariable(w.containers);
    if v.Some? && v.value.secret in secrets && v.value.key in secrets[v.value.secret]
    then Some(secrets[v.value.secret][v.value.key]) else None
  }

  // ── the builder ─────────────────────────────────────────────────────

  /** What the platform gives the builder: its own namespace and the static script. */
  datatype Platform = Platform(ns: string, script: string)

  predicate RunsScript(conf: string) {
    Contains(conf, PRUNE_LUA_PATH)
  }

  /** The ConfigMap holds the normalised config, and the script exactly when the config runs it. */
  function ConfigMapFor(agent: string, conf: string, p: Platform): ConfigMap {
    var deployed := Normalised(conf, p.ns);
    var conf := map[CONF_KEY := deployed];
    ConfigMap(agent, if RunsScript(deployed) then conf[PRUNE_LUA_KEY := p.script] else conf)
  }

  function MountsFor(deployed: string, tailsLogs: bool): seq<Mount> {
    var config := Mount("config", CONF_PATH, Some(CONF_KEY));
    var script := Mount("config", PRUNE_LUA_PATH, Some(PRUNE_LUA_KEY));
    var varlog := Mount("varlog", "/var/log", None);
    match (RunsScript(deployed), tailsLogs)
    case (true, true) => [config, script, varlog]
    case (true, false) => [config, script]
    case (false, true) => [config, varlog]
    case (false, false) => [config]
  }

  function WorkloadFor(dep: string, agent: string, conf: string, tailsLogs: bool, login: Login, p: Platform): Workload {
    var deployed := Normalised(conf, p.ns);
    Workload(
      if tailsLogs then DaemonSet else Deployment,
      agent,
      map[APP_LABEL := agent],
      Some(dep),
      Some(ConfHash(deployed, if RunsScript(deployed) then Some(p.script) else None)),
      Some(login),
      [Container([SecretEnv(PASSWORD_ENV, CredsSecretName(dep), CREDS_PASSWORD)], MountsFor(deployed, tailsLogs))],
      VolumesFor(agent, tailsLogs))
  }

  function VolumesFor(agent: string, tailsLogs: bool): seq<Volume> {
    var config := FromConfigMap("config", agent);
    if tailsLogs then [config, FromHost("varlog", "/var/log")] else [config]
  }

  /** `agent_manifests`: the two objects, built by pushing what the config and the kind call for. */
  method BuildManifests(dep: string, agent: string, conf: string, tailsLogs: bool, login: Login, p: Platform)
    returns (configMap: ConfigMap, workload: Workload)
    ensures configMap == ConfigMapFor(agent, conf, p)
    ensures workload == WorkloadFor(dep, agent, conf, tailsLogs, login, p)
  {
    var external, _ := ExternalizePasswordLoop(conf);
    var excluded := ExcludePlatformLoops(external, p.ns);
    var deployed := PruneEvents(excluded);
    var prune := RunsScript(deployed);
    var data := map[CONF_KEY := deployed];
    var mounts := [Mount("config", CONF_PATH, Some(CONF_KEY))];
    var volumes := [FromConfigMap("config", agent)];
    if prune {
      data := data[PRUNE_LUA_KEY := p.script];
      mounts := mounts + [Mount("config", PRUNE_LUA_PATH, Some(PRUNE_LUA_KEY))];
    }
    if tailsLogs {
      mounts := mounts + [Mount("varlog", "/var/log", None)];
      volumes := volumes + [FromHost("varlog", "/var/log")];
    }
    configMap := ConfigMap(agent, data);
    assert mounts == MountsFor(deployed, tailsLogs) && volumes == VolumesFor(agent, tailsLogs);
    var container := Container([SecretEnv(PASSWORD_ENV, CredsSecretName(dep), CREDS_PASSWORD)], mounts);
    var confHash := ConfHash(deployed, if prune then Some(p.script) else None);
    workload := Workload(
      if tailsLogs then DaemonSet else Deployment, agent, map[APP_LABEL := agent],
      Some(dep), Some(confHash), Some(login), [container], volumes);
  }

  /** Every mount has its volume; what it mounts from the ConfigMap is there, and everything there is mounted. */
  lemma ManifestsFit(dep: string, agent: string, conf: string, tailsLogs: bool, login: Login, p: Platform)
    ensures var cm, w := ConfigMapFor(agent, conf, p), WorkloadFor(dep, agent, conf, tailsLogs, login, p);
            var mounts := w.containers[0].mounts;
            && |w.containers| == 1
            && (forall m | m in mounts :: exists v | v in w.volumes :: v.name == m.name)
            && (forall v | v in w.volumes && v.FromConfigMap? :: v.configMap == cm.name)
            && (forall m | m in mounts && m.subPath.Some? :: m.subPath.value in cm.data)
            && (forall k | k in cm.data :: exists m | m in mounts :: m.subPath == Some(k))
            && (PRUNE_LUA_KEY in cm.data <==> RunsScript(cm.data[CONF_KEY]))
            && (tailsLogs <==> exists v | v in w.volumes :: v.FromHost?)
            && (tailsLogs <==> w.kind == DaemonSet)
            && w.labels == map["app" := agent]
  {
    KeysDiffer();
    MountsHaveVolumes(agent, Normalised(conf, p.ns), tailsLogs);
    MountsHaveKeys(Normalised(conf, p.ns), tailsLogs);
  }

  lemma MountsHaveVolumes(agent: string, deployed: string, tailsLogs: bool)
    ensures var volumes := VolumesFor(agent, tailsLogs);
            && (forall m | m in MountsFor(deployed, tailsLogs) :: exists v | v in volumes :: v.name == m.name)
            && (forall v | v in volumes && v.FromConfigMap? :: v.configMap == agent)
            && (tailsLogs <==> exists v | v in volumes :: v.FromHost?)
  {
    var volumes := VolumesFor(agent, tailsLogs);
    assert volumes[0].name == "config" && volumes[0] in volumes;
    if tailsLogs {
      assert volumes[1].FromHost? && volumes[1].name == "varlog" && volumes[1] in volumes;
    }
  }

  /** The keys of the ConfigMap that are mounted, all of them and no others. */
  lemma MountsHaveKeys(deployed: string, tailsLogs: bool)
    ensures var mounts := MountsFor(deployed, tailsLogs);
            var keys := if RunsScript(deployed) then {CONF_KEY, PRUNE_LUA_KEY} else {CONF_KEY};
            && (forall m | m in mounts && m.subPath.Some? :: m.subPath.value in keys)
            && (forall k | k in keys :: exists m | m in mounts :: m.subPath == Some(k))
  {
    var mounts := MountsFor(deployed, tailsLogs);
    assert mounts[0].subPath == Some(CONF_KEY) && mounts[0] in mounts;
    if RunsScript(deployed) {
      assert mounts[1].subPath == Some(PRUNE_LUA_KEY) && mounts[1] in mounts;
    }
  }

  /** The pods find the text at that path: a mount of the ConfigMap's key that holds it. */
  predicate FindsFile(w: Workload, cm: ConfigMap, path: string, text: string) {
    exists c, m | c in w.containers && m in c.mounts ::
      && m.mountPath == path && FromConfigMap(m.name, cm.name) in w.volumes
      && m.subPath.Some? && m.subPath.value in cm.data && cm.data[m.subPath.value] == text
  }

  /** The pods see that directory of their node. */
  predicate SeesNode(w: Workload, path: string) {
    exists c, m | c in w.containers && m in c.mounts ::
      m.mountPath == path && m.subPath.None? && FromHost(m.name, path) in w.volumes
  }

  /** What a built collector finds on disk, and nothing else: its config, and the script it runs. */
  lemma PodFinds(
    dep: string, agent: string, conf: string, tailsLogs: bool, login: Login, p: Platform, path: string, text: string)
    ensures var cm, w := ConfigMapFor(agent, conf, p), WorkloadFor(dep, agent, conf, tailsLogs, login, p);
            var deployed := Normalised(conf, p.ns);
            FindsFile(w, cm, path, text) <==>
              || (path == "/fluent-bit/etc/fluent-bit.conf" && text == deployed)
              || (path == "/fluent-bit/etc/prune.lua" && text == p.script && RunsScript(deployed))
  {
    var cm, w := ConfigMapFor(agent, conf, p), WorkloadFor(dep, agent, conf, tailsLogs, login, p);
    var deployed := Normalised(conf, p.ns);
    var c := w.containers[0];
    KeysDiffer();
    MountsAre(deployed, tailsLogs);
    assert c in w.containers && c.mounts == MountsFor(deployed, tailsLogs) && w.volumes[0] in w.volumes;
    assert cm.data[CONF_KEY] == deployed && (RunsScript(deployed) ==> cm.data[PRUNE_LUA_KEY] == p.script);
  }

  /** And of its node, the logs exactly when it tails them. */
  lemma PodSeesNode(
    dep: string, agent: string, conf: string, tailsLogs: bool, login: Login, p: Platform, path: string)
    ensures SeesNode(WorkloadFor(dep, agent, conf, tailsLogs, login, p), path) <==> tailsLogs && path == "/var/log"
  {
    var w := WorkloadFor(dep, agent, conf, tailsLogs, login, p);
    var deployed := Normalised(conf, p.ns);
    var c := w.containers[0];
    MountsAre(deployed, tailsLogs);
    assert c in w.containers && c.mounts == MountsFor(deployed, tailsLogs);
    assert tailsLogs ==> w.volumes[1] in w.volumes;
  }

  lemma MountsAre(deployed: string, tailsLogs: bool)
    ensures forall m :: m in MountsFor(deployed, tailsLogs) <==>
      || m == Mount("config", CONF_PATH, Some(CONF_KEY))
      || (RunsScript(deployed) && m == Mount("config", PRUNE_LUA_PATH, Some(PRUNE_LUA_KEY)))
      || (tailsLogs && m == Mount("varlog", "/var/log", None))
  {
    var mounts := MountsFor(deployed, tailsLogs);
    assert mounts[0] in mounts && mounts[|mounts| - 1] in mounts;
    assert RunsScript(deployed) ==> mounts[1] in mounts;
  }

  /** Once the deployment's Secret holds a login, every built collector's pods read its password. */
  lemma BuiltReadsThePassword(
    dep: string, agent: string, conf: string, tailsLogs: bool, built: Login, login: Login, p: Platform,
    secrets: Secrets)
    requires CredsSecretName(dep) in secrets && secrets[CredsSecretName(dep)] == CredsSecret(login)
    ensures var w := WorkloadFor(dep, agent, conf, tailsLogs, built, p);
            && PasswordRead(w, secrets) == Some(login.password)
            && exists e | e in w.containers[0].env ::
                 "${" + e.name + "}" == PASSWORD_REF && e.secret == "velox-agent-" + dep + "-creds"
                 && e.key in CredsSecret(login) && CredsSecret(login)[e.key] == login.password
    ensures CredsSecret(login) == map["username" := login.user, "password" := login.password]
  {
    var w := WorkloadFor(dep, agent, conf, tailsLogs, built, p);
    CredsKeysDiffer();
    TheVariableExpands();
    assert w.containers[0].env[0] in w.containers[0].env;
  }

  lemma CredsKeysDiffer()
    ensures CREDS_USER != CREDS_PASSWORD
  {
    assert CREDS_USER[0] != CREDS_PASSWORD[0];
  }

  lemma TheVariableExpands()
    ensures "${" + PASSWORD_ENV + "}" == PASSWORD_REF
  {
  }

  /** The pods restart exactly when what they read changes: the ConfigMap's content or the login. */
  lemma RestartsIffContentChanges(
    dep: string, agent: string, one: string, two: string, tailsLogs: bool, a: Login, b: Login, p: Platform, q: Platform)
    ensures WorkloadFor(dep, agent, one, tailsLogs, a, p) == WorkloadFor(dep, agent, two, tailsLogs, b, q)
      <==> ConfigMapFor(agent, one, p) == ConfigMapFor(agent, two, q) && a == b
  {
    KeysDiffer();
    var x, y := ConfigMapFor(agent, one, p).data, ConfigMapFor(agent, two, q).data;
    assert x[CONF_KEY] == Normalised(one, p.ns) && y[CONF_KEY] == Normalised(two, q.ns);
    assert RunsScript(x[CONF_KEY]) ==> x[PRUNE_LUA_KEY] == p.script;
    assert RunsScript(y[CONF_KEY]) ==> y[PRUNE_LUA_KEY] == q.script;
  }

  /** Building from what is deployed gives what is deployed. */
  lemma RebuildIsFixed(dep: string, agent: string, conf: string, tailsLogs: bool, login: Login, p: Platform)
    requires IsNamespace(p.ns)
    ensures ConfigMapFor(agent, Normalised(conf, p.ns), p) == ConfigMapFor(agent, conf, p)
    ensures WorkloadFor(dep, agent, Normalised(conf, p.ns), tailsLogs, login, p)
         == WorkloadFor(dep, agent, conf, tailsLogs, login, p)
  {
    NormalisedIdempotent(conf, p.ns);
  }

  /** A password shows in the pod template's credentials hash and nowhere else. */
  lemma OnlyTheHashKnowsThePassword(
    template: seq<TemplateLine>, dep: string, agent: string, tailsLogs: bool, one: Login, two: Login, p: Platform)
    requires ValidTemplate(template) && Unmistakable(one.password) && Unmistakable(two.password)
    ensures ConfigMapFor(agent, Render(template, one.password), p)
         == ConfigMapFor(agent, Render(template, two.password), p)
    ensures WorkloadFor(dep, agent, Render(template, one.password), tailsLogs, one, p).(credsHash := Some(two))
         == WorkloadFor(dep, agent, Render(template, two.password), tailsLogs, two, p)
  {
    PasswordIndependent(template, one.password, two.password, p.ns);
  }

  // ── the repair decision ─────────────────────────────────────────────

  predicate MountsScript(w: Workload) {
    exists i, j | 0 <= i < |w.containers| && 0 <= j < |w.containers[i].mounts| ::
      w.containers[i].mounts[j].mountPath == PRUNE_LUA_PATH
  }

  /** `events_collector_repair`: the config to re-apply, if the collector needs it. */
  function EventsCollectorRepair(dep: string, w: Workload, cm: ConfigMap, p: Platform): Option<string> {
    var agent := AgentName(dep, EVENTS_RECIPE);
    if !(APP_LABEL in w.labels && w.labels[APP_LABEL] == agent) || w.target != Some(dep) then None
    else if CONF_KEY !in cm.data then None
    else
      var conf := cm.data[CONF_KEY];
      if !Contains(conf, EVENTS_INPUT) then None
      else
        var desired := PruneEvents(conf);
        if !RunsScript(desired) then None
        else
          var hasFilter := desired == conf;
          var scriptCurrent := PRUNE_LUA_KEY in cm.data && cm.data[PRUNE_LUA_KEY] == p.script;
          if hasFilter && scriptCurrent && MountsScript(w) then None else Some(conf)
  }

  predicate IsEventsWatcher(dep: string, w: Workload, cm: ConfigMap) {
    && "app" in w.labels && w.labels["app"] == "velox-agent-" + dep + "-k8s-events"
    && w.target == Some(dep)
    && "fluent-bit.conf" in cm.data
    && Contains(cm.data["fluent-bit.conf"], EVENTS_INPUT)
    && (RunsScript(cm.data["fluent-bit.conf"]) || Contains(cm.data["fluent-bit.conf"], OUTPUT_MARK))
  }

  /** Some container has that path mounted. */
  predicate Mounts(w: Workload, path: string) {
    exists c, m | c in w.containers && m in c.mounts :: m.mountPath == path
  }

  lemma MountsScriptIff(w: Workload)
    ensures MountsScript(w) <==> Mounts(w, "/fluent-bit/etc/prune.lua")
  {
    if Mounts(w, PRUNE_LUA_PATH) {
      var c, m :| c in w.containers && m in c.mounts && m.mountPath == PRUNE_LUA_PATH;
      var i :| 0 <= i < |w.containers| && w.containers[i] == c;
      var j :| 0 <= j < |c.mounts| && c.mounts[j] == m;
      assert w.containers[i].mounts[j].mountPath == PRUNE_LUA_PATH;
    }
  }

  predicate IsRepaired(w: Workload, cm: ConfigMap, p: Platform) {
    && "fluent-bit.conf" in cm.data && RunsScript(cm.data["fluent-bit.conf"])
    && "prune.lua" in cm.data && cm.data["prune.lua"] == p.script
    && Mounts(w, "/fluent-bit/etc/prune.lua")
  }

  /**
   A collector is repaired exactly when it is this deployment's events watcher, its
   config has or can take the filter, and the filter, the current script or its
   mount is missing; and what is re-applied is the config it has.
   */
  lemma RepairedIff(dep: string, w: Workload, cm: ConfigMap, p: Platform)
    ensures EventsCollectorRepair(dep, w, cm, p).Some? <==> IsEventsWatcher(dep, w, cm) && !IsRepaired(w, cm, p)
    ensures EventsCollectorRepair(dep, w, cm, p).Some? ==>
              EventsCollectorRepair(dep, w, cm, p) == Some(cm.data["fluent-bit.conf"])
  {
    SameName(dep);
    MountsScriptIff(w);
    if CONF_KEY in cm.data && Contains(cm.data[CONF_KEY], EVENTS_INPUT) {
      PrunesIff(cm.data[CONF_KEY]);
    }
  }

  /** Whatever config a k8s-events collector was installed from, the installed collector needs no repair. */
  lemma InstalledNeedsNoRepair(dep: string, conf: string, login: Login, p: Platform)
    requires IsNamespace(p.ns)
    ensures var agent := AgentName(dep, EVENTS_RECIPE);
            var w := WorkloadFor(dep, agent, conf, false, login, p);
            EventsCollectorRepair(dep, w, ConfigMapFor(agent, conf, p), p).None?
  {
    var agent := AgentName(dep, EVENTS_RECIPE);
    var w := WorkloadFor(dep, agent, conf, false, login, p);
    var cm := ConfigMapFor(agent, conf, p);
    var deployed := Normalised(conf, p.ns);
    KeysDiffer();
    assert cm.data[CONF_KEY] == deployed;
    PruneIdempotent(ExcludePlatform(ExternalizePassword(conf), p.ns));
    if RunsScript(deployed) {
      assert w.containers[0].mounts[1].mountPath == PRUNE_LUA_PATH;
    }
  }

  /** And once the platform carries another script, every installed watcher is repaired with its own config. */
  lemma NewScriptRepairs(dep: string, conf: string, login: Login, p: Platform, q: Platform)
    requires RunsScript(Normalised(conf, p.ns)) && Contains(Normalised(conf, p.ns), EVENTS_INPUT)
    ensures var agent := "velox-agent-" + dep + "-k8s-events";
            var w := WorkloadFor(dep, agent, conf, false, login, p);
            EventsCollectorRepair(dep, w, ConfigMapFor(agent, conf, p), q)
              == if q.script == p.script then None else Some(Normalised(conf, p.ns))
  {
    var agent := AgentName(dep, EVENTS_RECIPE);
    var w := WorkloadFor(dep, agent, conf, false, login, p);
    KeysDiffer();
    PrunesIff(Normalised(conf, p.ns));
    assert ConfigMapFor(agent, conf, p).data[CONF_KEY] == Normalised(conf, p.ns);
    assert w.containers[0].mounts[1].mountPath == PRUNE_LUA_PATH;
    SameName(dep);
  }

  lemma SameName(dep: string)
    ensures AgentName(dep, EVENTS_RECIPE) == "velox-agent-" + dep + "-k8s-events"
  {
    assert "-" + EVENTS_RECIPE == "-k8s-events";
    assert AgentName(dep, EVENTS_RECIPE) == "velox-agent-" + dep + ("-" + EVENTS_RECIPE);
  }

  lemma KeysDiffer()
    ensures CONF_KEY != PRUNE_LUA_KEY
  {
    assert |CONF_KEY| != |PRUNE_LUA_KEY|;
  }

  /**
   A collector whose config is `conf`, or `conf` after any of the normalisation's
   steps, repairs to exactly the objects of a fresh install from `conf`, and the
   next decision leaves them alone.
   */
  lemma RepairIsAFreshInstall(dep: string, w: Workload, cm: ConfigMap, conf: string, login: Login, p: Platform)
    requires IsNamespace(p.ns)
    requires EventsCollectorRepair(dep, w, cm, p).Some?
    requires var external := ExternalizePassword(conf);
             cm.data[CONF_KEY] in {conf, external, ExcludePlatform(external, p.ns), Normalised(conf, p.ns)}
    ensures var agent := AgentName(dep, EVENTS_RECIPE);
            var again := EventsCollectorRepair(dep, w, cm, p).value;
            && ConfigMapFor(agent, again, p) == ConfigMapFor(agent, conf, p)
            && WorkloadFor(dep, agent, again, false, login, p) == WorkloadFor(dep, agent, conf, false, login, p)
            && EventsCollectorRepair(
                 dep, WorkloadFor(dep, agent, again, false, login, p), ConfigMapFor(agent, again, p), p).None?
  {
    PartlyNormalised(conf, p.ns);
    InstalledNeedsNoRepair(dep, conf, login, p);
  }
}
