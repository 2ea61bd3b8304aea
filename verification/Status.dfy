/**
 The status the daemon publishes (cmd/arca-routerd/metrics.go) and the consistency checks with which a
 collector accepts it (examples/nms/http_telemetry_collector.go): whatever the configuration,
 the datastore flags and the history of the synchronizer, what is published is accepted.
 */
module Status {
  import opened Wrappers
  import opened Text
  import opened ConfigModel
  import opened EngineSpec
  import opened Endpoints
  import Follower

  // ---- The datastore --------------------------------------------------------

  datatype DatastoreResult = Built(datastore: Datastore) | NotBuilt(cause: string)

  /** parseCommaList */
  method ParseCommaList(value: string) returns (result: seq<string>)
    ensures result == Normalized(SplitAt(value, ','))
  {
    result := TrimParts(SplitAt(value, ','));
  }

  /** The endpoints in a comma-separated flag. */
  function EndpointsFlag(value: string): seq<string> {
    Normalized(SplitAt(value, ','))
  }

  /** buildDatastoreConfig up to the credentials; mode is the trimmed lower-case flag. */
  method BuildDatastoreConfig(mode: string, endpoints: string) returns (r: DatastoreResult)
    ensures r.Built? <==> mode in {"", "sqlite"} || (mode == "etcd" && EndpointsFlag(endpoints) != [])
    ensures r.Built? ==> r.datastore == if mode == "etcd" then Datastore(Etcd, EndpointsFlag(endpoints))
            else Datastore(Sqlite, [])
    ensures r.Built? ==> DatastoreOk(r.datastore)
  {
    if mode == "" || mode == "sqlite" { return Built(Datastore(Sqlite, [])); }
    if mode != "etcd" { return NotBuilt("unsupported datastore backend: " + mode); }
    var parsed := ParseCommaList(endpoints);
    if |parsed| == 0 { return NotBuilt("etcd datastore requires --etcd-endpoints"); }
    NormalizedParts(SplitAt(endpoints, ','));
    NamesFirst(parsed);
    return Built(Datastore(Etcd, parsed));
  }

  lemma NamesFirst(s: seq<string>)
    requires |s| > 0 && s[0] != "" && Trimmed(s[0])
    ensures Names(s, s[0])
  {
    TrimSpaceFacts(s[0]);
  }

  ghost predicate NamesSome(endpoints: seq<string>) {
    exists x :: Names(endpoints, x)
  }

  /** What the flags can lead to: no endpoints with SQLite, at least one with etcd. */
  ghost predicate DatastoreOk(ds: Datastore) {
    match ds.backend
    case Sqlite => ds.etcdEndpoints == []
    case Etcd => NamesSome(ds.etcdEndpoints)
  }

  datatype DatastoreStatus = DatastoreStatus(backend: string, endpoints: seq<string>)

  /** The datastore part of metricsSource.snapshot. */
  method PublishDatastore(ds: Option<Datastore>) returns (m: DatastoreStatus)
    ensures m.backend == if ds.Some? && ds.value.backend == Etcd then "etcd" else "sqlite"
    ensures IsNormal(m.endpoints, if ds.Some? then ds.value.etcdEndpoints else [])
    ensures (ds.Some? ==> DatastoreOk(ds.value)) ==> AcceptsDatastore(m)
  {
    m := DatastoreStatus("sqlite", []);
    if ds.Some? {
      var endpoints := NormalizedEndpoints(ds.value.etcdEndpoints);
      assert forall x :: Names(ds.value.etcdEndpoints, x) ==> x in endpoints;
      if endpoints != [] { assert endpoints[0] in endpoints; }
      m := DatastoreStatus(if ds.value.backend == Etcd then "etcd" else "sqlite", endpoints);
    }
  }

  /** validateNMSStatusDatastoreConsistency */
  predicate AcceptsDatastore(m: DatastoreStatus) {
    || (m.backend == "sqlite" && m.endpoints == [])
    || (m.backend == "etcd" && m.endpoints != [])
  }

  // ---- Configuration synchronization ------------------------------------------

  /** Published times are cut to whole seconds; the zero time is left out. */
  datatype ConfigSync = ConfigSync(enabled: bool, healthy: bool, etcdRevision: nat, runningRevision: nat,
                                   commitID: string, lastCheck: Option<nat>, lastApply: Option<nat>, lastError: string)

  const SECOND := 1_000_000_000

  function PublishTime(t: nat): Option<nat> {
    if t == 0 then None else Some(t / SECOND)
  }

  function PublishSync(s: Option<Follower.SyncStatus>): ConfigSync {
    match s
    case None => ConfigSync(false, false, 0, 0, "", None, None, "")
    case Some(st) => ConfigSync(st.enabled, st.healthy, st.etcdRevision, st.runningRevision, st.commitID,
                                PublishTime(st.lastCheck), PublishTime(st.lastApply), st.lastError)
  }

  /** The second in which t lies; none for the zero time. */
  ghost predicate IsSecondOf(s: Option<nat>, t: nat) {
    && (s.None? <==> t == 0)
    && (s.Some? ==> s.value * 1_000_000_000 <= t < (s.value + 1) * 1_000_000_000)
  }

  /** Published is what the synchronizer says of itself, and nothing if there is none. */
  ghost predicate TellsSync(m: ConfigSync, s: Option<Follower.SyncStatus>) {
    if s.None? then
      && !m.enabled && !m.healthy && m.etcdRevision == m.runningRevision == 0 && m.commitID == m.lastError == ""
      && m.lastCheck.None? && m.lastApply.None?
    else
      && m.enabled == s.value.enabled && m.healthy == s.value.healthy && m.lastError == s.value.lastError
      && m.etcdRevision == s.value.etcdRevision && m.runningRevision == s.value.runningRevision
      && m.commitID == s.value.commitID
      && IsSecondOf(m.lastCheck, s.value.lastCheck) && IsSecondOf(m.lastApply, s.value.lastApply)
  }

  lemma PublishSyncTells(s: Option<Follower.SyncStatus>)
    ensures TellsSync(PublishSync(s), s)
  {
  }

  /** validateNMSStatusConfigSyncConsistency */
  predicate AcceptsSync(m: ConfigSync) {
    && (m.healthy ==> m.enabled && m.lastCheck.Some? && m.lastError == "")
    && (m.lastApply.Some? ==> m.lastCheck.Some? && m.lastApply.value <= m.lastCheck.value)
  }

  /** What every reconcile keeps, if the clock does not go back. */
  ghost predicate SyncOk(s: Follower.SyncStatus) {
    && s.enabled && s.lastApply <= s.lastCheck
    && (s.healthy ==> s.lastError == "" && s.lastCheck > 0)
    && (!s.healthy && s.lastCheck > 0 ==> s.lastError != "")
  }

  lemma ReconcileKeepsSyncOk(env: Env, core: Core, sync: Follower.Sync, now: nat, etcd: Option<Follower.EtcdStatus>,
                             load: Follower.Load, r: Replies)
    requires Sized(env, core, r) && SyncOk(sync.status) && 0 < now && sync.status.lastCheck <= now
    ensures var status := Follower.Reconcile(env, core, sync, now, etcd, load, r).sync.status;
            SyncOk(status) && status.lastCheck == now
  {
  }

  /** The ticks of a run carry times that do not go back. */
  ghost predicate ClockOk(actions: seq<Follower.Action>) {
    && (forall i :: 0 <= i < |actions| && actions[i].Tick? ==> actions[i].now > 0)
    && forall i, j :: 0 <= i < j < |actions| && actions[i].Tick? && actions[j].Tick? ==>
         actions[i].now <= actions[j].now
  }

  lemma {:induction false} RunsKeepSyncOk(env: Env, w: Follower.World, actions: seq<Follower.Action>)
    requires Follower.AllPossible(env, w, actions) && ClockOk(actions) && w.sync == Follower.FRESH
    ensures var status := Follower.Lives(env, w, actions).sync.status;
            SyncOk(status) && (status.lastCheck == 0 || exists i :: 0 <= i < |actions| && actions[i].Tick?
                                                          && actions[i].now == status.lastCheck)
    decreases |actions|
  {
    if actions != [] {
      var n := |actions| - 1;
      var before, last := actions[..n], actions[n];
      RunsKeepSyncOk(env, w, before);
      var v := Follower.Lives(env, w, before);
      if last.Tick? {
        ReconcileKeepsSyncOk(env, v.core, v.sync, last.now, Follower.Answer(v.history, last.reached, last.cluster),
                             Follower.Snapshotted(v.history + last.between, last.reading), last.replies);
      }
    }
  }

  /** After any run of the synchronizer, the published synchronization status is accepted. */
  lemma SyncIsAccepted(env: Env, w: Follower.World, actions: seq<Follower.Action>)
    requires Follower.AllPossible(env, w, actions) && ClockOk(actions) && w.sync == Follower.FRESH
    ensures AcceptsSync(PublishSync(None))
    ensures AcceptsSync(PublishSync(Some(Follower.Lives(env, w, actions).sync.status)))
  {
    RunsKeepSyncOk(env, w, actions);
    var s := Follower.Lives(env, w, actions).sync.status;
    SecondsKeepOrder(s.lastApply, s.lastCheck);
  }

  lemma SecondsKeepOrder(a: nat, b: nat)
    requires a <= b
    ensures a / SECOND <= b / SECOND
  {
  }

  // ---- The cluster ----------------------------------------------------------

  /** validateNMSStatusClusterSyncConsistency */
  predicate AcceptsCluster(m: ClusterMetrics) {
    (m.etcdSync ==> m.enabled) && (m.etcdSync <==> m.endpoints != [])
  }

  // ---- EVPN -----------------------------------------------------------------

  datatype Vni = Vni(kind: string, multicastGroup: string)

  datatype Overlay = Overlay(configured: bool, vnis: nat, l2: nat, l3: nat, multicast: nat)

  /** The entries of a map of pointers that are not nil and satisfy p. */
  ghost function Where<K, V>(m: map<K, Option<V>>, p: V -> bool): set<K> {
    set k | k in m && m[k].Some? && p(m[k].value)
  }

  /** The entries of which all but todo have been looked at. */
  ghost function Done<K, V>(m: map<K, Option<V>>, todo: set<K>, p: V -> bool): set<K> {
    Where(m, p) - todo
  }

  lemma LookAt<K, V>(m: map<K, Option<V>>, todo: set<K>, k: K, p: V -> bool)
    requires k in todo && k in m
    ensures |Done(m, todo - {k}, p)| == |Done(m, todo, p)| + if m[k].Some? && p(m[k].value) then 1 else 0
  {
    if m[k].Some? && p(m[k].value) {
      assert Done(m, todo - {k}, p) == Done(m, todo, p) + {k};
    } else {
      assert Done(m, todo - {k}, p) == Done(m, todo, p);
    }
  }

  predicate IsAny(v: Vni) { true }
  predicate IsL2(v: Vni) { v.kind == "l2" }
  predicate IsL3(v: Vni) { v.kind == "l3" }
  predicate IsMulticast(v: Vni) { v.multicastGroup != "" }

  /** The body of the loop in applyOverlayStatus. */
  function Tally(m: Overlay, vni: Option<Vni>): Overlay {
    match vni
    case None => m
    case Some(v) =>
      m.(vnis := m.vnis + 1,
         l2 := if v.kind == "l2" then m.l2 + 1 else m.l2,
         l3 := if v.kind == "l3" then m.l3 + 1 else m.l3,
         multicast := if v.multicastGroup != "" then m.multicast + 1 else m.multicast)
  }

  ghost predicate Tallied(vnis: map<int, Option<Vni>>, todo: set<int>, m: Overlay) {
    && m.vnis == |Done(vnis, todo, IsAny)| && m.l2 == |Done(vnis, todo, IsL2)|
    && m.l3 == |Done(vnis, todo, IsL3)| && m.multicast == |Done(vnis, todo, IsMulticast)|
  }

  lemma TallyStep(vnis: map<int, Option<Vni>>, todo: set<int>, m: Overlay, k: int)
    requires Tallied(vnis, todo, m) && k in todo && k in vnis
    ensures Tallied(vnis, todo - {k}, Tally(m, vnis[k]))
  {
    LookAt(vnis, todo, k, IsAny);
    LookAt(vnis, todo, k, IsL2);
    LookAt(vnis, todo, k, IsL3);
    LookAt(vnis, todo, k, IsMulticast);
  }

  lemma DoneEnds<K, V>(m: map<K, Option<V>>, p: V -> bool)
    ensures Done(m, {}, p) == Where(m, p) && Done(m, m.Keys, p) == {}
  {
  }

  lemma TallyEnds(vnis: map<int, Option<Vni>>, m: Overlay)
    ensures Tallied(vnis, {}, m) ==> && m.vnis == |Where(vnis, IsAny)| && m.l2 == |Where(vnis, IsL2)|
                                     && m.l3 == |Where(vnis, IsL3)| && m.multicast == |Where(vnis, IsMulticast)|
    ensures Tallied(vnis, vnis.Keys, Overlay(false, 0, 0, 0, 0))
  {
    DoneEnds(vnis, IsAny);
    DoneEnds(vnis, IsL2);
    DoneEnds(vnis, IsL3);
    DoneEnds(vnis, IsMulticast);
  }

  /** applyOverlayStatus: the counters count the VNIs of each kind, in whatever order the map is walked. */
  method OverlayStatus(vnis: map<int, Option<Vni>>) returns (m: Overlay)
    ensures m.vnis == |Where(vnis, IsAny)| && m.l2 == |Where(vnis, IsL2)| && m.l3 == |Where(vnis, IsL3)|
    ensures m.multicast == |Where(vnis, IsMulticast)| && (m.configured <==> m.vnis > 0)
  {
    m := Overlay(false, 0, 0, 0, 0);
    var todo := vnis.Keys;
    TallyEnds(vnis, m);
    while todo != {}
      invariant todo <= vnis.Keys && Tallied(vnis, todo, m)
    {
      var k := Pick(todo);
      TallyStep(vnis, todo, m, k);
      todo := todo - {k};
      m := Tally(m, vnis[k]);
    }
    TallyEnds(vnis, m);
    m := m.(configured := m.vnis > 0);
  }

  /** validateNMSStatusEVPNCounters */
  predicate AcceptsOverlay(m: Overlay) {
    && (m.configured <==> m.vnis > 0)
    && m.l2 <= m.vnis && m.l3 <= m.vnis && m.multicast <= m.vnis && m.l2 + m.l3 <= m.vnis
  }

  lemma OverlayIsAccepted(vnis: map<int, Option<Vni>>, m: Overlay)
    requires m.vnis == |Where(vnis, IsAny)| && m.l2 == |Where(vnis, IsL2)| && m.l3 == |Where(vnis, IsL3)|
    requires m.multicast == |Where(vnis, IsMulticast)| && (m.configured <==> m.vnis > 0)
    ensures AcceptsOverlay(m)
  {
    var all, l2, l3 := Where(vnis, IsAny), Where(vnis, IsL2), Where(vnis, IsL3);
    SubsetSize(Where(vnis, IsMulticast), all);
    SubsetSize(l2 + l3, all);
    assert l2 !! l3;
  }

  // ---- Class of service -----------------------------------------------------

  datatype ClassOfService = ClassOfService(
    classes: map<string, Option<string>>, profiles: map<string, Option<string>>, interfaces: map<string,
    Option<string>>)

  datatype CosStatus = CosStatus(configured: bool, intentOnly: bool, status: string, classes: nat, profiles: nat,
                                 bindings: nat)

  const NOT_CONFIGURED := "not configured"
  const INTENT_ONLY := "intent-only"

  /** countForwardingClasses, countTrafficControlProfiles and countClassOfServiceBindings. */
  method CountWhere(m: map<string, Option<string>>, p: string -> bool) returns (n: nat)
    ensures n == |Where(m, p)|
  {
    n := 0;
    var todo := m.Keys;
    assert Done(m, todo, p) == {};
    while todo != {}
      invariant todo <= m.Keys && n == |Done(m, todo, p)|
    {
      var k := Pick(todo);
      LookAt(m, todo, k, p);
      todo := todo - {k};
      if m[k].Some? && p(m[k].value) {
        n := n + 1;
      }
    }
    assert Done(m, {}, p) == Where(m, p);
  }

  /** applyClassOfServiceStatus; an interface counts if it has an output profile. */
  method CosStatusOf(cos: Option<ClassOfService>) returns (m: CosStatus)
    ensures AcceptsCos(m) && (m.configured <==> cos.Some?)
    ensures cos.Some? ==> m.classes == |Where(cos.value.classes, _ => true)|
    ensures cos.Some? ==> m.profiles == |Where(cos.value.profiles, _ => true)|
    ensures cos.Some? ==> m.bindings == |Where(cos.value.interfaces, p => p != "")|
  {
    m := CosStatus(false, false, NOT_CONFIGURED, 0, 0, 0);
    if cos.Some? {
      var classes := CountWhere(cos.value.classes, _ => true);
      var profiles := CountWhere(cos.value.profiles, _ => true);
      var bindings := CountWhere(cos.value.interfaces, p => p != "");
      m := CosStatus(true, true, INTENT_ONLY, classes, profiles, bindings);
    }
  }

  /** validateNMSStatusCoSConsistency */
  predicate AcceptsCos(m: CosStatus) {
    && m.intentOnly == m.configured && m.status == (if m.configured then INTENT_ONLY else NOT_CONFIGURED)
    && (!m.configured ==> m.classes == m.profiles == m.bindings == 0)
  }

  // ---- High availability ----------------------------------------------------

  /** What applyHAConvergenceStatus looks at besides the configuration; a time of 0 means never. */
  datatype Observations = Observations(
    syncEnabled: bool, syncHealthy: bool,
    vrrpLastRun: nat, vrrpError: string, vrrpObserved: nat, vrrpActive: nat, vrrpIssues: nat,
    bfdPeers: nat, bfdLastRun: nat, bfdError: string, bfdObserved: nat, bfdDown: nat, bfdUp: nat, bfdIssues: nat,
    hasVpp: bool, lcpLastRun: nat, lcpError: string, lcpIssues: nat)

  datatype HaStatus = HaStatus(configured: bool, converged: bool, groups: nat, issues: seq<string>)

  /** Nothing to complain about in the cluster part, in VRRP, in BFD and in VPP. */
  predicate ClusterReady(nodes: nat, c: ClusterMetrics, o: Observations) {
    nodes >= 2 && c.etcdSync && c.aligned && o.syncEnabled && o.syncHealthy
  }

  predicate VrrpReady(groups: nat, o: Observations) {
    o.vrrpLastRun != 0 && o.vrrpError == "" && o.vrrpObserved >= groups && o.vrrpActive >= groups && o.vrrpIssues == 0
  }

  predicate BfdReady(o: Observations) {
    o.bfdPeers > 0 ==>
      o.bfdLastRun != 0 && o.bfdError == "" && o.bfdObserved >= o.bfdPeers && o.bfdDown == 0 && o.bfdUp >= o.bfdPeers
          && o.bfdIssues == 0
  }

  predicate LcpReady(o: Observations) {
    o.hasVpp && o.lcpLastRun != 0 && o.lcpError == "" && o.lcpIssues == 0
  }

  /** if cond { issues = append(issues, text) } */
  function Note(issues: seq<string>, cond: bool, text: string): (r: seq<string>)
    ensures r == [] <==> issues == [] && !cond
  {
    if cond then issues + [text] else issues
  }

  method ClusterIssues(nodes: nat, c: ClusterMetrics, o: Observations) returns (issues: seq<string>)
    ensures issues == [] <==> ClusterReady(nodes, c, o)
  {
    issues := Note([], nodes < 2, "cluster has fewer than two nodes");
    issues := Note(issues, !c.etcdSync, "etcd cluster sync is not configured");
    issues := Note(issues, c.etcdSync && !c.aligned, "cluster sync endpoints are not aligned with the datastore");
    issues := Note(issues, c.etcdSync && !o.syncEnabled, "etcd config synchronizer is not running");
    issues := Note(issues, c.etcdSync && o.syncEnabled && !o.syncHealthy, "etcd config synchronizer is unhealthy");
  }

  method VrrpIssues(groups: nat, o: Observations) returns (issues: seq<string>)
    ensures issues == [] <==> VrrpReady(groups, o)
  {
    issues := Note([], o.vrrpLastRun == 0, "FRR VRRP status has not run");
    issues := Note(issues, o.vrrpError != "", "FRR VRRP status check failed");
    issues := Note(issues, o.vrrpObserved < groups, "FRR VRRP status is missing configured groups");
    issues := Note(issues, o.vrrpActive < groups, "FRR VRRP status has inactive groups");
    issues := Note(issues, o.vrrpIssues > 0, "FRR VRRP status found convergence issues");
  }

  method BfdIssues(o: Observations) returns (issues: seq<string>)
    ensures issues == [] <==> BfdReady(o)
  {
    issues := [];
    if o.bfdPeers > 0 {
      issues := Note(issues, o.bfdLastRun == 0, "FRR BFD status has not run");
      issues := Note(issues, o.bfdError != "", "FRR BFD status check failed");
      if o.bfdObserved < o.bfdPeers {
        issues := issues + ["FRR BFD status is missing configured peers"];
      } else {
        issues := Note(issues, o.bfdDown > 0 || o.bfdUp < o.bfdPeers, "FRR BFD status has down peers");
      }
      issues := Note(issues, o.bfdIssues > 0, "FRR BFD status found convergence issues");
    }
  }

  method LcpIssues(o: Observations) returns (issues: seq<string>)
    ensures issues == [] <==> LcpReady(o)
  {
    issues := Note([], !o.hasVpp, "VPP LCP reconciliation status is unavailable");
    issues := Note(issues, o.hasVpp && o.lcpLastRun == 0, "VPP LCP reconciliation has not run");
    issues := Note(issues, o.lcpError != "", "VPP LCP reconciliation check failed");
    issues := Note(issues, o.lcpIssues > 0, "VPP LCP reconciliation found inconsistencies");
  }

  /** applyHAConvergenceStatus: converged exactly if groups are configured and every part is ready. */
  method HaStatusOf(clusterEnabled: bool, nodes: nat, vrrpGroups: nat, c: ClusterMetrics, o: Observations)
    returns (m: HaStatus)
    ensures AcceptsHa(m) && m.groups == (if clusterEnabled then vrrpGroups else 0)
    ensures m.converged <==>
            && clusterEnabled && vrrpGroups > 0
            && ClusterReady(nodes, c, o) && VrrpReady(vrrpGroups, o) && BfdReady(o) && LcpReady(o)
  {
    m := HaStatus(false, false, 0, []);
    if clusterEnabled {
      m := m.(groups := vrrpGroups);
      if vrrpGroups > 0 {
        var cluster := ClusterIssues(nodes, c, o);
        var vrrp := VrrpIssues(vrrpGroups, o);
        var bfd := BfdIssues(o);
        var lcp := LcpIssues(o);
        var issues := cluster + vrrp + bfd + lcp;
        m := HaStatus(true, |issues| == 0, vrrpGroups, issues);
      }
    }
  }

  /** validateNMSStatusHAConsistency */
  predicate AcceptsHa(m: HaStatus) {
    (m.configured <==> m.groups > 0) && (m.converged <==> m.configured && |m.issues| == 0)
  }

  // ---- Everything -----------------------------------------------------------

  datatype Published = Published(
    datastore: DatastoreStatus, sync: ConfigSync, cluster: ClusterMetrics, overlay: Overlay, cos: CosStatus,
    ha: HaStatus)

  predicate AcceptsAll(p: Published) {
    && AcceptsDatastore(p.datastore) && AcceptsSync(p.sync) && AcceptsCluster(p.cluster)
    && AcceptsOverlay(p.overlay) && AcceptsCos(p.cos) && AcceptsHa(p.ha)
  }

  /**
   metricsSource.snapshot: for every configuration, every datastore the flags can build and every state
   of the synchronizer, the collector accepts what is published.
   */
  method Publish(ds: Option<Datastore>, sync: Option<Follower.SyncStatus>, running: Option<RouterConfig>, nodes: nat,
                 vrrpGroups: nat,
                 vnis: map<int, Option<Vni>>, cos: Option<ClassOfService>, o: Observations) returns (p: Published)
    requires ds.Some? ==> DatastoreOk(ds.value)
    requires sync.Some? ==> SyncOk(sync.value)
    ensures AcceptsAll(p)
    ensures p.datastore.backend == if ds.Some? && ds.value.backend == Etcd then "etcd" else "sqlite"
    ensures IsNormal(p.datastore.endpoints, if ds.Some? then ds.value.etcdEndpoints else [])
    ensures TellsSync(p.sync, sync)
    ensures p.cluster.aligned <==> running.None? || Aligned(ds, running.value)
    ensures p.cluster.etcdSync && p.cluster.aligned ==> p.cluster.endpoints == p.datastore.endpoints
    ensures p.overlay.vnis == |Where(vnis, IsAny)| && p.overlay.l2 == |Where(vnis, IsL2)|
    ensures p.overlay.l3 == |Where(vnis, IsL3)| && p.overlay.multicast == |Where(vnis, IsMulticast)|
    ensures p.cos.configured <==> cos.Some?
    ensures p.ha.groups == if p.cluster.enabled then vrrpGroups else 0
    ensures p.ha.converged <==>
            && p.cluster.enabled && vrrpGroups > 0
            && ClusterReady(nodes, p.cluster, o) && VrrpReady(vrrpGroups, o) && BfdReady(o) && LcpReady(o)
  {
    var datastore := PublishDatastore(ds);
    var cluster := ClusterStatus(ds, running);
    var overlay := OverlayStatus(vnis);
    OverlayIsAccepted(vnis, overlay);
    var cosStatus := CosStatusOf(cos);
    var ha := HaStatusOf(cluster.enabled, nodes, vrrpGroups, cluster, o);
    if sync.Some? {
      SecondsKeepOrder(sync.value.lastApply, sync.value.lastCheck);
    }
    if cluster.etcdSync && cluster.aligned {
      SameNormalFormIff(ds.value.etcdEndpoints, ds.value.etcdEndpoints, cluster.endpoints, datastore.endpoints);
    }
    PublishSyncTells(sync);
    p := Published(datastore, PublishSync(sync), cluster, overlay, cosStatus, ha);
  }
}
