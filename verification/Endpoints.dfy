/**
 Cluster endpoints (cmd/arca-routerd/cluster_sync.go): the normal form of an endpoint list, the plugin
 that compares the configured with the daemon's own, and the alignment reported in
 cmd/arca-routerd/metrics.go.
 */
module Endpoints {
  import opened Wrappers
  import opened Text
  import opened ConfigModel
  import opened EngineSpec
  import opened EngineTheorems

  // ---- The normal form ------------------------------------------------------

  /** The endpoints a list names: blanks around them, repetitions and order do not matter. */
  ghost predicate Names(endpoints: seq<string>, x: string) {
    x != "" && exists i :: 0 <= i < |endpoints| && TrimSpace(endpoints[i]) == x
  }

  ghost predicate SameSet(a: seq<string>, b: seq<string>) {
    forall x :: Names(a, x) <==> Names(b, x)
  }

  /** r lists what endpoints name, sorted and once each. */
  ghost predicate IsNormal(r: seq<string>, endpoints: seq<string>) {
    Sorted(r) && Distinct(r) && forall x :: x in r <==> Names(endpoints, x)
  }

  /** normalizedEndpoints */
  method NormalizedEndpoints(endpoints: seq<string>) returns (r: seq<string>)
    ensures IsNormal(r, endpoints)
  {
    var normalized: seq<string> := [];
    var seen: set<string> := {};
    for i := 0 to |endpoints|
      invariant Distinct(normalized) && (forall x :: x in normalized <==> x in seen)
      invariant forall x :: x in seen <==> x != "" && exists j :: 0 <= j < i && TrimSpace(endpoints[j]) == x
    {
      var endpoint := TrimSpace(endpoints[i]);
      if endpoint != "" && endpoint !in seen {
        seen := seen + {endpoint};
        normalized := normalized + [endpoint];
      }
    }
    SortKeepsDistinct(normalized);
    return SortStrings(normalized);
  }

  /** sameEndpoints */
  method SameEndpoints(a: seq<string>, b: seq<string>) returns (same: bool)
    ensures same <==> a == b
  {
    if |a| != |b| { return false; }
    for i := 0 to |a|
      invariant a[..i] == b[..i]
    {
      if a[i] != b[i] { return false; }
    }
    return true;
  }

  /** Two normal forms are equal exactly if the lists name the same endpoints. */
  lemma SameNormalFormIff(a: seq<string>, b: seq<string>, r: seq<string>, s: seq<string>)
    requires IsNormal(r, a) && IsNormal(s, b)
    ensures r == s <==> SameSet(a, b)
  {
    if SameSet(a, b) {
      CanonicalForm(r, s);
    } else {
      var x :| Names(a, x) != Names(b, x);
      assert (x in r) != (x in s);
    }
  }

  /** Normalizing is idempotent: a normal form is its own normal form. */
  lemma NormalFormIsNormal(a: seq<string>, r: seq<string>, s: seq<string>)
    requires IsNormal(r, a) && IsNormal(s, r)
    ensures s == r
  {
    NamesItself(a, r);
    SameNormalFormIff(r, a, s, r);
  }

  lemma NamesItself(a: seq<string>, r: seq<string>)
    requires IsNormal(r, a)
    ensures SameSet(r, a)
  {
    forall i | 0 <= i < |r| ensures TrimSpace(r[i]) == r[i] && r[i] != "" {
      assert r[i] in r && Names(a, r[i]);
      var j :| 0 <= j < |a| && TrimSpace(a[j]) == r[i];
      TrimSpaceFacts(a[j]);
      TrimSpaceFacts(r[i]);
    }
    forall x ensures Names(r, x) <==> x in r {
      if x in r {
        var i :| 0 <= i < |r| && r[i] == x;
        assert TrimSpace(r[i]) == x;
      }
    }
  }

  // ---- The cluster plugin and the reported alignment --------------------------

  datatype Backend = Sqlite | Etcd

  datatype Datastore = Datastore(backend: Backend, etcdEndpoints: seq<string>)

  predicate ClusterEnabled(cfg: RouterConfig) {
    cfg.chassis.Some? && cfg.chassis.value.cluster.Some? && cfg.chassis.value.cluster.value.enabled
  }

  /** clusterEtcdEndpoints; nil is the empty list. */
  function ClusterEndpoints(cfg: RouterConfig): seq<string> {
    if !ClusterEnabled(cfg) then []
    else match cfg.chassis.value.cluster.value.sync
      case Some(ClusterSync(Some(EtcdSync(Some(endpoints))))) => endpoints
      case _ => []
  }

  /** The daemon runs on the etcd cluster that the configuration names. */
  ghost predicate Agrees(ds: Option<Datastore>, endpoints: seq<string>) {
    ds.Some? && ds.value.backend == Etcd && SameSet(endpoints, ds.value.etcdEndpoints)
  }

  ghost predicate Accepts(ds: Option<Datastore>, cfg: RouterConfig) {
    ClusterEndpoints(cfg) == [] || Agrees(ds, ClusterEndpoints(cfg))
  }

  /** The cluster is enabled and synchronized over etcd, and these endpoints are configured for that. */
  ghost predicate Configures(cfg: RouterConfig, es: seq<string>) {
    && cfg.chassis.Some? && cfg.chassis.value.cluster.Some?
    && var cluster := cfg.chassis.value.cluster.value;
       && cluster.enabled && cluster.sync.Some? && cluster.sync.value.etcd.Some?
       && cluster.sync.value.etcd.value.endpoints == Some(es)
  }

  lemma ConfiguresOne(cfg: RouterConfig)
    ensures forall es :: Configures(cfg, es) ==> ClusterEndpoints(cfg) == es
    ensures (forall es :: !Configures(cfg, es)) ==> ClusterEndpoints(cfg) == []
  {
    if ClusterEndpoints(cfg) != [] {
      assert Configures(cfg, ClusterEndpoints(cfg));
    }
  }

  /** What the plugin asks of a configuration, on its fields. */
  lemma AcceptsIff(ds: Option<Datastore>, cfg: RouterConfig)
    ensures Accepts(ds, cfg) <==>
            forall es :: Configures(cfg, es) && es != [] ==>
              ds.Some? && ds.value.backend == Etcd && SameSet(es, ds.value.etcdEndpoints)
  {
    ConfiguresOne(cfg);
    if ClusterEndpoints(cfg) != [] {
      assert Configures(cfg, ClusterEndpoints(cfg));
    }
  }

  const NO_DATASTORE := "chassis cluster sync etcd requires daemon datastore configuration"
  const NOT_ETCD := "chassis cluster sync etcd requires --datastore-backend=etcd"
  const MISMATCH := "chassis cluster sync etcd endpoints do not match daemon --etcd-endpoints"

  /** clusterSyncPlugin.ValidateChanges, on the new side of the diff. */
  method ValidateChanges(ds: Option<Datastore>, cfg: RouterConfig) returns (err: Reply)
    ensures err.None? <==> Accepts(ds, cfg)
    ensures forall es :: Configures(cfg, es) ==>
              (err.None? <==> es == [] || (ds.Some? && ds.value.backend == Etcd && SameSet(es, ds.value.etcdEndpoints)))
    ensures (forall es :: !Configures(cfg, es)) ==> err.None?
    ensures err.Some? ==> err.value == if ds.None? then NO_DATASTORE
                                       else if ds.value.backend != Etcd then NOT_ETCD else MISMATCH
  {
    ConfiguresOne(cfg);
    var endpoints := ClusterEndpoints(cfg);
    if |endpoints| == 0 { return None; }
    if ds.None? { return Some(NO_DATASTORE); }
    if ds.value.backend != Etcd { return Some(NOT_ETCD); }
    var configured := NormalizedEndpoints(endpoints);
    var daemon := NormalizedEndpoints(ds.value.etcdEndpoints);
    SameNormalFormIff(endpoints, ds.value.etcdEndpoints, configured, daemon);
    var same := SameEndpoints(configured, daemon);
    return if same then None else Some(MISMATCH);
  }

  /** What the status says about cluster synchronization. */
  datatype ClusterMetrics = ClusterMetrics(enabled: bool, endpoints: seq<string>, etcdSync: bool, aligned: bool)

  ghost predicate Aligned(ds: Option<Datastore>, cfg: RouterConfig) {
    (exists x :: Names(ClusterEndpoints(cfg), x)) ==> Agrees(ds, ClusterEndpoints(cfg))
  }

  /** The cluster part of metricsSource.snapshot; running may be nil. */
  method ClusterStatus(ds: Option<Datastore>, running: Option<RouterConfig>) returns (m: ClusterMetrics)
    ensures m.aligned <==> running.None? || Aligned(ds, running.value)
    ensures m.etcdSync <==> m.endpoints != []
    ensures IsNormal(m.endpoints, if running.Some? then ClusterEndpoints(running.value) else [])
    ensures running.Some? ==> forall es :: Configures(running.value, es) ==>
              && IsNormal(m.endpoints, es)
              && (m.aligned <==> m.endpoints == [] ||
                                 (ds.Some? && ds.value.backend == Etcd && SameSet(es, ds.value.etcdEndpoints)))
    ensures (running.Some? ==> forall es :: !Configures(running.value, es)) ==> m.endpoints == [] && m.aligned
    ensures m.enabled <==> running.Some? && ClusterEnabled(running.value)
    ensures m.etcdSync ==> m.enabled
    ensures m.etcdSync && m.aligned ==>
            ds.Some? && ds.value.backend == Etcd && IsNormal(m.endpoints, ds.value.etcdEndpoints)
  {
    if running.Some? { ConfiguresOne(running.value); }
    m := ClusterMetrics(false, [], false, true);
    var daemon: seq<string> := [];
    if ds.Some? {
      daemon := NormalizedEndpoints(ds.value.etcdEndpoints);
    }
    if running.Some? && running.value.chassis.Some? && running.value.chassis.value.cluster.Some? {
      var endpoints := NormalizedEndpoints(ClusterEndpoints(running.value));
      m := ClusterMetrics(running.value.chassis.value.cluster.value.enabled, endpoints, |endpoints| > 0, true);
      if m.etcdSync {
        assert endpoints[0] in endpoints;
        var same := SameEndpoints(endpoints, daemon);
        if ds.Some? {
          SameNormalFormIff(ClusterEndpoints(running.value), ds.value.etcdEndpoints, endpoints, daemon);
        }
        m := m.(aligned := ds.Some? && ds.value.backend == Etcd && same);
      }
    }
  }

  /**
   Exactly which configurations are reported as aligned: those the plugin accepts, and those that name no
   endpoint at all.
   */
  lemma AlignedIff(ds: Option<Datastore>, cfg: RouterConfig)
    ensures Aligned(ds, cfg) <==> Accepts(ds, cfg) || forall x :: !Names(ClusterEndpoints(cfg), x)
  {
  }

  // ---- With the engine ------------------------------------------------------

  /**
   The first plugin of the engine is the cluster plugin, and if it was asked and let the change pass, it
   accepts it.
   */
  ghost predicate Answers(env: Env, core: Core, ds: Option<Datastore>, e: Event) {
    e.ApplyEvent? && Early(env, core, e.candidate).None? && e.replies.validate != [] && e.replies.validate[0].None? ==>
      Accepts(ds, env.clone(env.clone(e.candidate.value)))
  }

  /** Every configuration that a changing Apply installs is one that will be reported as aligned. */
  lemma InstalledIsAligned(env: Env, core: Core, e: Event, ds: Option<Datastore>)
    requires Lawful(env) && |env.names| > 0 && Fits(env, core, e) && e.ApplyEvent? && Answers(env, core, ds, e)
    requires After(env, core, e).running != core.running
    ensures RunningConfig(After(env, core, e)).Some? && Aligned(ds, RunningConfig(After(env, core, e)).value)
  {
  }

  ghost predicate RunsAligned(ds: Option<Datastore>, core: Core) {
    RunningConfig(core).Some? ==> Aligned(ds, RunningConfig(core).value)
  }

  /** What InitializeRunning installs is aligned. */
  ghost predicate StartsAligned(env: Env, ds: Option<Datastore>, e: Event) {
    e.InitializeEvent? && e.config.Some? ==> Aligned(ds, env.clone(e.config.value))
  }

  lemma AlignedStep(env: Env, core: Core, e: Event, ds: Option<Datastore>)
    requires Lawful(env) && |env.names| > 0 && Fits(env, core, e) && Answers(env, core, ds, e)
    requires StartsAligned(env, ds, e) && RunsAligned(ds, core)
    ensures RunsAligned(ds, After(env, core, e))
  {
    if e.ApplyEvent? && After(env, core, e).running != core.running {
      InstalledIsAligned(env, core, e, ds);
    }
  }

  /** So alignment is an invariant of every run whose initial configurations are aligned. */
  lemma {:induction false} RunsStayAligned(env: Env, core: Core, events: seq<Event>, ds: Option<Datastore>)
    requires Lawful(env) && |env.names| > 0 && AllFit(env, core, events) && RunsAligned(ds, core)
    requires forall i :: 0 <= i < |events| ==> Answers(env, Run(env, core, events[..i]), ds, events[i])
    requires forall i :: 0 <= i < |events| ==> StartsAligned(env, ds, events[i])
    ensures RunsAligned(ds, Run(env, core, events))
    decreases |events|
  {
    if events != [] {
      var n := |events| - 1;
      var before := events[..n];
      assert forall i :: 0 <= i <= n ==> before[..i] == events[..i];
      RunsStayAligned(env, core, before, ds);
      AlignedStep(env, Run(env, core, before), events[n], ds);
    }
  }
}
