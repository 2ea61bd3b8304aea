/**
 The etcd configuration synchronizer (cmd/arca-routerd/config_sync.go): a polling replica that
 reads the store's revision and then its snapshot, and the store may move on in between.
 */
module Follower {
  import opened Wrappers
  import opened ConfigModel
  import opened HashVersusDiff
  import opened EngineSpec
  import opened EngineTheorems
  import opened CommitHook

  // ---- One reconcile --------------------------------------------------------

  /** configSyncStatus; a time is a number, 0 the zero time. */
  datatype SyncStatus = SyncStatus(
    enabled: bool, healthy: bool, etcdRevision: nat, runningRevision: nat, commitID: string, timestamp: nat,
    lastCheck: nat, lastApply: nat, lastError: string)

  /** The synchronizer's own state. */
  datatype Sync = Sync(status: SyncStatus, lastRevision: nat)

  const FRESH := Sync(SyncStatus(true, false, 0, 0, "", 0, 0, 0, ""), 0)

  /** An EtcdStatus answer. */
  datatype EtcdStatus = EtcdStatus(revision: nat, runningRevision: nat, commitID: string, timestamp: nat)

  /** A GetLatestSnapshot answer; Absent is a nil snapshot or one without a configuration. */
  datatype Load = LoadError | Absent | Loaded(config: RouterConfig)

  const STATUS_ERROR := "failed to read etcd sync status"
  const LOAD_ERROR := "failed to load latest running config"
  const MISSING := "running config snapshot is unavailable"
  const APPLY_ERROR := "failed to apply synced running config"

  /** shouldApplySyncedSnapshot: hashes decide. */
  predicate ShouldApply(env: Env, current: Option<Snapshot>, next: RouterConfig) {
    current.None? || current.value.config.None? || current.value.hash != Some(env.hash(env.clone(next)))
  }

  datatype Reconciled = Reconciled(core: Core, sync: Sync, ok: bool)

  function Failure(core: Core, sync: Sync, runtime: SyncStatus, message: string): Reconciled {
    Reconciled(core, sync.(status := runtime.(healthy := false, lastError := message)), false)
  }

  /** The status after a successful EtcdStatus call. */
  function Seeing(s: SyncStatus, etcd: EtcdStatus): SyncStatus {
    s.(healthy := true, lastError := "", etcdRevision := etcd.revision, runningRevision := etcd.runningRevision,
       commitID := etcd.commitID, timestamp := etcd.timestamp)
  }

  function Reconcile(env: Env, core: Core, sync: Sync, now: nat, etcd: Option<EtcdStatus>, load: Load,
                     r: Replies): Reconciled
    requires Sized(env, core, r)
  {
    var runtime := sync.status.(enabled := true, lastCheck := now);
    if etcd.None? then Failure(core, sync, runtime, STATUS_ERROR)
    else
      var runtime := Seeing(runtime, etcd.value);
      if etcd.value.runningRevision == 0 || etcd.value.runningRevision == sync.lastRevision then
        Reconciled(core, sync.(status := runtime), true)
      else Follow(env, core, sync, runtime, now, load, r)
  }

  /** A revision that has not been recorded yet. */
  function Follow(env: Env, core: Core, sync: Sync, runtime: SyncStatus, now: nat, load: Load, r: Replies): Reconciled
    requires Sized(env, core, r)
  {
    match load
    case LoadError => Failure(core, sync, runtime, LOAD_ERROR)
    case Absent => Failure(core, sync, runtime, MISSING)
    case Loaded(config) =>
      if !ShouldApply(env, core.running, config) then Reconciled(core, Sync(runtime, runtime.runningRevision), true)
      else ApplyLoaded(env, core, sync, runtime, now, config, r)
  }

  function ApplyLoaded(env: Env, core: Core, sync: Sync, runtime: SyncStatus, now: nat, config: RouterConfig,
                       r: Replies): Reconciled
    requires Sized(env, core, r)
  {
    Conclude(Apply(env, core, Some(config), "config-sync", "sync running config from etcd", r), sync, runtime, now)
  }

  /** The calls the plugins receive. */
  function ReconcileCalls(env: Env, core: Core, sync: Sync, etcd: Option<EtcdStatus>, load: Load,
                          r: Replies): seq<Call>
    requires Sized(env, core, r)
  {
    if etcd.None? || etcd.value.runningRevision == 0 || etcd.value.runningRevision == sync.lastRevision then []
    else FollowCalls(env, core, load, r)
  }

  function FollowCalls(env: Env, core: Core, load: Load, r: Replies): seq<Call>
    requires Sized(env, core, r)
  {
    if !load.Loaded? || !ShouldApply(env, core.running, load.config) then []
    else Apply(env, core, Some(load.config), "config-sync", "sync running config from etcd", r).calls
  }

  /** What the synchronizer makes of the outcome of an Apply. */
  function Conclude(o: Outcome, sync: Sync, runtime: SyncStatus, now: nat): Reconciled {
    if o.result != Success then Failure(o.core, sync, runtime, APPLY_ERROR)
    else Reconciled(o.core, Sync(runtime.(lastApply := now), runtime.runningRevision), true)
  }

  // ---- What a reconcile answers, reports and records ----------------------------

  /** The hash kept with the running snapshot is the hash of its configuration. */
  ghost predicate Hashed(env: Env, core: Core) {
    core.running.Some? && core.running.value.config.Some? ==>
        core.running.value.hash == Some(env.hash(core.running.value.config.value))
  }

  /** A revision that is there and not recorded yet has been seen. */
  ghost predicate NewRevision(sync: Sync, etcd: Option<EtcdStatus>) {
    etcd.Some? && etcd.value.runningRevision != 0 && etcd.value.runningRevision != sync.lastRevision
  }

  /** Some configuration is running, and it has the hash of this one. */
  ghost predicate SameHash(env: Env, core: Core, config: RouterConfig) {
    RunningConfig(core).Some? && env.hash(RunningConfig(core).value) == env.hash(config)
  }

  /** A new revision whose configuration is not running, judged by the hash, is applied. */
  ghost predicate Attempts(env: Env, core: Core, sync: Sync, etcd: Option<EtcdStatus>, load: Load) {
    NewRevision(sync, etcd) && load.Loaded? && !SameHash(env, core, load.config)
  }

  ghost function SyncApply(env: Env, core: Core, config: RouterConfig, r: Replies): Outcome
    requires Sized(env, core, r)
  {
    Apply(env, core, Some(config), "config-sync", "sync running config from etcd", r)
  }

  /** When a reconcile succeeds: it must read the status, and of a new revision also the snapshot, and apply it. */
  lemma ReconcileOkIff(env: Env, core: Core, sync: Sync, now: nat, etcd: Option<EtcdStatus>, load: Load, r: Replies)
    requires Lawful(env) && Sized(env, core, r) && Hashed(env, core)
    ensures Reconcile(env, core, sync, now, etcd, load, r).ok <==>
            && etcd.Some?
            && (NewRevision(sync, etcd) ==>
                && load.Loaded?
                && (Attempts(env, core, sync, etcd, load) ==> SyncApply(env, core, load.config, r).result == Success))
  {
  }

  /** The status tells whether the reconcile succeeded, why not, and what the store said. */
  lemma ReconcileReports(env: Env, core: Core, sync: Sync, now: nat, etcd: Option<EtcdStatus>, load: Load, r: Replies)
    requires Sized(env, core, r)
    ensures var rec := Reconcile(env, core, sync, now, etcd, load, r);
            var s := rec.sync.status;
            && s.enabled && s.lastCheck == now && (s.healthy <==> rec.ok)
            && s.lastError == (if rec.ok then ""
                               else if etcd.None? then "failed to read etcd sync status"
                               else if load.LoadError? then "failed to load latest running config"
                               else if load.Absent? then "running config snapshot is unavailable"
                               else "failed to apply synced running config")
            && s.etcdRevision == (if etcd.Some? then etcd.value.revision else sync.status.etcdRevision)
            && s.runningRevision == (if etcd.Some? then etcd.value.runningRevision else sync.status.runningRevision)
            && s.commitID == (if etcd.Some? then etcd.value.commitID else sync.status.commitID)
            && s.timestamp == (if etcd.Some? then etcd.value.timestamp else sync.status.timestamp)
  {
  }

  /** What is recorded is the revision of the running key, by every success with a new one, applied or skipped. */
  lemma ReconcileRecords(env: Env, core: Core, sync: Sync, now: nat, etcd: Option<EtcdStatus>, load: Load, r: Replies)
    requires Lawful(env) && Sized(env, core, r) && Hashed(env, core)
    ensures var rec := Reconcile(env, core, sync, now, etcd, load, r);
            var applied := Attempts(env, core, sync, etcd, load);
            && rec.sync.lastRevision == (if rec.ok && NewRevision(sync, etcd) then etcd.value.runningRevision
                                         else sync.lastRevision)
            && rec.core == (if applied then SyncApply(env, core, load.config, r).core else core)
            && ReconcileCalls(env, core, sync, etcd, load, r)
               == (if applied then SyncApply(env, core, load.config, r).calls else [])
            && rec.sync.status.lastApply == (if rec.ok && applied then now else sync.status.lastApply)
  {
  }

  // ---- The store and the replica ----------------------------------------------

  /** A value the store's running key has had, with its revision. */
  datatype Entry = Entry(revision: nat, config: RouterConfig)

  datatype World = World(core: Core, sync: Sync, history: seq<Entry>)

  /** How the snapshot is read: not at all, as missing, or as the store's latest. */
  datatype Reading = Fails | Missing | Reads

  datatype Action =
    | Write(entry: Entry)
    | Tick(now: nat, reached: bool, cluster: nat, between: seq<Entry>, reading: Reading, replies: Replies)

  /** etcd revisions of one key are positive and only grow. */
  ghost predicate Growing(history: seq<Entry>) {
    && (forall i :: 0 <= i < |history| ==> history[i].revision > 0)
    && forall i, j :: 0 <= i < j < |history| ==> history[i].revision < history[j].revision
  }

  function LatestRevision(history: seq<Entry>): nat {
    if history == [] then 0 else history[|history| - 1].revision
  }

  /** The revision of the whole cluster is not that of the running key: writes to other keys move it too. */
  function Answer(history: seq<Entry>, reached: bool, cluster: nat): Option<EtcdStatus> {
    if reached then Some(EtcdStatus(cluster, LatestRevision(history), "", 0)) else None
  }

  function Snapshotted(history: seq<Entry>, reading: Reading): Load {
    match reading
    case Fails => LoadError
    case Missing => Absent
    case Reads => if history == [] then Absent else Loaded(history[|history| - 1].config)
  }

  predicate Possible(env: Env, w: World, a: Action) {
    a.Tick? ==> Sized(env, w.core, a.replies)
  }

  /** between is what is written after EtcdStatus and before GetLatestSnapshot. */
  function Next(env: Env, w: World, a: Action): (w': World)
    requires Possible(env, w, a)
    ensures |w'.core.south| == |w.core.south|
  {
    match a
    case Write(entry) => w.(history := w.history + [entry])
    case Tick(now, reached, cluster, between, reading, r) =>
      var history, etcd := w.history + between, Answer(w.history, reached, cluster);
      var rec := Reconcile(env, w.core, w.sync, now, etcd, Snapshotted(history, reading), r);
      World(rec.core, rec.sync, history)
  }

  /** The engine runs this configuration, as far as it can tell; no running configuration counts as the empty one. */
  ghost predicate Runs(env: Env, core: Core, c: RouterConfig) {
    SeenOf(env, RunningConfig(core)) == env.seen(c)
  }

  /** Recording revision r means running a snapshot the store had at revision r or later. */
  ghost predicate RecordedSafely(env: Env, w: World) {
    w.sync.lastRevision != 0 ==>
        exists k :: 0 <= k < |w.history| && w.history[k].revision >= w.sync.lastRevision
            && Runs(env, w.core, w.history[k].config)
  }

  /** The tick finds the hash of the store's snapshot to be that of the running one, and applies nothing. */
  ghost predicate Skips(env: Env, w: World, a: Action) {
    && a.Tick? && a.reached && LatestRevision(w.history) != 0 && LatestRevision(w.history) != w.sync.lastRevision
    && Snapshotted(w.history + a.between, a.reading).Loaded?
    && !ShouldApply(env, w.core.running, Snapshotted(w.history + a.between, a.reading).config)
  }

  /** A skip is harmless when the running configuration really is, observably, the store's. */
  ghost predicate SkipsRightly(env: Env, w: World, a: Action) {
    Skips(env, w, a) ==> Runs(env, w.core, Snapshotted(w.history + a.between, a.reading).config)
  }

  lemma HashedStep(env: Env, w: World, a: Action)
    requires Lawful(env) && Possible(env, w, a) && Hashed(env, w.core)
    ensures Hashed(env, Next(env, w, a).core)
  {
  }

  /** A tick that records a revision leaves the store's snapshot running exactly unless it skipped it wrongly. */
  lemma RecordsIff(env: Env, w: World, a: Action)
    requires Lawful(env) && Possible(env, w, a) && a.Tick? && Growing(w.history + a.between)
    requires Next(env, w, a).sync.lastRevision != w.sync.lastRevision
    ensures var w' := Next(env, w, a);
            && w'.history != [] && w'.sync.lastRevision
                == LatestRevision(w.history) <= w'.history[|w'.history| - 1].revision
            && (Runs(env, w'.core, w'.history[|w'.history| - 1].config) <==> SkipsRightly(env, w, a))
  {
    var w' := Next(env, w, a);
    var c := w'.history[|w'.history| - 1].config;
    assert w'.history[|w.history| - 1] == w.history[|w.history| - 1];
    ApplyRuns(env, w.core, c, "config-sync", "sync running config from etcd", a.replies);
  }

  /** So with a store that stands still meanwhile, the tick records safely exactly unless it skipped wrongly. */
  lemma RecordsSafelyIff(env: Env, w: World, a: Action)
    requires Lawful(env) && Possible(env, w, a) && a.Tick? && a.between == [] && Growing(w.history)
    requires Next(env, w, a).sync.lastRevision != w.sync.lastRevision
    ensures RecordedSafely(env, Next(env, w, a)) <==> SkipsRightly(env, w, a)
  {
    assert w.history + a.between == w.history;
    RecordsIff(env, w, a);
    var w' := Next(env, w, a);
    var n := |w.history| - 1;
    assert forall k :: 0 <= k < |w.history| && w.history[k].revision >= w'.sync.lastRevision ==> k == n;
  }

  /** A tick that records nothing, in particular one that fails, leaves running and version alone. */
  lemma UnrecordedKeepsRunning(env: Env, w: World, a: Action)
    requires Possible(env, w, a) && Next(env, w, a).sync.lastRevision == w.sync.lastRevision
    ensures var w' := Next(env, w, a); w'.core.running == w.core.running && w'.core.version == w.core.version
  {
  }

  lemma FailureRecordsNothing(env: Env, core: Core, sync: Sync, now: nat, etcd: Option<EtcdStatus>, load: Load,
                              r: Replies)
    requires Sized(env, core, r) && !Reconcile(env, core, sync, now, etcd, load, r).ok
    ensures var rec := Reconcile(env, core, sync, now, etcd, load, r);
            && rec.sync.lastRevision == sync.lastRevision && rec.core.running == core.running
            && rec.core.version == core.version
            && rec.sync.status.lastApply == sync.status.lastApply && !rec.sync.status.healthy
  {
  }

  /** The time of the last apply moves exactly when a revision is recorded by applying it. */
  lemma LastApplyMovesIff(env: Env, core: Core, sync: Sync, now: nat, etcd: Option<EtcdStatus>, load: Load, r: Replies)
    requires Sized(env, core, r) && sync.status.lastApply != now
    ensures var rec := Reconcile(env, core, sync, now, etcd, load, r);
            && (rec.sync.status.lastApply == now <==>
                 rec.sync.lastRevision != sync.lastRevision && load.Loaded?
                     && ShouldApply(env, core.running, load.config))
            && (rec.sync.status.lastApply == now || rec.sync.status.lastApply == sync.status.lastApply)
            && rec.sync.status.lastCheck == now
  {
  }

  lemma SafeStep(env: Env, w: World, a: Action)
    requires Lawful(env) && Possible(env, w, a) && RecordedSafely(env, w) && Growing(Next(env, w, a).history)
    requires SkipsRightly(env, w, a)
    ensures RecordedSafely(env, Next(env, w, a))
  {
    var w' := Next(env, w, a);
    if w'.sync.lastRevision != w.sync.lastRevision {
      RecordsIff(env, w, a);
      assert Runs(env, w'.core, w'.history[|w'.history| - 1].config);
    } else if w.sync.lastRevision != 0 {
      var k :| 0 <= k < |w.history| && w.history[k].revision >= w.sync.lastRevision
          && Runs(env, w.core, w.history[k].config);
      UnrecordedKeepsRunning(env, w, a);
      assert w'.history[k] == w.history[k];
    }
  }

  // ---- Whole runs -----------------------------------------------------------

  predicate AllPossible(env: Env, w: World, actions: seq<Action>) {
    forall i :: 0 <= i < |actions| ==> Possible(env, w, actions[i])
  }

  function Lives(env: Env, w: World, actions: seq<Action>): (w': World)
    requires AllPossible(env, w, actions)
    ensures |w'.core.south| == |w.core.south|
  {
    if actions == [] then w
    else Next(env, Lives(env, w, actions[..|actions| - 1]), actions[|actions| - 1])
  }

  /**
   Safety of the follower: with the store moving on at any moment, also between the two reads, and with
   failures anywhere, a recorded revision r means that the engine runs what the store had at r or later,
   unless some tick skipped a snapshot wrongly.
   */
  lemma {:induction false} FollowerIsSafe(env: Env, w: World, actions: seq<Action>)
    requires Lawful(env) && AllPossible(env, w, actions) && RecordedSafely(env, w)
    requires Growing(Lives(env, w, actions).history)
    ensures RecordedSafely(env, Lives(env, w, actions)) ||
            exists i :: 0 <= i < |actions| && !SkipsRightly(env, Lives(env, w, actions[..i]), actions[i])
    decreases |actions|
  {
    if actions != [] {
      var n := |actions| - 1;
      var before := actions[..n];
      assert forall i :: 0 <= i <= n ==> before[..i] == actions[..i];
      HistoryGrows(env, Lives(env, w, before), actions[n]);
      FollowerIsSafe(env, w, before);
      if RecordedSafely(env, Lives(env, w, before)) && SkipsRightly(env, Lives(env, w, before), actions[n]) {
        SafeStep(env, Lives(env, w, before), actions[n]);
      }
    }
  }

  /** Action i of a run records a revision. */
  ghost predicate Records(env: Env, w: World, actions: seq<Action>, i: nat)
    requires AllPossible(env, w, actions) && i < |actions|
  {
    Lives(env, w, actions[..i + 1]).sync.lastRevision != Lives(env, w, actions[..i]).sync.lastRevision
  }

  lemma LivesNext(env: Env, w: World, actions: seq<Action>, i: nat)
    requires AllPossible(env, w, actions) && i < |actions|
    ensures Lives(env, w, actions[..i + 1]) == Next(env, Lives(env, w, actions[..i]), actions[i])
  {
    assert actions[..i + 1][..i] == actions[..i];
  }

  lemma {:induction false} UnrecordedRunKeepsRunning(env: Env, w: World, actions: seq<Action>, n: nat, m: nat)
    requires AllPossible(env, w, actions) && n <= m <= |actions|
    requires forall i :: n <= i < m ==> !Records(env, w, actions, i)
    ensures Lives(env, w, actions[..m]).core.running == Lives(env, w, actions[..n]).core.running
    decreases m - n
  {
    if n < m {
      UnrecordedRunKeepsRunning(env, w, actions, n, m - 1);
      assert !Records(env, w, actions, m - 1);
      LivesNext(env, w, actions, m - 1);
      UnrecordedKeepsRunning(env, Lives(env, w, actions[..m - 1]), actions[m - 1]);
    }
  }

  /** What the engine runs at the end of a run is decided by the last tick n that recorded a revision. */
  lemma LastRecordDecides(env: Env, w: World, actions: seq<Action>, n: nat)
    requires Lawful(env) && AllPossible(env, w, actions) && n < |actions| && Records(env, w, actions, n)
    requires Growing(Lives(env, w, actions[..n + 1]).history)
    requires forall i :: n < i < |actions| ==> !Records(env, w, actions, i)
    ensures var history := Lives(env, w, actions[..n + 1]).history;
            && history != []
            && (Runs(env, Lives(env, w, actions).core, history[|history| - 1].config) <==>
                SkipsRightly(env, Lives(env, w, actions[..n]), actions[n]))
  {
    LivesNext(env, w, actions, n);
    RecordsIff(env, Lives(env, w, actions[..n]), actions[n]);
    UnrecordedRunKeepsRunning(env, w, actions, n + 1, |actions|);
    assert actions[..|actions|] == actions;
  }

  lemma HistoryGrows(env: Env, w: World, a: Action)
    requires Possible(env, w, a)
    ensures var w' := Next(env, w, a); w.history <= w'.history && (Growing(w'.history) ==> Growing(w.history))
  {
    var w' := Next(env, w, a);
    assert forall i :: 0 <= i < |w.history| ==> w'.history[i] == w.history[i];
  }

  // ---- Convergence ----------------------------------------------------------

  /** The store stands still during the tick and both reads succeed. */
  predicate Calm(a: Action) {
    a.Tick? && a.reached && a.between == [] && a.reading.Reads?
  }

  /**
   One calm reconcile whose apply, if it needs one, succeeds, records the store's revision, and brings the engine
   to the store's configuration exactly unless it skipped wrongly.
   */
  lemma Converges(env: Env, w: World, a: Action)
    requires Lawful(env) && Possible(env, w, a) && RecordedSafely(env, w) && Growing(w.history) && w.history != []
    requires Calm(a)
    requires Reconcile(env, w.core, w.sync, a.now, Answer(w.history, true, a.cluster), Snapshotted(w.history, Reads),
                       a.replies).ok
    ensures var w' := Next(env, w, a);
            && w'.sync.lastRevision == LatestRevision(w.history) && w'.history == w.history
            && (Runs(env, w'.core, w.history[|w.history| - 1].config) <==> SkipsRightly(env, w, a))
  {
    var w' := Next(env, w, a);
    assert w.history + a.between == w.history;
    if w.sync.lastRevision == LatestRevision(w.history) {
      var k :| 0 <= k < |w.history| && w.history[k].revision >= w.sync.lastRevision
          && Runs(env, w.core, w.history[k].config);
      assert k == |w.history| - 1;
    } else {
      RecordsIff(env, w, a);
    }
  }

  /**
   From then on, while the store stands still, no tick, successful or not, touches the engine or the time of
   the last apply.
   */
  lemma {:induction false} Quiescent(env: Env, w: World, ticks: seq<Action>)
    requires AllPossible(env, w, ticks) && w.sync.lastRevision == LatestRevision(w.history)
    requires forall i :: 0 <= i < |ticks| ==> ticks[i].Tick? && ticks[i].between == []
    ensures var w' := Lives(env, w, ticks);
            && w'.core == w.core && w'.history == w.history && w'.sync.lastRevision == w.sync.lastRevision
            && w'.sync.status.lastApply == w.sync.status.lastApply
  {
    if ticks != [] {
      Quiescent(env, w, ticks[..|ticks| - 1]);
      assert w.history + ticks[|ticks| - 1].between == w.history;
    }
  }

  // ---- Where the hash is not enough -------------------------------------------

  /**
   Exactly when a skip is right: the two configurations agree on the field the hash leaves out and on their
   empty collections.
   */
  lemma SkipIsRightIff(names: seq<string>, valid: RouterConfig -> Reply, w: World, a: Action)
    requires var env := StandardEnv(names, valid); Possible(env, w, a) && Hashed(env, w.core) && Skips(env, w, a)
    ensures var env := StandardEnv(names, valid);
            var mine, theirs := RunningConfig(w.core).value, Snapshotted(w.history + a.between, a.reading).config;
            SkipsRightly(env, w, a) <==> EnabledSet(mine) == EnabledSet(theirs) && ConfigsAgreeOnEmpty(mine, theirs)
  {
    var env := StandardEnv(names, valid);
    StandardEnvIsLawful(names, valid);
    var mine, theirs := RunningConfig(w.core).value, Snapshotted(w.history + a.between, a.reading).config;
    assert env.hash(mine) == env.hash(env.clone(theirs)) == env.hash(theirs);
    assert HashOf(mine) == HashOf(theirs);
    EqualHashNoChangesIff(mine, theirs);
  }

  lemma {:induction false} HashedLives(env: Env, w: World, actions: seq<Action>)
    requires Lawful(env) && AllPossible(env, w, actions) && Hashed(env, w.core)
    ensures Hashed(env, Lives(env, w, actions).core)
  {
    if actions != [] {
      HashedLives(env, w, actions[..|actions| - 1]);
      HashedStep(env, Lives(env, w, actions[..|actions| - 1]), actions[|actions| - 1]);
    }
  }

  /** So the follower is safe in every run whose skips meet configurations that agree in these two respects. */
  lemma FollowerIsSafeForAgreeingConfigs(names: seq<string>, valid: RouterConfig -> Reply, w: World,
                                         actions: seq<Action>)
    requires var env := StandardEnv(names, valid);
             && AllPossible(env, w, actions) && Hashed(env, w.core) && RecordedSafely(env, w)
             && Growing(Lives(env, w, actions).history)
             && forall i :: 0 <= i < |actions| && Skips(env, Lives(env, w, actions[..i]), actions[i]) ==>
                  var v := Lives(env, w, actions[..i]);
                  var mine, theirs := RunningConfig(v.core).value,
                  Snapshotted(v.history + actions[i].between, actions[i].reading).config;
                  EnabledSet(mine) == EnabledSet(theirs) && ConfigsAgreeOnEmpty(mine, theirs)
    ensures var env := StandardEnv(names, valid); RecordedSafely(env, Lives(env, w, actions))
  {
    var env := StandardEnv(names, valid);
    StandardEnvIsLawful(names, valid);
    forall i | 0 <= i < |actions|
      ensures SkipsRightly(env, Lives(env, w, actions[..i]), actions[i])
    {
      var v := Lives(env, w, actions[..i]);
      if Skips(env, v, actions[i]) {
        HashedLives(env, w, actions[..i]);
        SkipIsRightIff(names, valid, v, actions[i]);
      }
    }
    FollowerIsSafe(env, w, actions);
  }

  /**
   The follower records a revision it does not run: SSH is explicitly disabled in the store, and the hash does
   not tell.
   */
  lemma SkipLosesExplicitDisable()
    ensures var env := StandardEnv([], _ => None);
            var core := Core(Some(NewSnapshot(env, Some(SshDisabled(false)), 1, "", "")), 1, []);
            var w := World(core, FRESH, [Entry(1, SshDisabled(true))]);
            var w' := Next(env, w, Tick(1, true, 1, [], Reads, Replies([], [], [])));
            w'.sync.lastRevision == 1 && w'.core == core && !RecordedSafely(env, w')
  {
    var env := StandardEnv([], _ => None);
    var core := Core(Some(NewSnapshot(env, Some(SshDisabled(false)), 1, "", "")), 1, []);
    HashMissesExplicitDisable();
    CloneKeepsHash(SshDisabled(false));
    CloneKeepsHash(SshDisabled(true));
    SeenOfClone(SshDisabled(false));
    var w := World(core, FRESH, [Entry(1, SshDisabled(true))]);
    assert w.history + [] == w.history;
    assert !ShouldApply(env, core.running, SshDisabled(true));
  }
}
