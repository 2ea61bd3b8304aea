/**
 etcdConfigSynchronizer (cmd/arca-routerd/config_sync.go) as an object that drives the Engine, proved
 to compute Follower.Reconcile.  What the store answers, and the time, are parameters.
 */
module Synchronizer {
  import opened Wrappers
  import opened ConfigModel
  import opened EngineSpec
  import opened EngineTheorems
  import opened ConfigEngine
  import Follower

  class Synchronizer {
    const engine: Engine
    var status: Follower.SyncStatus
    var lastRunningRevision: nat

    constructor (engine: Engine)
      ensures this.engine == engine && State() == Follower.FRESH
    {
      this.engine := engine;
      status, lastRunningRevision := Follower.FRESH.status, 0;
    }

    ghost function State(): Follower.Sync
      reads this
    {
      Follower.Sync(status, lastRunningRevision)
    }

    /** setStatus */
    method SetStatus(s: Follower.SyncStatus, runningRevision: nat, updateRevision: bool)
      modifies this
      ensures State() == Follower.Sync(s, if updateRevision then runningRevision else old(lastRunningRevision))
    {
      status := s;
      if updateRevision {
        lastRunningRevision := runningRevision;
      }
    }

    /** The part of reconcile after a new revision was seen. */
    method Follow(runtime: Follower.SyncStatus, now: nat, load: Follower.Load)
      returns (ok: bool, ghost r: Replies, ghost calls: seq<Call>)
      requires engine.Valid()
      modifies this, engine, engine.outside, engine.outside.trees, engine.outside.diffs
      ensures engine.Valid() && engine.outside.Grew() && Sized(engine.env, old(engine.State()), r)
      ensures Follower.Reconciled(engine.State(), State(), ok) ==
              Follower.Follow(engine.env, old(engine.State()), old(State()), runtime, now, load, r)
      ensures calls == Follower.FollowCalls(engine.env, old(engine.State()), load, r)
      ensures engine.outside.calls == old(engine.outside.calls) + calls
    {
      ghost var silent := Pad([], |engine.env.names|);
      r, calls := Replies(silent, silent, silent), [];
      match load
      case LoadError =>
        SetStatus(runtime.(healthy := false, lastError := Follower.LOAD_ERROR), 0, false);
        ok := false;
      case Absent =>
        SetStatus(runtime.(healthy := false, lastError := Follower.MISSING), 0, false);
        ok := false;
      case Loaded(config) =>
        var apply := ShouldApplySyncedSnapshot(config);
        if !apply {
          SetStatus(runtime, runtime.runningRevision, true);
          ok := true;
        } else {
          ok, r, calls := ApplyLoaded(runtime, now, config);
        }
    }

    /** Apply the store's configuration and record how that went. */
    method ApplyLoaded(runtime: Follower.SyncStatus, now: nat, config: RouterConfig)
      returns (ok: bool, ghost r: Replies, ghost calls: seq<Call>)
      requires engine.Valid()
      modifies this, engine, engine.outside, engine.outside.trees, engine.outside.diffs
      ensures engine.Valid() && engine.outside.Grew() && Sized(engine.env, old(engine.State()), r)
      ensures Follower.Reconciled(engine.State(), State(), ok) ==
              Follower.ApplyLoaded(engine.env, old(engine.State()), old(State()), runtime, now, config, r)
      ensures calls == Apply(engine.env, old(engine.State()), Some(config), "config-sync",
                             "sync running config from etcd", r).calls
      ensures engine.outside.calls == old(engine.outside.calls) + calls
    {
      var tree := new ConfigTree(config);
      var res;
      res, r, calls := engine.Apply(tree, "config-sync", "sync running config from etcd");
      ghost var o := Outcome(engine.State(), res, calls);
      ok := Record(runtime, now, res, o);
    }

    /** The status after an Apply. */
    method Record(runtime: Follower.SyncStatus, now: nat, res: Result, ghost o: Outcome) returns (ok: bool)
      requires res == o.result
      modifies this
      ensures Follower.Reconciled(o.core, State(), ok) == Follower.Conclude(o, old(State()), runtime, now)
    {
      if res != Success {
        SetStatus(runtime.(healthy := false, lastError := Follower.APPLY_ERROR), 0, false);
      } else {
        SetStatus(runtime.(lastApply := now), runtime.runningRevision, true);
      }
      ok := res == Success;
    }

    /** shouldApplySyncedSnapshot, on a copy of the running snapshot. */
    method ShouldApplySyncedSnapshot(config: RouterConfig) returns (apply: bool)
      requires engine.Valid()
      ensures apply == Follower.ShouldApply(engine.env, engine.State().running, config)
    {
      var current := engine.RunningSnapshot();
      apply := current.None? || current.value.tree == null
          || current.value.hash != Some(engine.env.hash(engine.env.clone(config)));
    }

    /** reconcile */
    method Reconcile(now: nat, etcd: Option<Follower.EtcdStatus>, load: Follower.Load)
      returns (ok: bool, ghost r: Replies, ghost calls: seq<Call>)
      requires engine.Valid()
      modifies this, engine, engine.outside, engine.outside.trees, engine.outside.diffs
      ensures engine.Valid() && engine.outside.Grew() && Sized(engine.env, old(engine.State()), r)
      ensures Follower.Reconciled(engine.State(), State(), ok) ==
              Follower.Reconcile(engine.env, old(engine.State()), old(State()), now, etcd, load, r)
      ensures calls == Follower.ReconcileCalls(engine.env, old(engine.State()), old(State()), etcd, load, r)
      ensures engine.outside.calls == old(engine.outside.calls) + calls
    {
      ghost var silent := Pad([], |engine.env.names|);
      r, calls := Replies(silent, silent, silent), [];
      var runtime := status.(enabled := true, lastCheck := now);
      if etcd.None? {
        SetStatus(runtime.(healthy := false, lastError := Follower.STATUS_ERROR), 0, false);
        ok := false;
      } else {
        var seen := etcd.value;
        runtime := runtime.(healthy := true, lastError := "", etcdRevision := seen.revision,
                            runningRevision := seen.runningRevision,
                            commitID := seen.commitID, timestamp := seen.timestamp);
        if seen.runningRevision == 0 || seen.runningRevision == lastRunningRevision {
          SetStatus(runtime, 0, false);
          ok := true;
        } else {
          ok, r, calls := Follow(runtime, now, load);
        }
      }
    }
  }
}
