/**
 The commit hook and the startup code (cmd/arca-routerd/main.go) as they drive the Engine, each
 proved to compute its specification in CommitHook.
 */
module CommitCalls {
  import opened Wrappers
  import opened ConfigModel
  import opened Diff
  import opened EngineSpec
  import opened EngineTheorems
  import opened ConfigEngine
  import opened CommitHook

  /** snapshotConfig */
  function SnapshotConfig(snap: Option<SnapshotRef>): ConfigTree? {
    if snap.None? then null else snap.value.tree
  }

  /** Engine.Apply, as the specification of the hook sees it. */
  method ApplyTree(eng: Engine, cfg: ConfigTree, user: string, message: string)
    returns (res: Result, ghost r: Replies, ghost calls: seq<Call>)
    requires eng.Valid()
    modifies eng, eng.outside, eng.outside.trees, eng.outside.diffs
    ensures eng.Valid() && eng.outside.Grew()
    ensures ApplyDone(eng.env, old(eng.State()), old(cfg.cfg), user, message, r, Outcome(eng.State(), res, calls))
    ensures eng.outside.calls == old(eng.outside.calls) + calls
  {
    res, r, calls := eng.Apply(cfg, user, message);
  }

  /** rollbackEngineToSnapshot */
  method RollbackEngineToSnapshot(eng: Engine, snap: Option<SnapshotRef>, user: string, message: string)
    returns (res: Result, ghost r: Replies, ghost calls: seq<Call>)
    requires eng.Valid()
    modifies eng, eng.outside, eng.outside.trees, eng.outside.diffs
    ensures eng.Valid() && eng.outside.Grew()
    ensures ApplyDone(eng.env, old(eng.State()), OrEmpty(old(Content(SnapshotConfig(snap)))), user, message, r,
                      Outcome(eng.State(), res, calls))
    ensures eng.outside.calls == old(eng.outside.calls) + calls
  {
    var cfg := SnapshotConfig(snap);
    if cfg == null {
      cfg := new ConfigTree(EMPTY_CONFIG);
    }
    res, r, calls := ApplyTree(eng, cfg, user, message);
  }

  /** The common part of the hook and startup: apply, persist, undo. */
  method ApplyAndPersist(eng: Engine, cfg: ConfigTree, beforeSnap: Option<SnapshotRef>, user: string, message: string,
                         undo: string, persisting: Persisting)
    returns (res: HookResult, ghost r1: Replies, ghost r2: Replies, ghost calls: seq<Call>)
    requires eng.Valid() && (SnapshotConfig(beforeSnap) != null ==> SnapshotConfig(beforeSnap) !in eng.outside.trees)
    modifies eng, eng.outside, eng.outside.trees, eng.outside.diffs
    ensures eng.Valid()
    ensures PersistDone(eng.env, old(eng.State()), old(cfg.cfg), old(Content(SnapshotConfig(beforeSnap))), user,
                        message, undo, persisting, r1, r2, HookDone(eng.State(), res, calls))
    ensures eng.outside.calls == old(eng.outside.calls) + calls
  {
    var applied;
    ghost var env, core, config, before := eng.env, eng.State(), cfg.cfg, Content(SnapshotConfig(beforeSnap));
    applied, r1, calls := ApplyTree(eng, cfg, user, message);
    r2 := r1;
    ghost var o := Outcome(eng.State(), applied, calls);
    if applied != Success {
      res := EngineError(applied);
      NotUndone(env, core, config, before, user, message, undo, persisting, r1, r2, o);
    } else {
      match persisting
      case Persisted(id) =>
        res := Committed(id);
        NotUndone(env, core, config, before, user, message, undo, persisting, r1, r2, o);
      case NotPersisted(cause) =>
        var undone;
        ghost var more;
        undone, r2, more := RollbackEngineToSnapshot(eng, beforeSnap, user, undo);
        calls := calls + more;
        res := PersistError(cause, undone);
        Undone(env, core, config, before, user, message, undo, persisting, r1, r2, o,
               Outcome(eng.State(), undone, more));
    }
  }

  /** ComputeDiff(...).HasChanges() on two trees as they are. */
  method Changed(was: Option<RouterConfig>, now: RouterConfig) returns (changed: bool)
    ensures changed <==> Observed(OrEmpty(was)) != Observed(now)
  {
    var delta := ComputeDiff(was, Some(now));
    return HasChanges(delta);
  }

  /** The hook, once the request has been parsed and the dry run accepted. */
  method CommitCandidate(eng: Engine, newCfg: ConfigTree, user: string, message: string, persisting: Persisting)
    returns (res: HookResult, ghost r1: Replies, ghost r2: Replies, ghost calls: seq<Call>)
    requires eng.Valid()
    modifies eng, eng.outside, eng.outside.trees, eng.outside.diffs
    ensures eng.Valid()
    ensures ChangeDone(eng.env, c => Observed(c), old(eng.State()), old(newCfg.cfg), user, message, persisting, r1, r2,
                       HookDone(eng.State(), res, calls))
    ensures eng.outside.calls == old(eng.outside.calls) + calls
  {
    var beforeSnap := eng.RunningSnapshot();
    var before := SnapshotConfig(beforeSnap);
    ghost var env, core, config := eng.env, eng.State(), newCfg.cfg;
    var changed := Changed(if before == null then None else Some(before.cfg), newCfg.cfg);
    if !changed {
      ghost var silent := Pad([], |eng.env.names|);
      res, r1, r2, calls := NoChange, Replies(silent, silent, silent), Replies(silent, silent, silent), [];
      NothingChanges(env, c => Observed(c), core, config, user, message, persisting, r1, r2);
    } else {
      res, r1, r2, calls := ApplyAndPersist(eng, newCfg, beforeSnap, user, message, UNDO, persisting);
      SomethingChanges(env, c => Observed(c), core, config, user, message, persisting, r1, r2,
                       HookDone(eng.State(), res, calls));
    }
  }

  /** The hook, once the request has been parsed. */
  method TryThenCommit(eng: Engine, newCfg: ConfigTree, user: string, message: string, persisting: Persisting)
    returns (res: HookResult, ghost vs: seq<Reply>, ghost r1: Replies, ghost r2: Replies, ghost calls: seq<Call>)
    requires eng.Valid() && newCfg !in eng.outside.trees
    modifies eng, eng.outside, eng.outside.trees, eng.outside.diffs
    ensures eng.Valid()
    ensures TryDone(eng.env, c => Observed(c), old(eng.State()), old(newCfg.cfg), user, message, persisting, vs, r1, r2,
                    HookDone(eng.State(), res, calls))
    ensures eng.outside.calls == old(eng.outside.calls) + calls
  {
    ghost var env, core, config := eng.env, eng.State(), newCfg.cfg;
    var dryRun;
    ghost var asked, more;
    dryRun, vs, asked := eng.Validate(newCfg);
    if dryRun != Success {
      r1, r2, calls := Replies(vs, vs, vs), Replies(vs, vs, vs), asked;
      res := EngineError(dryRun);
      DryRunRefuses(env, c => Observed(c), core, config, user, message, persisting, vs, r1, r2, dryRun, asked);
    } else {
      res, r1, r2, more := CommitCandidate(eng, newCfg, user, message, persisting);
      calls := asked + more;
      DryRunPasses(env, c => Observed(c), core, config, user, message, persisting, vs, r1, r2, dryRun, asked,
                   HookDone(eng.State(), res, more));
    }
  }

  /** The function that newNETCONFCommitHook returns. */
  method Commit(eng: Engine, req: Request, user: string, message: string, persisting: Persisting)
    returns (res: HookResult, ghost vs: seq<Reply>, ghost r1: Replies, ghost r2: Replies, ghost calls: seq<Call>)
    requires eng.Valid()
    modifies eng, eng.outside, eng.outside.trees, eng.outside.diffs
    ensures eng.Valid() && |vs| == |eng.env.names| && Sized(eng.env, old(eng.State()), r1)
    ensures Sized(eng.env, old(eng.State()), r2)
    ensures (eng.State(), res)
            == Hook(eng.env, c => Observed(c), old(eng.State()), req, user, message, persisting, vs, r1, r2)
    ensures calls == if !req.Candidate? then []
                     else HookCalls(eng.env, c => Observed(c), old(eng.State()), req.config, user, message, persisting,
                                    vs, r1, r2)
    ensures eng.outside.calls == old(eng.outside.calls) + calls
  {
    vs, calls := Pad([], |eng.env.names|), [];
    r1, r2 := Replies(vs, vs, vs), Replies(vs, vs, vs);
    match req
    case NilRequest => res := Refused("commit request is nil");
    case Unparsable(cause) => res := Refused("parse candidate config: " + cause);
    case Unacceptable(cause) => res := Refused("validate candidate config: " + cause);
    case Candidate(cfg) =>
      var newCfg := new ConfigTree(cfg);
      ghost var core := eng.State();
      res, vs, r1, r2, calls := TryThenCommit(eng, newCfg, user, message, persisting);
      assert (eng.State(), res)
          == CommitHook.TryThenCommit(eng.env, c => Observed(c), core, cfg, user, message, persisting, vs, r1, r2);
  }

  /** applyInitialConfig */
  method ApplyInitialConfig(eng: Engine, snap: Option<Snapshot>, source: Source, preparing: Preparing)
    returns (res: HookResult, ghost r1: Replies, ghost r2: Replies, ghost calls: seq<Call>)
    requires eng.Valid()
    modifies eng, eng.outside, eng.outside.trees, eng.outside.diffs
    ensures eng.Valid() && Sized(eng.env, old(eng.State()), r1) && Sized(eng.env, old(eng.State()), r2)
    ensures (eng.State(), res) == InitialConfig(eng.env, old(eng.State()), snap, source, preparing, r1, r2)
    ensures calls == InitialCalls(eng.env, old(eng.State()), snap, source, preparing, r1, r2)
    ensures eng.outside.calls == old(eng.outside.calls) + calls
  {
    ghost var silent := Pad([], |eng.env.names|);
    r1, r2, calls := Replies(silent, silent, silent), Replies(silent, silent, silent), [];
    if snap.None? || snap.value.config.None? {
      res := Refused("initial configuration is nil");
    } else {
      var cfg := new ConfigTree(snap.value.config.value);
      if source == Datastore {
        var invalid := eng.env.valid(cfg.cfg);
        if invalid.Some? {
          res := Refused("validate datastore initial config: " + invalid.value);
        } else {
          eng.InitializeRunning(cfg, InitialVersion(snap.value));
          res := Committed("");
        }
      } else if preparing.NotPrepared? {
        res := Refused("prepare initial config persistence: " + preparing.cause);
      } else {
        res, r1, r2, calls := StartFrom(eng, cfg, InitialVersion(snap.value), if preparing.NoStore? then Persisted("")
                                        else preparing.persisting);
      }
    }
  }

  /** Startup from a file or from nothing. */
  method StartFrom(eng: Engine, cfg: ConfigTree, version: nat, persisting: Persisting)
    returns (res: HookResult, ghost r1: Replies, ghost r2: Replies, ghost calls: seq<Call>)
    requires eng.Valid() && cfg !in eng.outside.trees
    modifies eng, eng.outside, eng.outside.trees, eng.outside.diffs
    ensures eng.Valid() && Sized(eng.env, old(eng.State()), r1) && Sized(eng.env, old(eng.State()), r2)
    ensures (eng.State(), res)
            == CommitHook.StartFrom(eng.env, old(eng.State()), old(cfg.cfg), version, persisting, r1, r2)
    ensures var core := old(eng.State());
            calls == PersistCalls(eng.env, core, old(cfg.cfg), CloneOf(eng.env, RunningConfig(core)), "system", INITIAL,
                                  UNDO_INITIAL, persisting, r1, r2)
    ensures eng.outside.calls == old(eng.outside.calls) + calls
  {
    var beforeSnap := eng.RunningSnapshot();
    ghost var env, core, config := eng.env, eng.State(), cfg.cfg;
    res, r1, r2, calls := ApplyAndPersist(eng, cfg, beforeSnap, "system", INITIAL, UNDO_INITIAL, persisting);
    assert (eng.State(), res) == CommitThenPersist(env, core, config, CloneOf(env, RunningConfig(core)), "system",
                                                   INITIAL, UNDO_INITIAL, persisting, r1, r2);
    EnsureRunning(eng, cfg, version, res);
  }

  /** The end of startup: there is a running snapshot. */
  method EnsureRunning(eng: Engine, cfg: ConfigTree, version: nat, res: HookResult)
    requires eng.Valid()
    modifies eng
    ensures eng.Valid()
    ensures (eng.State(), res) == CommitHook.EnsureRunning(eng.env, old(cfg.cfg), version, (old(eng.State()), res))
  {
    if res.Committed? {
      var now := eng.RunningSnapshot();
      if now.None? {
        eng.InitializeRunning(cfg, version);
      }
    }
  }
}
