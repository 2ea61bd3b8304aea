/**
 The callers that compensate (cmd/arca-routerd/main.go): the NETCONF commit hook and the startup
 code apply a configuration, persist it, and undo the change by applying the previous
 snapshot when it cannot be persisted.  Nobody else writes to the engine meanwhile.
 */
module CommitHook {
  import opened Wrappers
  import opened ConfigModel
  import opened Diff
  import opened EmptyLists
  import opened HashVersusDiff
  import opened EngineSpec
  import opened EngineTheorems
  import opened EngineOutcomes

  // ---- The NETCONF commit hook ------------------------------------------------

  /** A commit request, after the parser, the legacy checks and FromLegacyConfig. */
  datatype Request =
    | NilRequest
    | Unparsable(cause: string)
    | Unacceptable(cause: string)
    | Candidate(config: RouterConfig)

  datatype Persisting = Persisted(id: string) | NotPersisted(cause: string)

  datatype HookResult =
    | Committed(id: string)
    | Refused(cause: string)
    | EngineError(result: Result)
    | NoChange
    | PersistError(cause: string, undo: Result)  // undo is Success, or why the rollback failed

  const UNDO := "rollback failed NETCONF commit persistence"

  /** rollbackEngineToSnapshot: the previous configuration, the empty one for none, is applied again. */
  function Undo(env: Env, core: Core, before: Option<RouterConfig>, user: string, message: string, r: Replies): Outcome
    requires Sized(env, core, r)
  {
    Apply(env, core, Some(OrEmpty(before)), user, message, r)
  }

  /** newNETCONFCommitHook; vs, r1 and r2 are the answers of the plugins in the dry run, the commit and the undo. */
  function Hook(env: Env, observed: RouterConfig -> Observation, core: Core, req: Request, user: string,
                message: string,
                persisting: Persisting, vs: seq<Reply>, r1: Replies, r2: Replies): (Core, HookResult)
    requires Sized(env, core, r1) && Sized(env, core, r2) && |vs| == |env.names|
  {
    match req
    case NilRequest => (core, Refused("commit request is nil"))
    case Unparsable(cause) => (core, Refused("parse candidate config: " + cause))
    case Unacceptable(cause) => (core, Refused("validate candidate config: " + cause))
    case Candidate(cfg) => TryThenCommit(env, observed, core, cfg, user, message, persisting, vs, r1, r2)
  }

  /** The hook, once the request has been parsed. */
  function TryThenCommit(env: Env, observed: RouterConfig -> Observation, core: Core, cfg: RouterConfig, user: string,
                         message: string,
                         persisting: Persisting, vs: seq<Reply>, r1: Replies, r2: Replies): (Core, HookResult)
    requires Sized(env, core, r1) && Sized(env, core, r2) && |vs| == |env.names|
  {
    var v := Validate(env, core, Some(cfg), vs).0;
    if v != Success then (core, EngineError(v))
    else CommitIfChanged(env, observed, core, cfg, user, message, persisting, r1, r2)
  }

  /** The hook's own check for changes, on the tree it has parsed. */
  function CommitIfChanged(env: Env, observed: RouterConfig -> Observation, core: Core, cfg: RouterConfig, user: string,
                           message: string,
                           persisting: Persisting, r1: Replies, r2: Replies): (Core, HookResult)
    requires Sized(env, core, r1) && Sized(env, core, r2)
  {
    var before := CloneOf(env, RunningConfig(core));
    if observed(OrEmpty(before)) == observed(cfg) then (core, NoChange)
    else CommitThenPersist(env, core, cfg, before, user, message, UNDO, persisting, r1, r2)
  }

  /** Apply, persist, and undo if that fails. */
  function CommitThenPersist(env: Env, core: Core, cfg: RouterConfig, before: Option<RouterConfig>, user: string,
                             message: string, undo: string,
                             persisting: Persisting, r1: Replies, r2: Replies): (c: (Core, HookResult))
    requires Sized(env, core, r1) && Sized(env, core, r2)
    ensures |c.0.south| == |core.south|
  {
    var o := Apply(env, core, Some(cfg), user, message, r1);
    if o.result != Success then (o.core, EngineError(o.result))
    else match persisting
      case Persisted(id) => (o.core, Committed(id))
      case NotPersisted(cause) =>
        var u := Undo(env, o.core, before, user, undo, r2);
        (u.core, PersistError(cause, u.result))
  }

  // ---- The calls the plugins receive ------------------------------------------

  /** Those of a commit and, if it cannot be persisted, of the undo. */
  function PersistCalls(env: Env, core: Core, cfg: RouterConfig, before: Option<RouterConfig>, user: string,
                        message: string, undo: string, persisting: Persisting, r1: Replies, r2: Replies): seq<Call>
    requires Sized(env, core, r1) && Sized(env, core, r2)
  {
    var o := Apply(env, core, Some(cfg), user, message, r1);
    if o.result != Success || persisting.Persisted? then o.calls
    else o.calls + Undo(env, o.core, before, user, undo, r2).calls
  }

  function ChangeCalls(env: Env, observed: RouterConfig -> Observation, core: Core, cfg: RouterConfig, user: string,
                       message: string, persisting: Persisting, r1: Replies, r2: Replies): seq<Call>
    requires Sized(env, core, r1) && Sized(env, core, r2)
  {
    var before := CloneOf(env, RunningConfig(core));
    if observed(OrEmpty(before)) == observed(cfg) then []
    else PersistCalls(env, core, cfg, before, user, message, UNDO, persisting, r1, r2)
  }

  /** The hook asks in a dry run first. */
  function HookCalls(env: Env, observed: RouterConfig -> Observation, core: Core, cfg: RouterConfig, user: string,
                     message: string, persisting: Persisting, vs: seq<Reply>, r1: Replies, r2: Replies): seq<Call>
    requires Sized(env, core, r1) && Sized(env, core, r2) && |vs| == |env.names|
  {
    var (dryRun, calls) := Validate(env, core, Some(cfg), vs);
    if dryRun != Success then calls
    else calls + ChangeCalls(env, observed, core, cfg, user, message, persisting, r1, r2)
  }

  /** The state, the answer and the calls after a commit are these. */
  datatype HookDone = HookDone(core: Core, result: HookResult, calls: seq<Call>)

  /**
   o is the outcome of this Apply.  A quantifier, like the next three, so that the solver unfolds the
   specification only where a proof mentions it.
   */
  ghost predicate ApplyDone(env: Env, core: Core, cfg: RouterConfig, user: string, message: string, r: Replies,
                            o: Outcome) {
    && Sized(env, core, r) && |o.core.south| == |core.south|
    && forall m {:trigger Apply(env, core, Some(cfg), user, m, r)} :: m == message ==>
         o == Apply(env, core, Some(cfg), user, m, r)
  }

  /** done is what CommitThenPersist leads to. */
  ghost predicate PersistDone(env: Env, core: Core, cfg: RouterConfig, before: Option<RouterConfig>, user: string,
                              message: string, undo: string, persisting: Persisting, r1: Replies, r2: Replies,
                              done: HookDone) {
    && Sized(env, core, r1) && Sized(env, core, r2)
    && forall p {:trigger CommitThenPersist(env, core, cfg, before, user, message, undo, p, r1, r2)} ::
         p == persisting ==>
         && (done.core, done.result) == CommitThenPersist(env, core, cfg, before, user, message, undo, p, r1, r2)
         && done.calls == PersistCalls(env, core, cfg, before, user, message, undo, p, r1, r2)
  }

  ghost predicate ChangeDone(env: Env, observed: RouterConfig -> Observation, core: Core, cfg: RouterConfig,
                             user: string, message: string, persisting: Persisting, r1: Replies, r2: Replies,
                             done: HookDone) {
    && Sized(env, core, r1) && Sized(env, core, r2)
    && forall p {:trigger CommitIfChanged(env, observed, core, cfg, user, message, p, r1, r2)} :: p == persisting ==>
         && (done.core, done.result) == CommitIfChanged(env, observed, core, cfg, user, message, p, r1, r2)
         && done.calls == ChangeCalls(env, observed, core, cfg, user, message, p, r1, r2)
  }

  ghost predicate TryDone(env: Env, observed: RouterConfig -> Observation, core: Core, cfg: RouterConfig, user: string,
                          message: string, persisting: Persisting, vs: seq<Reply>, r1: Replies, r2: Replies,
                          done: HookDone) {
    && Sized(env, core, r1) && Sized(env, core, r2) && |vs| == |env.names|
    && forall p {:trigger TryThenCommit(env, observed, core, cfg, user, message, p, vs, r1, r2)} :: p == persisting ==>
         && (done.core, done.result) == TryThenCommit(env, observed, core, cfg, user, message, p, vs, r1, r2)
         && done.calls == HookCalls(env, observed, core, cfg, user, message, p, vs, r1, r2)
  }

  /** A commit that is not undone, and what the plugins are called for. */
  lemma NotUndone(env: Env, core: Core, cfg: RouterConfig, before: Option<RouterConfig>, user: string, message: string,
                  undo: string, persisting: Persisting, r1: Replies, r2: Replies, o: Outcome)
    requires Sized(env, core, r2) && ApplyDone(env, core, cfg, user, message, r1, o)
    requires o.result != Success || persisting.Persisted?
    ensures var res := if o.result != Success then EngineError(o.result) else Committed(persisting.id);
            PersistDone(env, core, cfg, before, user, message, undo, persisting, r1, r2,
                        HookDone(o.core, res, o.calls))
  {
    assert o == Apply(env, core, Some(cfg), user, message, r1);
    assert PersistCalls(env, core, cfg, before, user, message, undo, persisting, r1, r2) == o.calls;
  }

  lemma Undone(env: Env, core: Core, cfg: RouterConfig, before: Option<RouterConfig>, user: string, message: string,
               undo: string, persisting: Persisting, r1: Replies, r2: Replies, o: Outcome, u: Outcome)
    requires ApplyDone(env, core, cfg, user, message, r1, o) && o.result == Success && persisting.NotPersisted?
    requires ApplyDone(env, o.core, OrEmpty(before), user, undo, r2, u)
    ensures PersistDone(env, core, cfg, before, user, message, undo, persisting, r1, r2,
                        HookDone(u.core, PersistError(persisting.cause, u.result), o.calls + u.calls))
  {
    assert o == Apply(env, core, Some(cfg), user, message, r1);
    assert u == Apply(env, o.core, Some(OrEmpty(before)), user, undo, r2);
  }

  lemma NothingChanges(env: Env, observed: RouterConfig -> Observation, core: Core, cfg: RouterConfig, user: string,
                       message: string, persisting: Persisting, r1: Replies, r2: Replies)
    requires Sized(env, core, r1) && Sized(env, core, r2)
    requires observed(OrEmpty(CloneOf(env, RunningConfig(core)))) == observed(cfg)
    ensures ChangeDone(env, observed, core, cfg, user, message, persisting, r1, r2, HookDone(core, NoChange, []))
  {
  }

  lemma SomethingChanges(env: Env, observed: RouterConfig -> Observation, core: Core, cfg: RouterConfig, user: string,
                         message: string, persisting: Persisting, r1: Replies, r2: Replies, done: HookDone)
    requires observed(OrEmpty(CloneOf(env, RunningConfig(core)))) != observed(cfg)
    requires PersistDone(env, core, cfg, CloneOf(env, RunningConfig(core)), user, message, UNDO, persisting, r1, r2,
                         done)
    ensures ChangeDone(env, observed, core, cfg, user, message, persisting, r1, r2, done)
  {
    var before := CloneOf(env, RunningConfig(core));
    assert (done.core, done.result)
        == CommitThenPersist(env, core, cfg, before, user, message, UNDO, persisting, r1, r2);
  }

  lemma DryRunRefuses(env: Env, observed: RouterConfig -> Observation, core: Core, cfg: RouterConfig, user: string,
                      message: string, persisting: Persisting, vs: seq<Reply>, r1: Replies, r2: Replies,
                      dryRun: Result, asked: seq<Call>)
    requires Sized(env, core, r1) && Sized(env, core, r2) && |vs| == |env.names|
    requires (dryRun, asked) == Validate(env, core, Some(cfg), vs) && dryRun != Success
    ensures TryDone(env, observed, core, cfg, user, message, persisting, vs, r1, r2,
                    HookDone(core, EngineError(dryRun), asked))
  {
  }

  lemma DryRunPasses(env: Env, observed: RouterConfig -> Observation, core: Core, cfg: RouterConfig, user: string,
                     message: string, persisting: Persisting, vs: seq<Reply>, r1: Replies, r2: Replies,
                     dryRun: Result, asked: seq<Call>, done: HookDone)
    requires |vs| == |env.names| && (dryRun, asked) == Validate(env, core, Some(cfg), vs) && dryRun == Success
    requires ChangeDone(env, observed, core, cfg, user, message, persisting, r1, r2, done)
    ensures TryDone(env, observed, core, cfg, user, message, persisting, vs, r1, r2,
                    done.(calls := asked + done.calls))
  {
    assert (done.core, done.result) == CommitIfChanged(env, observed, core, cfg, user, message, persisting, r1, r2);
  }

  /** Nothing is applied unless the dry run has asked every plugin about the change and none has objected. */
  lemma DryRunComesFirst(env: Env, observed: RouterConfig -> Observation, core: Core, cfg: RouterConfig, user: string,
                         message: string, persisting: Persisting, vs: seq<Reply>, r1: Replies, r2: Replies, i: nat)
    requires Sized(env, core, r1) && Sized(env, core, r2) && |vs| == |env.names|
    requires var calls := HookCalls(env, observed, core, cfg, user, message, persisting, vs, r1, r2);
             i < |calls| && calls[i].kind != ValidateCall
    ensures var calls := HookCalls(env, observed, core, cfg, user, message, persisting, vs, r1, r2);
            && |vs| <= i && FailsAt(vs, |vs|)
            && Asks(calls, 0, ValidateCall, vs, RunningCopy(env, core), env.clone(cfg))
  {
    var v := FirstError(vs);
    DryRunExact(env, core, Some(cfg), vs, v);
    var calls := Validate(env, core, Some(cfg), vs).1;
    assert forall j :: 0 <= j < |calls| ==> calls[j].kind == ValidateCall;
  }

  /** What the hook answers, by the dry run, its own comparison, the Apply and the store. */
  lemma HookResultIff(env: Env, observed: RouterConfig -> Observation, core: Core, req: Request, user: string,
                      message: string, persisting: Persisting, vs: seq<Reply>, r1: Replies, r2: Replies)
    requires Sized(env, core, r1) && Sized(env, core, r2) && |vs| == |env.names|
    ensures Hook(env, observed, core, req, user, message, persisting, vs, r1, r2).1.Refused? <==> !req.Candidate?
    ensures !req.Candidate? ==> Hook(env, observed, core, req, user, message, persisting, vs, r1, r2).0 == core
    ensures req.Candidate? ==>
            var (after, res) := Hook(env, observed, core, req, user, message, persisting, vs, r1, r2);
            var dryRun := Validate(env, core, Some(req.config), vs).0;
            var o := Apply(env, core, Some(req.config), user, message, r1);
            var was := RunningCopy(env, core);
            var tries := dryRun == Success && observed(was) != observed(req.config);
            var done := tries && o.result == Success;
            && (res == NoChange <==> dryRun == Success && observed(was) == observed(req.config))
            && (res.EngineError? <==> dryRun != Success || (tries && o.result != Success))
            && (res.EngineError? ==> res.result == if dryRun != Success then dryRun else o.result)
            && (res.Committed? <==> done && persisting.Persisted?) && (res.Committed? ==> res.id == persisting.id)
            && (res.PersistError? <==> done && persisting.NotPersisted?)
            && (!tries ==> after == core) && (tries && !res.PersistError? ==> after == o.core)
            && (res.PersistError? ==>
                var u := Apply(env, o.core, Some(was), user, "rollback failed NETCONF commit persistence", r2);
                res.cause == persisting.cause && res.undo == u.result && after == u.core)
  {
  }

  /** Apply leaves the candidate running, observably, exactly if it succeeds or nothing had to change. */
  lemma ApplyRuns(env: Env, core: Core, candidate: RouterConfig, author: string, message: string, r: Replies)
    requires Lawful(env) && Sized(env, core, r)
    ensures var o := Apply(env, core, Some(candidate), author, message, r);
            && (o.result == Success ==> SeenOf(env, RunningConfig(o.core)) == env.seen(candidate))
            && (o.result != Success ==> o.core.running == core.running)
  {
    OldSideSeen(env, core);
  }

  predicate UndoFailed(res: HookResult) {
    res.PersistError? && res.undo != Success
  }

  /**
   Compensation: after an error the engine runs what it ran before, observably, unless the error
   reports a failed rollback, and then it runs the new configuration; after a commit it runs the new one.
   */
  lemma PersistCompensates(env: Env, core: Core, cfg: RouterConfig, user: string, message: string, undo: string,
                           persisting: Persisting, r1: Replies, r2: Replies)
    requires Lawful(env) && Sized(env, core, r1) && Sized(env, core, r2)
    ensures var (after, res) := CommitThenPersist(env, core, cfg, CloneOf(env, RunningConfig(core)), user, message,
                                                  undo, persisting, r1, r2);
            SeenOf(env, RunningConfig(after)) == if res.Committed?
                || UndoFailed(res) then env.seen(cfg) else SeenOf(env, RunningConfig(core))
  {
    var before := CloneOf(env, RunningConfig(core));
    ApplyRuns(env, core, cfg, user, message, r1);
    var o := Apply(env, core, Some(cfg), user, message, r1);
    if o.result == Success && persisting.NotPersisted? {
      ApplyRuns(env, o.core, OrEmpty(before), user, undo, r2);
      OldSideSeen(env, core);
    }
  }

  lemma HookCompensates(env: Env, observed: RouterConfig -> Observation, core: Core, req: Request, user: string,
                        message: string,
                        persisting: Persisting, vs: seq<Reply>, r1: Replies, r2: Replies)
    requires Lawful(env) && Sized(env, core, r1) && Sized(env, core, r2) && |vs| == |env.names|
    ensures var (after, res) := Hook(env, observed, core, req, user, message, persisting, vs, r1, r2);
            && (res.Committed? || UndoFailed(res) || after != core ==>
                req.Candidate? && Validate(env, core, Some(req.config), vs).0 == Success)
            && SeenOf(env, RunningConfig(after)) == if res.Committed?
            || UndoFailed(res) then env.seen(req.config) else SeenOf(env, RunningConfig(core))
  {
    if req.Candidate? {
      PersistCompensates(env, core, req.config, user, message, UNDO, persisting, r1, r2);
    }
  }

  /** If the commit changed the running configuration, the undo is a real commit: the diff back is not empty. */
  lemma UndoIsNotSkipped(env: Env, core: Core, cfg: RouterConfig, user: string, message: string, undo: string,
                         r1: Replies, r2: Replies)
    requires Lawful(env) && Sized(env, core, r1) && Sized(env, core, r2)
    requires var o := Apply(env, core, Some(cfg), user, message, r1);
             o.result == Success && o.core.running != core.running
    ensures var o := Apply(env, core, Some(cfg), user, message, r1);
            var before := CloneOf(env, RunningConfig(core));
            var u := Undo(env, o.core, before, user, undo, r2);
            && (u.result == Success <==>
                env.valid(env.clone(OrEmpty(before))).None?
                    && FirstError(r2.validate) == FirstError(r2.apply) == |env.names|)
            && (u.result == Success ==> u.core.version == NextVersion(o.core.version) && |u.calls| == 2 * |env.names|)
  {
    var before := CloneOf(env, RunningConfig(core));
    var o := Apply(env, core, Some(cfg), user, message, r1);
    ApplyRuns(env, core, cfg, user, message, r1);
    OldSideSeen(env, core);
    OldSideSeen(env, o.core);
  }

  /** A call of the hook in which some rollback failed, of the commit or of the undo. */
  predicate SomeRollbackFailed(res: HookResult) {
    || (res.EngineError? && RollbackFailed(res.result))
    || (res.PersistError? && RollbackFailed(res.undo))
  }

  lemma DryRunRollsNothingBack(env: Env, core: Core, cfg: RouterConfig, vs: seq<Reply>)
    requires |vs| == |env.names|
    ensures !Validate(env, core, Some(cfg), vs).0.Failed?
  {
  }

  lemma PersistKeepsSync(env: Env, core: Core, cfg: RouterConfig, before: Option<RouterConfig>, user: string,
                         message: string, undo: string,
                         persisting: Persisting, r1: Replies, r2: Replies)
    requires Lawful(env) && Sized(env, core, r1) && Sized(env, core, r2) && InSync(env, core)
    ensures var (after, res) := CommitThenPersist(env, core, cfg, before, user, message, undo, persisting, r1, r2);
            InSync(env, after) <==> !SomeRollbackFailed(res)
  {
    ApplyIsAtomic(env, core, Some(cfg), user, message, r1);
    var o := Apply(env, core, Some(cfg), user, message, r1);
    if o.result == Success {
      ApplyIsAtomic(env, o.core, Some(OrEmpty(before)), user, undo, r2);
    }
  }

  lemma HookKeepsSync(env: Env, observed: RouterConfig -> Observation, core: Core, req: Request, user: string,
                      message: string,
                      persisting: Persisting, vs: seq<Reply>, r1: Replies, r2: Replies)
    requires Lawful(env) && Sized(env, core, r1) && Sized(env, core, r2) && |vs| == |env.names| && InSync(env, core)
    ensures var (after, res) := Hook(env, observed, core, req, user, message, persisting, vs, r1, r2);
            InSync(env, after) <==> !SomeRollbackFailed(res)
  {
    if req.Candidate? {
      DryRunRollsNothingBack(env, core, req.config, vs);
      PersistKeepsSync(env, core, req.config, CloneOf(env, RunningConfig(core)), user, message, UNDO, persisting, r1,
                       r2);
    }
  }

  // ---- Commits that change nothing --------------------------------------------

  /**
   A commit the hook reports has been installed, unless the candidate looks different from the running
   configuration only before it is cloned: then the commit is persisted and the engine does nothing.
   */
  lemma CommitIsInstalledIff(env: Env, observed: RouterConfig -> Observation, core: Core, cfg: RouterConfig,
                             user: string, message: string,
                             id: string, vs: seq<Reply>, r1: Replies, r2: Replies)
    requires Lawful(env) && Sized(env, core, r1) && Sized(env, core, r2) && |vs| == |env.names|
    requires Hook(env, observed, core, Candidate(cfg), user, message, Persisted(id), vs, r1, r2).1.Committed?
    ensures var after := Hook(env, observed, core, Candidate(cfg), user, message, Persisted(id), vs, r1, r2).0;
            && observed(OldSide(env, core)) != observed(cfg)
            && (after != core <==> env.seen(cfg) != env.seen(OldSide(env, core)))
            && (after != core <==>
                after.running.Some? && after.version == NextVersion(core.version)
                && RunningConfig(after) == Some(env.clone(cfg)))
  {
    OldSideSeen(env, core);
  }

  /**
   Exactly which candidates get past the hook's own check and are then found unchanged by the engine: those
   that are the running configuration up to nil against empty string lists, and have an empty one.
   */
  lemma PhantomIff(before: RouterConfig, cfg: RouterConfig)
    requires Clone(before) == before
    ensures Observed(before) != Observed(cfg) && Seen(before) == Seen(cfg) <==>
            && Observed(before).(sections := SectionsOf(cfg)) == Observed(cfg)
            && SameSections(SectionsOf(before), SectionsOf(cfg)) && SectionsHaveEmptyList(SectionsOf(cfg))
  {
    CloneKeepsChangesIff(before, cfg);
    CloneAddsNoChange(before, cfg);
    DifferFromCloneIff(before, cfg);
  }

  lemma OldSideIsClone(names: seq<string>, valid: RouterConfig -> Reply, core: Core)
    ensures var before := OldSide(StandardEnv(names, valid), core); Clone(before) == before
  {
    CloneTwice(OrEmpty(RunningConfig(core)));
  }

  /** So, with the real diff and Clone: which reported commits the engine has not installed. */
  lemma CommitIsPhantomIff(names: seq<string>, valid: RouterConfig -> Reply, core: Core, cfg: RouterConfig,
                           user: string, message: string, id: string, vs: seq<Reply>, r1: Replies, r2: Replies)
    requires var env := StandardEnv(names, valid);
             && Sized(env, core, r1) && Sized(env, core, r2) && |vs| == |names|
             && Hook(env, c => Observed(c), core, Candidate(cfg), user, message, Persisted(id), vs, r1, r2).1.Committed?
    ensures var env := StandardEnv(names, valid);
            var before := OldSide(env, core);
            Hook(env, c => Observed(c), core, Candidate(cfg), user, message, Persisted(id), vs, r1, r2).0 == core <==>
            && Observed(before).(sections := SectionsOf(cfg)) == Observed(cfg)
            && SameSections(SectionsOf(before), SectionsOf(cfg)) && SectionsHaveEmptyList(SectionsOf(cfg))
  {
    StandardEnvIsLawful(names, valid);
    CommitIsInstalledIff(StandardEnv(names, valid), c => Observed(c), core, cfg, user, message, id, vs, r1, r2);
    OldSideIsClone(names, valid, core);
    PhantomIff(OldSide(StandardEnv(names, valid), core), cfg);
  }

  /** There are such commits: a VRF without imports, read from text as an empty list, kept by the engine as nil. */
  lemma PhantomCommit()
    ensures var env := StandardEnv([], _ => None);
            var core := Core(Some(NewSnapshot(env, Some(Vrf(Null)), 1, "", "")), 1, []);
            var none := Replies([], [], []);
            Hook(env, c => Observed(c), core, Candidate(Vrf(Strings([]))), "", "", Persisted("id"), [], none, none)
                == (core, Committed("id"))
  {
    var env := StandardEnv([], _ => None);
    var core := Core(Some(NewSnapshot(env, Some(Vrf(Null)), 1, "", "")), 1, []);
    UnclonedDiffReportsPhantomChange();
    CloneTwice(Vrf(Null));
    CloneTwice(Vrf(Strings([])));
    assert OldSide(env, core) == Vrf(Null);
    assert env.seen(OldSide(env, core)) == env.seen(env.clone(env.clone(Vrf(Strings([])))));
  }

  // ---- Startup ----------------------------------------------------------------

  datatype Source = Datastore | FileOrEmpty

  /** The store at startup: none, one that cannot prepare the commit, or one that can. */
  datatype Preparing = NoStore | NotPrepared(cause: string) | Prepared(persisting: Persisting)

  /** initialSnapshotVersion */
  function InitialVersion(snap: Snapshot): nat {
    if snap.version > 0 then snap.version else 1
  }

  const INITIAL := "initial startup"
  const UNDO_INITIAL := "rollback failed initial config persistence"

  /** applyInitialConfig; Committed means that startup goes on. */
  function InitialConfig(env: Env, core: Core, snap: Option<Snapshot>, source: Source, preparing: Preparing,
                         r1: Replies, r2: Replies): (Core, HookResult)
    requires Sized(env, core, r1) && Sized(env, core, r2)
  {
    if snap.None? || snap.value.config.None? then (core, Refused("initial configuration is nil"))
    else
      var cfg, version := snap.value.config.value, InitialVersion(snap.value);
      if source == Datastore then
        if env.valid(cfg).Some? then (core, Refused("validate datastore initial config: " + env.valid(cfg).value))
        else (Initialize(env, core, Some(cfg), version), Committed(""))
      else if preparing.NotPrepared? then (core, Refused("prepare initial config persistence: " + preparing.cause))
      else
        StartFrom(env, core, cfg, version, if preparing.NoStore? then Persisted("") else preparing.persisting, r1, r2)
  }

  /** Startup from a file or from nothing. */
  function StartFrom(env: Env, core: Core, cfg: RouterConfig, version: nat, persisting: Persisting, r1: Replies,
                     r2: Replies): (Core, HookResult)
    requires Sized(env, core, r1) && Sized(env, core, r2)
  {
    EnsureRunning(env, cfg, version,
                  CommitThenPersist(env, core, cfg, CloneOf(env, RunningConfig(core)), "system", INITIAL, UNDO_INITIAL,
                                    persisting, r1, r2))
  }

  /** The calls the plugins receive at startup: none with a configuration from the datastore. */
  function InitialCalls(env: Env, core: Core, snap: Option<Snapshot>, source: Source, preparing: Preparing,
                        r1: Replies, r2: Replies): seq<Call>
    requires Sized(env, core, r1) && Sized(env, core, r2)
  {
    if snap.None? || snap.value.config.None? || source == Datastore || preparing.NotPrepared? then []
    else
      PersistCalls(env, core, snap.value.config.value, CloneOf(env, RunningConfig(core)), "system", INITIAL,
                   UNDO_INITIAL, if preparing.NoStore? then Persisted("") else preparing.persisting, r1, r2)
  }

  /** A first configuration that changed nothing is installed without the plugins. */
  function EnsureRunning(env: Env, cfg: RouterConfig, version: nat, done: (Core, HookResult)): (Core, HookResult) {
    (if done.1.Committed? && done.0.running.None? then Initialize(env, done.0, Some(cfg), version) else done.0, done.1)
  }

  /** The version a stored snapshot is installed under: its own if it has one, else the first. */
  ghost predicate StartsAt(snap: Snapshot, version: nat) {
    if snap.version > 0 then version == snap.version else version == 1
  }

  /** Startup from the datastore: a valid configuration is installed under its version, without the plugins. */
  lemma InitialFromDatastore(env: Env, core: Core, snap: Option<Snapshot>, preparing: Preparing, r1: Replies,
                             r2: Replies)
    requires Sized(env, core, r1) && Sized(env, core, r2)
    ensures var (after, res) := InitialConfig(env, core, snap, Datastore, preparing, r1, r2);
            && (res.Committed? <==> snap.Some? && snap.value.config.Some? && env.valid(snap.value.config.value).None?)
            && (!res.Committed? ==> res.Refused? && after == core)
            && (res.Committed? ==>
                && StartsAt(snap.value, after.version) && after.south == core.south
                && IsSnapshotOf(env, after.running, snap.value.config, after.version, "system", "initial load"))
  {
  }

  /** Startup from a file: by the store and the Apply; if that found nothing to do, the first version is installed. */
  lemma InitialFromFile(env: Env, core: Core, snap: Option<Snapshot>, preparing: Preparing, r1: Replies, r2: Replies)
    requires Sized(env, core, r1) && Sized(env, core, r2)
    ensures var (after, res) := InitialConfig(env, core, snap, FileOrEmpty, preparing, r1, r2);
            var ready := snap.Some? && snap.value.config.Some? && !preparing.NotPrepared?;
            && (res.Refused? <==> !ready) && (!ready ==> after == core)
            && (ready ==>
                var o := Apply(env, core, snap.value.config, "system", "initial startup", r1);
                var stored := preparing.NoStore? || preparing.persisting.Persisted?;
                && (res.EngineError? <==> o.result != Success)
                && (res.EngineError? ==> res.result == o.result && after == o.core)
                && (res.Committed? <==> o.result == Success && stored)
                && (res.Committed? && o.core.running.Some? ==> after == o.core)
                && (res.Committed? && o.core.running.None? ==>
                    && StartsAt(snap.value, after.version) && after.south == o.core.south
                    && IsSnapshotOf(env, after.running, snap.value.config, after.version, "system", "initial load"))
                && (res.PersistError? <==> o.result == Success && !stored)
                && (res.PersistError? ==>
                    var u := Apply(env, o.core, Some(RunningCopy(env, core)), "system",
                                   "rollback failed initial config persistence", r2);
                    res.cause == preparing.persisting.cause && res.undo == u.result && after == u.core))
  {
  }

  /**
   Startup compensates like the hook, and when it goes on there is a running snapshot of the configuration it
   was given.
   */
  lemma InitialConfigCompensates(env: Env, core: Core, snap: Option<Snapshot>, source: Source, preparing: Preparing,
                                 r1: Replies, r2: Replies)
    requires Lawful(env) && Sized(env, core, r1) && Sized(env, core, r2)
    ensures var (after, res) := InitialConfig(env, core, snap, source, preparing, r1, r2);
            && (res.Committed? || UndoFailed(res) ==> snap.Some? && snap.value.config.Some?)
            && SeenOf(env, RunningConfig(after)) ==
                 (if res.Committed? || UndoFailed(res) then env.seen(snap.value.config.value)
                  else SeenOf(env, RunningConfig(core)))
            && (res.Committed? ==> after.running.Some?)
  {
    if snap.Some? && snap.value.config.Some? {
      var persisting := if preparing.Prepared? then preparing.persisting else Persisted("");
      PersistCompensates(env, core, snap.value.config.value, "system", INITIAL, UNDO_INITIAL, persisting, r1, r2);
    }
  }

  /**
   From a file, startup leaves every plugin with the running configuration, unless a rollback failed; from the
   datastore it assumes it.
   */
  lemma InitialConfigKeepsSync(env: Env, core: Core, snap: Option<Snapshot>, preparing: Preparing, r1: Replies,
                               r2: Replies)
    requires Lawful(env) && Sized(env, core, r1) && Sized(env, core, r2) && InSync(env, core)
    ensures var (after, res) := InitialConfig(env, core, snap, FileOrEmpty, preparing, r1, r2);
            InSync(env, after) <==> !SomeRollbackFailed(res)
  {
    if snap.Some? && snap.value.config.Some? {
      var cfg := snap.value.config.value;
      var persisting := if preparing.Prepared? then preparing.persisting else Persisted("");
      PersistCompensates(env, core, cfg, "system", INITIAL, UNDO_INITIAL, persisting, r1, r2);
      PersistKeepsSync(env, core, cfg, CloneOf(env, RunningConfig(core)), "system", INITIAL, UNDO_INITIAL, persisting,
                       r1, r2);
    }
  }
}
