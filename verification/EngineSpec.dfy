/**
 One Engine.Apply call (internal/engine/engine.go) as a function of the engine's state, the
 candidate, and what every plugin answers.  Engine.Apply is proved to compute it, and the
 theorems about whole runs are proved of it.

 The engine looks at a configuration only through Clone, Validate, the diff and the hash.
 These four are the Env; StandardEnv has the ones of this model, and Lawful is all that the
 theorems need of them.
 */
module EngineSpec {
  import opened Wrappers
  import opened ConfigModel
  import opened Diff
  import opened HashVersusDiff

  // ---- What the engine uses of a configuration ------------------------------

  /** An error result: None is nil. */
  type Reply = Option<string>

  datatype Env = Env(
    names: seq<string>,                      // the plugins, in order
    valid: RouterConfig -> Reply,            // RouterConfig.Validate
    clone: RouterConfig -> RouterConfig,     // RouterConfig.Clone
    seen: RouterConfig -> Observation,       // what a diff of clones tells apart
    hash: RouterConfig -> RouterConfig)      // the hash in NewSnapshot

  function StandardEnv(names: seq<string>, valid: RouterConfig -> Reply): Env {
    Env(names, valid, c => Clone(c), c => Seen(c), c => HashOf(c))
  }

  ghost predicate Lawful(env: Env) {
    && (forall c {:trigger env.clone(env.clone(c))} :: env.clone(env.clone(c)) == env.clone(c))
    && (forall c {:trigger env.seen(env.clone(c))} :: env.seen(env.clone(c)) == env.seen(c))
    && (forall c {:trigger env.hash(env.clone(c))} :: env.hash(env.clone(c)) == env.hash(c))
    && env.clone(EMPTY_CONFIG) == EMPTY_CONFIG
  }

  lemma StandardEnvIsLawful(names: seq<string>, valid: RouterConfig -> Reply)
    ensures Lawful(StandardEnv(names, valid))
  {
    forall c ensures Clone(Clone(c)) == Clone(c) && Seen(Clone(c)) == Seen(c) && HashOf(Clone(c)) == HashOf(c) {
      CloneTwice(c);
      CloneKeepsHash(c);
    }
    assert Clone(EMPTY_CONFIG) == EMPTY_CONFIG;
  }

  function CloneOf(env: Env, c: Option<RouterConfig>): Option<RouterConfig> {
    match c
    case None => None
    case Some(cfg) => Some(env.clone(cfg))
  }

  // ---- Snapshots ------------------------------------------------------------

  const TWO_64 := 0x1_0000_0000_0000_0000

  /** version++ on a uint64. */
  function NextVersion(v: nat): nat {
    (v + 1) % TWO_64
  }

  datatype Snapshot = Snapshot(
    version: nat, config: Option<RouterConfig>, hash: Option<RouterConfig>, author: string, message: string)

  function NewSnapshot(env: Env, cfg: Option<RouterConfig>, version: nat, author: string, message: string): Snapshot {
    match cfg
    case None => Snapshot(version, None, None, author, message)
    case Some(c) => Snapshot(version, Some(env.clone(c)), Some(env.hash(env.clone(c))), author, message)
  }

  // ---- Plugins --------------------------------------------------------------

  /** What the system behind a plugin holds. */
  datatype South =
    | Reflects(config: RouterConfig)  // configured as config says
    | Partial(base: RouterConfig)     // somewhere between base and a change that failed half way
    | Lost                            // no promise

  /** ApplyChanges: a diff is promised to work only on a system that reflects its old side. */
  function SouthApply(env: Env, s: South, was: RouterConfig, now: RouterConfig, err: Reply): South {
    if s.Reflects? && env.seen(s.config) == env.seen(was) then (if err.None? then Reflects(now) else Partial(was))
        else Lost
  }

  /** RollbackChanges: undoes the diff, also after a partial or a no-op apply; a failed rollback promises nothing. */
  function SouthRollback(env: Env, s: South, was: RouterConfig, now: RouterConfig, err: Reply): South {
    if err.Some? then Lost
    else match s
      case Reflects(c) => if env.seen(c) == env.seen(now) || env.seen(c) == env.seen(was) then Reflects(was) else Lost
      case Partial(b) => if env.seen(b) == env.seen(was) then Reflects(was) else Lost
      case Lost => Lost
  }

  datatype Replies = Replies(validate: seq<Reply>, apply: seq<Reply>, rollback: seq<Reply>)

  /** The first plugin that answers with an error, or the number of plugins. */
  function FirstError(rs: seq<Reply>): (k: nat)
    ensures k <= |rs|
    ensures forall i :: 0 <= i < k ==> rs[i].None?
    ensures k < |rs| ==> rs[k].Some?
  {
    if rs == [] || rs[0].Some? then 0 else 1 + FirstError(rs[1..])
  }

  // ---- Calls a plugin receives ----------------------------------------------

  datatype Kind = ValidateCall | ApplyCall | RollbackCall

  /** A call: the two configurations of the diff handed over with it, and the answer. */
  datatype Call = Call(kind: Kind, plugin: nat, was: RouterConfig, now: RouterConfig, err: Reply)

  /** Plugins 0, 1, ... in order, answering rs. */
  function Upward(kind: Kind, rs: seq<Reply>, was: RouterConfig, now: RouterConfig): seq<Call> {
    seq(|rs|, i requires 0 <= i < |rs| => Call(kind, i, was, now, rs[i]))
  }

  /** Plugins |rs|-1 .. 0, answering rs: transaction.rollback walks the applied list backwards. */
  function Downward(kind: Kind, rs: seq<Reply>, was: RouterConfig, now: RouterConfig): seq<Call> {
    seq(|rs|, i requires 0 <= i < |rs| => Call(kind, |rs| - 1 - i, was, now, rs[|rs| - 1 - i]))
  }

  function SouthStep(env: Env, s: South, c: Call): South {
    match c.kind
    case ValidateCall => s
    case ApplyCall => SouthApply(env, s, c.was, c.now, c.err)
    case RollbackCall => SouthRollback(env, s, c.was, c.now, c.err)
  }

  /** What plugin j's system holds after a sequence of calls: the Plugin contract. */
  function SouthAfter(env: Env, s: South, calls: seq<Call>, j: nat): South {
    if calls == [] then s
    else
      var before := SouthAfter(env, s, calls[..|calls| - 1], j);
      if calls[|calls| - 1].plugin == j then SouthStep(env, before, calls[|calls| - 1]) else before
  }

  // ---- Apply ----------------------------------------------------------------

  datatype ApplyError = ApplyError(
    plugin: string, phase: string, rollbackAttempted: bool, rollbackSucceeded: bool, diagnostics: seq<string>,
    err: string)

  datatype Result =
    | Success
    | NilConfig
    | Invalid(cause: string)
    | Rejected(plugin: string, cause: string)
    | Failed(error: ApplyError)

  datatype Core = Core(running: Option<Snapshot>, version: nat, south: seq<South>)

  datatype Outcome = Outcome(core: Core, result: Result, calls: seq<Call>)

  function RunningConfig(core: Core): Option<RouterConfig> {
    if core.running.None? then None else core.running.value.config
  }

  function Diagnostic(name: string, cause: string): string {
    "plugin " + name + " rollback failed: " + cause
  }

  /** The rollback errors of a list of plugins, met from the last to the first. */
  function Diagnostics(names: seq<string>, rollback: seq<Reply>): seq<string>
    requires |names| == |rollback|
  {
    if names == [] then []
    else
      Diagnostics(names[1..], rollback[1..])
      + if rollback[0].Some? then [Diagnostic(names[0], rollback[0].value)] else []
  }

  /** Plugin k answered with an error: 0 .. k-1 had applied, k is part-way, all of 0 .. k are rolled back. */
  function RolledBack(env: Env, south: seq<South>, was: RouterConfig, now: RouterConfig, r: Replies, k: nat): seq<South>
    requires |south| == |r.apply| == |r.rollback|
  {
    seq(|south|, j requires 0 <= j < |south| =>
      if j <= k then SouthRollback(env, SouthApply(env, south[j], was, now, r.apply[j]), was, now, r.rollback[j])
          else south[j])
  }

  function Applied(env: Env, south: seq<South>, was: RouterConfig, now: RouterConfig): seq<South> {
    seq(|south|, j requires 0 <= j < |south| => SouthApply(env, south[j], was, now, None))
  }

  predicate Sized(env: Env, core: Core, r: Replies) {
    |env.names| == |core.south| == |r.validate| == |r.apply| == |r.rollback|
  }

  /** Plugin k failed with cause, and the rollbacks were answered like this. */
  function ApplyErrorAt(names: seq<string>, cause: string, rollback: seq<Reply>, k: nat): ApplyError
    requires k < |names| == |rollback|
  {
    var diagnostics := Diagnostics(names[..k + 1], rollback[..k + 1]);
    ApplyError(names[k], "apply", true, diagnostics == [], diagnostics, cause)
  }

  /** The part of Apply after a change was found between was and now. */
  function Commit(env: Env, core: Core, c: RouterConfig, was: RouterConfig, now: RouterConfig, author: string,
                  message: string, r: Replies): Outcome
    requires Sized(env, core, r)
  {
    var n := |env.names|;
    var v := FirstError(r.validate);
    if v < n then
      Outcome(core, Rejected(env.names[v], r.validate[v].value), Upward(ValidateCall, r.validate[..v + 1], was, now))
    else
      var k := FirstError(r.apply);
      if k < n then
        Outcome(core.(south := RolledBack(env, core.south, was, now, r, k)),
                Failed(ApplyErrorAt(env.names, r.apply[k].value, r.rollback, k)),
                Upward(ValidateCall, r.validate, was, now) + Upward(ApplyCall, r.apply[..k + 1], was, now)
                + Downward(RollbackCall, r.rollback[..k + 1], was, now))
      else
        var version := NextVersion(core.version);
        Outcome(Core(Some(NewSnapshot(env, Some(c), version, author, message)), version,
                     Applied(env, core.south, was, now)), Success,
                Upward(ValidateCall, r.validate, was, now) + Upward(ApplyCall, r.apply, was, now))
  }

  function OldSide(env: Env, core: Core): RouterConfig {
    OrEmpty(CloneOf(env, RunningConfig(core)))
  }

  /** Apply up to the diff: nil and invalid candidates and empty diffs end the call here. */
  function Early(env: Env, core: Core, candidate: Option<RouterConfig>): Option<Result> {
    if candidate.None? then Some(NilConfig)
    else
      var c := env.clone(candidate.value);
      if env.valid(c).Some? then Some(Invalid(env.valid(c).value))
      else if env.seen(OldSide(env, core)) == env.seen(env.clone(c)) then Some(Success)
      else None
  }

  function Apply(env: Env, core: Core, candidate: Option<RouterConfig>, author: string, message: string,
                 r: Replies): Outcome
    requires Sized(env, core, r)
  {
    var early := Early(env, core, candidate);
    if early.Some? then Outcome(core, early.value, [])
    else
      var c := env.clone(candidate.value);
      Commit(env, core, c, OldSide(env, core), env.clone(c), author, message, r)
  }

  /** InitializeRunning: installs a configuration without touching the plugins. */
  function Initialize(env: Env, core: Core, cfg: Option<RouterConfig>, version: nat): Core {
    core.(running := Some(NewSnapshot(env, cfg, version, "system", "initial load")), version := version)
  }

  /** The plugins' part of a dry run. */
  function DryRun(env: Env, vs: seq<Reply>, was: RouterConfig, now: RouterConfig): (Result, seq<Call>)
    requires |env.names| == |vs|
  {
    var v := FirstError(vs);
    if v < |vs| then (Rejected(env.names[v], vs[v].value), Upward(ValidateCall, vs[..v + 1], was, now))
    else (Success, Upward(ValidateCall, vs, was, now))
  }

  /** Engine.Validate: a dry run against the running configuration; it asks even when nothing changes. */
  function Validate(env: Env, core: Core, candidate: Option<RouterConfig>, vs: seq<Reply>): (Result, seq<Call>)
    requires |env.names| == |vs|
  {
    if candidate.None? then (NilConfig, [])
    else if env.valid(candidate.value).Some? then (Invalid(env.valid(candidate.value).value), [])
    else DryRun(env, vs, OldSide(env, core), env.clone(candidate.value))
  }
}
