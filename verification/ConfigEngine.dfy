/**
 Engine (internal/engine/engine.go) with its plugins and the configuration trees they share.

 A ConfigTree is a *RouterConfig: one mutable object per tree.  Outside holds every tree
 and diff that code outside the engine has a pointer to, and every plugin call may change
 all of them in any way.  Whatever the engine computes is nevertheless a function of
 what it was given, because it hands out clones only.
 */
module ConfigEngine {
  import opened Wrappers
  import opened ConfigModel
  import opened Diff
  import opened EngineSpec
  import opened EngineTheorems

  // ---- Trees and diffs on the heap ------------------------------------------

  class ConfigTree {
    var cfg: RouterConfig

    constructor (c: RouterConfig)
      ensures cfg == c
    {
      cfg := c;
    }
  }

  /** A *ConfigDiff: its two trees and the changes computed from them. */
  class DiffTree {
    const wasTree: ConfigTree
    const nowTree: ConfigTree
    var delta: ConfigDiff

    constructor (was: ConfigTree, now: ConfigTree, d: ConfigDiff)
      ensures wasTree == was && nowTree == now && delta == d
    {
      wasTree := was;
      nowTree := now;
      delta := d;
    }

    /** The diff is about these two configurations, and lists the changes between them. */
    ghost predicate Holds(was: RouterConfig, now: RouterConfig)
      reads this, wasTree, nowTree
    {
      wasTree.cfg == was && nowTree.cfg == now && Computed(was, now, delta)
    }
  }

  /**
   The Env is the one of this model.  Written as a quantifier over a StandardEnv term so that the solver
   unfolds Clone, Seen and the hash only where a proof mentions one, which is in DiffOf alone.
   */
  ghost predicate Standard(env: Env) {
    forall names, valid {:trigger StandardEnv(names, valid)} :: names == env.names && valid == env.valid ==>
        env == StandardEnv(names, valid)
  }

  /**
   The changes listed are those between the two configurations.  A quantifier for the same reason: IsDiff
   is large, and no caller needs to look into it.
   */
  ghost predicate Computed(was: RouterConfig, now: RouterConfig, delta: ConfigDiff) {
    forall d {:trigger IsDiff(was, now, d)} :: d == delta ==> IsDiff(was, now, d)
  }

  method CloneTree(env: Env, t: ConfigTree) returns (r: ConfigTree)
    ensures fresh(r) && r.cfg == env.clone(t.cfg)
  {
    r := new ConfigTree(env.clone(t.cfg));
  }

  /** ComputeDiff on two clones. */
  method DiffOf(env: Env, was: ConfigTree, now: ConfigTree) returns (d: DiffTree)
    requires Standard(env) && env.clone(was.cfg) == was.cfg && env.clone(now.cfg) == now.cfg
    ensures fresh(d) && d.wasTree == was && d.nowTree == now && Computed(was.cfg, now.cfg, d.delta)
    ensures HasChanges(d.delta) <==> env.seen(was.cfg) != env.seen(now.cfg)
  {
    var delta := ComputeDiff(Some(was.cfg), Some(now.cfg));
    d := new DiffTree(was, now, delta);
    assert env == StandardEnv(env.names, env.valid);
    assert Clone(was.cfg) == was.cfg && Clone(now.cfg) == now.cfg;
  }

  /** ConfigDiff.Clone: recomputed on clones of both trees. */
  method CloneDiff(env: Env, d: DiffTree, ghost was: RouterConfig, ghost now: RouterConfig) returns (r: DiffTree)
    requires Standard(env) && d.Holds(was, now) && env.clone(was) == was && env.clone(now) == now
    ensures fresh(r) && fresh(r.wasTree) && fresh(r.nowTree) && r.wasTree != r.nowTree
    ensures r.Holds(was, now)
  {
    var wasTree := CloneTree(env, d.wasTree);
    var nowTree := CloneTree(env, d.nowTree);
    r := DiffOf(env, wasTree, nowTree);
  }

  // ---- The world outside ----------------------------------------------------

  class Outside {
    ghost var trees: set<ConfigTree>
    ghost var diffs: set<DiffTree>
    ghost var calls: seq<Call>

    constructor ()
      ensures trees == {} && diffs == {} && calls == []
    {
      trees, diffs, calls := {}, {}, [];
    }

    ghost predicate Has(d: DiffTree)
      reads this
    {
      d in diffs && d.wasTree in trees && d.nowTree in trees
    }

    ghost predicate Lacks(d: DiffTree)
      reads this
    {
      d !in diffs && d.wasTree !in trees && d.nowTree !in trees
    }

    /** Only new trees and diffs have come to be known outside. */
    twostate predicate Grew()
      reads this
    {
      && old(trees) <= trees && (forall t :: t in trees ==> t in old(trees) || fresh(t))
      && old(diffs) <= diffs && (forall d :: d in diffs ==> d in old(diffs) || fresh(d))
    }

    /** At most these trees and diffs have come to be known outside. */
    twostate predicate GrewBy(ts: set<ConfigTree>, ds: set<DiffTree>)
      reads this
    {
      && old(trees) <= trees && (forall t :: t in trees ==> t in old(trees) || t in ts)
      && old(diffs) <= diffs && (forall d :: d in diffs ==> d in old(diffs) || d in ds)
    }

    ghost method Leak(d: DiffTree)
      modifies this
      ensures trees == old(trees) + {d.wasTree, d.nowTree} && diffs == old(diffs) + {d} && calls == old(calls)
    {
      trees, diffs := trees + {d.wasTree, d.nowTree}, diffs + {d};
    }
  }

  /** A southbound integration: it answers as it pleases, and what it does behind is SouthAfter its calls. */
  class Plugin {
    const name: string
    const index: nat

    constructor (name: string, index: nat)
      ensures this.name == name && this.index == index
    {
      this.name, this.index := name, index;
    }

    /** Any answer, and any damage to the trees that were handed over. */
    method Call(ghost kind: Kind, d: DiffTree, outside: Outside) returns (err: Reply)
      requires outside.Has(d) && d.Holds(d.wasTree.cfg, d.nowTree.cfg)
      modifies outside`calls, outside.trees, outside.diffs
      ensures outside.calls == old(outside.calls)
              + [EngineSpec.Call(kind, index, old(d.wasTree.cfg), old(d.nowTree.cfg), err)]
    {
      err := *;
      outside.calls := outside.calls + [EngineSpec.Call(kind, index, d.wasTree.cfg, d.nowTree.cfg, err)];
      d.wasTree.cfg := *;
      d.nowTree.cfg := *;
    }
  }

  /** Hands a diff over and calls the plugin with it. */
  method HandOver(kind: Kind, p: Plugin, d: DiffTree, outside: Outside) returns (err: Reply)
    requires d.Holds(d.wasTree.cfg, d.nowTree.cfg)
    modifies outside, outside.trees, outside.diffs, d, d.wasTree, d.nowTree
    ensures outside.calls == old(outside.calls)
            + [EngineSpec.Call(kind, p.index, old(d.wasTree.cfg), old(d.nowTree.cfg), err)]
    ensures outside.trees == old(outside.trees) + {d.wasTree, d.nowTree} && outside.diffs == old(outside.diffs) + {d}
  {
    outside.Leak(d);
    err := p.Call(kind, d, outside);
  }

  // ---- The transaction ------------------------------------------------------

  datatype AppliedPlugin = AppliedPlugin(plugin: Plugin, diff: DiffTree)

  ghost predicate Numbered(ps: seq<Plugin>) {
    forall i :: 0 <= i < |ps| ==> ps[i].index == i
  }

  ghost predicate Named(ps: seq<Plugin>, names: seq<string>) {
    |names| == |ps| && forall i :: 0 <= i < |ps| ==> names[i] == ps[i].name
  }

  ghost predicate Apart(d: DiffTree, e: DiffTree) {
    d != e && {d.wasTree, d.nowTree} !! {e.wasTree, e.nowTree}
  }

  /** The entries of a transaction: one per plugin, in order, no diff sharing anything with another. */
  ghost predicate WellFormed(tx: seq<AppliedPlugin>, ps: seq<Plugin>) {
    && |tx| <= |ps|
    && (forall i :: 0 <= i < |tx| ==> tx[i].plugin == ps[i])
    && forall i, j :: 0 <= j < i < |tx| ==> Apart(tx[i].diff, tx[j].diff)
  }

  ghost predicate Covered(tx: seq<AppliedPlugin>, trees: set<ConfigTree>, diffs: set<DiffTree>) {
    forall i :: 0 <= i < |tx| ==> tx[i].diff in diffs && tx[i].diff.wasTree in trees && tx[i].diff.nowTree in trees
  }

  lemma Append(tx: seq<AppliedPlugin>, ps: seq<Plugin>, trees: set<ConfigTree>, diffs: set<DiffTree>, d: DiffTree)
    requires WellFormed(tx, ps) && |tx| < |ps| && Covered(tx, trees, diffs)
    requires d !in diffs && d.wasTree !in trees && d.nowTree !in trees
    ensures WellFormed(tx + [AppliedPlugin(ps[|tx|], d)], ps)
    ensures Covered(tx + [AppliedPlugin(ps[|tx|], d)], trees + {d.wasTree, d.nowTree}, diffs + {d})
  {
  }

  /** The first n rollback diffs are still the engine's own and still say what they said. */
  ghost predicate Ready(tx: seq<AppliedPlugin>, n: nat, outside: Outside, was: RouterConfig, now: RouterConfig)
    requires n <= |tx|
    reads outside, set a | a in tx :: a.diff, set a | a in tx :: a.diff.wasTree, set a | a in tx :: a.diff.nowTree
  {
    forall i :: 0 <= i < n ==> tx[i].diff.Holds(was, now) && outside.Lacks(tx[i].diff)
  }

  lemma DiagnosticsStep(names: seq<string>, rest: seq<string>, rs: seq<Reply>, err: Reply)
    requires |names| == |rs| + 1 && names[1..] == rest
    ensures Diagnostics(names, [err] + rs) == Diagnostics(rest, rs)
            + if err.Some? then [Diagnostic(names[0], err.value)] else []
  {
    assert ([err] + rs)[1..] == rs;
  }

  ghost function DownwardFrom(kind: Kind, rs: seq<Reply>, lo: nat, was: RouterConfig, now: RouterConfig): seq<Call> {
    seq(|rs|, i requires 0 <= i < |rs| => EngineSpec.Call(kind, lo + |rs| - 1 - i, was, now, rs[|rs| - 1 - i]))
  }

  lemma DownwardStep(kind: Kind, rs: seq<Reply>, lo: nat, was: RouterConfig, now: RouterConfig, err: Reply)
    ensures DownwardFrom(kind, [err] + rs, lo, was, now) == DownwardFrom(kind, rs, lo + 1, was, now)
            + [EngineSpec.Call(kind, lo, was, now, err)]
  {
  }

  /** One plugin takes its change back; the diffs of those before it stay as they are. */
  method RollbackOne(tx: seq<AppliedPlugin>, i: nat, outside: Outside, ghost ps: seq<Plugin>, ghost was: RouterConfig,
                     ghost now: RouterConfig,
                     ghost trees: set<ConfigTree>, ghost diffs: set<DiffTree>)
    returns (err: Reply)
    requires i < |tx| && Numbered(ps) && WellFormed(tx, ps) && Ready(tx, i + 1, outside, was, now)
    requires Covered(tx, trees, diffs)
    modifies outside, outside.trees, outside.diffs, trees, diffs
    ensures Ready(tx, i, outside, was, now) && outside.GrewBy(trees, diffs)
    ensures outside.calls == old(outside.calls) + [EngineSpec.Call(RollbackCall, i, was, now, err)]
  {
    assert forall j :: 0 <= j < i ==> Apart(tx[i].diff, tx[j].diff);
    err := HandOver(RollbackCall, tx[i].plugin, tx[i].diff, outside);
  }

  /** transaction.rollback: in reverse, past failures, collecting what went wrong. */
  method Rollback(tx: seq<AppliedPlugin>, outside: Outside, ghost ps: seq<Plugin>, ghost names: seq<string>,
                  ghost was: RouterConfig, ghost now: RouterConfig, ghost trees: set<ConfigTree>,
                  ghost diffs: set<DiffTree>)
    returns (errs: seq<string>, ghost rs: seq<Reply>)
    requires Numbered(ps) && Named(ps, names) && WellFormed(tx, ps) && Ready(tx, |tx|, outside, was, now)
    requires Covered(tx, trees, diffs)
    modifies outside, outside.trees, outside.diffs, trees, diffs
    ensures |rs| == |tx| && errs == Diagnostics(names[..|tx|], rs)
    ensures outside.calls == old(outside.calls) + Downward(RollbackCall, rs, was, now)
    ensures outside.GrewBy(trees, diffs)
  {
    errs, rs := [], [];
    var i := |tx|;
    while i > 0
      invariant 0 <= i <= |tx| && |rs| == |tx| - i
      invariant Ready(tx, i, outside, was, now) && outside.GrewBy(trees, diffs)
      invariant errs == Diagnostics(names[i..|tx|], rs)
      invariant outside.calls == old(outside.calls) + DownwardFrom(RollbackCall, rs, i, was, now)
    {
      i := i - 1;
      var err := RollbackOne(tx, i, outside, ps, was, now, trees, diffs);
      DiagnosticsStep(names[i..|tx|], names[i + 1..|tx|], rs, err);
      DownwardStep(RollbackCall, rs, i, was, now, err);
      rs := [err] + rs;
      if err.Some? {
        errs := errs + [Diagnostic(tx[i].plugin.name, err.value)];
      }
    }
    assert DownwardFrom(RollbackCall, rs, 0, was, now) == Downward(RollbackCall, rs, was, now);
  }

  // ---- The phases of Apply --------------------------------------------------

  /** The answers of k plugins asked so far: err is the last one, and all before it are nil. */
  ghost function Asked(k: nat, err: Reply): seq<Reply> {
    seq(k, i => if i == k - 1 then err else None)
  }

  lemma PadFacts(k: nat, err: Reply, n: nat)
    requires 0 < k <= n && err.Some?
    ensures |Pad(Asked(k, err), n)| == n && FailsAt(Pad(Asked(k, err), n), k - 1) && Pad(Asked(k, err), n)[k - 1] == err
    ensures Pad(Asked(k, err), n)[..k] == Asked(k, err)
  {
  }

  lemma UpwardStep(kind: Kind, k: nat, was: RouterConfig, now: RouterConfig, err: Reply)
    ensures Upward(kind, Asked(k + 1, err), was, now) == Upward(kind, Asked(k, None), was, now)
            + [EngineSpec.Call(kind, k, was, now, err)]
  {
  }

  /** Phase 1: every plugin is asked about its own clone of the diff; the first error ends it. */
  method ValidatePhase(env: Env, ps: seq<Plugin>, diff: DiffTree, outside: Outside, ghost was: RouterConfig,
                       ghost now: RouterConfig)
    returns (at: nat, cause: string, ghost vs: seq<Reply>)
    requires Numbered(ps) && diff.Holds(was, now) && outside.Lacks(diff) && Standard(env) && env.clone(was) == was
    requires env.clone(now) == now
    modifies outside, outside.trees, outside.diffs
    ensures |vs| == |ps| && FailsAt(vs, at) && (at < |ps| ==> vs[at] == Some(cause))
    ensures outside.calls == old(outside.calls) + Upward(ValidateCall, if at < |ps| then vs[..at + 1] else vs, was, now)
    ensures outside.Grew()
  {
    for i := 0 to |ps|
      invariant outside.calls == old(outside.calls) + Upward(ValidateCall, Asked(i, None), was, now)
      invariant outside.Grew()
    {
      var d := CloneDiff(env, diff, was, now);
      var err := HandOver(ValidateCall, ps[i], d, outside);
      UpwardStep(ValidateCall, i, was, now, err);
      if err.Some? {
        PadFacts(i + 1, err, |ps|);
        return i, err.value, Pad(Asked(i + 1, err), |ps|);
      }
    }
    return |ps|, "", Asked(|ps|, None);
  }

  /** One plugin applies its clone of the diff; a second clone is kept aside for its rollback. */
  method ApplyOne(env: Env, p: Plugin, diff: DiffTree, outside: Outside, ghost was: RouterConfig,
                  ghost now: RouterConfig)
    returns (rollbackDiff: DiffTree, err: Reply)
    requires diff.Holds(was, now) && Standard(env) && env.clone(was) == was && env.clone(now) == now
    modifies outside, outside.trees, outside.diffs
    ensures fresh(rollbackDiff) && fresh(rollbackDiff.wasTree) && fresh(rollbackDiff.nowTree)
    ensures rollbackDiff.Holds(was, now) && outside.Lacks(rollbackDiff)
    ensures outside.calls == old(outside.calls) + [EngineSpec.Call(ApplyCall, p.index, was, now, err)]
    ensures outside.Grew()
  {
    var applyDiff := CloneDiff(env, diff, was, now);
    rollbackDiff := CloneDiff(env, diff, was, now);
    err := HandOver(ApplyCall, p, applyDiff, outside);
  }

  /** The next plugin applies, and its rollback diff is appended to the transaction. */
  method ApplyNext(env: Env, ps: seq<Plugin>, tx: seq<AppliedPlugin>, diff: DiffTree, outside: Outside,
                   ghost was: RouterConfig, ghost now: RouterConfig, ghost trees: set<ConfigTree>,
                   ghost diffs: set<DiffTree>)
    returns (d: DiffTree, err: Reply)
    requires |tx| < |ps| && Numbered(ps) && WellFormed(tx, ps) && Ready(tx, |tx|, outside, was, now)
    requires Covered(tx, trees, diffs)
    requires diff.Holds(was, now) && outside.Lacks(diff) && Standard(env) && env.clone(was) == was
    requires env.clone(now) == now
    modifies outside, outside.trees, outside.diffs
    ensures var tx' := tx + [AppliedPlugin(ps[|tx|], d)];
            && WellFormed(tx', ps) && Ready(tx', |tx'|, outside, was, now)
            && Covered(tx', trees + {d.wasTree, d.nowTree}, diffs + {d})
    ensures fresh(d) && fresh(d.wasTree) && fresh(d.nowTree) && outside.Grew()
    ensures outside.calls == old(outside.calls) + [EngineSpec.Call(ApplyCall, |tx|, was, now, err)]
  {
    d, err := ApplyOne(env, ps[|tx|], diff, outside, was, now);
    Append(tx, ps, trees, diffs, d);
  }

  /** Apply in order until a plugin fails. */
  method ApplyLoop(env: Env, ps: seq<Plugin>, diff: DiffTree, outside: Outside, ghost was: RouterConfig,
                   ghost now: RouterConfig)
    returns (tx: seq<AppliedPlugin>, err: Reply, ghost trees: set<ConfigTree>, ghost diffs: set<DiffTree>)
    requires Numbered(ps) && diff.Holds(was, now) && outside.Lacks(diff)
    requires Standard(env) && env.clone(was) == was && env.clone(now) == now
    modifies outside, outside.trees, outside.diffs
    ensures WellFormed(tx, ps) && Ready(tx, |tx|, outside, was, now) && Covered(tx, trees, diffs)
    ensures fresh(trees) && fresh(diffs) && outside.Grew()
    ensures if err.None? then |tx| == |ps| else |tx| > 0
    ensures outside.calls == old(outside.calls) + Upward(ApplyCall, Asked(|tx|, err), was, now)
  {
    tx, err, trees, diffs := [], None, {}, {};
    while |tx| < |ps| && err.None?
      invariant |tx| <= |ps| && (err.Some? ==> |tx| > 0)
      invariant WellFormed(tx, ps) && Ready(tx, |tx|, outside, was, now) && Covered(tx, trees, diffs)
      invariant fresh(trees) && fresh(diffs) && outside.Grew()
      invariant outside.calls == old(outside.calls) + Upward(ApplyCall, Asked(|tx|, err), was, now)
    {
      var d;
      d, err := ApplyNext(env, ps, tx, diff, outside, was, now, trees, diffs);
      UpwardStep(ApplyCall, |tx|, was, now, err);
      tx := tx + [AppliedPlugin(ps[|tx|], d)];
      trees, diffs := trees + {d.wasTree, d.nowTree}, diffs + {d};
    }
  }

  /** Phase 2: apply in order; on an error roll back everything up to and including the plugin that failed. */
  method ApplyPhase(env: Env, ps: seq<Plugin>, diff: DiffTree, outside: Outside, ghost was: RouterConfig,
                    ghost now: RouterConfig)
    returns (at: nat, cause: string, errs: seq<string>, ghost applies: seq<Reply>, ghost rollbacks: seq<Reply>)
    requires Numbered(ps) && Named(ps, env.names) && diff.Holds(was, now) && outside.Lacks(diff) && Standard(env)
    requires env.clone(was) == was && env.clone(now) == now
    modifies outside, outside.trees, outside.diffs
    ensures |applies| == |rollbacks| == |ps| && FailsAt(applies, at)
    ensures at < |ps| ==>
              && applies[at] == Some(cause) && errs == Diagnostics(env.names[..at + 1], rollbacks[..at + 1])
              && outside.calls == old(outside.calls) + Upward(ApplyCall, applies[..at + 1], was, now)
                                  + Downward(RollbackCall, rollbacks[..at + 1], was, now)
    ensures at == |ps| ==> outside.calls == old(outside.calls) + Upward(ApplyCall, applies, was, now)
    ensures outside.Grew()
  {
    var tx, err;
    ghost var trees, diffs;
    tx, err, trees, diffs := ApplyLoop(env, ps, diff, outside, was, now);
    if err.None? {
      return |ps|, "", [], Asked(|ps|, None), Pad([], |ps|);
    }
    ghost var rs;
    errs, rs := Rollback(tx, outside, ps, env.names, was, now, trees, diffs);
    PadFacts(|tx|, err, |ps|);
    assert Pad(rs, |ps|)[..|tx|] == rs;
    return |tx| - 1, err.value, errs, Pad(Asked(|tx|, err), |ps|), Pad(rs, |ps|);
  }

  // ---- The engine -----------------------------------------------------------

  /** A ConfigSnapshot struct, its Config still a pointer. */
  datatype SnapshotRef = SnapshotRef(version: nat, tree: ConfigTree?, hash: Option<RouterConfig>, author: string,
                                     message: string)

  ghost function Content(t: ConfigTree?): Option<RouterConfig>
    reads t
  {
    if t == null then None else Some(t.cfg)
  }

  method NewSnapshotRef(env: Env, t: ConfigTree?, version: nat, author: string, message: string)
    returns (s: SnapshotRef)
    ensures s.tree != null ==> fresh(s.tree)
    ensures Snapshot(s.version, Content(s.tree), s.hash, s.author, s.message)
            == NewSnapshot(env, Content(t), version, author, message)
  {
    if t == null {
      s := SnapshotRef(version, null, None, author, message);
    } else {
      var copy := CloneTree(env, t);
      s := SnapshotRef(version, copy, Some(env.hash(copy.cfg)), author, message);
    }
  }

  /** What the systems behind the plugins hold after all calls. */
  ghost function SouthOf(env: Env, origin: seq<South>, calls: seq<Call>): seq<South> {
    seq(|origin|, j requires 0 <= j < |origin| => SouthAfter(env, origin[j], calls, j))
  }

  class Engine {
    const env: Env
    const plugins: seq<Plugin>
    const outside: Outside
    ghost const origin: seq<South>

    /** What the constructor was given fits together. */
    ghost const built: bool :=
      Lawful(env) && Standard(env) && Named(plugins, env.names) && Numbered(plugins) && |origin| == |plugins|

    var running: Option<SnapshotRef>
    var version: nat

    /** NewEngine; origin is what the plugins' systems hold at that time. */
    constructor (env: Env, plugins: seq<Plugin>, outside: Outside, ghost origin: seq<South>)
      requires Lawful(env) && Standard(env) && Named(plugins, env.names)
      requires Numbered(plugins) && |origin| == |plugins| && outside.calls == []
      ensures this.env == env && this.plugins == plugins && this.outside == outside && this.origin == origin
      ensures Valid() && State() == Core(None, 0, origin)
    {
      this.env, this.plugins, this.outside, this.origin := env, plugins, outside, origin;
      running, version := None, 0;
    }

    /** The engine's own tree is one nobody else can reach. */
    ghost predicate Valid()
      reads this, outside
    {
      && built
      && (running.Some? && running.value.tree != null ==> running.value.tree !in outside.trees)
    }

    ghost function Snap(): Option<Snapshot>
      reads this, if running.Some? then {running.value.tree} else {}
    {
      if running.None? then None
      else var s := running.value; Some(Snapshot(s.version, Content(s.tree), s.hash, s.author, s.message))
    }

    ghost function State(): Core
      reads this, outside, if running.Some? then {running.value.tree} else {}
    {
      Core(Snap(), version, SouthOf(env, origin, outside.calls))
    }

    /** A private copy of the running configuration, the empty one if there is none. */
    method OldTree() returns (t: ConfigTree)
      requires Valid()
      ensures fresh(t) && t.cfg == OldSide(env, State())
    {
      if running.None? || running.value.tree == null {
        t := new ConfigTree(EMPTY_CONFIG);
      } else {
        t := CloneTree(env, running.value.tree);
      }
    }

    /** Running: a copy of the running configuration for the caller to keep. */
    method Running() returns (t: ConfigTree)
      requires Valid()
      ensures fresh(t) && t.cfg == OldSide(env, State())
    {
      t := OldTree();
    }

    /** RunningSnapshot: nil before the first commit, else a deep copy. */
    method RunningSnapshot() returns (s: Option<SnapshotRef>)
      requires Valid()
      ensures s.Some? && s.value.tree != null ==> fresh(s.value.tree)
      ensures s.Some? <==> State().running.Some?
      ensures s.Some? ==>
                var c := State().running.value;
                Snapshot(s.value.version, Content(s.value.tree), s.value.hash, s.value.author, s.value.message)
                    == c.(config := CloneOf(env, c.config))
    {
      if running.None? { return None; }
      var s0 := running.value;
      if s0.tree == null { return Some(s0); }
      var copy := CloneTree(env, s0.tree);
      return Some(s0.(tree := copy));
    }

    /** InitializeRunning: installs a configuration without calling any plugin. */
    method InitializeRunning(cfg: ConfigTree?, version: nat)
      requires Valid()
      modifies this
      ensures Valid() && State() == Initialize(env, old(State()), old(Content(cfg)), version)
    {
      this.version := version;
      var s := NewSnapshotRef(env, cfg, version, "system", "initial load");
      running := Some(s);
    }

    /** Phases 2 and 3: apply everywhere, and install the candidate if that worked. */
    method ApplyAndInstall(c: ConfigTree, diff: DiffTree, author: string, message: string, ghost was: RouterConfig,
                           ghost now: RouterConfig)
      returns (res: Result, ghost k: nat, ghost applies: seq<Reply>, ghost rollbacks: seq<Reply>,
               ghost calls: seq<Call>)
      requires Valid() && diff.Holds(was, now) && outside.Lacks(diff) && c !in outside.trees && env.clone(was) == was
      requires env.clone(now) == now
      modifies this, outside, outside.trees, outside.diffs
      ensures Valid() && outside.Grew() && outside.calls == old(outside.calls) + calls
      ensures |applies| == |rollbacks| == |plugins| && FailsAt(applies, k)
      ensures Step(Snap(), version, res, calls)
              == Install(env, old(Snap()), old(version), old(c.cfg), was, now, author, message, k, applies, rollbacks)
    {
      var at, cause, errs;
      at, cause, errs, applies, rollbacks := ApplyPhase(env, plugins, diff, outside, was, now);
      k := at;
      if at < |plugins| {
        calls := Upward(ApplyCall, applies[..at + 1], was, now) + Downward(RollbackCall, rollbacks[..at + 1], was, now);
        res := Failed(ApplyError(plugins[at].name, "apply", true, errs == [], errs, cause));
      } else {
        calls := Upward(ApplyCall, applies, was, now);
        version := NextVersion(version);
        var s := NewSnapshotRef(env, c, version, author, message);
        running := Some(s);
        res := Success;
      }
    }

    /**
     Phases 1 to 3 for a change between was and now; v is the first plugin that rejects it, k the first that
     fails to apply it.
     */
    method CommitChanges(c: ConfigTree, diff: DiffTree, author: string, message: string, ghost was: RouterConfig,
                         ghost now: RouterConfig)
      returns (res: Result, ghost v: nat, ghost k: nat, ghost r: Replies, ghost rest: seq<Call>)
      requires Valid() && diff.Holds(was, now) && outside.Lacks(diff) && c !in outside.trees
      requires env.clone(was) == was && env.clone(now) == now
      modifies this, outside, outside.trees, outside.diffs
      ensures Valid() && outside.Grew()
      ensures |r.validate| == |r.apply| == |r.rollback| == |plugins| && FailsAt(r.validate, v) && FailsAt(r.apply, k)
      ensures v < |plugins| ==>
                && Snap() == old(Snap()) && version == old(version)
                && res == Rejected(env.names[v], r.validate[v].value)
                && outside.calls == old(outside.calls) + Upward(ValidateCall, r.validate[..v + 1], was, now)
      ensures v == |plugins| ==>
                && outside.calls == old(outside.calls) + (Upward(ValidateCall, r.validate, was, now) + rest)
                && Step(Snap(), version, res, rest)
                   == Install(env, old(Snap()), old(version), old(c.cfg), was, now, author, message, k, r.apply,
                              r.rollback)
    {
      var at, cause;
      ghost var vs;
      at, cause, vs := ValidatePhase(env, plugins, diff, outside, was, now);
      v, rest := at, [];
      if at < |plugins| {
        res := Rejected(plugins[at].name, cause);
        k, r := at, Replies(vs, vs, vs);
      } else {
        ghost var applies, rollbacks;
        res, k, applies, rollbacks, rest := ApplyAndInstall(c, diff, author, message, was, now);
        r := Replies(vs, applies, rollbacks);
      }
    }

    /** Apply up to the diff. */
    method Prepare(candidate: ConfigTree?) returns (early: Option<Result>, c: ConfigTree?, diff: DiffTree?)
      requires Valid()
      ensures early == Early(env, State(), Content(candidate))
      ensures early.None? ==>
                && c != null && fresh(c) && candidate != null && c.cfg == env.clone(candidate.cfg)
                && diff != null && fresh(diff) && fresh(diff.wasTree) && fresh(diff.nowTree)
                && diff.Holds(OldSide(env, State()), env.clone(c.cfg))
                && env.clone(diff.wasTree.cfg) == diff.wasTree.cfg && env.clone(diff.nowTree.cfg) == diff.nowTree.cfg
    {
      early, c, diff := None, null, null;
      if candidate == null {
        early := Some(NilConfig);
      } else {
        c := CloneTree(env, candidate);
        var invalid := env.valid(c.cfg);
        if invalid.Some? {
          early := Some(Invalid(invalid.value));
        } else {
          diff := DiffFromRunning(c);
          if !HasChanges(diff.delta) {
            early := Some(Success);
          }
        }
      }
    }

    /** Engine.Apply computes EngineSpec.Apply, whatever the plugins do to the trees they are handed. */
    method Apply(candidate: ConfigTree?, author: string, message: string)
      returns (res: Result, ghost r: Replies, ghost calls: seq<Call>)
      requires Valid()
      modifies this, outside, outside.trees, outside.diffs
      ensures Valid() && outside.Grew() && Sized(env, old(State()), r)
      ensures Outcome(State(), res, calls)
              == EngineSpec.Apply(env, old(State()), old(Content(candidate)), author, message, r)
      ensures outside.calls == old(outside.calls) + calls
    {
      var early, c, diff := Prepare(candidate);
      if early.Some? {
        res, calls := early.value, [];
        ghost var silent := Pad([], |plugins|);
        r := Replies(silent, silent, silent);
      } else {
        ghost var core, cfg, was, now, before := State(), c.cfg, diff.wasTree.cfg, diff.nowTree.cfg, outside.calls;
        ghost var v, k, rest;
        res, v, k, r, rest := CommitChanges(c, diff, author, message, was, now);
        if v < |plugins| {
          calls := Upward(ValidateCall, r.validate[..v + 1], was, now);
          CommitRejected(env, core, cfg, was, now, author, message, v, r, origin, before);
        } else {
          calls := Upward(ValidateCall, r.validate, was, now) + rest;
          CommitAccepted(env, core, cfg, was, now, author, message, k, r, origin, before);
        }
      }
    }

    /** The diff from a copy of the running configuration to a copy of the candidate. */
    method DiffFromRunning(candidate: ConfigTree) returns (diff: DiffTree)
      requires Valid()
      ensures fresh(diff) && fresh(diff.wasTree) && fresh(diff.nowTree)
      ensures diff.Holds(OldSide(env, State()), env.clone(candidate.cfg))
      ensures HasChanges(diff.delta) <==> env.seen(diff.wasTree.cfg) != env.seen(diff.nowTree.cfg)
      ensures env.clone(diff.wasTree.cfg) == diff.wasTree.cfg && env.clone(diff.nowTree.cfg) == diff.nowTree.cfg
    {
      var wasTree := OldTree();
      var nowTree := CloneTree(env, candidate);
      diff := DiffOf(env, wasTree, nowTree);
    }

    /** The plugins' part of a dry run. */
    method DryRun(diff: DiffTree, ghost was: RouterConfig, ghost now: RouterConfig)
      returns (res: Result, ghost vs: seq<Reply>, ghost calls: seq<Call>)
      requires Valid() && diff.Holds(was, now) && outside.Lacks(diff) && env.clone(was) == was && env.clone(now) == now
      modifies outside, outside.trees, outside.diffs
      ensures Valid() && State() == old(State()) && outside.Grew() && |vs| == |plugins|
      ensures (res, calls) == EngineSpec.DryRun(env, vs, was, now) && outside.calls == old(outside.calls) + calls
    {
      ghost var before := outside.calls;
      var at, cause;
      at, cause, vs := ValidatePhase(env, plugins, diff, outside, was, now);
      res := if at < |plugins| then Rejected(plugins[at].name, cause) else Success;
      FirstErrorIs(vs, at);
      calls := EngineSpec.DryRun(env, vs, was, now).1;
      ValidatingIsHarmless(env, origin, before, if at < |plugins| then vs[..at + 1] else vs, was, now);
    }

    /** Engine.Validate: the dry run changes nothing, in the engine or behind the plugins. */
    method Validate(candidate: ConfigTree?) returns (res: Result, ghost vs: seq<Reply>, ghost calls: seq<Call>)
      requires Valid()
      modifies outside, outside.trees, outside.diffs
      ensures Valid() && State() == old(State()) && outside.Grew() && |vs| == |plugins|
      ensures (res, calls) == EngineSpec.Validate(env, old(State()), old(Content(candidate)), vs)
      ensures outside.calls == old(outside.calls) + calls
    {
      vs, calls := Pad([], |plugins|), [];
      if candidate == null {
        res := NilConfig;
      } else {
        var invalid := env.valid(candidate.cfg);
        if invalid.Some? {
          res := Invalid(invalid.value);
        } else {
          var diff := DiffFromRunning(candidate);
          res, vs, calls := DryRun(diff, diff.wasTree.cfg, diff.nowTree.cfg);
        }
      }
    }
  }

  /** What a call did, apart from the systems behind the plugins. */
  datatype Step = Step(running: Option<Snapshot>, version: nat, result: Result, calls: seq<Call>)

  /** Phases 2 and 3, k being the first plugin that fails to apply. */
  ghost function Install(env: Env, running: Option<Snapshot>, version: nat, c: RouterConfig, was: RouterConfig,
                         now: RouterConfig, author: string, message: string,
                         k: nat, applies: seq<Reply>, rollbacks: seq<Reply>): Step
    requires |applies| == |rollbacks| == |env.names| && FailsAt(applies, k)
  {
    if k < |env.names| then
      Step(running, version, Failed(ApplyErrorAt(env.names, applies[k].value, rollbacks, k)),
           Upward(ApplyCall, applies[..k + 1], was, now) + Downward(RollbackCall, rollbacks[..k + 1], was, now))
    else
      var next := NextVersion(version);
      Step(Some(NewSnapshot(env, Some(c), next, author, message)), next, Success, Upward(ApplyCall, applies, was, now))
  }

  /** A change that plugin v rejects. */
  lemma CommitRejected(env: Env, core: Core, c: RouterConfig, was: RouterConfig, now: RouterConfig, author: string,
                       message: string,
                       v: nat, r: Replies, origin: seq<South>, before: seq<Call>)
    requires Sized(env, core, r) && v < |env.names| && FailsAt(r.validate, v)
    requires core.south == SouthOf(env, origin, before)
    ensures var calls := Upward(ValidateCall, r.validate[..v + 1], was, now);
            Commit(env, core, c, was, now, author, message, r)
            == Outcome(Core(core.running, core.version, SouthOf(env, origin, before + calls)),
                       Rejected(env.names[v], r.validate[v].value), calls)
  {
    FirstErrorIs(r.validate, v);
    ValidatingIsHarmless(env, origin, before, r.validate[..v + 1], was, now);
  }

  /** A change that every plugin accepts. */
  lemma CommitAccepted(env: Env, core: Core, c: RouterConfig, was: RouterConfig, now: RouterConfig, author: string,
                       message: string,
                       k: nat, r: Replies, origin: seq<South>, before: seq<Call>)
    requires Sized(env, core, r) && FailsAt(r.validate, |env.names|) && FailsAt(r.apply, k)
    requires core.south == SouthOf(env, origin, before)
    ensures var s := Install(env, core.running, core.version, c, was, now, author, message, k, r.apply, r.rollback);
            var calls := Upward(ValidateCall, r.validate, was, now) + s.calls;
            Commit(env, core, c, was, now, author, message, r)
            == Outcome(Core(s.running, s.version, SouthOf(env, origin, before + calls)), s.result, calls)
  {
    var o := Commit(env, core, c, was, now, author, message, r);
    SouthFollows(env, core, c, was, now, author, message, r, origin, before);
    InstallIsCommit(env, core, c, was, now, author, message, k, r);
  }

  lemma InstallIsCommit(env: Env, core: Core, c: RouterConfig, was: RouterConfig, now: RouterConfig, author: string,
                        message: string, k: nat, r: Replies)
    requires Sized(env, core, r) && FailsAt(r.validate, |env.names|) && FailsAt(r.apply, k)
    ensures var o := Commit(env, core, c, was, now, author, message, r);
            var s := Install(env, core.running, core.version, c, was, now, author, message, k, r.apply, r.rollback);
            && o.core.running == s.running && o.core.version == s.version && o.result == s.result
            && o.calls == Upward(ValidateCall, r.validate, was, now) + s.calls
  {
    FirstErrorIs(r.validate, |env.names|);
    FirstErrorIs(r.apply, k);
  }

  /** South states computed from all calls ever made agree with those computed call by call. */
  lemma SouthFollows(env: Env, core: Core, c: RouterConfig, was: RouterConfig, now: RouterConfig, author: string,
                     message: string,
                     r: Replies, origin: seq<South>, before: seq<Call>)
    requires Sized(env, core, r) && core.south == SouthOf(env, origin, before)
    ensures var o := Commit(env, core, c, was, now, author, message, r);
            o.core.south == SouthOf(env, origin, before + o.calls)
  {
    var o := Commit(env, core, c, was, now, author, message, r);
    forall j | 0 <= j < |origin|
      ensures o.core.south[j] == SouthAfter(env, origin[j], before + o.calls, j)
    {
      CommitAccountsForSouth(env, core, c, was, now, author, message, r, j);
      SouthAfterConcat(env, origin[j], before, o.calls, j);
    }
  }

  lemma ValidatingIsHarmless(env: Env, origin: seq<South>, before: seq<Call>, vs: seq<Reply>, was: RouterConfig,
                             now: RouterConfig)
    ensures SouthOf(env, origin, before + Upward(ValidateCall, vs, was, now)) == SouthOf(env, origin, before)
  {
    forall j | 0 <= j < |origin|
      ensures SouthAfter(env, origin[j], before + Upward(ValidateCall, vs, was, now), j)
              == SouthAfter(env, origin[j], before, j)
    {
      SouthAfterConcat(env, origin[j], before, Upward(ValidateCall, vs, was, now), j);
      SouthAfterUpward(env, SouthAfter(env, origin[j], before, j), ValidateCall, vs, was, now, j);
    }
  }

  // ---- Aliasing -------------------------------------------------------------

  /** Code outside the engine: it may change every tree and diff it has a pointer to. */
  method Meddle(outside: Outside, t: ConfigTree)
    requires t in outside.trees
    modifies outside.trees, outside.diffs
  {
    t.cfg := *;
  }

  /** A caller keeps a snapshot and a copy of the running configuration, and changes whatever it can reach. */
  method KeepCopies(e: Engine)
    requires e.Valid()
    modifies e.outside, e.outside.trees, e.outside.diffs
    ensures e.Valid() && e.State() == old(e.State())
  {
    var snapshot := e.RunningSnapshot();
    var copy := e.Running();
    e.outside.trees := e.outside.trees + {copy};
    if snapshot.Some? && snapshot.value.tree != null {
      e.outside.trees := e.outside.trees + {snapshot.value.tree};
    }
    Meddle(e.outside, copy);
  }

  /**
   So a caller that changes the candidate and all it was ever given after the call does not change what was
   installed.
   */
  method KeepAndMeddle(e: Engine, candidate: ConfigTree, author: string, message: string)
    returns (res: Result, ghost r: Replies)
    requires e.Valid() && candidate in e.outside.trees
    modifies e, e.outside, e.outside.trees, e.outside.diffs
    ensures e.Valid() && Sized(e.env, old(e.State()), r)
    ensures var o := EngineSpec.Apply(e.env, old(e.State()), Some(old(candidate.cfg)), author, message, r);
            res == o.result && e.State() == o.core
  {
    ghost var calls;
    res, r, calls := e.Apply(candidate, author, message);
    KeepCopies(e);
  }
}
