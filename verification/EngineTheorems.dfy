/**
 What Engine.Apply promises: all or nothing on every plugin, the exact calls of a failed
 commit, and both over every run.
 */
module EngineTheorems {
  import opened Wrappers
  import opened ConfigModel
  import opened Diff
  import opened EngineSpec

  // ---- One call -------------------------------------------------------------

  function SeenOf(env: Env, c: Option<RouterConfig>): Observation {
    env.seen(OrEmpty(c))
  }

  /** Every plugin's system is configured as the running configuration says. */
  ghost predicate InSync(env: Env, core: Core) {
    forall j :: 0 <= j < |core.south| ==>
        core.south[j].Reflects? && env.seen(core.south[j].config) == SeenOf(env, RunningConfig(core))
  }

  predicate RollbackFailed(res: Result) {
    res.Failed? && !res.error.rollbackSucceeded
  }

  lemma OldSideSeen(env: Env, core: Core)
    requires Lawful(env)
    ensures env.seen(OldSide(env, core)) == SeenOf(env, RunningConfig(core))
  {
  }

  /** rollbackSucceeded holds iff every rollback did, iff there is nothing to report. */
  lemma {:induction false} DiagnosticsEmptyIff(names: seq<string>, rollback: seq<Reply>)
    requires |names| == |rollback|
    ensures Diagnostics(names, rollback) == [] <==> forall i :: 0 <= i < |rollback| ==> rollback[i].None?
  {
    if names != [] {
      DiagnosticsEmptyIff(names[1..], rollback[1..]);
      assert rollback == [rollback[0]] + rollback[1..];
    }
  }

  lemma InstallInSync(env: Env, core: Core, after: Core, was: RouterConfig, now: RouterConfig)
    requires InSync(env, core) && env.seen(was) == SeenOf(env, RunningConfig(core))
    requires env.seen(now) == SeenOf(env, RunningConfig(after))
    requires after.south == Applied(env, core.south, was, now)
    ensures InSync(env, after)
  {
  }

  lemma RollbackSucceededIff(names: seq<string>, cause: string, rollback: seq<Reply>, k: nat)
    requires k < |names| == |rollback|
    ensures ApplyErrorAt(names, cause, rollback, k).rollbackSucceeded <==> forall i :: 0 <= i <= k ==> rollback[i].None?
  {
    DiagnosticsEmptyIff(names[..k + 1], rollback[..k + 1]);
  }

  lemma FailureInSync(env: Env, core: Core, was: RouterConfig, now: RouterConfig, r: Replies, k: nat, cause: string)
    requires Sized(env, core, r) && InSync(env, core) && env.seen(was) == SeenOf(env, RunningConfig(core))
    requires k < |core.south|
    ensures InSync(env, core.(south := RolledBack(env, core.south, was, now, r, k))) <==>
            ApplyErrorAt(env.names, cause, r.rollback, k).rollbackSucceeded
  {
    RollbackSucceededIff(env.names, cause, r.rollback, k);
    RollbackRestoresEach(env, core, was, now, r, k);
  }

  lemma CommitIsAtomic(env: Env, core: Core, c: RouterConfig, was: RouterConfig, now: RouterConfig, author: string,
                       message: string, r: Replies)
    requires Sized(env, core, r) && InSync(env, core)
    requires env.seen(was) == SeenOf(env, RunningConfig(core)) && env.seen(now) == env.seen(env.clone(c))
    ensures var o := Commit(env, core, c, was, now, author, message, r);
            InSync(env, o.core) <==> !RollbackFailed(o.result)
  {
    var o := Commit(env, core, c, was, now, author, message, r);
    if o.result == Success {
      InstallInSync(env, core, o.core, was, now);
    } else if o.result.Failed? {
      var k := FirstError(r.apply);
      FailureInSync(env, core, was, now, r, k, r.apply[k].value);
    }
  }

  /**
   Atomicity of one call: from a state in sync, the state afterwards is in sync exactly
   unless the returned error says that the rollback failed.
   */
  lemma ApplyIsAtomic(env: Env, core: Core, candidate: Option<RouterConfig>, author: string, message: string,
                      r: Replies)
    requires Lawful(env) && Sized(env, core, r) && InSync(env, core)
    ensures var o := Apply(env, core, candidate, author, message, r);
            && (InSync(env, o.core) <==> !RollbackFailed(o.result))
            && (o.result != Success ==> o.core.running == core.running && o.core.version == core.version)
  {
    if candidate.Some? {
      var c := env.clone(candidate.value);
      OldSideSeen(env, core);
      CommitIsAtomic(env, core, c, OldSide(env, core), env.clone(c), author, message, r);
    }
  }

  lemma RollbackRestoresEach(env: Env, core: Core, was: RouterConfig, now: RouterConfig, r: Replies, k: nat)
    requires InSync(env, core) && env.seen(was) == SeenOf(env, RunningConfig(core))
    requires k < |core.south| == |r.apply| == |r.rollback|
    ensures var s := RolledBack(env, core.south, was, now, r, k);
            InSync(env, core.(south := s)) <==> forall i :: 0 <= i <= k ==> r.rollback[i].None?
  {
    var s := RolledBack(env, core.south, was, now, r, k);
    forall j | 0 <= j < |s|
      ensures s[j].Reflects? && env.seen(s[j].config) == SeenOf(env, RunningConfig(core)) <==>
              (j <= k ==> r.rollback[j].None?)
    {
      assert core.south[j].Reflects?;
    }
  }

  /**
   Plugin k failed to apply: the calls were validate 0..n-1, apply 0..k, rollback k..0, all with one and the
   same diff.
   */
  ghost predicate FailedCalls(calls: seq<Call>, r: Replies, k: nat, was: RouterConfig, now: RouterConfig) {
    var n := |r.validate|;
    && k < n == |r.apply| == |r.rollback| && |calls| == n + 2 * (k + 1)
    && (forall i :: 0 <= i < n ==> calls[i] == Call(ValidateCall, i, was, now, None))
    && (forall i :: 0 <= i <= k ==> calls[n + i] == Call(ApplyCall, i, was, now, r.apply[i]))
    && (forall i :: 0 <= i <= k ==> calls[n + 2 * k + 1 - i] == Call(RollbackCall, i, was, now, r.rollback[i]))
  }

  /** Entry m is about plugin at[m]: all failed rollbacks of plugins from on, the last plugin first. */
  ghost predicate DiagnosesFrom(names: seq<string>, rollback: seq<Reply>, from: nat, diagnostics: seq<string>,
                                at: seq<nat>) {
    && |names| == |rollback| && |at| == |diagnostics|
    && (forall m :: 0 <= m < |at| ==>
          && from <= at[m] < |names| && rollback[at[m]].Some?
          && diagnostics[m] == "plugin " + names[at[m]] + " rollback failed: " + rollback[at[m]].value)
    && (forall l, m :: 0 <= l < m < |at| ==> at[l] > at[m])
    && (forall i :: from <= i < |names| && rollback[i].Some? ==> i in at)
  }

  ghost predicate Diagnoses(names: seq<string>, rollback: seq<Reply>, diagnostics: seq<string>) {
    exists at :: DiagnosesFrom(names, rollback, 0, diagnostics, at)
  }

  lemma {:induction false} DiagnosticsFrom(names: seq<string>, rollback: seq<Reply>, from: nat) returns (at: seq<nat>)
    requires from <= |names| == |rollback|
    ensures DiagnosesFrom(names, rollback, from, Diagnostics(names[from..], rollback[from..]), at)
    decreases |names| - from
  {
    at := [];
    if from < |names| {
      at := DiagnosticsFrom(names, rollback, from + 1);
      assert names[from..][1..] == names[from + 1..] && rollback[from..][1..] == rollback[from + 1..];
      if rollback[from].Some? {
        at := at + [from];
      }
    }
  }

  /** The diagnostics tell of every failed rollback, plugin and cause, in the order in which they were met. */
  lemma DiagnosticsExact(names: seq<string>, rollback: seq<Reply>)
    requires |names| == |rollback|
    ensures Diagnoses(names, rollback, Diagnostics(names, rollback))
  {
    var at := DiagnosticsFrom(names, rollback, 0);
    assert names[0..] == names && rollback[0..] == rollback;
  }

  /** The error of a call in which plugin k failed to apply. */
  ghost predicate ReportsFailure(env: Env, e: ApplyError, r: Replies, k: nat) {
    && k < |env.names| == |r.apply| == |r.rollback|
    && (forall i :: 0 <= i < k ==> r.apply[i].None?) && r.apply[k] == Some(e.err)
    && e.plugin == env.names[k] && e.phase == "apply" && e.rollbackAttempted
    && Diagnoses(env.names[..k + 1], r.rollback[..k + 1], e.diagnostics)
    && (e.rollbackSucceeded <==> forall i :: 0 <= i <= k ==> r.rollback[i].None?)
    && (e.rollbackSucceeded <==> e.diagnostics == [])
  }

  lemma ErrorReportsFailure(env: Env, r: Replies, k: nat)
    requires |env.names| == |r.apply| == |r.rollback|
    requires k == FirstError(r.apply) < |env.names|
    ensures ReportsFailure(env, ApplyErrorAt(env.names, r.apply[k].value, r.rollback, k), r, k)
  {
    RollbackSucceededIff(env.names, r.apply[k].value, r.rollback, k);
    DiagnosticsExact(env.names[..k + 1], r.rollback[..k + 1]);
  }

  lemma FailedCallsShape(r: Replies, k: nat, was: RouterConfig, now: RouterConfig)
    requires k < |r.validate| == |r.apply| == |r.rollback| && FirstError(r.validate) == |r.validate|
    ensures FailedCalls(Upward(ValidateCall, r.validate, was, now) + Upward(ApplyCall, r.apply[..k + 1], was, now)
                        + Downward(RollbackCall, r.rollback[..k + 1], was, now), r, k, was, now)
  {
  }

  lemma FailedOutcome(env: Env, core: Core, candidate: Option<RouterConfig>, author: string, message: string,
                      r: Replies)
    requires Sized(env, core, r) && Apply(env, core, candidate, author, message, r).result.Failed?
    ensures candidate.Some? && FirstError(r.validate) == |env.names| && FirstError(r.apply) < |env.names|
    ensures var k, was, now := FirstError(r.apply), OldSide(env, core), env.clone(env.clone(candidate.value));
            Apply(env, core, candidate, author, message, r) ==
            Outcome(core.(south := RolledBack(env, core.south, was, now, r, k)),
                    Failed(ApplyErrorAt(env.names, r.apply[k].value, r.rollback, k)),
                    Upward(ValidateCall, r.validate, was, now) + Upward(ApplyCall, r.apply[..k + 1], was, now)
                    + Downward(RollbackCall, r.rollback[..k + 1], was, now))
  {
  }

  /**
   The exact course of a call that fails to apply at some plugin k: every plugin had accepted
   the change, 0..k were asked to apply it, k..0 to take it back, and nothing else happened.
   */
  lemma FailureTraceExact(env: Env, core: Core, candidate: Option<RouterConfig>, author: string, message: string,
                          r: Replies)
    requires Sized(env, core, r)
    requires Apply(env, core, candidate, author, message, r).result.Failed?
    ensures var o := Apply(env, core, candidate, author, message, r);
            var k := FirstError(r.apply);
            && ReportsFailure(env, o.result.error, r, k)
            && FailedCalls(o.calls, r, k, OldSide(env, core), env.clone(env.clone(candidate.value)))
            && FirstError(r.validate) == |env.names|
            && (forall j :: k < j < |env.names| ==> o.core.south[j] == core.south[j])
            && o.core.running == core.running && o.core.version == core.version
  {
    FailedOutcome(env, core, candidate, author, message, r);
    var k := FirstError(r.apply);
    ErrorReportsFailure(env, r, k);
    FailedCallsShape(r, k, OldSide(env, core), env.clone(env.clone(candidate.value)));
  }

  /**
   A call that does not fail to apply rolls nothing back, and applies nothing unless every plugin accepted the
   change.
   */
  lemma NoApplyBeforeAllAccept(env: Env, core: Core, candidate: Option<RouterConfig>, author: string, message: string,
                               r: Replies)
    requires Sized(env, core, r)
    ensures var o := Apply(env, core, candidate, author, message, r);
            forall i :: 0 <= i < |o.calls| ==>
              && (o.calls[i].kind == ApplyCall ==> FirstError(r.validate) == |env.names|)
              && (o.calls[i].kind == RollbackCall ==> o.result.Failed?)
  {
  }

  // ---- Answers so far ------------------------------------------------------

  /** k is the first error among rs, or |rs|. */
  ghost predicate FailsAt(rs: seq<Reply>, k: nat) {
    k <= |rs| && (forall i :: 0 <= i < k ==> rs[i].None?) && (k < |rs| ==> rs[k].Some?)
  }

  lemma {:induction false} FirstErrorIs(rs: seq<Reply>, k: nat)
    requires FailsAt(rs, k)
    ensures FirstError(rs) == k
  {
    if k > 0 { FirstErrorIs(rs[1..], k - 1); }
  }

  /** The answers up to and including the last one given; plugins that were not asked count as silent. */
  function Pad(rs: seq<Reply>, n: nat): seq<Reply>
    requires |rs| <= n
  {
    rs + seq(n - |rs|, _ => None)
  }

  // ---- The calls account for the southbound state ----------------------------

  lemma {:induction false} SouthAfterConcat(env: Env, s: South, a: seq<Call>, b: seq<Call>, j: nat)
    ensures SouthAfter(env, s, a + b, j) == SouthAfter(env, SouthAfter(env, s, a, j), b, j)
    decreases |b|
  {
    if b == [] {
      assert a + b == a;
    } else {
      var c := b[..|b| - 1];
      SouthAfterConcat(env, s, a, c, j);
      assert (a + b)[..|a + b| - 1] == a + c;
    }
  }

  lemma {:induction false} SouthAfterUpward(env: Env, s: South, kind: Kind, rs: seq<Reply>, was: RouterConfig,
                                            now: RouterConfig, j: nat)
    ensures SouthAfter(env, s, Upward(kind, rs, was, now), j)
            == if j < |rs| then SouthStep(env, s, Call(kind, j, was, now, rs[j])) else s
  {
    if rs != [] {
      var calls := Upward(kind, rs, was, now);
      SouthAfterUpward(env, s, kind, rs[..|rs| - 1], was, now, j);
      assert calls[..|calls| - 1] == Upward(kind, rs[..|rs| - 1], was, now);
    }
  }

  lemma {:induction false} SouthAfterDownward(env: Env, s: South, kind: Kind, rs: seq<Reply>, was: RouterConfig,
                                              now: RouterConfig, j: nat)
    ensures SouthAfter(env, s, Downward(kind, rs, was, now), j)
            == if j < |rs| then SouthStep(env, s, Call(kind, j, was, now, rs[j])) else s
    decreases |rs|
  {
    if rs != [] {
      var n := |rs| - 1;
      var first := [Call(kind, n, was, now, rs[n])];
      var rest := Downward(kind, rs[..n], was, now);
      SouthAfterDownward(env, SouthAfter(env, s, first, j), kind, rs[..n], was, now, j);
      assert Downward(kind, rs, was, now) == first + rest;
      SouthAfterConcat(env, s, first, rest, j);
      assert first[..0] == [];
    }
  }

  lemma FailureAccountsForSouth(env: Env, south: seq<South>, was: RouterConfig, now: RouterConfig, r: Replies, k: nat,
                                j: nat)
    requires j < |south| == |r.validate| == |r.apply| == |r.rollback| && k < |south|
    ensures var vs, a := Upward(ValidateCall, r.validate, was, now), Upward(ApplyCall, r.apply[..k + 1], was, now);
            RolledBack(env, south, was, now, r, k)[j]
            == SouthAfter(env, south[j], vs + a + Downward(RollbackCall, r.rollback[..k + 1], was, now), j)
  {
    var s := south[j];
    var vs, a := Upward(ValidateCall, r.validate, was, now), Upward(ApplyCall, r.apply[..k + 1], was, now);
    var b := Downward(RollbackCall, r.rollback[..k + 1], was, now);
    SouthAfterUpward(env, s, ValidateCall, r.validate, was, now, j);
    SouthAfterUpward(env, s, ApplyCall, r.apply[..k + 1], was, now, j);
    SouthAfterConcat(env, s, vs, a, j);
    SouthAfterConcat(env, s, vs + a, b, j);
    SouthAfterDownward(env, SouthAfter(env, s, vs + a, j), RollbackCall, r.rollback[..k + 1], was, now, j);
  }

  lemma SuccessAccountsForSouth(env: Env, south: seq<South>, was: RouterConfig, now: RouterConfig, r: Replies, j: nat)
    requires j < |south| == |r.validate| == |r.apply| && FirstError(r.apply) == |south|
    ensures Applied(env, south, was, now)[j]
            == SouthAfter(env, south[j],
                          Upward(ValidateCall, r.validate, was, now) + Upward(ApplyCall, r.apply, was, now), j)
  {
    var s := south[j];
    SouthAfterUpward(env, s, ValidateCall, r.validate, was, now, j);
    SouthAfterUpward(env, s, ApplyCall, r.apply, was, now, j);
    SouthAfterConcat(env, s, Upward(ValidateCall, r.validate, was, now), Upward(ApplyCall, r.apply, was, now), j);
  }

  lemma CommitAccountsForSouth(env: Env, core: Core, c: RouterConfig, was: RouterConfig, now: RouterConfig,
                               author: string, message: string, r: Replies, j: nat)
    requires Sized(env, core, r) && j < |core.south|
    ensures var o := Commit(env, core, c, was, now, author, message, r);
            |o.core.south| == |core.south| && o.core.south[j] == SouthAfter(env, core.south[j], o.calls, j)
  {
    var v, k := FirstError(r.validate), FirstError(r.apply);
    if v < |env.names| {
      SouthAfterUpward(env, core.south[j], ValidateCall, r.validate[..v + 1], was, now, j);
    } else if k < |env.names| {
      FailureAccountsForSouth(env, core.south, was, now, r, k, j);
    } else {
      SuccessAccountsForSouth(env, core.south, was, now, r, j);
    }
  }

  /** The closed form of the southbound states is exactly what the calls, one by one, lead to. */
  lemma CallsAccountForSouth(env: Env, core: Core, candidate: Option<RouterConfig>, author: string, message: string,
                             r: Replies, j: nat)
    requires Sized(env, core, r) && j < |core.south|
    ensures var o := Apply(env, core, candidate, author, message, r);
            |o.core.south| == |core.south| && o.core.south[j] == SouthAfter(env, core.south[j], o.calls, j)
  {
    if candidate.Some? {
      var c := env.clone(candidate.value);
      CommitAccountsForSouth(env, core, c, OldSide(env, core), env.clone(c), author, message, r, j);
    }
  }

  // ---- Whole runs -----------------------------------------------------------

  datatype Event =
    | ApplyEvent(candidate: Option<RouterConfig>, author: string, message: string, replies: Replies)
    | InitializeEvent(config: Option<RouterConfig>, version: nat)

  predicate Fits(env: Env, core: Core, e: Event) {
    e.ApplyEvent? ==> Sized(env, core, e.replies)
  }

  function After(env: Env, core: Core, e: Event): (c: Core)
    requires Fits(env, core, e)
    ensures |c.south| == |core.south|
  {
    match e
    case ApplyEvent(c, author, message, r) => Apply(env, core, c, author, message, r).core
    case InitializeEvent(c, version) => Initialize(env, core, c, version)
  }

  predicate AllFit(env: Env, core: Core, events: seq<Event>) {
    forall i :: 0 <= i < |events| ==> Fits(env, core, events[i])
  }

  /** A run: the calls one after the other. */
  function Run(env: Env, core: Core, events: seq<Event>): (c: Core)
    requires AllFit(env, core, events)
    ensures |c.south| == |core.south|
  {
    if events == [] then core
    else After(env, Run(env, core, events[..|events| - 1]), events[|events| - 1])
  }

  /** The call returns an error saying that the rollback failed. */
  predicate ReportsFailedRollback(env: Env, core: Core, e: Event)
    requires Fits(env, core, e)
  {
    e.ApplyEvent? && RollbackFailed(Apply(env, core, e.candidate, e.author, e.message, e.replies).result)
  }

  /** InitializeRunning installs what the plugins already hold, as startup from the datastore assumes. */
  ghost predicate InitializesInSync(env: Env, core: Core, e: Event) {
    e.InitializeEvent? && InSync(env, core) ==> InSync(env, Initialize(env, core, e.config, e.version))
  }

  /** Nothing the engine does brings a system back that was left in an unknown state. */
  lemma LostStays(env: Env, core: Core, e: Event, j: nat)
    requires Fits(env, core, e) && j < |core.south| && core.south[j].Lost?
    ensures After(env, core, e).south[j].Lost?
  {
  }

  lemma FailedRollbackLoses(env: Env, core: Core, e: Event) returns (j: nat)
    requires Fits(env, core, e) && ReportsFailedRollback(env, core, e)
    ensures j < |core.south| && After(env, core, e).south[j].Lost?
  {
    var r, k := e.replies, FirstError(e.replies.apply);
    RollbackSucceededIff(env.names, r.apply[k].value, r.rollback, k);
    j :| 0 <= j <= k && r.rollback[j].Some?;
  }

  /** A failed rollback anywhere in a run leaves a system in an unknown state until its end. */
  lemma {:induction false} LostForever(env: Env, core: Core, events: seq<Event>, i: nat) returns (j: nat)
    requires AllFit(env, core, events) && i < |events|
    requires ReportsFailedRollback(env, Run(env, core, events[..i]), events[i])
    ensures j < |core.south| && Run(env, core, events).south[j].Lost?
    decreases |events|
  {
    var before := events[..|events| - 1];
    if i == |before| {
      j := FailedRollbackLoses(env, Run(env, core, before), events[i]);
    } else {
      assert before[..i] == events[..i];
      j := LostForever(env, core, before, i);
      LostStays(env, Run(env, core, before), events[|before|], j);
    }
  }

  /**
   Atomicity over whole runs: after any sequence of calls with any pattern of failures, every
   plugin reflects the running configuration if and only if no call reported a failed rollback.
   */
  lemma {:induction false} RunsStayInSync(env: Env, core: Core, events: seq<Event>)
    requires Lawful(env) && AllFit(env, core, events) && InSync(env, core)
    requires forall i :: 0 <= i < |events| ==> InitializesInSync(env, Run(env, core, events[..i]), events[i])
    ensures InSync(env, Run(env, core, events)) <==>
            forall i :: 0 <= i < |events| ==> !ReportsFailedRollback(env, Run(env, core, events[..i]), events[i])
    decreases |events|
  {
    if i :| 0 <= i < |events| && ReportsFailedRollback(env, Run(env, core, events[..i]), events[i]) {
      var j := LostForever(env, core, events, i);
    } else if events != [] {
      var before, last := events[..|events| - 1], events[|events| - 1];
      assert forall i :: 0 <= i <= |before| ==> before[..i] == events[..i];
      RunsStayInSync(env, core, before);
      if last.ApplyEvent? {
        ApplyIsAtomic(env, Run(env, core, before), last.candidate, last.author, last.message, last.replies);
      }
    }
  }

  /** Every snapshot installed carries the engine's version. */
  ghost predicate Stamped(core: Core) {
    core.running.Some? ==> core.running.value.version == core.version
  }

  /** A uint64 one up: from the largest one to 0. */
  ghost predicate OneUp(v: nat, w: nat) {
    && (v + 1 < 0x1_0000_0000_0000_0000 ==> w == v + 1)
    && (v + 1 == 0x1_0000_0000_0000_0000 ==> w == 0)
  }

  /** The snapshot holds a copy of cfg and its hash, under this version, author and message. */
  ghost predicate IsSnapshotOf(env: Env, snap: Option<Snapshot>, cfg: Option<RouterConfig>, version: nat,
                               author: string, message: string) {
    && snap.Some? && snap.value.version == version && snap.value.author == author && snap.value.message == message
    && (cfg.None? ==> snap.value.config.None? && snap.value.hash.None?)
    && (cfg.Some? ==> snap.value.config == Some(env.clone(cfg.value))
                        && snap.value.hash == Some(env.hash(env.clone(cfg.value))))
  }

  /**
   Commits form a chain: a call leaves running alone, or installs the valid candidate one version up, or starts
   afresh from the datastore.
   */
  lemma ChainStep(env: Env, core: Core, e: Event)
    requires Fits(env, core, e) && Stamped(core)
    ensures var c := After(env, core, e);
            && Stamped(c)
            && (e.ApplyEvent? ==>
                 || (c.running == core.running && c.version == core.version)
                 || (&& e.candidate.Some? && env.valid(env.clone(e.candidate.value)).None?
                     && OneUp(core.version, c.version)
                     && IsSnapshotOf(env, c.running, Some(env.clone(e.candidate.value)), c.version, e.author,
                                     e.message)))
            && (e.InitializeEvent? ==>
                && c.version == e.version && c.south == core.south
                && IsSnapshotOf(env, c.running, e.config, e.version, "system", "initial load"))
  {
  }

  /** The call succeeds with a candidate that differs observably from what is running. */
  ghost predicate Changes(env: Env, core: Core, e: Event)
    requires Fits(env, core, e)
  {
    && e.ApplyEvent? && e.candidate.Some? && env.seen(e.candidate.value) != SeenOf(env, RunningConfig(core))
    && Apply(env, core, e.candidate, e.author, e.message, e.replies).result == Success
  }

  /** How many calls of a run do. */
  ghost function ChangesIn(env: Env, core: Core, events: seq<Event>): nat
    requires AllFit(env, core, events)
  {
    if events == [] then 0
    else
      var before := events[..|events| - 1];
      ChangesIn(env, core, before) + if Changes(env, Run(env, core, before), events[|before|]) then 1 else 0
  }

  lemma VersionStep(env: Env, core: Core, e: Event)
    requires Lawful(env) && Fits(env, core, e) && e.ApplyEvent?
    ensures var c := After(env, core, e);
            if Changes(env, core, e) then OneUp(core.version, c.version) else c.version == core.version
  {
    OldSideSeen(env, core);
  }

  /** Versions count the changes: without a fresh start they rise by one with each, and with nothing else. */
  lemma {:induction false} VersionsCountChanges(env: Env, core: Core, events: seq<Event>)
    requires Lawful(env) && AllFit(env, core, events)
    requires forall i :: 0 <= i < |events| ==> events[i].ApplyEvent?
    requires core.version + ChangesIn(env, core, events) < 0x1_0000_0000_0000_0000
    ensures Run(env, core, events).version == core.version + ChangesIn(env, core, events)
    decreases |events|
  {
    if events != [] {
      var before := events[..|events| - 1];
      VersionsCountChanges(env, core, before);
      VersionStep(env, Run(env, core, before), events[|before|]);
    }
  }

  lemma {:induction false} RunsAreStamped(env: Env, core: Core, events: seq<Event>)
    requires AllFit(env, core, events) && Stamped(core)
    ensures Stamped(Run(env, core, events))
  {
    if events != [] {
      RunsAreStamped(env, core, events[..|events| - 1]);
      ChainStep(env, Run(env, core, events[..|events| - 1]), events[|events| - 1]);
    }
  }
}
