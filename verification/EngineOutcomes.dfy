/**
 What Engine.Apply and Engine.Validate (internal/engine/engine.go) answer and do, case by case, in terms
 of the candidate, the running configuration and the answers of the plugins.
 */
module EngineOutcomes {
  import opened Wrappers
  import opened ConfigModel
  import opened EngineSpec
  import opened EngineTheorems

  /** A copy of the running configuration, the empty one if there is none. */
  ghost function RunningCopy(env: Env, core: Core): RouterConfig {
    if core.running.Some? && core.running.value.config.Some? then env.clone(core.running.value.config.value)
    else EMPTY_CONFIG
  }

  /** The candidate is there and valid. */
  ghost predicate Acceptable(env: Env, candidate: Option<RouterConfig>) {
    candidate.Some? && env.valid(env.clone(candidate.value)).None?
  }

  /** Such a candidate differs observably from what is running. */
  ghost predicate Differs(env: Env, core: Core, candidate: Option<RouterConfig>) {
    candidate.Some? && env.seen(candidate.value) != SeenOf(env, RunningConfig(core))
  }

  /** Calls from on ask plugins 0, 1, ... about one and the same change, and are answered rs. */
  ghost predicate Asks(calls: seq<Call>, from: nat, kind: Kind, rs: seq<Reply>, was: RouterConfig, now: RouterConfig) {
    && from + |rs| <= |calls|
    && forall i :: 0 <= i < |rs| ==> calls[from + i] == Call(kind, i, was, now, rs[i])
  }

  // ---- Apply ----------------------------------------------------------------

  /** Which of its results Apply returns. */
  lemma ApplyResultIff(env: Env, core: Core, candidate: Option<RouterConfig>, author: string, message: string,
                       r: Replies, v: nat, k: nat)
    requires Lawful(env) && Sized(env, core, r) && FailsAt(r.validate, v) && FailsAt(r.apply, k)
    ensures var res := Apply(env, core, candidate, author, message, r).result;
            var n, changes := |env.names|, Acceptable(env, candidate) && Differs(env, core, candidate);
            && (res == NilConfig <==> candidate.None?)
            && (res.Invalid? <==> candidate.Some? && !Acceptable(env, candidate))
            && (res.Invalid? ==> Some(res.cause) == env.valid(env.clone(candidate.value)))
            && (res.Rejected? <==> changes && v < n)
            && (res.Rejected? ==> res.plugin == env.names[v] && Some(res.cause) == r.validate[v])
            && (res.Failed? <==> changes && v == n && k < n)
            && (res == Success <==> Acceptable(env, candidate) && (changes ==> v == n == k))
  {
    OldSideSeen(env, core);
    FirstErrorIs(r.validate, v);
    FirstErrorIs(r.apply, k);
  }

  /** Without a valid candidate that changes something nothing happens. */
  lemma NothingToApply(env: Env, core: Core, candidate: Option<RouterConfig>, author: string, message: string,
                       r: Replies)
    requires Lawful(env) && Sized(env, core, r) && !(Acceptable(env, candidate) && Differs(env, core, candidate))
    ensures var o := Apply(env, core, candidate, author, message, r); o.core == core && o.calls == []
  {
    OldSideSeen(env, core);
  }

  /** If a plugin objects, the plugins up to it have been asked and nothing else has happened. */
  lemma RejectedExactly(env: Env, core: Core, candidate: Option<RouterConfig>, author: string, message: string,
                        r: Replies, v: nat)
    requires Lawful(env) && Sized(env, core, r) && FailsAt(r.validate, v) && v < |env.names|
    requires Acceptable(env, candidate) && Differs(env, core, candidate)
    ensures var o := Apply(env, core, candidate, author, message, r);
            && o.core == core && |o.calls| == v + 1
            && Asks(o.calls, 0, ValidateCall, r.validate[..v + 1], RunningCopy(env, core), env.clone(candidate.value))
  {
    OldSideSeen(env, core);
    FirstErrorIs(r.validate, v);
  }

  /** If all agree, all have been asked and have applied, and the candidate is running one version up. */
  lemma InstalledExactly(env: Env, core: Core, candidate: Option<RouterConfig>, author: string, message: string,
                         r: Replies)
    requires Lawful(env) && Sized(env, core, r)
    requires FailsAt(r.validate, |env.names|) && FailsAt(r.apply, |env.names|)
    requires Acceptable(env, candidate) && Differs(env, core, candidate)
    ensures var o := Apply(env, core, candidate, author, message, r);
            var was, now := RunningCopy(env, core), env.clone(candidate.value);
            && OneUp(core.version, o.core.version)
            && IsSnapshotOf(env, o.core.running, candidate, o.core.version, author, message)
            && |o.calls| == 2 * |env.names| && Asks(o.calls, 0, ValidateCall, r.validate, was, now)
            && Asks(o.calls, |env.names|, ApplyCall, r.apply, was, now)
  {
    OldSideSeen(env, core);
    FirstErrorIs(r.validate, |env.names|);
    FirstErrorIs(r.apply, |env.names|);
  }

  // ---- Validate -------------------------------------------------------------

  /** What the dry run answers, and what it asks of whom. */
  lemma DryRunExact(env: Env, core: Core, candidate: Option<RouterConfig>, vs: seq<Reply>, v: nat)
    requires |vs| == |env.names| && FailsAt(vs, v)
    ensures var (res, calls) := Validate(env, core, candidate, vs);
            && (res == NilConfig <==> candidate.None?)
            && (res.Invalid? <==> candidate.Some? && env.valid(candidate.value).Some?)
            && (res.Invalid? ==> Some(res.cause) == env.valid(candidate.value))
            && (res.Rejected? <==> candidate.Some? && env.valid(candidate.value).None? && v < |vs|)
            && (res.Rejected? ==> res.plugin == env.names[v] && Some(res.cause) == vs[v])
            && (res == Success <==> candidate.Some? && env.valid(candidate.value).None? && v == |vs|)
            && (if res.Rejected? || res == Success then
                  var asked := if v < |vs| then vs[..v + 1] else vs;
                  && |calls| == |asked|
                  && Asks(calls, 0, ValidateCall, asked, RunningCopy(env, core), env.clone(candidate.value))
                else calls == [])
  {
    FirstErrorIs(vs, v);
  }

  /** An Apply that asks the plugins asks them what the dry run asks, and is rejected exactly if it is. */
  lemma DryRunForetells(env: Env, core: Core, candidate: Option<RouterConfig>, author: string, message: string,
                        r: Replies)
    requires Lawful(env) && Sized(env, core, r) && candidate.Some? && env.valid(candidate.value).None?
    requires Acceptable(env, candidate) && Differs(env, core, candidate)
    ensures var o := Apply(env, core, candidate, author, message, r);
            var (res, calls) := Validate(env, core, candidate, r.validate);
            && calls <= o.calls && (o.result.Rejected? <==> res != Success) && (o.result.Rejected? ==> o.result == res)
            && forall i :: |calls| <= i < |o.calls| ==> o.calls[i].kind != ValidateCall
  {
    OldSideSeen(env, core);
  }
}
