/**
 The cluster plugin (cmd/arca-routerd/cluster_sync.go) as the first plugin of the concurrent engine: if it
 answers every dry run as it does, every interleaving keeps the running configuration aligned.
 */
module AlignedThreads {
  import opened Wrappers
  import opened ConfigModel
  import opened EngineSpec
  import opened EngineTheorems
  import opened EngineThreads
  import Endpoints

  /** The first plugin, asked about a change, lets it pass only if it accepts it. */
  ghost predicate Honest(env: Env, ds: Option<Endpoints.Datastore>, th: Thread, reply: Reply) {
    th.op.ApplyOp? && th.pc.Asking? && th.pc.vs == [] && reply.None? ==> Endpoints.Accepts(ds, NowOf(env, th.op))
  }

  /** What InitializeRunning is given is aligned. */
  ghost predicate StartsAligned(env: Env, ds: Option<Endpoints.Datastore>, op: Op) {
    op.InitOp? && op.config.Some? ==> Endpoints.Aligned(ds, env.clone(op.config.value))
  }

  /** A step of the program in which the cluster plugin is honest. */
  ghost predicate HonestNext(env: Env, ds: Option<Endpoints.Datastore>, s: State, t: State) {
    || (exists tid, op :: tid !in s.threads && StartsAligned(env, ds, op) && t == Spawn(s, tid, op))
    || (exists tid, reply :: Moves(env, s, t, tid, reply) && Honest(env, ds, s.threads[tid], reply))
  }

  /** An Apply that has got past the first plugin has a candidate that this plugin accepts. */
  ghost predicate Cleared(env: Env, ds: Option<Endpoints.Datastore>, th: Thread) {
    && StartsAligned(env, ds, th.op)
    && (th.op.ApplyOp? ==>
        match th.pc
        case Asking(_, _, vs) => vs != [] ==> Endpoints.Accepts(ds, NowOf(env, th.op))
        case Applying(_, _) => Endpoints.Accepts(ds, NowOf(env, th.op))
        case AllApplied(_) => Endpoints.Accepts(ds, NowOf(env, th.op))
        case Writing(_) => Endpoints.Accepts(ds, NowOf(env, th.op))
        case Bumped(_) => Endpoints.Accepts(ds, NowOf(env, th.op))
        case _ => true)
  }

  /** No instruction gets a candidate past the plugin otherwise, and only a cleared one is written. */
  lemma InstructionCleared(env: Env, ds: Option<Endpoints.Datastore>, core: Core, th: Thread, reply: Reply, count: nat)
    requires |core.south| == |env.names| > 0 && Noted(env, th) && !th.pc.Done?
    requires Cleared(env, ds, th) && Honest(env, ds, th, reply) && Endpoints.RunsAligned(ds, core)
    ensures var m := Instruction(env, core, th, reply, count);
            Cleared(env, ds, th.(pc := m.pc)) && Endpoints.RunsAligned(ds, m.core)
  {
    if th.pc.Bumped? && th.op.ApplyOp? {
      Endpoints.AlignedIff(ds, NowOf(env, th.op));
    }
  }

  ghost predicate AllCleared(env: Env, ds: Option<Endpoints.Datastore>, s: State) {
    && Endpoints.RunsAligned(ds, s.core)
    && forall tid :: tid in s.threads ==> Cleared(env, ds, s.threads[tid])
  }

  lemma ClearedAdvance(env: Env, ds: Option<Endpoints.Datastore>, s: State, tid: Tid, m: Move)
    requires AllCleared(env, ds, s) && tid in s.threads && EffectFits(env, s.abs, m.effect)
    requires Cleared(env, ds, s.threads[tid].(pc := m.pc)) && Endpoints.RunsAligned(ds, m.core)
    ensures AllCleared(env, ds, Advance(env, s, tid, m))
  {
  }

  lemma ClearedMove(env: Env, ds: Option<Endpoints.Datastore>, s: State, t: State, tid: Tid, reply: Reply)
    requires |env.names| > 0 && AllCleared(env, ds, s) && Moves(env, s, t, tid, reply)
    requires Honest(env, ds, s.threads[tid], reply)
    ensures AllCleared(env, ds, t)
  {
    InstructionCleared(env, ds, s.core, s.threads[tid], reply, |s.events|);
    ClearedAdvance(env, ds, s, tid, Instruction(env, s.core, s.threads[tid], reply, |s.events|));
  }

  lemma ClearedSpawn(env: Env, ds: Option<Endpoints.Datastore>, s: State, tid: Tid, op: Op)
    requires AllCleared(env, ds, s) && tid !in s.threads && StartsAligned(env, ds, op)
    ensures AllCleared(env, ds, Spawn(s, tid, op))
  {
  }

  lemma ClearedStep(env: Env, ds: Option<Endpoints.Datastore>, s: State, t: State)
    requires |env.names| > 0 && AllCleared(env, ds, s) && HonestNext(env, ds, s, t)
    ensures AllCleared(env, ds, t)
  {
    if tid, reply :| Moves(env, s, t, tid, reply) && Honest(env, ds, s.threads[tid], reply) {
      ClearedMove(env, ds, s, t, tid, reply);
    } else {
      var tid, op :| tid !in s.threads && StartsAligned(env, ds, op) && t == Spawn(s, tid, op);
      ClearedSpawn(env, ds, s, tid, op);
    }
  }

  /** An execution of the engine with an honest cluster plugin. */
  ghost predicate HonestExecution(env: Env, ds: Option<Endpoints.Datastore>, init: Core, trace: seq<State>) {
    && |trace| > 0 && trace[0] == Initial(init) && |env.names| == |init.south|
    && forall i :: 0 <= i < |trace| - 1 ==> HonestNext(env, ds, trace[i], trace[i + 1])
  }

  lemma HonestPrefix(env: Env, ds: Option<Endpoints.Datastore>, init: Core, trace: seq<State>)
    requires HonestExecution(env, ds, init, trace) && |trace| > 1
    ensures var n := |trace| - 1;
            HonestExecution(env, ds, init, trace[..n]) && HonestNext(env, ds, trace[n - 1], trace[n])
  {
    var n := |trace| - 1;
    assert HonestNext(env, ds, trace[n - 1], trace[n - 1 + 1]);
  }

  /** In every state of every interleaving, what the engine runs is reported as aligned. */
  lemma {:induction false} InterleavingsStayAligned(env: Env, ds: Option<Endpoints.Datastore>, init: Core,
                                                    trace: seq<State>)
    requires HonestExecution(env, ds, init, trace) && |env.names| > 0 && Endpoints.RunsAligned(ds, init)
    ensures AllCleared(env, ds, trace[|trace| - 1])
    decreases |trace|
  {
    var n := |trace| - 1;
    if n > 0 {
      HonestPrefix(env, ds, init, trace);
      InterleavingsStayAligned(env, ds, init, trace[..n]);
      ClearedStep(env, ds, trace[n - 1], trace[n]);
    }
  }

  /** These executions are executions of the engine. */
  lemma HonestIsExecution(env: Env, ds: Option<Endpoints.Datastore>, init: Core, trace: seq<State>)
    requires HonestExecution(env, ds, init, trace)
    ensures Execution(env, init, trace)
  {
    forall i | 0 <= i < |trace| - 1 ensures Next(env, trace[i], trace[i + 1]) {
      assert HonestNext(env, ds, trace[i], trace[i + 1]);
    }
  }
}
