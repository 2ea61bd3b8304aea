/**
 Which answers of the plugins a concurrent call (internal/engine/engine.go) goes by.  EngineThreads finds an
 order of calls with answers that explain every result; here these are the answers that the plugins
 really gave to the call in question, one by one.
 */
module HeardThreads {
  import opened Wrappers
  import opened ConfigModel
  import opened EngineSpec
  import opened EngineTheorems
  import opened EngineThreads

  const NOTHING := Replies([], [], [])

  /** What a call has heard after an instruction that plugins answer with reply, if it is one that asks a plugin. */
  ghost function Hears(env: Env, th: Thread, h: Replies, reply: Reply): Replies {
    match th.pc
    case Asking(_, _, vs) => if |vs| < |env.names| then h.(validate := h.validate + [reply]) else h
    case Applying(_, applies) => if |applies| < |env.names| then h.(apply := h.apply + [reply]) else h
    case Undoing(_, applies, rollbacks) =>
      if |rollbacks| < |applies| then h.(rollback := [reply] + h.rollback) else h
    case _ => h
  }

  /** A state with what every call has heard so far. */
  datatype Heard = Heard(state: State, heard: map<Tid, Replies>)

  ghost predicate HeardMoves(env: Env, a: Heard, b: Heard, tid: Tid, reply: Reply) {
    && Moves(env, a.state, b.state, tid, reply) && tid in a.heard
    && b.heard == a.heard[tid := Hears(env, a.state.threads[tid], a.heard[tid], reply)]
  }

  ghost predicate HeardNext(env: Env, a: Heard, b: Heard) {
    || (exists tid, op ::
          tid !in a.state.threads && b == Heard(Spawn(a.state, tid, op), a.heard[tid := NOTHING]))
    || (exists tid, reply :: HeardMoves(env, a, b, tid, reply))
  }

  ghost predicate HeardExecution(env: Env, init: Core, trace: seq<Heard>) {
    && |trace| > 0 && trace[0] == Heard(Initial(init), map[]) && |env.names| == |init.south|
    && forall i :: 0 <= i < |trace| - 1 ==> HeardNext(env, trace[i], trace[i + 1])
  }

  ghost predicate Few(env: Env, h: Replies) {
    |h.validate| <= |env.names| && |h.apply| <= |env.names| && |h.rollback| <= |env.names|
  }

  /** The result of a call is the one that what it has heard leads to at its place in the order of effects. */
  ghost predicate Heeds(env: Env, init: Core, events: seq<Event>, op: Op, answer: Answer, at: nat, h: Replies)
    requires |env.names| == |init.south| && AllFit(env, init, events)
  {
    var n := |env.names|;
    && Few(env, h)
    && match op
       case ApplyOp(c, author, message) =>
         && at < |events|
         && events[at] == ApplyEvent(c, author, message,
                                     Replies(Pad(h.validate, n), Pad(h.apply, n), Pad(h.rollback, n)))
       case ValidateOp(c) =>
         && at <= |events|
         && answer == Returned(Validate(env, CoreAt(env, init, events, at), c, Pad(h.validate, n)).0)
       case _ => h == NOTHING
  }

  /** What a call has heard is in its notes, or in its result. */
  ghost predicate HeardOk(env: Env, init: Core, events: seq<Event>, th: Thread, h: Replies)
    requires |env.names| == |init.south| && AllFit(env, init, events)
  {
    match th.pc
    case Asking(_, _, vs) => AllNil(vs) && h == Replies(vs, [], [])
    case Applying(_, applies) => AllNil(applies) && h == Replies(Silent(env), applies, [])
    case Undoing(_, applies, rollbacks) => h == Replies(Silent(env), applies, rollbacks)
    case AllApplied(_) => h == Replies(Silent(env), Silent(env), [])
    case Writing(_) => h == if th.op.ApplyOp? then Replies(Silent(env), Silent(env), []) else NOTHING
    case Bumped(_) => h == if th.op.ApplyOp? then Replies(Silent(env), Silent(env), []) else NOTHING
    case Written(answer, at) => Heeds(env, init, events, th.op, answer, at, h)
    case Unlocking(answer, at) => Heeds(env, init, events, th.op, answer, at, h)
    case Done(answer, at) => Heeds(env, init, events, th.op, answer, at, h)
    case _ => h == NOTHING
  }

  lemma HeardOkGrows(env: Env, init: Core, events: seq<Event>, e: Event, th: Thread, h: Replies)
    requires |env.names| == |init.south| && AllFit(env, init, events) && AllFit(env, init, events + [e])
    requires HeardOk(env, init, events, th, h)
    ensures HeardOk(env, init, events + [e], th, h)
  {
    assert forall at :: 0 <= at <= |events| ==> (events + [e])[..at] == events[..at];
  }

  lemma AllNilIsSilent(env: Env, rs: seq<Reply>)
    requires AllNil(rs) && |rs| == |env.names|
    ensures rs == Silent(env)
  {
  }

  lemma PadSilent(env: Env)
    ensures Pad(Silent(env), |env.names|) == Silent(env)
  {
  }

  /** An Apply that decides writes down what it has heard. */
  lemma ApplyHeeds(env: Env, init: Core, core: Core, events: seq<Event>, th: Thread, h: Replies, reply: Reply)
    requires |core.south| == |env.names| == |init.south| && Noted(env, th) && !th.pc.Done? && th.op.ApplyOp?
    requires AllFit(env, init, events) && HeardOk(env, init, events, th, h)
    requires Instruction(env, core, th, reply, |events|).effect.Some?
    requires AllFit(env, init, events + [Instruction(env, core, th, reply, |events|).effect.value])
    ensures var m := Instruction(env, core, th, reply, |events|);
            HeardOk(env, init, events + [m.effect.value], th.(pc := m.pc), Hears(env, th, h, reply))
  {
    PadSilent(env);
  }

  /** An instruction that does not decide an Apply keeps the notes true. */
  lemma UndecidedHears(env: Env, init: Core, core: Core, events: seq<Event>, th: Thread, h: Replies, reply: Reply)
    requires |core.south| == |env.names| == |init.south| && Noted(env, th) && !th.pc.Done? && !th.op.ValidateOp?
    requires AllFit(env, init, events) && HeardOk(env, init, events, th, h)
    requires Instruction(env, core, th, reply, |events|).effect.None?
    ensures var m := Instruction(env, core, th, reply, |events|);
            HeardOk(env, init, events, th.(pc := m.pc), Hears(env, th, h, reply))
  {
    if th.pc.Asking? && |th.pc.vs| == |env.names| {
      AllNilIsSilent(env, th.pc.vs);
    } else if th.pc.Applying? && |th.pc.applies| == |env.names| {
      AllNilIsSilent(env, th.pc.applies);
    }
  }

  /** A dry run answers by what it has heard. */
  lemma ValidateHeeds(env: Env, init: Core, core: Core, events: seq<Event>, owners: seq<Tid>, tid: Tid, th: Thread,
                      h: Replies, reply: Reply)
    requires |core.south| == |env.names| == |init.south| && Noted(env, th) && !th.pc.Done? && th.op.ValidateOp?
    requires AllFit(env, init, events) && |owners| == |events| && HeardOk(env, init, events, th, h)
    requires ThreadOk(env, init, events, owners, tid, th)
    ensures var m := Instruction(env, core, th, reply, |events|);
            m.effect.None? && HeardOk(env, init, events, th.(pc := m.pc), Hears(env, th, h, reply))
  {
    if th.pc.Asking? && (|th.pc.vs| == |env.names| || reply.Some?) {
      ValidateAnswered(env, CoreAt(env, init, events, th.pc.at), th.op, th.pc.vs, reply);
      assert |th.pc.vs| == |env.names| ==> Pad(th.pc.vs, |env.names|) == th.pc.vs;
    } else if th.pc.Begin? && Refused(env, th.op).Some? {
      assert Validate(env, CoreAt(env, init, events, |events|), th.op.candidate, Silent(env)).0
          == Refused(env, th.op).value;
    }
  }

  ghost predicate AllHeard(env: Env, init: Core, a: Heard)
    requires |env.names| == |init.south| && AllFit(env, init, a.state.events)
  {
    && a.heard.Keys == a.state.threads.Keys
    && forall tid :: tid in a.state.threads ==>
         HeardOk(env, init, a.state.events, a.state.threads[tid], a.heard[tid])
  }

  lemma MoverHears(env: Env, init: Core, a: Heard, b: Heard, tid: Tid, reply: Reply)
    requires Inv(env, init, a.state) && AllHeard(env, init, a) && HeardMoves(env, a, b, tid, reply)
    requires Inv(env, init, b.state)
    ensures HeardOk(env, init, b.state.events, b.state.threads[tid], b.heard[tid])
  {
    var s, th, h := a.state, a.state.threads[tid], a.heard[tid];
    var m := Instruction(env, s.core, th, reply, |s.events|);
    if th.op.ValidateOp? {
      ValidateHeeds(env, init, s.core, s.events, s.owners, tid, th, h, reply);
    } else if m.effect.None? {
      UndecidedHears(env, init, s.core, s.events, th, h, reply);
    } else if th.op.ApplyOp? {
      ApplyHeeds(env, init, s.core, s.events, th, h, reply);
    }
  }

  lemma OthersHear(env: Env, init: Core, a: Heard, b: Heard, tid: Tid, reply: Reply, other: Tid)
    requires Inv(env, init, a.state) && AllHeard(env, init, a) && HeardMoves(env, a, b, tid, reply)
    requires Inv(env, init, b.state) && other in a.state.threads && other != tid
    ensures HeardOk(env, init, b.state.events, b.state.threads[other], b.heard[other])
  {
    if b.state.events != a.state.events {
      HeardOkGrows(env, init, a.state.events, b.state.events[|a.state.events|], a.state.threads[other],
                   a.heard[other]);
    }
  }

  lemma HeardMove(env: Env, init: Core, a: Heard, b: Heard, tid: Tid, reply: Reply)
    requires Inv(env, init, a.state) && AllHeard(env, init, a) && HeardMoves(env, a, b, tid, reply)
    requires Inv(env, init, b.state)
    ensures AllHeard(env, init, b)
  {
    var threads := b.state.threads;
    assert threads.Keys == a.state.threads.Keys && b.heard.Keys == a.heard.Keys;
    forall other | other in threads
      ensures HeardOk(env, init, b.state.events, threads[other], b.heard[other])
    {
      if other == tid {
        MoverHears(env, init, a, b, tid, reply);
      } else {
        OthersHear(env, init, a, b, tid, reply, other);
      }
    }
  }

  lemma HeardSpawn(env: Env, init: Core, a: Heard, tid: Tid, op: Op)
    requires |env.names| == |init.south| && AllFit(env, init, a.state.events) && AllHeard(env, init, a)
    requires tid !in a.state.threads
    ensures AllHeard(env, init, Heard(Spawn(a.state, tid, op), a.heard[tid := NOTHING]))
  {
  }

  /** The invariant of EngineThreads, and that every call has heard what its notes say. */
  ghost predicate HeardInv(env: Env, init: Core, a: Heard) {
    Inv(env, init, a.state) && AllHeard(env, init, a)
  }

  lemma HeardStep(env: Env, init: Core, a: Heard, b: Heard)
    requires HeardInv(env, init, a) && HeardNext(env, a, b)
    ensures HeardInv(env, init, b)
  {
    if tid, reply :| HeardMoves(env, a, b, tid, reply) {
      InvMoves(env, init, a.state, b.state, tid, reply);
      HeardMove(env, init, a, b, tid, reply);
    } else {
      var tid, op :| tid !in a.state.threads && b == Heard(Spawn(a.state, tid, op), a.heard[tid := NOTHING]);
      InvSpawn(env, init, a.state, tid, op);
      HeardSpawn(env, init, a, tid, op);
    }
  }

  lemma HeardPrefix(env: Env, init: Core, trace: seq<Heard>)
    requires HeardExecution(env, init, trace) && |trace| > 1
    ensures var n := |trace| - 1;
            HeardExecution(env, init, trace[..n]) && HeardNext(env, trace[n - 1], trace[n])
  {
    var n := |trace| - 1;
    assert HeardNext(env, trace[n - 1], trace[n - 1 + 1]);
  }

  lemma HeardInitial(env: Env, init: Core)
    requires |env.names| == |init.south|
    ensures HeardInv(env, init, Heard(Initial(init), map[]))
  {
    InvInitial(env, init);
  }

  lemma {:induction false} ExecutionsAreHeard(env: Env, init: Core, trace: seq<Heard>)
    requires HeardExecution(env, init, trace)
    ensures HeardInv(env, init, trace[|trace| - 1])
    decreases |trace|
  {
    var n := |trace| - 1;
    if n == 0 {
      HeardInitial(env, init);
    } else {
      HeardPrefix(env, init, trace);
      ExecutionsAreHeard(env, init, trace[..n]);
      HeardStep(env, init, trace[n - 1], trace[n]);
    }
  }

  /**
   In every interleaving a finished call has heeded the plugins: the answers behind its result, at its place in
   the order of effects, are those it was given, and plugins it has no answer from count as silent.
   */
  lemma CallsHeedThePlugins(env: Env, init: Core, trace: seq<Heard>, tid: Tid)
    requires HeardExecution(env, init, trace)
    requires var s := trace[|trace| - 1].state; tid in s.threads && s.threads[tid].pc.Done?
    ensures var a := trace[|trace| - 1];
            var th := a.state.threads[tid];
            && AllFit(env, init, a.state.events) && tid in a.heard
            && Heeds(env, init, a.state.events, th.op, th.pc.answer, th.pc.at, a.heard[tid])
  {
    ExecutionsAreHeard(env, init, trace);
  }

  lemma HeardExtends(env: Env, init: Core, trace: seq<Heard>, next: Heard)
    requires HeardExecution(env, init, trace) && HeardNext(env, trace[|trace| - 1], next)
    ensures HeardExecution(env, init, trace + [next])
  {
    var all := trace + [next];
    forall i | 0 <= i < |all| - 1 ensures HeardNext(env, all[i], all[i + 1]) {
      if i < |trace| - 1 {
        assert HeardNext(env, trace[i], trace[i + 1]);
      }
    }
  }

  lemma HeardSuccessor(env: Env, init: Core, trace: seq<Heard>, t: State) returns (next: Heard)
    requires HeardExecution(env, init, trace) && Next(env, trace[|trace| - 1].state, t)
    ensures next.state == t && HeardNext(env, trace[|trace| - 1], next)
  {
    var a := trace[|trace| - 1];
    ExecutionsAreHeard(env, init, trace);
    if tid, op :| tid !in a.state.threads && t == Spawn(a.state, tid, op) {
      next := Heard(t, a.heard[tid := NOTHING]);
    } else {
      var tid, reply :| Moves(env, a.state, t, tid, reply);
      next := Heard(t, a.heard[tid := Hears(env, a.state.threads[tid], a.heard[tid], reply)]);
      assert HeardMoves(env, a, next, tid, reply);
    }
  }

  /** Every execution is one in which this can be written down. */
  lemma {:induction false} EveryExecutionIsHeard(env: Env, init: Core, states: seq<State>) returns (trace: seq<Heard>)
    requires Execution(env, init, states)
    ensures HeardExecution(env, init, trace) && |trace| == |states|
    ensures forall i :: 0 <= i < |trace| ==> trace[i].state == states[i]
    decreases |states|
  {
    var n := |states| - 1;
    if n == 0 {
      trace := [Heard(Initial(init), map[])];
    } else {
      assert forall i :: 0 <= i < n - 1 ==> Next(env, states[..n][i], states[..n][i + 1]);
      trace := EveryExecutionIsHeard(env, init, states[..n]);
      assert Next(env, states[n - 1], states[n - 1 + 1]);
      var next := HeardSuccessor(env, init, trace, states[n]);
      HeardExtends(env, init, trace, next);
      trace := trace + [next];
    }
  }
}
