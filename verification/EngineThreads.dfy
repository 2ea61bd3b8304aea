/**
 Engine under concurrency (internal/engine/engine.go): any number of goroutines call Apply,
 InitializeRunning, Running or RunningSnapshot, and Validate, and are interleaved
 instruction by instruction.  applyMu is a mutex, mu a read/write lock, and the two writes
 of a commit (version++ and running = ...) are separate instructions.

 abs and events are the book-keeping of the proof: the calls in the order in which they took
 effect, and the state that executing them one after the other leads to.
 */
module EngineThreads {
  import opened Wrappers
  import opened ConfigModel
  import opened EngineSpec
  import opened EngineTheorems

  type Tid = nat

  datatype Op =
    | ApplyOp(candidate: Option<RouterConfig>, author: string, message: string)
    | InitOp(config: Option<RouterConfig>, version: nat)
    | ReadOp
    | ValidateOp(candidate: Option<RouterConfig>)

  /** What a call returns. */
  datatype Answer = Returned(result: Result) | Snap(running: Option<Snapshot>) | Nothing

  /** Where a goroutine is.  at is the position in the order of effects that its answer belongs to. */
  datatype Pc =
    | Begin
    | WantApply
    | WantRead
    | Holding                                                  // applyMu held
    | Reading                                                  // mu held for reading
    | HaveRead(was: Option<Snapshot>, at: nat)                 // mu still held for reading
    | Diffing(was: Option<Snapshot>, at: nat)
    | Asking(was: Option<Snapshot>, at: nat, vs: seq<Reply>)
    | Applying(was: Option<Snapshot>, applies: seq<Reply>)
    | Undoing(was: Option<Snapshot>, applies: seq<Reply>, rollbacks: seq<Reply>)
    | AllApplied(was: Option<Snapshot>)
    | Writing(was: Option<Snapshot>)                           // mu held for writing
    | Bumped(was: Option<Snapshot>)                            // version written, running not yet
    | Written(answer: Answer, at: nat)                         // both written, mu still held
    | Unlocking(answer: Answer, at: nat)                       // applyMu still held
    | Done(answer: Answer, at: nat)

  datatype Thread = Thread(op: Op, pc: Pc, start: nat)

  /** What an instruction does to the locks. */
  datatype Lock = Keep | TakeApply | DropApply | TakeRead | DropRead | TakeWrite | DropWrite

  /**
   An instruction: where it leads, what it writes, and the effect the call has with it, if it is the one that
   decides.
   */
  datatype Move = Move(pc: Pc, core: Core, effect: Option<Event>, lock: Lock)

  // ---- Instructions ---------------------------------------------------------

  /** The candidate as Apply diffs it. */
  function NowOf(env: Env, op: Op): RouterConfig {
    if op.ApplyOp? then env.clone(env.clone(OrEmpty(op.candidate))) else EMPTY_CONFIG
  }

  function WasOf(env: Env, was: Option<Snapshot>): RouterConfig {
    OldSide(env, Core(was, 0, []))
  }

  function Silent(env: Env): seq<Reply> {
    Pad([], |env.names|)
  }

  function EventOf(op: Op, r: Replies): Event {
    match op
    case ApplyOp(c, author, message) => ApplyEvent(c, author, message, r)
    case InitOp(c, version) => InitializeEvent(c, version)
    case _ => InitializeEvent(None, 0)
  }

  /** The checks before any lock: nil and invalid candidates. */
  function Refused(env: Env, op: Op): Option<Result> {
    match op
    case ApplyOp(None, _, _) => Some(NilConfig)
    case ApplyOp(Some(c), _, _) => var v := env.valid(env.clone(c)); if v.Some? then Some(Invalid(v.value)) else None
    case ValidateOp(None) => Some(NilConfig)
    case ValidateOp(Some(c)) => var v := env.valid(c); if v.Some? then Some(Invalid(v.value)) else None
    case _ => None
  }

  predicate Decided(pc: Pc) {
    pc.Written? || pc.Unlocking? || pc.Done?
  }

  /** Which call can be where, and the sizes of its notes. */
  predicate Noted(env: Env, th: Thread) {
    && (th.pc.Begin? || Decided(th.pc) || Refused(env, th.op).None?)
    && match th.pc
    case Begin => true
    case WantRead => th.op.ReadOp? || th.op.ValidateOp?
    case Reading => !th.op.InitOp?
    case HaveRead(_, _) => !th.op.InitOp?
    case Diffing(_, _) => th.op.ApplyOp? || th.op.ValidateOp?
    case Asking(_, _, vs) => |vs| <= |env.names| && (th.op.ApplyOp? || th.op.ValidateOp?)
    case Applying(_, applies) => |applies| <= |env.names| && th.op.ApplyOp?
    case Undoing(_, applies, rollbacks) =>
      |rollbacks| <= |applies| <= |env.names| && 0 < |applies| && applies[|applies| - 1].Some? && th.op.ApplyOp?
    case AllApplied(_) => th.op.ApplyOp?
    case Done(_, _) => true
    case _ => th.op.ApplyOp? || th.op.InitOp?
  }

  /** The next instruction of a goroutine; reply is what a plugin answers, count how many calls took effect before. */
  function Instruction(env: Env, core: Core, th: Thread, reply: Reply, count: nat): Move
    requires |core.south| == |env.names| && Noted(env, th) && !th.pc.Done?
  {
    var op := th.op;
    var silent := Replies(Silent(env), Silent(env), Silent(env));
    match th.pc
    case Begin =>
      var refused := Refused(env, op);
      if refused.Some? then Move(Done(Returned(refused.value), count), core,
                                 if op.ApplyOp? then Some(EventOf(op, silent)) else None, Keep)
      else Move(if op.ApplyOp? || op.InitOp? then WantApply else WantRead, core, None, Keep)
    case WantApply => Move(Holding, core, None, TakeApply)
    case WantRead => Move(Reading, core, None, TakeRead)
    case Holding => if op.InitOp? then Move(Writing(None), core, None, TakeWrite)
        else Move(Reading, core, None, TakeRead)
    case Reading => Move(HaveRead(core.running, count), core, None, Keep)
    case HaveRead(was, at) => Move(if op.ReadOp? then Done(Snap(was), at) else Diffing(was, at), core, None, DropRead)
    case Diffing(was, at) =>
      if op.ApplyOp? && env.seen(WasOf(env, was)) == env.seen(NowOf(env, op)) then
        Move(Unlocking(Returned(Success), count), core, Some(EventOf(op, silent)), Keep)
      else Move(Asking(was, at, []), core, None, Keep)
    case Asking(was, at, vs) => Ask(env, core, op, was, at, vs, reply, count)
    case Applying(was, applies) =>
      if |applies| == |env.names| then Move(AllApplied(was), core, None, Keep)
      else
        var south := core.south[|applies| := SouthApply(env, core.south[|applies|], WasOf(env, was), NowOf(env, op),
                                                        reply)];
        Move(if reply.None? then Applying(was, applies + [reply]) else Undoing(was, applies + [reply], []),
             core.(south := south), None, Keep)
    case Undoing(was, applies, rollbacks) => Undo(env, core, op, was, applies, rollbacks, reply, count)
    case AllApplied(was) => Move(Writing(was), core, None, TakeWrite)
    case Writing(was) => Move(Bumped(was),
                              core.(version := if op.ApplyOp? then NextVersion(core.version) else op.version), None,
                              Keep)
    case Bumped(was) =>
      var snap := if op.ApplyOp? then NewSnapshot(env, Some(env.clone(OrEmpty(op.candidate))), core.version, op.author,
                                                  op.message)
                  else NewSnapshot(env, op.config, op.version, "system", "initial load");
      Move(Written(if op.ApplyOp? then Returned(Success) else Nothing, count), core.(running := Some(snap)),
           Some(EventOf(op, silent)), Keep)
    case Written(answer, at) => Move(Unlocking(answer, at), core, None, DropWrite)
    case Unlocking(answer, at) => Move(Done(answer, at), core, None, DropApply)
  }

  /** One ValidateChanges call, or the end of the dry run. */
  function Ask(env: Env, core: Core, op: Op, was: Option<Snapshot>, at: nat, vs: seq<Reply>, reply: Reply,
               count: nat): Move
    requires |vs| <= |env.names|
  {
    if |vs| == |env.names| then Move(if op.ApplyOp? then Applying(was, []) else Done(Returned(Success), at), core, None,
                                     Keep)
    else if reply.None? then Move(Asking(was, at, vs + [None]), core, None, Keep)
    else
      var res := Returned(Rejected(env.names[|vs|], reply.value));
      if op.ApplyOp? then
        Move(Unlocking(res, count), core,
             Some(EventOf(op, Replies(Pad(vs + [reply], |env.names|), Silent(env), Silent(env)))), Keep)
      else Move(Done(res, at), core, None, Keep)
  }

  /** One RollbackChanges call, or the end of the rollback. */
  function Undo(env: Env, core: Core, op: Op, was: Option<Snapshot>, applies: seq<Reply>, rollbacks: seq<Reply>,
                reply: Reply, count: nat): Move
    requires |rollbacks| <= |applies| <= |env.names| == |core.south| && 0 < |applies| && applies[|applies| - 1].Some?
  {
    if |rollbacks| == |applies| then
      Move(Unlocking(Returned(UndoneResult(env, applies, rollbacks)), count), core,
           Some(EventOf(op, UndoneReplies(env, applies, rollbacks))), Keep)
    else
      var i := |applies| - 1 - |rollbacks|;
      var south := core.south[i := SouthRollback(env, core.south[i], WasOf(env, was), NowOf(env, op), reply)];
      Move(Undoing(was, applies, [reply] + rollbacks), core.(south := south), None, Keep)
  }

  // ---- The program ----------------------------------------------------------

  /** applyMu, and mu as a read/write lock. */
  datatype LockTable = LockTable(applyMu: Option<Tid>, readers: set<Tid>, writer: Option<Tid>)

  datatype State = State(core: Core, locks: LockTable, threads: map<Tid, Thread>, abs: Core, events: seq<Event>,
                         owners: seq<Tid>)

  function Initial(core: Core): State {
    State(core, LockTable(None, {}, None), map[], core, [], [])
  }

  function Spawn(s: State, tid: Tid, op: Op): State {
    s.(threads := s.threads[tid := Thread(op, Begin, |s.events|)])
  }

  /** Whether the lock can be had now. */
  predicate Free(l: LockTable, lock: Lock) {
    match lock
    case TakeApply => l.applyMu.None?
    case TakeRead => l.writer.None?
    case TakeWrite => l.writer.None? && l.readers == {}
    case _ => true
  }

  function Locked(l: LockTable, tid: Tid, lock: Lock): LockTable {
    match lock
    case Keep => l
    case TakeApply => l.(applyMu := Some(tid))
    case DropApply => l.(applyMu := None)
    case TakeRead => l.(readers := l.readers + {tid})
    case DropRead => l.(readers := l.readers - {tid})
    case TakeWrite => l.(writer := Some(tid))
    case DropWrite => l.(writer := None)
  }

  predicate EffectFits(env: Env, core: Core, effect: Option<Event>) {
    effect.Some? ==> Fits(env, core, effect.value)
  }

  function Advance(env: Env, s: State, tid: Tid, m: Move): State
    requires tid in s.threads && EffectFits(env, s.abs, m.effect)
  {
    var t := s.(core := m.core, threads := s.threads[tid := s.threads[tid].(pc := m.pc)],
                locks := Locked(s.locks, tid, m.lock));
    if m.effect.None? then t
    else t.(abs := After(env, s.abs, m.effect.value), events := s.events + [m.effect.value], owners := s.owners + [tid])
  }

  predicate Sizes(env: Env, s: State) {
    |env.names| == |s.core.south| == |s.abs.south| && forall tid :: tid in s.threads ==> Noted(env, s.threads[tid])
  }

  /** tid executes its next instruction and a plugin it calls answers reply. */
  ghost predicate Moves(env: Env, s: State, t: State, tid: Tid, reply: Reply) {
    && Sizes(env, s) && tid in s.threads && !s.threads[tid].pc.Done?
    && var m := Instruction(env, s.core, s.threads[tid], reply, |s.events|);
       Free(s.locks, m.lock) && EffectFits(env, s.abs, m.effect) && t == Advance(env, s, tid, m)
  }

  /** A step of the program: a new call starts, or a running one executes an instruction. */
  ghost predicate Next(env: Env, s: State, t: State) {
    || (exists tid, op :: tid !in s.threads && t == Spawn(s, tid, op))
    || (exists tid, reply :: Moves(env, s, t, tid, reply))
  }

  lemma InstructionKeepsNotes(env: Env, core: Core, th: Thread, reply: Reply, count: nat)
    requires |core.south| == |env.names| && Noted(env, th) && !th.pc.Done?
    ensures var m := Instruction(env, core, th, reply, count);
            Noted(env, th.(pc := m.pc)) && |m.core.south| == |env.names|
  {
  }

  // ---- The locks ------------------------------------------------------------

  predicate HoldsRead(th: Thread) {
    th.pc.Reading? || th.pc.HaveRead?
  }

  predicate HoldsWrite(th: Thread) {
    th.pc.Writing? || th.pc.Bumped? || th.pc.Written?
  }

  predicate HoldsApply(th: Thread) {
    && (th.op.ApplyOp? || th.op.InitOp?)
    && !th.pc.Begin? && !th.pc.WantApply? && !th.pc.Done?
  }

  /** Each lock is held by exactly the goroutines whose place says so, and mu never by a writer and a reader at once. */
  ghost predicate Held(l: LockTable, threads: map<Tid, Thread>) {
    && (forall tid :: tid in threads ==> (HoldsApply(threads[tid]) <==> l.applyMu == Some(tid)))
    && (forall tid :: tid in threads ==> (HoldsRead(threads[tid]) <==> tid in l.readers))
    && (forall tid :: tid in threads ==> (HoldsWrite(threads[tid]) <==> l.writer == Some(tid)))
    && l.readers <= threads.Keys
    && (l.applyMu.Some? ==> l.applyMu.value in threads)
    && (l.writer.Some? ==> l.writer == l.applyMu && l.readers == {})
  }

  /** A goroutine's place and the lock operation agree. */
  predicate Follows(th: Thread, th': Thread, lock: Lock) {
    && (HoldsApply(th') <==> lock == TakeApply || (HoldsApply(th) && lock != DropApply))
    && (HoldsRead(th') <==> lock == TakeRead || (HoldsRead(th) && lock != DropRead))
    && (HoldsWrite(th') <==> lock == TakeWrite || (HoldsWrite(th) && lock != DropWrite))
    && (lock == DropApply ==> HoldsApply(th) && !HoldsWrite(th))
    && (lock == DropWrite ==> HoldsWrite(th))
    && (lock == TakeWrite ==> HoldsApply(th))
  }

  lemma InstructionLocks(env: Env, core: Core, th: Thread, reply: Reply, count: nat)
    requires |core.south| == |env.names| && Noted(env, th) && !th.pc.Done?
    ensures var m := Instruction(env, core, th, reply, count); Follows(th, th.(pc := m.pc), m.lock)
  {
  }

  lemma HeldAfter(l: LockTable, threads: map<Tid, Thread>, tid: Tid, th': Thread, lock: Lock)
    requires Held(l, threads) && tid in threads && Free(l, lock) && Follows(threads[tid], th', lock)
    ensures Held(Locked(l, tid, lock), threads[tid := th'])
  {
  }

  lemma LocksStep(env: Env, s: State, t: State, tid: Tid, reply: Reply)
    requires Held(s.locks, s.threads) && Moves(env, s, t, tid, reply)
    ensures Held(t.locks, t.threads)
  {
    var th := s.threads[tid];
    var m := Instruction(env, s.core, th, reply, |s.events|);
    InstructionLocks(env, s.core, th, reply, |s.events|);
    HeldAfter(s.locks, s.threads, tid, th.(pc := m.pc), m.lock);
  }

  // ---- The goroutine that holds applyMu ---------------------------------------

  /** South states after some plugins have applied and the last of these have rolled back. */
  function Partly(env: Env, south: seq<South>, was: RouterConfig, now: RouterConfig, applies: seq<Reply>,
                  rollbacks: seq<Reply>): seq<South>
    requires |rollbacks| <= |applies| <= |south|
  {
    seq(|south|, j requires 0 <= j < |south| =>
      if j >= |applies| then south[j]
      else
        var lo, s := |applies| - |rollbacks|, SouthApply(env, south[j], was, now, applies[j]);
        if j < lo then s else SouthRollback(env, s, was, now, rollbacks[j - lo]))
  }

  ghost predicate AllNil(rs: seq<Reply>) {
    forall i :: 0 <= i < |rs| ==> rs[i].None?
  }

  /**
   How far the holder has taken the engine away from abs: running not at all, version and south only as its
   notes say.
   */
  ghost predicate Progress(env: Env, core: Core, abs: Core, th: Thread)
    requires Noted(env, th) && |core.south| == |abs.south| == |env.names|
  {
    var n := NowOf(env, th.op);
    && core.running == abs.running
    && match th.pc
       case HaveRead(was, _) => core == abs && was == abs.running
       case Diffing(was, _) => core == abs && was == abs.running
       case Asking(was, _, vs) => core == abs && was == abs.running && Changing(env, abs, th.op) && AllNil(vs)
       case Applying(was, applies) =>
         && was == abs.running && Changing(env, abs, th.op) && AllNil(applies)
         && core == abs.(south := Partly(env, abs.south, WasOf(env, was), n, applies, []))
       case Undoing(was, applies, rollbacks) =>
         && was == abs.running && Changing(env, abs, th.op) && AllNil(applies[..|applies| - 1])
         && core == abs.(south := Partly(env, abs.south, WasOf(env, was), n, applies, rollbacks))
       case AllApplied(was) => ReadyToWrite(env, core, abs, th.op, was)
       case Writing(was) => ReadyToWrite(env, core, abs, th.op, was)
       case Bumped(was) =>
         && ReadyToWrite(env, core.(version := abs.version), abs, th.op, was)
         && core.version == if th.op.ApplyOp? then NextVersion(abs.version) else th.op.version
       case _ => core == abs
  }

  ghost predicate Changing(env: Env, abs: Core, op: Op) {
    op.ApplyOp? && Early(env, abs, op.candidate).None?
  }

  ghost predicate ReadyToWrite(env: Env, core: Core, abs: Core, op: Op, was: Option<Snapshot>)
    requires op.ApplyOp? || op.InitOp?
  {
    if op.InitOp? then core == abs
    else
      && was == abs.running && Changing(env, abs, op)
      && core == abs.(south := Applied(env, abs.south, WasOf(env, was), NowOf(env, op)))
  }

  ghost predicate EventFor(op: Op, e: Event) {
    match op
    case ApplyOp(c, author, message) => e.ApplyEvent? && e.candidate == c && e.author == author && e.message == message
    case InitOp(c, version) => e == InitializeEvent(c, version)
    case _ => false
  }

  /** What a call that takes effect as e on core has to answer. */
  function AnswerTo(env: Env, core: Core, e: Event): Answer
    requires Fits(env, core, e)
  {
    match e
    case ApplyEvent(c, author, message, r) => Returned(Apply(env, core, c, author, message, r).result)
    case InitializeEvent(_, _) => Nothing
  }

  /** abs after an instruction. */
  function AbsAfter(env: Env, abs: Core, m: Move): Core
    requires EffectFits(env, abs, m.effect)
  {
    if m.effect.None? then abs else After(env, abs, m.effect.value)
  }

  /** If the instruction decides the call, it answers what the sequential specification answers. */
  ghost predicate Decides(env: Env, abs: Core, op: Op, m: Move, count: nat) {
    && EffectFits(env, abs, m.effect) && |AbsAfter(env, abs, m).south| == |abs.south|
    && (m.effect.Some? ==>
        EventFor(op, m.effect.value) && Decided(m.pc) && m.pc.at == count
            && m.pc.answer == AnswerTo(env, abs, m.effect.value))
  }

  ghost predicate Lands(env: Env, abs: Core, th: Thread, m: Move, count: nat) {
    && Decides(env, abs, th.op, m, count)
    && |m.core.south| == |abs.south| == |env.names| && Noted(env, th.(pc := m.pc))
    && Progress(env, m.core, AbsAfter(env, abs, m), th.(pc := m.pc))
  }

  ghost predicate Underway(env: Env, core: Core, abs: Core, th: Thread) {
    && |core.south| == |abs.south| == |env.names| && Noted(env, th) && HoldsApply(th)
    && Progress(env, core, abs, th)
  }

  lemma OtherInstructionsLand(env: Env, core: Core, abs: Core, th: Thread, reply: Reply, count: nat)
    requires Underway(env, core, abs, th)
    requires !th.pc.Diffing? && !th.pc.Asking? && !th.pc.Applying? && !th.pc.Undoing? && !th.pc.Bumped?
    ensures Lands(env, abs, th, Instruction(env, core, th, reply, count), count)
  {
  }

  lemma DiffingLands(env: Env, core: Core, abs: Core, th: Thread, reply: Reply, count: nat)
    requires Underway(env, core, abs, th) && th.pc.Diffing?
    ensures Lands(env, abs, th, Instruction(env, core, th, reply, count), count)
  {
  }

  lemma AskingLands(env: Env, core: Core, abs: Core, th: Thread, reply: Reply, count: nat)
    requires Underway(env, core, abs, th) && th.pc.Asking?
    ensures Lands(env, abs, th, Instruction(env, core, th, reply, count), count)
  {
    var vs := th.pc.vs;
    if |vs| < |env.names| && reply.Some? {
      FirstErrorIs(Pad(vs + [reply], |env.names|), |vs|);
    }
  }

  lemma ApplyingLands(env: Env, core: Core, abs: Core, th: Thread, reply: Reply, count: nat)
    requires Underway(env, core, abs, th) && th.pc.Applying?
    ensures Lands(env, abs, th, Instruction(env, core, th, reply, count), count)
  {
  }

  /** The answers of a call whose apply failed and was rolled back. */
  function UndoneReplies(env: Env, applies: seq<Reply>, rollbacks: seq<Reply>): Replies
    requires |rollbacks| == |applies| <= |env.names|
  {
    Replies(Silent(env), Pad(applies, |env.names|), Pad(rollbacks, |env.names|))
  }

  lemma UndoneStops(env: Env, applies: seq<Reply>, rollbacks: seq<Reply>)
    requires |rollbacks| == |applies| <= |env.names|
    requires 0 < |applies| && AllNil(applies[..|applies| - 1]) && applies[|applies| - 1].Some?
    ensures var r := UndoneReplies(env, applies, rollbacks);
            && FirstError(r.validate) == |env.names| && FirstError(r.apply) == |applies| - 1
            && r.apply[|applies| - 1] == applies[|applies| - 1] && r.rollback[..|applies|] == rollbacks
  {
    FirstErrorIs(Silent(env), |env.names|);
    assert forall i :: 0 <= i < |applies| - 1 ==> applies[i] == applies[..|applies| - 1][i];
    FirstErrorIs(Pad(applies, |env.names|), |applies| - 1);
  }

  lemma PartlyAll(env: Env, abs: Core, w: RouterConfig, n: RouterConfig, applies: seq<Reply>, rollbacks: seq<Reply>)
    requires |rollbacks| == |applies| <= |abs.south| == |env.names| && 0 < |applies|
    ensures Partly(env, abs.south, w, n, applies, rollbacks)
         == RolledBack(env, abs.south, w, n, UndoneReplies(env, applies, rollbacks), |applies| - 1)
  {
  }

  /** The report of a rollback that is over. */
  function UndoneResult(env: Env, applies: seq<Reply>, rollbacks: seq<Reply>): Result
    requires |rollbacks| == |applies| <= |env.names| && 0 < |applies| && applies[|applies| - 1].Some?
  {
    var k := |applies| - 1;
    var diagnostics := Diagnostics(env.names[..k + 1], rollbacks);
    Failed(ApplyError(env.names[k], "apply", true, diagnostics == [], diagnostics, applies[k].value))
  }

  lemma UndoneIsReported(env: Env, applies: seq<Reply>, rollbacks: seq<Reply>)
    requires |rollbacks| == |applies| <= |env.names|
    requires 0 < |applies| && AllNil(applies[..|applies| - 1]) && applies[|applies| - 1].Some?
    ensures var r, k := UndoneReplies(env, applies, rollbacks), |applies| - 1;
            Failed(ApplyErrorAt(env.names, r.apply[k].value, r.rollback, k)) == UndoneResult(env, applies, rollbacks)
  {
    UndoneStops(env, applies, rollbacks);
  }

  /** The rollback is over: the sequential call leaves the same behind and reports the same. */
  lemma UndoneIsFailed(env: Env, abs: Core, op: Op, applies: seq<Reply>, rollbacks: seq<Reply>)
    requires |rollbacks| == |applies| <= |abs.south| == |env.names| && Changing(env, abs, op)
    requires 0 < |applies| && AllNil(applies[..|applies| - 1]) && applies[|applies| - 1].Some?
    ensures var o := Apply(env, abs, op.candidate, op.author, op.message, UndoneReplies(env, applies, rollbacks));
            && o.core == abs.(south := Partly(env, abs.south, WasOf(env, abs.running), NowOf(env, op), applies,
                                              rollbacks))
            && o.result == UndoneResult(env, applies, rollbacks)
  {
    UndoneStops(env, applies, rollbacks);
    UndoneIsReported(env, applies, rollbacks);
    PartlyAll(env, abs, WasOf(env, abs.running), NowOf(env, op), applies, rollbacks);
  }

  lemma UndoneLands(env: Env, core: Core, abs: Core, th: Thread, reply: Reply, count: nat)
    requires Underway(env, core, abs, th) && th.pc.Undoing? && |th.pc.rollbacks| == |th.pc.applies|
    ensures Lands(env, abs, th, Instruction(env, core, th, reply, count), count)
  {
    UndoneIsFailed(env, abs, th.op, th.pc.applies, th.pc.rollbacks);
  }

  lemma UndoingLands(env: Env, core: Core, abs: Core, th: Thread, reply: Reply, count: nat)
    requires Underway(env, core, abs, th) && th.pc.Undoing? && |th.pc.rollbacks| < |th.pc.applies|
    ensures Lands(env, abs, th, Instruction(env, core, th, reply, count), count)
  {
    var applies, rollbacks := th.pc.applies, th.pc.rollbacks;
    var w, n := WasOf(env, th.pc.was), NowOf(env, th.op);
    var m := Instruction(env, core, th, reply, count);
    assert m.core.south == Partly(env, abs.south, w, n, applies, [reply] + rollbacks);
  }

  lemma BumpedLands(env: Env, core: Core, abs: Core, th: Thread, reply: Reply, count: nat)
    requires Underway(env, core, abs, th) && th.pc.Bumped?
    ensures Lands(env, abs, th, Instruction(env, core, th, reply, count), count)
  {
    FirstErrorIs(Silent(env), |env.names|);
  }

  lemma HolderLands(env: Env, core: Core, abs: Core, th: Thread, reply: Reply, count: nat)
    requires Underway(env, core, abs, th)
    ensures Lands(env, abs, th, Instruction(env, core, th, reply, count), count)
  {
    match th.pc
    case Diffing(_, _) => DiffingLands(env, core, abs, th, reply, count);
    case Asking(_, _, _) => AskingLands(env, core, abs, th, reply, count);
    case Applying(_, _) => ApplyingLands(env, core, abs, th, reply, count);
    case Undoing(_, applies, rollbacks) =>
      if |rollbacks| == |applies| { UndoneLands(env, core, abs, th, reply, count); }
      else { UndoingLands(env, core, abs, th, reply, count); }
    case Bumped(_) => BumpedLands(env, core, abs, th, reply, count);
    case _ => OtherInstructionsLand(env, core, abs, th, reply, count);
  }

  /** Without applyMu nothing is written. */
  lemma BystanderLands(env: Env, core: Core, abs: Core, th: Thread, reply: Reply, count: nat)
    requires |core.south| == |abs.south| == |env.names| && Noted(env, th) && !HoldsApply(th) && !th.pc.Done?
    ensures var m := Instruction(env, core, th, reply, count);
            && Decides(env, abs, th.op, m, count) && m.core == core && AbsAfter(env, abs, m) == abs
            && (HoldsApply(th.(pc := m.pc)) ==> m.pc == Holding && m.lock == TakeApply)
  {
  }

  /** With applyMu free the engine is where the sequential execution is; otherwise its holder says how far from it. */
  ghost predicate Consistent(env: Env, s: State)
    requires Sizes(env, s)
  {
    if s.locks.applyMu.None? then s.core == s.abs
    else s.locks.applyMu.value in s.threads && Progress(env, s.core, s.abs, s.threads[s.locks.applyMu.value])
  }

  lemma SizesStep(env: Env, s: State, t: State, tid: Tid, reply: Reply)
    requires Moves(env, s, t, tid, reply) && |t.abs.south| == |s.abs.south|
    ensures Sizes(env, t)
  {
    InstructionKeepsNotes(env, s.core, s.threads[tid], reply, |s.events|);
  }

  lemma ConsistentAdvance(env: Env, s: State, tid: Tid, m: Move)
    requires Held(s.locks, s.threads) && Sizes(env, s) && Consistent(env, s) && tid in s.threads
    requires EffectFits(env, s.abs, m.effect)
    requires Follows(s.threads[tid], s.threads[tid].(pc := m.pc), m.lock) && Free(s.locks, m.lock)
    requires Sizes(env, Advance(env, s, tid, m))
    requires HoldsApply(s.threads[tid]) ==> Lands(env, s.abs, s.threads[tid], m, |s.events|)
    requires HoldsApply(s.threads[tid]) && m.lock == DropApply ==> m.core == AbsAfter(env, s.abs, m)
    requires !HoldsApply(s.threads[tid]) ==>
               && m.core == s.core && AbsAfter(env, s.abs, m) == s.abs
               && (HoldsApply(s.threads[tid].(pc := m.pc)) ==> m.pc == Holding && m.lock == TakeApply)
    ensures Consistent(env, Advance(env, s, tid, m))
  {
  }

  lemma ConsistentStep(env: Env, s: State, t: State, tid: Tid, reply: Reply)
    requires Held(s.locks, s.threads) && Moves(env, s, t, tid, reply) && Consistent(env, s)
    ensures Sizes(env, t) && Consistent(env, t)
    ensures Decides(env, s.abs, s.threads[tid].op, Instruction(env, s.core, s.threads[tid], reply, |s.events|),
                    |s.events|)
  {
    var th := s.threads[tid];
    var m := Instruction(env, s.core, th, reply, |s.events|);
    InstructionLocks(env, s.core, th, reply, |s.events|);
    if HoldsApply(th) {
      HolderLands(env, s.core, s.abs, th, reply, |s.events|);
    } else {
      BystanderLands(env, s.core, s.abs, th, reply, |s.events|);
    }
    SizesStep(env, s, t, tid, reply);
    ConsistentAdvance(env, s, tid, m);
  }

  // ---- The order of effects -------------------------------------------------

  /** abs is what the calls, executed one after the other in the order of their effects, lead to. */
  ghost predicate Serial(env: Env, init: Core, s: State) {
    && |env.names| == |init.south| && AllFit(env, init, s.events) && |s.owners| == |s.events|
    && Run(env, init, s.events) == s.abs
  }

  /** The engine after the first at calls. */
  ghost function CoreAt(env: Env, init: Core, events: seq<Event>, at: nat): (c: Core)
    requires AllFit(env, init, events) && at <= |events|
    ensures |c.south| == |init.south|
  {
    Run(env, init, events[..at])
  }

  lemma SerialStep(env: Env, init: Core, s: State, t: State, tid: Tid, reply: Reply)
    requires Serial(env, init, s) && Moves(env, s, t, tid, reply)
    ensures Serial(env, init, t)
  {
    var m := Instruction(env, s.core, s.threads[tid], reply, |s.events|);
    if m.effect.Some? {
      assert t.events[..|s.events|] == s.events;
    }
  }

  /** A decided call has the answer of the sequential specification at its place in the order. */
  ghost predicate AnswerOk(env: Env, init: Core, events: seq<Event>, owners: seq<Tid>, tid: Tid, op: Op, answer: Answer,
                           at: nat)
    requires |env.names| == |init.south| && AllFit(env, init, events) && |owners| == |events|
  {
    match op
    case ReadOp => at <= |events| && answer == Snap(CoreAt(env, init, events, at).running)
    case ValidateOp(c) =>
      at <= |events| && exists vs :: |vs| == |env.names|
                          && answer == Returned(Validate(env, CoreAt(env, init, events, at), c, vs).0)
    case _ =>
      && at < |events| && owners[at] == tid && EventFor(op, events[at])
      && answer == AnswerTo(env, CoreAt(env, init, events, at), events[at])
  }

  /** What a goroutine has read or answered belongs to a place in the order no earlier than its start. */
  ghost predicate ThreadOk(env: Env, init: Core, events: seq<Event>, owners: seq<Tid>, tid: Tid, th: Thread)
    requires |env.names| == |init.south| && AllFit(env, init, events) && |owners| == |events|
  {
    && th.start <= |events|
    && match th.pc
       case HaveRead(was, at) => th.start <= at <= |events| && was == CoreAt(env, init, events, at).running
       case Diffing(was, at) => th.start <= at <= |events| && was == CoreAt(env, init, events, at).running
       case Asking(was, at, vs) => th.start <= at <= |events| && was == CoreAt(env, init, events, at).running
           && AllNil(vs)
       case Written(answer, at) => th.start <= at && AnswerOk(env, init, events, owners, tid, th.op, answer, at)
       case Unlocking(answer, at) => th.start <= at && AnswerOk(env, init, events, owners, tid, th.op, answer, at)
       case Done(answer, at) => th.start <= at && AnswerOk(env, init, events, owners, tid, th.op, answer, at)
       case _ => true
  }

  lemma ThreadOkGrows(env: Env, init: Core, events: seq<Event>, owners: seq<Tid>, tid: Tid, th: Thread, e: Event,
                      owner: Tid)
    requires |env.names| == |init.south| && AllFit(env, init, events + [e]) && AllFit(env, init, events)
    requires |owners| == |events|
    requires ThreadOk(env, init, events, owners, tid, th)
    ensures ThreadOk(env, init, events + [e], owners + [owner], tid, th)
  {
    assert forall at :: 0 <= at <= |events| ==> (events + [e])[..at] == events[..at];
  }

  /** The answer of a decided Validate call: refused, rejected or accepted as the dry run at that place would be. */
  lemma ValidateAnswered(env: Env, core: Core, op: Op, vs: seq<Reply>, reply: Reply)
    requires op.ValidateOp? && |vs| <= |env.names| && AllNil(vs) && (|vs| < |env.names| ==> reply.Some?)
    requires Refused(env, op).None?
    ensures var all := if |vs| < |env.names| then Pad(vs + [reply], |env.names|) else vs;
            && |all| == |env.names|
            && Validate(env, core, op.candidate, all).0
                == (if |vs| < |env.names| then Rejected(env.names[|vs|], reply.value) else Success)
  {
    var all := if |vs| < |env.names| then Pad(vs + [reply], |env.names|) else vs;
    FirstErrorIs(all, |vs|);
  }

  /** An instruction that does not decide keeps the goroutine's notes true. */
  lemma UndecidedOk(env: Env, init: Core, s: State, tid: Tid, reply: Reply)
    requires Serial(env, init, s) && Sizes(env, s) && tid in s.threads && !s.threads[tid].pc.Done?
    requires s.core.running == s.abs.running
    requires ThreadOk(env, init, s.events, s.owners, tid, s.threads[tid])
    requires Instruction(env, s.core, s.threads[tid], reply, |s.events|).effect.None?
    ensures var m := Instruction(env, s.core, s.threads[tid], reply, |s.events|);
            ThreadOk(env, init, s.events, s.owners, tid, s.threads[tid].(pc := m.pc))
  {
    var th := s.threads[tid];
    assert s.events[..|s.events|] == s.events;
    if th.op.ValidateOp? {
      if th.pc.Asking? {
        if |th.pc.vs| == |env.names| || reply.Some? {
          ValidateAnswered(env, CoreAt(env, init, s.events, th.pc.at), th.op, th.pc.vs, reply);
        }
      } else if th.pc.Begin? && Refused(env, th.op).Some? {
        assert Validate(env, CoreAt(env, init, s.events, |s.events|), th.op.candidate, Silent(env)).0
            == Refused(env, th.op).value;
      }
    }
  }

  lemma DecidedOk(env: Env, init: Core, s: State, t: State, tid: Tid, reply: Reply)
    requires Serial(env, init, s) && Moves(env, s, t, tid, reply) && Serial(env, init, t)
    requires ThreadOk(env, init, s.events, s.owners, tid, s.threads[tid])
    requires var m := Instruction(env, s.core, s.threads[tid], reply, |s.events|);
             m.effect.Some? && Decides(env, s.abs, s.threads[tid].op, m, |s.events|)
    ensures ThreadOk(env, init, t.events, t.owners, tid, t.threads[tid])
  {
    assert t.events[..|s.events|] == s.events;
  }

  /** Every goroutine's notes and answers belong to the order of effects. */
  ghost predicate AllOk(env: Env, init: Core, s: State)
    requires Serial(env, init, s)
  {
    forall tid :: tid in s.threads ==> ThreadOk(env, init, s.events, s.owners, tid, s.threads[tid])
  }

  lemma AllOkStep(env: Env, init: Core, s: State, t: State, tid: Tid, reply: Reply)
    requires Serial(env, init, s) && Moves(env, s, t, tid, reply) && Serial(env, init, t) && AllOk(env, init, s)
    requires s.core.running == s.abs.running
    requires Decides(env, s.abs, s.threads[tid].op, Instruction(env, s.core, s.threads[tid], reply, |s.events|),
                     |s.events|)
    ensures AllOk(env, init, t)
  {
    var m := Instruction(env, s.core, s.threads[tid], reply, |s.events|);
    forall id | id in t.threads
      ensures ThreadOk(env, init, t.events, t.owners, id, t.threads[id])
    {
      if id == tid {
        if m.effect.None? { UndecidedOk(env, init, s, tid, reply); } else { DecidedOk(env, init, s, t, tid, reply); }
      } else if m.effect.Some? {
        ThreadOkGrows(env, init, s.events, s.owners, id, s.threads[id], m.effect.value, tid);
      }
    }
  }

  /** Every event belongs to a call that has been decided by it. */
  ghost predicate Owned(threads: map<Tid, Thread>, owners: seq<Tid>) {
    forall i :: 0 <= i < |owners| ==>
      && owners[i] in threads && Decided(threads[owners[i]].pc) && threads[owners[i]].pc.at == i
      && (threads[owners[i]].op.ApplyOp? || threads[owners[i]].op.InitOp?)
  }

  lemma OwnedStep(env: Env, s: State, t: State, tid: Tid, reply: Reply)
    requires Owned(s.threads, s.owners) && |s.owners| == |s.events| && Moves(env, s, t, tid, reply)
    requires Decides(env, s.abs, s.threads[tid].op, Instruction(env, s.core, s.threads[tid], reply, |s.events|),
                     |s.events|)
    ensures Owned(t.threads, t.owners)
  {
    if Decided(s.threads[tid].pc) {
      DecidedStays(env, s.core, s.threads[tid], reply, |s.events|);
    }
  }

  lemma DecidedStays(env: Env, core: Core, th: Thread, reply: Reply, count: nat)
    requires |core.south| == |env.names| && Noted(env, th) && !th.pc.Done? && Decided(th.pc)
    ensures var m := Instruction(env, core, th, reply, count); Decided(m.pc) && m.pc.at == th.pc.at && m.effect.None?
  {
  }

  // ---- Every interleaving ---------------------------------------------------

  ghost predicate Inv(env: Env, init: Core, s: State) {
    && Sizes(env, s) && Held(s.locks, s.threads) && Consistent(env, s)
    && Serial(env, init, s) && AllOk(env, init, s) && Owned(s.threads, s.owners)
  }

  lemma InvInitial(env: Env, init: Core)
    requires |env.names| == |init.south|
    ensures Inv(env, init, Initial(init))
  {
  }

  lemma SpawnKeepsLocks(env: Env, s: State, tid: Tid, op: Op)
    requires Sizes(env, s) && Held(s.locks, s.threads) && Consistent(env, s) && tid !in s.threads
    ensures var t := Spawn(s, tid, op); Sizes(env, t) && Held(t.locks, t.threads) && Consistent(env, t)
  {
  }

  lemma SpawnKeepsOrder(env: Env, init: Core, s: State, tid: Tid, op: Op)
    requires Serial(env, init, s) && AllOk(env, init, s) && Owned(s.threads, s.owners) && tid !in s.threads
    ensures var t := Spawn(s, tid, op); Serial(env, init, t) && AllOk(env, init, t) && Owned(t.threads, t.owners)
  {
  }

  lemma InvSpawn(env: Env, init: Core, s: State, tid: Tid, op: Op)
    requires Inv(env, init, s) && tid !in s.threads
    ensures Inv(env, init, Spawn(s, tid, op))
  {
    SpawnKeepsLocks(env, s, tid, op);
    SpawnKeepsOrder(env, init, s, tid, op);
  }

  lemma InvMoves(env: Env, init: Core, s: State, t: State, tid: Tid, reply: Reply)
    requires Inv(env, init, s) && Moves(env, s, t, tid, reply)
    ensures Inv(env, init, t)
  {
    LocksStep(env, s, t, tid, reply);
    ConsistentStep(env, s, t, tid, reply);
    SerialStep(env, init, s, t, tid, reply);
    AllOkStep(env, init, s, t, tid, reply);
    OwnedStep(env, s, t, tid, reply);
  }

  ghost predicate Execution(env: Env, init: Core, trace: seq<State>) {
    && |trace| > 0 && trace[0] == Initial(init) && |env.names| == |init.south|
    && forall i :: 0 <= i < |trace| - 1 ==> Next(env, trace[i], trace[i + 1])
  }

  /** Every state of every execution satisfies the invariant. */
  lemma {:induction false} ExecutionsKeepInv(env: Env, init: Core, trace: seq<State>)
    requires Execution(env, init, trace)
    ensures Inv(env, init, trace[|trace| - 1])
  {
    var n := |trace| - 1;
    if n == 0 {
      InvInitial(env, init);
    } else {
      ExecutionsKeepInv(env, init, trace[..n]);
      var s, t := trace[n - 1], trace[n];
      assert Next(env, s, trace[n - 1 + 1]);
      if tid, op :| tid !in s.threads && t == Spawn(s, tid, op) {
        InvSpawn(env, init, s, tid, op);
      } else {
        var tid, reply :| Moves(env, s, t, tid, reply);
        InvMoves(env, init, s, t, tid, reply);
      }
    }
  }

  /**
   Linearizability: whatever the interleaving, there is one order of calls (events) such that
   the running configuration is the one after the last of them, an engine nobody is changing is
   in exactly the state they lead to, and every finished call gave the answer it has at its own place
   in that order: a place of its own for a call that may write, and never before the call began.
   */
  lemma EveryInterleavingIsSerial(env: Env, init: Core, trace: seq<State>)
    requires Execution(env, init, trace)
    ensures var s := trace[|trace| - 1];
            && AllFit(env, init, s.events) && |s.owners| == |s.events|
            && s.core.running == Run(env, init, s.events).running
            && (s.locks.applyMu.None? ==> s.core == Run(env, init, s.events))
            && (forall tid :: tid in s.threads && s.threads[tid].pc.Done? ==>
                  var th := s.threads[tid];
                  th.start <= th.pc.at && AnswerOk(env, init, s.events, s.owners, tid, th.op, th.pc.answer, th.pc.at))
            && (forall i :: 0 <= i < |s.events| ==>
                  var tid := s.owners[i];
                  tid in s.threads && Decided(s.threads[tid].pc) && s.threads[tid].pc.at == i
                      && EventFor(s.threads[tid].op, s.events[i]))
  {
    ExecutionsKeepInv(env, init, trace);
    var s := trace[|trace| - 1];
    forall i | 0 <= i < |s.events|
      ensures EventFor(s.threads[s.owners[i]].op, s.events[i])
    {
      OwnerWrites(env, init, s, i);
    }
  }

  lemma OwnerWrites(env: Env, init: Core, s: State, i: nat)
    requires Inv(env, init, s) && i < |s.events|
    ensures var tid := s.owners[i];
            && tid in s.threads && EventFor(s.threads[tid].op, s.events[i]) && Decided(s.threads[tid].pc)
            && s.threads[tid].pc.answer == AnswerTo(env, CoreAt(env, init, s.events, i), s.events[i])
  {
    assert ThreadOk(env, init, s.events, s.owners, s.owners[i], s.threads[s.owners[i]]);
  }

  /** With applyMu free, the caller of an event that reports a failed rollback has got that report. */
  lemma FailureIsReturned(env: Env, init: Core, s: State, i: nat)
    requires Inv(env, init, s) && i < |s.events| && s.locks.applyMu.None?
    requires ReportsFailedRollback(env, CoreAt(env, init, s.events, i), s.events[i])
    ensures var tid := s.owners[i];
            tid in s.threads && s.threads[tid].pc.Done? && s.threads[tid].pc.answer.Returned?
                && RollbackFailed(s.threads[tid].pc.answer.result)
  {
    OwnerWrites(env, init, s, i);
    assert !HoldsApply(s.threads[s.owners[i]]);
  }

  /** Only an Apply that failed that way returns such a report. */
  lemma ReturnedIsFailure(env: Env, init: Core, s: State, tid: Tid)
    requires Inv(env, init, s) && tid in s.threads && s.threads[tid].pc.Done?
    requires s.threads[tid].pc.answer.Returned? && RollbackFailed(s.threads[tid].pc.answer.result)
    ensures var at := s.threads[tid].pc.at;
            at < |s.events| && ReportsFailedRollback(env, CoreAt(env, init, s.events, at), s.events[at])
  {
    assert ThreadOk(env, init, s.events, s.owners, tid, s.threads[tid]);
  }

  /** A goroutine whose lock is free can execute its next instruction. */
  lemma CanMove(env: Env, s: State, tid: Tid, reply: Reply)
    requires Sizes(env, s) && Held(s.locks, s.threads) && Consistent(env, s) && tid in s.threads
    requires !s.threads[tid].pc.Done?
    requires Free(s.locks, Instruction(env, s.core, s.threads[tid], reply, |s.events|).lock)
    ensures exists t :: Moves(env, s, t, tid, reply)
  {
    var th := s.threads[tid];
    var m := Instruction(env, s.core, th, reply, |s.events|);
    if HoldsApply(th) {
      HolderLands(env, s.core, s.abs, th, reply, |s.events|);
    } else {
      BystanderLands(env, s.core, s.abs, th, reply, |s.events|);
    }
    assert Moves(env, s, Advance(env, s, tid, m), tid, reply);
  }

  /** Who waits for a lock, and what that says about the others. */
  lemma WaitsFor(env: Env, core: Core, th: Thread, reply: Reply, count: nat)
    requires |core.south| == |env.names| && Noted(env, th) && !th.pc.Done?
    ensures var lock := Instruction(env, core, th, reply, count).lock;
            && (HoldsRead(th) ==> lock == Keep || lock == DropRead)
            && (lock == TakeApply ==> !HoldsApply(th))
            && (lock == TakeRead ==> !HoldsWrite(th))
            && (lock == TakeWrite ==> HoldsApply(th) && !HoldsWrite(th))
  {
  }

  /** Whoever can move: a reader, else the holder of applyMu, else anybody. */
  lemma SomebodyMoves(env: Env, s: State, tid: Tid, reply: Reply) returns (id: Tid)
    requires Sizes(env, s) && Held(s.locks, s.threads) && tid in s.threads && !s.threads[tid].pc.Done?
    ensures id in s.threads && !s.threads[id].pc.Done?
    ensures Free(s.locks, Instruction(env, s.core, s.threads[id], reply, |s.events|).lock)
  {
    if s.locks.readers != {} {
      id :| id in s.locks.readers;
    } else if s.locks.applyMu.Some? {
      id := s.locks.applyMu.value;
    } else {
      id := tid;
    }
    WaitsFor(env, s.core, s.threads[id], reply, |s.events|);
  }

  ghost predicate CanGoOn(env: Env, s: State, reply: Reply) {
    exists t, id :: Moves(env, s, t, id, reply)
  }

  /** No deadlock: while some call has not returned, some goroutine can go on, whatever the plugins answer. */
  lemma NoDeadlock(env: Env, init: Core, trace: seq<State>, tid: Tid, reply: Reply)
    requires Execution(env, init, trace)
    requires var s := trace[|trace| - 1]; tid in s.threads && !s.threads[tid].pc.Done?
    ensures CanGoOn(env, trace[|trace| - 1], reply)
  {
    ExecutionsKeepInv(env, init, trace);
    var s := trace[|trace| - 1];
    var id := SomebodyMoves(env, s, tid, reply);
    CanMove(env, s, id, reply);
  }

  /** No lost update: until its commit is written, the running snapshot is the one that Apply computed its diff from. */
  lemma NoLostUpdate(env: Env, init: Core, trace: seq<State>, tid: Tid)
    requires Execution(env, init, trace)
    requires var s := trace[|trace| - 1]; tid in s.threads && s.threads[tid].op.ApplyOp?
    ensures var s := trace[|trace| - 1];
            var pc := s.threads[tid].pc;
            && (pc.Diffing? || pc.Asking? || pc.Applying? || pc.Undoing? || pc.AllApplied? || pc.Writing?
                || pc.Bumped? ==>
                pc.was == s.core.running)
            && AllFit(env, init, s.events)
            && (pc.Bumped? ==> s.core.version == NextVersion(Run(env, init, s.events).version))
  {
    ExecutionsKeepInv(env, init, trace);
  }

  /** Whoever may read the engine finds the version of the running snapshot, and nobody writes meanwhile. */
  lemma ReadersSeeStampedSnapshots(env: Env, init: Core, trace: seq<State>)
    requires Execution(env, init, trace) && Stamped(init)
    ensures var s := trace[|trace| - 1];
            && (Stamped(s.core) || exists tid :: tid in s.threads && s.threads[tid].pc.Bumped?)
            && (forall r, w :: r in s.threads && w in s.threads && HoldsRead(s.threads[r]) ==>
                  !HoldsWrite(s.threads[w]))
            && (forall v, w ::
                  v in s.threads && w in s.threads && HoldsWrite(s.threads[v]) && HoldsWrite(s.threads[w]) ==> v == w)
  {
    ExecutionsKeepInv(env, init, trace);
    var s := trace[|trace| - 1];
    RunsAreStamped(env, init, s.events);
  }

  /**
   Atomicity under concurrency: when no call is changing the engine, every plugin reflects the
   running configuration if and only if no call has returned an error saying that its rollback failed.
   */
  lemma InterleavingsStayInSync(env: Env, init: Core, trace: seq<State>)
    requires Execution(env, init, trace) && Lawful(env) && InSync(env, init)
    requires var s := trace[|trace| - 1];
             && s.locks.applyMu.None? && AllFit(env, init, s.events)
             && forall i :: 0 <= i < |s.events| ==> InitializesInSync(env, Run(env, init, s.events[..i]), s.events[i])
    ensures var s := trace[|trace| - 1];
            InSync(env, s.core) <==>
            forall tid :: tid in s.threads && s.threads[tid].pc.Done? && s.threads[tid].pc.answer.Returned? ==>
              !RollbackFailed(s.threads[tid].pc.answer.result)
  {
    ExecutionsKeepInv(env, init, trace);
    var s := trace[|trace| - 1];
    RunsStayInSync(env, init, s.events);
    if i :| 0 <= i < |s.events| && ReportsFailedRollback(env, Run(env, init, s.events[..i]), s.events[i]) {
      FailureIsReturned(env, init, s, i);
    } else if tid :| tid in s.threads && s.threads[tid].pc.Done? && s.threads[tid].pc.answer.Returned?
                     && RollbackFailed(s.threads[tid].pc.answer.result) {
      ReturnedIsFailure(env, init, s, tid);
    }
  }
}
