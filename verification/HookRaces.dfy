/**
 The commit hook (cmd/arca-routerd/main.go) next to other writers.  It reads its before-snapshot,
 commits, and undoes by applying that snapshot again: three calls of the engine, between
 which others may commit.  This module says exactly when the undo erases somebody else's commit.
 */
module HookRaces {
  import opened Wrappers
  import opened ConfigModel
  import opened Diff
  import opened HashVersusDiff
  import opened EngineSpec
  import opened EngineTheorems
  import opened EngineThreads
  import opened CommitHook

  /** The places of the three calls in the order of effects: how many calls the read saw, and the two commits. */
  datatype HookRun = HookRun(read: nat, commit: nat, undo: nat)

  /** What the engine runs after the first n calls, as far as it can tell. */
  ghost function SeenAt(env: Env, init: Core, events: seq<Event>, n: nat): Observation
    requires AllFit(env, init, events) && n <= |events|
  {
    SeenOf(env, RunningConfig(CoreAt(env, init, events, n)))
  }

  ghost predicate Succeeds(env: Env, init: Core, events: seq<Event>, n: nat)
    requires AllFit(env, init, events) && n < |events|
  {
    AnswerTo(env, CoreAt(env, init, events, n), events[n]) == Returned(Success)
  }

  /** A hook whose commit went through, could not be persisted, and was taken back. */
  ghost predicate IsHookRun(env: Env, init: Core, events: seq<Event>, h: HookRun) {
    && AllFit(env, init, events) && h.read <= h.commit < h.undo < |events|
    && Succeeds(env, init, events, h.commit) && Succeeds(env, init, events, h.undo)
    && events[h.undo].ApplyEvent?
    && events[h.undo].candidate == Some(OrEmpty(CloneOf(env, RunningConfig(CoreAt(env, init, events, h.read)))))
  }

  /** What the engine runs at every place in the order of effects. */
  ghost function Shown(env: Env, init: Core, events: seq<Event>): (obs: seq<Observation>)
    requires AllFit(env, init, events)
    ensures |obs| == |events| + 1 && forall n :: 0 <= n < |obs| ==> obs[n] == SeenAt(env, init, events, n)
  {
    seq(|events| + 1, n requires 0 <= n <= |events| => SeenAt(env, init, events, n))
  }

  /** Call m changes what the engine runs. */
  predicate Commits(obs: seq<Observation>, m: nat)
    requires m + 1 < |obs|
  {
    obs[m + 1] != obs[m]
  }

  /** The last commit of somebody else between the hook's read and its undo. */
  ghost predicate LastForeign(obs: seq<Observation>, h: HookRun, m: nat)
    requires h.undo < |obs|
  {
    && h.read <= m < h.undo && m != h.commit && Commits(obs, m)
    && forall i :: m < i < h.undo && i != h.commit ==> !Commits(obs, i)
  }

  /** The last commit of somebody else is not what the engine runs after the undo. */
  ghost predicate Erases(obs: seq<Observation>, h: HookRun)
    requires h.undo + 1 < |obs|
  {
    exists m :: LastForeign(obs, h, m) && obs[m + 1] != obs[h.undo + 1]
  }

  lemma CoreAtNext(env: Env, init: Core, events: seq<Event>, n: nat)
    requires AllFit(env, init, events) && n < |events|
    ensures CoreAt(env, init, events, n + 1) == After(env, CoreAt(env, init, events, n), events[n])
  {
    assert events[..n + 1][..n] == events[..n];
  }

  /** For an Apply, to commit is to install a snapshot under a new version. */
  lemma CommitsIffInstalls(env: Env, init: Core, events: seq<Event>, m: nat)
    requires Lawful(env) && AllFit(env, init, events) && m < |events| && events[m].ApplyEvent?
    ensures Commits(Shown(env, init, events), m) <==>
            CoreAt(env, init, events, m + 1).version == NextVersion(CoreAt(env, init, events, m).version)
  {
    CoreAtNext(env, init, events, m);
    OldSideSeen(env, CoreAt(env, init, events, m));
  }

  /** After the undo the engine runs what the hook had read, whatever happened in between. */
  lemma UndoRestoresWhatWasRead(env: Env, init: Core, events: seq<Event>, h: HookRun)
    requires Lawful(env) && IsHookRun(env, init, events, h)
    ensures SeenAt(env, init, events, h.undo + 1) == SeenAt(env, init, events, h.read)
  {
    var core, e := CoreAt(env, init, events, h.undo), events[h.undo];
    CoreAtNext(env, init, events, h.undo);
    ApplyRuns(env, core, e.candidate.value, e.author, e.message, e.replies);
    OldSideSeen(env, CoreAt(env, init, events, h.read));
  }

  /** Without a commit from n to m the engine runs the same at both places. */
  lemma {:induction false} QuietKeepsRunning(obs: seq<Observation>, n: nat, m: nat)
    requires n <= m < |obs| && forall i :: n <= i < m ==> !Commits(obs, i)
    ensures obs[m] == obs[n]
    decreases m - n
  {
    if n < m {
      QuietKeepsRunning(obs, n, m - 1);
      assert !Commits(obs, m - 1);
    }
  }

  /** The last commit from n on, if there is one before m. */
  lemma {:induction false} LastCommit(obs: seq<Observation>, n: nat, m: nat) returns (i: nat)
    requires n <= m < |obs| && exists j :: n <= j < m && Commits(obs, j)
    ensures n <= i < m && Commits(obs, i) && obs[m] == obs[i + 1] && forall j :: i < j < m ==> !Commits(obs, j)
    decreases m - n
  {
    if Commits(obs, m - 1) {
      i := m - 1;
    } else {
      i := LastCommit(obs, n, m - 1);
    }
  }

  /**
   The undo erases somebody else's commit if and only if what ran before it, or before the hook's own commit
   if nobody has committed since then, is not what the hook had read.
   */
  lemma ErasesIff(env: Env, init: Core, events: seq<Event>, h: HookRun)
    requires Lawful(env) && IsHookRun(env, init, events, h)
    ensures var obs := Shown(env, init, events);
            Erases(obs, h) <==>
            if exists m :: h.commit < m < h.undo && Commits(obs, m) then obs[h.undo] != obs[h.read]
            else obs[h.commit] != obs[h.read]
  {
    UndoRestoresWhatWasRead(env, init, events, h);
    ErasesIffShown(Shown(env, init, events), h);
  }

  lemma ErasesIffShown(obs: seq<Observation>, h: HookRun)
    requires h.read <= h.commit < h.undo && h.undo + 1 < |obs| && obs[h.undo + 1] == obs[h.read]
    ensures Erases(obs, h) <==>
            if exists m :: h.commit < m < h.undo && Commits(obs, m) then obs[h.undo] != obs[h.read]
            else obs[h.commit] != obs[h.read]
  {
    if exists m :: h.commit < m < h.undo && Commits(obs, m) {
      var i := LastCommit(obs, h.commit + 1, h.undo);
      OnlyLastForeign(obs, h, i);
    } else if exists m :: h.read <= m < h.commit && Commits(obs, m) {
      var i := LastCommit(obs, h.read, h.commit);
      OnlyLastForeign(obs, h, i);
    } else {
      QuietKeepsRunning(obs, h.read, h.commit);
    }
  }

  lemma OnlyLastForeign(obs: seq<Observation>, h: HookRun, i: nat)
    requires h.undo + 1 < |obs| && LastForeign(obs, h, i)
    ensures Erases(obs, h) <==> obs[i + 1] != obs[h.undo + 1]
  {
    forall m | LastForeign(obs, h, m) ensures m == i {
    }
  }

  /** So without another writer nothing is erased, and the undo returns to what ran before the hook's commit. */
  lemma AloneNothingIsErased(env: Env, init: Core, events: seq<Event>, h: HookRun)
    requires Lawful(env) && IsHookRun(env, init, events, h)
    requires forall m :: h.read <= m < h.undo && m != h.commit ==> !Commits(Shown(env, init, events), m)
    ensures !Erases(Shown(env, init, events), h)
    ensures SeenAt(env, init, events, h.undo + 1) == SeenAt(env, init, events, h.commit)
  {
    UndoRestoresWhatWasRead(env, init, events, h);
    QuietKeepsRunning(Shown(env, init, events), h.read, h.commit);
  }

  // ---- As if the hook had not been there ------------------------------------------

  /**
   What a call puts in place if it goes through: a valid candidate that every plugin takes, or an initial
   configuration.
   */
  ghost function Puts(env: Env, e: Event): Option<Observation> {
    match e
    case ApplyEvent(Some(c), _, _, r) =>
      if env.valid(env.clone(c)).None? && AllNil(r.validate) && AllNil(r.apply) then Some(env.seen(c)) else None
    case ApplyEvent(None, _, _, _) => None
    case InitializeEvent(c, _) => Some(SeenOf(env, c))
  }

  /** What runs after a call is what it puts in place, or else what ran before, whichever configuration that was. */
  lemma PutsDecides(env: Env, core: Core, e: Event)
    requires Lawful(env) && Fits(env, core, e)
    ensures SeenOf(env, RunningConfig(After(env, core, e))) ==
            if Puts(env, e).Some? then Puts(env, e).value else SeenOf(env, RunningConfig(core))
  {
    OldSideSeen(env, core);
    if e.ApplyEvent? && AllNil(e.replies.validate) && AllNil(e.replies.apply) {
      FirstErrorIs(e.replies.validate, |e.replies.validate|);
      FirstErrorIs(e.replies.apply, |e.replies.apply|);
    }
  }

  lemma {:induction false} RunConcat(env: Env, core: Core, a: seq<Event>, b: seq<Event>)
    requires AllFit(env, core, a) && AllFit(env, core, b)
    ensures AllFit(env, core, a + b) && Run(env, core, a + b) == Run(env, Run(env, core, a), b)
    decreases |b|
  {
    if b == [] {
      assert a + b == a;
    } else {
      var n := |b| - 1;
      RunConcat(env, core, a, b[..n]);
      assert (a + b)[..|a + b| - 1] == a + b[..n];
    }
  }

  /** Calls that put something in place make two engines run the same; others leave both as they are. */
  lemma {:induction false} LastPutDecides(env: Env, c: Core, d: Core, events: seq<Event>)
    requires Lawful(env) && |c.south| == |d.south| && AllFit(env, c, events)
    ensures var x, y := RunningConfig(Run(env, c, events)), RunningConfig(Run(env, d, events));
            if exists m :: 0 <= m < |events| && Puts(env, events[m]).Some? then SeenOf(env, x) == SeenOf(env, y)
            else SeenOf(env, x) == SeenOf(env, RunningConfig(c)) && SeenOf(env, y) == SeenOf(env, RunningConfig(d))
    decreases |events|
  {
    if events != [] {
      var n := |events| - 1;
      LastPutDecides(env, c, d, events[..n]);
      PutsDecides(env, Run(env, c, events[..n]), events[n]);
      PutsDecides(env, Run(env, d, events[..n]), events[n]);
      assert forall m :: 0 <= m < n ==> events[..n][m] == events[m];
    }
  }

  /** The calls of the others up to the undo. */
  function WithoutHook(events: seq<Event>, h: HookRun): seq<Event>
    requires h.commit < h.undo <= |events|
  {
    events[..h.commit] + events[h.commit + 1..h.undo]
  }

  /** A call of somebody else goes through between the hook's commit and its undo. */
  ghost predicate OthersGoThrough(env: Env, events: seq<Event>, h: HookRun)
    requires h.undo <= |events|
  {
    exists m :: h.commit < m < h.undo && Puts(env, events[m]).Some?
  }

  lemma OthersInBetween(env: Env, events: seq<Event>, h: HookRun)
    requires h.commit < h.undo <= |events|
    ensures var rest := events[h.commit + 1..h.undo];
            OthersGoThrough(env, events, h) <==> exists i :: 0 <= i < |rest| && Puts(env, rest[i]).Some?
  {
    var rest := events[h.commit + 1..h.undo];
    if m :| h.commit < m < h.undo && Puts(env, events[m]).Some? {
      assert rest[m - h.commit - 1] == events[m];
    }
  }

  /** What the engine would run without the hook. */
  lemma SeenWithoutHook(env: Env, init: Core, events: seq<Event>, h: HookRun)
    requires Lawful(env) && AllFit(env, init, events) && h.commit < h.undo <= |events|
    ensures var others := WithoutHook(events, h);
            && AllFit(env, init, others)
            && SeenOf(env, RunningConfig(Run(env, init, others))) ==
               SeenAt(env, init, events, if OthersGoThrough(env, events, h) then h.undo else h.commit)
  {
    var rest := events[h.commit + 1..h.undo];
    RunConcat(env, init, events[..h.commit], rest);
    RunConcat(env, init, events[..h.commit + 1], rest);
    assert events[..h.commit + 1] + rest == events[..h.undo];
    LastPutDecides(env, CoreAt(env, init, events, h.commit), CoreAt(env, init, events, h.commit + 1), rest);
    OthersInBetween(env, events, h);
  }

  /**
   The undo takes back exactly the hook's own commit, that is, the engine runs what it would run without the
   hook, if and only if what the hook had read is what runs before the undo, or before the hook's own commit if
   no call of somebody else has gone through since then.
   */
  lemma UndoIsExactIff(env: Env, init: Core, events: seq<Event>, h: HookRun)
    requires Lawful(env) && IsHookRun(env, init, events, h)
    ensures var others := WithoutHook(events, h);
            && AllFit(env, init, others)
            && (SeenAt(env, init, events, h.undo + 1) == SeenOf(env, RunningConfig(Run(env, init, others))) <==>
                SeenAt(env, init, events, h.read) ==
                SeenAt(env, init, events, if OthersGoThrough(env, events, h) then h.undo else h.commit))
  {
    UndoRestoresWhatWasRead(env, init, events, h);
    SeenWithoutHook(env, init, events, h);
  }

  // ---- In the interleavings of the engine ---------------------------------------

  /**
   A goroutine of the hook: it has read, then committed, then undone, each call begun after the one before
   returned.
   */
  ghost predicate HookCalls(env: Env, s: State, read: Tid, commit: Tid, undo: Tid) {
    && read in s.threads && commit in s.threads && undo in s.threads
    && var r, c, u := s.threads[read], s.threads[commit], s.threads[undo];
       && r.op.ReadOp? && r.pc.Done? && r.pc.answer.Snap?
       && c.op.ApplyOp? && c.pc.Done? && c.pc.answer == Returned(Success) && r.pc.at <= c.start
       && u.op.ApplyOp? && u.pc.Done? && u.pc.answer == Returned(Success) && c.pc.at < u.start
       && u.op.candidate == Some(WasOf(env, r.pc.answer.running))
  }

  /** In every interleaving the three calls of a hook are such a run, at their places in the order of effects. */
  lemma HookCallsAreAHookRun(env: Env, init: Core, trace: seq<State>, read: Tid, commit: Tid, undo: Tid)
    requires Execution(env, init, trace) && HookCalls(env, trace[|trace| - 1], read, commit, undo)
    ensures var s := trace[|trace| - 1];
            IsHookRun(env, init, s.events,
                      HookRun(s.threads[read].pc.at, s.threads[commit].pc.at, s.threads[undo].pc.at))
  {
    EveryInterleavingIsSerial(env, init, trace);
  }

  // ---- A race ---------------------------------------------------------------

  /** Nothing running; another writer commits a after the hook has read, the hook commits b and takes it back. */
  function RaceEvents(a: RouterConfig, b: RouterConfig): seq<Event> {
    var none := Replies([], [], []);
    [ApplyEvent(Some(a), "other", "", none), ApplyEvent(Some(b), "hook", "", none),
     ApplyEvent(Some(EMPTY_CONFIG), "hook", UNDO, none)]
  }

  lemma RaceIsHookRun(env: Env, a: RouterConfig, b: RouterConfig)
    requires Lawful(env) && env.names == [] && forall c :: env.valid(c).None?
    ensures IsHookRun(env, Core(None, 0, []), RaceEvents(a, b), HookRun(0, 1, 2))
  {
  }

  lemma RaceStarts(env: Env, a: RouterConfig, b: RouterConfig)
    requires Lawful(env) && env.names == [] && forall c :: env.valid(c).None?
    requires IsHookRun(env, Core(None, 0, []), RaceEvents(a, b), HookRun(0, 1, 2))
    ensures SeenAt(env, Core(None, 0, []), RaceEvents(a, b), 0) == env.seen(EMPTY_CONFIG)
    ensures SeenAt(env, Core(None, 0, []), RaceEvents(a, b), 1) == env.seen(a)
  {
    var init, events := Core(None, 0, []), RaceEvents(a, b);
    assert events[..0] == [];
    CoreAtNext(env, init, events, 0);
    ApplyRuns(env, init, a, "other", "", events[0].replies);
  }

  lemma RaceErases(env: Env, a: RouterConfig, b: RouterConfig)
    requires Lawful(env) && env.names == [] && forall c :: env.valid(c).None?
    requires env.seen(a) != env.seen(EMPTY_CONFIG) && env.seen(b) != env.seen(a)
    ensures var init := Core(None, 0, []);
            && IsHookRun(env, init, RaceEvents(a, b), HookRun(0, 1, 2))
            && Erases(Shown(env, init, RaceEvents(a, b)), HookRun(0, 1, 2))
            && SeenAt(env, init, RaceEvents(a, b), 3) == env.seen(EMPTY_CONFIG)
            && SeenAt(env, init, RaceEvents(a, b), 1) == env.seen(a)
  {
    var init, events := Core(None, 0, []), RaceEvents(a, b);
    RaceIsHookRun(env, a, b);
    RaceStarts(env, a, b);
    UndoRestoresWhatWasRead(env, init, events, HookRun(0, 1, 2));
    ErasesIff(env, init, events, HookRun(0, 1, 2));
  }

  /** Such a race: another writer's VRF is gone after a commit that had nothing to do with it. */
  lemma RaceErasesVrf()
    ensures var env := StandardEnv([], _ => None);
            var init, events := Core(None, 0, []), RaceEvents(Vrf(Null), SshDisabled(true));
            && IsHookRun(env, init, events, HookRun(0, 1, 2))
            && Erases(Shown(env, init, events), HookRun(0, 1, 2))
            && SeenAt(env, init, events, 1) == Seen(Vrf(Null))
            && SeenAt(env, init, events, 3) == Seen(EMPTY_CONFIG)
  {
    StandardEnvIsLawful([], _ => None);
    RaceConfigsDiffer();
    RaceErases(StandardEnv([], _ => None), Vrf(Null), SshDisabled(true));
  }

  lemma RaceConfigsDiffer()
    ensures Seen(Vrf(Null)) != Seen(EMPTY_CONFIG) && Seen(SshDisabled(true)) != Seen(Vrf(Null))
  {
    assert Seen(Vrf(Null)).sections.routingInstances != Null && Seen(EMPTY_CONFIG).sections.routingInstances == Null;
    assert Seen(SshDisabled(true)).sections.security.Some? && Seen(Vrf(Null)).sections.security.None?;
  }
}
