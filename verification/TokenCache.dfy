/**
 webAPITokenCache (cmd/arca-routerd/web_server.go): the token file is parsed again when its metadata
 change.  The file may be replaced at any moment, also between the stat and the read of one request.
 */
module TokenCache {
  import opened Wrappers

  /** What os.Stat tells. */
  datatype FileInfo = FileInfo(inode: nat, size: nat, mode: nat, modTime: nat)

  datatype Error =
    | StatError
    | PermissionError(cause: string)
    | ReadError(cause: string)   // the file could not be read or checked, whatever is in it
    | ParseError(cause: string)  // its contents are not acceptable

  datatype Outcome<T> = Tokens(tokens: T) | Failed(error: Error)

  datatype Cache<T> = Cache(fileInfo: Option<FileInfo>, tokens: Option<T>, loadErr: Option<Error>)

  /** What a request meets: the stat, the check of the permissions, and what loading the file would give. */
  datatype Meets<T> = Meets(stat: Option<FileInfo>, permission: Option<string>, load: Outcome<T>)

  /** tokensForRequest; the last result tells whether the answer came from the cache. */
  function Serve<T>(c: Cache<T>, q: Meets<T>): (Cache<T>, Outcome<T>, bool) {
    if q.stat.None? then (c, Failed(StatError), false)
    else if c.fileInfo == q.stat && q.permission.Some? then (c, Failed(PermissionError(q.permission.value)), false)
    else if c.fileInfo == q.stat && c.loadErr.Some? then (c, Failed(c.loadErr.value), true)
    else if c.fileInfo == q.stat && c.tokens.Some? then (c, Tokens(c.tokens.value), true)
    else match q.load
      case Failed(e) => (c.(fileInfo := q.stat, loadErr := Some(e)), Failed(e), false)
      case Tokens(t) => (Cache(q.stat, Some(t), None), Tokens(t), false)
  }

  /** The cache as an object. */
  class TokenFile<T> {
    var fileInfo: Option<FileInfo>
    var tokens: Option<T>
    var loadErr: Option<Error>

    /** newWebAPITokenCache: tokens loaded before are kept, but no metadata yet. */
    constructor (tokens: Option<T>)
      ensures State() == Cache(None, tokens, None)
    {
      fileInfo, this.tokens, loadErr := None, tokens, None;
    }

    function State(): Cache<T>
      reads this
    {
      Cache(fileInfo, tokens, loadErr)
    }

    /** sameWebAPITokenFile */
    predicate SameFile(current: FileInfo)
      reads this
    {
      && fileInfo.Some? && fileInfo.value.inode == current.inode && fileInfo.value.size == current.size
      && fileInfo.value.mode == current.mode && fileInfo.value.modTime == current.modTime
    }

    method TokensForRequest(q: Meets<T>) returns (r: Outcome<T>, ghost cached: bool)
      modifies this
      ensures (State(), r, cached) == Serve(old(State()), q)
    {
      cached := false;
      if q.stat.None? { return Failed(StatError), false; }
      if SameFile(q.stat.value) {
        if q.permission.Some? { return Failed(PermissionError(q.permission.value)), false; }
        if loadErr.Some? { return Failed(loadErr.value), true; }
        if tokens.Some? { return Tokens(tokens.value), true; }
      }
      fileInfo := q.stat;
      match q.load
      case Failed(e) =>
        loadErr := Some(e);
        return q.load, false;
      case Tokens(t) =>
        tokens, loadErr := Some(t), None;
        return q.load, false;
    }
  }

  // ---- The file and its versions ----------------------------------------------

  /** A version of the file. */
  datatype Version = Version(info: FileInfo, contents: string)

  /** A request: at which version of the file it stats and at which, not earlier, it reads. */
  datatype Request = Request(statAt: nat, statFails: bool, permission: Option<string>, readAt: nat,
                             readFails: Option<string>)

  /** Metadata are never reused. */
  ghost predicate Fresh(file: seq<Version>) {
    forall i, j :: 0 <= i < j < |file| ==> file[i].info != file[j].info
  }

  predicate Within(file: seq<Version>, q: Request) {
    q.statAt <= q.readAt < |file|
  }

  /** Loading the file at one of its versions. */
  function LoadAt<T>(parse: string -> Outcome<T>, file: seq<Version>, q: Request): Outcome<T>
    requires Within(file, q)
  {
    if q.readFails.Some? then Failed(ReadError(q.readFails.value)) else parse(file[q.readAt].contents)
  }

  function MeetsOf<T>(parse: string -> Outcome<T>, file: seq<Version>, q: Request): Meets<T>
    requires Within(file, q)
  {
    Meets(if q.statFails then None else Some(file[q.statAt].info), q.permission, LoadAt(parse, file, q))
  }

  /** A parser's errors are about contents. */
  ghost predicate Parses<T(!new)>(parse: string -> Outcome<T>) {
    forall s :: parse(s).Failed? ==> parse(s).error.ParseError?
  }

  /** The requests of a run follow each other in time. */
  ghost predicate InOrder(file: seq<Version>, qs: seq<Request>) {
    && (forall i :: 0 <= i < |qs| ==> Within(file, qs[i]))
    && forall i, j :: 0 <= i < j < |qs| ==> qs[i].readAt <= qs[j].statAt
  }

  function After<T>(parse: string -> Outcome<T>, file: seq<Version>, c: Cache<T>, qs: seq<Request>): Cache<T>
    requires forall i :: 0 <= i < |qs| ==> Within(file, qs[i])
  {
    if qs == [] then c
    else
      var last := qs[|qs| - 1];
      Serve(After(parse, file, c, qs[..|qs| - 1]), MeetsOf(parse, file, last)).0
  }

  /** Request k loaded the file, and nothing has been loaded since. */
  ghost predicate LoadedBy<T(!new)>(parse: string -> Outcome<T>, file: seq<Version>, c: Cache<T>, qs: seq<Request>,
                                    k: nat)
    requires k < |qs| && forall i :: 0 <= i < |qs| ==> Within(file, qs[i])
  {
    var load := LoadAt(parse, file, qs[k]);
    && c.fileInfo == Some(file[qs[k].statAt].info)
    && (load.Failed? ==> c.loadErr == Some(load.error))
    && (load.Tokens? ==> c.loadErr == None && c.tokens == Some(load.tokens))
  }

  /** What the cache holds came from one of the requests, as long as it holds any metadata. */
  lemma {:induction false} CacheComesFromALoad<T(!new)>(parse: string -> Outcome<T>, file: seq<Version>, c0: Cache<T>,
                                                        qs: seq<Request>) returns (k: nat)
    requires InOrder(file, qs) && c0.fileInfo.None? && After(parse, file, c0, qs).fileInfo.Some?
    ensures k < |qs| && LoadedBy(parse, file, After(parse, file, c0, qs), qs, k)
    decreases |qs|
  {
    var n := |qs| - 1;
    var before, last := qs[..n], qs[n];
    var c := After(parse, file, c0, before);
    var q := MeetsOf(parse, file, last);
    if Serve(c, q).0 == c && c.fileInfo.Some? {
      k := CacheComesFromALoad(parse, file, c0, before);
      assert before[k] == qs[k];
    } else {
      k := n;
    }
  }

  /** A further request after those of a run. */
  ghost predicate Later(file: seq<Version>, qs: seq<Request>, q: Request) {
    InOrder(file, qs) && Within(file, q) && forall i :: 0 <= i < |qs| ==> qs[i].readAt <= q.statAt
  }

  /** The file has not changed since the load that the answer comes from. */
  lemma CachedVersion<T(!new)>(parse: string -> Outcome<T>, file: seq<Version>, c0: Cache<T>, qs: seq<Request>,
                               q: Request) returns (k: nat)
    requires Later(file, qs, q) && Fresh(file) && c0.fileInfo.None?
    requires Serve(After(parse, file, c0, qs), MeetsOf(parse, file, q)).2
    ensures k < |qs| && LoadedBy(parse, file, After(parse, file, c0, qs), qs, k)
    ensures qs[k].statAt == qs[k].readAt == q.statAt
  {
    k := CacheComesFromALoad(parse, file, c0, qs);
    assert file[qs[k].statAt].info == file[q.statAt].info;
  }

  /**
   Coherence: tokens served from the cache are those a fresh parse of the file version seen by this
   request's stat gives; an error served from the cache is that of a fresh parse if and only if
   the load it comes from could read the file.
   */
  lemma CacheIsCoherent<T(!new)>(parse: string -> Outcome<T>, file: seq<Version>, c0: Cache<T>, qs: seq<Request>,
                                 q: Request)
    requires Later(file, qs, q) && Fresh(file) && Parses(parse) && c0.fileInfo.None?
    requires Serve(After(parse, file, c0, qs), MeetsOf(parse, file, q)).2
    ensures var answer := Serve(After(parse, file, c0, qs), MeetsOf(parse, file, q)).1;
            var parsed := parse(file[q.statAt].contents);
            && (answer.Tokens? ==> answer == parsed)
            && exists k :: 0 <= k < |qs| && LoadedBy(parse, file, After(parse, file, c0, qs), qs, k)
                 && qs[k].statAt == q.statAt
                           && (answer.Failed? ==> (answer == parsed <==> qs[k].readFails.None?))
  {
    var k := CachedVersion(parse, file, c0, qs, q);
  }

  /**
   An answer that is not from the cache is that of the load just made, or says that the file could not be
   looked at.
   */
  lemma UncachedIsFresh<T(!new)>(parse: string -> Outcome<T>, file: seq<Version>, c: Cache<T>, q: Request)
    requires Within(file, q) && !Serve(c, MeetsOf(parse, file, q)).2
    ensures var answer := Serve(c, MeetsOf(parse, file, q)).1;
            answer == LoadAt(parse, file, q)
                || (answer.Failed? && (answer.error.StatError? || answer.error.PermissionError?))
  {
  }

  /** What the cache keeps as an error is that of a load. */
  lemma {:induction false} KeptErrorsAreOfLoads<T(!new)>(parse: string -> Outcome<T>, file: seq<Version>, c0: Cache<T>,
                                                         qs: seq<Request>)
    requires (forall i :: 0 <= i < |qs| ==> Within(file, qs[i])) && Parses(parse) && c0.loadErr.None?
    ensures var c := After(parse, file, c0, qs);
            c.loadErr.Some? ==> c.loadErr.value.ReadError? || c.loadErr.value.ParseError?
    decreases |qs|
  {
    if qs != [] {
      KeptErrorsAreOfLoads(parse, file, c0, qs[..|qs| - 1]);
    }
  }

  /**
   Which request is refused and why, after any run: a failed stat, or a failed check of the permissions of
   a file that has not changed since it was loaded; the cache answers exactly the others that meet such a file.
   */
  lemma RefusedIff<T(!new)>(parse: string -> Outcome<T>, file: seq<Version>, tokens: Option<T>, qs: seq<Request>,
                            q: Request, cause: string)
    requires (forall i :: 0 <= i < |qs| ==> Within(file, qs[i])) && Within(file, q) && Parses(parse)
    ensures var c := After(parse, file, Cache(None, tokens, None), qs);
            var (after, answer, cached) := Serve(c, MeetsOf(parse, file, q));
            var same := !q.statFails && c.fileInfo == Some(file[q.statAt].info);
            && (answer == Failed(StatError) <==> q.statFails)
            && (answer == Failed(PermissionError(cause)) <==> same && q.permission == Some(cause))
            && (cached <==> same && q.permission.None?)
            && (same || q.statFails ==> after == c)
            && (!same && !q.statFails ==>
                after.fileInfo == Some(file[q.statAt].info) && answer == LoadAt(parse, file, q))
  {
    KeptErrorsAreOfLoads(parse, file, Cache(None, tokens, None), qs);
    FilledCacheAnswers(parse, file, Cache(None, tokens, None), qs);
  }

  /** A cache that has metadata has tokens or an error. */
  lemma {:induction false} FilledCacheAnswers<T(!new)>(parse: string -> Outcome<T>, file: seq<Version>, c0: Cache<T>,
                                                       qs: seq<Request>)
    requires (forall i :: 0 <= i < |qs| ==> Within(file, qs[i])) && c0.fileInfo.None?
    ensures var c := After(parse, file, c0, qs); c.fileInfo.Some? ==> c.loadErr.Some? || c.tokens.Some?
    decreases |qs|
  {
    if qs != [] {
      FilledCacheAnswers(parse, file, c0, qs[..|qs| - 1]);
    }
  }

  /**
   A read that fails once is served as an error to every later request, although the file is in order and
   readable.
   */
  lemma ReadErrorIsKept()
    ensures var parse := (s: string) => Tokens(s);
            var file := [Version(FileInfo(1, 1, 0, 1), "t")];
            var failing, fine := Request(0, false, None, 0, Some("EIO")), Request(0, false, None, 0, None);
            var c := After(parse, file, Cache(None, None, None), [failing]);
            Serve(c, MeetsOf(parse, file, fine)) == (c, Failed(ReadError("EIO")), true)
                && LoadAt(parse, file, fine) == Tokens("t")
  {
    var parse := (s: string) => Tokens(s);
    var file := [Version(FileInfo(1, 1, 0, 1), "t")];
    var failing := Request(0, false, None, 0, Some("EIO"));
    var c0: Cache<string> := Cache(None, None, None);
    assert [failing][..0] == [];
    assert After(parse, file, c0, [failing]) == Serve(c0, MeetsOf(parse, file, failing)).0;
  }
}
