/**
 API tokens (cmd/arca-routerd/web_server.go, web_auth.go): loading the token file, and finding the
 token that a request presents.  SHA-256 and the parser of one line are parameters.
 */
module Tokens {
  import opened Wrappers
  import opened Text

  type Digest = seq<bv8>

  const DIGEST_SIZE := 32

  /** A time is a number, 0 the zero time. */
  datatype Token = Token(name: string, role: string, value: string, digest: Digest, notAfter: nat)

  datatype Line = Skip | Bad(cause: string) | Good(token: Token)

  datatype Loaded =
    | Tokens(tokens: map<string, Token>)
    | BadLine(cause: string)
    | DuplicateName(name: string, line: nat)
    | DuplicateValue(name: string, line: nat)
    | NoTokens

  /** webAPITokenFingerprint */
  function Fingerprint(hash: string -> Digest, t: Token): Digest {
    if |t.digest| == DIGEST_SIZE then t.digest else hash(t.value)
  }

  // ---- Loading --------------------------------------------------------------

  /** The first n lines are acceptable: parsed, with names and values of their own. */
  ghost predicate Acceptable(hash: string -> Digest, lines: seq<Line>, n: nat)
    requires n <= |lines|
  {
    && (forall i :: 0 <= i < n ==> !lines[i].Bad?)
    && (forall i, j :: 0 <= i < j < n && lines[i].Good? && lines[j].Good? ==>
          Apart(hash, lines[i].token, lines[j].token))
  }

  ghost predicate Has(lines: seq<Line>, n: nat, tokens: map<string, Token>)
    requires n <= |lines|
  {
    forall i :: 0 <= i < n && lines[i].Good? ==>
        lines[i].token.name in tokens && tokens[lines[i].token.name] == lines[i].token
  }

  /** The map holds exactly the tokens of the first n lines, under their names. */
  ghost predicate Holds(lines: seq<Line>, n: nat, tokens: map<string, Token>)
    requires n <= |lines|
  {
    && Has(lines, n, tokens)
    && (forall name :: name in tokens ==>
          exists i :: 0 <= i < n && lines[i] == Good(tokens[name]) && tokens[name].name == name)
  }

  /** The fingerprints of the tokens, each with the name of its token. */
  ghost predicate Values(hash: string -> Digest, tokens: map<string, Token>, values: map<Digest, string>) {
    && (forall name :: name in tokens ==> Fingerprint(hash, tokens[name]) in values)
    && (forall d :: d in values ==> values[d] in tokens && Fingerprint(hash, tokens[values[d]]) == d)
  }

  lemma ExtendHolds(lines: seq<Line>, i: nat, tokens: map<string, Token>)
    requires i < |lines| && Holds(lines, i, tokens) && lines[i].Good? && lines[i].token.name !in tokens
    ensures Holds(lines, i + 1, tokens[lines[i].token.name := lines[i].token])
  {
    var t := lines[i].token;
    var tokens' := tokens[t.name := t];
    forall name | name in tokens'
      ensures exists j :: 0 <= j < i + 1 && lines[j] == Good(tokens'[name]) && tokens'[name].name == name
    {
      if name == t.name {
        assert lines[i] == Good(tokens'[name]);
      } else {
        var j :| 0 <= j < i && lines[j] == Good(tokens[name]) && tokens[name].name == name;
      }
    }
  }

  ghost predicate Apart(hash: string -> Digest, t: Token, u: Token) {
    t.name != u.name && Fingerprint(hash, t) != Fingerprint(hash, u)
  }

  lemma ExtendAcceptable(hash: string -> Digest, lines: seq<Line>, i: nat, tokens: map<string, Token>,
                         values: map<Digest, string>)
    requires i < |lines| && Acceptable(hash, lines, i) && Has(lines, i, tokens) && Values(hash, tokens, values)
    requires lines[i].Good? && lines[i].token.name !in tokens && Fingerprint(hash, lines[i].token) !in values
    ensures Acceptable(hash, lines, i + 1)
  {
    forall j | 0 <= j < i && lines[j].Good? ensures Apart(hash, lines[j].token, lines[i].token) {
      assert lines[j].token.name in tokens;
    }
  }

  /** One of the first n lines is this token. */
  ghost predicate Earlier(lines: seq<Line>, n: nat, t: Token)
    requires n <= |lines|
  {
    exists j :: 0 <= j < n && lines[j] == Good(t)
  }

  /** How far the loader has come. */
  ghost predicate Loading(hash: string -> Digest, lines: seq<Line>, n: nat, tokens: map<string, Token>,
                          values: map<Digest, string>) {
    n <= |lines| && Acceptable(hash, lines, n) && Holds(lines, n, tokens) && Values(hash, tokens, values)
  }

  lemma SkipHolds(lines: seq<Line>, i: nat, tokens: map<string, Token>)
    requires i < |lines| && Holds(lines, i, tokens) && lines[i].Skip?
    ensures Holds(lines, i + 1, tokens)
  {
    forall name | name in tokens
      ensures exists j :: 0 <= j < i + 1 && lines[j] == Good(tokens[name]) && tokens[name].name == name
    {
      var j :| 0 <= j < i && lines[j] == Good(tokens[name]) && tokens[name].name == name;
    }
  }

  lemma SkipAcceptable(hash: string -> Digest, lines: seq<Line>, i: nat)
    requires i < |lines| && Acceptable(hash, lines, i) && lines[i].Skip?
    ensures Acceptable(hash, lines, i + 1)
  {
  }

  lemma LoadingSkip(hash: string -> Digest, lines: seq<Line>, i: nat, tokens: map<string, Token>, values: map<Digest,
                    string>)
    requires i < |lines| && Loading(hash, lines, i, tokens, values) && lines[i].Skip?
    ensures Loading(hash, lines, i + 1, tokens, values)
  {
    SkipHolds(lines, i, tokens);
    SkipAcceptable(hash, lines, i);
  }

  lemma LoadingGood(hash: string -> Digest, lines: seq<Line>, i: nat, tokens: map<string, Token>, values: map<Digest,
                    string>)
    requires i < |lines| && Loading(hash, lines, i, tokens, values)
    requires lines[i].Good? && lines[i].token.name !in tokens && Fingerprint(hash, lines[i].token) !in values
    ensures var t := lines[i].token; Loading(hash, lines, i + 1, tokens[t.name := t],
                                             values[Fingerprint(hash, t) := t.name])
  {
    ExtendAcceptable(hash, lines, i, tokens, values);
    ExtendHolds(lines, i, tokens);
  }

  lemma LoadingDone(hash: string -> Digest, lines: seq<Line>, tokens: map<string, Token>, values: map<Digest, string>)
    requires Loading(hash, lines, |lines|, tokens, values)
    ensures tokens == map[] <==> forall i :: 0 <= i < |lines| ==> lines[i].Skip?
  {
    if tokens != map[] {
      var name :| name in tokens;
      var j :| 0 <= j < |lines| && lines[j] == Good(tokens[name]) && tokens[name].name == name;
    }
  }

  /** The error is about the first line that is not acceptable, and says what is wrong with it. */
  ghost predicate Explains(hash: string -> Digest, lines: seq<Line>, r: Loaded) {
    match r
    case BadLine(cause) => exists i :: 0 <= i < |lines| && lines[i] == Bad(cause) && Acceptable(hash, lines, i)
    case DuplicateName(name, line) =>
      && 0 < line <= |lines| && lines[line - 1].Good? && Acceptable(hash, lines, line - 1)
      && exists t :: Earlier(lines, line - 1, t) && t.name == name == lines[line - 1].token.name
    case DuplicateValue(name, line) =>
      && 0 < line <= |lines| && lines[line - 1].Good? && Acceptable(hash, lines, line - 1)
      && exists t :: Earlier(lines, line - 1, t) && t.name == name
           && Fingerprint(hash, t) == Fingerprint(hash, lines[line - 1].token)
    case _ => false
  }

  lemma ExplainedIsRefused(hash: string -> Digest, lines: seq<Line>, r: Loaded)
    requires Explains(hash, lines, r)
    ensures !Acceptable(hash, lines, |lines|)
  {
  }

  lemma NameClash(hash: string -> Digest, lines: seq<Line>, i: nat, tokens: map<string, Token>)
    requires i < |lines| && Acceptable(hash, lines, i) && Holds(lines, i, tokens) && lines[i].Good?
    requires lines[i].token.name in tokens
    ensures Explains(hash, lines, DuplicateName(lines[i].token.name, i + 1))
  {
    FromEarlier(lines, i, tokens, lines[i].token.name);
  }

  lemma ValueClash(hash: string -> Digest, lines: seq<Line>, i: nat, tokens: map<string, Token>, name: string)
    requires i < |lines| && Acceptable(hash, lines, i) && Holds(lines, i, tokens) && lines[i].Good?
    requires name in tokens && Fingerprint(hash, tokens[name]) == Fingerprint(hash, lines[i].token)
    ensures Explains(hash, lines, DuplicateValue(name, i + 1))
  {
    FromEarlier(lines, i, tokens, name);
  }

  lemma FromEarlier(lines: seq<Line>, n: nat, tokens: map<string, Token>, name: string)
    requires n <= |lines| && Holds(lines, n, tokens) && name in tokens
    ensures Earlier(lines, n, tokens[name]) && tokens[name].name == name
  {
    var j :| 0 <= j < n && lines[j] == Good(tokens[name]) && tokens[name].name == name;
  }

  /** The body of the loop of loadWebAPITokens. */
  method LoadLine(hash: string -> Digest, lines: seq<Line>, i: nat, tokens: map<string, Token>, values: map<Digest,
                  string>)
    returns (tokens': map<string, Token>, values': map<Digest, string>, fault: Option<Loaded>)
    requires i < |lines| && Loading(hash, lines, i, tokens, values)
    ensures fault.None? ==> Loading(hash, lines, i + 1, tokens', values')
    ensures fault.Some? ==> Explains(hash, lines, fault.value)
  {
    tokens', values', fault := tokens, values, None;
    match lines[i]
    case Bad(cause) => fault := Some(BadLine(cause));
    case Skip => LoadingSkip(hash, lines, i, tokens, values);
    case Good(t) =>
      var fingerprint := Fingerprint(hash, t);
      if t.name in tokens {
        NameClash(hash, lines, i, tokens);
        fault := Some(DuplicateName(t.name, i + 1));
      } else if fingerprint in values {
        ValueClash(hash, lines, i, tokens, values[fingerprint]);
        fault := Some(DuplicateValue(values[fingerprint], i + 1));
      } else {
        LoadingGood(hash, lines, i, tokens, values);
        tokens', values' := tokens[t.name := t], values[fingerprint := t.name];
      }
  }

  /**
   loadWebAPITokens: it accepts exactly the files whose tokens have names and values of their own, and
   explains a refusal.
   */
  method LoadTokens(hash: string -> Digest, lines: seq<Line>) returns (r: Loaded)
    ensures r.Tokens? <==> Acceptable(hash, lines, |lines|) && exists i :: 0 <= i < |lines| && lines[i].Good?
    ensures r.Tokens? ==> Holds(lines, |lines|, r.tokens)
    ensures r.NoTokens? <==> forall i :: 0 <= i < |lines| ==> lines[i].Skip?
    ensures !r.Tokens? && !r.NoTokens? ==> Explains(hash, lines, r)
  {
    var tokens: map<string, Token> := map[];
    var values: map<Digest, string> := map[];
    for i := 0 to |lines|
      invariant Loading(hash, lines, i, tokens, values)
    {
      var fault;
      tokens, values, fault := LoadLine(hash, lines, i, tokens, values);
      if fault.Some? {
        ExplainedIsRefused(hash, lines, fault.value);
        return fault.value;
      }
    }
    LoadingDone(hash, lines, tokens, values);
    return if tokens == map[] then NoTokens else Tokens(tokens);
  }

  // ---- Matching -------------------------------------------------------------

  /** webAPITokenMatches */
  predicate Matches(hash: string -> Digest, presented: string, t: Token, now: nat) {
    if t.notAfter != 0 && now >= t.notAfter then false
    else if |t.digest| == DIGEST_SIZE then hash(presented) == t.digest
    else t.value != "" && hash(presented) == hash(t.value)
  }

  predicate Usable(t: Token) {
    t.value != "" || |t.digest| == DIGEST_SIZE
  }

  /** The same value never appears under two names. */
  ghost predicate Separate(hash: string -> Digest, tokens: map<string, Token>) {
    forall a, b :: a in tokens && b in tokens && Fingerprint(hash, tokens[a]) == Fingerprint(hash, tokens[b]) ==> a == b
  }

  /** What the loader accepts is separate. */
  lemma LoadedIsSeparate(hash: string -> Digest, lines: seq<Line>, tokens: map<string, Token>)
    requires Acceptable(hash, lines, |lines|) && Holds(lines, |lines|, tokens)
    ensures Separate(hash, tokens)
  {
    forall a, b | a in tokens && b in tokens && Fingerprint(hash, tokens[a]) == Fingerprint(hash, tokens[b])
      ensures a == b
    {
      var i :| 0 <= i < |lines| && lines[i] == Good(tokens[a]) && tokens[a].name == a;
      var j :| 0 <= j < |lines| && lines[j] == Good(tokens[b]) && tokens[b].name == b;
      assert i == j;
    }
  }

  /** So a presented string matches one token at most. */
  lemma AtMostOneMatch(hash: string -> Digest, tokens: map<string, Token>, presented: string, now: nat, a: string,
                       b: string)
    requires Separate(hash, tokens) && a in tokens && b in tokens
    requires Matches(hash, presented, tokens[a], now) && Matches(hash, presented, tokens[b], now)
    ensures a == b
  {
    assert Fingerprint(hash, tokens[a]) == hash(presented) == Fingerprint(hash, tokens[b]);
  }

  const READ_ONLY := "read-only"

  datatype Identity = Identity(username: string, role: string)

  function IdentityOf(name: string, t: Token): Identity {
    Identity(if TrimSpace(t.name) == "" then name else TrimSpace(t.name), if TrimSpace(t.role) == "" then READ_ONLY
             else TrimSpace(t.role))
  }

  /** The token has a value, it is the presented one, and it has not run out. */
  ghost predicate Admits(hash: string -> Digest, t: Token, presented: string, now: nat) {
    && (t.value != "" || |t.digest| == DIGEST_SIZE) && Fingerprint(hash, t) == hash(presented)
    && (t.notAfter == 0 || now < t.notAfter)
  }

  /** The loop of authenticateWebToken stops at exactly the tokens that admit what is presented. */
  lemma MatchesIffAdmits(hash: string -> Digest, t: Token, presented: string, now: nat)
    ensures Usable(t) && Matches(hash, presented, t, now) <==> Admits(hash, t, presented, now)
  {
  }

  /** The name and role of a token: its own, trimmed, or else the key it is kept under and the least role. */
  ghost predicate Identifies(name: string, t: Token, id: Identity) {
    && id.username == (if TrimSpace(t.name) != "" then TrimSpace(t.name) else name)
    && id.role == (if TrimSpace(t.role) != "" then TrimSpace(t.role) else "read-only")
  }

  ghost predicate Finds(hash: string -> Digest, tokens: map<string, Token>, presented: string, now: nat, name: string) {
    name in tokens && Usable(tokens[name]) && Matches(hash, presented, tokens[name], now)
  }

  /**
   authenticateWebToken: the map is walked in any order and the last match wins; with separate tokens
   the answer is nevertheless one and the same.
   */
  method Authenticate(hash: string -> Digest, tokens: map<string, Token>, presented: string, now: nat)
    returns (r: Option<Identity>)
    ensures r.Some? <==> exists name :: name in tokens && Admits(hash, tokens[name], presented, now)
    ensures r.Some? ==> exists name :: name in tokens && Admits(hash, tokens[name], presented, now)
                          && Identifies(name, tokens[name], r.value)
    ensures Separate(hash, tokens) ==>
              forall name :: name in tokens && Admits(hash, tokens[name], presented, now) ==>
                r.Some? && Identifies(name, tokens[name], r.value)
  {
    var matched: Option<string> := None;
    var todo := tokens.Keys;
    while todo != {}
      invariant todo <= tokens.Keys
      invariant matched.None? ==> forall name :: name in tokens.Keys - todo ==>
                                    !Finds(hash, tokens, presented, now, name)
      invariant matched.Some? ==> Finds(hash, tokens, presented, now, matched.value)
    {
      var name := Pick(todo);
      todo := todo - {name};
      if Usable(tokens[name]) && Matches(hash, presented, tokens[name], now) {
        matched := Some(name);
      }
    }
    forall name | name in tokens
      ensures Finds(hash, tokens, presented, now, name) <==> Admits(hash, tokens[name], presented, now)
    {
      MatchesIffAdmits(hash, tokens[name], presented, now);
    }
    if matched.None? { return None; }
    forall name | Separate(hash, tokens) && Finds(hash, tokens, presented, now, name) ensures name == matched.value {
      AtMostOneMatch(hash, tokens, presented, now, name, matched.value);
    }
    return Some(IdentityOf(matched.value, tokens[matched.value]));
  }
}
