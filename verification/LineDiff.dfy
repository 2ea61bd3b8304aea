/**
 The diff shown in the web interface (cmd/arca-routerd/web_handlers.go): lines are compared unredacted
 and shown redacted.  The maps are walked in no particular order.
 */
module LineDiff {
  import opened Wrappers
  import opened Text

  /** normalizedWebConfigDiffLines */
  method NormalizedDiffLines(text: string) returns (lines: seq<string>)
    ensures lines == Normalized(Split(text))
  {
    lines := TrimParts(Split(text));
  }

  /** The lines of a text and the form each is shown in. */
  ghost predicate Shows(lines: seq<string>, shown: seq<string>, m: map<string, string>) {
    && |lines| == |shown| && m.Keys == (set l | l in lines)
    && forall i :: 0 <= i < |lines| ==> lines[i] in m && m[lines[i]] == shown[i]
  }

  ghost predicate OneFormEach(lines: seq<string>, shown: seq<string>) {
    |lines| == |shown| && forall i, j :: 0 <= i < |lines| && 0 <= j < |lines| && lines[i] == lines[j] ==>
                            shown[i] == shown[j]
  }

  /** The loop of webConfigDiffLineMap. */
  method CollectLineMap(lines: seq<string>, shown: seq<string>) returns (lineMap: map<string, string>, ok: bool)
    requires |lines| == |shown|
    ensures ok <==> OneFormEach(lines, shown)
    ensures ok ==> Shows(lines, shown, lineMap)
  {
    lineMap := map[];
    for i := 0 to |lines|
      invariant forall j :: 0 <= j < i ==> lines[j] in lineMap && lineMap[lines[j]] == shown[j]
      invariant forall l :: l in lineMap ==> exists j :: 0 <= j < i && lines[j] == l
    {
      if lines[i] in lineMap && lineMap[lines[i]] != shown[i] {
        return map[], false;
      }
      lineMap := lineMap[lines[i] := shown[i]];
    }
    return lineMap, true;
  }

  /** webConfigDiffLineMap */
  method DiffLineMap(text: string, redactedText: string) returns (lineMap: map<string, string>, ok: bool)
    ensures ok <==> OneFormEach(Normalized(Split(text)), Normalized(Split(redactedText)))
    ensures ok ==> Shows(Normalized(Split(text)), Normalized(Split(redactedText)), lineMap)
  {
    var lines := NormalizedDiffLines(text);
    var shown := NormalizedDiffLines(redactedText);
    if |lines| != |shown| {
      return map[], false;
    }
    lineMap, ok := CollectLineMap(lines, shown);
  }

  // ---- The diff -------------------------------------------------------------

  function Marks(mark: string, lines: seq<string>, m: map<string, string>): (r: seq<string>)
    requires forall i :: 0 <= i < |lines| ==> lines[i] in m
    ensures |r| == |lines| && forall i :: 0 <= i < |lines| ==> r[i] == mark + m[lines[i]]
  {
    seq(|lines|, i requires 0 <= i < |lines| => mark + m[lines[i]])
  }

  /** s lists the elements of a set, each once, in some order. */
  ghost predicate Lists(s: seq<string>, keys: set<string>) {
    Distinct(s) && (forall i :: 0 <= i < |s| ==> s[i] in keys) && (forall x :: x in keys ==> x in s)
  }

  /** One of the two loops of webConfigRedactedLineDiff: the lines of m that other lacks. */
  method CollectMarks(mark: string, m: map<string, string>, other: map<string, string>)
    returns (out: seq<string>, ghost lines: seq<string>)
    ensures Lists(lines, m.Keys - other.Keys) && out == Marks(mark, lines, m)
  {
    out, lines := [], [];
    var todo := m.Keys;
    while todo != {}
      invariant todo <= m.Keys && Lists(lines, m.Keys - todo - other.Keys) && out == Marks(mark, lines, m)
    {
      var line := Pick(todo);
      todo := todo - {line};
      if line !in other {
        out, lines := out + [mark + m[line]], lines + [line];
      }
    }
  }

  /** The lines removed and added, in some order. */
  datatype Changes = Changes(removed: seq<string>, added: seq<string>)

  /** Exactly the symmetric difference of the two sets of lines. */
  ghost predicate Differ(c: Changes, was: map<string, string>, now: map<string, string>) {
    Lists(c.removed, was.Keys - now.Keys) && Lists(c.added, now.Keys - was.Keys)
  }

  function Entries(c: Changes, was: map<string, string>, now: map<string, string>): seq<string>
    requires (forall i :: 0 <= i < |c.removed| ==> c.removed[i] in was)
    requires (forall i :: 0 <= i < |c.added| ==> c.added[i] in now)
  {
    Marks("- ", c.removed, was) + Marks("+ ", c.added, now)
  }

  /** webConfigRedactedLineDiff on the two line maps. */
  method DiffOfMaps(was: map<string, string>, now: map<string, string>) returns (out: string, ghost c: Changes)
    ensures Differ(c, was, now) && out == Join(SortStrings(Entries(c, was, now)))
  {
    ghost var lines, more;
    var gone, come;
    gone, lines := CollectMarks("- ", was, now);
    come, more := CollectMarks("+ ", now, was);
    c := Changes(lines, more);
    out := Join(SortStrings(gone + come));
  }

  /** webConfigRedactedLineDiff */
  method RedactedLineDiff(oldText: string, oldRedacted: string, newText: string, newRedacted: string)
    returns (out: string, ok: bool, ghost was: map<string, string>, ghost now: map<string, string>, ghost c: Changes)
    ensures ok <==> && OneFormEach(Normalized(Split(oldText)), Normalized(Split(oldRedacted)))
                    && OneFormEach(Normalized(Split(newText)), Normalized(Split(newRedacted)))
    ensures ok ==> && Shows(Normalized(Split(oldText)), Normalized(Split(oldRedacted)), was)
                   && Shows(Normalized(Split(newText)), Normalized(Split(newRedacted)), now)
                   && Differ(c, was, now) && out == Join(SortStrings(Entries(c, was, now)))
  {
    out, ok, was, now, c := "", false, map[], map[], Changes([], []);
    var oldLines, oldOk := DiffLineMap(oldText, oldRedacted);
    if oldOk {
      var newLines, newOk := DiffLineMap(newText, newRedacted);
      if newOk {
        was, now := oldLines, newLines;
        out, c := DiffOfMaps(oldLines, newLines);
        ok := true;
      }
    }
  }

  // ---- What it shows --------------------------------------------------------

  lemma {:induction false} MarksOfSameSet(mark: string, a: seq<string>, b: seq<string>, m: map<string, string>,
                                          keys: set<string>)
    requires Lists(a, keys) && Lists(b, keys) && keys <= m.Keys
    ensures multiset(Marks(mark, a, m)) == multiset(Marks(mark, b, m))
    decreases |a|
  {
    if a == [] {
      ListsNothing(a, keys);
      ListsNothing(b, keys);
    } else {
      var x := a[0];
      var k :| 0 <= k < |b| && b[k] == x;
      RestLists(a, keys, 0);
      RestLists(b, keys, k);
      MarksOfSameSet(mark, Without(a, 0), Without(b, k), m, keys - {x});
      MarksSplit(mark, a, m, 0);
      MarksSplit(mark, b, m, k);
    }
  }

  function Without(a: seq<string>, k: nat): (r: seq<string>)
    requires k < |a|
    ensures |r| == |a| - 1 && forall i :: 0 <= i < |r| ==> r[i] == if i < k then a[i] else a[i + 1]
  {
    a[..k] + a[k + 1..]
  }

  lemma MarksSplit(mark: string, a: seq<string>, m: map<string, string>, k: nat)
    requires k < |a| && forall i :: 0 <= i < |a| ==> a[i] in m
    ensures multiset(Marks(mark, a, m)) == multiset(Marks(mark, Without(a, k), m)) + multiset{mark + m[a[k]]}
  {
    var r := Marks(mark, a, m);
    assert r == r[..k] + [r[k]] + r[k + 1..];
    assert Marks(mark, Without(a, k), m) == r[..k] + r[k + 1..];
  }

  lemma RestLists(a: seq<string>, keys: set<string>, k: nat)
    requires Lists(a, keys) && k < |a|
    ensures Lists(Without(a, k), keys - {a[k]})
  {
    forall x | x in keys - {a[k]} ensures x in Without(a, k) {
      var i :| 0 <= i < |a| && a[i] == x;
      assert Without(a, k)[if i < k then i else i - 1] == x;
    }
  }

  /** The diff is the same for every order in which the maps are walked. */
  lemma DiffIsDetermined(c: Changes, d: Changes, was: map<string, string>, now: map<string, string>)
    requires Differ(c, was, now) && Differ(d, was, now)
    ensures SortStrings(Entries(c, was, now)) == SortStrings(Entries(d, was, now))
  {
    MarksOfSameSet("- ", c.removed, d.removed, was, was.Keys - now.Keys);
    MarksOfSameSet("+ ", c.added, d.added, now, now.Keys - was.Keys);
    SortedUnique(SortStrings(Entries(c, was, now)), SortStrings(Entries(d, was, now)));
  }

  lemma SortedLength(entries: seq<string>)
    ensures |SortStrings(entries)| == |entries|
  {
    assert |multiset(SortStrings(entries))| == |multiset(entries)|;
  }

  lemma EntriesEmptyIff(c: Changes, was: map<string, string>, now: map<string, string>)
    requires Differ(c, was, now)
    ensures Entries(c, was, now) == [] <==> was.Keys == now.Keys
  {
    ListsNothing(c.removed, was.Keys - now.Keys);
    ListsNothing(c.added, now.Keys - was.Keys);
    assert was.Keys - now.Keys == {} && now.Keys - was.Keys == {} <==> was.Keys == now.Keys;
    assert |Entries(c, was, now)| == |c.removed| + |c.added|;
  }

  /** It is empty exactly if the two texts have the same lines. */
  lemma DiffEmptyIff(c: Changes, was: map<string, string>, now: map<string, string>)
    requires Differ(c, was, now)
    ensures Join(SortStrings(Entries(c, was, now))) == "" <==> was.Keys == now.Keys
  {
    var entries := Entries(c, was, now);
    var sorted := SortStrings(entries);
    SortedLength(entries);
    EntriesEmptyIff(c, was, now);
    if entries != [] {
      assert sorted[0] in multiset(entries);
    }
  }

  lemma ListsNothing(s: seq<string>, keys: set<string>)
    requires Lists(s, keys)
    ensures s == [] <==> keys == {}
  {
    if s != [] { assert s[0] in keys; }
  }

  lemma SortKeepsLines(entries: seq<string>)
    requires forall i :: 0 <= i < |entries| ==> OneLine(entries[i])
    ensures |SortStrings(entries)| == |entries|
    ensures forall i :: 0 <= i < |SortStrings(entries)| ==> OneLine(SortStrings(entries)[i])
  {
    SortedLength(entries);
    forall i | 0 <= i < |entries| ensures OneLine(SortStrings(entries)[i]) {
      assert SortStrings(entries)[i] in multiset(entries);
    }
  }

  /** Sorted lines: the removed ones with a minus, the added ones with a plus, each in the form it is shown in. */
  ghost predicate ShowsChanges(lines: seq<string>, c: Changes, was: map<string, string>, now: map<string, string>)
    requires Differ(c, was, now)
  {
    && Sorted(lines)
    && multiset(lines) == multiset(seq(|c.removed|, i requires 0 <= i < |c.removed| => "- " + was[c.removed[i]]))
                          + multiset(seq(|c.added|, i requires 0 <= i < |c.added| => "+ " + now[c.added[i]]))
  }

  lemma EntriesShowChanges(c: Changes, was: map<string, string>, now: map<string, string>)
    requires Differ(c, was, now)
    ensures ShowsChanges(SortStrings(Entries(c, was, now)), c, was, now)
  {
    var minus := seq(|c.removed|, i requires 0 <= i < |c.removed| => "- " + was[c.removed[i]]);
    var plus := seq(|c.added|, i requires 0 <= i < |c.added| => "+ " + now[c.added[i]]);
    assert Entries(c, was, now) == minus + plus;
  }

  /** Its lines are, one for one, the lines that only one text has, marked and in the form they are shown in. */
  lemma DiffShowsExactly(c: Changes, was: map<string, string>, now: map<string, string>)
    requires Differ(c, was, now) && was.Keys != now.Keys
    requires (forall k :: k in was ==> OneLine(was[k])) && (forall k :: k in now ==> OneLine(now[k]))
    ensures ShowsChanges(Split(Join(SortStrings(Entries(c, was, now)))), c, was, now)
  {
    EntriesEmptyIff(c, was, now);
    SortKeepsLines(Entries(c, was, now));
    SplitJoin(SortStrings(Entries(c, was, now)));
    EntriesShowChanges(c, was, now);
  }

  /** The forms that the lines of a text are shown in are single lines. */
  lemma ShownFormsAreLines(lines: seq<string>, shown: seq<string>, m: map<string, string>)
    requires Shows(lines, shown, m) && forall i :: 0 <= i < |shown| ==> OneLine(shown[i])
    ensures forall k :: k in m ==> OneLine(m[k])
  {
    forall k | k in m ensures OneLine(m[k]) {
      assert k in lines;
      var i :| 0 <= i < |lines| && lines[i] == k;
    }
  }

  /**
   So the diff of two texts, whenever it is not empty, consists of exactly the marked lines that only one of
   them has, in order.
   */
  lemma TextDiffShowsExactly(oldText: string, oldRedacted: string, newText: string, newRedacted: string,
                             was: map<string, string>, now: map<string, string>, c: Changes)
    requires Shows(Normalized(Split(oldText)), Normalized(Split(oldRedacted)), was)
    requires Shows(Normalized(Split(newText)), Normalized(Split(newRedacted)), now)
    requires Differ(c, was, now)
    ensures var out := Join(SortStrings(Entries(c, was, now)));
            if was.Keys == now.Keys then out == "" else ShowsChanges(Split(out), c, was, now)
  {
    DiffEmptyIff(c, was, now);
    ShownFormsAreLines(Normalized(Split(oldText)), Normalized(Split(oldRedacted)), was);
    ShownFormsAreLines(Normalized(Split(newText)), Normalized(Split(newRedacted)), now);
    if was.Keys != now.Keys {
      DiffShowsExactly(c, was, now);
    }
  }
}
