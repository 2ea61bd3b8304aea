/**
 The string operations of the Go library that the daemon leans on: the byte order of
 sort.Strings, and the white space of strings.TrimSpace.
 */
module Text {

  // ---- Order ----------------------------------------------------------------

  predicate Le(a: string, b: string) {
    a == [] || (b != [] && (a[0] < b[0] || (a[0] == b[0] && Le(a[1..], b[1..]))))
  }

  predicate Sorted(s: seq<string>) {
    forall i, j :: 0 <= i < j < |s| ==> Le(s[i], s[j])
  }

  lemma {:induction false} LeTotal(a: string, b: string)
    ensures Le(a, b) || Le(b, a)
    ensures Le(a, b) && Le(b, a) ==> a == b
  {
    if a != [] && b != [] {
      LeTotal(a[1..], b[1..]);
      if Le(a, b) && Le(b, a) {
        assert a == [a[0]] + a[1..] && b == [b[0]] + b[1..];
      }
    }
  }

  lemma {:induction false} LeTransitive(a: string, b: string, c: string)
    requires Le(a, b) && Le(b, c)
    ensures Le(a, c)
  {
    if a != [] && a[0] == b[0] && b[0] == c[0] {
      LeTransitive(a[1..], b[1..], c[1..]);
    }
  }

  /** k is the first place at which a and b differ, and a is the smaller one there. */
  ghost predicate SmallerAt(a: string, b: string, k: nat) {
    k < |a| && k < |b| && a[..k] == b[..k] && a[k] < b[k]
  }

  lemma SmallerAtRest(a: string, b: string, k: nat)
    requires a != [] && b != [] && a[0] == b[0]
    ensures SmallerAt(a, b, k + 1) <==> SmallerAt(a[1..], b[1..], k)
  {
    if k + 1 <= |a| && k + 1 <= |b| {
      assert a[..k + 1] == [a[0]] + a[1..][..k] && b[..k + 1] == [b[0]] + b[1..][..k];
    }
  }

  /** The order is the one of dictionaries: by the first difference, a prefix coming first. */
  lemma {:induction false} LeIff(a: string, b: string)
    ensures Le(a, b) <==> a <= b || exists k :: SmallerAt(a, b, k)
  {
    if a == [] || b == [] {
    } else if a[0] == b[0] {
      LeIff(a[1..], b[1..]);
      assert a == [a[0]] + a[1..] && b == [b[0]] + b[1..];
      forall k: nat ensures SmallerAt(a, b, k + 1) <==> SmallerAt(a[1..], b[1..], k) {
        SmallerAtRest(a, b, k);
      }
      if k: nat :| k > 0 && SmallerAt(a, b, k) {
        assert SmallerAt(a, b, k - 1 + 1) && SmallerAt(a[1..], b[1..], k - 1);
      }
      if k: nat :| SmallerAt(a[1..], b[1..], k) {
        assert SmallerAt(a, b, k + 1);
      }
    } else {
      assert a[0] < b[0] ==> SmallerAt(a, b, 0);
      assert forall k: nat :: SmallerAt(a, b, k) ==> k == 0 || a[..k][0] == b[..k][0];
    }
  }

  function Insert(x: string, s: seq<string>): seq<string> {
    if s == [] then [x]
    else if Le(x, s[0]) then [x] + s
    else [s[0]] + Insert(x, s[1..])
  }

  lemma {:induction false} InsertElements(x: string, s: seq<string>)
    ensures multiset(Insert(x, s)) == multiset(s) + multiset{x}
  {
    if s != [] && !Le(x, s[0]) {
      InsertElements(x, s[1..]);
      assert s == [s[0]] + s[1..];
    }
  }

  lemma {:induction false} InsertSorted(x: string, s: seq<string>)
    requires Sorted(s)
    ensures Sorted(Insert(x, s))
  {
    if s != [] {
      if Le(x, s[0]) {
        forall j | 0 < j < |s| ensures Le(x, s[j]) { LeTransitive(x, s[0], s[j]); }
      } else {
        LeTotal(x, s[0]);
        InsertSorted(x, s[1..]);
        InsertElements(x, s[1..]);
        var t := Insert(x, s[1..]);
        forall j | 0 <= j < |t| ensures Le(s[0], t[j]) {
          assert t[j] in multiset(t);
        }
      }
    }
  }

  /** sort.Strings. */
  function SortStrings(s: seq<string>): (r: seq<string>)
    ensures Sorted(r) && multiset(r) == multiset(s)
  {
    if s == [] then []
    else
      var rest := SortStrings(s[1..]);
      assert s == [s[0]] + s[1..];
      InsertSorted(s[0], rest);
      InsertElements(s[0], rest);
      Insert(s[0], rest)
  }

  /** A sorted sequence is determined by its elements, so sorting forgets the order it was given. */
  lemma {:induction false} SortedUnique(a: seq<string>, b: seq<string>)
    requires Sorted(a) && Sorted(b) && multiset(a) == multiset(b)
    ensures a == b
  {
    assert |a| == |multiset(a)| == |multiset(b)| == |b|;
    if a != [] {
      SameHead(a, b);
      assert a == [a[0]] + a[1..] && b == [b[0]] + b[1..];
      assert multiset(a[1..]) == multiset(a) - multiset{a[0]} == multiset(b[1..]);
      SortedUnique(a[1..], b[1..]);
    }
  }

  lemma SameHead(a: seq<string>, b: seq<string>)
    requires Sorted(a) && Sorted(b) && multiset(a) == multiset(b) && a != [] && b != []
    ensures a[0] == b[0]
  {
    assert a[0] in multiset(b) && b[0] in multiset(a);
    LeTotal(a[0], b[0]);
  }

  // ---- Sets of distinct strings ---------------------------------------------

  predicate Distinct<T(==)>(s: seq<T>) {
    forall i, j :: 0 <= i < j < |s| ==> s[i] != s[j]
  }

  lemma {:induction false} DistinctMultiset<T>(a: seq<T>, b: seq<T>)
    requires Distinct(a) && Distinct(b)
    requires forall x :: x in a <==> x in b
    ensures multiset(a) == multiset(b)
  {
    forall x ensures multiset(a)[x] == multiset(b)[x] {
      DistinctCount(a, x);
      DistinctCount(b, x);
    }
  }

  lemma {:induction false} DistinctCount<T>(a: seq<T>, x: T)
    requires Distinct(a)
    ensures multiset(a)[x] == if x in a then 1 else 0
  {
    if a != [] {
      assert a == [a[0]] + a[1..];
      DistinctCount(a[1..], x);
    }
  }

  lemma {:induction false} CountDistinct<T>(a: seq<T>)
    requires forall x :: multiset(a)[x] <= 1
    ensures Distinct(a)
  {
    if a != [] {
      assert a == [a[0]] + a[1..];
      forall x ensures multiset(a[1..])[x] <= 1 { assert multiset(a)[x] <= 1; }
      CountDistinct(a[1..]);
      assert multiset(a)[a[0]] == 1 + multiset(a[1..])[a[0]];
    }
  }

  /** Sorting keeps the elements and keeps them distinct. */
  lemma SortKeepsDistinct(s: seq<string>)
    requires Distinct(s)
    ensures Distinct(SortStrings(s))
    ensures forall x :: x in SortStrings(s) <==> x in s
    ensures |SortStrings(s)| == |s|
  {
    var r := SortStrings(s);
    forall x ensures multiset(r)[x] <= 1 && (x in r <==> x in s) {
      DistinctCount(s, x);
      assert x in multiset(r) <==> x in multiset(s);
    }
    CountDistinct(r);
    assert |multiset(r)| == |multiset(s)|;
  }

  /** Two sorted sequences of distinct strings over the same set are the same sequence. */
  lemma CanonicalForm(a: seq<string>, b: seq<string>)
    requires Sorted(a) && Sorted(b) && Distinct(a) && Distinct(b)
    requires forall x :: x in a <==> x in b
    ensures a == b
  {
    DistinctMultiset(a, b);
    SortedUnique(a, b);
  }

  // ---- White space ----------------------------------------------------------

  /** unicode.IsSpace. */
  predicate IsSpace(c: char) {
    || '\t' <= c <= '\r' || c == ' ' || c == '\U{0085}' || c == '\U{00A0}' || c == '\U{1680}'
    || '\U{2000}' <= c <= '\U{200A}' || c == '\U{2028}' || c == '\U{2029}' || c == '\U{202F}'
    || c == '\U{205F}' || c == '\U{3000}'
  }

  function TrimLeft(s: string): string {
    if s != [] && IsSpace(s[0]) then TrimLeft(s[1..]) else s
  }

  function TrimRight(s: string): string {
    if s != [] && IsSpace(s[|s| - 1]) then TrimRight(s[..|s| - 1]) else s
  }

  /** strings.TrimSpace. */
  function TrimSpace(s: string): string {
    TrimRight(TrimLeft(s))
  }

  predicate Trimmed(s: string) {
    s == [] || (!IsSpace(s[0]) && !IsSpace(s[|s| - 1]))
  }

  lemma TrimSpaceFacts(s: string)
    ensures Trimmed(TrimSpace(s))
    ensures Trimmed(s) ==> TrimSpace(s) == s
  {
    TrimLeftFacts(s);
    TrimRightFacts(TrimLeft(s));
  }

  lemma {:induction false} TrimLeftFacts(s: string)
    ensures var r := TrimLeft(s); r == [] || !IsSpace(r[0])
  {
    if s != [] && IsSpace(s[0]) { TrimLeftFacts(s[1..]); }
  }

  lemma {:induction false} TrimRightFacts(s: string)
    requires s == [] || !IsSpace(s[0])
    ensures Trimmed(TrimRight(s))
  {
    if s != [] && IsSpace(s[|s| - 1]) { TrimRightFacts(s[..|s| - 1]); }
  }

  /** strings.Fields. */
  function Fields(s: string): seq<string> {
    FieldsFrom(s, "")
  }

  function FieldsFrom(s: string, word: string): seq<string>
    decreases s
  {
    var done := if word == "" then [] else [word];
    if s == "" then done
    else if IsSpace(s[0]) then done + FieldsFrom(s[1..], "")
    else FieldsFrom(s[1..], word + [s[0]])
  }

  /** A trailing carriage return is white space like any other. */
  lemma TrimCarriageReturn(s: string)
    ensures TrimSpace(s + "\r") == TrimSpace(s)
  {
    TrimLeftAppend(s);
    if TrimLeft(s) != [] {
      var t := TrimLeft(s);
      assert (t + "\r")[..|t|] == t;
    }
  }

  lemma {:induction false} TrimLeftAppend(s: string)
    ensures TrimLeft(s + "\r") == if TrimLeft(s) == [] then [] else TrimLeft(s) + "\r"
  {
    if s == [] {
      assert s + "\r" == "\r" && "\r"[1..] == [];
    } else {
      assert (s + "\r")[1..] == s[1..] + "\r";
      TrimLeftAppend(s[1..]);
    }
  }

  // ---- Lines ----------------------------------------------------------------

  predicate OneLine(s: string) {
    '\n' !in s
  }

  /** strings.Split at a separator of one character: always at least one part. */
  function SplitAt(s: string, sep: char): (parts: seq<string>)
    ensures |parts| > 0 && forall i :: 0 <= i < |parts| ==> sep !in parts[i]
  {
    if s == "" then [""]
    else
      var rest := SplitAt(s[1..], sep);
      if s[0] == sep then [""] + rest else [[s[0]] + rest[0]] + rest[1..]
  }

  function Split(s: string): (lines: seq<string>)
    ensures |lines| > 0 && forall i :: 0 <= i < |lines| ==> OneLine(lines[i])
  {
    SplitAt(s, '\n')
  }

  /** strings.Join with line feeds. */
  function Join(lines: seq<string>): string {
    if lines == [] then ""
    else if |lines| == 1 then lines[0]
    else lines[0] + "\n" + Join(lines[1..])
  }

  lemma {:induction false} JoinSplit(s: string)
    ensures Join(Split(s)) == s
  {
    if s != "" {
      JoinSplit(s[1..]);
      var rest := Split(s[1..]);
      if s[0] == '\n' {
        assert ([""] + rest)[1..] == rest;
      } else {
        assert ([[s[0]] + rest[0]] + rest[1..])[1..] == rest[1..];
        assert s == [s[0]] + s[1..];
        if |rest| > 1 {
          assert [s[0]] + (rest[0] + "\n" + Join(rest[1..])) == [s[0]] + rest[0] + "\n" + Join(rest[1..]);
        }
      }
    }
  }

  lemma {:induction false} SplitJoin(lines: seq<string>)
    requires |lines| > 0 && forall i :: 0 <= i < |lines| ==> OneLine(lines[i])
    ensures Split(Join(lines)) == lines
    decreases |lines|
  {
    if |lines| == 1 {
      SplitOneLine(lines[0]);
      assert lines == [lines[0]];
    } else {
      SplitJoin(lines[1..]);
      SplitFirstLine(lines[0], Join(lines[1..]));
      assert lines == [lines[0]] + lines[1..];
    }
  }

  lemma {:induction false} SplitOneLine(s: string)
    requires OneLine(s)
    ensures Split(s) == [s]
  {
    if s != "" {
      SplitOneLine(s[1..]);
      assert s == [s[0]] + s[1..];
    }
  }

  lemma {:induction false} SplitFirstLine(first: string, rest: string)
    requires OneLine(first)
    ensures Split(first + "\n" + rest) == [first] + Split(rest)
  {
    var s := first + "\n" + rest;
    if first == "" {
      assert s[1..] == rest;
    } else {
      assert s[1..] == first[1..] + "\n" + rest;
      SplitFirstLine(first[1..], rest);
      assert first == [first[0]] + first[1..];
    }
  }

  /** The parts of a text, trimmed, without the empty ones. */
  function Normalized(lines: seq<string>): (r: seq<string>)
    ensures (forall i :: 0 <= i < |lines| ==> OneLine(lines[i])) ==> forall i :: 0 <= i < |r| ==> OneLine(r[i])
  {
    if lines == [] then []
    else
      var n := |lines| - 1;
      assert OneLine(lines[n]) ==> OneLine(TrimSpace(lines[n])) by { TrimKeepsLine(lines[n]); }
      Normalized(lines[..n]) + if TrimSpace(lines[n]) == "" then [] else [TrimSpace(lines[n])]
  }

  /** A part is trimmed, and left out if nothing remains ... */
  lemma NormalizedOne(x: string)
    ensures Normalized([x]) == if TrimSpace(x) == "" then [] else [TrimSpace(x)]
  {
    assert [x][..0] == [];
  }

  /** ... and parts are treated one after the other, each on its own. */
  lemma {:induction false} NormalizedConcat(a: seq<string>, b: seq<string>)
    ensures Normalized(a + b) == Normalized(a) + Normalized(b)
    decreases |b|
  {
    if b == [] {
      assert a + b == a;
    } else {
      var n := |b| - 1;
      NormalizedConcat(a, b[..n]);
      assert (a + b)[..|a + b| - 1] == a + b[..n];
    }
  }

  lemma TrimKeepsLine(s: string)
    ensures OneLine(s) ==> OneLine(TrimSpace(s))
  {
    TrimLeftPart(s);
    TrimRightPart(TrimLeft(s));
  }

  lemma {:induction false} TrimLeftPart(s: string)
    ensures forall c :: c in TrimLeft(s) ==> c in s
  {
    if s != [] && IsSpace(s[0]) { TrimLeftPart(s[1..]); }
  }

  lemma {:induction false} TrimRightPart(s: string)
    ensures forall c :: c in TrimRight(s) ==> c in s
  {
    if s != [] && IsSpace(s[|s| - 1]) { TrimRightPart(s[..|s| - 1]); }
  }

  /** The loop that collects them. */
  method TrimParts(parts: seq<string>) returns (result: seq<string>)
    ensures result == Normalized(parts)
  {
    result := [];
    for i := 0 to |parts|
      invariant result == Normalized(parts[..i])
    {
      assert parts[..i + 1][..i] == parts[..i];
      var trimmed := TrimSpace(parts[i]);
      if trimmed != "" {
        result := result + [trimmed];
      }
    }
    assert parts[..|parts|] == parts;
  }

  lemma {:induction false} NormalizedParts(parts: seq<string>)
    ensures forall i :: 0 <= i < |Normalized(parts)| ==> Normalized(parts)[i] != "" && Trimmed(Normalized(parts)[i])
  {
    if parts != [] {
      NormalizedParts(parts[..|parts| - 1]);
      TrimSpaceFacts(parts[|parts| - 1]);
    }
  }
}
