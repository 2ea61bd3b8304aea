/**
 What strings.TrimSpace and strings.Fields find in a text: the parts between white space.
 */
module Words {
  import opened Text

  predicate AllSpace(s: string) {
    forall i :: 0 <= i < |s| ==> IsSpace(s[i])
  }

  predicate NoSpace(s: string) {
    forall i :: 0 <= i < |s| ==> !IsSpace(s[i])
  }

  // ---- TrimSpace ------------------------------------------------------------

  /** TrimSpace takes the white space off both ends, and nothing else. */
  lemma TrimSpaceOf(left: string, middle: string, right: string)
    requires AllSpace(left) && AllSpace(right) && Trimmed(middle)
    ensures TrimSpace(left + middle + right) == middle
  {
    assert left + middle + right == left + (middle + right);
    TrimLeftOf(left, middle + right);
    if middle == "" {
      assert middle + right == right;
      TrimLeftAll(right);
    } else {
      TrimRightOf(middle, right);
    }
  }

  lemma {:induction false} TrimLeftOf(left: string, s: string)
    requires AllSpace(left)
    ensures TrimLeft(left + s) == TrimLeft(s)
  {
    if left == "" {
      assert left + s == s;
    } else {
      assert (left + s)[1..] == left[1..] + s;
      TrimLeftOf(left[1..], s);
    }
  }

  lemma {:induction false} TrimLeftAll(s: string)
    requires AllSpace(s)
    ensures TrimLeft(s) == ""
  {
    if s != "" { TrimLeftAll(s[1..]); }
  }

  lemma {:induction false} TrimRightOf(s: string, right: string)
    requires AllSpace(right) && Trimmed(s)
    ensures TrimRight(s + right) == s
    decreases |right|
  {
    if right == "" {
      assert s + right == s;
    } else {
      var n := |right| - 1;
      assert (s + right)[..|s + right| - 1] == s + right[..n];
      TrimRightOf(s, right[..n]);
    }
  }

  /** Every text is of that form. */
  lemma TrimSpaceSplits(s: string) returns (left: string, right: string)
    ensures AllSpace(left) && AllSpace(right) && Trimmed(TrimSpace(s)) && s == left + TrimSpace(s) + right
  {
    TrimSpaceFacts(s);
    left := TrimLeftSplits(s);
    right := TrimRightSplits(TrimLeft(s));
  }

  lemma {:induction false} TrimLeftSplits(s: string) returns (left: string)
    ensures AllSpace(left) && s == left + TrimLeft(s)
  {
    left := "";
    if s != "" && IsSpace(s[0]) {
      var rest := TrimLeftSplits(s[1..]);
      left := [s[0]] + rest;
      assert s == [s[0]] + s[1..];
    }
  }

  lemma {:induction false} TrimRightSplits(s: string) returns (right: string)
    ensures AllSpace(right) && s == TrimRight(s) + right
  {
    right := "";
    if s != "" && IsSpace(s[|s| - 1]) {
      var rest := TrimRightSplits(s[..|s| - 1]);
      right := rest + [s[|s| - 1]];
    }
  }

  // ---- Fields ---------------------------------------------------------------

  /** gaps[0] words[0] gaps[1] words[1] ... and a last gap. */
  function Spread(words: seq<string>, gaps: seq<string>): string
    requires |gaps| == |words| + 1
  {
    if words == [] then gaps[0] else gaps[0] + words[0] + Spread(words[1..], gaps[1..])
  }

  /** Words without white space in them, and white space between any two. */
  predicate Spaced(words: seq<string>, gaps: seq<string>) {
    && |gaps| == |words| + 1
    && (forall i :: 0 <= i < |words| ==> words[i] != "" && NoSpace(words[i]))
    && (forall i :: 0 <= i < |gaps| ==> AllSpace(gaps[i]))
    && forall i :: 0 < i < |words| ==> gaps[i] != ""
  }

  lemma {:induction false} FieldsSkipGap(gap: string, s: string)
    requires AllSpace(gap)
    ensures FieldsFrom(gap + s, "") == FieldsFrom(s, "")
  {
    if gap == "" {
      assert gap + s == s;
    } else {
      assert (gap + s)[1..] == gap[1..] + s;
      FieldsSkipGap(gap[1..], s);
    }
  }

  lemma {:induction false} FieldsTakeWord(word: string, done: string, s: string)
    requires NoSpace(word)
    ensures FieldsFrom(word + s, done) == FieldsFrom(s, done + word)
    decreases |word|
  {
    if word == "" {
      assert word + s == s && done + word == done;
    } else {
      assert (word + s)[1..] == word[1..] + s;
      FieldsTakeWord(word[1..], done + [word[0]], s);
      assert done + [word[0]] + word[1..] == done + word;
    }
  }

  /** Fields gives back the words of a text, however they are spread. */
  lemma {:induction false} FieldsOfSpread(words: seq<string>, gaps: seq<string>)
    requires Spaced(words, gaps)
    ensures Fields(Spread(words, gaps)) == words
    decreases |words|
  {
    if words == [] {
      FieldsSkipGap(gaps[0], "");
      assert gaps[0] + "" == gaps[0];
    } else {
      var rest := Spread(words[1..], gaps[1..]);
      assert Spread(words, gaps) == gaps[0] + (words[0] + rest);
      FieldsSkipGap(gaps[0], words[0] + rest);
      FieldsTakeWord(words[0], "", rest);
      assert "" + words[0] == words[0];
      SpreadStarts(words[1..], gaps[1..]);
      assert FieldsFrom(rest, words[0]) == [words[0]] + FieldsFrom(rest, "");
      FieldsOfSpread(words[1..], gaps[1..]);
    }
  }

  lemma SpreadStarts(words: seq<string>, gaps: seq<string>)
    requires Spaced(words, gaps) && (words != [] ==> gaps[0] != "")
    ensures var s := Spread(words, gaps); s == "" || IsSpace(s[0])
  {
  }

  /** Every text is its words, spread. */
  lemma {:induction false} FieldsSpread(s: string, word: string) returns (gaps: seq<string>)
    requires NoSpace(word)
    ensures Spaced(FieldsFrom(s, word), gaps) && Spread(FieldsFrom(s, word), gaps) == word + s
    ensures word != "" ==> FieldsFrom(s, word) != [] && gaps[0] == ""
    decreases |s|
  {
    if s == "" {
      gaps := if word == "" then [""] else ["", ""];
      assert Spread([], [""]) == "" && word + s == word;
      assert [word][1..] == [] && ["", ""][1..] == [""];
    } else if IsSpace(s[0]) {
      var words := FieldsFrom(s[1..], "");
      var rest := FieldsSpread(s[1..], "");
      gaps := WiderGap(words, rest, s[0]);
      assert Spread(words, gaps) == [s[0]] + ("" + s[1..]) == s;
      if word == "" {
        assert FieldsFrom(s, word) == words && word + s == s;
      } else {
        SpreadAnother(word, words, gaps);
        gaps := [""] + gaps;
        assert FieldsFrom(s, word) == [word] + words;
      }
    } else {
      gaps := FieldsSpread(s[1..], word + [s[0]]);
      assert word + [s[0]] + s[1..] == word + s;
    }
  }

  /** One more white space in front. */
  lemma WiderGap(words: seq<string>, gaps: seq<string>, c: char) returns (wider: seq<string>)
    requires Spaced(words, gaps) && IsSpace(c)
    ensures Spaced(words, wider) && wider[0] != "" && Spread(words, wider) == [c] + Spread(words, gaps)
  {
    wider := [[c] + gaps[0]] + gaps[1..];
    assert wider[1..] == gaps[1..];
    if words != [] {
      assert [c] + gaps[0] + words[0] + Spread(words[1..], gaps[1..])
          == [c] + (gaps[0] + words[0] + Spread(words[1..], gaps[1..]));
    }
  }

  /** One more word in front. */
  lemma SpreadAnother(word: string, words: seq<string>, gaps: seq<string>)
    requires Spaced(words, gaps) && gaps[0] != "" && word != "" && NoSpace(word)
    ensures Spaced([word] + words, [""] + gaps) && Spread([word] + words, [""] + gaps) == word + Spread(words, gaps)
  {
    assert ([word] + words)[1..] == words && ([""] + gaps)[1..] == gaps;
  }

  /** White space around a text makes no difference to its words. */
  lemma FieldsOfTrimmed(s: string)
    ensures Fields(TrimSpace(s)) == Fields(s)
  {
    var left, right := TrimSpaceSplits(s);
    var t := TrimSpace(s);
    FieldsSkipGap(left, t + right);
    assert s == left + (t + right);
    FieldsDropEnd(t, "", right);
  }

  lemma {:induction false} FieldsDropEnd(s: string, word: string, right: string)
    requires AllSpace(right)
    ensures FieldsFrom(s + right, word) == FieldsFrom(s, word)
    decreases |s|
  {
    if s == "" {
      assert s + right == right;
      if right != "" {
        FieldsSkipGap(right[1..], "");
        assert right[1..] + "" == right[1..];
      }
    } else {
      assert (s + right)[1..] == s[1..] + right;
      FieldsDropEnd(s[1..], if IsSpace(s[0]) then "" else word + [s[0]], right);
    }
  }
}
