/**
 Editing a configuration whose secrets are not shown (cmd/arca-routerd/web_handlers.go): the running
 text is sent out redacted, and redacted lines that come back are replaced by the running
 lines they stand for.
 */
module Redaction {
  import opened Wrappers
  import opened Text
  import opened Words

  // ---- Redacted lines (pkg/config/serializer.go) ------------------------------

  const MARKER := "<redacted>"

  predicate IsQuote(c: char) {
    c == '"' || c == '\''
  }

  function TrimQuotes(s: string): string {
    if s != [] && IsQuote(s[0]) then TrimQuotes(s[1..])
    else if s != [] && IsQuote(s[|s| - 1]) then TrimQuotes(s[..|s| - 1])
    else s
  }

  /** strings.TrimSuffix(line, "\r"), and what it takes away. */
  function Content(line: string): string {
    if line != "" && line[|line| - 1] == '\r' then line[..|line| - 1] else line
  }

  function Ending(line: string): string {
    if line != "" && line[|line| - 1] == '\r' then "\r" else ""
  }

  /** IsRedactedSecretLine */
  predicate Redacted(line: string) {
    var fields := Fields(TrimSpace(Content(line)));
    && fields != [] && TrimQuotes(fields[|fields| - 1]) == MARKER
    && ((|fields| == 6 && fields[..5] == ["set", "system", "services", "snmp", "community"])
        || (|fields| == 7 && fields[..4] == ["set", "security", "users", "user"] && fields[5] == "password"))
  }

  /** A line is redacted iff its content is: a carriage return more or less makes no difference. */
  lemma RedactedContent(line: string)
    ensures Redacted(Content(line)) <==> Redacted(line)
  {
    var c := Content(line);
    if Ending(c) == "\r" {
      assert c == Content(c) + "\r";
      TrimCarriageReturn(Content(c));
    }
  }

  lemma RedactedEnding(line: string, ending: string)
    requires ending == "" || ending == "\r"
    ensures Redacted(line + ending) <==> Redacted(line)
  {
    if ending == "\r" {
      RedactedContent(line + ending);
      assert Content(line + ending) == line;
    } else {
      assert line + ending == line;
    }
  }

  predicate AllQuotes(s: string) {
    forall i :: 0 <= i < |s| ==> IsQuote(s[i])
  }

  /** The marker, with any quotes around it. */
  ghost predicate QuotedMarker(word: string) {
    exists left, right :: AllQuotes(left) && AllQuotes(right) && word == left + "<redacted>" + right
  }

  lemma {:induction false} TrimQuotesSplits(s: string) returns (left: string, right: string)
    ensures AllQuotes(left) && AllQuotes(right) && s == left + TrimQuotes(s) + right
  {
    left, right := "", "";
    if s != [] && IsQuote(s[0]) {
      left, right := TrimQuotesSplits(s[1..]);
      assert s == [s[0]] + s[1..];
      left := [s[0]] + left;
    } else if s != [] && IsQuote(s[|s| - 1]) {
      left, right := TrimQuotesSplits(s[..|s| - 1]);
      right := right + [s[|s| - 1]];
    }
  }

  lemma {:induction false} TrimQuotesOf(left: string, middle: string, right: string)
    requires AllQuotes(left) && AllQuotes(right)
    requires middle != "" && !IsQuote(middle[0]) && !IsQuote(middle[|middle| - 1])
    ensures TrimQuotes(left + middle + right) == middle
    decreases |left| + |right|
  {
    var s := left + middle + right;
    if left != "" {
      assert s[1..] == left[1..] + middle + right;
      TrimQuotesOf(left[1..], middle, right);
    } else if right != "" {
      assert s[..|s| - 1] == left + middle + right[..|right| - 1];
      TrimQuotesOf(left, middle, right[..|right| - 1]);
    } else {
      assert s == middle;
    }
  }

  lemma TrimsToMarkerIff(word: string)
    ensures TrimQuotes(word) == MARKER <==> QuotedMarker(word)
  {
    var left, right := TrimQuotesSplits(word);
    if l, r :| AllQuotes(l) && AllQuotes(r) && word == l + "<redacted>" + r {
      TrimQuotesOf(l, "<redacted>", r);
    }
  }

  /** An SNMP community or a user's password, with the marker in its place. */
  ghost predicate SecretWords(words: seq<string>) {
    || (|words| == 6 && words[0] == "set" && words[1] == "system" && words[2] == "services" && words[3] == "snmp"
        && words[4] == "community" && QuotedMarker(words[5]))
    || (|words| == 7 && words[0] == "set" && words[1] == "security" && words[2] == "users" && words[3] == "user"
        && words[5] == "password" && QuotedMarker(words[6]))
  }

  lemma FieldsOfContent(line: string)
    ensures Fields(TrimSpace(Content(line))) == Fields(line)
  {
    FieldsOfTrimmed(Content(line));
    FieldsDropEnd(Content(line), "", Ending(line));
    assert line == Content(line) + Ending(line);
  }

  lemma RedactedByWords(line: string)
    ensures Redacted(line) <==> SecretWords(Fields(line))
  {
    FieldsOfContent(line);
    var words := Fields(line);
    if words != [] {
      TrimsToMarkerIff(words[|words| - 1]);
    }
    if |words| >= 5 {
      assert words[..5] == [words[0], words[1], words[2], words[3], words[4]];
      assert words[..4] == [words[0], words[1], words[2], words[3]];
    }
  }

  /** The line consists of these words. */
  ghost predicate Consists(line: string, words: seq<string>) {
    exists gaps :: Spaced(words, gaps) && Spread(words, gaps) == line
  }

  /** A line consists of its fields and of no other words. */
  lemma ConsistsOfFields(line: string, words: seq<string>)
    ensures Consists(line, words) <==> words == Fields(line)
  {
    var between := FieldsSpread(line, "");
    assert "" + line == line;
    if gaps :| Spaced(words, gaps) && Spread(words, gaps) == line {
      FieldsOfSpread(words, gaps);
    }
  }

  /** Exactly which lines are redacted: those commands, in any spacing and with any quotes around the marker. */
  lemma RedactedIff(line: string)
    ensures Redacted(line) <==> exists words :: Consists(line, words) && SecretWords(words)
  {
    RedactedByWords(line);
    ConsistsOfFields(line, Fields(line));
    if words :| Consists(line, words) && SecretWords(words) {
      ConsistsOfFields(line, words);
    }
  }

  // ---- The running lines ----------------------------------------------------

  /** webConfigTextLines: the lines without their endings, and without the empty one after a final line feed. */
  function TextLines(text: string): seq<string> {
    var lines := Split(text);
    var n := if lines[|lines| - 1] == "" then |lines| - 1 else |lines|;
    seq(n, i requires 0 <= i < n => Content(lines[i]))
  }

  method WebConfigTextLines(text: string) returns (lines: seq<string>)
    ensures lines == TextLines(text)
  {
    lines := Split(text);
    ghost var all := lines;
    if lines[|lines| - 1] == "" {
      lines := lines[..|lines| - 1];
    }
    ghost var n := |lines|;
    for i := 0 to |lines|
      invariant |lines| == n
      invariant forall j :: 0 <= j < i ==> lines[j] == Content(all[j])
      invariant forall j :: i <= j < n ==> lines[j] == all[j]
    {
      lines := lines[i := Content(lines[i])];
    }
  }

  /** Lines with their endings. */
  function Ended(lines: seq<string>, endings: seq<string>): (r: seq<string>)
    requires |lines| == |endings|
    ensures |r| == |lines| && forall i :: 0 <= i < |r| ==> r[i] == lines[i] + endings[i]
  {
    seq(|lines|, i requires 0 <= i < |lines| => lines[i] + endings[i])
  }

  lemma {:induction false} JoinFinal(lines: seq<string>)
    requires |lines| > 0
    ensures Join(lines + [""]) == Join(lines) + "\n"
  {
    if |lines| > 1 {
      JoinFinal(lines[1..]);
      assert (lines + [""])[1..] == lines[1..] + [""];
    } else {
      assert (lines + [""])[1..] == [""];
    }
  }

  predicate IsEnding(line: string, ending: string) {
    ending == "\r" || (ending == "" && (line == "" || line[|line| - 1] != '\r'))
  }

  lemma EndedLine(line: string, ending: string)
    requires OneLine(line) && IsEnding(line, ending)
    ensures Content(line + ending) == line && OneLine(line + ending)
  {
    if ending == "" {
      assert line + ending == line;
    }
  }

  lemma ListedParts(text: string, parts: seq<string>, lines: seq<string>, all: seq<string>)
    requires Split(text) == all && |parts| == |lines| > 0
    requires all == parts + [""] || (all == parts && parts[|parts| - 1] != "")
    requires forall i :: 0 <= i < |lines| ==> Content(parts[i]) == lines[i]
    ensures TextLines(text) == lines
  {
  }

  /** The lines of a text are found whatever their endings are and whether or not the last one has a line feed. */
  lemma TextLinesOf(lines: seq<string>, endings: seq<string>, final: bool)
    requires |lines| == |endings| > 0 && forall i :: 0 <= i < |lines| ==> OneLine(lines[i])
    requires forall i :: 0 <= i < |endings| ==> IsEnding(lines[i], endings[i])
    requires !final ==> lines[|lines| - 1] + endings[|lines| - 1] != ""
    ensures TextLines(Join(Ended(lines, endings)) + if final then "\n" else "") == lines
  {
    var parts := Ended(lines, endings);
    forall i | 0 <= i < |lines| ensures Content(parts[i]) == lines[i] && OneLine(parts[i]) {
      EndedLine(lines[i], endings[i]);
    }
    if final {
      JoinFinal(parts);
      SplitJoin(parts + [""]);
      ListedParts(Join(parts) + "\n", parts, lines, parts + [""]);
    } else {
      assert Join(parts) + "" == Join(parts);
      SplitJoin(parts);
      ListedParts(Join(parts), parts, lines, parts);
    }
  }

  /** The first n redacted running lines determine the lines behind them, none of which looks redacted itself. */
  ghost predicate ConsistentTo(secret: string -> bool, shown: seq<string>, hidden: seq<string>, n: nat)
    requires n <= |shown| == |hidden|
  {
    && (forall i :: 0 <= i < n && secret(shown[i]) ==> !secret(hidden[i]))
    && forall i, j :: 0 <= i < n && 0 <= j < n && secret(shown[i]) && shown[i] == shown[j] ==> hidden[i] == hidden[j]
  }

  ghost predicate Consistent(secret: string -> bool, shown: seq<string>, hidden: seq<string>) {
    |shown| == |hidden| && ConsistentTo(secret, shown, hidden, |shown|)
  }

  /** line is what the running line shown as k really is. */
  ghost predicate StandsFor(secret: string -> bool, shown: seq<string>, hidden: seq<string>, k: string, line: string)
    requires |shown| == |hidden|
  {
    exists i :: 0 <= i < |shown| && secret(shown[i]) && shown[i] == k && hidden[i] == line
  }

  /** The loop of webRedactedLineReplacements. */
  method CollectReplacements(secret: string -> bool, shown: seq<string>, hidden: seq<string>)
    returns (replacements: map<string, string>, ok: bool)
    requires |shown| == |hidden|
    ensures ok <==> Consistent(secret, shown, hidden)
    ensures ok ==> forall j :: 0 <= j < |shown| && secret(shown[j]) ==>
                     shown[j] in replacements && replacements[shown[j]] == hidden[j]
    ensures ok ==> forall k :: k in replacements ==> StandsFor(secret, shown, hidden, k, replacements[k])
  {
    replacements := map[];
    for i := 0 to |shown|
      invariant ConsistentTo(secret, shown, hidden, i)
      invariant forall j :: 0 <= j < i && secret(shown[j]) ==>
                  shown[j] in replacements && replacements[shown[j]] == hidden[j]
      invariant forall k :: k in replacements ==>
                  exists j :: 0 <= j < i && secret(shown[j]) && shown[j] == k && hidden[j] == replacements[k]
    {
      if secret(shown[i]) {
        if shown[i] == hidden[i] || secret(hidden[i]) {
          return map[], false;
        }
        if shown[i] in replacements && replacements[shown[i]] != hidden[i] {
          return map[], false;
        }
        replacements := replacements[shown[i] := hidden[i]];
      }
    }
    return replacements, true;
  }

  /** webRedactedLineReplacements */
  method RedactedLineReplacements(secret: string -> bool, redactedText: string, unredactedText: string)
    returns (replacements: map<string, string>, ok: bool)
    ensures ok <==> Consistent(secret, TextLines(redactedText), TextLines(unredactedText))
    ensures ok ==> Collected(secret, TextLines(redactedText), TextLines(unredactedText), replacements)
  {
    var shown := WebConfigTextLines(redactedText);
    var hidden := WebConfigTextLines(unredactedText);
    if |shown| != |hidden| {
      return map[], false;
    }
    replacements, ok := CollectReplacements(secret, shown, hidden);
  }

  // ---- Resolving an edited text -----------------------------------------------

  function Replaced(secret: string -> bool, replacements: map<string, string>, line: string): string {
    if secret(Content(line)) && Content(line) in replacements then replacements[Content(line)] + Ending(line) else line
  }

  function ReplacedLines(secret: string -> bool, replacements: map<string, string>,
                         lines: seq<string>): (outs: seq<string>)
    ensures |outs| == |lines| && forall i :: 0 <= i < |lines| ==> outs[i] == Replaced(secret, replacements, lines[i])
  {
    seq(|lines|, i requires 0 <= i < |lines| => Replaced(secret, replacements, lines[i]))
  }

  ghost predicate Replaceable(secret: string -> bool, replacements: map<string, string>, line: string) {
    secret(Content(line)) ==> Content(line) in replacements && !secret(replacements[Content(line)])
  }

  /** replaceWebRedactedLines */
  method ReplaceRedactedLines(secret: string -> bool, text: string, replacements: map<string, string>)
    returns (out: string, ok: bool)
    ensures ok <==> forall i :: 0 <= i < |Split(text)| ==> Replaceable(secret, replacements, Split(text)[i])
    ensures ok ==> out == Join(ReplacedLines(secret, replacements, Split(text)))
  {
    var lines := Split(text);
    ghost var all := lines;
    for i := 0 to |lines|
      invariant |lines| == |all|
      invariant forall j :: 0 <= j < i ==> lines[j] == Replaced(secret, replacements, all[j])
      invariant forall j :: 0 <= j < i ==> Replaceable(secret, replacements, all[j])
      invariant forall j :: i <= j < |all| ==> lines[j] == all[j]
    {
      var content := Content(lines[i]);
      if secret(content) {
        if content !in replacements || secret(replacements[content]) {
          assert !Replaceable(secret, replacements, Split(text)[i]);
          return "", false;
        }
        lines := lines[i := replacements[content] + Ending(lines[i])];
      }
    }
    assert lines == ReplacedLines(secret, replacements, all);
    return Join(lines), true;
  }

  /** ContainsRedactedSecretValue */
  ghost predicate HasMarker(secret: string -> bool, text: string) {
    exists l :: l in Split(text) && secret(l)
  }

  method ContainsMarker(secret: string -> bool, text: string) returns (found: bool)
    ensures found <==> HasMarker(secret, text)
  {
    var lines := Split(text);
    for i := 0 to |lines|
      invariant forall j :: 0 <= j < i ==> !secret(lines[j])
    {
      if secret(lines[i]) {
        assert lines[i] in Split(text);
        return true;
      }
    }
    return false;
  }

  /** out is text with every redacted line replaced by the running line it stands for, and nothing else changed. */
  ghost predicate Resolution(secret: string -> bool, shown: seq<string>, hidden: seq<string>, text: string, out: string)
    requires |shown| == |hidden|
  {
    && |Split(out)| == |Split(text)|
    && forall i :: 0 <= i < |Split(text)| ==> ResolvedLine(secret, shown, hidden, Split(text)[i], Split(out)[i])
  }

  ghost predicate ResolvedLine(secret: string -> bool, shown: seq<string>, hidden: seq<string>, line: string,
                               out: string)
    requires |shown| == |hidden|
  {
    if secret(Content(line)) then exists v :: StandsFor(secret, shown, hidden, Content(line), v)
                                    && out == v + Ending(line)
    else out == line
  }

  /** Every redacted line of the text is a redacted line of the running configuration. */
  ghost predicate AllKnown(secret: string -> bool, shown: seq<string>, hidden: seq<string>, lines: seq<string>)
    requires |shown| == |hidden|
  {
    forall i :: 0 <= i < |lines| && secret(Content(lines[i])) ==>
        exists v :: StandsFor(secret, shown, hidden, Content(lines[i]), v)
  }

  ghost predicate Collected(secret: string -> bool, shown: seq<string>, hidden: seq<string>, replacements: map<string,
                            string>)
    requires |shown| == |hidden|
  {
    && (forall k :: k in replacements <==> exists v :: StandsFor(secret, shown, hidden, k, v))
    && (forall k :: k in replacements ==> StandsFor(secret, shown, hidden, k, replacements[k]))
  }

  lemma ReplaceableIffKnown(secret: string -> bool, shown: seq<string>, hidden: seq<string>, replacements: map<string,
                            string>, lines: seq<string>)
    requires Consistent(secret, shown, hidden) && Collected(secret, shown, hidden, replacements)
    ensures (forall i :: 0 <= i < |lines| ==> Replaceable(secret, replacements, lines[i])) <==>
            AllKnown(secret, shown, hidden, lines)
  {
    forall i | 0 <= i < |lines| && secret(Content(lines[i])) && Content(lines[i]) in replacements
      ensures !secret(replacements[Content(lines[i])])
    {
      var k := Content(lines[i]);
      StandsForOne(secret, shown, hidden, k, replacements[k], replacements[k]);
    }
  }

  lemma ReplacedIsResolution(secret: string -> bool, shown: seq<string>, hidden: seq<string>, replacements: map<string,
                             string>, text: string)
    requires |shown| == |hidden| && Collected(secret, shown, hidden, replacements)
    requires forall i :: 0 <= i < |hidden| ==> OneLine(hidden[i])
    requires forall i :: 0 <= i < |Split(text)| ==> Replaceable(secret, replacements, Split(text)[i])
    ensures Resolution(secret, shown, hidden, text, Join(ReplacedLines(secret, replacements, Split(text))))
  {
    var lines := Split(text);
    var outs := ReplacedLines(secret, replacements, lines);
    forall i | 0 <= i < |lines|
      ensures OneLine(outs[i]) && ResolvedLine(secret, shown, hidden, lines[i], outs[i])
    {
      assert Replaceable(secret, replacements, lines[i]);
    }
    SplitJoin(outs);
  }

  datatype Running = Running(text: string, version: nat)

  /** The running configuration was the same in both reads, and it explains every redacted line of the text. */
  ghost predicate Resolvable(secret: string -> bool, redacted: Running, unredacted: Running, text: string) {
    var shown, hidden := TextLines(redacted.text), TextLines(unredacted.text);
    redacted.version == unredacted.version && Consistent(secret, shown, hidden)
        && AllKnown(secret, shown, hidden, Split(text))
  }

  /** resolveWebConfigEditText, the running configuration having been read in both forms. */
  method ResolveEditText(secret: string -> bool, text: string, redacted: Running, unredacted: Running)
    returns (res: Option<string>)
    ensures !HasMarker(secret, text) ==> res == Some(text)
    ensures HasMarker(secret, text) ==> (res.Some? <==> Resolvable(secret, redacted, unredacted, text))
    ensures HasMarker(secret, text) && res.Some? ==>
              Resolution(secret, TextLines(redacted.text), TextLines(unredacted.text), text, res.value)
  {
    var marked := ContainsMarker(secret, text);
    if !marked { return Some(text); }
    if redacted.version != unredacted.version { return None; }
    var replacements, consistent := RedactedLineReplacements(secret, redacted.text, unredacted.text);
    if !consistent { return None; }
    ReplaceableIffKnown(secret, TextLines(redacted.text), TextLines(unredacted.text), replacements, Split(text));
    var out, known := ReplaceRedactedLines(secret, text, replacements);
    if !known { return None; }
    ReplacedIsResolution(secret, TextLines(redacted.text), TextLines(unredacted.text), replacements, text);
    return Some(out);
  }

  // ---- What that means ------------------------------------------------------

  /** A carriage return at the end of a line makes no difference, and an empty line is not redacted. */
  ghost predicate EndingBlind(secret: string -> bool) {
    && !secret("")
    && forall l {:trigger secret(l + "\r")} :: secret(l + "\r") <==> secret(l)
  }

  lemma RedactedIsEndingBlind()
    ensures EndingBlind(Redacted)
  {
    forall l ensures Redacted(l + "\r") <==> Redacted(l) { RedactedEnding(l, "\r"); }
    assert TrimSpace("") == "" && Fields("") == [];
  }

  lemma SplitsIntoContentAndEnding(line: string)
    ensures line == Content(line) + Ending(line)
  {
  }

  /** A redacted running line stands for one line only. */
  lemma StandsForOne(secret: string -> bool, shown: seq<string>, hidden: seq<string>, k: string, v: string, w: string)
    requires Consistent(secret, shown, hidden) && StandsFor(secret, shown, hidden, k, v)
    requires StandsFor(secret, shown, hidden, k, w)
    ensures v == w && !secret(v)
  {
  }

  /** A resolved text has no marker left: nothing redacted can be committed as a secret. */
  lemma NoMarkerRemains(secret: string -> bool, shown: seq<string>, hidden: seq<string>, text: string, out: string)
    requires EndingBlind(secret) && Consistent(secret, shown, hidden) && Resolution(secret, shown, hidden, text, out)
    ensures !HasMarker(secret, out)
  {
    forall i | 0 <= i < |Split(out)| ensures !secret(Split(out)[i]) {
      var line := Split(text)[i];
      assert ResolvedLine(secret, shown, hidden, line, Split(out)[i]);
      SplitsIntoContentAndEnding(line);
      if secret(Content(line)) {
        var v :| StandsFor(secret, shown, hidden, Content(line), v) && Split(out)[i] == v + Ending(line);
        StandsForOne(secret, shown, hidden, Content(line), v, v);
        assert v + "" == v;
      }
    }
  }

  /** The two forms of the running configuration agree on line endings and on every line that is not redacted. */
  ghost predicate AgreeElsewhere(secret: string -> bool, redacted: string, unredacted: string) {
    var r, u := Split(redacted), Split(unredacted);
    && |r| == |u|
    && forall i :: 0 <= i < |r| ==> Ending(r[i]) == Ending(u[i]) && (!secret(Content(r[i])) ==> r[i] == u[i])
  }

  lemma UneditedLine(secret: string -> bool, redacted: string, unredacted: string, i: nat)
    requires EndingBlind(secret) && Consistent(secret, TextLines(redacted), TextLines(unredacted))
    requires |Split(redacted)| == |Split(unredacted)| && i < |Split(redacted)|
    requires secret(Content(Split(redacted)[i]))
    ensures StandsFor(secret, TextLines(redacted), TextLines(unredacted), Content(Split(redacted)[i]),
                      Content(Split(unredacted)[i]))
  {
    SecretLineIsListed(secret, redacted, i);
    assert TextLines(unredacted)[i] == Content(Split(unredacted)[i]);
  }

  lemma SecretLineIsListed(secret: string -> bool, text: string, i: nat)
    requires EndingBlind(secret) && i < |Split(text)| && secret(Content(Split(text)[i]))
    ensures i < |TextLines(text)| && TextLines(text)[i] == Content(Split(text)[i])
  {
  }

  /** One line of the round trip. */
  lemma RoundTripLine(secret: string -> bool, redacted: string, unredacted: string, i: nat, out: string)
    requires EndingBlind(secret) && Consistent(secret, TextLines(redacted), TextLines(unredacted))
    requires |Split(redacted)| == |Split(unredacted)| && i < |Split(redacted)|
    requires ResolvedLine(secret, TextLines(redacted), TextLines(unredacted), Split(redacted)[i], out)
    ensures var r, u := Split(redacted)[i], Split(unredacted)[i];
            out == u <==> Ending(r) == Ending(u) && (!secret(Content(r)) ==> r == u)
  {
    var r, u := Split(redacted)[i], Split(unredacted)[i];
    SplitsIntoContentAndEnding(u);
    if secret(Content(r)) {
      UneditedLine(secret, redacted, unredacted, i);
      var v :| StandsFor(secret, TextLines(redacted), TextLines(unredacted), Content(r), v) && out == v + Ending(r);
      StandsForOne(secret, TextLines(redacted), TextLines(unredacted), Content(r), v, Content(u));
    }
  }

  /**
   The round trip: the redacted text, sent back as it is, resolves to the unredacted one exactly if
   the two agree on line endings and on every line that is not redacted.
   */
  lemma RoundTripIff(secret: string -> bool, redacted: string, unredacted: string, out: string)
    requires EndingBlind(secret) && Consistent(secret, TextLines(redacted), TextLines(unredacted))
    requires Resolution(secret, TextLines(redacted), TextLines(unredacted), redacted, out)
    ensures out == unredacted <==> AgreeElsewhere(secret, redacted, unredacted)
  {
    JoinSplit(out);
    JoinSplit(unredacted);
    var r, u, o := Split(redacted), Split(unredacted), Split(out);
    if |r| == |u| {
      forall i | 0 <= i < |r|
        ensures o[i] == u[i] <==> Ending(r[i]) == Ending(u[i]) && (!secret(Content(r[i])) ==> r[i] == u[i])
      {
        RoundTripLine(secret, redacted, unredacted, i, o[i]);
      }
      assert o == u <==> forall i :: 0 <= i < |r| ==> o[i] == u[i];
    }
  }

  /** And it always resolves, if the redacted form is consistent with the unredacted one. */
  lemma UneditedIsKnown(secret: string -> bool, redacted: string, unredacted: string)
    requires EndingBlind(secret) && Consistent(secret, TextLines(redacted), TextLines(unredacted))
    ensures AllKnown(secret, TextLines(redacted), TextLines(unredacted), Split(redacted))
  {
    var r, shown := Split(redacted), TextLines(redacted);
    forall i | 0 <= i < |r| && secret(Content(r[i]))
      ensures StandsFor(secret, shown, TextLines(unredacted), Content(r[i]), TextLines(unredacted)[i])
    {
      SecretLineIsListed(secret, redacted, i);
    }
  }

  // ---- For the lines the serializer redacts ---------------------------------------

  /** Both of the above for the real notion of a redacted line. */
  lemma ResolvedForReal(shown: seq<string>, hidden: seq<string>, text: string, out: string)
    requires Consistent(Redacted, shown, hidden) && Resolution(Redacted, shown, hidden, text, out)
    ensures !HasMarker(Redacted, out)
  {
    RedactedIsEndingBlind();
    NoMarkerRemains(Redacted, shown, hidden, text, out);
  }

  lemma RoundTripForReal(redacted: string, unredacted: string, out: string)
    requires Consistent(Redacted, TextLines(redacted), TextLines(unredacted))
    ensures AllKnown(Redacted, TextLines(redacted), TextLines(unredacted), Split(redacted))
    ensures Resolution(Redacted, TextLines(redacted), TextLines(unredacted), redacted, out) ==>
            (out == unredacted <==> AgreeElsewhere(Redacted, redacted, unredacted))
  {
    RedactedIsEndingBlind();
    UneditedIsKnown(Redacted, redacted, unredacted);
    if Resolution(Redacted, TextLines(redacted), TextLines(unredacted), redacted, out) {
      RoundTripIff(Redacted, redacted, unredacted, out);
    }
  }
}
