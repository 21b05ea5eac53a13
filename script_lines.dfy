/** The line pipeline that turns raw script text into executable lines: comment removal,
 *  `sanitizeLine`, `splitMultiCommandLine`, and the line and tag classifiers. */
module ScriptLines {
  import opened Wrappers
  import opened JsString
  import Constants

  // ---------------------------------------------------------------- sanitizeLine

  /** `s.replace(/\t/g, ' ')`. */
  function ReplaceTabs(s: string): (r: string)
    ensures |r| == |s|
    ensures forall i :: 0 <= i < |s| ==> r[i] == (if s[i] == '\t' then ' ' else s[i])
  {
    if s == [] then [] else [if s[0] == '\t' then ' ' else s[0]] + ReplaceTabs(s[1..])
  }

  lemma ReplaceTabsNoTab(s: string)
    requires '\t' !in s
    ensures ReplaceTabs(s) == s
  {
    assert forall i :: 0 <= i < |s| ==> s[i] != '\t';
  }

  /** `marker` stands at `p` and only whitespace follows it: a match of `<marker>\s*$` at `p`. */
  predicate TrailingMarkerAt(s: string, marker: char, p: int) {
    0 <= p < |s| && s[p] == marker && AllWhitespace(s[p + 1..])
  }

  /** The leftmost position `>= from` where `<marker>\s*$` matches, or -1. */
  function FirstTrailingMarker(s: string, marker: char, from: nat): (r: int)
    decreases |s| - from
    ensures r == -1 || (from <= r && TrailingMarkerAt(s, marker, r))
    ensures forall q :: from <= q && (r == -1 || q < r) ==> !TrailingMarkerAt(s, marker, q)
  {
    if from >= |s| then -1
    else if TrailingMarkerAt(s, marker, from) then from
    else FirstTrailingMarker(s, marker, from + 1)
  }

  /** `s.replace(/<marker>\s*$/, '')`: cuts the string at the leftmost marker after which only
   *  whitespace follows, or returns it unchanged when there is none. */
  function StripTrailing(s: string, marker: char): (r: string)
    ensures |r| <= |s| && r == s[..|r|]
    ensures r == s <==> forall q :: !TrailingMarkerAt(s, marker, q)
    ensures r != s ==> TrailingMarkerAt(s, marker, |r|)
    ensures forall q :: 0 <= q < |r| ==> !TrailingMarkerAt(s, marker, q)
  {
    var p := FirstTrailingMarker(s, marker, 0);
    if p == -1 then s else s[..p]
  }

  /** When the last character is neither whitespace nor the marker, there is nothing to strip. */
  lemma StripTrailingNoop(s: string, marker: char)
    requires s == [] || (!IsWhitespace(s[|s| - 1]) && s[|s| - 1] != marker)
    ensures StripTrailing(s, marker) == s
  {
    forall q | 0 <= q < |s| - 1
      ensures !TrailingMarkerAt(s, marker, q)
    {
      assert s[q + 1..][|s| - 2 - q] == s[|s| - 1];
    }
  }

  /** `sanitizeLine`: trim, turn tabs into spaces, drop a trailing `\` and then a trailing `|`
   *  (each with any whitespace after it). */
  function SanitizeLine(line: string): (r: string)
    ensures |r| <= |line|
    ensures forall i :: 0 <= i < |r| ==> r[i] != '\t'
    ensures line == [] ==> r == []
    ensures |r| <= |Trim(line)| && r == ReplaceTabs(Trim(line))[..|r|]
  {
    var trimmed := Trim(line);
    var spaced := ReplaceTabs(trimmed);
    var noBackslash := StripTrailing(spaced, '\\');
    var r := StripTrailing(noBackslash, '|');
    assert r == spaced[..|r|] by {
      assert noBackslash == spaced[..|noBackslash|] && r == noBackslash[..|r|];
    }
    assert forall i :: 0 <= i < |r| ==> r[i] == spaced[i] && spaced[i] != '\t';
    r
  }

  /** On a line with no edge whitespace and no tab, only the two trailing-marker removals act. */
  lemma SanitizeClean(line: string)
    requires line == [] || (!IsWhitespace(line[0]) && !IsWhitespace(line[|line| - 1]))
    requires '\t' !in line
    ensures SanitizeLine(line) == StripTrailing(StripTrailing(line, '\\'), '|')
  {
    TrimNoEdgeWhitespace(line);
    ReplaceTabsNoTab(line);
  }

  /** A line with no edge whitespace, no tab and no trailing `\` or `|` is left unchanged; so is a
   *  backslash followed by other text. */
  lemma SanitizeUnchanged(line: string)
    requires line == [] || (!IsWhitespace(line[0]) && !IsWhitespace(line[|line| - 1]))
    requires '\t' !in line
    requires line == [] || (line[|line| - 1] != '\\' && line[|line| - 1] != '|')
    ensures SanitizeLine(line) == line
  {
    SanitizeClean(line);
    StripTrailingNoop(line, '\\');
    StripTrailingNoop(line, '|');
  }

  /** A trailing backslash is removed from a clean line. */
  lemma SanitizeDropsTrailingBackslash(text: string)
    requires text != [] && !IsWhitespace(text[0]) && !IsWhitespace(text[|text| - 1])
    requires '\t' !in text && text[|text| - 1] != '|' && '\\' !in text
    ensures SanitizeLine(text + "\\") == text
  {
    var line := text + "\\";
    assert '\t' !in line;
    SanitizeClean(line);
    StripBackslash(text);
    StripTrailingNoop(text, '|');
  }

  lemma StripBackslash(text: string)
    requires '\\' !in text
    ensures StripTrailing(text + "\\", '\\') == text
  {
    var line := text + "\\";
    assert TrailingMarkerAt(line, '\\', |text|);
    var r := StripTrailing(line, '\\');
    assert forall q :: 0 <= q < |text| ==> line[q] == text[q];
    assert |r| == |text|;
    assert line[..|text|] == text;
  }

  // ---------------------------------------------------------------- isComment

  /** A comment line starts with `;` (leading whitespace makes it an ordinary line). */
  predicate IsComment(line: string) {
    StartsWith(line, ";")
  }

  // ---------------------------------------------------------------- checkIsCommand, checkIsBlockCommand

  /** `checkIsCommand`: a `[` line that ends with `]` and has something between the brackets. */
  predicate CheckIsCommand(line: string) {
    StartsWith(line, "[") && EndsWith(line, "]") && |line| > 2
  }

  /** Lines the classifier rejects: `@` lines, short and unbalanced lines. */
  lemma CheckIsCommandRejects(line: string)
    ensures |line| > 0 && line[0] == '@' ==> !CheckIsCommand(line)
    ensures |line| <= 2 ==> !CheckIsCommand(line)
    ensures |line| > 0 && line[|line| - 1] != ']' ==> !CheckIsCommand(line)
    ensures |line| > 0 && line[0] != '[' ==> !CheckIsCommand(line)
    ensures CheckIsCommand(line) <==> |line| > 2 && line[0] == '[' && line[|line| - 1] == ']'
  {
  }

  /** `checkIsBlockCommand`: the name is an opener or a closer of the block table; an absent
   *  (undefined) name is not. */
  predicate CheckIsBlockCommand(name: Option<string>) {
    name.Some? && (name.value in Constants.CommandBlocks.Keys || name.value in Constants.CommandBlocks.Values)
  }

  /** The block names are exactly the openers and the closers. */
  lemma CheckIsBlockCommandIff(name: string)
    ensures CheckIsBlockCommand(Some(name)) <==> name in Constants.Openers || name in Constants.Closers
  {
    Constants.CommandBlocksPairs();
  }

  // ---------------------------------------------------------------- splitMultiCommandLine

  /** Length of the longest prefix free of `[` and `]`. */
  function RunLength(s: string): (n: nat)
    ensures n <= |s|
    ensures forall i :: 0 <= i < n ==> s[i] != '[' && s[i] != ']'
    ensures n < |s| ==> s[n] == '[' || s[n] == ']'
  {
    if s == [] || s[0] == '[' || s[0] == ']' then 0 else 1 + RunLength(s[1..])
  }

  /** The length of the match of `(\[[^\]]+\])|([^[\]]+)` at the start of `s`, if any. */
  function MatchLength(s: string): (r: Option<nat>)
    ensures r.Some? ==> 0 < r.value <= |s|
  {
    if s == [] then None
    else if s[0] == '[' then
      var close := IndexOfChar(s, ']', 1);
      if close > 1 then Some(close + 1) else None
    else if s[0] == ']' then None
    else Some(RunLength(s))
  }

  /** The successive matches of the global regex, left to right. */
  function Matches(s: string): seq<string>
  {
    if s == [] then []
    else match MatchLength(s)
      case None => Matches(s[1..])
      case Some(n) => [s[..n]] + Matches(s[n..])
  }

  /** `splitMultiCommandLine` as a function of the line: the line itself unless it starts with
   *  `[`, otherwise every bracket group and bracket-free run, trimmed, in order. */
  function SplitParts(line: string): (r: seq<string>)
    ensures !StartsWith(line, "[") ==> r == [line]
    ensures StartsWith(line, "[") ==> forall i :: 0 <= i < |r| ==> Trim(r[i]) == r[i]
  {
    if !StartsWith(line, "[") then [line]
    else
      var r := TrimAll(Matches(line));
      assert forall i :: 0 <= i < |r| ==> Trim(r[i]) == r[i] by {
        forall i | 0 <= i < |r| ensures Trim(r[i]) == r[i] {
          TrimAllAt(Matches(line), i);
          TrimIdempotent(Matches(line)[i]);
        }
      }
      r
  }

  /** `splitMultiCommandLine`: a `matchAll` loop pushing the trimmed matches. */
  method SplitMultiCommandLine(line: string) returns (lines: seq<string>)
    ensures lines == SplitParts(line)
  {
    if !StartsWith(line, "[") {
      return [line];
    }
    assert SplitParts(line) == TrimAll(Matches(line));
    lines := [];
    var pos := 0;
    assert line[pos..] == line;
    while pos < |line|
      invariant 0 <= pos <= |line|
      invariant lines + TrimAll(Matches(line[pos..])) == SplitParts(line)
    {
      var rest := line[pos..];
      var m := MatchLength(rest);
      if m.None? {
        MatchSkip(rest);
        assert line[pos + 1..] == rest[1..];
        pos := pos + 1;
      } else {
        var n := m.value;
        MatchTake(rest, n);
        assert line[pos + n..] == rest[n..];
        var part := Trim(rest[..n]);
        AppendAssoc(lines, part, TrimAll(Matches(rest[n..])));
        lines := lines + [part];
        pos := pos + n;
      }
    }
    assert line[pos..] == [];
    assert TrimAll(Matches(line[pos..])) == [];
  }

  /** Where no match starts, the scan moves on by one character. */
  lemma MatchSkip(s: string)
    requires s != [] && MatchLength(s).None?
    ensures TrimAll(Matches(s)) == TrimAll(Matches(s[1..]))
  {
  }

  /** A match of length `n` contributes its trimmed text, and the scan resumes after it. */
  lemma MatchTake(s: string, n: nat)
    requires MatchLength(s) == Some(n)
    ensures n <= |s|
    ensures TrimAll(Matches(s)) == [Trim(s[..n])] + TrimAll(Matches(s[n..]))
  {
    MatchesTake(s, n);
    TrimAllCons(s[..n], Matches(s[n..]));
  }

  lemma MatchesTake(s: string, n: nat)
    requires MatchLength(s) == Some(n)
    ensures n <= |s| && Matches(s) == [s[..n]] + Matches(s[n..])
  {
  }

  lemma AppendAssoc<T>(xs: seq<T>, x: T, ys: seq<T>)
    ensures xs + ([x] + ys) == (xs + [x]) + ys
  {
  }

  lemma TrimAllCons(part: string, parts: seq<string>)
    ensures TrimAll([part] + parts) == [Trim(part)] + TrimAll(parts)
  {
    assert ([part] + parts)[1..] == parts;
  }

  /** A well-formed tag: `[`, a non-empty body without `]`, then `]`. */
  predicate IsTag(t: string) {
    |t| >= 3 && t[0] == '[' && t[|t| - 1] == ']' && forall i :: 1 <= i < |t| - 1 ==> t[i] != ']'
  }

  function Concat(parts: seq<string>): string {
    if parts == [] then [] else parts[0] + Concat(parts[1..])
  }

  lemma TagMatch(t: string, rest: string)
    requires IsTag(t)
    ensures Matches(t + rest) == [t] + Matches(rest)
  {
    var s := t + rest;
    var close := IndexOfChar(s, ']', 1);
    assert s[|t| - 1] == ']';
    assert forall k :: 1 <= k < |t| - 1 ==> s[k] == t[k];
    IndexOfCharFirst(s, ']', 1, |t| - 1);
    assert s[..|t|] == t && s[|t|..] == rest;
  }

  lemma {:induction false} TagsMatch(tags: seq<string>)
    requires forall i :: 0 <= i < |tags| ==> IsTag(tags[i])
    ensures Matches(Concat(tags)) == tags
  {
    if tags != [] {
      TagMatch(tags[0], Concat(tags[1..]));
      TagsMatch(tags[1..]);
    }
  }

  lemma TrimAllTags(tags: seq<string>)
    requires forall i :: 0 <= i < |tags| ==> IsTag(tags[i])
    ensures TrimAll(tags) == tags
  {
    var r := TrimAll(tags);
    forall i | 0 <= i < |tags| ensures r[i] == tags[i] {
      TrimAllAt(tags, i);
      TagTrimmed(tags[i]);
    }
  }

  lemma TagTrimmed(t: string)
    requires IsTag(t)
    ensures Trim(t) == t
  {
    assert t[0] == '[' && t[|t| - 1] == ']';
    TrimNoEdgeWhitespace(t);
  }

  /** A line made only of adjacent tags splits into exactly those tags, in order; so
   *  concatenating the parts gives the line back, and a single tag stays one line. */
  lemma {:induction false} SplitTagsRoundTrip(tags: seq<string>)
    requires |tags| > 0 && forall i :: 0 <= i < |tags| ==> IsTag(tags[i])
    ensures SplitParts(Concat(tags)) == tags
    ensures Concat(SplitParts(Concat(tags))) == Concat(tags)
  {
    TagsMatch(tags);
    TrimAllTags(tags);
    var line := Concat(tags);
    assert line == tags[0] + Concat(tags[1..]);
    assert line[0] == tags[0][0] == '[';
    assert StartsWith(line, "[");
  }

  /** A whitespace-only gap between two tags becomes an `''` entry. */
  lemma {:induction false} SplitWhitespaceGap(t1: string, gap: string, t2: string)
    requires IsTag(t1) && IsTag(t2) && gap != [] && AllWhitespace(gap)
    ensures SplitParts(t1 + gap + t2) == [t1, "", t2]
  {
    var line := t1 + gap + t2;
    assert Matches(line) == [t1, gap, t2] by {
      assert line == t1 + (gap + t2);
      TagMatch(t1, gap + t2);
      GapMatch(gap, t2);
      TagMatch(t2, []);
      assert t2 + [] == t2;
    }
    assert TrimAll([t1, gap, t2]) == [t1, "", t2] by {
      TrimAllWhitespace(gap);
      TagTrimmed(t1);
      TagTrimmed(t2);
      TrimAllAt([t1, gap, t2], 0);
      TrimAllAt([t1, gap, t2], 1);
      TrimAllAt([t1, gap, t2], 2);
    }
    assert StartsWith(line, "[") by {
      assert line[0] == t1[0];
    }
  }

  lemma GapMatch(gap: string, rest: string)
    requires gap != [] && AllWhitespace(gap) && |rest| > 0 && rest[0] == '['
    ensures Matches(gap + rest) == [gap] + Matches(rest)
  {
    RunOfGap(gap, rest);
    var s := gap + rest;
    assert s[0] == gap[0];
    assert MatchLength(s) == Some(|gap|);
    assert s[..|gap|] == gap && s[|gap|..] == rest;
  }

  lemma {:induction false} RunOfGap(gap: string, t: string)
    requires AllWhitespace(gap) && |t| > 0 && t[0] == '['
    ensures RunLength(gap + t) == |gap|
  {
    if gap != [] {
      assert (gap + t)[1..] == gap[1..] + t;
      RunOfGap(gap[1..], t);
    } else {
      assert gap + t == t;
    }
  }

  /** An empty tag `[]` and a stray `]` produce no part. */
  lemma DropsEmptyTagAndStrayCloser(rest: string)
    ensures Matches("[]" + rest) == Matches(rest)
    ensures Matches("]" + rest) == Matches(rest)
  {
    var s := "[]" + rest;
    assert IndexOfChar(s, ']', 1) == 1;
    assert s[1..] == "]" + rest;
    assert ("]" + rest)[1..] == rest;
  }

  // ---------------------------------------------------------------- splitAndSanitize

  function DropComments(lines: seq<string>): (r: seq<string>)
    ensures forall i :: 0 <= i < |r| ==> !IsComment(r[i])
  {
    if lines == [] then []
    else (if IsComment(lines[0]) then [] else [lines[0]]) + DropComments(lines[1..])
  }

  function SanitizeAll(lines: seq<string>): (r: seq<string>)
    ensures |r| == |lines| && forall i :: 0 <= i < |r| ==> r[i] == SanitizeLine(lines[i])
  {
    if lines == [] then [] else [SanitizeLine(lines[0])] + SanitizeAll(lines[1..])
  }

  function SplitAll(lines: seq<string>): seq<string> {
    if lines == [] then [] else SplitParts(lines[0]) + SplitAll(lines[1..])
  }

  /** `splitAndSanitize`: split on `'\n'`, drop comment lines, sanitize each line, split each
   *  line's tags, flatten. */
  function SplitAndSanitize(content: string): (r: seq<string>)
    ensures forall i :: 0 <= i < |r| ==> '\t' !in r[i]
  {
    var r := SplitAll(SanitizeAll(DropComments(Split(content, '\n'))));
    assert forall i :: 0 <= i < |r| ==> '\t' !in r[i] by { SplitAllNoTabs(SanitizeAll(DropComments(Split(content, '\n')))); }
    r
  }

  lemma {:induction false} SplitAllNoTabs(lines: seq<string>)
    requires forall i :: 0 <= i < |lines| ==> '\t' !in lines[i]
    ensures forall i :: 0 <= i < |SplitAll(lines)| ==> '\t' !in SplitAll(lines)[i]
  {
    if lines != [] {
      SplitAllNoTabs(lines[1..]);
      SplitPartsNoTabs(lines[0]);
    }
  }

  lemma SplitPartsNoTabs(line: string)
    requires '\t' !in line
    ensures forall i :: 0 <= i < |SplitParts(line)| ==> '\t' !in SplitParts(line)[i]
  {
    if StartsWith(line, "[") {
      assert SplitParts(line) == TrimAll(Matches(line));
      MatchesNoChar(line, '\t');
      TrimAllNoChar(Matches(line), '\t');
    }
  }

  lemma TrimAllNoChar(parts: seq<string>, c: char)
    requires forall i :: 0 <= i < |parts| ==> c !in parts[i]
    ensures forall i :: 0 <= i < |parts| ==> c !in TrimAll(parts)[i]
  {
    forall i | 0 <= i < |parts| ensures c !in TrimAll(parts)[i] {
      TrimAllAt(parts, i);
      TrimNoChar(parts[i], c);
    }
  }

  lemma {:induction false} MatchesNoChar(s: string, c: char)
    requires c !in s
    ensures forall i :: 0 <= i < |Matches(s)| ==> c !in Matches(s)[i]
  {
    if s != [] {
      match MatchLength(s)
      case None => MatchesNoChar(s[1..], c);
      case Some(n) =>
        MatchesNoChar(s[n..], c);
        assert forall k :: 0 <= k < n ==> s[..n][k] == s[k];
    }
  }

  lemma {:induction false} DropCommentsAppend(a: seq<string>, b: seq<string>)
    ensures DropComments(a + b) == DropComments(a) + DropComments(b)
  {
    if a != [] {
      assert (a + b)[1..] == a[1..] + b;
      DropCommentsAppend(a[1..], b);
    } else {
      assert a + b == b;
    }
  }

  lemma {:induction false} SanitizeAllAppend(a: seq<string>, b: seq<string>)
    ensures SanitizeAll(a + b) == SanitizeAll(a) + SanitizeAll(b)
  {
    if a != [] {
      assert (a + b)[0] == a[0] && (a + b)[1..] == a[1..] + b;
      SanitizeAllAppend(a[1..], b);
      ConsAssoc(SanitizeLine(a[0]), SanitizeAll(a[1..]), SanitizeAll(b));
    } else {
      assert a + b == b;
    }
  }

  lemma ConsAssoc<T>(x: T, ys: seq<T>, zs: seq<T>)
    ensures [x] + (ys + zs) == ([x] + ys) + zs
  {
  }

  lemma {:induction false} SplitAllAppend(a: seq<string>, b: seq<string>)
    ensures SplitAll(a + b) == SplitAll(a) + SplitAll(b)
  {
    if a != [] {
      assert (a + b)[1..] == a[1..] + b;
      SplitAllAppend(a[1..], b);
    } else {
      assert a + b == b;
    }
  }

  /** Line order is preserved: the text before a newline is processed into the first lines of
   *  the result and the text after it into the rest. */
  lemma SplitAndSanitizeAppend(a: string, b: string)
    requires '\n' !in a
    ensures SplitAndSanitize(a + "\n" + b) == SplitAndSanitize(a) + SplitAndSanitize(b)
  {
    SplitAppend(a, b, '\n');
    assert a + "\n" + b == a + ['\n'] + b;
    SplitNoSep(a, '\n');
    var raw := Split(a + "\n" + b, '\n');
    assert raw == [a] + Split(b, '\n');
    DropCommentsAppend([a], Split(b, '\n'));
    SanitizeAllAppend(DropComments([a]), DropComments(Split(b, '\n')));
    SplitAllAppend(SanitizeAll(DropComments([a])), SanitizeAll(DropComments(Split(b, '\n'))));
  }

  /** A comment line produces no executable line. */
  lemma CommentLineDropped(line: string)
    requires '\n' !in line && IsComment(line)
    ensures SplitAndSanitize(line) == []
  {
    SplitNoSep(line, '\n');
    assert DropComments([line]) == [];
  }

  /** Any other line becomes the parts of its sanitized text. */
  lemma ContentLineKept(line: string)
    requires '\n' !in line && !IsComment(line)
    ensures SplitAndSanitize(line) == SplitParts(SanitizeLine(line))
  {
    SplitNoSep(line, '\n');
    assert DropComments([line]) == [line];
    assert SanitizeAll([line]) == [SanitizeLine(line)];
    assert SplitAll([SanitizeLine(line)]) == SplitParts(SanitizeLine(line)) + SplitAll([]);
  }
}
