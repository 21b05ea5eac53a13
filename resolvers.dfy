/** The structure resolvers: index computations over the line array (and, for the naive
 *  variant, over raw text) that find where a block or a subroutine ends. */
module Resolvers {
  import opened Wrappers
  import opened JsString
  import opened Constants
  import opened CommandParser
  import ScriptLines

  // ---------------------------------------------------------------- findClosingBlockCommandIndex

  /** How the block resolver sees one line: not a tag, a tag with its (possibly undefined)
   *  name, or a tag line that `extractCommand` rejects. */
  datatype LineTag = Plain | Tag(name: Option<string>) | Broken(error: string)

  function Classify(line: string): (r: LineTag)
    ensures r.Plain? <==> !ScriptLines.CheckIsCommand(line)
  {
    if !ScriptLines.CheckIsCommand(line) then Plain
    else match ExtractCommand(line)
      case Err(e) => Broken(e)
      case Ok(command) => Tag(command.name)
  }

  function Classified(lines: seq<string>): (r: seq<LineTag>)
    ensures |r| == |lines| && forall k :: 0 <= k < |lines| ==> r[k] == Classify(lines[k])
  {
    seq(|lines|, k requires 0 <= k < |lines| => Classify(lines[k]))
  }

  function NotBlockError(command: string): string {
    "The command \"" + command + "\" is not a block command."
  }

  /** The line closes the block. For a closer given as the command, `COMMAND_BLOCKS[command]` is
   *  undefined, so a tag whose own name is undefined counts as its "closer". */
  predicate IsCloser(t: LineTag, opener: string, closer: Option<string>) {
    t.Tag? && t.name != Some(opener) && t.name == closer
  }

  /** The change one line makes to the nesting depth. */
  function Delta(t: LineTag, opener: string, closer: Option<string>): int {
    if t.Tag? && t.name == Some(opener) then 1
    else if IsCloser(t, opener, closer) then -1
    else 0
  }

  /** The net nesting depth of lines `i` through `k`, both included. */
  function DepthThrough(tags: seq<LineTag>, opener: string, closer: Option<string>, i: nat, k: nat): int
    requires i <= k < |tags|
    decreases k - i
  {
    Delta(tags[i], opener, closer) + (if i == k then 0 else DepthThrough(tags, opener, closer, i + 1, k))
  }

  /** The resolver loop from line `i` at depth `level`. */
  function ScanClosing(tags: seq<LineTag>, opener: string, closer: Option<string>, i: nat, level: int): (r: Result<int>)
    ensures r.Ok? ==> r.value == -1 || (i <= r.value < |tags| && IsCloser(tags[r.value], opener, closer))
    decreases |tags| - i
  {
    if i >= |tags| then Ok(-1)
    else match tags[i]
      case Plain => ScanClosing(tags, opener, closer, i + 1, level)
      case Broken(e) => Err(e)
      case Tag(name) =>
        if name == Some(opener) then ScanClosing(tags, opener, closer, i + 1, level + 1)
        else if name == closer then
          if level - 1 == 0 then Ok(i) else ScanClosing(tags, opener, closer, i + 1, level - 1)
        else ScanClosing(tags, opener, closer, i + 1, level)
  }

  /** A line that neither opens nor closes the block, nor fails, leaves the depth as it is. */
  lemma ScanClosingSkip(tags: seq<LineTag>, opener: string, closer: Option<string>, i: nat, level: int)
    requires i < |tags| && (tags[i].Plain? || (tags[i].Tag? && tags[i].name != Some(opener) && tags[i].name != closer))
    ensures ScanClosing(tags, opener, closer, i, level) == ScanClosing(tags, opener, closer, i + 1, level)
  {
  }

  /** A nested opener deepens the block by one. */
  lemma ScanClosingOpener(tags: seq<LineTag>, opener: string, closer: Option<string>, i: nat, level: int)
    requires i < |tags| && tags[i] == Tag(Some(opener))
    ensures ScanClosing(tags, opener, closer, i, level) == ScanClosing(tags, opener, closer, i + 1, level + 1)
  {
  }

  /** A closer ends the scan at depth one, and otherwise lowers the depth by one. */
  lemma ScanClosingCloser(tags: seq<LineTag>, opener: string, closer: Option<string>, i: nat, level: int)
    requires i < |tags| && tags[i].Tag? && tags[i].name != Some(opener) && tags[i].name == closer
    ensures level - 1 == 0 ==> ScanClosing(tags, opener, closer, i, level) == Ok(i)
    ensures level - 1 != 0 ==> ScanClosing(tags, opener, closer, i, level) == ScanClosing(tags, opener, closer, i + 1, level - 1)
  {
  }

  /** `findClosingBlockCommandIndex` as a function. */
  function ClosingIndex(command: string, currentIndex: nat, lines: seq<string>): (r: Result<int>)
    ensures !ScriptLines.CheckIsBlockCommand(Some(command)) ==> r == Err(NotBlockError(command))
    ensures r.Ok? ==> r.value == -1 || (currentIndex <= r.value < |lines| && IsCloser(Classify(lines[r.value]), command, CloserOf(command)))
  {
    if !ScriptLines.CheckIsBlockCommand(Some(command)) then Err(NotBlockError(command))
    else ScanClosing(Classified(lines), command, CloserOf(command), currentIndex, 0)
  }

  /** `findClosingBlockCommandIndex`: scan forward from `currentIndex`, counting nested
   *  openers, and stop at the closer that balances them. */
  method FindClosingBlockCommandIndex(command: string, currentIndex: nat, lines: seq<string>) returns (r: Result<int>)
    ensures r == ClosingIndex(command, currentIndex, lines)
  {
    if !ScriptLines.CheckIsBlockCommand(Some(command)) {
      return Err(NotBlockError(command));
    }
    var closer := CloserOf(command);
    ghost var tags := Classified(lines);
    ghost var target := ScanClosing(tags, command, closer, currentIndex, 0);
    var level := 0;
    var i := currentIndex;
    while i < |lines|
      invariant ScanClosing(tags, command, closer, i, level) == target
      decreases |lines| - i
    {
      var line := lines[i];
      if !ScriptLines.CheckIsCommand(line) {
        ScanClosingSkip(tags, command, closer, i, level);
        i := i + 1;
        continue;
      }
      var extracted := ExtractCommand(line);
      if extracted.Err? {
        return Err(extracted.error);
      }
      var name := extracted.value.name;
      assert tags[i] == Tag(name);
      if name == Some(command) {
        ScanClosingOpener(tags, command, closer, i, level);
        level := level + 1;
        i := i + 1;
        continue;
      }
      if name == closer {
        ScanClosingCloser(tags, command, closer, i, level);
        level := level - 1;
      } else {
        ScanClosingSkip(tags, command, closer, i, level);
      }
      if level == 0 && name == closer {
        return Ok(i);
      }
      i := i + 1;
    }
    return Ok(-1);
  }

  /** The resolver answers with the FIRST closer at which the depth returns to zero, answers -1
   *  only when there is none, and fails only on a tag line `extractCommand` rejects. */
  lemma {:induction false} ScanClosingBalanced(tags: seq<LineTag>, opener: string, closer: Option<string>, i: nat, level: int)
    ensures var r := ScanClosing(tags, opener, closer, i, level);
      && (r.Ok? && r.value != -1 ==> level + DepthThrough(tags, opener, closer, i, r.value) == 0)
      && (r.Ok? && r.value != -1 ==> forall k :: i <= k < r.value && IsCloser(tags[k], opener, closer) ==> level + DepthThrough(tags, opener, closer, i, k) != 0)
      && (r == Ok(-1) ==> forall k :: i <= k < |tags| && IsCloser(tags[k], opener, closer) ==> level + DepthThrough(tags, opener, closer, i, k) != 0)
      && (r.Err? ==> exists k :: i <= k < |tags| && tags[k].Broken?)
    decreases |tags| - i
  {
    if i < |tags| {
      var d := Delta(tags[i], opener, closer);
      if !(IsCloser(tags[i], opener, closer) && level - 1 == 0) && !tags[i].Broken? {
        ScanClosingBalanced(tags, opener, closer, i + 1, level + d);
      }
    }
  }

  lemma ClosingIndexBalanced(command: string, currentIndex: nat, lines: seq<string>)
    requires ScriptLines.CheckIsBlockCommand(Some(command))
    ensures var r := ClosingIndex(command, currentIndex, lines);
      var tags := Classified(lines);
      var closer := CloserOf(command);
      && (r.Ok? && r.value != -1 ==> DepthThrough(tags, command, closer, currentIndex, r.value) == 0)
      && (r.Ok? && r.value != -1 ==> forall k :: currentIndex <= k < r.value && IsCloser(tags[k], command, closer) ==> DepthThrough(tags, command, closer, currentIndex, k) != 0)
      && (r == Ok(-1) ==> forall k :: currentIndex <= k < |tags| && IsCloser(tags[k], command, closer) ==> DepthThrough(tags, command, closer, currentIndex, k) != 0)
      && (r.Err? ==> exists k :: currentIndex <= k < |lines| && Classify(lines[k]).Broken?)
  {
    ScanClosingBalanced(Classified(lines), command, CloserOf(command), currentIndex, 0);
  }

  /** `[name]` is seen as a tag named `name`. */
  lemma ClassifyBare(name: string)
    requires name != [] && IsPlain(name) && ']' !in name
    requires forall j :: 0 <= j < |name| ==> !IsLineTerminator(name[j])
    ensures Classify("[" + name + "]") == Tag(Some(name))
  {
    BareCommand(name);
  }

  /** A whitespace-only tag is seen as a tag with an undefined name. */
  lemma ClassifyBlank(content: string)
    requires content != [] && AllWhitespace(content) && ']' !in content
    requires forall j :: 0 <= j < |content| ==> !IsLineTerminator(content[j])
    ensures Classify("[" + content + "]") == Tag(None)
  {
    WhitespaceContentUndefined(content);
  }

  /** For nested `if`s the outer `endif` closes the block; one `endif` too few gives -1. */
  lemma NestedIfsCloseAtOuter(lines: seq<string>)
    requires |lines| == 4
    requires Classify(lines[0]) == Classify(lines[1]) == Tag(Some("if"))
    requires Classify(lines[2]) == Classify(lines[3]) == Tag(Some("endif"))
    ensures ClosingIndex("if", 0, lines) == Ok(3)
    ensures ClosingIndex("if", 0, lines[..3]) == Ok(-1)
  {
    assert CommandBlocks["if"] == "endif";
    assert CloserOf("if") == Some("endif");
    assert ScriptLines.CheckIsBlockCommand(Some("if"));
    var tags := Classified(lines);
    assert Classified(lines[..3]) == tags[..3];
    NestedIfTags(tags);
  }

  /** The scan over two `if` tags followed by two, or one, `endif` tags. */
  lemma NestedIfTags(t: seq<LineTag>)
    requires |t| == 4 && t[0] == t[1] == Tag(Some("if")) && t[2] == t[3] == Tag(Some("endif"))
    ensures ScanClosing(t, "if", Some("endif"), 0, 0) == Ok(3)
    ensures ScanClosing(t[..3], "if", Some("endif"), 0, 0) == Ok(-1)
  {
    assert ScanClosing(t, "if", Some("endif"), 3, 1) == Ok(3);
    assert ScanClosing(t, "if", Some("endif"), 2, 2) == Ok(3);
    assert ScanClosing(t, "if", Some("endif"), 1, 1) == Ok(3);
    var s := t[..3];
    assert ScanClosing(s, "if", Some("endif"), 3, 1) == Ok(-1);
    assert ScanClosing(s, "if", Some("endif"), 2, 2) == Ok(-1);
    assert ScanClosing(s, "if", Some("endif"), 1, 1) == Ok(-1);
  }

  /** Asked for a closer such as `endif`, the resolver's "closer" is undefined, so a
   *  whitespace-only tag (whose name is undefined) ends the "block" the closer opened. */
  lemma CloserNameMatchesUndefinedTag(lines: seq<string>)
    requires |lines| > 1 && Classify(lines[0]) == Tag(Some("endif")) && Classify(lines[1]) == Tag(None)
    ensures ClosingIndex("endif", 0, lines) == Ok(1)
  {
    assert CloserOf("endif") == None;
    assert ScriptLines.CheckIsBlockCommand(Some("endif")) by {
      assert CommandBlocks["if"] == "endif";
    }
    var tags := Classified(lines);
    assert ClosingIndex("endif", 0, lines) == ScanClosing(tags, "endif", None, 0, 0);
    assert ScanClosing(tags, "endif", None, 0, 0) == ScanClosing(tags, "endif", None, 1, 1);
  }

  // ---------------------------------------------------------------- findSubroutineEndIndex

  /** The depth change of one line for subroutine ranges: a `*label` opens, `[s]` or `[return]`
   *  closes. */
  function SubDelta(line: string): int {
    (if StartsWith(line, "*") then 1 else 0)
      - (if StartsWith(line, "[s]") || StartsWith(line, "[return]") then 1 else 0)
  }

  /** The net depth of lines `i` through `k`, both included. */
  function SubDepthThrough(lines: seq<string>, i: nat, k: nat): int
    requires i <= k < |lines|
    decreases k - i
  {
    SubDelta(lines[i]) + (if i == k then 0 else SubDepthThrough(lines, i + 1, k))
  }

  function ScanSubroutine(lines: seq<string>, i: nat, level: int): (r: int)
    ensures i <= r < |lines| || (r == |lines| - 1 && i >= |lines|)
    decreases |lines| - i
  {
    if i >= |lines| then |lines| - 1
    else
      var l := level + SubDelta(lines[i]);
      if l == 0 then i else ScanSubroutine(lines, i + 1, l)
  }

  /** `findSubroutineEndIndex` as a function. Reading the start line of a non-empty array
   *  requires `currentIndex` to be inside it. */
  function SubroutineEnd(currentIndex: nat, lines: seq<string>): (r: int)
    requires lines == [] || currentIndex < |lines|
    ensures r == -1 <==> lines == [] || !StartsWith(lines[currentIndex], "*")
    ensures r != -1 ==> currentIndex <= r < |lines|
  {
    if lines == [] then -1
    else if !StartsWith(lines[currentIndex], "*") then -1
    else ScanSubroutine(lines, currentIndex, 0)
  }

  /** `findSubroutineEndIndex`: from a `*label` line, the line where the label's depth returns
   *  to zero, or the last line when the subroutine is open-ended. */
  method FindSubroutineEndIndex(currentIndex: nat, lines: seq<string>) returns (r: int)
    requires lines == [] || currentIndex < |lines|
    ensures r == SubroutineEnd(currentIndex, lines)
  {
    if |lines| == 0 {
      return -1;
    }
    if !StartsWith(lines[currentIndex], "*") {
      return -1;
    }
    var level := 0;
    var i := currentIndex;
    while i < |lines|
      invariant currentIndex <= i <= |lines|
      invariant ScanSubroutine(lines, i, level) == SubroutineEnd(currentIndex, lines)
      decreases |lines| - i
    {
      var line := lines[i];
      if StartsWith(line, "*") {
        level := level + 1;
      }
      if StartsWith(line, "[s]") || StartsWith(line, "[return]") {
        level := level - 1;
      }
      if level == 0 {
        return i;
      }
      i := i + 1;
    }
    return |lines| - 1;
  }

  /** The end is the first line at which the depth returns to zero, or the last line when it
   *  never does. */
  lemma {:induction false} ScanSubroutineFirstZero(lines: seq<string>, i: nat, level: int)
    requires i < |lines|
    ensures var r := ScanSubroutine(lines, i, level);
      && (forall k :: i <= k < r ==> level + SubDepthThrough(lines, i, k) != 0)
      && (level + SubDepthThrough(lines, i, r) == 0 || r == |lines| - 1)
    decreases |lines| - i
  {
    if level + SubDelta(lines[i]) != 0 && i + 1 < |lines| {
      ScanSubroutineFirstZero(lines, i + 1, level + SubDelta(lines[i]));
    }
  }

  lemma SubroutineEndFirstZero(currentIndex: nat, lines: seq<string>)
    requires currentIndex < |lines| && StartsWith(lines[currentIndex], "*")
    ensures var r := SubroutineEnd(currentIndex, lines);
      && r != -1
      && (forall k :: currentIndex <= k < r ==> SubDepthThrough(lines, currentIndex, k) != 0)
      && (SubDepthThrough(lines, currentIndex, r) == 0 || r == |lines| - 1)
  {
    ScanSubroutineFirstZero(lines, currentIndex, 0);
  }

  /** Each nested label needs one more terminator; `[return]` closes like `[s]`. */
  lemma NestedLabels()
    ensures SubroutineEnd(0, ["*a", "*b", "[s]", "[return]", "x"]) == 3
    ensures SubroutineEnd(0, ["*a", "x", "[return]", "y"]) == 2
    ensures SubroutineEnd(0, ["*a", "x", "y"]) == 2
    ensures SubroutineEnd(1, ["*a", "x", "y"]) == -1
  {
    assert StartsWith("*a", "*") && StartsWith("*b", "*");
    assert !StartsWith("*a", "[s]") && !StartsWith("*a", "[return]");
    assert !StartsWith("*b", "[s]") && !StartsWith("*b", "[return]");
    assert "[s]"[..1] == "[" && "[return]"[..1] == "[" && "[return]"[..3] == "[re";
    assert StartsWith("[s]", "[s]") && !StartsWith("[s]", "*");
    assert StartsWith("[return]", "[return]") && !StartsWith("[return]", "*") && !StartsWith("[return]", "[s]");
    assert !StartsWith("x", "*") && !StartsWith("x", "[s]") && !StartsWith("x", "[return]");
    assert !StartsWith("y", "*") && !StartsWith("y", "[s]") && !StartsWith("y", "[return]");
  }

  // ---------------------------------------------------------------- findClosingCommandIndex

  /** The search string of the naive resolver: the table entry for an opener, and the text
   *  `undefined` (what a template of an undefined entry yields) for a closer. */
  function ClosingText(command: string): (r: string)
    ensures |r| > 0
  {
    match CloserOf(command)
    case Some(c) => assert c in Closers; c
    case None => "undefined"
  }

  /** `findClosingCommandIndex`: the first occurrence of the closer text at or after `openPos`,
   *  without regard to nesting. */
  function ClosingCommandIndex(command: string, openPos: int, text: string): (r: Result<int>)
    ensures !ScriptLines.CheckIsBlockCommand(Some(command)) <==> r == Err(NotBlockError(command))
    ensures r.Ok? ==> r.value == -1 || (r.value >= openPos && OccursAt(text, ClosingText(command), r.value))
    ensures r.Ok? ==> forall k :: openPos <= k && (r.value == -1 || k < r.value) ==> !OccursAt(text, ClosingText(command), k)
  {
    if !ScriptLines.CheckIsBlockCommand(Some(command)) then Err(NotBlockError(command))
    else Ok(IndexOf(text, ClosingText(command), openPos))
  }

  /** No nesting: the first closer after the opener wins even when an inner opener precedes it. */
  lemma NaiveFindsInnerCloser(text: string, openPos: int, inner: nat)
    requires inner >= openPos && OccursAt(text, "endif", inner)
    ensures ClosingCommandIndex("if", openPos, text).Ok?
    ensures var r := ClosingCommandIndex("if", openPos, text).value; r != -1 && r <= inner
  {
    assert CommandBlocks["if"] == "endif";
    assert ClosingText("if") == "endif";
  }

  /** Given a closer, the naive resolver searches for the text `undefined`. */
  lemma NaiveCloserSearchesUndefined(text: string, openPos: int)
    ensures ClosingCommandIndex("endif", openPos, text) == Ok(IndexOf(text, "undefined", openPos))
  {
    assert CommandBlocks["if"] == "endif";
    assert "endif" !in CommandBlocks;
  }
}
