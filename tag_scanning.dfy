/** The utilities that pull tags out of running text: `removeCommandsFromText` (remove every
 *  inline tag and remember where it was), `extractCommands` (parse the tags at the start of a
 *  text) and `extractStorage` (the `storage` argument of a tag line). */
module TagScanning {
  import opened Wrappers
  import opened JsString
  import opened CommandParser
  import ScriptLines

  // ---------------------------------------------------------------- removeCommandsFromText

  /** A tag removed from the text. Positions refer to the text as it was when this tag was the
   *  first one left in it. */
  datatype InlineTag = InlineTag(startIndex: nat, endIndex: nat, command: string, props: map<string, Option<string>>)

  /** `s.replace(/ +/g, ' ')`: every run of spaces becomes one space. */
  function CollapseSpaces(s: string): (r: string)
    ensures |r| <= |s|
    ensures r != [] <==> s != []
    ensures r != [] ==> (r[0] == ' ' <==> s[0] == ' ')
    ensures forall j :: 0 <= j < |r| - 1 ==> !(r[j] == ' ' && r[j + 1] == ' ')
    decreases |s|
  {
    if s == [] then []
    else if s[0] == ' ' then
      var rest := DropSpaces(s);
      var tail := CollapseSpaces(rest);
      assert tail != [] ==> tail[0] != ' ';
      [' '] + tail
    else [s[0]] + CollapseSpaces(s[1..])
  }

  function DropSpaces(s: string): (r: string)
    ensures |r| <= |s| && (r == [] || r[0] != ' ')
    ensures s != [] && s[0] == ' ' ==> |r| < |s|
  {
    if s != [] && s[0] == ' ' then DropSpaces(s[1..]) else s
  }

  /** `const [key, value] = prop.split('=')`: the text before the first `=`, and the text
   *  between the first and the second `=` (undefined when there is no `=`). */
  function InlineProp(prop: string): (string, Option<string>)
  {
    var parts := Split(prop, '=');
    (parts[0], if |parts| > 1 then Some(parts[1]) else None)
  }

  /** The property loop: later keys overwrite earlier ones. */
  function InlineProps(props: seq<string>, acc: map<string, Option<string>>): map<string, Option<string>>
    decreases |props|
  {
    if props == [] then acc
    else
      var (k, v) := InlineProp(props[0]);
      InlineProps(props[1..], acc[k := v])
  }

  /** The text with `t[start..end]` cut out and its spaces collapsed; it is at least two
   *  characters shorter, which is why the removal loop terminates. */
  function CutTag(t: string, start: nat, end: nat): (r: string)
    requires start < end < |t|
    ensures |r| + 2 <= |t|
  {
    CollapseSpaces(t[..start] + t[end + 1..])
  }

  function TagAt(t: string, start: nat, end: nat): InlineTag
    requires start < end < |t|
  {
    var parts := Split(t[start + 1..end], ' ');
    InlineTag(start, end, parts[0], InlineProps(parts[1..], map[]))
  }

  /** The position of the first `[` and of the first `]` after it, if both exist. */
  function FirstTagSpan(t: string): (r: Option<(nat, nat)>)
    ensures r.Some? ==> r.value.0 < r.value.1 < |t| && t[r.value.0] == '[' && t[r.value.1] == ']'
  {
    var start := IndexOfChar(t, '[', 0);
    if start == -1 then None
    else
      var end := IndexOfChar(t, ']', start);
      if end == -1 then None else Some((start, end))
  }

  function Append(commands: map<nat, seq<InlineTag>>, tag: InlineTag): map<nat, seq<InlineTag>> {
    commands[tag.startIndex := (if tag.startIndex in commands then commands[tag.startIndex] else []) + [tag]]
  }

  /** The removal loop as a function of the current text and the tags found so far. */
  function RemoveLoop(t: string, commands: map<nat, seq<InlineTag>>): (string, map<nat, seq<InlineTag>>)
    decreases |t|
  {
    if |t| == 0 then (t, commands)
    else match FirstTagSpan(t)
      case None => (t, commands)
      case Some((start, end)) => RemoveLoop(CutTag(t, start, end), Append(commands, TagAt(t, start, end)))
  }

  /** `removeCommandsFromText` as a function: the trimmed text and the tags grouped by start. */
  function RemoveCommands(text: string): (string, map<nat, seq<InlineTag>>) {
    var (t, commands) := RemoveLoop(text, map[]);
    (Trim(t), commands)
  }

  /** `removeCommandsFromText`: repeatedly cut out the first `[...]` span. The search cursor `i`
   *  stays at 0 for as long as tags are found. */
  method RemoveCommandsFromText(text: string) returns (cleaned: string, commands: map<nat, seq<InlineTag>>)
    ensures (cleaned, commands) == RemoveCommands(text)
  {
    commands := map[];
    var current := text;
    var i := 0;
    while i < |current|
      invariant i == 0 || (i == 1 && FirstTagSpan(current).None?)
      invariant RemoveLoop(current, commands) == RemoveLoop(text, map[])
      decreases |current| - i
    {
      match FirstTagSpan(current)
      case None =>
        i := i + 1;
        break;
      case Some((start, end)) =>
        var tag := TagAt(current, start, end);
        current := CutTag(current, start, end);
        commands := Append(commands, tag);
    }
    cleaned := Trim(current);
  }

  /** The text holds a `[` with a `]` somewhere after it. */
  predicate HasTagPair(t: string) {
    exists a, b :: 0 <= a < b < |t| && t[a] == '[' && t[b] == ']'
  }

  lemma FirstTagSpanNone(t: string)
    requires FirstTagSpan(t).None?
    ensures !HasTagPair(t)
  {
    IndexOfCharSkips(t, '[', 0);
    var start := IndexOfChar(t, '[', 0);
    if start != -1 {
      IndexOfCharSkips(t, ']', start);
    }
  }

  /** Text without a `[...]` span is only trimmed, and no tag is recorded. */
  lemma NoTagsOnlyTrimmed(text: string)
    requires !HasTagPair(text)
    ensures RemoveCommands(text) == (Trim(text), map[])
  {
  }

  /** No `[...]` span is left in the result. */
  lemma {:induction false} RemoveLoopClears(t: string, commands: map<nat, seq<InlineTag>>)
    ensures !HasTagPair(RemoveLoop(t, commands).0)
    decreases |t|
  {
    if |t| == 0 {
    } else if FirstTagSpan(t).None? {
      FirstTagSpanNone(t);
    } else {
      var (start, end) := FirstTagSpan(t).value;
      RemoveLoopClears(CutTag(t, start, end), Append(commands, TagAt(t, start, end)));
    }
  }

  lemma RemovedTextHasNoTags(text: string)
    ensures !HasTagPair(RemoveCommands(text).0)
  {
    var t := RemoveLoop(text, map[]).0;
    RemoveLoopClears(text, map[]);
    TrimIsInfix(t);
    var i, j :| 0 <= i <= j <= |t| && Trim(t) == t[i..j] && AllWhitespace(t[..i]) && AllWhitespace(t[j..]);
    var r := Trim(t);
    assert RemoveCommands(text).0 == r;
    forall a, b | 0 <= a < b < |r|
      ensures !(r[a] == '[' && r[b] == ']')
    {
      assert r[a] == t[i + a] && r[b] == t[i + b];
    }
  }

  /** Tags are grouped under their start position, and each records a `]` after its `[`. */
  predicate WellGrouped(commands: map<nat, seq<InlineTag>>) {
    forall k :: k in commands ==> forall r :: r in commands[k] ==> r.startIndex == k && r.startIndex < r.endIndex
  }

  lemma {:induction false} RemoveLoopGroups(t: string, commands: map<nat, seq<InlineTag>>)
    requires WellGrouped(commands)
    ensures WellGrouped(RemoveLoop(t, commands).1)
    decreases |t|
  {
    if |t| > 0 && FirstTagSpan(t).Some? {
      var (start, end) := FirstTagSpan(t).value;
      var tag := TagAt(t, start, end);
      var next := Append(commands, tag);
      assert WellGrouped(next) by {
        forall k | k in next ensures forall r: InlineTag :: r in next[k] ==> r.startIndex == k && r.startIndex < r.endIndex {
          if k == start {
            assert next[k] == (if start in commands then commands[start] else []) + [tag];
          } else {
            assert next[k] == commands[k];
          }
        }
      }
      RemoveLoopGroups(CutTag(t, start, end), next);
    }
  }

  lemma RemovedTagsGrouped(text: string)
    ensures WellGrouped(RemoveCommands(text).1)
  {
    RemoveLoopGroups(text, map[]);
  }

  /** A bare word gets an undefined value; `k=v=w` keeps only `v`. */
  lemma InlinePropShapes(key: string, value: string, extra: string)
    requires '=' !in key && '=' !in value
    ensures InlineProp(key) == (key, None)
    ensures InlineProp(key + "=" + value + "=" + extra).0 == key
    ensures InlineProp(key + "=" + value + "=" + extra).1 == Some(value)
  {
    SplitNoSep(key, '=');
    var s := key + "=" + value + "=" + extra;
    assert s == key + ['='] + (value + "=" + extra);
    SplitAppend(key, value + "=" + extra, '=');
    assert value + "=" + extra == value + ['='] + extra;
    SplitAppend(value, extra, '=');
  }

  // ---------------------------------------------------------------- extractCommands

  predicate IsSkippedWhitespace(c: char) { c == ' ' || c == '\n' || c == '\t' }

  /** The scan of `extractCommands` from `index`, with `whitespaces` characters of whitespace
   *  seen since the last tag. */
  function ScanCommands(text: string, index: nat, whitespaces: nat, commands: seq<Command>): (r: Result<(int, seq<Command>)>)
    requires whitespaces <= index <= |text|
    decreases |text| - index
  {
    if index >= |text| then Ok((index - whitespaces, commands))
    else if IsSkippedWhitespace(text[index]) then
      ScanCommands(text, index + 1, whitespaces + 1, commands)
    else if text[index] == '[' then
      match TagStep(text, index)
        case Err(e) => Err(e)
        case Ok((next, command)) => ScanCommands(text, next, 0, commands + [command])
    else Ok((index - whitespaces, commands))
  }

  /** One tag of `extractCommands`: the `[` at `index` up to the first `]` after it is parsed
   *  as a command line; the result also gives the position after the `]`. */
  function TagStep(text: string, index: nat): (r: Result<(nat, Command)>)
    requires index < |text|
    ensures r.Ok? ==> index < r.value.0 <= |text| && text[r.value.0 - 1] == ']'
  {
    var end := IndexOfChar(text, ']', index);
    if end == -1 then Err("Unmatched [ at index " + NatToString(index))
    else match ExtractCommand(text[index..end + 1])
      case Err(e) => Err(e)
      case Ok(command) => Ok((end + 1, command))
  }

  predicate AllSkipped(s: string) {
    forall j :: 0 <= j < |s| ==> IsSkippedWhitespace(s[j])
  }

  /** `extractCommands` as a function of the text. */
  function LeadingCommands(text: string): Result<(int, seq<Command>)> {
    ScanCommands(text, 0, 0, [])
  }

  /** `extractCommands`: skip whitespace, parse each leading tag, stop at anything else. */
  method ExtractCommands(text: string) returns (r: Result<(int, seq<Command>)>)
    ensures r == LeadingCommands(text)
  {
    var commands: seq<Command> := [];
    var index := 0;
    var whitespaces := 0;
    while index < |text|
      invariant whitespaces <= index <= |text|
      invariant ScanCommands(text, index, whitespaces, commands) == LeadingCommands(text)
      decreases |text| - index
    {
      var c := text[index];
      if IsSkippedWhitespace(c) {
        ScanSpace(text, index, whitespaces, commands);
        whitespaces := whitespaces + 1;
        index := index + 1;
        continue;
      }
      if c == '[' {
        ScanTag(text, index, whitespaces, commands);
        whitespaces := 0;
        var end := IndexOfChar(text, ']', index);
        if end == -1 {
          return Err("Unmatched [ at index " + NatToString(index));
        }
        var command := ExtractCommand(text[index..end + 1]);
        if command.Err? {
          return Err(command.error);
        }
        commands := commands + [command.value];
        index := end + 1;
        continue;
      }
      break;
    }
    return Ok((index - whitespaces, commands));
  }

  /** What `extractCommands` reports from a scan: a length within the text that is 0 when no
   *  tag was found and otherwise just after a tag's `]`. */
  predicate LengthShape(text: string, r: Result<(int, seq<Command>)>) {
    r.Ok? ==> (0 <= r.value.0 <= |text| &&
               ((r.value.1 == [] && r.value.0 == 0) || (r.value.0 > 0 && text[r.value.0 - 1] == ']')))
  }

  /** The reported length is 0 or the position just after a tag's `]`; it lies within the
   *  text, and it is 0 when no tag was found. */
  lemma {:induction false} ScanLength(text: string, index: nat, whitespaces: nat, commands: seq<Command>, last: nat)
    requires whitespaces <= index <= |text|
    requires last == index - whitespaces
    requires (commands == [] && last == 0) || (0 < last <= |text| && text[last - 1] == ']')
    ensures LengthShape(text, ScanCommands(text, index, whitespaces, commands))
    decreases |text| - index, 1
  {
    if index < |text| {
      if IsSkippedWhitespace(text[index]) {
        ScanLength(text, index + 1, whitespaces + 1, commands, last);
      } else if text[index] == '[' {
        ScanLengthTag(text, index, whitespaces, commands);
      }
    }
  }

  /** At a `[` the scan either fails or goes on after the tag's `]` with one more command. */
  lemma {:induction false} ScanLengthTag(text: string, index: nat, whitespaces: nat, commands: seq<Command>)
    requires whitespaces <= index < |text| && text[index] == '['
    ensures LengthShape(text, ScanCommands(text, index, whitespaces, commands))
    decreases |text| - index, 0
  {
    ScanTag(text, index, whitespaces, commands);
    var step := TagStep(text, index);
    var r := ScanCommands(text, index, whitespaces, commands);
    if step.Ok? {
      var (next, command) := step.value;
      assert 0 < next <= |text| && text[next - 1] == ']';
      ScanLength(text, next, 0, commands + [command], next);
      assert r == ScanCommands(text, next, 0, commands + [command]);
    } else {
      assert r.Err?;
    }
  }

  /** Whitespace is counted and skipped. */
  lemma ScanSpace(text: string, index: nat, whitespaces: nat, commands: seq<Command>)
    requires whitespaces <= index < |text| && IsSkippedWhitespace(text[index])
    ensures ScanCommands(text, index, whitespaces, commands) == ScanCommands(text, index + 1, whitespaces + 1, commands)
  {
  }

  /** At a `[` the scan either fails with the tag's error or goes on after the tag. */
  lemma ScanTag(text: string, index: nat, whitespaces: nat, commands: seq<Command>)
    requires whitespaces <= index < |text| && text[index] == '['
    ensures var step := TagStep(text, index);
      ScanCommands(text, index, whitespaces, commands)
      == (if step.Err? then Err(step.error) else ScanCommands(text, step.value.0, 0, commands + [step.value.1]))
  {
  }

  lemma ExtractCommandsLength(text: string)
    ensures LengthShape(text, LeadingCommands(text))
  {
    ScanLength(text, 0, 0, [], 0);
  }

  /** A `[` after leading whitespace with no `]` after it is reported with its position. */
  lemma UnmatchedBracket(text: string, k: nat)
    requires k < |text| && AllSkipped(text[..k]) && text[k] == '['
    requires forall j :: k < j < |text| ==> text[j] != ']'
    ensures LeadingCommands(text) == Err("Unmatched [ at index " + NatToString(k))
  {
    SkipWhitespace(text, 0, 0, k);
    assert IndexOfChar(text, ']', k) == -1;
  }

  lemma {:induction false} SkipWhitespace(text: string, index: nat, whitespaces: nat, stop: nat)
    requires whitespaces <= index <= stop <= |text| && whitespaces == index
    requires AllSkipped(text[..stop])
    ensures ScanCommands(text, index, whitespaces, []) == ScanCommands(text, stop, stop, [])
    decreases stop - index
  {
    if index < stop {
      assert text[index] == text[..stop][index];
      SkipWhitespace(text, index + 1, whitespaces + 1, stop);
    }
  }

  // ---------------------------------------------------------------- extractStorage

  /** `extractStorage`: the `storage` argument of a tag line, unless it is empty or a `%`
   *  placeholder; `None` for lines that are not tags. The parse error of a malformed tag
   *  propagates. */
  function ExtractStorage(line: string): (r: Result<Option<string>>)
    ensures !ScriptLines.CheckIsCommand(line) ==> r == Ok(None)
    ensures r.Ok? && r.value.Some? ==> r.value.value != [] && r.value.value[0] != '%'
  {
    if !ScriptLines.CheckIsCommand(line) then Ok(None)
    else match ExtractCommand(line)
      case Err(e) => Err(e)
      case Ok(command) =>
        if "storage" in command.props && command.props["storage"] != [] then
          var storage := command.props["storage"];
          if storage[0] == '%' then Ok(None) else Ok(Some(storage))
        else Ok(None)
  }

  /** `[name storage=value]` yields the value verbatim unless it is a placeholder. */
  lemma StorageOfTag(name: string, value: string)
    requires name != [] && IsPlain(name) && ']' !in name
    requires value != [] && IsPlain(value) && ']' !in value
    ensures ExtractStorage("[" + name + " storage=" + value + "]") == Ok(if value[0] == '%' then None else Some(value))
  {
    var line := "[" + name + " storage=" + value + "]";
    assert line == "[" + name + " " + "storage" + "=" + value + "]";
    assert IsPlain("storage");
    CommandWithProp(name, "storage", value);
    assert line[0] == '[' && line[|line| - 1] == ']';
  }
}
