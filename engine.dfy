/** The engine class (`src/classes/KirikiriEngine.ts`): it loads a script, registers the script's
 *  subroutines, and runs lines one by one — labels call subroutines, tags call macros, blocks
 *  or command handlers, and everything else is text. */
module Kirikiri {
  import opened Wrappers
  import opened JsString
  import opened CommandParser
  import Constants
  import ScriptLines
  import Resolvers
  import Files
  import Dispatch
  import Macro
  import Storage
  import IScript
  import Schemas

  /** `EngineState`. */
  datatype EngineState =
    | Uninitialized | Initialized | Running | LoadingFile | Paused | CancelAllSubroutines | CancelSubroutine

  /** `currentData`: `null` is `None`. */
  datatype CurrentData = CurrentData(script: Option<string>, subroutine: Option<string>, line: Option<string>)

  /** How a call ends: normally, with an exception, suspended on an event only an outside caller
   *  can dispatch, or still running when its fuel ran out. */
  datatype Outcome = Normal | Threw(message: string) | Waiting | Exhausted

  /** What the engine reads from outside: the game's file tree, the text a fetch of a path
   *  yields (`None` for a failed response), and the truth value a parsed `if` expression
   *  evaluates to (an evaluation error counts as false). */
  datatype Env = Env(files: Files.FileTree, root: string, fetch: string -> Option<string>, condition: string -> bool)

  const NoScript: string := "No current script set"

  /** The error of reading a line of an empty line list. */
  const ReadPastEnd: string := Macro.ReadPastEnd

  /** `findFileInTree` needs an options object. The engine class passes none, which makes every
   *  lookup throw (see `Files.FindFileInTree`); the model passes `{ recursive: true }`, as the
   *  legacy engine does. */
  const LookupOptions: Option<Files.SearchOptions> := Some(Files.SearchOptions(Some(true), None))

  /** The lookup `loadFile` performs as written: `findFileInTree(filename, files)` with no
   *  options object, which throws whatever the name and the tree. */
  method LookupAsWritten(filename: string, files: Files.FileTree) returns (r: Result<seq<string>>)
    ensures r.Err?
  {
    r := Files.FindFileInTree(filename, files, None);
  }

  /** The checks `getFullFilePath` makes on a lookup's answer: exactly one path, returned
   *  under the game root. */
  function FullPathOf(filename: string, root: string, found: Result<seq<string>>): Result<string> {
    match found
    case Err(e) => Err(e)
    case Ok(paths) =>
      if |paths| == 0 then Err("File " + filename + " not found")
      else if |paths| > 1 then Err("File " + filename + " found multiple times: " + JoinComma(paths))
      else Ok(root + "/" + paths[0])
  }

  /** `getFullFilePath` as written: like `loadFile` it calls `findFileInTree` with no options
   *  object, so it throws whatever the name and the tree. */
  method FullFilePathAsWritten(filename: string, env: Env) returns (r: Result<string>)
    ensures r.Err?
  {
    var found := Files.FindFileInTree(filename, env.files, None);
    r := FullPathOf(filename, env.root, found);
  }

  /** `getFullFilePath` with the options object `loadFile` is given in this model: the game
   *  root, a slash and the one path found, or an error naming the file. */
  method FullFilePath(filename: string, env: Env) returns (r: Result<string>)
    ensures var found := Files.FoundIn(env.files.entries, "", filename, true, false);
      && (r.Ok? <==> |found| == 1)
      && (r.Ok? ==> r.value == env.root + "/" + found[0])
      && (found == [] ==> r == Err("File " + filename + " not found"))
  {
    var found := Files.FindFileInTree(filename, env.files, LookupOptions);
    r := FullPathOf(filename, env.root, found);
  }

  /** The path `callCommand` hands to `loadFile` holds a slash, and `loadFile` compares it with
   *  whole entry names: in a tree whose names hold no slash, the call loads nothing. */
  lemma FullPathNeverLoads(root: string, path: string, env: Env)
    requires Files.NoSlashNames(env.files.entries)
    ensures ScriptText(root + "/" + path, env).None?
  {
    var file := root + "/" + path;
    assert file[|root|] == '/';
    Files.SlashedNameNotFound(env.files.entries, "", file, true);
  }

  /** A truthy `currentData.script`. */
  function ScriptName(data: CurrentData): (r: Option<string>)
    ensures r.Some? <==> data.script.Some? && data.script.value != ""
    ensures r.Some? ==> r == data.script
  {
    if data.script.Some? && data.script.value != "" then data.script else None
  }

  /** `a.join(', ')`. */
  function JoinComma(parts: seq<string>): string {
    if parts == [] then "" else if |parts| == 1 then parts[0] else parts[0] + ", " + JoinComma(parts[1..])
  }

  // ---------------------------------------------------------------- subroutine registration

  /** The number of leading characters of `s` that are not line terminators. */
  function LineRun(s: string): (n: nat)
    ensures n <= |s|
    ensures forall k :: 0 <= k < n ==> !IsLineTerminator(s[k])
    ensures n < |s| ==> IsLineTerminator(s[n])
  {
    if s == [] || IsLineTerminator(s[0]) then 0 else 1 + LineRun(s[1..])
  }

  /** `/^\*(.+)/.exec(line)[1]`: the characters after the `*` up to the first line terminator;
   *  no match when that is empty. */
  function LabelText(line: string): (r: Option<string>)
    requires StartsWith(line, "*")
    ensures r.Some? ==> r.value != [] && 1 + |r.value| <= |line| && r.value == line[1..1 + |r.value|]
    ensures r.None? <==> |line| == 1 || IsLineTerminator(line[1])
  {
    var n := LineRun(line[1..]);
    if n == 0 then None else Some(line[1..1 + n])
  }

  /** The body of the subroutine labelled at `index`: the lines after the label, up to (not
   *  including) the line `findSubroutineEndIndex` answers. */
  function Body(lines: seq<string>, index: nat): seq<string>
    requires index < |lines|
  {
    Slice(lines, index + 1, Resolvers.SubroutineEnd(index, lines))
  }

  /** The loop of `registerAllSubroutines` from line `i`: the table built so far and the error
   *  that stopped it, if any. Each `*label` line stores its body under the trimmed label, so a
   *  later label of the same name replaces an earlier one. */
  function Register(lines: seq<string>, i: nat, table: map<string, seq<string>>): (r: (map<string, seq<string>>, Option<string>))
    decreases |lines| - i
  {
    if i >= |lines| then (table, None)
    else if StartsWith(lines[i], "*") then
      match LabelText(lines[i])
      case None => (table, Some("Invalid jump point line: " + lines[i]))
      case Some(t) => Register(lines, i + 1, table[Trim(t) := Body(lines, i)])
    else Register(lines, i + 1, table)
  }

  /** Overwriting an entry of a map that already overwrote it is a single overwrite. */
  lemma UpdateTwice<K, V>(m: map<K, V>, k: K, m1: map<K, V>, v: V)
    requires k in m1 && m1 == m[k := m1[k]]
    ensures m1[k := v] == m[k := v]
  {
  }

  /** A well-formed label line stores its body and registration goes on with the next line. */
  lemma RegisterLabel(lines: seq<string>, i: nat, table: map<string, seq<string>>)
    requires i < |lines| && StartsWith(lines[i], "*") && LabelText(lines[i]).Some?
    ensures Register(lines, i, table) == Register(lines, i + 1, table[Trim(LabelText(lines[i]).value) := Body(lines, i)])
  {
  }

  /** Any other line leaves the table as it is. */
  lemma RegisterOther(lines: seq<string>, i: nat, table: map<string, seq<string>>)
    requires i < |lines| && (lines[i] == [] || lines[i][0] != '*')
    ensures Register(lines, i, table) == Register(lines, i + 1, table)
  {
  }

  /** The outcome of registering `lines` once a script is set. */
  function Registration(lines: seq<string>): (map<string, seq<string>>, Outcome) {
    if lines == [] then (map[], Threw(ReadPastEnd))
    else
      var (table, error) := Register(lines, 0, map[]);
      (table, if error.Some? then Threw(error.value) else Normal)
  }

  /** The trimmed label of line `k`, if it is a well-formed label line. */
  function LabelAt(lines: seq<string>, k: nat): Option<string>
    requires k < |lines|
  {
    if StartsWith(lines[k], "*") && LabelText(lines[k]).Some? then Some(Trim(LabelText(lines[k]).value)) else None
  }

  /** No later line of the script carries the label of line `j`. */
  predicate LastLabel(lines: seq<string>, j: nat)
    requires j < |lines|
  {
    forall j' :: j < j' < |lines| ==> LabelAt(lines, j') != LabelAt(lines, j)
  }

  /** Registering from line `i` stops exactly at a bare `*` line. */
  lemma {:induction false} RegisterStops(lines: seq<string>, i: nat, table: map<string, seq<string>>)
    ensures Register(lines, i, table).1.None? <==>
      forall j :: i <= j < |lines| && StartsWith(lines[j], "*") ==> LabelText(lines[j]).Some?
    decreases |lines| - i
  {
    if i < |lines| {
      if !StartsWith(lines[i], "*") {
        RegisterStops(lines, i + 1, table);
      } else if LabelText(lines[i]).Some? {
        RegisterStops(lines, i + 1, table[Trim(LabelText(lines[i]).value) := Body(lines, i)]);
      }
    }
  }

  /** Without a bare `*` line, the entries are those already present plus one per label. */
  lemma {:induction false} RegisterKeys(lines: seq<string>, i: nat, table: map<string, seq<string>>)
    requires Register(lines, i, table).1.None?
    ensures forall k :: k in Register(lines, i, table).0 <==>
      k in table || exists j :: i <= j < |lines| && LabelAt(lines, j) == Some(k)
    decreases |lines| - i
  {
    if i < |lines| {
      if !StartsWith(lines[i], "*") {
        assert LabelAt(lines, i).None?;
        RegisterKeys(lines, i + 1, table);
      } else {
        var name := Trim(LabelText(lines[i]).value);
        assert LabelAt(lines, i) == Some(name);
        var next := table[name := Body(lines, i)];
        RegisterKeys(lines, i + 1, next);
        forall k | k in Register(lines, i, table).0 && k !in table && k != name
          ensures exists j :: i <= j < |lines| && LabelAt(lines, j) == Some(k)
        {
          var j :| i + 1 <= j < |lines| && LabelAt(lines, j) == Some(k);
        }
      }
    }
  }

  /** Without a bare `*` line, a name not labelled from `i` on keeps its entry. */
  lemma {:induction false} RegisterKeeps(lines: seq<string>, i: nat, table: map<string, seq<string>>, k: string)
    requires Register(lines, i, table).1.None?
    requires k in table && forall j :: i <= j < |lines| ==> LabelAt(lines, j) != Some(k)
    ensures k in Register(lines, i, table).0 && Register(lines, i, table).0[k] == table[k]
    decreases |lines| - i
  {
    if i < |lines| {
      assert LabelAt(lines, i) != Some(k);
      if !StartsWith(lines[i], "*") {
        RegisterKeeps(lines, i + 1, table, k);
      } else {
        var name := Trim(LabelText(lines[i]).value);
        RegisterKeeps(lines, i + 1, table[name := Body(lines, i)], k);
      }
    }
  }

  /** Without a bare `*` line, a label's entry is the body of its LAST occurrence. */
  lemma {:induction false} RegisterLastWins(lines: seq<string>, i: nat, table: map<string, seq<string>>, j: nat)
    requires Register(lines, i, table).1.None?
    requires i <= j < |lines| && LabelAt(lines, j).Some? && LastLabel(lines, j)
    ensures LabelAt(lines, j).value in Register(lines, i, table).0
    ensures Register(lines, i, table).0[LabelAt(lines, j).value] == Body(lines, j)
    decreases |lines| - i
  {
    if !StartsWith(lines[i], "*") {
      RegisterLastWins(lines, i + 1, table, j);
    } else {
      var name := Trim(LabelText(lines[i]).value);
      if j == i {
        assert LabelAt(lines, i) == Some(name);
        RegisterKeeps(lines, i + 1, table[name := Body(lines, i)], name);
      } else {
        RegisterLastWins(lines, i + 1, table[name := Body(lines, i)], j);
      }
    }
  }

  /** What `registerAllSubroutines` leaves for a script: it throws exactly for an empty script
   *  or a bare `*` line; otherwise the table holds one entry per name, the body of the name's
   *  last occurrence. */
  lemma RegistrationTable(lines: seq<string>)
    ensures Registration(lines).1.Normal? <==>
      lines != [] && forall j :: 0 <= j < |lines| && StartsWith(lines[j], "*") ==> LabelText(lines[j]).Some?
    ensures Registration(lines).1.Normal? ==>
      && (forall k :: k in Registration(lines).0 <==> exists j :: 0 <= j < |lines| && LabelAt(lines, j) == Some(k))
      && (forall j :: 0 <= j < |lines| && LabelAt(lines, j).Some? && LastLabel(lines, j) ==>
            Registration(lines).0[LabelAt(lines, j).value] == Body(lines, j))
  {
    RegisterStops(lines, 0, map[]);
    if lines != [] && Register(lines, 0, map[]).1.None? {
      RegisterKeys(lines, 0, map[]);
      forall j | 0 <= j < |lines| && LabelAt(lines, j).Some? && LastLabel(lines, j)
        ensures Registration(lines).0[LabelAt(lines, j).value] == Body(lines, j)
      {
        RegisterLastWins(lines, 0, map[], j);
      }
    }
  }

  /** A subroutine ends BEFORE the line where its depth returns to zero, so an open-ended one
   *  (no `[return]` or `[s]` after it) never includes the script's last line. */
  lemma OpenEndedSubroutineDropsLastLine()
    ensures var lines := ["*a", "x", "[return]", "*b", "y"];
      Registration(lines).0 == map["a" := ["x"], "b" := []]
  {
    var lines := ["*a", "x", "[return]", "*b", "y"];
    assert StartsWith(lines[0], "*") && StartsWith(lines[3], "*");
    assert lines[1][..1] == "x" && lines[2][..1] == "[" && lines[4][..1] == "y";
    assert StartsWith(lines[2], "[return]") && !StartsWith(lines[1], "[s]") && !StartsWith(lines[1], "[return]");
    assert !StartsWith(lines[4], "[s]") && !StartsWith(lines[4], "[return]");
    assert LineRun("a") == 1 && LineRun("b") == 1;
    assert lines[0][1..] == "a" && lines[3][1..] == "b";
    assert LineRun(lines[0][1..]) == 1 && LineRun(lines[3][1..]) == 1;
    assert lines[0][1..2] == "a" && lines[3][1..2] == "b";
    assert LabelText(lines[0]) == Some("a") && LabelText(lines[3]) == Some("b");
    TrimNoEdgeWhitespace("a");
    TrimNoEdgeWhitespace("b");
    assert Resolvers.SubroutineEnd(0, lines) == 2;
    assert Resolvers.SubroutineEnd(3, lines) == 4;
    assert Body(lines, 0) == ["x"] && Body(lines, 3) == [];
  }

  /** The script's last line never belongs to a subroutine body. */
  lemma LastLineNeverInBody(lines: seq<string>, index: nat)
    requires index < |lines| && StartsWith(lines[index], "*")
    ensures Body(lines, index) == [] || index + 1 + |Body(lines, index)| < |lines|
  {
  }

  /** The stack discipline of subroutine calls: frames are only pushed above the caller's, and
   *  when a call returns or throws, every frame it leaves behind is one counted in `leaked`. */
  predicate Framed(prevStack: seq<string>, prevLeaked: nat, stack: seq<string>, leaked: nat, outcome: Outcome) {
    && prevStack <= stack
    && prevLeaked <= leaked
    && (outcome.Normal? || outcome.Threw? ==> |stack| == |prevStack| + (leaked - prevLeaked))
  }

  lemma FramedCompose(s0: seq<string>, l0: nat, s1: seq<string>, l1: nat, s2: seq<string>, l2: nat, outcome: Outcome)
    requires Framed(s0, l0, s1, l1, Normal) && Framed(s1, l1, s2, l2, outcome)
    ensures Framed(s0, l0, s2, l2, outcome)
  {
    assert s0 == s2[..|s0|] by {
      assert s0 == s1[..|s0|] && s1 == s2[..|s1|];
    }
  }

  /** `ifCommand`'s strict schema over `{...props, lines}`: `exp` is required and nothing but
   *  `exp` and `lines` is allowed. */
  predicate IfPropsValid(props: map<string, string>) {
    "exp" in props && props.Keys <= {"exp", "lines"}
  }

  /** `callCommand`'s strict schema: `storage` is required, `target` optional. */
  predicate CallPropsValid(props: map<string, string>) {
    "storage" in props && props.Keys <= {"storage", "target"}
  }

  /** What a storage-writing handler leaves in `commandStorage`: the merged record when the
   *  properties validate, the old record when the handler throws. */
  function Merged(p: Schemas.Parsed<Storage.CommandStorage>, s: Storage.CommandStorage): Storage.CommandStorage {
    if p.Success? then p.value else s
  }

  /** The storage a leaf command leaves behind: `delay`, `rclick` and `move` merge their
   *  validated properties; no other handler of the model writes the storage. */
  function LeafStorage(key: string, props: map<string, string>, s: Storage.CommandStorage): Storage.CommandStorage {
    if key == "delay" then Merged(Storage.Delay(s, props), s)
    else if key == "rclick" then Merged(Storage.RightClick(s, props), s)
    else if key == "move" then Merged(Storage.Move(s, props), s)
    else s
  }

  /** The arguments a nested macro receives: a key read as `undefined` is absent. */
  function Defined(props: map<string, Option<string>>): (r: map<string, string>)
    ensures forall k :: k in r <==> k in props && props[k].Some?
  {
    map k | k in props && props[k].Some? :: props[k].value
  }

  /** The text `loadFile` fetches for `filename`: the one path the (corrected) lookup finds,
   *  under `/ojamajo/`; `None` when the lookup finds no path or several, or the fetch fails. */
  function ScriptText(filename: string, env: Env): Option<string> {
    var found := Files.FoundIn(env.files.entries, "", filename, true, false);
    if |found| == 1 then env.fetch("/ojamajo/" + found[0]) else None
  }

  /** `loadFile` returns normally: the script is fetched, its name without extension is not
   *  empty, and its subroutines register. */
  predicate Loads(filename: string, env: Env) {
    && ScriptText(filename, env).Some?
    && Files.RemoveFileExtension(filename) != ""
    && Registration(ScriptLines.SplitAndSanitize(ScriptText(filename, env).value)).1.Normal?
  }

  /** The engine's visible fields at one moment. */
  datatype Snapshot = Snapshot(
    state: EngineState, currentData: CurrentData, subroutines: map<string, map<string, seq<string>>>,
    macros: map<string, Macro.MacroDef>, callStack: seq<string>, commandCallCount: map<string, nat>,
    commandStorage: Storage.CommandStorage, emitted: seq<Constants.EngineEvent>)

  /** The line is a tag line for the run loop: it starts with `[` or `@`. */
  predicate IsTagLine(line: string) {
    line != [] && (line[0] == '[' || line[0] == '@')
  }

  /** The run loop continues after the closer of the block opened at `index`. */
  predicate JumpsPastBlock(lines: seq<string>, index: nat, next: nat)
    requires index < |lines|
  {
    var extracted := ExtractCommand(lines[index]);
    && extracted.Ok? && extracted.value.name.Some?
    && Resolvers.ClosingIndex(extracted.value.name.value, index, lines) == Ok(next - 1)
  }

  /** The body registered under `name` for the current script, if any. */
  function BodyOf(data: CurrentData, subroutines: map<string, map<string, seq<string>>>, name: string): Option<seq<string>> {
    var script := ScriptName(data);
    if script.Some? && script.value in subroutines && name in subroutines[script.value]
    then Some(subroutines[script.value][name])
    else None
  }

  /** A forced call while a subroutine is active: the running one must be cancelled first. */
  predicate Cancels(data: CurrentData, force: bool) {
    force && data.subroutine.Some? && data.subroutine.value != ""
  }

  /** The current subroutine after a pop: the new top of the stack, `null` when it is empty or
   *  the empty name. */
  function TopName(stack: seq<string>): Option<string> {
    if stack == [] || stack[|stack| - 1] == "" then None else Some(stack[|stack| - 1])
  }

  class Engine {
    var state: EngineState
    var currentData: CurrentData
    /** Subroutine bodies by script, then by label. */
    var subroutines: map<string, map<string, seq<string>>>
    var macros: map<string, Macro.MacroDef>
    var callStack: seq<string>
    var commandCallCount: map<string, nat>
    var commandStorage: Storage.CommandStorage
    /** The events dispatched on the window, in order. */
    var emitted: seq<Constants.EngineEvent>
    /** How many frames were pushed by subroutine calls that threw before popping them. */
    ghost var leaked: nat

    function Snap(): Snapshot
      reads this
    {
      Snapshot(state, currentData, subroutines, macros, callStack, commandCallCount, commandStorage, emitted)
    }

    constructor ()
      ensures state == Initialized && currentData == CurrentData(None, None, None)
      ensures subroutines == map[] && macros == map[] && callStack == [] && commandCallCount == map[]
      ensures commandStorage == Storage.InitialStorage && emitted == [] && leaked == 0
    {
      state := Initialized;
      currentData := CurrentData(None, None, None);
      subroutines := map[];
      macros := map[];
      callStack := [];
      commandCallCount := map[];
      commandStorage := Storage.InitialStorage;
      emitted := [];
      leaked := 0;
    }

    /** `setState`: switching to RUNNING dispatches the continue event a paused run waits for. */
    method SetState(s: EngineState)
      modifies this
      ensures state == s
      ensures emitted == old(emitted) + (if s == Running then [Constants.Continue] else [])
      ensures currentData == old(currentData) && subroutines == old(subroutines) && macros == old(macros)
      ensures callStack == old(callStack) && commandCallCount == old(commandCallCount)
      ensures commandStorage == old(commandStorage) && leaked == old(leaked)
    {
      state := s;
      if s == Running {
        emitted := emitted + [Constants.Continue];
      }
    }

    /** `updateCommandCallCount`: an absent (or zero) count starts at zero; then one is added.
     *  An undefined name is counted under `"undefined"`. */
    method UpdateCommandCallCount(command: Option<string>)
      modifies this
      ensures var key := PropertyKey(command);
        commandCallCount == old(commandCallCount)[key := (if key in old(commandCallCount) then old(commandCallCount)[key] else 0) + 1]
      ensures state == old(state) && currentData == old(currentData) && subroutines == old(subroutines)
      ensures macros == old(macros) && callStack == old(callStack) && commandStorage == old(commandStorage)
      ensures emitted == old(emitted) && leaked == old(leaked)
    {
      var key := PropertyKey(command);
      if key !in commandCallCount || commandCallCount[key] == 0 {
        commandCallCount := commandCallCount[key := 0];
      }
      commandCallCount := commandCallCount[key := commandCallCount[key] + 1];
    }

    /** `registerAllSubroutines`: without a script name it throws; otherwise the script's table
     *  is reset and filled label by label (see `Register`), and an empty line list throws. */
    method RegisterAllSubroutines(lines: seq<string>) returns (outcome: Outcome)
      modifies this
      ensures ScriptName(old(currentData)).None? ==> outcome == Threw(NoScript) && subroutines == old(subroutines)
      ensures ScriptName(old(currentData)).Some? ==>
        && subroutines == old(subroutines)[old(currentData).script.value := Registration(lines).0]
        && outcome == Registration(lines).1
      ensures outcome.Normal? || outcome.Threw?
      ensures state == old(state) && currentData == old(currentData) && macros == old(macros)
      ensures callStack == old(callStack) && commandCallCount == old(commandCallCount)
      ensures commandStorage == old(commandStorage) && emitted == old(emitted) && leaked == old(leaked)
    {
      if ScriptName(currentData).None? {
        return Threw(NoScript);
      }
      var script := currentData.script.value;
      subroutines := subroutines[script := map[]];
      if lines == [] {
        return Threw(ReadPastEnd);
      }
      var table: map<string, seq<string>> := map[];
      var index := 0;
      while index < |lines|
        invariant 0 <= index <= |lines|
        invariant Register(lines, index, table) == Register(lines, 0, map[])
        invariant subroutines == old(subroutines)[script := table]
        invariant state == old(state) && currentData == old(currentData) && macros == old(macros)
        invariant callStack == old(callStack) && commandCallCount == old(commandCallCount)
        invariant commandStorage == old(commandStorage) && emitted == old(emitted) && leaked == old(leaked)
        decreases |lines| - index
      {
        var line := lines[index];
        if line != [] && line[0] == '*' {
          assert StartsWith(line, "*");
          var closing := Resolvers.FindSubroutineEndIndex(index, lines);
          var name := LabelText(line);
          if name.None? {
            assert Register(lines, index, table) == (table, Some("Invalid jump point line: " + line));
            return Threw("Invalid jump point line: " + line);
          }
          RegisterLabel(lines, index, table);
          table := table[Trim(name.value) := Slice(lines, index + 1, closing)];
          UpdateTwice(old(subroutines), script, subroutines, table);
          subroutines := subroutines[script := table];
        } else {
          RegisterOther(lines, index, table);
        }
        index := index + 1;
      }
      return Normal;
    }

    /** `loadFile`: find the file (exactly one match), fetch it, split and sanitize its text,
     *  make its name without extension the current script, and register its subroutines. */
    method LoadFile(filename: string, env: Env) returns (lines: seq<string>, outcome: Outcome)
      modifies this
      ensures outcome.Normal? || outcome.Threw?
      ensures var found := Files.FoundIn(env.files.entries, "", filename, true, false);
        && (|found| != 1 ==> outcome.Threw? && unchanged(this))
        && (|found| == 1 && env.fetch("/ojamajo/" + found[0]).None? ==> outcome.Threw? && unchanged(this))
        && (|found| == 1 && env.fetch("/ojamajo/" + found[0]).Some? ==>
              && lines == ScriptLines.SplitAndSanitize(env.fetch("/ojamajo/" + found[0]).value)
              && currentData == old(currentData).(script := Some(Files.RemoveFileExtension(filename))))
      ensures ScriptText(filename, env).Some? ==>
        var name := Files.RemoveFileExtension(filename);
        && (name == "" ==> outcome == Threw(NoScript) && subroutines == old(subroutines))
        && (name != "" ==> subroutines == old(subroutines)[name := Registration(lines).0] && outcome == Registration(lines).1)
      ensures state == old(state) && macros == old(macros) && callStack == old(callStack)
      ensures commandCallCount == old(commandCallCount) && commandStorage == old(commandStorage)
      ensures emitted == old(emitted) && leaked == old(leaked)
    {
      lines := [];
      var found := Files.FindFileInTree(filename, env.files, LookupOptions);
      var paths := found.value;
      if |paths| == 0 {
        return [], Threw("File " + filename + " not found");
      }
      if |paths| > 1 {
        return [], Threw("File " + filename + " found multiple times: " + JoinComma(paths));
      }
      var text := env.fetch("/ojamajo/" + paths[0]);
      if text.None? {
        return [], Threw("Failed to load file");
      }
      lines := ScriptLines.SplitAndSanitize(text.value);
      currentData := currentData.(script := Some(Files.RemoveFileExtension(filename)));
      outcome := RegisterAllSubroutines(lines);
    }
    // ---------------------------------------------------------------- the run loop

    /** `runLines`: before each line, a PAUSED engine waits for the continue event, and a
     *  CANCEL_SUBROUTINE engine returns (switching back to RUNNING, with the cancelled event,
     *  once the call stack is empty). Every error of a line is caught and the loop moves on;
     *  only an empty line list throws. */
    method RunLines(lines: seq<string>, fuel: nat, env: Env) returns (outcome: Outcome)
      modifies this
      decreases fuel, 0
      ensures Framed(old(callStack), old(leaked), callStack, leaked, outcome)
      ensures outcome.Threw? ==> lines == [] && outcome == Threw(ReadPastEnd)
      ensures old(state) == Paused ==> outcome == Waiting && unchanged(this)
      ensures old(state) == CancelSubroutine ==> outcome == Normal && leaked == old(leaked)
      ensures old(state) == CancelSubroutine && old(callStack) == [] ==>
        Snap() == old(Snap()).(state := Running, emitted := old(emitted) + [Constants.SubroutineCancelled])
      ensures old(state) == CancelSubroutine && old(callStack) != [] ==> unchanged(this)
      ensures lines == [] && old(state) != Paused && old(state) != CancelSubroutine ==>
        outcome == Threw(ReadPastEnd) && unchanged(this)
      ensures lines != [] && fuel == 0 && old(state) != Paused && old(state) != CancelSubroutine ==>
        outcome == Exhausted && unchanged(this)
    {
      var index: nat := 0;
      var budget: nat := fuel;
      ghost var first := true;
      while true
        invariant lines != [] ==> index < |lines|
        invariant budget <= fuel
        invariant Framed(old(callStack), old(leaked), callStack, leaked, Normal)
        invariant first ==> unchanged(this) && index == 0
        invariant fuel == 0 ==> first
        invariant !first ==> old(state) != Paused && old(state) != CancelSubroutine && lines != []
        decreases budget
      {
        if state == Paused {
          return Waiting;
        }
        if state == CancelSubroutine {
          if callStack == [] {
            state := Running;
            emitted := emitted + [Constants.SubroutineCancelled];
          }
          return Normal;
        }
        if index >= |lines| {
          return Threw(ReadPastEnd);
        }
        if budget == 0 {
          return Exhausted;
        }
        budget := budget - 1;
        ghost var stack, count := callStack, leaked;
        var next, out := StepLine(lines, index, budget, env);
        FramedCompose(old(callStack), old(leaked), stack, count, callStack, leaked, out);
        first := false;
        if !out.Normal? {
          return out;
        }
        if next >= |lines| {
          return Normal;
        }
        index := next;
      }
    }

    /** One iteration of `runLines` for the line at `index`: where the loop goes next. A
     *  `*label` line calls the subroutine; a tag line is counted, then calls a macro, runs a
     *  block or calls a handler; any other line is text, whose output throws at once (the
     *  renderer has no `setText`), so it only becomes `currentData.line`. */
    method StepLine(lines: seq<string>, index: nat, fuel: nat, env: Env) returns (next: nat, outcome: Outcome)
      requires index < |lines|
      modifies this
      decreases fuel, 9
      ensures next <= |lines| && !outcome.Threw?
      ensures Framed(old(callStack), old(leaked), callStack, leaked, outcome)
      ensures outcome.Normal? ==> next == index + 1 || JumpsPastBlock(lines, index, next)
      ensures !IsTagLine(lines[index]) && !StartsWith(lines[index], "*") ==>
        && next == index + 1 && outcome == Normal && leaked == old(leaked)
        && Snap() == old(Snap()).(currentData := old(currentData).(line := Some(lines[index])))
      ensures IsTagLine(lines[index]) && ExtractCommand(lines[index]).Err? ==>
        && next == index + 1 && outcome == Normal && leaked == old(leaked)
        && Snap() == old(Snap()).(currentData := old(currentData).(line := Some(lines[index])))
      ensures StartsWith(lines[index], "*") ==> next == index + 1 && !outcome.Threw?
      ensures StartsWith(lines[index], "*") && BodyOf(old(currentData), old(subroutines), Trim(lines[index][1..])).None? ==>
        && outcome == Normal && leaked == old(leaked)
        && Snap() == old(Snap()).(currentData := old(currentData).(line := Some(lines[index])))
      ensures StartsWith(lines[index], "*") && BodyOf(old(currentData), old(subroutines), Trim(lines[index][1..])) == Some([])
              && old(state) != Paused && old(state) != CancelSubroutine ==>
        && outcome == Normal && callStack == old(callStack) + [Trim(lines[index][1..])]
        && currentData.subroutine == Some(Trim(lines[index][1..]))
    {
      var line := lines[index];
      currentData := currentData.(line := Some(line));
      if line != [] && line[0] == '*' {
        var out := RunSubroutine(Trim(line[1..]), false, fuel, env);
        return index + 1, if out.Threw? then Normal else out;
      }
      if !IsTagLine(line) {
        return index + 1, Normal;
      }
      var extracted := ExtractCommand(line);
      if extracted.Err? {
        return index + 1, Normal;
      }
      UpdateCommandCallCount(extracted.value.name);
      next, outcome := StepCommand(lines, index, extracted.value, fuel, env);
    }

    /** A tag line whose command parsed (and was counted): it calls a macro, runs a block or
     *  calls a handler. */
    method StepCommand(lines: seq<string>, index: nat, cmd: Command, fuel: nat, env: Env) returns (next: nat, outcome: Outcome)
      requires index < |lines|
      modifies this
      decreases fuel, 8
      ensures next <= |lines| && !outcome.Threw?
      ensures Framed(old(callStack), old(leaked), callStack, leaked, outcome)
      ensures outcome.Normal? ==> next == index + 1 || (cmd.name.Some? && Resolvers.ClosingIndex(cmd.name.value, index, lines) == Ok(next - 1))
      ensures PropertyKey(cmd.name) in old(macros) ==> next == index + 1
      ensures PropertyKey(cmd.name) in old(macros) && old(macros)[PropertyKey(cmd.name)].steps == [] ==>
        outcome == Normal && unchanged(this)
    {
      var key := PropertyKey(cmd.name);
      if key in macros {
        outcome := ReplayMacro(macros[key], cmd.props, fuel, env);
        return index + 1, outcome;
      }
      if ScriptLines.CheckIsBlockCommand(cmd.name) {
        next, outcome := StepBlock(lines, index, cmd, fuel, env);
        return;
      }
      outcome := RunLeaf(key, cmd.props, fuel, env);
      return index + 1, outcome;
    }

    /** A block opener in the run loop continues on the next line or after its closer. */
    method StepBlock(lines: seq<string>, index: nat, cmd: Command, fuel: nat, env: Env) returns (next: nat, outcome: Outcome)
      requires index < |lines| && cmd.name.Some? && ScriptLines.CheckIsBlockCommand(cmd.name)
      modifies this
      decreases fuel, 7
      ensures next <= |lines| && !outcome.Threw?
      ensures Framed(old(callStack), old(leaked), callStack, leaked, outcome)
      ensures outcome.Normal? ==> next == index + 1 || Resolvers.ClosingIndex(cmd.name.value, index, lines) == Ok(next - 1)
    {
      next, outcome := RunBlock(lines, index, cmd, fuel, env);
    }

    /** A block in the run loop: find its closer (an error there is caught: next line), then
     *  define a macro, run an `iscript` or an `if`, or skip a `link` or any other block, and
     *  continue after the closer. An error in the block's handler is caught and the loop
     *  continues with the line after the opener, that is, inside the block. */
    method RunBlock(lines: seq<string>, index: nat, cmd: Command, fuel: nat, env: Env) returns (next: nat, outcome: Outcome)
      requires index < |lines| && cmd.name.Some? && ScriptLines.CheckIsBlockCommand(cmd.name)
      modifies this
      decreases fuel, 6
      ensures next <= |lines| && !outcome.Threw?
      ensures Framed(old(callStack), old(leaked), callStack, leaked, outcome)
      ensures var closing := Resolvers.ClosingIndex(cmd.name.value, index, lines);
        && (closing.Err? ==> next == index + 1 && outcome == Normal && unchanged(this))
        && (closing.Ok? && outcome.Normal? ==> next == index + 1 || next == closing.value + 1)
        && (closing.Ok? && cmd.name.value !in {"macro", "iscript", "if"} ==>
              next == closing.value + 1 && outcome == Normal && unchanged(this))
        && (closing.Ok? && cmd.name == Some("iscript") ==>
              outcome == Normal && unchanged(this) && next == (if cmd.props == map[] then closing.value + 1 else index + 1))
        && (closing.Ok? && cmd.name == Some("if") && !IfPropsValid(cmd.props) ==>
              next == index + 1 && outcome == Normal && unchanged(this))
        && (closing.Ok? && cmd.name == Some("if") && IfPropsValid(cmd.props)
            && !env.condition(IScript.Parse(cmd.props["exp"])) ==>
              next == closing.value + 1 && outcome == Normal && unchanged(this))
        && (closing.Ok? && cmd.name == Some("macro") ==>
              match Macro.Define(cmd.props, Slice(lines, index + 1, closing.value), old(macros), false, fuel)
              case Created(name, def) =>
                outcome == Normal && next == closing.value + 1 && Snap() == old(Snap()).(macros := old(macros)[name := def])
              case Rejected(_) => outcome == Normal && next == index + 1 && unchanged(this)
              case Diverges => outcome == Exhausted && unchanged(this))
    {
      var name := cmd.name.value;
      var closing := Resolvers.FindClosingBlockCommandIndex(name, index, lines);
      if closing.Err? {
        return index + 1, Normal;
      }
      var c := closing.value;
      var block := Slice(lines, index + 1, c);
      next := c + 1;
      outcome := Normal;
      if name == "macro" {
        var created := Macro.Define(cmd.props, block, macros, false, fuel);
        match created
        case Created(n, def) =>
          macros := macros[n := def];
        case Rejected(_) =>
          next := index + 1;
        case Diverges =>
          outcome := Exhausted;
      } else if name == "iscript" {
        if cmd.props != map[] {
          next := index + 1;
        }
      } else if name == "if" {
        outcome := IfCommand(cmd.props, block, fuel, env);
        if outcome.Threw? {
          next := index + 1;
          outcome := Normal;
        }
      }
    }

    /** `ifCommand`: validate `{...props, lines}`, evaluate the parsed expression, and run the
     *  block's lines when it holds. */
    method IfCommand(props: map<string, string>, lines: seq<string>, fuel: nat, env: Env) returns (outcome: Outcome)
      modifies this
      decreases fuel, 1
      ensures Framed(old(callStack), old(leaked), callStack, leaked, outcome)
      ensures !IfPropsValid(props) ==> outcome.Threw? && unchanged(this)
      ensures IfPropsValid(props) && !env.condition(IScript.Parse(props["exp"])) ==> outcome == Normal && unchanged(this)
      ensures IfPropsValid(props) && outcome.Threw? ==> lines == []
    {
      if !IfPropsValid(props) {
        return Threw("Invalid if properties");
      }
      if env.condition(IScript.Parse(props["exp"])) {
        outcome := RunLines(lines, fuel, env);
      } else {
        outcome := Normal;
      }
    }

    /** `runSubroutine` (without a `file` option): the current script's body for the name is run
     *  between a push and a pop of the call stack. A forced call while a subroutine is active
     *  stops sound and music, sets CANCEL_SUBROUTINE and waits for the cancelled event. */
    method RunSubroutine(name: string, force: bool, fuel: nat, env: Env) returns (outcome: Outcome)
      modifies this
      decreases fuel, 1
      ensures Framed(old(callStack), old(leaked), callStack, leaked, outcome)
      ensures ScriptName(old(currentData)).None? ==> outcome == Threw(NoScript) && unchanged(this)
      ensures ScriptName(old(currentData)).Some? && BodyOf(old(currentData), old(subroutines), name).None? ==>
        !outcome.Waiting? && !outcome.Exhausted? && unchanged(this)
      ensures BodyOf(old(currentData), old(subroutines), name).Some? && Cancels(old(currentData), force) ==>
        && outcome == Waiting
        && Snap() == old(Snap()).(state := CancelSubroutine, emitted := old(emitted) + [Constants.StopSe, Constants.StopBgm])
      ensures BodyOf(old(currentData), old(subroutines), name) == Some([]) && !Cancels(old(currentData), force)
              && old(state) != Paused && old(state) != CancelSubroutine ==>
        && outcome == Threw(ReadPastEnd)
        && callStack == old(callStack) + [name] && currentData.subroutine == Some(name) && leaked == old(leaked) + 1
      ensures BodyOf(old(currentData), old(subroutines), name).Some? && !Cancels(old(currentData), force) && outcome.Normal? ==>
        currentData.subroutine == TopName(callStack)
    {
      var script := ScriptName(currentData);
      if script.None? {
        return Threw(NoScript);
      }
      if script.value !in subroutines {
        return Threw("Cannot read properties of undefined (reading '" + name + "')");
      }
      if name !in subroutines[script.value] {
        return Normal;
      }
      var body := subroutines[script.value][name];
      if Cancels(currentData, force) {
        emitted := emitted + [Constants.StopSe, Constants.StopBgm];
        state := CancelSubroutine;
        return Waiting;
      }
      currentData := currentData.(subroutine := Some(name));
      callStack := callStack + [name];
      ghost var pushed := callStack;
      outcome := RunLines(body, fuel, env);
      if outcome.Threw? {
        leaked := leaked + 1;
        return;
      }
      if !outcome.Normal? {
        return;
      }
      callStack := callStack[..|callStack| - 1];
      currentData := currentData.(subroutine := TopName(callStack));
    }

    /** A command handler called from the run loop or a macro; whatever it throws is caught
     *  by the caller. `delay`, `rclick` and `move` merge into `commandStorage`, `call` loads a
     *  script and runs a subroutine of it; `history` throws (the engine class has no history
     *  record) and the other handlers' effects are not part of this model. */
    method RunLeaf(key: string, props: map<string, string>, fuel: nat, env: Env) returns (outcome: Outcome)
      modifies this
      decreases fuel, 4
      ensures !outcome.Threw?
      ensures Framed(old(callStack), old(leaked), callStack, leaked, outcome)
      ensures key != "call" ==>
        outcome == Normal && leaked == old(leaked)
        && Snap() == old(Snap()).(commandStorage := LeafStorage(key, props, old(commandStorage)))
    {
      var handler := Dispatch.GetCommand(key);
      if handler.Ok? && handler.value == Dispatch.Builtin("call") {
        outcome := CallCommand(props, fuel, env);
        if outcome.Threw? {
          outcome := Normal;
        }
        return;
      }
      commandStorage := LeafStorage(key, props, commandStorage);
      return Normal;
    }

    /** `callCommand`: validate, find the script's full path and load it, then run the target
     *  subroutine; every error after validation is swallowed. The full path is the game root,
     *  a slash and the found path, and `loadFile` searches the tree for that whole string
     *  (see `FullPathNeverLoads`). */
    method CallCommand(props: map<string, string>, fuel: nat, env: Env) returns (outcome: Outcome)
      modifies this
      decreases fuel, 3
      ensures Framed(old(callStack), old(leaked), callStack, leaked, outcome)
      ensures !CallPropsValid(props) ==> outcome.Threw? && unchanged(this)
      ensures CallPropsValid(props) ==> !outcome.Threw?
      ensures CallPropsValid(props) ==>
        var found := Files.FoundIn(env.files.entries, "", props["storage"], true, false);
        && (|found| != 1 ==> outcome == Normal && unchanged(this))
        && (|found| == 1 && ScriptText(env.root + "/" + found[0], env).None? ==> outcome == Normal && unchanged(this))
      ensures CallPropsValid(props) && ("target" !in props || props["target"] == "") ==>
        && outcome == Normal && state == old(state) && callStack == old(callStack) && leaked == old(leaked)
        && emitted == old(emitted) && macros == old(macros)
    {
      if !CallPropsValid(props) {
        return Threw("Invalid call properties");
      }
      var file := FullFilePath(props["storage"], env);
      outcome := LoadAndCall(file, props, fuel, env);
    }

    /** `callCommand` as written: `getFullFilePath` throws for every name (see
     *  `FullFilePathAsWritten`), the error is caught, and the loading and the subroutine call
     *  after it are never reached; so a call that validates leaves the engine as it was. */
    method CallCommandAsWritten(props: map<string, string>, fuel: nat, env: Env) returns (outcome: Outcome)
      modifies this
      ensures !CallPropsValid(props) ==> outcome.Threw? && unchanged(this)
      ensures CallPropsValid(props) ==> outcome == Normal && unchanged(this)
    {
      if !CallPropsValid(props) {
        return Threw("Invalid call properties");
      }
      var file := FullFilePathAsWritten(props["storage"], env);
      outcome := LoadAndCall(file, props, fuel, env);
    }

    /** The `try` block of `callCommand` once the full path has been looked up: a failed
     *  lookup ends the call, otherwise the script is loaded and the target subroutine, when
     *  one is given, is run; whatever throws is caught. */
    method LoadAndCall(file: Result<string>, props: map<string, string>, fuel: nat, env: Env) returns (outcome: Outcome)
      modifies this
      decreases fuel, 2
      ensures !outcome.Threw?
      ensures Framed(old(callStack), old(leaked), callStack, leaked, outcome)
      ensures file.Err? ==> outcome == Normal && unchanged(this)
      ensures file.Ok? && ScriptText(file.value, env).None? ==> outcome == Normal && unchanged(this)
      ensures "target" !in props || props["target"] == "" ==>
        && outcome == Normal && state == old(state) && callStack == old(callStack) && leaked == old(leaked)
        && emitted == old(emitted) && macros == old(macros)
    {
      outcome := Normal;
      if file.Err? {
        return;
      }
      var lines, loaded := LoadFile(file.value, env);
      if loaded.Threw? {
        return;
      }
      if "target" in props && props["target"] != "" {
        outcome := RunSubroutine(props["target"], false, fuel, env);
        if outcome.Threw? {
          outcome := Normal;
        }
      }
    }

    /** A macro call: the compiled steps run in order, each receiving the placeholder keys of
     *  the record at its own index (or `{}`), and each step's error is caught. */
    method ReplayMacro(def: Macro.MacroDef, args: map<string, string>, fuel: nat, env: Env) returns (outcome: Outcome)
      modifies this
      decreases fuel, 6
      ensures !outcome.Threw?
      ensures Framed(old(callStack), old(leaked), callStack, leaked, outcome)
      ensures def.steps == [] ==> outcome == Normal && unchanged(this)
    {
      var i := 0;
      while i < |def.steps|
        invariant 0 <= i <= |def.steps|
        invariant Framed(old(callStack), old(leaked), callStack, leaked, Normal)
        invariant i == 0 ==> unchanged(this)
        decreases |def.steps| - i
      {
        ghost var stack, count := callStack, leaked;
        var out := ReplayStep(def.steps[i], Macro.ReplayProps(def, i, args), fuel, env);
        FramedCompose(old(callStack), old(leaked), stack, count, callStack, leaked, out);
        if !out.Normal? {
          return out;
        }
        i := i + 1;
      }
      return Normal;
    }

    /** One compiled step. A nested macro gets the replaced properties as its arguments; an
     *  `iscript` step throws on any property; an `if` step runs `ifCommand`; a leaf step
     *  overlays the replaced properties on its own. */
    method ReplayStep(step: Macro.Step, replaced: map<string, Option<string>>, fuel: nat, env: Env) returns (outcome: Outcome)
      modifies this
      decreases fuel, 5
      ensures !outcome.Threw?
      ensures Framed(old(callStack), old(leaked), callStack, leaked, outcome)
      ensures step.RunScript? ==> outcome == Normal && unchanged(this)
    {
      match step
      case CallMacro(inner) =>
        if fuel == 0 {
          return Exhausted;
        }
        outcome := ReplayMacro(inner, Defined(replaced), fuel - 1, env);
      case RunScript(_, _) =>
        return Normal;
      case RunIf(props, lines) =>
        outcome := IfCommand(props, lines, fuel, env);
        if outcome.Threw? {
          outcome := Normal;
        }
      case Leaf(name, props) =>
        outcome := RunLeaf(name, Macro.Overlay(props, replaced), fuel, env);
    }

    /** `run`: load the entry script, switch to RUNNING and run its lines. Only the load can
     *  throw: every error of a line is caught by the run loop. */
    method Run(entry: string, fuel: nat, env: Env) returns (outcome: Outcome)
      modifies this
      ensures Framed(old(callStack), old(leaked), callStack, leaked, outcome)
      ensures ScriptText(entry, env).None? ==> outcome.Threw? && unchanged(this)
      ensures outcome.Threw? <==> !Loads(entry, env)
      ensures outcome.Threw? ==> state == old(state)
      ensures Loads(entry, env) && fuel == 0 ==>
        && outcome == Exhausted && state == Running
        && currentData == old(currentData).(script := Some(Files.RemoveFileExtension(entry)))
    {
      var lines, loaded := LoadFile(entry, env);
      if loaded.Threw? {
        return loaded;
      }
      state := Running;
      outcome := RunLines(lines, fuel, env);
    }
  }
}
