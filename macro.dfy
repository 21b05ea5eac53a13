/** The macro compiler of the engine class (`src/commands/macroCommand.ts`): a macro body is
 *  compiled once, when the macro is defined, into a list of steps plus placeholder records, and
 *  each invocation replays the steps in order. */
module Macro {
  import opened Wrappers
  import opened JsString
  import opened CommandParser
  import ScriptLines
  import Resolvers
  import Placeholders
  import Dispatch
  import Constants

  /** A compiled step: a call of a macro as it was registered when the body was compiled, an
   *  `iscript` or `if` block, or a leaf command with the properties of its tag. */
  datatype Step =
    | CallMacro(def: MacroDef)
    | RunScript(lines: seq<string>, props: map<string, string>)
    | RunIf(props: map<string, string>, lines: seq<string>)
    | Leaf(name: string, props: map<string, string>)

  /** The compiled body: the steps, and placeholder records keyed by BODY LINE index. */
  datatype MacroDef = MacroDef(steps: seq<Step>, placeholders: map<nat, map<string, string>>)

  const NoSteps: MacroDef := MacroDef([], map[])

  /** How compilation ends: with a body, with an exception, or not at all within the fuel. */
  datatype Compiled = Done(def: MacroDef) | Threw(message: string) | OutOfFuel

  /** The error of reading a line of an empty body. */
  const ReadPastEnd: string := "Cannot read properties of undefined (reading 'charAt')"

  /** One iteration of `processLines`: where the cursor goes next and what the line adds. A tag
   *  naming a registered macro becomes a call of it; an `iscript` or `if` block becomes one step
   *  and the cursor jumps past its closer; `link` and `macro` blocks add nothing; a leaf becomes
   *  a step only if `engine.getCommand` exists and knows it; everything else is skipped. */
  function CompileLine(lines: seq<string>, index: nat, macros: map<string, MacroDef>, hasGetCommand: bool, acc: MacroDef): (r: (nat, MacroDef))
    requires index < |lines|
    ensures r.0 <= |lines|
  {
    var line := lines[index];
    if line == [] || line[0] != '[' then (index + 1, acc)
    else
      match ExtractCommand(line)
      case Err(_) => (index + 1, acc)
      case Ok(cmd) => CompileTag(lines, index, cmd, macros, hasGetCommand, acc)
  }

  /** A tag line whose command was extracted. */
  function CompileTag(lines: seq<string>, index: nat, cmd: Command, macros: map<string, MacroDef>, hasGetCommand: bool, acc: MacroDef): (r: (nat, MacroDef))
    requires index < |lines|
    ensures r.0 <= |lines|
  {
    var key := PropertyKey(cmd.name);
    if key in macros then (index + 1, acc.(steps := acc.steps + [CallMacro(macros[key])]))
    else if ScriptLines.CheckIsBlockCommand(cmd.name) then CompileBlock(lines, index, cmd, acc)
    else if hasGetCommand && Dispatch.GetCommand(key).Ok? then
      (index + 1, MacroDef(acc.steps + [Leaf(key, cmd.props)], acc.placeholders[index := Placeholders.Collect(lines[index], map[])]))
    else (index + 1, acc)
  }

  /** A block tag: an unresolvable block is skipped line by line; a resolved one becomes one
   *  step (for `iscript` and `if`) and the cursor moves past its closer. */
  function CompileBlock(lines: seq<string>, index: nat, cmd: Command, acc: MacroDef): (r: (nat, MacroDef))
    requires index < |lines| && cmd.name.Some?
    ensures r.0 <= |lines|
  {
    match Resolvers.ClosingIndex(cmd.name.value, index, lines)
    case Err(_) => (index + 1, acc)
    case Ok(c) => ((c + 1) as nat, WithBlock(acc, cmd, Slice(lines, index + 1, c)))
  }

  /** The step a resolved block adds: `iscript` and `if` add one, any other block none. */
  function WithBlock(acc: MacroDef, cmd: Command, block: seq<string>): MacroDef {
    if cmd.name == Some("iscript") then acc.(steps := acc.steps + [RunScript(block, cmd.props)])
    else if cmd.name == Some("if") then acc.(steps := acc.steps + [RunIf(cmd.props, block)])
    else acc
  }

  /** The `do…while` loop of `processLines` from `index`, within `fuel` iterations. */
  function CompileFrom(lines: seq<string>, index: nat, macros: map<string, MacroDef>, hasGetCommand: bool, fuel: nat, acc: MacroDef): Compiled
    requires index < |lines|
    decreases fuel
  {
    if fuel == 0 then OutOfFuel
    else
      var (next, acc2) := CompileLine(lines, index, macros, hasGetCommand, acc);
      if next < |lines| then CompileFrom(lines, next, macros, hasGetCommand, fuel - 1, acc2) else Done(acc2)
  }

  /** `processLines`: an empty body throws, since its first line is read before the loop test. */
  function Compile(lines: seq<string>, macros: map<string, MacroDef>, hasGetCommand: bool, fuel: nat): Compiled {
    if lines == [] then Threw(ReadPastEnd) else CompileFrom(lines, 0, macros, hasGetCommand, fuel, NoSteps)
  }

  /** `processLines`, as the cursor loop it is. The engine class has no `getCommand` method, which
   *  the engine passes as `hasGetCommand == false`. */
  method ProcessLines(lines: seq<string>, macros: map<string, MacroDef>, hasGetCommand: bool, fuel: nat) returns (r: Compiled)
    ensures r == Compile(lines, macros, hasGetCommand, fuel)
  {
    if lines == [] {
      return Threw(ReadPastEnd);
    }
    var index: nat := 0;
    var def := NoSteps;
    var budget := fuel;
    while true
      invariant index < |lines|
      invariant CompileFrom(lines, index, macros, hasGetCommand, budget, def) == Compile(lines, macros, hasGetCommand, fuel)
      decreases budget
    {
      if budget == 0 {
        return OutOfFuel;
      }
      var next;
      next, def := ProcessLine(lines, index, macros, hasGetCommand, def);
      budget := budget - 1;
      if next >= |lines| {
        return Done(def);
      }
      index := next;
    }
  }

  /** The body of the `processLines` loop for the line at `index`. */
  method ProcessLine(lines: seq<string>, index: nat, macros: map<string, MacroDef>, hasGetCommand: bool, acc: MacroDef) returns (next: nat, def: MacroDef)
    requires index < |lines|
    ensures (next, def) == CompileLine(lines, index, macros, hasGetCommand, acc)
  {
    var line := lines[index];
    if line == [] || line[0] != '[' {
      return index + 1, acc;
    }
    var extracted := ExtractCommand(line);
    if extracted.Err? {
      return index + 1, acc;
    }
    next, def := ProcessTag(lines, index, extracted.value, macros, hasGetCommand, acc);
  }

  method ProcessTag(lines: seq<string>, index: nat, cmd: Command, macros: map<string, MacroDef>, hasGetCommand: bool, acc: MacroDef) returns (next: nat, def: MacroDef)
    requires index < |lines|
    ensures (next, def) == CompileTag(lines, index, cmd, macros, hasGetCommand, acc)
  {
    var key := PropertyKey(cmd.name);
    if key in macros {
      return index + 1, acc.(steps := acc.steps + [CallMacro(macros[key])]);
    }
    if ScriptLines.CheckIsBlockCommand(cmd.name) {
      next, def := ProcessBlock(lines, index, cmd, acc);
      return;
    }
    if hasGetCommand && Dispatch.GetCommand(key).Ok? {
      var found := Placeholders.GetPlaceholders(lines[index]);
      return index + 1, MacroDef(acc.steps + [Leaf(key, cmd.props)], acc.placeholders[index := found]);
    }
    return index + 1, acc;
  }

  method ProcessBlock(lines: seq<string>, index: nat, cmd: Command, acc: MacroDef) returns (next: nat, def: MacroDef)
    requires index < |lines| && cmd.name.Some?
    ensures (next, def) == CompileBlock(lines, index, cmd, acc)
  {
    var closing := Resolvers.FindClosingBlockCommandIndex(cmd.name.value, index, lines);
    match closing {
      case Err(_) =>
        next, def := index + 1, acc;
      case Ok(c) =>
        next, def := (c + 1) as nat, WithBlock(acc, cmd, Slice(lines, index + 1, c));
    }
  }

  /** `createMacro`: `name` is required (the block's lines are always given); the body is
   *  compiled once, here. */
  datatype Created = Created(name: string, def: MacroDef) | Rejected(message: string) | Diverges

  /** A stand-in for the message of the validation error a missing `name` raises; the message
   *  is only ever logged. */
  const MissingName: string := "name: Required"

  function Define(props: map<string, string>, body: seq<string>, macros: map<string, MacroDef>, hasGetCommand: bool, fuel: nat): Created {
    if "name" !in props then Rejected(MissingName)
    else
      match Compile(body, macros, hasGetCommand, fuel)
      case Done(def) => Created(props["name"], def)
      case Threw(m) => Rejected(m)
      case OutOfFuel => Diverges
  }

  // ---------------------------------------------------------------- replay

  /** The arguments a replayed step receives: for a step whose INDEX has a placeholder record, a
   *  fresh object holding exactly the recorded keys, each read from the invocation's arguments
   *  (undefined when absent); for any other step, `{}`. */
  function ReplayProps(def: MacroDef, i: nat, args: map<string, string>): (r: map<string, Option<string>>)
    ensures i !in def.placeholders ==> r == map[]
    ensures i in def.placeholders ==> r.Keys == def.placeholders[i].Keys
    ensures forall k :: k in r && k in args ==> r[k] == Some(args[k])
    ensures forall k :: k in r && k !in args ==> r[k] == None
  {
    if i in def.placeholders then
      map k | k in def.placeholders[i] :: if k in args then Some(args[k]) else None
    else map[]
  }

  /** `{...props, ...replacedProps}` for a leaf step; an undefined value leaves the key out. */
  function Overlay(props: map<string, string>, replaced: map<string, Option<string>>): (r: map<string, string>)
    ensures forall k :: k in replaced && replaced[k].Some? ==> k in r && r[k] == replaced[k].value
    ensures forall k :: k in props && k !in replaced ==> k in r && r[k] == props[k]
    ensures forall k :: k in r ==> k in props || (k in replaced && replaced[k].Some?)
  {
    (map k | k in props && k !in replaced :: props[k])
      + (map k | k in replaced && replaced[k].Some? :: replaced[k].value)
  }

  // ---------------------------------------------------------------- properties

  /** No leaf step and no placeholder record were added so far. */
  predicate NoLeaves(def: MacroDef) {
    def.placeholders == map[] && forall j :: 0 <= j < |def.steps| ==> !def.steps[j].Leaf?
  }

  lemma {:induction false} CompileFromNoLeaves(lines: seq<string>, index: nat, macros: map<string, MacroDef>, fuel: nat, acc: MacroDef)
    requires index < |lines| && NoLeaves(acc)
    ensures CompileFrom(lines, index, macros, false, fuel, acc).Done? ==> NoLeaves(CompileFrom(lines, index, macros, false, fuel, acc).def)
    decreases fuel
  {
    if fuel > 0 {
      var (next, acc2) := CompileLine(lines, index, macros, false, acc);
      LineKeepsNoLeaves(lines, index, macros, acc);
      if next < |lines| {
        CompileFromNoLeaves(lines, next, macros, fuel - 1, acc2);
      }
    }
  }

  /** One line compiled without `getCommand` adds no leaf step. */
  lemma LineKeepsNoLeaves(lines: seq<string>, index: nat, macros: map<string, MacroDef>, acc: MacroDef)
    requires index < |lines| && NoLeaves(acc)
    ensures NoLeaves(CompileLine(lines, index, macros, false, acc).1)
  {
    var line := lines[index];
    if line != [] && line[0] == '[' && ExtractCommand(line).Ok? {
      var cmd := ExtractCommand(line).value;
      var key := PropertyKey(cmd.name);
      if key !in macros && ScriptLines.CheckIsBlockCommand(cmd.name) {
        match Resolvers.ClosingIndex(cmd.name.value, index, lines)
        case Err(_) =>
        case Ok(c) => BlockKeepsNoLeaves(acc, cmd, Slice(lines, index + 1, c));
      }
    }
  }

  lemma BlockKeepsNoLeaves(acc: MacroDef, cmd: Command, block: seq<string>)
    requires NoLeaves(acc)
    ensures NoLeaves(WithBlock(acc, cmd, block))
  {
  }

  /** Without `engine.getCommand` every leaf line is dropped: a compiled body holds only macro
   *  calls and `iscript`/`if` blocks, and has no placeholder records, so every replayed step
   *  receives `{}`. */
  lemma CompiledWithoutLeaves(lines: seq<string>, macros: map<string, MacroDef>, fuel: nat, i: nat, args: map<string, string>)
    requires Compile(lines, macros, false, fuel).Done?
    ensures NoLeaves(Compile(lines, macros, false, fuel).def)
    ensures ReplayProps(Compile(lines, macros, false, fuel).def, i, args) == map[]
  {
    CompileFromNoLeaves(lines, 0, macros, fuel, NoSteps);
  }

  /** An empty body throws. */
  lemma EmptyBodyThrows(props: map<string, string>, macros: map<string, MacroDef>, hasGetCommand: bool, fuel: nat)
    requires "name" in props
    ensures Define(props, [], macros, hasGetCommand, fuel) == Rejected(ReadPastEnd)
  {
  }

  /** Placeholder records and steps are indexed differently. Were `getCommand` present, a body
   *  whose first line is text and whose second is a leaf tag compiles to ONE step, at index 0,
   *  while its placeholder record sits at line index 1: replay hands the step `{}`, and the
   *  record is never used. */
  lemma PlaceholderIndexMismatch(lines: seq<string>, macros: map<string, MacroDef>, fuel: nat, cmd: Command, args: map<string, string>)
    requires |lines| == 2 && fuel >= 2
    requires lines[0] == [] || lines[0][0] != '['
    requires lines[1] != [] && lines[1][0] == '[' && ExtractCommand(lines[1]) == Ok(cmd)
    requires PropertyKey(cmd.name) !in macros && !ScriptLines.CheckIsBlockCommand(cmd.name)
    requires Dispatch.GetCommand(PropertyKey(cmd.name)).Ok?
    ensures var r := Compile(lines, macros, true, fuel);
      && r.Done?
      && r.def.steps == [Leaf(PropertyKey(cmd.name), cmd.props)]
      && r.def.placeholders == map[1 := Placeholders.Collect(lines[1], map[])]
      && ReplayProps(r.def, 0, args) == map[]
  {
    var (n0, a0) := CompileLine(lines, 0, macros, true, NoSteps);
    assert n0 == 1 && a0 == NoSteps;
    var key := PropertyKey(cmd.name);
    var (n1, a1) := CompileLine(lines, 1, macros, true, a0);
    assert n1 == 2 && a1 == MacroDef([Leaf(key, cmd.props)], map[1 := Placeholders.Collect(lines[1], map[])]);
    assert CompileFrom(lines, 1, macros, true, fuel - 1, a0) == Done(a1);
  }

  /** The resolver answers -1 for a lone unterminated `if`, so the cursor jumps back to line 0:
   *  the body never finishes compiling, however much fuel is given. */
  lemma UnterminatedIfNeverCompiles(lines: seq<string>, macros: map<string, MacroDef>, hasGetCommand: bool, fuel: nat, props: map<string, string>)
    requires |lines| == 1 && lines[0] != [] && lines[0][0] == '['
    requires ExtractCommand(lines[0]) == Ok(Command(Some("if"), props))
    requires ScriptLines.CheckIsCommand(lines[0]) && "if" !in macros
    ensures Compile(lines, macros, hasGetCommand, fuel) == OutOfFuel
  {
    IfLoops(lines, macros, hasGetCommand, fuel, NoSteps, props);
  }

  lemma {:induction false} IfLoops(lines: seq<string>, macros: map<string, MacroDef>, hasGetCommand: bool, fuel: nat, acc: MacroDef, props: map<string, string>)
    requires |lines| == 1 && lines[0] != [] && lines[0][0] == '['
    requires ExtractCommand(lines[0]) == Ok(Command(Some("if"), props))
    requires ScriptLines.CheckIsCommand(lines[0]) && "if" !in macros
    ensures CompileFrom(lines, 0, macros, hasGetCommand, fuel, acc) == OutOfFuel
    decreases fuel
  {
    if fuel > 0 {
      assert ScriptLines.CheckIsBlockCommand(Some("if")) by {
        assert "if" in Constants.CommandBlocks.Keys;
      }
      assert Constants.CloserOf("if") == Some("endif") by {
        assert Constants.CommandBlocks["if"] == "endif";
      }
      var tags := Resolvers.Classified(lines);
      assert tags == [Resolvers.Tag(Some("if"))];
      assert Resolvers.ScanClosing(tags, "if", Some("endif"), 1, 1) == Ok(-1);
      assert Resolvers.ClosingIndex("if", 0, lines) == Ok(-1);
      var (next, acc2) := CompileLine(lines, 0, macros, hasGetCommand, acc);
      assert next == 0;
      IfLoops(lines, macros, hasGetCommand, fuel - 1, acc2, props);
    }
  }
}
