/** The legacy engine (`src/KirikiriEngine.ts`) with its macro factory (`src/commands/createMacro.ts`):
 *  it compiles a script into jump points, bound command closures and placeholder records. Macro
 *  definitions are compiled as they are met, and a tag naming a macro invokes it at once. */
module LegacyKirikiri {
  import opened Wrappers
  import opened JsString
  import opened CommandParser
  import ScriptLines
  import Resolvers
  import Placeholders
  import Dispatch
  import Storage
  import Files
  import Kirikiri
  import Macro

  /** A `*label` line: the text after the star (untrimmed) and the line index. */
  datatype JumpPoint = JumpPoint(name: string, index: nat)

  /** What `processLines` returns. Placeholder records are keyed by LINE index and only
   *  non-empty records are stored. */
  datatype Processed = Processed(jumpPoints: seq<JumpPoint>, commands: seq<Dispatch.Bound>, placeholders: map<nat, map<string, string>>)

  const NothingProcessed: Processed := Processed([], [], map[])

  /** A macro as `createMacro` builds it: the body's closures and placeholder records. */
  datatype LegacyMacro = LegacyMacro(commands: seq<Dispatch.Bound>, placeholders: map<nat, map<string, string>>)

  /** The engine state that compiling a script can change. */
  datatype State = State(history: Storage.History, macros: map<string, LegacyMacro>)

  function MissingCloser(name: string, index: nat): string {
    "Missing closing block command for " + name + " at line " + NatToString(index + 1)
  }

  // ---------------------------------------------------------------- macro replay

  /** A bound command called with `{}`: a history closure applies its own bound properties
   *  (a rejected call changes nothing); other closures' effects are not part of this model. */
  function Fire(b: Dispatch.Bound, h: Storage.History): Storage.History {
    if b.BoundCommand? && b.name == "history" then
      match Storage.CreatedHistoryUpdate(h, b.defaults, map[])
      case Success(v) => v
      case _ => h
    else h
  }

  /** The replay from step `i`: only the steps whose INDEX has a placeholder record are called,
   *  each with `{}`. */
  function Replay(m: LegacyMacro, i: nat, h: Storage.History): Storage.History
    decreases |m.commands| - i
  {
    if i >= |m.commands| then h
    else Replay(m, i + 1, if i in m.placeholders then Fire(m.commands[i], h) else h)
  }

  /** The caller's arguments after the replay: each record's `'%name'` texts are written INTO
   *  them, a later record overwriting an earlier one. */
  function ArgsAfter(m: LegacyMacro, i: nat, args: map<string, string>): map<string, string>
    decreases |m.commands| - i
  {
    if i >= |m.commands| then args
    else ArgsAfter(m, i + 1, if i in m.placeholders then args + m.placeholders[i] else args)
  }

  function Invoke(st: State, m: LegacyMacro): State {
    st.(history := Replay(m, 0, st.history))
  }

  // ---------------------------------------------------------------- compilation

  /** Where one line of `processLines` leaves the compilation: continue at `next`, or stop with
   *  an exception. */
  datatype Progress = Continue(next: nat, st: State, acc: Processed) | Stop(error: string, st: State)

  /** A resolved closer of a block opened at `index` lies after it. */
  lemma CloserAfterOpener(lines: seq<string>, index: nat, cmd: Command, c: int)
    requires index < |lines| && ExtractCommand(lines[index]) == Ok(cmd) && cmd.name.Some?
    requires Resolvers.ClosingIndex(cmd.name.value, index, lines) == Ok(c) && c != -1
    ensures index < c < |lines|
  {
  }

  /** The loop of `processLines` from line `i`. */
  function ProcessFrom(lines: seq<string>, i: nat, st: State, acc: Processed): (Result<Processed>, State)
    requires i < |lines|
    decreases |lines|, 0, |lines| - i, 3
  {
    match LineStep(lines, i, st, acc)
    case Stop(e, st2) => (Err(e), st2)
    case Continue(next, st2, acc2) =>
      if next < |lines| then ProcessFrom(lines, next, st2, acc2) else (Ok(acc2), st2)
  }

  /** `processLines`: an empty line list throws before the loop test. */
  function ProcessAll(lines: seq<string>, st: State): (Result<Processed>, State)
    decreases |lines|, 0, |lines| + 1, 0
  {
    if lines == [] then (Err(Kirikiri.ReadPastEnd), st) else ProcessFrom(lines, 0, st, NothingProcessed)
  }

  /** One line: a label records a jump point (a bare `*` throws); a `[` line is a tag; any
   *  other line, `@` lines included, is skipped. */
  function LineStep(lines: seq<string>, i: nat, st: State, acc: Processed): (r: Progress)
    requires i < |lines|
    ensures r.Continue? ==> i < r.next <= |lines|
    decreases |lines|, 0, |lines| - i, 2
  {
    var line := lines[i];
    if StartsWith(line, "*") then
      match Kirikiri.LabelText(line)
      case None => Stop("Invalid jump point line: " + line, st)
      case Some(t) => Continue(i + 1, st, acc.(jumpPoints := acc.jumpPoints + [JumpPoint(t, i)]))
    else if StartsWith(line, "[") then
      match ExtractCommand(line)
      case Err(e) => Stop(e, st)
      case Ok(cmd) => TagStep(lines, i, cmd, st, acc)
    else Continue(i + 1, st, acc)
  }

  /** A tag: a macro is invoked now; a block is skipped (a macro block is defined first); any
   *  other tag becomes a closure from `CommandFactory.create`, unknown ones are dropped. */
  function TagStep(lines: seq<string>, i: nat, cmd: Command, st: State, acc: Processed): (r: Progress)
    requires i < |lines| && ExtractCommand(lines[i]) == Ok(cmd)
    ensures r.Continue? ==> i < r.next <= |lines|
    decreases |lines|, 0, |lines| - i, 1
  {
    var key := PropertyKey(cmd.name);
    if key in st.macros then Continue(i + 1, Invoke(st, st.macros[key]), acc)
    else if ScriptLines.CheckIsBlockCommand(cmd.name) then BlockStep(lines, i, cmd, st, acc)
    else
      match Dispatch.Create(key, cmd.props)
      case Err(_) => Continue(i + 1, st, acc)
      case Ok(b) =>
        var found := Placeholders.Collect(lines[i], map[]);
        Continue(i + 1, st, Processed(acc.jumpPoints, acc.commands + [b],
          if |found| > 0 then acc.placeholders[i := found] else acc.placeholders))
  }

  /** A block: an unresolved closer throws; a `macro` block is compiled and registered. */
  function BlockStep(lines: seq<string>, i: nat, cmd: Command, st: State, acc: Processed): (r: Progress)
    requires i < |lines| && cmd.name.Some?
    ensures r.Continue? ==> i < r.next <= |lines|
    decreases |lines|, 0, |lines| - i, 0
  {
    match Resolvers.ClosingIndex(cmd.name.value, i, lines)
    case Err(e) => Stop(e, st)
    case Ok(c) =>
      if c == -1 then Stop(MissingCloser(cmd.name.value, i), st)
      else if cmd.name.value == "macro" then
        match CreateMacroSpec(cmd.props, Slice(lines, i + 1, c), st)
        case (Err(e), st2) => Stop(e, st2)
        case (Ok((name, m)), st2) => Continue(c + 1, st2.(macros := st2.macros[name := m]), acc)
      else Continue(c + 1, st, acc)
  }

  /** `createMacro`: `name` is required; the body is compiled by `processLines` itself, with
   *  all its effects. */
  function CreateMacroSpec(props: map<string, string>, body: seq<string>, st: State): (Result<(string, LegacyMacro)>, State)
    decreases |body|, 1, 0, 0
  {
    if "name" !in props then (Err(Macro.MissingName), st)
    else
      match ProcessAll(body, st)
      case (Err(e), st2) => (Err(e), st2)
      case (Ok(p), st2) => (Ok((props["name"], LegacyMacro(p.commands, p.placeholders))), st2)
  }

  // ---------------------------------------------------------------- properties

  /** Jump points are recorded in line order, each at a label line, named by its text. */
  predicate JumpPointsOf(lines: seq<string>, jumpPoints: seq<JumpPoint>, upTo: nat) {
    && (forall j :: 0 <= j < |jumpPoints| ==>
          && jumpPoints[j].index < upTo && jumpPoints[j].index < |lines|
          && StartsWith(lines[jumpPoints[j].index], "*")
          && Kirikiri.LabelText(lines[jumpPoints[j].index]) == Some(jumpPoints[j].name))
    && (forall j, k :: 0 <= j < k < |jumpPoints| ==> jumpPoints[j].index < jumpPoints[k].index)
  }

  lemma {:induction false} ProcessFromJumpPoints(lines: seq<string>, i: nat, st: State, acc: Processed)
    requires i < |lines| && JumpPointsOf(lines, acc.jumpPoints, i)
    ensures var (r, _) := ProcessFrom(lines, i, st, acc);
      r.Ok? ==> JumpPointsOf(lines, r.value.jumpPoints, |lines|)
    decreases |lines| - i
  {
    var step := LineStep(lines, i, st, acc);
    if step.Continue? {
      assert JumpPointsOf(lines, step.acc.jumpPoints, step.next) by {
        if StartsWith(lines[i], "*") {
          assert step.acc.jumpPoints == acc.jumpPoints + [JumpPoint(Kirikiri.LabelText(lines[i]).value, i)];
        } else if StartsWith(lines[i], "[") {
          TagStepKeepsJumpPoints(lines, i, ExtractCommand(lines[i]).value, st, acc);
        }
      }
      if step.next < |lines| {
        ProcessFromJumpPoints(lines, step.next, step.st, step.acc);
      }
    }
  }

  lemma TagStepKeepsJumpPoints(lines: seq<string>, i: nat, cmd: Command, st: State, acc: Processed)
    requires i < |lines| && ExtractCommand(lines[i]) == Ok(cmd)
    ensures TagStep(lines, i, cmd, st, acc).Continue? ==> TagStep(lines, i, cmd, st, acc).acc.jumpPoints == acc.jumpPoints
  {
  }

  /** A compiled script lists its label lines in order, each with the text after its star. */
  lemma JumpPointsInOrder(lines: seq<string>, st: State)
    requires ProcessAll(lines, st).0.Ok?
    ensures JumpPointsOf(lines, ProcessAll(lines, st).0.value.jumpPoints, |lines|)
  {
    ProcessFromJumpPoints(lines, 0, st, NothingProcessed);
  }

  /** The lines the pass from `i` processes, in order: a block's inner lines are jumped over,
   *  and the pass ends at the line that throws or after the last line. */
  function Visited(lines: seq<string>, i: nat, st: State, acc: Processed): (r: seq<nat>)
    requires i < |lines|
    ensures forall k :: 0 <= k < |r| ==> i <= r[k] < |lines|
    decreases |lines| - i
  {
    match LineStep(lines, i, st, acc)
    case Stop(_, _) => [i]
    case Continue(next, st2, acc2) => [i] + (if next < |lines| then Visited(lines, next, st2, acc2) else [])
  }

  /** The jump point line `k` records when the pass visits it: one for a `*label` line, none
   *  for any other. */
  function OwnPoint(lines: seq<string>, k: nat): seq<JumpPoint>
    requires k < |lines|
  {
    var line := lines[k];
    if StartsWith(line, "*") && Kirikiri.LabelText(line).Some? then [JumpPoint(Kirikiri.LabelText(line).value, k)] else []
  }

  /** The jump points the visited lines `vs` record, in order. */
  function LabelPoints(lines: seq<string>, vs: seq<nat>): seq<JumpPoint>
    requires forall k :: 0 <= k < |vs| ==> vs[k] < |lines|
  {
    if vs == [] then [] else OwnPoint(lines, vs[0]) + LabelPoints(lines, vs[1..])
  }

  /** One line that does not throw adds its own jump point, if any, and no other. */
  lemma StepJumpPoints(lines: seq<string>, i: nat, st: State, acc: Processed)
    requires i < |lines|
    ensures LineStep(lines, i, st, acc).Continue? ==>
      LineStep(lines, i, st, acc).acc.jumpPoints == acc.jumpPoints + OwnPoint(lines, i)
  {
    if !StartsWith(lines[i], "*") && StartsWith(lines[i], "[") && ExtractCommand(lines[i]).Ok? {
      TagStepKeepsJumpPoints(lines, i, ExtractCommand(lines[i]).value, st, acc);
    }
  }

  /** Without blocks, a line that does not throw moves the pass to the next line. */
  lemma StepByOne(lines: seq<string>, i: nat, st: State, acc: Processed)
    requires i < |lines| && NoBlockTags(lines)
    ensures LineStep(lines, i, st, acc).Continue? ==> LineStep(lines, i, st, acc).next == i + 1
  {
    if !StartsWith(lines[i], "*") && StartsWith(lines[i], "[") && ExtractCommand(lines[i]).Ok? {
      assert !ScriptLines.CheckIsBlockCommand(ExtractCommand(lines[i]).value.name);
    }
  }

  /** A successful pass records exactly one jump point per label line it visits, in the order
   *  visited, after those already recorded. */
  lemma {:induction false} ProcessFromRecordsVisited(lines: seq<string>, i: nat, st: State, acc: Processed)
    requires i < |lines|
    ensures var (r, _) := ProcessFrom(lines, i, st, acc);
      r.Ok? ==> r.value.jumpPoints == acc.jumpPoints + LabelPoints(lines, Visited(lines, i, st, acc))
    decreases |lines| - i
  {
    var step := LineStep(lines, i, st, acc);
    if step.Continue? {
      var rest: seq<nat> := if step.next < |lines| then Visited(lines, step.next, step.st, step.acc) else [];
      VisitedContinue(lines, i, st, acc);
      StepJumpPoints(lines, i, st, acc);
      if step.next < |lines| {
        ProcessFromRecordsVisited(lines, step.next, step.st, step.acc);
      }
      JumpPointsAssoc(acc.jumpPoints, OwnPoint(lines, i), LabelPoints(lines, rest));
    }
  }

  /** A line that does not throw is followed by the lines visited from where it continues. */
  lemma VisitedContinue(lines: seq<string>, i: nat, st: State, acc: Processed)
    requires i < |lines| && LineStep(lines, i, st, acc).Continue?
    ensures var step := LineStep(lines, i, st, acc);
      var rest: seq<nat> := if step.next < |lines| then Visited(lines, step.next, step.st, step.acc) else [];
      LabelPoints(lines, Visited(lines, i, st, acc)) == OwnPoint(lines, i) + LabelPoints(lines, rest)
  {
    var step := LineStep(lines, i, st, acc);
    var rest: seq<nat> := if step.next < |lines| then Visited(lines, step.next, step.st, step.acc) else [];
    var vs := Visited(lines, i, st, acc);
    assert vs == [i] + rest;
    assert vs[1..] == rest;
  }

  lemma JumpPointsAssoc(a: seq<JumpPoint>, b: seq<JumpPoint>, c: seq<JumpPoint>)
    ensures a + b + c == a + (b + c)
  {
  }

  /** No line opens or closes a block: every tag line that parses names something else. */
  predicate NoBlockTags(lines: seq<string>) {
    forall k :: 0 <= k < |lines| && StartsWith(lines[k], "[") && ExtractCommand(lines[k]).Ok? ==>
      !ScriptLines.CheckIsBlockCommand(ExtractCommand(lines[k]).value.name)
  }

  /** Without blocks, a pass that returns visits every line from where it starts. */
  lemma {:induction false} VisitsEveryLine(lines: seq<string>, i: nat, st: State, acc: Processed)
    requires i < |lines| && NoBlockTags(lines) && ProcessFrom(lines, i, st, acc).0.Ok?
    ensures Visited(lines, i, st, acc) == Range(i, |lines|)
    decreases |lines| - i
  {
    var step := LineStep(lines, i, st, acc);
    assert step.Continue?;
    StepByOne(lines, i, st, acc);
    if i + 1 < |lines| {
      VisitsEveryLine(lines, i + 1, step.st, step.acc);
    }
  }

  /** The indices from `i` up to (not including) `n`. */
  function Range(i: nat, n: nat): (r: seq<nat>)
    ensures |r| == if i < n then n - i else 0
    ensures forall k :: 0 <= k < |r| ==> r[k] == i + k
    decreases n - i
  {
    if i < n then [i] + Range(i + 1, n) else []
  }

  /** A label line among the visited ones is recorded. */
  lemma {:induction false} LabelPointsHas(lines: seq<string>, vs: seq<nat>, k: nat)
    requires forall m :: 0 <= m < |vs| ==> vs[m] < |lines|
    requires k < |vs| && StartsWith(lines[vs[k]], "*") && Kirikiri.LabelText(lines[vs[k]]).Some?
    ensures JumpPoint(Kirikiri.LabelText(lines[vs[k]]).value, vs[k]) in LabelPoints(lines, vs)
  {
    if k > 0 {
      LabelPointsHas(lines, vs[1..], k - 1);
    }
  }

  /** A script without block tags that compiles records every one of its label lines. */
  lemma AllLabelsRecorded(lines: seq<string>, st: State)
    requires NoBlockTags(lines) && ProcessAll(lines, st).0.Ok?
    ensures forall j :: 0 <= j < |lines| && StartsWith(lines[j], "*") ==>
      Kirikiri.LabelText(lines[j]).Some? &&
      JumpPoint(Kirikiri.LabelText(lines[j]).value, j) in ProcessAll(lines, st).0.value.jumpPoints
  {
    var acc := NothingProcessed;
    ProcessFromRecordsVisited(lines, 0, st, acc);
    VisitsEveryLine(lines, 0, st, acc);
    var vs := Visited(lines, 0, st, acc);
    forall j | 0 <= j < |lines| && StartsWith(lines[j], "*")
      ensures Kirikiri.LabelText(lines[j]).Some? &&
        JumpPoint(Kirikiri.LabelText(lines[j]).value, j) in ProcessAll(lines, st).0.value.jumpPoints
    {
      assert vs[j] == j;
      VisitedContinues(lines, 0, st, acc, j);
      LabelPointsHas(lines, vs, j);
    }
  }

  /** A pass that returns continues past every line it visits: no visited label line is bare. */
  lemma {:induction false} VisitedContinues(lines: seq<string>, i: nat, st: State, acc: Processed, j: nat)
    requires i < |lines| && ProcessFrom(lines, i, st, acc).0.Ok?
    requires j in Visited(lines, i, st, acc) && StartsWith(lines[j], "*")
    ensures Kirikiri.LabelText(lines[j]).Some?
    decreases |lines| - i
  {
    var step := LineStep(lines, i, st, acc);
    if j != i {
      VisitedContinues(lines, step.next, step.st, step.acc, j);
    }
  }

  /** Steps without a placeholder record are never called. */
  lemma {:induction false} UnrecordedStepsNeverRun(m: LegacyMacro, i: nat, h: Storage.History)
    requires m.placeholders == map[]
    ensures Replay(m, i, h) == h
    decreases |m.commands| - i
  {
    if i < |m.commands| {
      UnrecordedStepsNeverRun(m, i + 1, h);
    }
  }

  /** With one record, at step `i`, the replay writes that record's texts into the arguments. */
  lemma {:induction false} ArgsAfterOneRecord(m: LegacyMacro, i: nat, j: nat, args: map<string, string>)
    requires m.placeholders.Keys == {i}
    ensures ArgsAfter(m, j, args) == (if j <= i < |m.commands| then args + m.placeholders[i] else args)
    decreases |m.commands| - j
  {
    if j < |m.commands| {
      ArgsAfterOneRecord(m, i, j + 1, if j in m.placeholders then args + m.placeholders[j] else args);
    }
  }

  /** The compiled body `[history output=%on]` ignores what the macro is called with: the
   *  history closure runs with its own property, the text `'%on'`, so `output` becomes false
   *  even for `on=true`, and the caller's `output` argument is overwritten with `'%on'`. */
  lemma HistoryMacroIgnoresArguments(h: Storage.History)
    ensures var record := map["output" := "%on"];
      var m := LegacyMacro([Dispatch.BoundCommand("history", record)], map[0 := record]);
      && Replay(m, 0, h) == Storage.History(false, h.enabled)
      && ArgsAfter(m, 0, map["on" := "true"]) == map["on" := "true", "output" := "%on"]
  {
    var record := map["output" := "%on"];
    var m := LegacyMacro([Dispatch.BoundCommand("history", record)], map[0 := record]);
    Storage.HistoryExact(h, record);
    assert Replay(m, 1, Fire(m.commands[0], h)) == Fire(m.commands[0], h);
    ArgsAfterOneRecord(m, 0, 0, map["on" := "true"]);
  }

  /** A block without its closer stops the compilation with an exception. */
  lemma UnclosedBlockThrows(lines: seq<string>, cmd: Command, st: State)
    requires |lines| > 0 && ExtractCommand(lines[0]) == Ok(cmd) && cmd.name.Some?
    requires PropertyKey(cmd.name) !in st.macros && ScriptLines.CheckIsBlockCommand(cmd.name)
    requires StartsWith(lines[0], "[") && Resolvers.ClosingIndex(cmd.name.value, 0, lines) == Ok(-1)
    ensures ProcessAll(lines, st) == (Err(MissingCloser(cmd.name.value, 0)), st)
  {
    assert !StartsWith(lines[0], "*");
    var acc := NothingProcessed;
    var stop := Stop(MissingCloser(cmd.name.value, 0), st);
    assert BlockStep(lines, 0, cmd, st, acc) == stop;
    assert TagStep(lines, 0, cmd, st, acc) == stop;
    assert LineStep(lines, 0, st, acc) == stop;
  }

  // ---------------------------------------------------------------- the engine

  class LegacyEngine {
    var history: Storage.History
    var macros: map<string, LegacyMacro>

    function Current(): State
      reads this
    {
      State(history, macros)
    }

    constructor ()
      ensures history == Storage.History(false, false) && macros == map[]
    {
      history := Storage.History(false, false);
      macros := map[];
    }

    /** `processLines`. */
    method ProcessLines(lines: seq<string>) returns (r: Result<Processed>)
      modifies this
      decreases |lines|, 0, |lines| + 1, 0
      ensures (r, Current()) == ProcessAll(lines, old(Current()))
    {
      if lines == [] {
        return Err(Kirikiri.ReadPastEnd);
      }
      var acc := NothingProcessed;
      var index: nat := 0;
      while true
        invariant index < |lines|
        invariant ProcessFrom(lines, index, Current(), acc) == ProcessAll(lines, old(Current()))
        decreases |lines| - index
      {
        var step := ProcessLine(lines, index, acc);
        if step.Stop? {
          return Err(step.error);
        }
        acc := step.acc;
        if step.next >= |lines| {
          return Ok(acc);
        }
        index := step.next;
      }
    }

    method ProcessLine(lines: seq<string>, index: nat, acc: Processed) returns (step: Progress)
      requires index < |lines|
      modifies this
      decreases |lines|, 0, |lines| - index, 2
      ensures step == LineStep(lines, index, old(Current()), acc) && Current() == step.st
    {
      var line := lines[index];
      if line != [] && line[0] == '*' {
        assert StartsWith(line, "*");
        var name := Kirikiri.LabelText(line);
        if name.None? {
          return Stop("Invalid jump point line: " + line, Current());
        }
        return Continue(index + 1, Current(), acc.(jumpPoints := acc.jumpPoints + [JumpPoint(name.value, index)]));
      }
      if line != [] && line[0] == '[' {
        assert StartsWith(line, "[");
        var extracted := ExtractCommand(line);
        if extracted.Err? {
          return Stop(extracted.error, Current());
        }
        step := ProcessTag(lines, index, extracted.value, acc);
        return;
      }
      return Continue(index + 1, Current(), acc);
    }

    method ProcessTag(lines: seq<string>, index: nat, cmd: Command, acc: Processed) returns (step: Progress)
      requires index < |lines| && ExtractCommand(lines[index]) == Ok(cmd)
      modifies this
      decreases |lines|, 0, |lines| - index, 1
      ensures step == TagStep(lines, index, cmd, old(Current()), acc) && Current() == step.st
    {
      var key := PropertyKey(cmd.name);
      if key in macros {
        var _ := InvokeMacro(macros[key], cmd.props);
        return Continue(index + 1, Current(), acc);
      }
      if ScriptLines.CheckIsBlockCommand(cmd.name) {
        step := ProcessBlock(lines, index, cmd, acc);
        return;
      }
      var created := Dispatch.Create(key, cmd.props);
      if created.Err? {
        return Continue(index + 1, Current(), acc);
      }
      var found := Placeholders.GetPlaceholders(lines[index]);
      var placeholders := acc.placeholders;
      if |found| > 0 {
        placeholders := placeholders[index := found];
      }
      return Continue(index + 1, Current(), Processed(acc.jumpPoints, acc.commands + [created.value], placeholders));
    }

    method ProcessBlock(lines: seq<string>, index: nat, cmd: Command, acc: Processed) returns (step: Progress)
      requires index < |lines| && cmd.name.Some?
      modifies this
      decreases |lines|, 0, |lines| - index, 0
      ensures step == BlockStep(lines, index, cmd, old(Current()), acc) && Current() == step.st
    {
      var name := cmd.name.value;
      var closing := Resolvers.FindClosingBlockCommandIndex(name, index, lines);
      if closing.Err? {
        return Stop(closing.error, Current());
      }
      var c := closing.value;
      if c == -1 {
        return Stop(MissingCloser(name, index), Current());
      }
      if name == "macro" {
        var created := CreateMacro(cmd.props, Slice(lines, index + 1, c));
        if created.Err? {
          return Stop(created.error, Current());
        }
        macros := macros[created.value.0 := created.value.1];
      }
      return Continue(c + 1, Current(), acc);
    }

    /** `createMacro`. */
    method CreateMacro(props: map<string, string>, body: seq<string>) returns (r: Result<(string, LegacyMacro)>)
      modifies this
      decreases |body|, 1, 0, 0
      ensures (r, Current()) == CreateMacroSpec(props, body, old(Current()))
    {
      if "name" !in props {
        return Err(Macro.MissingName);
      }
      var processed := ProcessLines(body);
      if processed.Err? {
        return Err(processed.error);
      }
      return Ok((props["name"], LegacyMacro(processed.value.commands, processed.value.placeholders)));
    }

    /** The macro closure of `createMacro`: for each step with a placeholder record, write the
     *  record's texts into the caller's arguments and call the step with `{}`. */
    method InvokeMacro(m: LegacyMacro, args: map<string, string>) returns (argsAfter: map<string, string>)
      modifies this
      ensures history == Replay(m, 0, old(history)) && macros == old(macros)
      ensures argsAfter == ArgsAfter(m, 0, args)
    {
      argsAfter := args;
      var i := 0;
      while i < |m.commands|
        invariant 0 <= i <= |m.commands|
        invariant Replay(m, i, history) == Replay(m, 0, old(history)) && macros == old(macros)
        invariant ArgsAfter(m, i, argsAfter) == ArgsAfter(m, 0, args)
        decreases |m.commands| - i
      {
        if i in m.placeholders {
          argsAfter := argsAfter + m.placeholders[i];
          history := Fire(m.commands[i], history);
        }
        i := i + 1;
      }
    }

    /** `run`: load the entry script (with a recursive lookup) and compile it; a compilation
     *  error is caught and logged, a loading error is not. */
    method Run(entry: string, env: Kirikiri.Env) returns (loaded: Result<Result<Processed>>)
      modifies this
      ensures var found := Files.FoundIn(env.files.entries, "", entry, true, false);
        && (|found| != 1 || env.fetch("/ojamajo/" + found[0]).None? ==> loaded.Err? && unchanged(this))
        && (|found| == 1 && env.fetch("/ojamajo/" + found[0]).Some? ==>
              && loaded.Ok?
              && (loaded.value, Current()) == ProcessAll(ScriptLines.SplitAndSanitize(env.fetch("/ojamajo/" + found[0]).value), old(Current())))
    {
      var found := Files.FindFileInTree(entry, env.files, Kirikiri.LookupOptions);
      var paths := found.value;
      if |paths| == 0 {
        return Err("File " + entry + " not found");
      }
      if |paths| > 1 {
        return Err("File " + entry + " found multiple times: " + Kirikiri.JoinComma(paths));
      }
      var text := env.fetch("/ojamajo/" + paths[0]);
      if text.None? {
        return Err("Failed to load file");
      }
      var lines := ScriptLines.SplitAndSanitize(text.value);
      var processed := ProcessLines(lines);
      return Ok(processed);
    }
  }
}
