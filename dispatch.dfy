/** Tag-name dispatch: the `commandMap` table behind `getCommand` (used by the engine class) and
 *  the `switch` of `CommandFactory.create` (used by the legacy engine). */
module Dispatch {
  import opened Wrappers

  /** The keys of `commandMap`. */
  const CommandMapNames: set<string> := {
    "image", "position", "trans", "wt", "ct", "jump", "eval", "wait", "playse", "ws", "l", "move",
    "cm", "waitclick", "stopse", "style", "delay", "history", "button", "s", "freeimage", "layopt",
    "backlay", "resetwait", "emb", "locate", "laycount", "call", "loadplugin", "fgzoom", "wfgzoom",
    "fadeinbgm", "playbgm", "rclick", "wl", "stopbgm", "wm", "fadeoutbgm"}

  /** The members every plain object inherits; reading one of them from `commandMap` gives a
   *  truthy function. */
  const PrototypeKeys: set<string> := {
    "constructor", "toString", "toLocaleString", "valueOf", "hasOwnProperty", "isPrototypeOf",
    "propertyIsEnumerable", "__proto__", "__defineGetter__", "__defineSetter__",
    "__lookupGetter__", "__lookupSetter__"}

  /** What a lookup yields: the handler registered under a name, one of the two empty handlers,
   *  or an inherited object member. */
  datatype Handler = Builtin(name: string) | NoOp | Inherited(key: string)

  /** The message of `UnknownCommandError`. */
  function UnknownCommand(name: string): string {
    "Unknown command: " + name
  }

  /** `getCommand`: a truthy table entry is returned, otherwise `UnknownCommandError` is thrown. */
  function GetCommand(name: string): Result<Handler>
  {
    if name == "fgzoom" || name == "wfgzoom" then Ok(NoOp)
    else if name in CommandMapNames then Ok(Builtin(name))
    else if name in PrototypeKeys then Ok(Inherited(name))
    else Err(UnknownCommand(name))
  }

  /** The names `CommandFactory.create` has a case for. */
  const FactoryNames: set<string> := {
    "wait", "image", "s", "l", "call", "loadplugin", "history", "eval", "wt", "position",
    "resetwait", "ct", "stopse", "style", "waitclick", "delay", "jump", "trans", "ws", "layopt",
    "move", "wm", "backlay", "playse", "button", "emb", "fgzoom", "wfgzoom", "cm", "laycount",
    "locate", "freeimage"}

  /** A factory's closure: the named handler with the line's properties bound as defaults, or an
   *  empty closure. */
  datatype Bound = BoundCommand(name: string, defaults: map<string, string>) | EmptyClosure

  /** `CommandFactory.create`: a `switch` on the name, so only the listed names are known. */
  function Create(name: string, props: map<string, string>): Result<Bound> {
    if name == "fgzoom" || name == "wfgzoom" then Ok(EmptyClosure)
    else if name in FactoryNames then Ok(BoundCommand(name, props))
    else Err(UnknownCommand(name))
  }

  // ---------------------------------------------------------------- properties

  /** Every name of the table finds its own handler; `delay` finds the delay handler. */
  lemma TableNamesFound(name: string)
    requires name in CommandMapNames && name != "fgzoom" && name != "wfgzoom"
    ensures GetCommand(name) == Ok(Builtin(name))
  {
  }

  /** A lookup fails exactly for names that are neither in the table nor inherited, and then with
   *  the unknown-command message. */
  lemma GetCommandFailsExactly(name: string)
    ensures GetCommand(name).Err? <==> name !in CommandMapNames && name !in PrototypeKeys
    ensures GetCommand(name).Err? ==> GetCommand(name).error == "Unknown command: " + name
  {
  }

  /** `fgzoom` and `wfgzoom` do nothing; `delay` is the delay handler. */
  lemma TableExamples()
    ensures GetCommand("fgzoom") == Ok(NoOp) && GetCommand("wfgzoom") == Ok(NoOp)
    ensures GetCommand("delay") == Ok(Builtin("delay"))
    ensures GetCommand("invalidCommand").Err?
  {
  }

  /** Inherited members are found by `getCommand` but rejected by the factory's `switch`. */
  lemma InheritedKeys(key: string, props: map<string, string>)
    requires key in PrototypeKeys
    ensures GetCommand(key) == Ok(Inherited(key))
    ensures Create(key, props) == Err(UnknownCommand(key))
  {
    assert key !in CommandMapNames;
    assert key !in FactoryNames;
  }

  /** The factory knows a subset of the table: each name it accepts is also found by
   *  `getCommand`; the music and right-click names are in the table only. */
  lemma FactorySubsetOfTable(name: string, props: map<string, string>)
    ensures Create(name, props).Ok? ==> GetCommand(name).Ok? && !GetCommand(name).value.Inherited?
    ensures name in {"fadeinbgm", "playbgm", "rclick", "wl", "stopbgm", "fadeoutbgm"} ==>
      GetCommand(name) == Ok(Builtin(name)) && Create(name, props).Err?
  {
    if Create(name, props).Ok? && name != "fgzoom" && name != "wfgzoom" {
      assert name in FactoryNames;
    }
  }

  /** The factory binds the line's properties as the closure's defaults. */
  lemma FactoryBindsProps(name: string, props: map<string, string>)
    requires name in FactoryNames && name != "fgzoom" && name != "wfgzoom"
    ensures Create(name, props) == Ok(BoundCommand(name, props))
  {
  }
}
