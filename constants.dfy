/** The constant tables of the interpreter: the block-command pairs, the event names dispatched
 *  on the window, and the registry stub whose counter the game polls. */
module Constants {
  import opened Wrappers

  /** Opening block command to its closing command. */
  const CommandBlocks: map<string, string> := map[
    "iscript" := "endscript",
    "macro" := "endmacro",
    "if" := "endif",
    "link" := "endlink",
    "indent" := "endindent"
  ]

  const Openers: set<string> := {"iscript", "macro", "if", "link", "indent"}
  const Closers: set<string> := {"endscript", "endmacro", "endif", "endlink", "endindent"}

  /** `COMMAND_BLOCKS[name]`: the closer of an opener; `None` stands for the `undefined` read of
   *  any other name. */
  function CloserOf(name: string): (r: Option<string>)
    ensures r.Some? <==> name in Openers
    ensures r.Some? ==> r.value in Closers
  {
    if name in CommandBlocks then Some(CommandBlocks[name]) else None
  }

  /** The keys of the table are exactly the openers and its values exactly the closers. */
  lemma CommandBlocksPairs()
    ensures CommandBlocks.Keys == Openers
    ensures CommandBlocks.Values == Closers
  {
    var v := CommandBlocks.Values;
    assert CommandBlocks["iscript"] in v && CommandBlocks["macro"] in v && CommandBlocks["if"] in v;
    assert CommandBlocks["link"] in v && CommandBlocks["indent"] in v;
  }

  /** No opener is also a closer, and distinct openers have distinct closers. */
  lemma CommandBlocksInjective()
    ensures Openers !! Closers
    ensures forall a, b :: a in CommandBlocks && b in CommandBlocks && CommandBlocks[a] == CommandBlocks[b] ==> a == b
  {
  }

  /** The events dispatched on the window by the engine and its handlers. */
  datatype EngineEvent =
    | Continue | SubroutineCancelled | AllSubroutinesCancelled | StopSe | StopBgm | StopTransition
    | FadeoutBgm | TransitionEnded | TextClick | Click | PauseBgm | ResumeBgm

  /** The event type string each event is dispatched under. */
  function EventName(e: EngineEvent): string {
    match e
    case Continue => "engine_continue"
    case SubroutineCancelled => "engine_subroutine_cancelled"
    case AllSubroutinesCancelled => "engine_all_subroutines_cancelled"
    case StopSe => "stopse"
    case StopBgm => "stopbgm"
    case StopTransition => "stoptrans"
    case FadeoutBgm => "fadeoutbgm"
    case TransitionEnded => "wt"
    case TextClick => "text_click"
    case Click => "click"
    case PauseBgm => "pausebgm"
    case ResumeBgm => "resumebgm"
  }

  /** Distinct events are dispatched under distinct names, so a listener hears only its event. */
  lemma EventNamesDistinct(a: EngineEvent, b: EngineEvent)
    requires EventName(a) == EventName(b)
    ensures a == b
  {
    match a
    case Continue => assert EventName(a)[7] == 'c';
    case SubroutineCancelled => assert EventName(a)[7] == 's';
    case AllSubroutinesCancelled => assert EventName(a)[7] == 'a';
    case StopSe => assert EventName(a)[4] == 's';
    case StopBgm => assert EventName(a)[4] == 'b';
    case StopTransition => assert EventName(a)[4] == 't';
    case FadeoutBgm => assert EventName(a)[0] == 'f';
    case TransitionEnded => assert |EventName(a)| == 2;
    case TextClick => assert EventName(a)[0] == 't';
    case Click => assert EventName(a)[0] == 'c';
    case PauseBgm => assert EventName(a)[0] == 'p';
    case ResumeBgm => assert EventName(a)[0] == 'r';
  }

  /** The module-level registry counter behind `GLOBALS.System.readRegValue`. */
  class Registry {
    var value: int

    constructor()
      ensures value == 54
    {
      value := 54;
    }

    /** Post-increment: returns the current counter, then raises it by one. */
    method ReadRegValue() returns (r: int)
      modifies this
      ensures r == old(value) && value == old(value) + 1
    {
      r := value;
      value := value + 1;
    }
  }

  /** The first read of a fresh registry gives 54 and the next one 55. */
  method FirstTwoReads() returns (first: int, second: int)
    ensures first == 54 && second == 55
  {
    var registry := new Registry();
    first := registry.ReadRegValue();
    second := registry.ReadRegValue();
  }
}
