/** The state bags the command handlers write: the engine's `commandStorage` record
 *  (`src/types/CommandStorage.ts`), the legacy engine's `history`, and the property parsing and
 *  deep merge each handler performs. Each handler is a function from the old record and the tag's
 *  properties to the new record, or to the validation failure it throws. */
module Storage {
  import opened Wrappers
  import opened JsNumber
  import opened Schemas
  import Motion

  /** A sub-record with one optional boolean: `playse.playing`, `move.moving`,
   *  `clickskip.enabled` and the like. */
  datatype Switch = Switch(on: Option<bool>)

  datatype Speed = NoWait | UserSpeed | Chars(n: int)
  datatype DelayState = DelayState(speed: Option<Speed>)
  datatype VideoState = VideoState(visible: Option<bool>, left: Option<int>, top: Option<int>, width: Option<int>, height: Option<int>)
  datatype RClickState = RClickState(call: Option<bool>, jump: Option<bool>, target: Option<string>, storage: Option<string>, enabled: Option<bool>)
  datatype HistoryState = HistoryState(output: Option<bool>, enabled: Option<bool>)
  datatype Stamp = Stamp(timestamp: Option<real>)

  /** `CommandStorage`: every sub-record is optional. */
  datatype CommandStorage = CommandStorage(
    playse: Option<Switch>,
    playbgm: Option<Switch>,
    trans: Option<Switch>,
    move: Option<Switch>,
    video: Option<VideoState>,
    resetWait: Option<Stamp>,
    rclick: Option<RClickState>,
    history: Option<HistoryState>,
    delay: Option<DelayState>,
    clickskip: Option<Switch>)

  /** The engine starts with a text delay of 20 and nothing else. */
  const InitialStorage: CommandStorage :=
    CommandStorage(None, None, None, None, None, None, None, None, Some(DelayState(Some(Chars(20)))), None)

  // ---------------------------------------------------------------- object validation

  /** The issues of a failed field, none otherwise. */
  function Problems<T>(p: Parsed<T>): seq<Issue> {
    if p.Failure? then p.issues else []
  }

  /** `.strict()`: keys outside the shape are one issue. */
  function UnknownKeys(props: map<string, string>, shape: set<string>): (r: seq<Issue>)
    ensures r == [] <==> props.Keys <= shape
  {
    if props.Keys <= shape then [] else [UnrecognizedKeys(props.Keys - shape)]
  }

  /** A required field: an absent one is validated as `undefined`. */
  function Required<T>(props: map<string, string>, key: string, schema: JsValue -> Parsed<T>): Parsed<T> {
    if key in props then schema(Str(props[key])) else schema(Undefined)
  }

  /** An `.optional()` field: absence is `undefined`, and the key is left out of the result. */
  function Optional<T>(props: map<string, string>, key: string, schema: JsValue -> Parsed<T>): Parsed<Option<T>> {
    if key !in props then Success(None)
    else
      match schema(Str(props[key]))
      case Success(x) => Success(Some(x))
      case Failure(issues) => Failure(issues)
      case Thrown(m) => Thrown(m)
  }

  /** `z.string()` on a property, which is always a string. */
  function AnyString(v: JsValue): Parsed<string> {
    if v.Str? then Success(v.s) else Failure([InvalidType])
  }

  /** Later values win; an absent one keeps the earlier. */
  function Over<T>(newer: Option<T>, older: Option<T>): (r: Option<T>)
    ensures newer.Some? ==> r == newer
    ensures newer.None? ==> r == older
  {
    if newer.Some? then newer else older
  }

  // ---------------------------------------------------------------- delay

  /** `speed`: `'nowait'`, `'user'`, or an integer. The union takes the first option that
   *  passes; failing that, the issues of the first option that failed without aborting (only
   *  the integer's refinements can); failing that, its own issue. */
  function SpeedSchema(v: JsValue): Parsed<Speed> {
    if v == Str("nowait") then Success(NoWait)
    else if v == Str("user") then Success(UserSpeed)
    else
      match IntegerSchema(None, None, v)
      case Success(n) => Success(Chars(n))
      case Failure(issues) => if issues == [InvalidType] then Failure([InvalidUnion]) else Failure(issues)
      case Thrown(m) => Thrown(m)
  }

  /** `delayCommand`: validate, then merge `{delay: parsed}`. */
  function Delay(s: CommandStorage, props: map<string, string>): Parsed<CommandStorage> {
    var speed := Required(props, "speed", SpeedSchema);
    var issues := Problems(speed) + UnknownKeys(props, {"speed"});
    if issues != [] then Failure(issues)
    else if speed.Thrown? then Thrown(speed.message)
    else Success(s.(delay := Some(DelayState(Some(speed.value)))))
  }

  /** A delay in characters is stored as its number, whatever was stored before, and nothing
   *  else changes. */
  lemma DelayStoresNumber(s: CommandStorage, n: int)
    ensures Delay(s, map["speed" := Motion.IntText(n)]) == Success(s.(delay := Some(DelayState(Some(Chars(n))))))
  {
    var props := map["speed" := Motion.IntText(n)];
    SpeedOfInt(n);
    assert props.Keys == {"speed"};
    assert Required(props, "speed", SpeedSchema) == Success(Chars(n));
  }

  /** An integer written in decimal is a valid speed. */
  lemma SpeedOfInt(n: int)
    ensures SpeedSchema(Str(Motion.IntText(n))) == Success(Chars(n))
  {
    IntegerOfText(n);
    var t := Motion.IntText(n);
    Motion.IntTextNumber(n);
    assert t != "nowait" && t != "user" by {
      assert Motion.IsCoordinate(t);
      assert t[0] == '-' || JsString.IsDigit(t[0]);
    }
  }

  /** The two words are stored literally. */
  lemma DelayStoresWords(s: CommandStorage)
    ensures Delay(s, map["speed" := "nowait"]) == Success(s.(delay := Some(DelayState(Some(NoWait)))))
    ensures Delay(s, map["speed" := "user"]) == Success(s.(delay := Some(DelayState(Some(UserSpeed)))))
  {
  }

  /** A delay succeeds exactly when `speed` is given, valid, and alone; then only `delay`
   *  changes. */
  lemma DelayExact(s: CommandStorage, props: map<string, string>)
    ensures Delay(s, props).Success? <==> props.Keys == {"speed"} && SpeedSchema(Str(props["speed"])).Success?
    ensures Delay(s, props).Success? ==> Delay(s, props).value.(delay := s.delay) == s
    ensures !Delay(s, props).Thrown?
  {
  }

  /** The issues a rejected delay reports: a missing or non-numeric speed fails the whole union,
   *  while a fraction reports the integer option's own refinement issue. */
  lemma DelayIssues(s: CommandStorage)
    ensures Delay(s, map[]) == Failure([InvalidUnion])
    ensures Delay(s, map["speed" := "abc"]) == Failure([InvalidUnion])
    ensures Delay(s, map["speed" := "5.5"]) == Failure([NotInteger])
  {
    DelayRejects("abc", [InvalidUnion]);
    DelayRejects("5.5", [NotInteger]);
  }

  /** A speed the union rejects with `issues` is the delay's only issue. */
  lemma DelayRejects(speed: string, issues: seq<Issue>)
    requires speed == "abc" || speed == "5.5"
    requires issues == (if speed == "abc" then [InvalidUnion] else [NotInteger])
    ensures forall s: CommandStorage :: Delay(s, map["speed" := speed]) == Failure(issues)
  {
    if speed == "abc" {
      WordRejected();
    } else {
      FractionRejected();
    }
    assert SpeedSchema(Str(speed)) == Failure(issues);
    assert map["speed" := speed].Keys == {"speed"};
  }

  // ---------------------------------------------------------------- rclick

  /** `rightClickCommand`'s shape. */
  function RClickFields(props: map<string, string>): (Parsed<Option<bool>>, Parsed<Option<bool>>, Parsed<Option<string>>, Parsed<Option<string>>, Parsed<Option<bool>>) {
    (Optional(props, "call", BooleanSchema), Optional(props, "jump", BooleanSchema),
     Optional(props, "target", AnyString), Optional(props, "storage", AnyString),
     Optional(props, "enabled", BooleanSchema))
  }

  const RClickShape: set<string> := {"call", "jump", "target", "storage", "enabled"}

  /** `rightClickCommand`: validate, then deep-merge under `rclick`. */
  function RightClick(s: CommandStorage, props: map<string, string>): Parsed<CommandStorage> {
    var (call, jump, target, storage, enabled) := RClickFields(props);
    var issues := Problems(call) + Problems(jump) + Problems(target) + Problems(storage) + Problems(enabled)
      + UnknownKeys(props, RClickShape);
    if issues != [] then Failure(issues)
    else if call.Thrown? || jump.Thrown? || target.Thrown? || storage.Thrown? || enabled.Thrown? then Thrown("")
    else
      var prev := if s.rclick.Some? then s.rclick.value else RClickState(None, None, None, None, None);
      Success(s.(rclick := Some(RClickState(
        Over(call.value, prev.call), Over(jump.value, prev.jump), Over(target.value, prev.target),
        Over(storage.value, prev.storage), Over(enabled.value, prev.enabled)))))
  }

  /** A given property overwrites the stored one, an omitted one keeps it, and nothing outside
   *  `rclick` changes. */
  lemma RightClickMerges(s: CommandStorage, props: map<string, string>)
    requires RightClick(s, props).Success?
    ensures var r := RightClick(s, props).value;
      && r.(rclick := s.rclick) == s
      && r.rclick.Some?
      && ("target" in props ==> r.rclick.value.target == Some(props["target"]))
      && ("storage" in props ==> r.rclick.value.storage == Some(props["storage"]))
      && ("enabled" in props ==> r.rclick.value.enabled == Some(props["enabled"] == "true"))
      && ("target" !in props && s.rclick.Some? ==> r.rclick.value.target == s.rclick.value.target)
      && ("enabled" !in props && s.rclick.Some? ==> r.rclick.value.enabled == s.rclick.value.enabled)
  {
    if "enabled" in props {
      BooleanSchemaExact(Str(props["enabled"]));
    }
  }

  /** Invalid input writes nothing: a non-boolean flag or an unknown key is a failure. */
  lemma RightClickRejects(s: CommandStorage, props: map<string, string>)
    requires ("call" in props && props["call"] != "true" && props["call"] != "false") || !(props.Keys <= RClickShape)
    ensures RightClick(s, props).Failure?
  {
  }

  // ---------------------------------------------------------------- clickskip

  /** `clickSkipCommand`: `enabled` is required. */
  function ClickSkip(s: CommandStorage, props: map<string, string>): Parsed<CommandStorage> {
    var enabled := Required(props, "enabled", BooleanSchema);
    var issues := Problems(enabled) + UnknownKeys(props, {"enabled"});
    if issues != [] then Failure(issues)
    else if enabled.Thrown? then Thrown(enabled.message)
    else Success(s.(clickskip := Some(Switch(Some(enabled.value)))))
  }

  /** The flag is stored exactly when it is a boolean word given alone, and nothing else
   *  changes. */
  lemma ClickSkipExact(s: CommandStorage, props: map<string, string>)
    ensures ClickSkip(s, props).Success? <==> props.Keys == {"enabled"} && (props["enabled"] == "true" || props["enabled"] == "false")
    ensures ClickSkip(s, props).Success? ==>
      ClickSkip(s, props).value == s.(clickskip := Some(Switch(Some(props["enabled"] == "true"))))
  {
    if "enabled" in props {
      BooleanSchemaExact(Str(props["enabled"]));
    }
  }

  /** A missing flag fails the boolean union. */
  lemma ClickSkipIssues(s: CommandStorage)
    ensures ClickSkip(s, map[]) == Failure([InvalidUnion])
    ensures ClickSkip(s, map["enabled" := "yes"]) == Failure([InvalidUnion])
  {
    assert map["enabled" := "yes"].Keys == {"enabled"};
  }

  // ---------------------------------------------------------------- video

  const VideoShape: set<string> := {"visible", "left", "top", "width", "height"}

  function IntegerProp(v: JsValue): Parsed<int> { IntegerSchema(None, None, v) }

  /** `videoCommand`: validate, then deep-merge under `video`. */
  function Video(s: CommandStorage, props: map<string, string>): Parsed<CommandStorage> {
    var visible := Optional(props, "visible", BooleanSchema);
    var left := Optional(props, "left", IntegerProp);
    var top := Optional(props, "top", IntegerProp);
    var width := Optional(props, "width", IntegerProp);
    var height := Optional(props, "height", IntegerProp);
    var issues := Problems(visible) + Problems(left) + Problems(top) + Problems(width) + Problems(height)
      + UnknownKeys(props, VideoShape);
    if issues != [] then Failure(issues)
    else if visible.Thrown? || left.Thrown? || top.Thrown? || width.Thrown? || height.Thrown? then Thrown("")
    else
      var prev := if s.video.Some? then s.video.value else VideoState(None, None, None, None, None);
      Success(s.(video := Some(VideoState(
        Over(visible.value, prev.visible), Over(left.value, prev.left), Over(top.value, prev.top),
        Over(width.value, prev.width), Over(height.value, prev.height)))))
  }

  /** Given integers overwrite, omitted fields keep their values, and nothing outside `video`
   *  changes. */
  lemma VideoMerges(s: CommandStorage, props: map<string, string>)
    requires Video(s, props).Success?
    ensures var r := Video(s, props).value;
      && r.(video := s.video) == s
      && r.video.Some?
      && ("left" in props ==> r.video.value.left.Some? && r.video.value.left.value as real == ToNumber(props["left"]).r)
      && ("left" !in props && s.video.Some? ==> r.video.value.left == s.video.value.left)
      && ("visible" !in props && s.video.Some? ==> r.video.value.visible == s.video.value.visible)
  {
    if "left" in props {
      IntegerSchemaExact(None, None, Str(props["left"]));
    }
  }

  /** A fractional coordinate is rejected. */
  lemma VideoRejectsFraction(s: CommandStorage)
    ensures Video(s, map["left" := "5.5"]).Failure?
  {
    IntegerRejects();
  }

  // ---------------------------------------------------------------- move

  /** The validated `move` request handed to the renderer. */
  datatype MoveRequest = MoveRequest(layer: string, page: string, time: int, path: seq<Motion.Point>)

  /** `path` is transformed by `transformMoveInstruction`, whose error is thrown. */
  function PathSchema(v: JsValue): Parsed<seq<Motion.Point>> {
    if !v.Str? then Failure([InvalidType])
    else
      match Motion.TransformMoveInstruction(v.s)
      case Ok(points) => Success(points)
      case Err(m) => Thrown(m)
  }

  function MovePage(v: JsValue): Parsed<string> { PageSchema(v) }

  const MoveShape: set<string> := {"layer", "page", "time", "path"}

  /** `moveCommand`'s validation: `layer`, `time` and `path` are required, `page` defaults to
   *  `'fore'`. A thrown transform ends validation at once. */
  function ParseMove(props: map<string, string>): Parsed<MoveRequest> {
    var layer := Required(props, "layer", AnyString);
    var page := Optional(props, "page", MovePage);
    var time := Required(props, "time", IntegerProp);
    var path := Required(props, "path", PathSchema);
    if path.Thrown? then Thrown(path.message)
    else
      var issues := Problems(layer) + Problems(page) + Problems(time) + Problems(path) + UnknownKeys(props, MoveShape);
      if issues != [] || layer.Thrown? || page.Thrown? || time.Thrown? then Failure(issues)
      else Success(MoveRequest(layer.value, if page.value.Some? then page.value.value else "fore", time.value, path.value))
  }

  /** `moveCommand`'s storage update: merge `{move: {moving: true}}`. */
  function Move(s: CommandStorage, props: map<string, string>): Parsed<CommandStorage> {
    match ParseMove(props)
    case Success(_) => Success(s.(move := Some(Switch(Some(true)))))
    case Failure(issues) => Failure(issues)
    case Thrown(m) => Thrown(m)
  }

  /** A valid move sets `move.moving`, keeps every other key (the initial delay of 20 among
   *  them), and defaults the page to `'fore'`. */
  lemma MoveSetsMoving(s: CommandStorage, props: map<string, string>)
    requires ParseMove(props).Success?
    ensures Move(s, props) == Success(s.(move := Some(Switch(Some(true)))))
    ensures "page" !in props ==> ParseMove(props).value.page == "fore"
    ensures Move(InitialStorage, props).value.delay == Some(DelayState(Some(Chars(20))))
  {
  }

  /** A malformed path throws its own message, whatever the other properties are. */
  lemma MoveRejectsPath(s: CommandStorage, props: map<string, string>)
    requires "path" in props && Motion.TransformMoveInstruction(props["path"]).Err?
    ensures Move(s, props) == Thrown(Motion.TransformMoveInstruction(props["path"]).error)
  {
  }

  /** A move without a layer or time is a validation failure and writes nothing. */
  lemma MoveRequiresLayer(s: CommandStorage, props: map<string, string>)
    requires "layer" !in props && !("path" in props && Motion.TransformMoveInstruction(props["path"]).Err?)
    ensures Move(s, props).Failure?
  {
  }

  // ---------------------------------------------------------------- history (legacy engine)

  /** The legacy engine's `history` record. */
  datatype History = History(output: bool, enabled: bool)

  /** `z.string().transform(value => value === 'true')`. */
  function TrueWord(v: JsValue): Parsed<bool> {
    if v.Str? then Success(v.s == "true") else Failure([InvalidType])
  }

  const HistoryShape: set<string> := {"output", "enabled"}

  /** `historyCommand`: given fields are `'true'` or not; absent ones keep their value. */
  function HistoryUpdate(h: History, props: map<string, string>): Parsed<History> {
    var output := Optional(props, "output", TrueWord);
    var enabled := Optional(props, "enabled", TrueWord);
    var issues := Problems(output) + Problems(enabled) + UnknownKeys(props, HistoryShape);
    if issues != [] then Failure(issues)
    else if output.Thrown? || enabled.Thrown? then Thrown("")
    else Success(History(
      if output.value.Some? then output.value.value else h.output,
      if enabled.value.Some? then enabled.value.value else h.enabled))
  }

  /** `createHistoryCommand`: the call's properties are spread over the bound defaults. */
  function CreatedHistoryUpdate(h: History, defaults: map<string, string>, props: map<string, string>): Parsed<History> {
    HistoryUpdate(h, defaults + props)
  }

  /** The history update succeeds exactly without unknown keys; each given field is whether it
   *  reads `'true'`, each absent one is unchanged. */
  lemma HistoryExact(h: History, props: map<string, string>)
    ensures HistoryUpdate(h, props).Success? <==> props.Keys <= HistoryShape
    ensures HistoryUpdate(h, props).Success? ==>
      HistoryUpdate(h, props).value == History(
        if "output" in props then props["output"] == "true" else h.output,
        if "enabled" in props then props["enabled"] == "true" else h.enabled)
  {
  }

  /** A property given at call time overrides the same default; a default still applies where
   *  the call is silent. */
  lemma CallPropsOverrideDefaults(h: History, defaults: map<string, string>, props: map<string, string>)
    requires (defaults + props).Keys <= HistoryShape
    ensures var r := CreatedHistoryUpdate(h, defaults, props);
      && r.Success?
      && ("enabled" in props ==> r.value.enabled == (props["enabled"] == "true"))
      && ("enabled" !in props && "enabled" in defaults ==> r.value.enabled == (defaults["enabled"] == "true"))
      && ("enabled" !in props && "enabled" !in defaults ==> r.value.enabled == h.enabled)
  {
    HistoryExact(h, defaults + props);
  }
}
