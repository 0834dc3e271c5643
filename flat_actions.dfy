/**
 * `src/action.rs`: the older flat action type, without family prefixes, and its
 * decoder `ActionVisitor::visit_str`. The main menu is still written against it.
 */
module FlatActions {
  import opened Wrappers
  import opened Ints
  import opened Text
  import opened ActionSyntax
  import Actions

  datatype ListNavDirection = Left | Right | Up | Down

  datatype Action =
    | Tick
    | Render
    | Resize(width: U16, height: U16)
    | Suspend
    | Resume
    | Quit
    | Refresh
    | Error(message: string)
    | Help
    | ToggleShowHelp
    | ScheduleIncrement
    | ScheduleDecrement
    | Increment(amount: Usize)
    | Decrement(amount: Usize)
    | CompleteInput(text: string)
    | EnterNormal
    | EnterInsert
    | EnterProcessing
    | ExitProcessing
    | Update
    | NavigateList(direction: ListNavDirection)

  /** The variants with a textual form in the keybinding config. */
  predicate Configurable(a: Action) {
    !a.Increment? && !a.Decrement? && !a.CompleteInput? && !a.EnterProcessing?
    && !a.ExitProcessing? && !a.Update?
  }

  /** The exact tokens and what they decode to. */
  const Tokens: map<string, Action> := map[
    "Tick" := Tick, "Render" := Render, "Suspend" := Suspend, "Resume" := Resume,
    "Quit" := Quit, "Refresh" := Refresh, "Help" := Help,
    "ScheduleIncrement" := ScheduleIncrement, "ScheduleDecrement" := ScheduleDecrement,
    "ToggleShowHelp" := ToggleShowHelp, "EnterInsert" := EnterInsert, "EnterNormal" := EnterNormal]

  function ParseDirection(d: string): (r: Option<ListNavDirection>)
    ensures r.Some? <==> d in {"Left", "Right", "Up", "Down"}
  {
    if d == "Left" then Some(Left)
    else if d == "Right" then Some(Right)
    else if d == "Up" then Some(Up)
    else if d == "Down" then Some(Down)
    else None
  }

  /** `ActionVisitor::visit_str` of the flat type: exact tokens, then `Error(`, `Resize(`, `NavigateList`. */
  function Decode(value: string): (r: Result<Action, DecodeError>)
    ensures r.Ok? ==> Configurable(r.value)
    ensures r.Ok? && value !in Tokens ==> r.value.Error? || r.value.Resize? || r.value.NavigateList?
    ensures r.Ok? && r.value.Error? ==> StartsWith(value, ErrorOpen)
    ensures r.Ok? && r.value.Resize? ==> StartsWith(value, ResizeOpen)
    ensures r.Ok? && r.value.NavigateList? ==> StartsWith(value, NavigateListName)
  {
    if value in Tokens then Ok(Tokens[value])
    else if StartsWith(value, ErrorOpen) then Ok(Error(ErrorMessage(value)))
    else if StartsWith(value, ResizeOpen) then
      match ResizeArgs(value, value)
      case Ok(size) => Ok(Resize(size.0, size.1))
      case Err(e) => Err(e)
    else if StartsWith(value, NavigateListName) then
      match DirectionArg(value)
      case Err(e) => Err(e)
      case Ok(d) =>
        match ParseDirection(d)
        case Some(dir) => Ok(NavigateList(dir))
        case None => Err(UnexpectedDirection(d))
    else Err(UnknownAction(value))
  }

  /** No exact token starts like an argument form. */
  lemma NotAToken(value: string)
    requires StartsWith(value, ErrorOpen) || StartsWith(value, ResizeOpen) || StartsWith(value, NavigateListName)
    ensures value !in Tokens
  {
    if StartsWith(value, ErrorOpen) {
      assert value[..|ErrorOpen|] == ErrorOpen;
      assert value[0] == 'E' && value[5] == '(';
    } else if StartsWith(value, ResizeOpen) {
      assert value[..|ResizeOpen|] == ResizeOpen;
      assert value[0] == 'R' && value[6] == '(';
    } else if StartsWith(value, NavigateListName) {
      assert value[..|NavigateListName|] == NavigateListName;
      assert value[0] == 'N';
    }
  }

  /** Every string that starts with `Error(` decodes, to the text with that wrapping stripped. */
  lemma DecodeErrorText(value: string)
    requires StartsWith(value, ErrorOpen)
    ensures Decode(value) == Ok(Error(ErrorMessage(value)))
  {
    NotAToken(value);
  }

  /**
   * `Resize(...)` decodes exactly when the inside has two comma-separated fields
   * that each trim to a `u16`, and then to those values; wrong arity and parse
   * failures are errors.
   */
  lemma DecodeResize(value: string)
    requires StartsWith(value, ResizeOpen)
    ensures var fields := ResizeFields(value);
      Decode(value).Ok? <==>
        |fields| == 2 && IsU16Text(Trim(fields[0])) && IsU16Text(Trim(fields[1]))
    ensures var fields := ResizeFields(value);
      |fields| == 2 && ParseU16(Trim(fields[0])).Ok? && ParseU16(Trim(fields[1])).Ok? ==>
        Decode(value) == Ok(Resize(ParseU16(Trim(fields[0])).value, ParseU16(Trim(fields[1])).value))
    ensures |ResizeFields(value)| != 2 ==> Decode(value) == Err(InvalidResizeFormat(value))
  {
    NotAToken(value);
    assert !StartsWith(value, ErrorOpen) by {
      assert value[1] != ErrorOpen[1];
    }
    ResizeArgsAccepts(value, value);
  }

  /** The `NavigateList` arm of the decoder. */
  lemma NavigateArm(value: string)
    requires StartsWith(value, NavigateListName)
    ensures var arg := DirectionArg(value);
      Decode(value) ==
        if arg.Err? then Err(arg.error)
        else if ParseDirection(arg.value).Some? then Ok(NavigateList(ParseDirection(arg.value).value))
        else Err(UnexpectedDirection(arg.value))
  {
    NotAToken(value);
    assert value[..|NavigateListName|] == NavigateListName;
    assert value[0] == 'N';
    assert !StartsWith(value, ErrorOpen) && !StartsWith(value, ResizeOpen);
  }

  /** `NavigateList...` decodes only to the four named directions; without a parenthesis it fails. */
  lemma DecodeNavigateList(value: string)
    requires StartsWith(value, NavigateListName)
    ensures Decode(value).Ok? <==>
      DirectionArg(value).Ok? && DirectionArg(value).value in {"Left", "Right", "Up", "Down"}
    ensures (forall j :: 0 <= j < |value| ==> value[j] != '(' && value[j] != ')') ==>
      Decode(value) == Err(MissingDirection)
  {
    NavigateArm(value);
  }

  /** Strings that match no token and none of the three argument forms are unknown actions. */
  lemma DecodeUnknown(value: string)
    ensures Decode(value) == Err(UnknownAction(value)) <==>
      value !in Tokens && !StartsWith(value, ErrorOpen) && !StartsWith(value, ResizeOpen)
      && !StartsWith(value, NavigateListName)
  {
  }

  /**
   * The namespaced action a flat action became. Both families decode a
   * `ToggleShowHelp`; mapping the flat one to Home's is a convention of this
   * model, and the help screen reacts only to the Engine one.
   */
  function Namespaced(a: Action): (r: Actions.Action)
    ensures r.Engine? <==>
      a.Tick? || a.Render? || a.Resize? || a.Suspend? || a.Resume? || a.Quit? || a.Refresh? || a.Error?
  {
    match a
    case Tick => Actions.Engine(Actions.Tick)
    case Render => Actions.Engine(Actions.Render)
    case Resize(w, h) => Actions.Engine(Actions.Resize(w, h))
    case Suspend => Actions.Engine(Actions.Suspend)
    case Resume => Actions.Engine(Actions.Resume)
    case Quit => Actions.Engine(Actions.Quit)
    case Refresh => Actions.Engine(Actions.Refresh)
    case Error(m) => Actions.Engine(Actions.Error(m))
    case Help => Actions.Home(Actions.Help)
    case ToggleShowHelp => Actions.Home(Actions.HomeAction.ToggleShowHelp)
    case ScheduleIncrement => Actions.Home(Actions.ScheduleIncrement)
    case ScheduleDecrement => Actions.Home(Actions.ScheduleDecrement)
    case Increment(n) => Actions.Home(Actions.Increment(n))
    case Decrement(n) => Actions.Home(Actions.Decrement(n))
    case CompleteInput(s) => Actions.Home(Actions.CompleteInput(s))
    case EnterNormal => Actions.Home(Actions.EnterNormal)
    case EnterInsert => Actions.Home(Actions.EnterInsert)
    case EnterProcessing => Actions.Home(Actions.EnterProcessing)
    case ExitProcessing => Actions.Home(Actions.ExitProcessing)
    case Update => Actions.Home(Actions.Update)
    case NavigateList(d) =>
      Actions.Home(Actions.NavigateList(
        match d
        case Left => Actions.Left
        case Right => Actions.Right
        case Up => Actions.Up
        case Down => Actions.Down))
  }

  /** The family prefix the namespaced form of `a` carries. */
  function FamilyPrefix(a: Action): (p: string)
    ensures p == Actions.EnginePrefix || p == Actions.HomePrefix
  {
    if Namespaced(a).Engine? then Actions.EnginePrefix else Actions.HomePrefix
  }

  /** The `Resize(` arm of the decoder passes the argument result through. */
  lemma ResizeArm(value: string)
    requires StartsWith(value, ResizeOpen)
    ensures var args := ResizeArgs(value, value);
      Decode(value) == if args.Ok? then Ok(Resize(args.value.0, args.value.1)) else Err(args.error)
  {
    NotAToken(value);
    assert value[..|ResizeOpen|] == ResizeOpen;
    assert value[1] != ErrorOpen[1];
  }

  /** An exact token means the same under the family prefix of its variant. */
  lemma TokenAgrees(t: string)
    requires t in Tokens
    ensures Actions.Decode(FamilyPrefix(Tokens[t]) + t) == Ok(Namespaced(Tokens[t]))
  {
    var a := Tokens[t];
    TokenTables(t);
    if Namespaced(a).Engine? {
      Actions.DecodeEngineToken(t);
      assert FamilyPrefix(a) == Actions.EnginePrefix;
    } else {
      Actions.DecodeHomeToken(t);
      assert FamilyPrefix(a) == Actions.HomePrefix;
    }
  }

  /** Each flat token is an exact token of the namespaced table of its family, for the same variant. */
  lemma TokenTables(t: string)
    requires t in Tokens
    ensures var n := Namespaced(Tokens[t]);
      (n.Engine? ==> t in Actions.EngineTokens && Actions.EngineTokens[t] == n.engine) &&
      (n.Home? ==> t in Actions.HomeTokens && Actions.HomeTokens[t] == n.home)
  {
  }

  /** A text without a dot is the whole engine payload of itself under `Engine.`. */
  lemma EngineDotless(t: string)
    requires '.' !in t
    ensures Actions.Decode(Actions.EnginePrefix + t) == Actions.DecodeEngine(Actions.EnginePrefix + t, t)
  {
    Actions.MissingCharNoMatch(t, Actions.EnginePrefix, '.');
    Actions.EngineFamilyOf(t);
  }

  /** A text without a dot is the whole Home payload of itself under `Home.`. */
  lemma HomeDotless(t: string)
    requires '.' !in t
    ensures Actions.Decode(Actions.HomePrefix + t) == Actions.DecodeHome(Actions.HomePrefix + t, t)
  {
    Actions.MissingCharNoMatch(t, Actions.HomePrefix, '.');
    Actions.HomeFamilyOf(t);
  }

  /** `Error(...)` without a dot means the same under `Engine.`. */
  lemma ErrorAgrees(t: string)
    requires '.' !in t && StartsWith(t, ErrorOpen)
    ensures Actions.Decode(Actions.EnginePrefix + t) == Ok(Actions.Engine(Actions.Error(ErrorMessage(t))))
  {
    EngineDotless(t);
    Actions.EngineErrorArm(Actions.EnginePrefix + t, t);
  }

  /** `Resize(...)` without a dot means the same under `Engine.`, success and size alike. */
  lemma ResizeAgrees(t: string)
    requires '.' !in t && StartsWith(t, ResizeOpen)
    ensures var r := Actions.Decode(Actions.EnginePrefix + t);
      (r.Ok? <==> Decode(t).Ok?) && (r.Ok? ==> r.value == Namespaced(Decode(t).value))
  {
    var v := Actions.EnginePrefix + t;
    EngineResizeDotless(t);
    ResizeArm(t);
    ResizeArgsIgnoresValue(v, t, t);
    ResizeOutcomes(Actions.Decode(v), Decode(t), ResizeArgs(v, t), ResizeArgs(t, t));
  }

  /** Two decoders that pass equal resize arguments through reach the same outcome. */
  lemma ResizeOutcomes(r: Result<Actions.Action, DecodeError>, f: Result<Action, DecodeError>,
                       args: Result<(U16, U16), DecodeError>, own: Result<(U16, U16), DecodeError>)
    requires r == if args.Ok? then Ok(Actions.Engine(Actions.Resize(args.value.0, args.value.1))) else Err(args.error)
    requires f == if own.Ok? then Ok(Resize(own.value.0, own.value.1)) else Err(own.error)
    requires args.Ok? <==> own.Ok?
    requires args.Ok? ==> args.value == own.value
    ensures r.Ok? <==> f.Ok?
    ensures r.Ok? ==> r.value == Namespaced(f.value)
  {
  }

  /** Under `Engine.`, a dot-free `Resize(...)` passes the argument result of its own text through. */
  lemma EngineResizeDotless(t: string)
    requires '.' !in t && StartsWith(t, ResizeOpen)
    ensures var args := ResizeArgs(Actions.EnginePrefix + t, t);
      Actions.Decode(Actions.EnginePrefix + t) ==
        if args.Ok? then Ok(Actions.Engine(Actions.Resize(args.value.0, args.value.1))) else Err(args.error)
  {
    EngineDotless(t);
    Actions.EngineResizeArm(Actions.EnginePrefix + t, t);
  }

  /** Both decoders read the same direction names as the same direction. */
  lemma DirectionAgrees(d: string)
    ensures ParseDirection(d).Some? <==> Actions.ParseDirection(d).Some?
    ensures ParseDirection(d).Some? ==>
      Namespaced(NavigateList(ParseDirection(d).value)) == Actions.Home(Actions.NavigateList(Actions.ParseDirection(d).value))
  {
  }

  /** `NavigateList...` without a dot means the same under `Home.`, success and direction alike. */
  lemma NavigateAgrees(t: string)
    requires '.' !in t && StartsWith(t, NavigateListName)
    ensures var r := Actions.Decode(Actions.HomePrefix + t);
      (r.Ok? <==> Decode(t).Ok?) && (r.Ok? ==> r.value == Namespaced(Decode(t).value))
  {
    var v := Actions.HomePrefix + t;
    HomeDotless(t);
    Actions.HomeNavigateArm(v, t);
    NavigateArm(t);
    if DirectionArg(t).Ok? {
      DirectionAgrees(DirectionArg(t).value);
    }
  }

  /** The agreement for an exact token. */
  lemma TokenCase(t: string)
    requires '.' !in t && Decode(t).Ok? && t in Tokens
    ensures Actions.Decode(FamilyPrefix(Decode(t).value) + t) == Ok(Namespaced(Decode(t).value))
  {
    assert Decode(t).value == Tokens[t];
    TokenAgrees(t);
  }

  /** The agreement for an `Error(` text. */
  lemma ErrorCase(t: string)
    requires '.' !in t && Decode(t).Ok? && t !in Tokens && Decode(t).value.Error?
    ensures Actions.Decode(FamilyPrefix(Decode(t).value) + t) == Ok(Namespaced(Decode(t).value))
  {
    var m := ErrorMessage(t);
    assert StartsWith(t, ErrorOpen);
    assert Decode(t).value == Error(m) by {
      DecodeErrorText(t);
    }
    assert FamilyPrefix(Error(m)) == Actions.EnginePrefix;
    assert Namespaced(Error(m)) == Actions.Engine(Actions.Error(m));
    ErrorAgrees(t);
  }

  /** The agreement for a `Resize(` text. */
  lemma ResizeCase(t: string)
    requires '.' !in t && Decode(t).Ok? && t !in Tokens && Decode(t).value.Resize?
    ensures Actions.Decode(FamilyPrefix(Decode(t).value) + t) == Ok(Namespaced(Decode(t).value))
  {
    ResizeAgrees(t);
    assert FamilyPrefix(Decode(t).value) == Actions.EnginePrefix;
  }

  /** The agreement for a `NavigateList` text. */
  lemma NavigateCase(t: string)
    requires '.' !in t && Decode(t).Ok? && t !in Tokens && Decode(t).value.NavigateList?
    ensures Actions.Decode(FamilyPrefix(Decode(t).value) + t) == Ok(Namespaced(Decode(t).value))
  {
    NavigateAgrees(t);
    assert FamilyPrefix(Decode(t).value) == Actions.HomePrefix;
  }

  /**
   * The flat decoder and the namespaced one agree: a flat text without a dot that
   * decodes, decodes to the same action under the family prefix of its variant.
   */
  lemma FlatAgreesWithNamespaced(t: string)
    requires '.' !in t && Decode(t).Ok?
    ensures Actions.Decode(FamilyPrefix(Decode(t).value) + t) == Ok(Namespaced(Decode(t).value))
  {
    if t in Tokens {
      TokenCase(t);
    } else if Decode(t).value.Error? {
      ErrorCase(t);
    } else if Decode(t).value.Resize? {
      ResizeCase(t);
    } else {
      NavigateCase(t);
    }
  }
}
