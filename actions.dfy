/**
 * `src/actions.rs` with its two enums `EngineAction` and `HomeAction`: the
 * namespaced action type, its `Display` (the family name, a dot, the variant),
 * and its decoder `ActionVisitor::visit_str`, a total function from text to an
 * action or an error.
 */
module Actions {
  import opened Wrappers
  import opened Ints
  import opened Text
  import opened ActionSyntax
  import Modes

  datatype ListNavDirection = Left | Right | Up | Down

  /** Process lifecycle actions, handled by the dispatch loop itself. */
  datatype EngineAction =
    | Tick
    | Render
    | Resize(width: U16, height: U16)
    | Suspend
    | Resume
    | Quit
    | Refresh
    | Error(message: string)
    | ChangeMode(mode: Modes.Mode)
    | ToggleShowHelp
    | ToggleShowModeSwitcher

  /** Actions of the Home screen. */
  datatype HomeAction =
    | Help
    | ToggleShowHelp
    | ScheduleIncrement
    | ScheduleDecrement
    | Increment(amount: Usize)
    | Decrement(amount: Usize)
    | CompleteInput(text: string)
    | EnterNormal
    | EnterInsert
    | EnterProcessing
    | ExitProcessing
    | Update
    | NavigateList(direction: ListNavDirection)

  datatype Action = Engine(engine: EngineAction) | Home(home: HomeAction)

  const EnginePrefix := "Engine."
  const HomePrefix := "Home."

  /** The variants the decoder can produce: everything with a textual form in the keybinding config. */
  predicate Configurable(a: Action) {
    match a
    case Engine(e) => !e.ChangeMode? && !e.ToggleShowModeSwitcher?
    case Home(h) =>
      h.Help? || h.ToggleShowHelp? || h.ScheduleIncrement? || h.ScheduleDecrement?
      || h.EnterInsert? || h.EnterNormal? || h.NavigateList?
  }

  /**
   * `data.split(prefix).nth(1).unwrap_or_default()` for a `data` that starts with
   * `prefix`: the text after the prefix up to the next occurrence of it (see
   * `FamilyPayloadIsSecondPiece`).
   */
  function FamilyPayload(value: string, prefix: string): (p: string)
    requires prefix != [] && StartsWith(value, prefix)
    ensures |p| <= |value| - |prefix|
  {
    UpToFirst(value[|prefix|..], prefix)
  }

  /** The payload is the second piece of splitting the text at the family prefix. */
  lemma FamilyPayloadIsSecondPiece(value: string, prefix: string)
    requires prefix != [] && StartsWith(value, prefix)
    ensures |SplitStr(value, prefix)| >= 2
    ensures FamilyPayload(value, prefix) == SplitStr(value, prefix)[1]
  {
    SecondPiece(value, prefix);
  }

  /** The four direction names of the config, and nothing else. */
  function ParseDirection(d: string): (r: Option<ListNavDirection>)
    ensures r.Some? <==> d in {"Left", "Right", "Up", "Down"}
    ensures r.Some? ==> DirectionText(r.value) == d
  {
    if d == "Left" then Some(Left)
    else if d == "Right" then Some(Right)
    else if d == "Up" then Some(Up)
    else if d == "Down" then Some(Down)
    else None
  }

  /** The `Engine.` arm of `visit_str`: exact tokens first, then `Error(`, then `Resize(`. */
  function DecodeEngine(value: string, payload: string): (r: Result<Action, DecodeError>)
    ensures r.Ok? ==> r.value.Engine? && Configurable(r.value)
    ensures r.Err? ==> !r.error.UnknownAction? && !r.error.UnknownHomeAction?
  {
    if payload in EngineTokens then Ok(Engine(EngineTokens[payload]))
    else if StartsWith(payload, ErrorOpen) then Ok(Engine(Error(ErrorMessage(payload))))
    else if StartsWith(payload, ResizeOpen) then
      match ResizeArgs(value, payload)
      case Ok(size) => Ok(Engine(Resize(size.0, size.1)))
      case Err(e) => Err(e)
    else Err(UnknownEngineAction(value))
  }

  /** The `Home.` arm of `visit_str`: exact tokens, then `NavigateList`. */
  function DecodeHome(value: string, payload: string): (r: Result<Action, DecodeError>)
    ensures r.Ok? ==> r.value.Home? && Configurable(r.value)
    ensures r.Err? ==> !r.error.UnknownAction? && !r.error.UnknownEngineAction?
  {
    if payload in HomeTokens then Ok(Home(HomeTokens[payload]))
    else if StartsWith(payload, NavigateListName) then
      match DirectionArg(payload)
      case Err(e) => Err(e)
      case Ok(d) =>
        match ParseDirection(d)
        case Some(dir) => Ok(Home(NavigateList(dir)))
        case None => Err(UnexpectedDirection(d))
    else Err(UnknownHomeAction(value))
  }

  /** `ActionVisitor::visit_str`. */
  function Decode(value: string): (r: Result<Action, DecodeError>)
    ensures r.Ok? ==> Configurable(r.value)
    ensures r.Ok? ==> (r.value.Engine? <==> StartsWith(value, EnginePrefix))
  {
    if StartsWith(value, EnginePrefix) then
      DecodeEngine(value, FamilyPayload(value, EnginePrefix))
    else if StartsWith(value, HomePrefix) then
      assert !StartsWith(value, EnginePrefix);
      DecodeHome(value, FamilyPayload(value, HomePrefix))
    else
      Err(UnknownAction(value))
  }

  function DirectionText(d: ListNavDirection): string {
    match d
    case Left => "Left"
    case Right => "Right"
    case Up => "Up"
    case Down => "Down"
  }

  /**
   * The text of an engine action after its family prefix. The source's
   * `Display` for `EngineAction` is not part of this model; this is the form the
   * keybinding config uses.
   */
  function EngineText(e: EngineAction): string {
    match e
    case Tick => "Tick"
    case Render => "Render"
    case Resize(w, h) => ResizeOpen + DecimalText(w) + ", " + DecimalText(h) + ")"
    case Suspend => "Suspend"
    case Resume => "Resume"
    case Quit => "Quit"
    case Refresh => "Refresh"
    case Error(m) => ErrorOpen + m + ")"
    case ChangeMode(m) => "ChangeMode(" + Modes.ModeName(m) + ")"
    case ToggleShowHelp => "ToggleShowHelp"
    case ToggleShowModeSwitcher => "ToggleShowModeSwitcher"
  }

  /** The text of a Home action after its family prefix, in the config form. */
  function HomeText(h: HomeAction): string {
    match h
    case Help => "Help"
    case ToggleShowHelp => "ToggleShowHelp"
    case ScheduleIncrement => "ScheduleIncrement"
    case ScheduleDecrement => "ScheduleDecrement"
    case Increment(n) => "Increment(" + DecimalText(n) + ")"
    case Decrement(n) => "Decrement(" + DecimalText(n) + ")"
    case CompleteInput(s) => "CompleteInput(" + s + ")"
    case EnterNormal => "EnterNormal"
    case EnterInsert => "EnterInsert"
    case EnterProcessing => "EnterProcessing"
    case ExitProcessing => "ExitProcessing"
    case Update => "Update"
    case NavigateList(d) => NavigateListName + "(" + DirectionText(d) + ")"
  }

  /** `impl Display for Action`: the family prefix, then the variant's text. */
  function Display(a: Action): (r: string)
    ensures a.Engine? ==> StartsWith(r, EnginePrefix) && !StartsWith(r, HomePrefix)
    ensures a.Home? ==> StartsWith(r, HomePrefix) && !StartsWith(r, EnginePrefix)
  {
    match a
    case Engine(e) =>
      var r := EnginePrefix + EngineText(e);
      assert r[..|EnginePrefix|] == EnginePrefix;
      assert r[1] != HomePrefix[1];
      r
    case Home(h) =>
      var r := HomePrefix + HomeText(h);
      assert r[..|HomePrefix|] == HomePrefix;
      assert r[1] != EnginePrefix[1];
      r
  }

  /** A text lacking some character of `pat` cannot contain `pat`. */
  lemma MissingCharNoMatch(t: string, pat: string, c: char)
    requires c in pat && c !in t
    ensures !Contains(t, pat)
  {
    var k :| 0 <= k < |pat| && pat[k] == c;
    forall i | 0 <= i <= |t|
      ensures !StartsWith(t[i..], pat)
    {
      if i + |pat| <= |t| {
        assert t[i..][..|pat|][k] == t[i + k];
      }
    }
  }

  /** The payload of `prefix + t` is `t` when `t` does not repeat the prefix. */
  lemma PayloadOf(prefix: string, t: string)
    requires prefix != [] && !Contains(t, prefix)
    ensures FamilyPayload(prefix + t, prefix) == t
  {
    var s := prefix + t;
    assert s[..|prefix|] == prefix;
    assert s[|prefix|..] == t;
  }

  /** Wrapping a message that does not mention `Engine.` in `Error(...)` does not create an occurrence. */
  lemma WrappedErrorNoPrefix(m: string)
    requires !Contains(m, EnginePrefix)
    ensures !Contains(ErrorOpen + m + ")", EnginePrefix)
  {
    var t := ErrorOpen + m + ")";
    var n := |EnginePrefix|;
    forall i | 0 <= i <= |t|
      ensures !StartsWith(t[i..], EnginePrefix)
    {
      if i + n <= |t| {
        if i == 0 {
          assert t[i..][1] == 'r';
        } else if i < |ErrorOpen| {
          assert t[i..][0] == ErrorOpen[i];
        } else if i + n <= |ErrorOpen| + |m| {
          var j := i - |ErrorOpen|;
          assert t[i..][..n] == m[j..][..n];
          assert !StartsWith(m[j..], EnginePrefix);
        } else {
          assert t[i..][|t| - 1 - i] == ')';
        }
      }
    }
  }

  /** The exact engine tokens and what they decode to. */
  const EngineTokens: map<string, EngineAction> := map[
    "Tick" := Tick, "Render" := Render, "Suspend" := Suspend, "Resume" := Resume,
    "Quit" := Quit, "Refresh" := Refresh, "ToggleShowHelp" := EngineAction.ToggleShowHelp]

  /** The exact Home tokens and what they decode to. */
  const HomeTokens: map<string, HomeAction> := map[
    "Help" := Help, "ScheduleIncrement" := ScheduleIncrement,
    "ScheduleDecrement" := ScheduleDecrement, "ToggleShowHelp" := HomeAction.ToggleShowHelp,
    "EnterInsert" := EnterInsert, "EnterNormal" := EnterNormal]

  /** After `Engine.`, each exact token decodes to its variant. */
  lemma DecodeEngineToken(tok: string)
    requires tok in EngineTokens
    ensures Decode(EnginePrefix + tok) == Ok(Engine(EngineTokens[tok]))
  {
    MissingCharNoMatch(tok, EnginePrefix, '.');
    PayloadOf(EnginePrefix, tok);
    assert StartsWith(EnginePrefix + tok, EnginePrefix);
  }

  /** After `Home.`, each exact token decodes to its variant. */
  lemma DecodeHomeToken(tok: string)
    requires tok in HomeTokens
    ensures Decode(HomePrefix + tok) == Ok(Home(HomeTokens[tok]))
  {
    MissingCharNoMatch(tok, HomePrefix, '.');
    PayloadOf(HomePrefix, tok);
    assert StartsWith(HomePrefix + tok, HomePrefix);
    assert !StartsWith(HomePrefix + tok, EnginePrefix) by {
      assert (HomePrefix + tok)[1] != EnginePrefix[1];
    }
  }

  /** Text under `Home.` is decoded by the Home arm on its payload. */
  lemma HomeArmOf(value: string)
    requires StartsWith(value, HomePrefix)
    ensures Decode(value) == DecodeHome(value, FamilyPayload(value, HomePrefix))
  {
    assert !StartsWith(value, EnginePrefix) by {
      assert value[1] == HomePrefix[1];
    }
  }

  /** `Engine.` followed by text that does not repeat it is decoded by the engine arm on that text. */
  lemma EngineFamilyOf(t: string)
    requires !Contains(t, EnginePrefix)
    ensures Decode(EnginePrefix + t) == DecodeEngine(EnginePrefix + t, t)
  {
    PayloadOf(EnginePrefix, t);
    assert (EnginePrefix + t)[..|EnginePrefix|] == EnginePrefix;
  }

  /** `Home.` followed by text that does not repeat it is decoded by the Home arm on that text. */
  lemma HomeFamilyOf(t: string)
    requires !Contains(t, HomePrefix)
    ensures Decode(HomePrefix + t) == DecodeHome(HomePrefix + t, t)
  {
    var v := HomePrefix + t;
    PayloadOf(HomePrefix, t);
    assert v[..|HomePrefix|] == HomePrefix;
    assert v[1] != EnginePrefix[1];
  }

  /** Text starting with neither family prefix is rejected as an unknown action, and only such text is. */
  lemma DecodeUnknownFamily(value: string)
    ensures Decode(value) == Err(UnknownAction(value))
      <==> !StartsWith(value, EnginePrefix) && !StartsWith(value, HomePrefix)
  {
    if StartsWith(value, HomePrefix) {
      HomeArmOf(value);
    }
  }

  /**
   * After `Engine.`, a payload that is none of the exact tokens and holds no `(`
   * is rejected as an unknown engine action.
   */
  lemma DecodeEngineUnparenthesised(value: string)
    requires StartsWith(value, EnginePrefix)
    requires FamilyPayload(value, EnginePrefix) !in EngineTokens
    requires '(' !in FamilyPayload(value, EnginePrefix)
    ensures Decode(value) == Err(UnknownEngineAction(value))
  {
    var p := FamilyPayload(value, EnginePrefix);
    MissingCharNoMatch(p, ErrorOpen, '(');
    MissingCharNoMatch(p, ResizeOpen, '(');
    assert p[0..] == p;
  }

  /**
   * After `Home.`, the decoder answers `Unknown HomeAction variant` exactly when
   * the payload is none of the tokens and does not start with `NavigateList`.
   */
  lemma DecodeHomeUnknown(value: string)
    requires StartsWith(value, HomePrefix)
    ensures var p := FamilyPayload(value, HomePrefix);
      Decode(value) == Err(UnknownHomeAction(value)) <==> p !in HomeTokens && !StartsWith(p, NavigateListName)
  {
    HomeArmOf(value);
  }

  /** `Engine.Error(...)` always decodes; the message is the payload with its `Error(` and `)` wrapping removed. */
  lemma DecodeEngineError(value: string)
    requires StartsWith(value, EnginePrefix)
    requires StartsWith(FamilyPayload(value, EnginePrefix), ErrorOpen)
    ensures Decode(value) == Ok(Engine(Error(ErrorMessage(FamilyPayload(value, EnginePrefix)))))
  {
    var p := FamilyPayload(value, EnginePrefix);
    assert Decode(value) == DecodeEngine(value, p);
    EngineErrorArm(value, p);
  }

  /** The `Error(` arm of the engine decoder keeps the stripped message. */
  lemma EngineErrorArm(value: string, p: string)
    requires StartsWith(p, ErrorOpen)
    ensures DecodeEngine(value, p) == Ok(Engine(Error(ErrorMessage(p))))
  {
    assert p[..|ErrorOpen|] == ErrorOpen;
    assert p[0] == 'E' && p[5] == '(';
    assert p !in EngineTokens;
  }

  /** The `Resize(` arm of the engine decoder passes the argument result through. */
  lemma EngineResizeArm(value: string, p: string)
    requires StartsWith(p, ResizeOpen)
    ensures var args := ResizeArgs(value, p);
      DecodeEngine(value, p) == if args.Ok? then Ok(Engine(Resize(args.value.0, args.value.1))) else Err(args.error)
  {
    assert p[..|ResizeOpen|] == ResizeOpen;
    assert p[0] == 'R' && p[1] == 'e' && p[6] == '(';
    assert p !in EngineTokens;
    assert !StartsWith(p, ErrorOpen);
  }

  /** The `NavigateList` arm of the Home decoder. */
  lemma HomeNavigateArm(value: string, p: string)
    requires StartsWith(p, NavigateListName)
    ensures var arg := DirectionArg(p);
      DecodeHome(value, p) ==
        if arg.Err? then Err(arg.error)
        else if ParseDirection(arg.value).Some? then Ok(Home(NavigateList(ParseDirection(arg.value).value)))
        else Err(UnexpectedDirection(arg.value))
  {
    assert p[..|NavigateListName|] == NavigateListName;
    assert p[0] == 'N';
    assert p !in HomeTokens;
  }

  /**
   * `Engine.Resize(...)` decodes exactly when the inside has two comma-separated
   * fields that each trim to a `u16`, and then to those two numbers; otherwise the
   * error is the wrong-arity or the parse error.
   */
  lemma DecodeEngineResize(value: string)
    requires StartsWith(value, EnginePrefix)
    requires StartsWith(FamilyPayload(value, EnginePrefix), ResizeOpen)
    ensures var p := FamilyPayload(value, EnginePrefix); var fields := ResizeFields(p);
      Decode(value).Ok? <==>
        |fields| == 2 && IsU16Text(Trim(fields[0])) && IsU16Text(Trim(fields[1]))
    ensures var p := FamilyPayload(value, EnginePrefix); var fields := ResizeFields(p);
      |fields| == 2 && ParseU16(Trim(fields[0])).Ok? && ParseU16(Trim(fields[1])).Ok? ==>
        Decode(value) == Ok(Engine(Resize(ParseU16(Trim(fields[0])).value, ParseU16(Trim(fields[1])).value)))
    ensures var p := FamilyPayload(value, EnginePrefix); var fields := ResizeFields(p);
      |fields| == 2 && ParseU16(Trim(fields[0])).Err? ==>
        Decode(value) == Err(ParseInt(ParseU16(Trim(fields[0])).error))
    ensures var p := FamilyPayload(value, EnginePrefix);
      |ResizeFields(p)| != 2 ==> Decode(value) == Err(InvalidResizeFormat(value))
  {
    var p := FamilyPayload(value, EnginePrefix);
    assert Decode(value) == DecodeEngine(value, p);
    EngineResizeArm(value, p);
    ResizeArgsAccepts(value, p);
  }

  /**
   * `Home.NavigateList...` decodes only to the four directions named by the text
   * between the first and second parenthesis; without any parenthesis the source
   * panics on `parts[1]`.
   */
  lemma DecodeHomeNavigateList(value: string)
    requires StartsWith(value, HomePrefix)
    requires StartsWith(FamilyPayload(value, HomePrefix), NavigateListName)
    ensures var p := FamilyPayload(value, HomePrefix);
      Decode(value).Ok? <==>
        DirectionArg(p).Ok? && DirectionArg(p).value in {"Left", "Right", "Up", "Down"}
    ensures var p := FamilyPayload(value, HomePrefix); var arg := DirectionArg(p);
      arg.Ok? && ParseDirection(arg.value).Some? ==>
        Decode(value) == Ok(Home(NavigateList(ParseDirection(arg.value).value)))
    ensures var p := FamilyPayload(value, HomePrefix); var arg := DirectionArg(p);
      arg.Ok? && ParseDirection(arg.value).None? ==> Decode(value) == Err(UnexpectedDirection(arg.value))
    ensures var p := FamilyPayload(value, HomePrefix);
      (forall j :: 0 <= j < |p| ==> p[j] != '(' && p[j] != ')') ==> Decode(value) == Err(MissingDirection)
  {
    var p := FamilyPayload(value, HomePrefix);
    HomeArmOf(value);
    HomeNavigateArm(value, p);
  }

  /** A doubled prefix leaves an empty payload, which no family accepts. */
  lemma DecodeDoubledPrefix(rest: string)
    ensures Decode(EnginePrefix + EnginePrefix + rest) == Err(UnknownEngineAction(EnginePrefix + EnginePrefix + rest))
    ensures Decode(HomePrefix + HomePrefix + rest) == Err(UnknownHomeAction(HomePrefix + HomePrefix + rest))
  {
    DoubledEngine(rest);
    DoubledHome(rest);
  }

  /** `Engine.Engine.` leaves an empty engine payload. */
  lemma DoubledEngine(rest: string)
    ensures Decode(EnginePrefix + EnginePrefix + rest) == Err(UnknownEngineAction(EnginePrefix + EnginePrefix + rest))
  {
    var e := EnginePrefix + EnginePrefix + rest;
    assert e[..|EnginePrefix|] == EnginePrefix;
    assert e[|EnginePrefix|..] == EnginePrefix + rest;
    assert (EnginePrefix + rest)[0..] == EnginePrefix + rest;
    assert StartsWith(EnginePrefix + rest, EnginePrefix);
    assert UpToFirst(EnginePrefix + rest, EnginePrefix) == [];
    assert Decode(e) == DecodeEngine(e, []);
  }

  /** `Home.Home.` leaves an empty Home payload. */
  lemma DoubledHome(rest: string)
    ensures Decode(HomePrefix + HomePrefix + rest) == Err(UnknownHomeAction(HomePrefix + HomePrefix + rest))
  {
    var h := HomePrefix + HomePrefix + rest;
    assert h[..|HomePrefix|] == HomePrefix;
    assert !StartsWith(h, EnginePrefix) by {
      assert h[1] != EnginePrefix[1];
    }
    assert h[|HomePrefix|..] == HomePrefix + rest;
    assert (HomePrefix + rest)[0..] == HomePrefix + rest;
    assert StartsWith(HomePrefix + rest, HomePrefix);
    assert UpToFirst(HomePrefix + rest, HomePrefix) == [];
    assert Decode(h) == DecodeHome(h, []);
  }

  /** The actions whose displayed text decodes back to them. */
  predicate RoundTrips(a: Action) {
    Configurable(a) &&
    (a.Engine? && a.engine.Error? ==>
      var m := a.engine.message;
      !Contains(m, EnginePrefix) && !StartsWith(m, ErrorOpen) && (m == [] || m[|m| - 1] != ')'))
  }

  /** A message wrapped as `Error(m)` starts with the `Error(` opener. */
  lemma WrappedStartsWithOpen(m: string)
    ensures StartsWith(ErrorOpen + m + ")", ErrorOpen)
  {
    assert (ErrorOpen + m + ")")[..|ErrorOpen|] == ErrorOpen;
  }

  /** The displayed `Error(m)` decodes back to `m` when `m` survives the unwrapping. */
  lemma ErrorRoundTrip(m: string)
    requires !Contains(m, EnginePrefix) && !StartsWith(m, ErrorOpen) && (m == [] || m[|m| - 1] != ')')
    ensures Decode(Display(Engine(Error(m)))) == Ok(Engine(Error(m)))
  {
    var t := ErrorOpen + m + ")";
    assert Display(Engine(Error(m))) == EnginePrefix + t;
    assert Decode(EnginePrefix + t) == DecodeEngine(EnginePrefix + t, t) by {
      WrappedErrorNoPrefix(m);
      EngineFamilyOf(t);
    }
    WrappedStartsWithOpen(m);
    EngineErrorArm(EnginePrefix + t, t);
    ErrorMessageOfWrapped(m);
  }

  /** The displayed `Resize(w, h)` decodes back to the same size. */
  lemma ResizeRoundTrip(w: U16, h: U16)
    ensures Decode(Display(Engine(Resize(w, h)))) == Ok(Engine(Resize(w, h)))
  {
    var t := EngineText(Resize(w, h));
    var value := EnginePrefix + t;
    assert '.' !in t by {
      assert AllDigits(DecimalText(w)) && AllDigits(DecimalText(h));
    }
    MissingCharNoMatch(t, EnginePrefix, '.');
    PayloadOf(EnginePrefix, t);
    assert t[..|ResizeOpen|] == ResizeOpen;
    assert Decode(value) == DecodeEngine(value, t);
    EngineResizeArm(value, t);
    ResizeArgsOfText(value, w, h);
  }

  /** A direction's name holds no dot and no parenthesis, and reads back as that direction. */
  lemma DirectionTextPlain(d: ListNavDirection)
    ensures '.' !in DirectionText(d) && ParseDirection(DirectionText(d)) == Some(d)
    ensures forall j :: 0 <= j < |DirectionText(d)| ==> DirectionText(d)[j] != '(' && DirectionText(d)[j] != ')'
  {
    match d
    case Left =>
    case Right =>
    case Up =>
    case Down =>
  }

  /** The displayed `NavigateList(d)` decodes back to the same direction. */
  lemma NavigateRoundTrip(d: ListNavDirection)
    ensures Decode(Display(Home(NavigateList(d)))) == Ok(Home(NavigateList(d)))
  {
    var t := HomeText(NavigateList(d));
    NavigateTextFamily(d);
    NavigateTextArg(d);
    DirectionTextPlain(d);
    HomeNavigateArm(HomePrefix + t, t);
  }

  /** The displayed list navigation is decoded by the Home arm on its own text. */
  lemma NavigateTextFamily(d: ListNavDirection)
    ensures var t := HomeText(NavigateList(d));
      Display(Home(NavigateList(d))) == HomePrefix + t && Decode(HomePrefix + t) == DecodeHome(HomePrefix + t, t)
  {
    var t := HomeText(NavigateList(d));
    DirectionTextPlain(d);
    assert '.' !in t;
    MissingCharNoMatch(t, HomePrefix, '.');
    HomeFamilyOf(t);
  }

  /** The displayed list navigation starts with `NavigateList` and carries the direction's name as argument. */
  lemma NavigateTextArg(d: ListNavDirection)
    ensures var t := HomeText(NavigateList(d));
      StartsWith(t, NavigateListName) && DirectionArg(t) == Ok(DirectionText(d))
  {
    var t := HomeText(NavigateList(d));
    assert t[..|NavigateListName|] == NavigateListName;
    DirectionTextPlain(d);
    DirectionArgOfText(DirectionText(d));
  }

  /** Decoding the displayed text of an action with a config form gives the action back. */
  lemma DisplayRoundTrip(a: Action)
    requires RoundTrips(a)
    ensures Decode(Display(a)) == Ok(a)
  {
    if a.Engine? {
      var e := a.engine;
      if e.Error? {
        ErrorRoundTrip(e.message);
      } else if e.Resize? {
        ResizeRoundTrip(e.width, e.height);
      } else {
        var t := EngineText(e);
        assert t in EngineTokens && EngineTokens[t] == e;
        DecodeEngineToken(t);
      }
    } else {
      var h := a.home;
      if h.NavigateList? {
        NavigateRoundTrip(h.direction);
      } else {
        var t := HomeText(h);
        assert t in HomeTokens && HomeTokens[t] == h;
        DecodeHomeToken(t);
      }
    }
  }

  /** The payload of `Engine.Error(see Engine.log)` stops in front of the second `Engine.`. */
  lemma CutPayload()
    ensures FamilyPayload(Display(Engine(Error("see Engine.log"))), EnginePrefix) == ErrorOpen + "see "
  {
    var cut := ErrorOpen + "see ";
    var t := EngineText(Error("see Engine.log"));
    assert t == cut + (EnginePrefix + "log)");
    var s := EnginePrefix + t;
    assert s[|EnginePrefix|..] == t;
    assert UpToFirst(t, EnginePrefix) == cut by {
      assert t[|cut|..] == EnginePrefix + "log)";
      assert forall j :: 1 <= j < |cut| + 1 ==> t[j] != 'n' by {
        assert t[1..|cut| + 1] == cut[1..] + ['E'];
      }
      NoMatchBefore(t, EnginePrefix, |cut|, 1);
      FindAt(t, EnginePrefix, |cut|);
      assert t[..|cut|] == cut;
    }
  }

  /** A message that mentions `Engine.` is cut at that point: the round trip does not hold for it. */
  lemma ErrorMessageCutAtPrefix()
    ensures Decode(Display(Engine(Error("see Engine.log")))) == Ok(Engine(Error("see ")))
  {
    var s := Display(Engine(Error("see Engine.log")));
    var cut := ErrorOpen + "see ";
    assert Decode(s) == DecodeEngine(s, cut) by {
      CutPayload();
    }
    assert DecodeEngine(s, cut) == Ok(Engine(Error(ErrorMessage(cut)))) by {
      assert cut[..|ErrorOpen|] == ErrorOpen;
      EngineErrorArm(s, cut);
    }
    assert ErrorMessage(cut) == "see " by {
      TrimStartOnce(ErrorOpen, "see ");
      var r := TrimEndMatches("see ", ')');
      assert |r| == 4 by {
        assert "see "[3] != ')';
      }
    }
  }
}
