/**
 * The argument grammar shared by both action decoders (`src/actions.rs` and
 * `src/action.rs` carry the same code for it): the message of `Error(...)`, the
 * two numbers of `Resize(...)`, the direction of `NavigateList(...)`, and the
 * errors a decoder reports.
 */
module ActionSyntax {
  import opened Wrappers
  import opened Ints
  import opened Text

  /** What `visit_str` reports through `E::custom`, and the one input on which it panics. */
  datatype DecodeError =
    | UnknownAction(value: string)        // "Unknown Action variant: {value}"
    | UnknownEngineAction(value: string)  // "Unknown EngineAction variant: {value}"
    | UnknownHomeAction(value: string)    // "Unknown HomeAction variant: {value}"
    | InvalidResizeFormat(value: string)  // "Invalid Resize format: {value}"
    | ParseInt(kind: IntErrorKind)        // the `ParseIntError` of a width or height
    | UnexpectedDirection(found: string)  // "Unexpected list navigation direction in config: {x}"
    | MissingDirection                    // `parts[1]` out of bounds: a panic, not an `Err`

  const ErrorOpen := "Error("
  const ResizeOpen := "Resize("
  const NavigateListName := "NavigateList"

  /** The message of an `Error(...)` token: every leading `Error(` and every trailing `)` removed. */
  function ErrorMessage(payload: string): (msg: string)
    ensures !StartsWith(msg, ErrorOpen)
    ensures msg == [] || msg[|msg| - 1] != ')'
  {
    TrimEndMatches(TrimStartMatches(payload, ErrorOpen), ')')
  }

  /** A message that neither starts with `Error(` nor ends with `)` survives being wrapped and unwrapped. */
  lemma ErrorMessageOfWrapped(m: string)
    requires !StartsWith(m, ErrorOpen)
    requires m == [] || m[|m| - 1] != ')'
    ensures ErrorMessage(ErrorOpen + m + ")") == m
  {
    assert !StartsWith(m + ")", ErrorOpen) by {
      if |m| >= |ErrorOpen| {
        assert (m + ")")[..|ErrorOpen|] == m[..|ErrorOpen|];
      } else if |m| + 1 == |ErrorOpen| {
        assert (m + ")")[|m|] != ErrorOpen[|m|];
      }
    }
    assert ErrorOpen + m + ")" == ErrorOpen + (m + ")");
    TrimStartOnce(ErrorOpen, m + ")");
    TrimEndOnce(m, ')');
  }

  /** The comma-separated fields inside `Resize(...)`, before trimming. */
  function ResizeFields(payload: string): (fields: seq<string>)
    ensures |fields| >= 1
  {
    SplitChars(TrimEndMatches(TrimStartMatches(payload, ResizeOpen), ')'), {','})
  }

  /** The width and height of a `Resize(...)` token, each field trimmed and parsed as a `u16`. */
  function ResizeArgs(value: string, payload: string): (r: Result<(U16, U16), DecodeError>)
    ensures r.Err? && |ResizeFields(payload)| != 2 ==> r.error == InvalidResizeFormat(value)
    ensures r.Err? ==> r.error.InvalidResizeFormat? || r.error.ParseInt?
  {
    var fields := ResizeFields(payload);
    if |fields| == 2 then
      match ParseU16(Trim(fields[0]))
      case Err(k) => Err(ParseInt(k))
      case Ok(w) =>
        match ParseU16(Trim(fields[1]))
        case Err(k) => Err(ParseInt(k))
        case Ok(h) => Ok((w, h))
    else
      Err(InvalidResizeFormat(value))
  }

  /**
   * `Resize(...)` decodes exactly when there are two fields and each, trimmed, is
   * an optional `+` and decimal digits worth at most 65535; the pair is their values.
   */
  lemma ResizeArgsAccepts(value: string, payload: string)
    ensures var fields := ResizeFields(payload);
      ResizeArgs(value, payload).Ok? <==>
        |fields| == 2 && IsU16Text(Trim(fields[0])) && IsU16Text(Trim(fields[1]))
    ensures var fields := ResizeFields(payload);
      ResizeArgs(value, payload).Ok? ==>
        ParseU16(Trim(fields[0])) == Ok(ResizeArgs(value, payload).value.0) &&
        ParseU16(Trim(fields[1])) == Ok(ResizeArgs(value, payload).value.1)
  {
    var fields := ResizeFields(payload);
    if |fields| == 2 {
      ParseU16Accepts(Trim(fields[0]));
      ParseU16Accepts(Trim(fields[1]));
    }
  }

  /** The whole text only appears in the error: the size does not depend on it. */
  lemma ResizeArgsIgnoresValue(v1: string, v2: string, payload: string)
    ensures ResizeArgs(v1, payload).Ok? <==> ResizeArgs(v2, payload).Ok?
    ensures ResizeArgs(v1, payload).Ok? ==> ResizeArgs(v1, payload).value == ResizeArgs(v2, payload).value
  {
  }

  /** Unwrapping `Resize(a, b)` for digit strings `a` and `b` leaves `a, b`. */
  lemma ResizeInside(a: string, b: string)
    requires a != [] && AllDigits(a) && b != [] && AllDigits(b)
    ensures TrimEndMatches(TrimStartMatches(ResizeOpen + a + ", " + b + ")", ResizeOpen), ')')
      == a + ", " + b
  {
    var inside := a + ", " + b;
    assert ResizeOpen + a + ", " + b + ")" == ResizeOpen + (inside + ")");
    assert !StartsWith(inside + ")", ResizeOpen) by {
      assert (inside + ")")[0] == a[0];
      assert IsDigit(a[0]);
    }
    TrimStartOnce(ResizeOpen, inside + ")");
    assert inside[|inside| - 1] == b[|b| - 1];
    assert IsDigit(b[|b| - 1]);
    TrimEndOnce(inside, ')');
  }

  /** `a, b` for digit strings `a` and `b` splits on the comma into `a` and ` b`. */
  lemma SplitAtComma(a: string, b: string)
    requires AllDigits(a) && AllDigits(b)
    ensures SplitChars(a + ", " + b, {','}) == [a, " " + b]
  {
    assert a + ", " + b == a + [','] + (" " + b);
    SplitCharsFirst(a, ',', " " + b, {','});
    forall j | 0 <= j < |" " + b|
      ensures (" " + b)[j] !in {','}
    {
      if j > 0 {
        assert (" " + b)[j] == b[j - 1];
      }
    }
    SplitCharsNone(" " + b, {','});
  }

  /** The inside of the canonical text `Resize(w, h)` splits into `w` and ` h`. */
  lemma ResizeFieldsOfText(w: U16, h: U16)
    ensures ResizeFields(ResizeOpen + DecimalText(w) + ", " + DecimalText(h) + ")")
      == [DecimalText(w), " " + DecimalText(h)]
  {
    ResizeInside(DecimalText(w), DecimalText(h));
    SplitAtComma(DecimalText(w), DecimalText(h));
  }

  /** The canonical text `Resize(w, h)` decodes to `(w, h)`. */
  lemma ResizeArgsOfText(value: string, w: U16, h: U16)
    ensures ResizeArgs(value, ResizeOpen + DecimalText(w) + ", " + DecimalText(h) + ")") == Ok((w, h))
  {
    ResizeFieldsOfText(w, h);
    TrimDecimal(w);
    TrimDecimal(h);
    ParseDecimalText(w);
    ParseDecimalText(h);
  }

  /** One piece exactly when no separator occurs. */
  lemma {:induction false} SplitCharsOnePiece(s: string, seps: set<char>)
    ensures |SplitChars(s, seps)| == 1 <==> forall j :: 0 <= j < |s| ==> s[j] !in seps
    decreases |s|
  {
    if s != [] {
      SplitCharsOnePiece(s[1..], seps);
      assert forall j :: 1 <= j < |s| ==> s[j] == s[1..][j - 1];
    }
  }

  /** The text of `NavigateList(...)` cut at every `(` and `)`; the direction is the second piece. */
  function DirectionArg(payload: string): (r: Result<string, DecodeError>)
    ensures r.Err? <==> forall j :: 0 <= j < |payload| ==> payload[j] != '(' && payload[j] != ')'
    ensures r.Err? ==> r.error == MissingDirection
    ensures r.Ok? ==> forall j :: 0 <= j < |r.value| ==> r.value[j] != '(' && r.value[j] != ')'
  {
    var parts := SplitChars(payload, {'(', ')'});
    SplitCharsOnePiece(payload, {'(', ')'});
    if |parts| >= 2 then Ok(parts[1]) else Err(MissingDirection)
  }

  /** `NavigateList(d)` yields `d` when `d` holds no parenthesis. */
  lemma DirectionArgOfText(d: string)
    requires forall j :: 0 <= j < |d| ==> d[j] != '(' && d[j] != ')'
    ensures DirectionArg(NavigateListName + "(" + d + ")") == Ok(d)
  {
    var seps := {'(', ')'};
    var t := NavigateListName + "(" + d + ")";
    assert t == NavigateListName + ['('] + (d + [')'] + []);
    assert forall j :: 0 <= j < |NavigateListName| ==> NavigateListName[j] !in seps;
    SplitCharsFirst(NavigateListName, '(', d + [')'] + [], seps);
    SplitCharsFirst(d, ')', [], seps);
  }
}
