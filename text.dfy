/**
 * The Rust `str` operations the action decoders are built from, with Rust's
 * semantics: `starts_with`, `split` on a string pattern and on a set of
 * characters, `trim_start_matches`, `trim_end_matches`, `trim` (Unicode
 * `White_Space`), and `str::parse::<u16>`. Also the decimal rendering of a
 * number, the inverse of the parse.
 */
module Text {
  import opened Wrappers
  import opened Ints

  /** `str::starts_with` with a string pattern. */
  predicate StartsWith(s: string, prefix: string) {
    |prefix| <= |s| && s[..|prefix|] == prefix
  }

  /** `pat` occurs somewhere in `s`. */
  predicate Contains(s: string, pat: string) {
    exists i :: 0 <= i <= |s| && StartsWith(s[i..], pat)
  }

  /** The leftmost occurrence of `pat` in `s`, as Rust's substring searcher finds it. */
  function Find(s: string, pat: string): (r: Option<nat>)
    requires pat != []
    ensures r.Some? ==> r.value + |pat| <= |s| && StartsWith(s[r.value..], pat)
    ensures r.Some? ==> forall i :: 0 <= i < r.value ==> !StartsWith(s[i..], pat)
    ensures r.None? <==> !Contains(s, pat)
    decreases |s|
  {
    if |s| < |pat| then
      None
    else if StartsWith(s, pat) then
      assert s[0..] == s;
      Some(0)
    else
      var tail := Find(s[1..], pat);
      assert forall i :: 1 <= i <= |s| ==> s[i..] == s[1..][i - 1..];
      assert s[0..] == s;
      match tail
      case None => None
      case Some(i) => Some(i + 1)
  }

  /** The pieces joined back together with `sep` between neighbours. */
  function Join(pieces: seq<string>, sep: string): string
    decreases |pieces|
  {
    if |pieces| == 0 then []
    else if |pieces| == 1 then pieces[0]
    else pieces[0] + sep + Join(pieces[1..], sep)
  }

  /** The part of `s` in front of a first occurrence at `i` holds no occurrence. */
  lemma NoMatchBeforeFirst(s: string, pat: string, i: nat)
    requires pat != [] && i <= |s|
    requires forall j :: 0 <= j < i ==> !StartsWith(s[j..], pat)
    ensures !Contains(s[..i], pat)
  {
    forall j | 0 <= j <= i
      ensures !StartsWith(s[..i][j..], pat)
    {
      if j + |pat| <= i {
        assert s[..i][j..][..|pat|] == s[j..][..|pat|];
      }
    }
  }

  /**
   * `str::split` with a non-empty string pattern: the pieces between the
   * non-overlapping occurrences of `pat`, searched left to right.
   */
  function SplitStr(s: string, pat: string): (r: seq<string>)
    requires pat != []
    ensures |r| >= 1
    ensures Join(r, pat) == s
    ensures forall k :: 0 <= k < |r| ==> !Contains(r[k], pat)
    ensures StartsWith(s, pat) ==> |r| >= 2 && r[0] == []
    decreases |s|
  {
    match Find(s, pat)
    case None => [s]
    case Some(i) =>
      var rest := SplitStr(s[i + |pat|..], pat);
      NoMatchBeforeFirst(s, pat, i);
      assert s == s[..i] + pat + s[i + |pat|..] by {
        assert s[i..][..|pat|] == s[i..i + |pat|];
      }
      assert StartsWith(s, pat) ==> i == 0 by {
        assert s[0..] == s;
      }
      [s[..i]] + rest
  }

  /**
   * No occurrence starts before `i` when the `k`-th character of `pat` is
   * missing from where it would have to be.
   */
  lemma NoMatchBefore(s: string, pat: string, i: nat, k: nat)
    requires k < |pat| && i + k <= |s|
    requires forall j :: k <= j < i + k ==> s[j] != pat[k]
    ensures forall j :: 0 <= j < i ==> !StartsWith(s[j..], pat)
  {
    forall j | 0 <= j < i
      ensures !StartsWith(s[j..], pat)
    {
      assert s[j..][k] == s[j + k];
    }
  }

  /** An occurrence at `i` with none in front of it is the first one, and ends the first piece. */
  lemma FindAt(s: string, pat: string, i: nat)
    requires pat != [] && i + |pat| <= |s| && StartsWith(s[i..], pat)
    requires forall j :: 0 <= j < i ==> !StartsWith(s[j..], pat)
    ensures Find(s, pat) == Some(i)
    ensures UpToFirst(s, pat) == s[..i]
  {
    assert Contains(s, pat);
  }

  /** The text of `t` in front of the first occurrence of `pat`, or all of `t`. */
  function UpToFirst(t: string, pat: string): (r: string)
    requires pat != []
    ensures StartsWith(t, r)
    ensures !Contains(r, pat)
    ensures !Contains(t, pat) ==> r == t
  {
    match Find(t, pat)
    case None => t
    case Some(i) =>
      NoMatchBeforeFirst(t, pat, i);
      t[..i]
  }

  /**
   * The second piece of a split of a string that starts with the pattern is the
   * text after that pattern up to its next occurrence.
   */
  lemma SecondPiece(s: string, pat: string)
    requires pat != [] && StartsWith(s, pat)
    ensures |SplitStr(s, pat)| >= 2
    ensures SplitStr(s, pat)[1] == UpToFirst(s[|pat|..], pat)
  {
    assert s[0..] == s;
    assert Find(s, pat) == Some(0);
    var rest := s[|pat|..];
    match Find(rest, pat)
    case None =>
    case Some(i) =>
      assert rest[i + |pat|..] == rest[i + |pat|..];
  }

  /**
   * `str::split` with a set of separator characters (Rust's `&[char]` pattern):
   * every separator ends one piece and starts the next.
   */
  function SplitChars(s: string, seps: set<char>): (r: seq<string>)
    ensures |r| >= 1
    ensures forall k, j :: 0 <= k < |r| && 0 <= j < |r[k]| ==> r[k][j] !in seps
    decreases |s|
  {
    if s == [] then
      [[]]
    else
      var rest := SplitChars(s[1..], seps);
      if s[0] in seps then [[]] + rest
      else [[s[0]] + rest[0]] + rest[1..]
  }

  /** Splitting on one character and joining on it gives the text back. */
  lemma {:induction false} SplitCharJoin(s: string, c: char)
    ensures Join(SplitChars(s, {c}), [c]) == s
    decreases |s|
  {
    if s != [] {
      SplitCharJoin(s[1..], c);
      var rest := SplitChars(s[1..], {c});
      if s[0] == c {
        assert SplitChars(s, {c}) == [[]] + rest;
      } else {
        var r := SplitChars(s, {c});
        assert r == [[s[0]] + rest[0]] + rest[1..];
        if |rest| == 1 {
          assert Join(r, [c]) == [s[0]] + rest[0];
        } else {
          assert rest == [rest[0]] + rest[1..];
          assert Join(rest, [c]) == rest[0] + [c] + Join(rest[1..], [c]);
          assert r[1..] == rest[1..];
        }
      }
    }
  }

  /** A text holding no separator is one piece. */
  lemma {:induction false} SplitCharsNone(a: string, seps: set<char>)
    requires forall j :: 0 <= j < |a| ==> a[j] !in seps
    ensures SplitChars(a, seps) == [a]
    decreases |a|
  {
    if a != [] {
      SplitCharsNone(a[1..], seps);
      assert a == [a[0]] + a[1..];
    }
  }

  /** A first separator after a separator-free text `a` cuts off exactly `a`. */
  lemma {:induction false} SplitCharsFirst(a: string, c: char, b: string, seps: set<char>)
    requires c in seps
    requires forall j :: 0 <= j < |a| ==> a[j] !in seps
    ensures SplitChars(a + [c] + b, seps) == [a] + SplitChars(b, seps)
    decreases |a|
  {
    if a == [] {
      assert (a + [c] + b)[1..] == b;
    } else {
      SplitCharsFirst(a[1..], c, b, seps);
      assert (a + [c] + b)[1..] == a[1..] + [c] + b;
      assert a == [a[0]] + a[1..];
    }
  }

  /** `str::trim_start_matches` with a non-empty string pattern: strips repeated prefixes. */
  function TrimStartMatches(s: string, pat: string): (r: string)
    requires pat != []
    ensures |r| <= |s| && r == s[|s| - |r|..]
    ensures !StartsWith(r, pat)
    decreases |s|
  {
    if StartsWith(s, pat) then TrimStartMatches(s[|pat|..], pat) else s
  }

  /** A text that does not itself start with `pat` loses exactly one leading `pat`. */
  lemma TrimStartOnce(pat: string, t: string)
    requires pat != [] && !StartsWith(t, pat)
    ensures TrimStartMatches(pat + t, pat) == t
  {
    assert (pat + t)[..|pat|] == pat;
    assert (pat + t)[|pat|..] == t;
  }

  /** `str::trim_end_matches` with a character: strips every trailing copy of `c`. */
  function TrimEndMatches(s: string, c: char): (r: string)
    ensures |r| <= |s| && r == s[..|r|]
    ensures forall i :: |r| <= i < |s| ==> s[i] == c
    ensures r == [] || r[|r| - 1] != c
    decreases |s|
  {
    if s != [] && s[|s| - 1] == c then TrimEndMatches(s[..|s| - 1], c) else s
  }

  /** A text that does not itself end in `c` loses exactly one trailing `c`. */
  lemma TrimEndOnce(t: string, c: char)
    requires t == [] || t[|t| - 1] != c
    ensures TrimEndMatches(t + [c], c) == t
  {
    assert (t + [c])[..|t|] == t;
  }

  /** `char::is_whitespace`: the Unicode `White_Space` property. */
  predicate IsWhitespace(c: char) {
    var n := c as int;
    (0x9 <= n <= 0xD) || n == 0x20 || n == 0x85 || n == 0xA0 || n == 0x1680
    || (0x2000 <= n <= 0x200A) || n == 0x2028 || n == 0x2029 || n == 0x202F
    || n == 0x205F || n == 0x3000
  }

  function TrimStartWhitespace(s: string): (r: string)
    ensures |r| <= |s| && r == s[|s| - |r|..]
    ensures forall i :: 0 <= i < |s| - |r| ==> IsWhitespace(s[i])
    ensures r == [] || !IsWhitespace(r[0])
    decreases |s|
  {
    if s != [] && IsWhitespace(s[0]) then TrimStartWhitespace(s[1..]) else s
  }

  function TrimEndWhitespace(s: string): (r: string)
    ensures |r| <= |s| && r == s[..|r|]
    ensures forall i :: |r| <= i < |s| ==> IsWhitespace(s[i])
    ensures r == [] || !IsWhitespace(r[|r| - 1])
    decreases |s|
  {
    if s != [] && IsWhitespace(s[|s| - 1]) then TrimEndWhitespace(s[..|s| - 1]) else s
  }

  /** `str::trim`: leading and trailing whitespace removed. */
  function Trim(s: string): (r: string)
    ensures r == [] || (!IsWhitespace(r[0]) && !IsWhitespace(r[|r| - 1]))
  {
    TrimEndWhitespace(TrimStartWhitespace(s))
  }

  predicate IsDigit(c: char) {
    '0' <= c <= '9'
  }

  predicate AllDigits(s: string) {
    forall i :: 0 <= i < |s| ==> IsDigit(s[i])
  }

  function DigitValue(c: char): (d: nat)
    requires IsDigit(c)
    ensures d <= 9
  {
    c as int - '0' as int
  }

  function DigitChar(d: nat): (c: char)
    requires d <= 9
    ensures IsDigit(c) && DigitValue(c) == d
  {
    ('0' as int + d) as char
  }

  /** The number a string of decimal digits denotes (the reference for the parse). */
  function DigitsValue(s: string): nat
    requires AllDigits(s)
    decreases |s|
  {
    if s == [] then 0 else DigitsValue(s[..|s| - 1]) * 10 + DigitValue(s[|s| - 1])
  }

  /** The decimal rendering of `n` (what `{}` prints for an unsigned integer). */
  function DecimalText(n: nat): (r: string)
    ensures r != [] && AllDigits(r)
    ensures DigitsValue(r) == n
    decreases n
  {
    var last := [DigitChar(n % 10)];
    if n < 10 then
      assert DigitsValue(last) == DigitsValue([]) * 10 + n;
      last
    else
      var front := DecimalText(n / 10);
      assert (front + last)[..|front|] == front;
      front + last
  }

  /** The ways `str::parse::<u16>` fails (`IntErrorKind`). */
  datatype IntErrorKind = Empty | InvalidDigit | PosOverflow

  /** The digit loop of `u16::from_str_radix(_, 10)`, left to right, checking overflow per digit. */
  function ParseDigits(s: string, acc: U16): Result<U16, IntErrorKind>
    decreases |s|
  {
    if s == [] then Ok(acc)
    else if !IsDigit(s[0]) then Err(InvalidDigit)
    else if acc * 10 + DigitValue(s[0]) > U16Max then Err(PosOverflow)
    else ParseDigits(s[1..], acc * 10 + DigitValue(s[0]))
  }

  /** `str::parse::<u16>`: an optional `+`, then at least one decimal digit, at most 65535. */
  function ParseU16(s: string): Result<U16, IntErrorKind> {
    if s == [] then Err(Empty)
    else if (s[0] == '+' || s[0] == '-') && |s| == 1 then Err(InvalidDigit)
    else ParseDigits(if s[0] == '+' then s[1..] else s, 0)
  }

  /** Reference grammar for what `str::parse::<u16>` accepts. */
  predicate IsU16Text(s: string) {
    var digits := if s != [] && s[0] == '+' then s[1..] else s;
    digits != [] && AllDigits(digits) && DigitsValue(digits) <= U16Max
  }

  /** The digit loop run over `a + b` is the loop over `a`, continued over `b`. */
  lemma {:induction false} ParseDigitsAppend(a: string, b: string, acc: U16)
    ensures ParseDigits(a + b, acc) ==
      match ParseDigits(a, acc)
      case Ok(v) => ParseDigits(b, v)
      case Err(e) => Err(e)
    decreases |a|
  {
    if a != [] {
      assert (a + b)[0] == a[0];
      assert (a + b)[1..] == a[1..] + b;
      if IsDigit(a[0]) && acc * 10 + DigitValue(a[0]) <= U16Max {
        ParseDigitsAppend(a[1..], b, acc * 10 + DigitValue(a[0]));
      }
    } else {
      assert a + b == b;
    }
  }

  /** The digit loop from 0 succeeds exactly on digit strings whose value fits, and yields that value. */
  lemma {:induction false} ParseDigitsFromZero(s: string)
    ensures ParseDigits(s, 0).Ok? <==> AllDigits(s) && DigitsValue(s) <= U16Max
    ensures ParseDigits(s, 0).Ok? ==> ParseDigits(s, 0).value == DigitsValue(s)
    decreases |s|
  {
    if s != [] {
      var front, last := s[..|s| - 1], s[|s| - 1];
      assert s == front + [last];
      ParseDigitsFromZero(front);
      ParseDigitsAppend(front, [last], 0);
      if AllDigits(s) {
        assert AllDigits(front) by {
          forall i | 0 <= i < |front| ensures IsDigit(front[i]) {
            assert front[i] == s[i];
          }
        }
      }
      if AllDigits(front) && DigitsValue(front) <= U16Max && IsDigit(last) {
        assert AllDigits(s) by {
          forall i | 0 <= i < |s| ensures IsDigit(s[i]) {
            if i < |front| { assert s[i] == front[i]; }
          }
        }
      }
    }
  }

  /** `str::parse::<u16>` succeeds exactly on the reference grammar, with the value the digits denote. */
  lemma ParseU16Accepts(s: string)
    ensures ParseU16(s).Ok? <==> IsU16Text(s)
    ensures ParseU16(s).Ok? ==> ParseU16(s).value == DigitsValue(if s[0] == '+' then s[1..] else s)
  {
    if s != [] {
      var digits := if s[0] == '+' then s[1..] else s;
      ParseDigitsFromZero(digits);
      if s[0] == '-' && |s| == 1 {
        assert !IsDigit(s[0]);
      }
    } else {
      assert !IsU16Text(s);
    }
  }

  /** Parsing the decimal rendering of a `u16` gives the number back. */
  lemma ParseDecimalText(n: U16)
    ensures ParseU16(DecimalText(n)) == Ok(n)
  {
    var t := DecimalText(n);
    assert IsDigit(t[0]);
    ParseDigitsFromZero(t);
  }

  /** Text whose ends are not whitespace is left alone by `trim`. */
  lemma TrimKeeps(s: string)
    requires s == [] || (!IsWhitespace(s[0]) && !IsWhitespace(s[|s| - 1]))
    ensures Trim(s) == s
  {
  }

  /** Digits are not whitespace, so `trim` leaves a decimal rendering alone and drops one space before it. */
  lemma TrimDecimal(n: nat)
    ensures Trim(DecimalText(n)) == DecimalText(n)
    ensures Trim(" " + DecimalText(n)) == DecimalText(n)
  {
    var t := DecimalText(n);
    assert IsDigit(t[0]) && IsDigit(t[|t| - 1]);
    TrimKeeps(t);
    assert (" " + t)[1..] == t;
  }
}
