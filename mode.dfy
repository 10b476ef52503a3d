/** Start-up mode selection (main.py:67-78): mode 0 transmits, mode 1
    (the default) receives; any other argument falls back to 1 with a
    warning. The argument is converted with Python's `int()`, whose decimal
    grammar is modelled here for ASCII text. */
module Mode {
  import opened Optional

  const TRANSMIT: int := 0
  const RECEIVE: int := 1

  /** The whitespace `int()` skips around a decimal, restricted to ASCII:
      space, tab, newline, vertical tab, form feed and carriage return. The
      separators 0x1c-0x1f, which `str.strip()` removes, are not among them. */
  predicate IsSpace(c: char) {
    c == ' ' || 9 <= c as int <= 13
  }

  predicate IsDigit(c: char) {
    '0' <= c <= '9'
  }

  predicate AllSpace(w: string) {
    forall i :: 0 <= i < |w| ==> IsSpace(w[i])
  }

  function StripLeft(s: string): (r: string)
    ensures |r| <= |s| && r == s[|s| - |r|..]
    ensures r != [] ==> !IsSpace(r[0])
    ensures AllSpace(s[..|s| - |r|])
  {
    if s != [] && IsSpace(s[0]) then
      var r := StripLeft(s[1..]);
      assert s[..|s| - |r|] == [s[0]] + s[1..][..|s| - 1 - |r|];
      r
    else s
  }

  function StripRight(s: string): (r: string)
    ensures |r| <= |s| && r == s[..|r|]
    ensures r != [] ==> !IsSpace(r[|r| - 1])
    ensures AllSpace(s[|r|..])
  {
    if s != [] && IsSpace(s[|s| - 1]) then
      var r := StripRight(s[..|s| - 1]);
      assert s[|r|..] == s[..|s| - 1][|r|..] + [s[|s| - 1]];
      r
    else s
  }

  function Strip(s: string): string {
    StripRight(StripLeft(s))
  }

  /** Decimal digits, optionally grouped by single underscores that stand
      between two digits ("1_000"). */
  predicate DigitRun(d: string) {
    && |d| > 0
    && IsDigit(d[0])
    && IsDigit(d[|d| - 1])
    && forall i :: 0 <= i < |d| ==> RunChar(d, i)
  }

  /** Position i of a digit run: a digit, or an underscore between two
      digits. */
  predicate RunChar(d: string, i: nat)
    requires i < |d|
  {
    IsDigit(d[i]) || (d[i] == '_' && 0 < i < |d| - 1 && IsDigit(d[i - 1]) && IsDigit(d[i + 1]))
  }

  /** The value of the digits of d, underscores skipped. */
  function DigitsValue(d: string): nat {
    if d == [] then 0
    else if IsDigit(d[|d| - 1]) then DigitsValue(d[..|d| - 1]) * 10 + (d[|d| - 1] as int - '0' as int)
    else DigitsValue(d[..|d| - 1])
  }

  /** Python's `int(s)` in base 10: surrounding whitespace, an optional sign,
      then a digit run; None where `int()` raises ValueError. */
  function ParseInt(s: string): Option<int> {
    ParseSigned(Strip(s))
  }

  /** An optional sign followed by a digit run, nothing else. */
  function ParseSigned(t: string): (r: Option<int>)
    ensures r.Some? ==> t != [] && (IsDigit(t[0]) || ((t[0] == '-' || t[0] == '+') && |t| > 1 && IsDigit(t[1])))
  {
    var body := if |t| > 0 && (t[0] == '-' || t[0] == '+') then t[1..] else t;
    if DigitRun(body) then
      var v: int := DigitsValue(body);
      Some(if |t| > 0 && t[0] == '-' then -v else v)
    else None
  }

  function DigitChar(k: nat): (c: char)
    requires k < 10
    ensures IsDigit(c) && c as int - '0' as int == k
  {
    ('0' as int + k) as char
  }

  /** Python's `str(n)` for a non-negative integer. */
  function ShowNat(n: nat): (r: string)
    ensures |r| > 0
  {
    if n < 10 then [DigitChar(n)] else ShowNat(n / 10) + [DigitChar(n % 10)]
  }

  /** Python's `str(n)`. */
  function ShowInt(n: int): string {
    if n < 0 then "-" + ShowNat(-n) else ShowNat(n)
  }

  lemma {:induction false} ShowNatIsDigits(n: nat)
    ensures forall i :: 0 <= i < |ShowNat(n)| ==> IsDigit(ShowNat(n)[i])
    ensures DigitsValue(ShowNat(n)) == n
  {
    if n >= 10 {
      ShowNatIsDigits(n / 10);
      var s := ShowNat(n);
      assert s[..|s| - 1] == ShowNat(n / 10);
    }
  }

  lemma {:induction false} StripDigits(s: string)
    requires |s| > 0 && !IsSpace(s[0]) && !IsSpace(s[|s| - 1])
    ensures Strip(s) == s
  {
  }

  /** A digit run converts to its value, with or without a minus sign. */
  lemma ParseSignedDigits(d: string, negative: bool)
    requires DigitRun(d)
    ensures ParseInt(if negative then "-" + d else d) ==
              Some(if negative then -(DigitsValue(d) as int) else DigitsValue(d))
  {
    SignedDigits(d);
    if negative {
      var s := "-" + d;
      assert s[0] == '-' && s[|s| - 1] == d[|d| - 1];
      assert !IsSpace(s[0]);
      StripDigits(s);
      assert ParseInt(s) == ParseSigned(s);
    } else {
      StripDigits(d);
      assert ParseInt(d) == ParseSigned(d);
    }
  }

  lemma SignedDigits(d: string)
    requires DigitRun(d)
    ensures ParseSigned(d) == Some(DigitsValue(d))
    ensures ParseSigned("-" + d) == Some(-(DigitsValue(d) as int))
    ensures ParseSigned("+" + d) == Some(DigitsValue(d))
  {
    assert ("-" + d)[1..] == d;
    assert ("+" + d)[1..] == d;
  }

  /** `int(str(n)) == n`: the conversion accepts every decimal Python
      prints. */
  lemma {:induction false} ParseShowInt(n: int)
    ensures ParseInt(ShowInt(n)) == Some(n)
  {
    var m: nat := if n < 0 then -n else n;
    ShowNatIsDigits(m);
    assert DigitRun(ShowNat(m));
    ParseSignedDigits(ShowNat(m), n < 0);
  }

  /** What remains after stripping is a slice of the original text. */
  lemma StripIsSlice(s: string) returns (k: nat)
    ensures k + |Strip(s)| <= |s| && Strip(s) == s[k..k + |Strip(s)|]
  {
    var left := StripLeft(s);
    k := |s| - |left|;
    var r := StripRight(left);
    assert left == s[k..];
    assert r == left[..|r|];
    assert left[..|r|] == s[k..k + |r|];
  }

  /** Stripping the left stops at or before the first character that is
      not whitespace. */
  lemma {:induction false} LeftStripStart(s: string, i: nat)
    requires i < |s| && !IsSpace(s[i])
    ensures |s| - |StripLeft(s)| <= i
    decreases |s|
  {
    if IsSpace(s[0]) {
      assert s[1..][i - 1] == s[i];
      LeftStripStart(s[1..], i - 1);
    }
  }

  /** Stripping the right keeps every character up to the last one that is
      not whitespace. */
  lemma {:induction false} RightStripEnd(s: string, i: nat)
    requires i < |s| && !IsSpace(s[i])
    ensures i < |StripRight(s)|
    decreases |s|
  {
    if IsSpace(s[|s| - 1]) {
      assert s[..|s| - 1][i] == s[i];
      RightStripEnd(s[..|s| - 1], i);
    }
  }

  /** Where a character that is not whitespace lands after stripping, with
      its neighbours. */
  lemma StrippedIndex(s: string, i: nat) returns (j: nat)
    requires i < |s| && !IsSpace(s[i])
    ensures j <= i && j < |Strip(s)| && i - j + |Strip(s)| <= |s|
    ensures Strip(s)[j] == s[i]
    ensures 0 < j ==> Strip(s)[j - 1] == s[i - 1]
    ensures j + 1 < |Strip(s)| ==> Strip(s)[j + 1] == s[i + 1]
  {
    var left := StripLeft(s);
    var k := |s| - |left|;
    LeftStripStart(s, i);
    j := i - k;
    assert left == s[k..] && left[j] == s[i];
    RightStripEnd(left, j);
    var t := StripRight(left);
    assert t == left[..|t|];
  }

  /** A character that is neither a digit nor an underscore breaks a digit
      run. */
  lemma NotDigitRun(d: string, m: nat)
    requires m < |d| && !IsDigit(d[m]) && d[m] != '_'
    ensures !DigitRun(d)
  {
    assert !RunChar(d, m);
  }

  /** A character that is neither a digit, an underscore nor a sign makes
      the signed digit run fail. */
  lemma SignedRejects(t: string, j: nat)
    requires j < |t|
    requires !IsDigit(t[j]) && t[j] != '_' && t[j] != '+' && t[j] != '-'
    ensures ParseSigned(t) == None
  {
    var signed := t[0] == '-' || t[0] == '+';
    var body := if signed then t[1..] else t;
    var m := if signed then j - 1 else j;
    assert 0 <= m < |body| && body[m] == t[j];
    NotDigitRun(body, m);
  }

  /** `int()` rejects a text holding a character that is neither whitespace,
      a digit, an underscore nor a sign. */
  lemma ParseIntRejects(s: string, i: nat)
    requires i < |s|
    requires !IsSpace(s[i]) && !IsDigit(s[i]) && s[i] != '_' && s[i] != '+' && s[i] != '-'
    ensures ParseInt(s) == None
  {
    var j := StrippedIndex(s, i);
    SignedRejects(Strip(s), j);
  }

  /** A leading '+' is accepted and does not change the value. */
  lemma ParseIntPlus(d: string)
    requires |d| > 0 && forall i :: 0 <= i < |d| ==> IsDigit(d[i])
    ensures ParseInt("+" + d) == Some(DigitsValue(d))
  {
    var s := "+" + d;
    assert s[|s| - 1] == d[|d| - 1];
    StripDigits(s);
    assert DigitRun(d);
    SignedDigits(d);
    assert ParseInt(s) == ParseSigned(s);
  }

  /** Leading zeros do not change the value of a digit run. */
  lemma {:induction false} LeadingZero(d: string)
    ensures DigitsValue("0" + d) == DigitsValue(d)
    decreases |d|
  {
    if d == [] {
      assert ("0" + d)[..0] == [];
    } else {
      var z := "0" + d;
      assert z[|z| - 1] == d[|d| - 1];
      assert z[..|z| - 1] == "0" + d[..|d| - 1];
      LeadingZero(d[..|d| - 1]);
    }
  }

  /** An underscore between digits does not change the value. */
  lemma {:induction false} UnderscoreSkipped(a: string, b: string)
    ensures DigitsValue(a + "_" + b) == DigitsValue(a + b)
    decreases |b|
  {
    var u := a + "_" + b;
    if b == [] {
      assert u[..|u| - 1] == a;
      assert a + b == a;
    } else {
      var v := a + b;
      assert u[|u| - 1] == b[|b| - 1] == v[|v| - 1];
      assert u[..|u| - 1] == a + "_" + b[..|b| - 1];
      assert v[..|v| - 1] == a + b[..|b| - 1];
      UnderscoreSkipped(a, b[..|b| - 1]);
    }
  }

  /** An underscore that does not stand between two digits breaks a digit
      run. */
  lemma UnderscoreBreaksRun(d: string, m: nat)
    requires m < |d| && d[m] == '_'
    requires !(0 < m < |d| - 1 && IsDigit(d[m - 1]) && IsDigit(d[m + 1]))
    ensures !DigitRun(d)
  {
    assert !RunChar(d, m);
  }

  /** The same for the signed digit run. */
  lemma SignedUnderscore(t: string, j: nat)
    requires j < |t| && t[j] == '_'
    requires !(0 < j < |t| - 1 && IsDigit(t[j - 1]) && IsDigit(t[j + 1]))
    ensures ParseSigned(t) == None
  {
    var signed := t[0] == '-' || t[0] == '+';
    var body := if signed then t[1..] else t;
    var m := if signed then j - 1 else j;
    assert 0 <= m < |body| && body[m] == '_';
    if 0 < m < |body| - 1 {
      assert body[m - 1] == t[j - 1] && body[m + 1] == t[j + 1];
    }
    UnderscoreBreaksRun(body, m);
  }

  /** `int()` rejects an underscore that does not stand between two digits,
      such as the ones in "_1", "1_" and "1__0". */
  lemma ParseIntUnderscore(s: string, i: nat)
    requires i < |s| && s[i] == '_'
    requires !(0 < i < |s| - 1 && IsDigit(s[i - 1]) && IsDigit(s[i + 1]))
    ensures ParseInt(s) == None
  {
    var j := StrippedIndex(s, i);
    SignedUnderscore(Strip(s), j);
  }

  /** A text that converts holds at least one digit. */
  lemma {:induction false} ParseIntNeedsDigit(s: string)
    requires ParseInt(s).Some?
    ensures exists i :: 0 <= i < |s| && IsDigit(s[i])
  {
    var t := Strip(s);
    var k := StripIsSlice(s);
    assert ParseSigned(t).Some?;
    var i := if IsDigit(t[0]) then 0 else 1;
    assert IsDigit(t[i]);
    assert t[i] == s[k + i];
    assert IsDigit(s[k + i]);
  }

  /** Stripping the left of a text ending in a newline keeps the newline
      unless nothing but whitespace was there. */
  lemma {:induction false} StripLeftNewline(s: string)
    ensures StripLeft(s + "\n") == (if StripLeft(s) == [] then [] else StripLeft(s) + "\n")
    decreases |s|
  {
    if s == [] {
      assert "\n"[1..] == [];
    } else if IsSpace(s[0]) {
      assert (s + "\n")[1..] == s[1..] + "\n";
      StripLeftNewline(s[1..]);
    } else {
      assert (s + "\n")[0] == s[0];
    }
  }

  /** A trailing newline is stripped away. */
  lemma StripRightNewline(x: string)
    ensures StripRight(x + "\n") == StripRight(x)
  {
    assert (x + "\n")[..|x|] == x;
  }

  /** A leading blank is stripped away. */
  lemma StripLeftBlank(x: string)
    ensures StripLeft(" " + x) == StripLeft(x)
  {
    assert (" " + x)[1..] == x;
  }

  /** A leading blank and a trailing newline are stripped away. */
  lemma StripPadded(s: string)
    ensures Strip(" " + s + "\n") == Strip(s)
  {
    assert " " + s + "\n" == " " + (s + "\n");
    StripLeftBlank(s + "\n");
    StripLeftNewline(s);
    StripRightNewline(StripLeft(s));
  }

  /** A leading blank and a trailing newline do not change what `int()`
      returns, whatever the text. */
  lemma ParseIntIgnoresSpace(s: string)
    ensures ParseInt(" " + s + "\n") == ParseInt(s)
  {
    StripPadded(s);
  }

  /** The normalised mode and whether the "Mode argument not correct"
      warning is printed. */
  datatype Choice = Choice(mode: int, warned: bool)

  /** `args` is sys.argv without the script name; only the first argument
      is consulted. */
  function NormaliseMode(args: seq<string>): (r: Choice)
    ensures r.mode == TRANSMIT || r.mode == RECEIVE
  {
    if |args| == 0 then Choice(RECEIVE, false)
    else
      match ParseInt(args[0])
      case Some(v) => if v == TRANSMIT || v == RECEIVE then Choice(v, false) else Choice(RECEIVE, true)
      case None => Choice(RECEIVE, true)
  }

  /** Transmit mode is chosen exactly when the first argument converts to 0;
      the warning is printed exactly when an argument is given that converts
      to neither 0 nor 1. */
  lemma NormaliseModeCases(args: seq<string>)
    ensures NormaliseMode(args).mode == TRANSMIT <==> |args| > 0 && ParseInt(args[0]) == Some(0)
    ensures NormaliseMode(args).warned <==>
              |args| > 0 && ParseInt(args[0]) != Some(0) && ParseInt(args[0]) != Some(1)
    ensures |args| == 0 ==> NormaliseMode(args) == Choice(RECEIVE, false)
  {
  }

  /** With the first argument written the way Python prints the integer k,
      the mode is 0 for k = 0 and 1 otherwise, with a warning unless k is 0
      or 1. */
  lemma NormaliseShownMode(k: int, rest: seq<string>)
    ensures NormaliseMode([ShowInt(k)] + rest).mode == (if k == 0 then TRANSMIT else RECEIVE)
    ensures NormaliseMode([ShowInt(k)] + rest).warned <==> k != 0 && k != 1
  {
    ParseShowInt(k);
  }

  /** A first argument that contains no digit, such as "tx" or "", always
      selects the receiver, with a warning. */
  /** An argument holding an ASCII separator (0x1c-0x1f), such as
      "\x1c0", cannot be converted, so it selects mode 1 with the warning. */
  lemma SeparatorReceives(arg: string, rest: seq<string>, i: nat)
    requires i < |arg| && 0x1c <= arg[i] as int <= 0x1f
    ensures NormaliseMode([arg] + rest) == Choice(RECEIVE, true)
  {
    assert ([arg] + rest)[0] == arg;
    ParseIntRejects(arg, i);
  }

  lemma NoDigitsReceives(arg: string, rest: seq<string>)
    requires forall i :: 0 <= i < |arg| ==> !IsDigit(arg[i])
    ensures NormaliseMode([arg] + rest) == Choice(RECEIVE, true)
  {
    assert ([arg] + rest)[0] == arg;
    if ParseInt(arg).Some? {
      ParseIntNeedsDigit(arg);
    }
  }
}
