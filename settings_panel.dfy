/**
  The settings panel: the settings record and its one-key update, the demo
  login and logout, the screenshot-interval input (JavaScript's `parseInt`
  with a fallback to 10) and the avatar initial.
 */
module SettingsPanel {
  import opened Wrappers
  import opened Decimal
  import opened Strings

  datatype SettingKey =
    | BlankScreenWarning
    | InactivityWarning
    | LongBreakWarning
    | KeyboardActivityTracking
    | MouseActivityTracking
    | ScreenshotCapture
    | ScreenshotInterval

  /** A setting's value: a switch or a number (minutes for the interval). */
  datatype SettingValue = Flag(on: bool) | Number(n: int)

  /** The settings object; the spread update `{...prev, [key]: value}` is a map update. */
  type Settings = map<SettingKey, SettingValue>

  const DefaultInterval: int := 10

  const DefaultSettings: Settings := map[
    BlankScreenWarning := Flag(true),
    InactivityWarning := Flag(true),
    LongBreakWarning := Flag(true),
    KeyboardActivityTracking := Flag(true),
    MouseActivityTracking := Flag(true),
    ScreenshotCapture := Flag(true),
    ScreenshotInterval := Number(DefaultInterval)]

  /** Every setting has a default: the six switches on, the interval 10 minutes. */
  lemma DefaultsAreOnAndTen()
    ensures forall k: SettingKey :: k in DefaultSettings
    ensures forall k: SettingKey :: k != ScreenshotInterval ==> DefaultSettings[k] == Flag(true)
    ensures DefaultSettings[ScreenshotInterval] == Number(10)
  {
    forall k: SettingKey
      ensures k in DefaultSettings
      ensures k != ScreenshotInterval ==> DefaultSettings[k] == Flag(true)
    {
      match k
      case BlankScreenWarning =>
      case InactivityWarning =>
      case LongBreakWarning =>
      case KeyboardActivityTracking =>
      case MouseActivityTracking =>
      case ScreenshotCapture =>
      case ScreenshotInterval =>
    }
  }

  /** handleSettingChange: exactly `key` takes the new value. */
  function ChangeSetting(settings: Settings, key: SettingKey, value: SettingValue): (r: Settings)
    ensures r.Keys == settings.Keys + {key}
    ensures r[key] == value
    ensures forall k :: k in settings && k != key ==> r[k] == settings[k]
  {
    settings[key := value]
  }

  /** The result of parseInt: an integer or NaN (-0 is not told apart from 0; both are falsy). */
  datatype NumberValue = NaN | Num(value: int)

  /** The white-space and line-terminator characters parseInt skips. */
  predicate IsStrWhiteSpace(c: char) {
    || c == '\t' || c == '\n' || c == '\U{000B}' || c == '\U{000C}' || c == '\r' || c == ' '
    || c == '\U{00A0}' || c == '\U{1680}' || ('\U{2000}' <= c <= '\U{200A}')
    || c == '\U{2028}' || c == '\U{2029}' || c == '\U{202F}' || c == '\U{205F}'
    || c == '\U{3000}' || c == '\U{FEFF}'
  }

  function TrimStart(s: string): (r: string)
    ensures |r| <= |s|
    ensures r == [] || !IsStrWhiteSpace(r[0])
    decreases |s|
  {
    if s != [] && IsStrWhiteSpace(s[0]) then TrimStart(s[1..]) else s
  }

  /** The value of c as a digit in the given radix (10 or 16), if it is one. */
  function RadixDigit(c: char, radix: nat): (d: Option<nat>)
    requires radix == 10 || radix == 16
    ensures d.Some? ==> d.value < radix
  {
    var v :=
      if '0' <= c <= '9' then c as int - '0' as int
      else if 'a' <= c <= 'z' then c as int - 'a' as int + 10
      else if 'A' <= c <= 'Z' then c as int - 'A' as int + 10
      else 36;
    if v < radix then Some(v) else None
  }

  /** The length of the longest prefix of s made of radix digits. */
  function DigitRun(s: string, radix: nat): (n: nat)
    requires radix == 10 || radix == 16
    ensures n <= |s|
    ensures forall i :: 0 <= i < n ==> RadixDigit(s[i], radix).Some?
    ensures n < |s| ==> RadixDigit(s[n], radix).None?
    decreases |s|
  {
    if s != [] && RadixDigit(s[0], radix).Some? then 1 + DigitRun(s[1..], radix) else 0
  }

  function RadixValue(s: string, radix: nat): nat
    requires radix == 10 || radix == 16
    requires forall i :: 0 <= i < |s| ==> RadixDigit(s[i], radix).Some?
    decreases |s|
  {
    if s == [] then 0
    else RadixValue(s[..|s| - 1], radix) * radix + RadixDigit(s[|s| - 1], radix).value
  }

  /** The unsigned part of parseInt: a 0x/0X prefix selects radix 16, then the longest digit run; none is NaN. */
  function ParseMagnitude(u: string): Option<nat> {
    var hex := |u| >= 2 && u[0] == '0' && (u[1] == 'x' || u[1] == 'X');
    var radix := if hex then 16 else 10;
    var w := if hex then u[2..] else u;
    var n := DigitRun(w, radix);
    if n == 0 then None else Some(RadixValue(w[..n], radix))
  }

  /** parseInt(s) with no radix: skip white space, take an optional sign, then the magnitude. */
  function ParseInt(s: string): NumberValue {
    var t := TrimStart(s);
    var negative := |t| > 0 && t[0] == '-';
    var u := if |t| > 0 && (t[0] == '-' || t[0] == '+') then t[1..] else t;
    match ParseMagnitude(u)
    case None => NaN
    case Some(m) => Num(if negative then -(m as int) else m)
  }

  /** `parseInt(input) || 10`: NaN and zero fall back to the default. */
  function IntervalFromInput(input: string): (minutes: int)
    ensures minutes != 0
  {
    match ParseInt(input)
    case NaN => DefaultInterval
    case Num(v) => if v == 0 then DefaultInterval else v
  }

  lemma {:induction false} RadixValueDecimal(s: string)
    requires AllDigits(s)
    ensures forall i :: 0 <= i < |s| ==> RadixDigit(s[i], 10).Some?
    ensures RadixValue(s, 10) == DigitsValue(s)
    decreases |s|
  {
    if s != [] {
      RadixValueDecimal(s[..|s| - 1]);
    }
  }

  lemma {:induction false} DigitRunOfDigits(d: string, rest: string)
    requires AllDigits(d)
    requires rest == [] || !IsDigit(rest[0])
    ensures DigitRun(d + rest, 10) == |d|
    decreases |d|
  {
    if d != [] {
      assert (d + rest)[1..] == d[1..] + rest;
      DigitRunOfDigits(d[1..], rest);
    } else {
      assert d + rest == rest;
    }
  }

  lemma MagnitudeOfDecimal(n: nat, rest: string)
    requires rest == [] || !IsDigit(rest[0])
    requires n == 0 && rest != [] ==> rest[0] != 'x' && rest[0] != 'X'
    ensures ParseMagnitude(DecimalString(n) + rest) == Some(n)
  {
    var d := DecimalString(n);
    var s := d + rest;
    assert !(|s| >= 2 && s[0] == '0' && (s[1] == 'x' || s[1] == 'X')) by {
      if |d| >= 2 {
        assert s[1] == d[1];
      } else if |s| >= 2 && s[0] == '0' {
        assert d == [DigitChar(n)];
        assert s[1] == rest[0];
      }
    }
    DigitRunOfDigits(d, rest);
    assert s[..|d|] == d;
    RadixValueDecimal(d);
    DecimalRoundTrip(n);
  }

  /**
    parseInt reads a decimal numeral back as its value, stopping at the first
    character that is not a digit (so "12.5" and "12abc" give 12); after
    a lone "0" an 'x' would start a hexadecimal numeral instead. A leading
    '-' negates it.
   */
  lemma ParseIntOfDecimal(n: nat, rest: string)
    requires rest == [] || !IsDigit(rest[0])
    requires n == 0 && rest != [] ==> rest[0] != 'x' && rest[0] != 'X'
    ensures ParseInt(DecimalString(n) + rest) == Num(n)
    ensures ParseInt("-" + (DecimalString(n) + rest)) == Num(-(n as int))
  {
    var d := DecimalString(n);
    var s := d + rest;
    assert s[0] == d[0];
    assert IsDigit(s[0]);
    assert !IsStrWhiteSpace(s[0]);
    MagnitudeOfDecimal(n, rest);
    ParseIntUnsigned(s);
    ParseIntNegative(s);
  }

  lemma ParseIntUnsigned(u: string)
    requires u != [] && !IsStrWhiteSpace(u[0]) && u[0] != '-' && u[0] != '+'
    ensures ParseMagnitude(u).None? ==> ParseInt(u) == NaN
    ensures ParseMagnitude(u).Some? ==> ParseInt(u) == Num(ParseMagnitude(u).value)
  {
    assert TrimStart(u) == u;
  }

  lemma ParseIntNegative(u: string)
    ensures ParseMagnitude(u).None? ==> ParseInt("-" + u) == NaN
    ensures ParseMagnitude(u).Some? ==> ParseInt("-" + u) == Num(-(ParseMagnitude(u).value as int))
  {
    var m := "-" + u;
    assert TrimStart(m) == m;
    assert m[1..] == u;
  }

  /** Any positive numeral is stored as typed: the 1..60 bounds of the input are not enforced. */
  lemma IntervalKeepsTypedValue(n: nat)
    requires n > 0
    ensures IntervalFromInput(DecimalString(n)) == n
    ensures IntervalFromInput("-" + DecimalString(n)) == -(n as int)
  {
    ParseIntOfDecimal(n, "");
    assert DecimalString(n) + "" == DecimalString(n);
  }

  /** Text without a decimal digit. */
  predicate DigitFree(s: string) {
    forall i :: 0 <= i < |s| ==> !IsDigit(s[i])
  }

  /** Skipping white space cannot bring in a digit. */
  lemma {:induction false} TrimStartDigitFree(s: string)
    requires DigitFree(s)
    ensures DigitFree(TrimStart(s))
    decreases |s|
  {
    if s != [] && IsStrWhiteSpace(s[0]) {
      assert DigitFree(s[1..]) by {
        forall i | 0 <= i < |s[1..]| ensures !IsDigit(s[1..][i]) {
          assert s[1..][i] == s[i + 1];
        }
      }
      TrimStartDigitFree(s[1..]);
    }
  }

  /** Text without a decimal digit has no 0x prefix and no digit run, so its magnitude is NaN. */
  lemma MagnitudeOfDigitFree(u: string)
    requires DigitFree(u)
    ensures ParseMagnitude(u).None?
  {
    assert u == [] || !IsDigit(u[0]);
  }

  /** parseInt of text without a single decimal digit is NaN. */
  lemma ParseIntOfDigitFree(input: string)
    requires forall i :: 0 <= i < |input| ==> !IsDigit(input[i])
    ensures ParseInt(input) == NaN
  {
    assert DigitFree(input);
    TrimStartDigitFree(input);
    var t := TrimStart(input);
    if |t| > 0 && (t[0] == '-' || t[0] == '+') {
      assert DigitFree(t[1..]) by {
        forall i | 0 <= i < |t[1..]| ensures !IsDigit(t[1..][i]) {
          assert t[1..][i] == t[i + 1];
        }
      }
      MagnitudeOfDigitFree(t[1..]);
    } else {
      MagnitudeOfDigitFree(t);
    }
  }

  /** An empty field, a zero or text without digits falls back to 10. */
  lemma IntervalFallsBack(input: string)
    requires input == "0" || forall i :: 0 <= i < |input| ==> !IsDigit(input[i])
    ensures IntervalFromInput(input) == DefaultInterval
  {
    if input == "0" {
      ParseIntOfDecimal(0, "");
      assert DecimalString(0) + "" == "0";
    } else {
      ParseIntOfDigitFree(input);
    }
  }

  /** The upper-case hexadecimal digit of d. */
  function HexDigitChar(d: nat): (c: char)
    requires d < 16
    ensures RadixDigit(c, 16) == Some(d)
  {
    if d < 10 then (48 + d) as char else (55 + d) as char
  }

  /** n written in hexadecimal without leading zeros, as `n.toString(16).toUpperCase()` does. */
  function HexString(n: nat): (s: string)
    ensures |s| >= 1
    ensures forall i :: 0 <= i < |s| ==> RadixDigit(s[i], 16).Some?
    ensures RadixDigit(s[0], 16).value != 0 || n == 0
    decreases n
  {
    if n < 16 then [HexDigitChar(n)] else HexString(n / 16) + [HexDigitChar(n % 16)]
  }

  /** A hexadecimal numeral has the value it was written from. */
  lemma {:induction false} HexStringValue(n: nat)
    ensures RadixValue(HexString(n), 16) == n
    decreases n
  {
    var s := HexString(n);
    if n >= 16 {
      HexStringValue(n / 16);
      assert s[..|s| - 1] == HexString(n / 16);
    } else {
      assert s[..0] == [];
    }
  }

  /** A string made only of radix digits is one digit run. */
  lemma {:induction false} DigitRunOfRadixDigits(s: string, radix: nat)
    requires radix == 10 || radix == 16
    requires forall i :: 0 <= i < |s| ==> RadixDigit(s[i], radix).Some?
    ensures DigitRun(s, radix) == |s|
    decreases |s|
  {
    if s != [] {
      DigitRunOfRadixDigits(s[1..], radix);
    }
  }

  /** After a 0x prefix, the unsigned part of parseInt reads a hexadecimal numeral as its value. */
  lemma MagnitudeOfHex(n: nat)
    ensures ParseMagnitude("0x" + HexString(n)) == Some(n)
  {
    var h := HexString(n);
    var u := "0x" + h;
    assert u[2..] == h;
    DigitRunOfRadixDigits(h, 16);
    assert h[..|h|] == h;
    HexStringValue(n);
  }

  /**
    Without a radix, parseInt reads a 0x prefix as hexadecimal, so the
    fallback expression maps "0x" followed by the hexadecimal numeral of any
    positive n to n, and "-0x..." to -n.
   */
  lemma IntervalReadsHexadecimal(n: nat)
    requires n > 0
    ensures IntervalFromInput("0x" + HexString(n)) == n
    ensures IntervalFromInput("-0x" + HexString(n)) == -(n as int)
  {
    var u := "0x" + HexString(n);
    MagnitudeOfHex(n);
    ParseIntUnsigned(u);
    assert "-0x" + HexString(n) == "-" + u;
    ParseIntNegative(u);
  }

  /** One instance: "0x1A" is read as 26. */
  lemma IntervalReadsHexExample()
    ensures IntervalFromInput("0x1A") == 26
  {
    assert HexString(1) == ['1'];
    assert HexDigitChar(10) == 'A';
    assert HexString(26) == ['1'] + ['A'] == "1A";
    assert "0x" + HexString(26) == "0x1A";
    IntervalReadsHexadecimal(26);
  }

  /**
    `username.charAt(0).toUpperCase() || 'A'`: one character, never a
    lower-case ASCII letter, the first letter of the name up to case, and
    'A' for an empty name.
   */
  function AvatarInitial(username: string): (initial: string)
    ensures |initial| == 1
    ensures !('a' <= initial[0] <= 'z')
    ensures username == "" ==> initial == "A"
    ensures username != "" ==> LowerChar(initial[0]) == LowerChar(username[0])
  {
    if username == "" then "A" else ToUpper(username[..1])
  }

  /** The account part of the panel and the settings it edits. */
  class Panel {
    var isLoggedIn: bool
    var username: string
    var password: string
    var settings: Settings

    constructor ()
      ensures isLoggedIn && username == "" && password == ""
      ensures settings == DefaultSettings
    {
      isLoggedIn := true;
      username := "";
      password := "";
      settings := DefaultSettings;
    }

    method SetUsername(value: string)
      modifies this`username
      ensures username == value
    {
      username := value;
    }

    method SetPassword(value: string)
      modifies this`password
      ensures password == value
    {
      password := value;
    }

    /** The demo login: both fields non-empty logs in; otherwise nothing changes. */
    method HandleLogin()
      modifies this`isLoggedIn
      ensures isLoggedIn == (old(isLoggedIn) || (username != "" && password != ""))
    {
      if username != "" && password != "" {
        isLoggedIn := true;
      }
    }

    method HandleLogout()
      modifies this`isLoggedIn, this`username, this`password
      ensures !isLoggedIn && username == "" && password == ""
    {
      isLoggedIn := false;
      username := "";
      password := "";
    }

    method HandleSettingChange(key: SettingKey, value: SettingValue)
      modifies this`settings
      ensures settings == ChangeSetting(old(settings), key, value)
    {
      settings := settings[key := value];
    }

    /** The interval field's change handler. */
    method HandleIntervalInput(input: string)
      modifies this`settings
      ensures settings == ChangeSetting(old(settings), ScreenshotInterval, Number(IntervalFromInput(input)))
      ensures settings[ScreenshotInterval] != Number(0)
    {
      HandleSettingChange(ScreenshotInterval, Number(IntervalFromInput(input)));
    }
  }
}
