/**
 * The string formatting both pages use: decimal digits (`Number.prototype.toString`),
 * `padStart(2, '0')`, the `mm:ss` call timer, the `m:ss` history duration, and
 * `String.prototype.trim`. Parsers for the formatted strings serve as their inverses.
 */
module Text {
  import opened Base

  predicate IsDigit(c: char) { '0' <= c <= '9' }

  predicate AllDigits(s: string) { forall i :: 0 <= i < |s| ==> IsDigit(s[i]) }

  function DigitChar(d: nat): (c: char)
    requires d < 10
    ensures IsDigit(c) && c as int - '0' as int == d
  {
    ('0' as int + d) as char
  }

  /** The decimal numeral of `n`, without leading zeros, as `n.toString()` writes it. */
  function Decimal(n: nat): (s: string)
    ensures 1 <= |s| && AllDigits(s)
    ensures n < 10 <==> |s| == 1
    ensures 10 <= n < 100 ==> |s| == 2
    ensures |s| > 1 ==> s[0] != '0'
  {
    if n < 10 then [DigitChar(n)] else Decimal(n / 10) + [DigitChar(n % 10)]
  }

  /** The number a string of decimal digits denotes (leading zeros allowed). */
  function Value(s: string): nat
    requires AllDigits(s)
  {
    if s == [] then 0 else Value(s[..|s| - 1]) * 10 + (s[|s| - 1] as int - '0' as int)
  }

  lemma {:induction false} ValueOfDecimal(n: nat)
    ensures Value(Decimal(n)) == n
  {
    if n >= 10 {
      var s := Decimal(n);
      assert s[..|s| - 1] == Decimal(n / 10);
      ValueOfDecimal(n / 10);
    }
  }

  lemma {:induction false} ValueIgnoresLeadingZero(s: string)
    requires AllDigits(s)
    ensures AllDigits("0" + s) && Value("0" + s) == Value(s)
  {
    if s != [] {
      var t := "0" + s;
      assert t[..|t| - 1] == "0" + s[..|s| - 1];
      ValueIgnoresLeadingZero(s[..|s| - 1]);
    }
  }

  /** `s.padStart(2, '0')`. */
  function Pad2(s: string): (r: string)
    ensures |s| >= 2 ==> r == s
    ensures |s| < 2 ==> |r| == 2 && r[2 - |s|..] == s && forall i :: 0 <= i < 2 - |s| ==> r[i] == '0'
  {
    if |s| == 0 then "00" else if |s| == 1 then "0" + s else s
  }

  /** A padded numeral still denotes the same number. */
  lemma Pad2Decimal(n: nat)
    ensures AllDigits(Pad2(Decimal(n))) && Value(Pad2(Decimal(n))) == n
    ensures n < 100 ==> |Pad2(Decimal(n))| == 2
  {
    ValueOfDecimal(n);
    if n < 10 {
      ValueIgnoresLeadingZero(Decimal(n));
    }
  }

  /** Index of the first occurrence of `c` in `s`. */
  function IndexOf(s: string, c: char): (r: Option<nat>)
    ensures r.None? <==> c !in s
    ensures r.Some? ==> r.value < |s| && s[r.value] == c && c !in s[..r.value]
  {
    if s == [] then None
    else if s[0] == c then Some(0)
    else match IndexOf(s[1..], c)
      case None => None
      case Some(k) => assert s[..k + 1] == [s[0]] + s[1..][..k]; Some(k + 1)
  }

  lemma IndexOfJoin(a: string, c: char, b: string)
    requires c !in a
    ensures IndexOf(a + [c] + b, c) == Some(|a|)
  {
    assert (a + [c] + b)[|a|] == c;
  }

  lemma DigitsHaveNoColon(s: string)
    requires AllDigits(s)
    ensures ':' !in s
  {
  }

  /** The `m:ss`-style reading of a clock string: minutes, a colon, and seconds below 60. */
  function ParseClock(s: string): Option<nat>
  {
    match IndexOf(s, ':')
    case None => None
    case Some(i) => ClockValue(s[..i], s[i + 1..])
  }

  /** The value of minutes `m` and seconds `sec` read as a clock. */
  function ClockValue(m: string, sec: string): Option<nat> {
    if m != [] && sec != [] && AllDigits(m) && AllDigits(sec) && Value(sec) < 60
    then Some(Value(m) * 60 + Value(sec))
    else None
  }

  lemma ParseClockJoin(m: string, sec: string)
    requires AllDigits(m)
    ensures ParseClock(m + ":" + sec) == ClockValue(m, sec)
  {
    var s := m + ":" + sec;
    DigitsHaveNoColon(m);
    IndexOfJoin(m, ':', sec);
    assert s[..|m|] == m;
    assert s[|m| + 1..] == sec;
  }

  /** A clock text: minutes of at least `width` digits, a colon, two-digit seconds, and no
      leading zero beyond what padding to `width` puts there. */
  predicate ClockText(r: string, width: nat) {
    && |r| >= width + 3 && r[|r| - 3] == ':' && AllDigits(r[..|r| - 3]) && AllDigits(r[|r| - 2..])
    && (r[0] == '0' ==> |r| == width + 3)
  }

  lemma ClockShape(m: string, sec: string, width: nat)
    requires m != [] && |m| >= width && AllDigits(m) && (m[0] == '0' ==> |m| == width)
    requires |sec| == 2 && AllDigits(sec)
    ensures ClockText(m + ":" + sec, width)
  {
    var r := m + ":" + sec;
    assert r[..|r| - 3] == m && r[|r| - 2..] == sec && r[0] == m[0];
  }

  /** The call timer text: `MM:SS`, minutes `Math.floor(d / 60)` and seconds `d % 60`, each
      padded to two digits. Reading it back as a clock gives the duration: nothing is lost. */
  function FormatTimer(d: nat): (r: string)
    ensures ParseClock(r) == Some(d)
    ensures ClockText(r, 2)
  {
    var m, sec := Pad2(Decimal(d / 60)), Pad2(Decimal(d % 60));
    Pad2Decimal(d / 60);
    Pad2Decimal(d % 60);
    ParseClockJoin(m, sec);
    PaddedLeadingZero(d / 60);
    ClockShape(m, sec, 2);
    m + ":" + sec
  }

  /** Padding adds a leading zero only to a one-digit numeral. */
  lemma PaddedLeadingZero(n: nat)
    ensures var m := Pad2(Decimal(n)); |m| >= 2 && (m[0] == '0' ==> |m| == 2)
  {
  }

  /** Below 100 minutes the timer is exactly five characters `MM:SS`. */
  lemma FormatTimerWidth(d: nat)
    requires d < 6000
    ensures |FormatTimer(d)| == 5 && FormatTimer(d)[2] == ':'
    ensures AllDigits(FormatTimer(d)[..2]) && AllDigits(FormatTimer(d)[3..])
  {
    Pad2Decimal(d / 60);
    Pad2Decimal(d % 60);
    assert FormatTimer(d)[..2] == Pad2(Decimal(d / 60));
    assert FormatTimer(d)[3..] == Pad2(Decimal(d % 60));
  }

  /** The history duration text: `-` for a zero duration, otherwise unpadded minutes, a colon
      and two-digit seconds. Reading it back gives the duration. */
  function FormatDuration(d: nat): (r: string)
    ensures r == "-" <==> d == 0
    ensures ParseDuration(r) == Some(d)
    ensures d > 0 ==> ClockText(r, 1)
  {
    if d > 0 then
      var m, sec := Decimal(d / 60), Pad2(Decimal(d % 60));
      ValueOfDecimal(d / 60);
      Pad2Decimal(d % 60);
      ParseClockJoin(m, sec);
      ClockShape(m, sec, 1);
      assert |m + ":" + sec| > 1;
      m + ":" + sec
    else "-"
  }

  /** The inverse of `FormatDuration`. */
  function ParseDuration(s: string): Option<nat>
  {
    if s == "-" then Some(0) else ParseClock(s)
  }

  /** The characters `String.prototype.trim` removes: ECMAScript WhiteSpace and LineTerminator. */
  predicate IsSpace(c: char) {
    c == '\t' || c == '\n' || c == '\U{000B}' || c == '\U{000C}' || c == '\r' || c == ' '
    || c == '\U{00A0}' || c == '\U{1680}' || ('\U{2000}' <= c <= '\U{200A}')
    || c == '\U{2028}' || c == '\U{2029}' || c == '\U{202F}' || c == '\U{205F}'
    || c == '\U{3000}' || c == '\U{FEFF}'
  }

  predicate AllSpace(s: string) { forall i :: 0 <= i < |s| ==> IsSpace(s[i]) }

  /** `s.trimStart()`: the longest suffix of `s` that does not begin with white space. */
  function TrimStart(s: string): (r: string)
    ensures |r| <= |s| && r == s[|s| - |r|..]
    ensures AllSpace(s[..|s| - |r|])
    ensures r == [] || !IsSpace(r[0])
  {
    if s != [] && IsSpace(s[0]) then TrimStart(s[1..]) else s
  }

  /** `s.trimEnd()`: the longest prefix of `s` that does not end with white space. */
  function TrimEnd(s: string): (r: string)
    ensures |r| <= |s| && r == s[..|r|]
    ensures AllSpace(s[|r|..])
    ensures r == [] || !IsSpace(r[|r| - 1])
  {
    if s != [] && IsSpace(s[|s| - 1]) then TrimEnd(s[..|s| - 1]) else s
  }

  /** `s.trim()`: `s` with white space removed from both ends. */
  function Trim(s: string): (r: string)
    ensures |r| <= |s|
    ensures r == [] || (!IsSpace(r[0]) && !IsSpace(r[|r| - 1]))
  {
    TrimEnd(TrimStart(s))
  }

  /** What trim removes is white space at either end, and nothing else. */
  lemma TrimSlice(s: string) returns (i: nat)
    ensures i + |Trim(s)| <= |s| && Trim(s) == s[i..i + |Trim(s)|]
    ensures AllSpace(s[..i]) && AllSpace(s[i + |Trim(s)|..])
  {
    var t := TrimStart(s);
    var r := TrimEnd(t);
    assert r == Trim(s);
    i := |s| - |t|;
    assert s[i..] == t;
    assert AllSpace(s[..i]);
    assert s[i..i + |r|] == t[..|r|];
    assert s[i + |r|..] == t[|r|..];
    assert AllSpace(t[|r|..]);
  }

  /** Trim yields the empty string exactly when the input is all white space. */
  lemma TrimEmpty(s: string)
    ensures Trim(s) == [] <==> AllSpace(s)
  {
    var i := TrimSlice(s);
    if Trim(s) == [] {
      forall k | 0 <= k < |s| ensures IsSpace(s[k]) {
        if k < i { assert s[..i][k] == s[k]; } else { assert s[i..][k - i] == s[k]; }
      }
    } else {
      assert s[i] == Trim(s)[0];
    }
  }

  /** `s.trim() || d`: the trimmed text, or `d` when nothing is left. */
  function TrimOr(s: string, d: string): (r: string)
    requires d != [] && !IsSpace(d[0]) && !IsSpace(d[|d| - 1])
    ensures r != [] && !IsSpace(r[0]) && !IsSpace(r[|r| - 1])
    ensures AllSpace(s) ==> r == d
    ensures !AllSpace(s) ==> r == Trim(s)
  {
    TrimEmpty(s);
    var t := Trim(s);
    if t != [] then t else d
  }

  lemma {:induction false} TrimIdempotent(s: string)
    ensures Trim(Trim(s)) == Trim(s)
  {
    var r := Trim(s);
    if r != [] {
      assert TrimStart(r) == r;
      assert TrimEnd(r) == r;
    }
  }
}
