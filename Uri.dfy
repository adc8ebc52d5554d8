/**
 * decodeURIComponent (section 19.2.6.5 of ECMA-262, the Decode operation with an empty
 * reserved set): `%XY` escapes are read as bytes and each run of bytes must be a valid UTF-8
 * encoding of one code point; anything else throws URIError, modelled as None.
 * Strings are sequences of Unicode scalar values, so a decoded supplementary character is one
 * `char` here where JavaScript holds a surrogate pair.
 */
module Uri {
  import opened Base

  function HexValue(c: char): (r: Option<nat>)
    ensures r.Some? ==> r.value < 16
  {
    if '0' <= c <= '9' then Some(c as int - '0' as int)
    else if 'a' <= c <= 'f' then Some(c as int - 'a' as int + 10)
    else if 'A' <= c <= 'F' then Some(c as int - 'A' as int + 10)
    else None
  }

  /** The byte written as `%XY` at the start of `s`, if the three characters are there. */
  function EscapedByte(s: string): (r: Option<nat>)
    ensures r.Some? ==> r.value < 256 && |s| >= 3
  {
    if |s| >= 3 && s[0] == '%' && HexValue(s[1]).Some? && HexValue(s[2]).Some?
    then Some(16 * HexValue(s[1]).value + HexValue(s[2]).value)
    else None
  }

  /** The number of leading one bits of a byte, 5 standing for "more than four". */
  function LeadLength(b: nat): nat
    requires b < 256
  {
    if b < 0x80 then 0 else if b < 0xC0 then 1 else if b < 0xE0 then 2
    else if b < 0xF0 then 3 else if b < 0xF8 then 4 else 5
  }

  /** `count` escaped continuation bytes (`10xxxxxx`) at the start of `s`. */
  function Continuations(s: string, count: nat): (r: Option<seq<nat>>)
    ensures r.Some? ==> |r.value| == count && 3 * count <= |s|
    ensures r.Some? ==> forall i :: 0 <= i < count ==> 0x80 <= r.value[i] < 0xC0
  {
    if count == 0 then Some([])
    else match EscapedByte(s)
      case None => None
      case Some(b) =>
        if 0x80 <= b < 0xC0 then
          match Continuations(s[3..], count - 1)
          case None => None
          case Some(rest) => Some([b] + rest)
        else None
  }

  predicate IsScalar(v: int) { 0 <= v < 0xD800 || 0xE000 <= v < 0x11_0000 }

  /** The code point a lead byte and its continuation bytes encode, when that is a valid
      (shortest-form, non-surrogate, at most U+10FFFF) UTF-8 encoding. */
  function Scalar(lead: nat, cont: seq<nat>): Option<char>
    requires 0xC0 <= lead < 0xF8 && |cont| == LeadLength(lead) - 1
    requires forall i :: 0 <= i < |cont| ==> 0x80 <= cont[i] < 0xC0
  {
    var n := LeadLength(lead);
    var v :=
      if n == 2 then (lead - 0xC0) * 64 + (cont[0] - 0x80)
      else if n == 3 then (lead - 0xE0) * 4096 + (cont[0] - 0x80) * 64 + (cont[1] - 0x80)
      else (lead - 0xF0) * 262144 + (cont[0] - 0x80) * 4096 + (cont[1] - 0x80) * 64 + (cont[2] - 0x80);
    var least := if n == 2 then 0x80 else if n == 3 then 0x800 else 0x1_0000;
    if least <= v && IsScalar(v) then Some(v as char) else None
  }

  function Prepend(c: char, rest: Option<string>): Option<string> {
    match rest
    case None => None
    case Some(t) => Some([c] + t)
  }

  /** decodeURIComponent(s); None is the URIError. */
  function Decode(s: string): (r: Option<string>)
    ensures r.Some? ==> |r.value| <= |s|
    decreases |s|
  {
    if s == [] then Some([])
    else if s[0] != '%' then Prepend(s[0], Decode(s[1..]))
    else match EscapedByte(s)
      case None => None
      case Some(b) =>
        if b < 0x80 then Prepend(b as char, Decode(s[3..]))
        else
          var n := LeadLength(b);
          if n == 1 || n > 4 then None
          else match Continuations(s[3..], n - 1)
            case None => None
            case Some(cont) =>
              match Scalar(b, cont)
              case None => None
              case Some(c) => Prepend(c, Decode(s[3 * n..]))
  }

  /** A string without escapes decodes to itself. */
  lemma {:induction false} DecodePlain(s: string)
    requires '%' !in s
    ensures Decode(s) == Some(s)
  {
    if s != [] {
      DecodePlain(s[1..]);
      assert [s[0]] + s[1..] == s;
    }
  }

  /** A '%' that is not followed by two hexadecimal digits makes the decoding fail. */
  lemma BadEscapeFails(s: string)
    requires s != [] && s[0] == '%' && EscapedByte(s).None?
    ensures Decode(s) == None
  {
  }

  // ---- A reference encoder: every character as the escapes of its UTF-8 bytes. ----

  function HexChar(d: nat): (c: char)
    requires d < 16
    ensures HexValue(c) == Some(d)
  {
    if d < 10 then ('0' as int + d) as char else ('A' as int + d - 10) as char
  }

  function Escape(b: nat): (s: string)
    requires b < 256
    ensures |s| == 3 && EscapedByte(s) == Some(b)
  {
    ['%', HexChar(b / 16), HexChar(b % 16)]
  }

  function EscapeAll(bs: seq<nat>): (s: string)
    requires forall i :: 0 <= i < |bs| ==> bs[i] < 256
    ensures |s| == 3 * |bs|
  {
    if bs == [] then [] else Escape(bs[0]) + EscapeAll(bs[1..])
  }

  /** The UTF-8 bytes of one character: its six-bit groups, with the marker bits. */
  function Utf8(c: char): (bs: seq<nat>)
    ensures 1 <= |bs| <= 4 && forall i :: 0 <= i < |bs| ==> bs[i] < 256
  {
    var v := c as int;
    var q1 := v / 64;
    var q2 := q1 / 64;
    var q3 := q2 / 64;
    if v < 0x80 then [v]
    else if v < 0x800 then [0xC0 + q1, 0x80 + v % 64]
    else if v < 0x1_0000 then [0xE0 + q2, 0x80 + q1 % 64, 0x80 + v % 64]
    else [0xF0 + q3, 0x80 + q2 % 64, 0x80 + q1 % 64, 0x80 + v % 64]
  }

  /** encodeURIComponent with every character escaped. */
  function Encode(s: string): string {
    if s == [] then [] else EscapeAll(Utf8(s[0])) + Encode(s[1..])
  }

  lemma {:induction false} ContinuationsOfEscapes(bs: seq<nat>, rest: string)
    requires forall i :: 0 <= i < |bs| ==> 0x80 <= bs[i] < 0xC0
    ensures Continuations(EscapeAll(bs) + rest, |bs|) == Some(bs)
  {
    if bs != [] {
      ContinuationsOfEscapes(bs[1..], rest);
      assert EscapeAll(bs) + rest == Escape(bs[0]) + (EscapeAll(bs[1..]) + rest);
      ContinuationEscaped(bs[0], EscapeAll(bs[1..]) + rest, |bs|);
      assert [bs[0]] + bs[1..] == bs;
    }
  }

  /** One escaped continuation byte in front of `count - 1` more. */
  lemma ContinuationEscaped(b: nat, s: string, count: nat)
    requires 0x80 <= b < 0xC0 && count > 0 && Continuations(s, count - 1).Some?
    ensures Continuations(Escape(b) + s, count) == Some([b] + Continuations(s, count - 1).value)
  {
    var t := Escape(b) + s;
    assert t[..3] == Escape(b);
    assert t[3..] == s;
    assert EscapedByte(t) == EscapedByte(Escape(b));
  }

  lemma Utf8Decodes(c: char)
    ensures var bs := Utf8(c);
      |bs| == 1 ==> bs[0] < 0x80 && bs[0] as char == c
    ensures var bs := Utf8(c);
      |bs| > 1 ==>
        && 0xC0 <= bs[0] < 0xF8 && LeadLength(bs[0]) == |bs|
        && (forall i :: 1 <= i < |bs| ==> 0x80 <= bs[i] < 0xC0)
        && Scalar(bs[0], bs[1..]) == Some(c)
  {
    var v := c as int;
    if 0x80 <= v < 0x800 {
      Utf8Two(c);
    } else if 0x800 <= v < 0x1_0000 {
      Utf8Three(c);
    } else if 0x1_0000 <= v {
      Utf8Four(c);
    }
  }

  lemma Utf8Two(c: char)
    requires 0x80 <= c as int < 0x800
    ensures var bs := Utf8(c);
      && |bs| == 2 && 0xC0 <= bs[0] < 0xE0 && 0x80 <= bs[1] < 0xC0
      && Scalar(bs[0], bs[1..]) == Some(c)
  {
    var v := c as int;
    var q1 := v / 64;
    assert v == q1 * 64 + v % 64;
    assert 2 <= q1 < 32;
  }

  lemma Utf8Three(c: char)
    requires 0x800 <= c as int < 0x1_0000
    ensures var bs := Utf8(c);
      && |bs| == 3 && 0xE0 <= bs[0] < 0xF0 && 0x80 <= bs[1] < 0xC0 && 0x80 <= bs[2] < 0xC0
      && Scalar(bs[0], bs[1..]) == Some(c)
  {
    var v := c as int;
    var q1 := v / 64;
    var q2 := q1 / 64;
    assert v == q1 * 64 + v % 64;
    assert q1 == q2 * 64 + q1 % 64;
    assert q2 < 16;
    assert q2 * 4096 + (q1 % 64) * 64 + v % 64 == v;
  }

  lemma Utf8Four(c: char)
    requires 0x1_0000 <= c as int
    ensures var bs := Utf8(c);
      && |bs| == 4 && 0xF0 <= bs[0] < 0xF8
      && 0x80 <= bs[1] < 0xC0 && 0x80 <= bs[2] < 0xC0 && 0x80 <= bs[3] < 0xC0
      && Scalar(bs[0], bs[1..]) == Some(c)
  {
    var v := c as int;
    var q1 := v / 64;
    var q2 := q1 / 64;
    var q3 := q2 / 64;
    assert v == q1 * 64 + v % 64;
    assert q1 == q2 * 64 + q1 % 64;
    assert q2 == q3 * 64 + q2 % 64;
    assert q3 < 8;
    assert q3 * 262144 + (q2 % 64) * 4096 + (q1 % 64) * 64 + v % 64 == v;
  }

  /** Decoding the escapes of one character yields that character before the rest. */
  lemma DecodeEscapedChar(c: char, rest: string)
    ensures Decode(EscapeAll(Utf8(c)) + rest) == Prepend(c, Decode(rest))
  {
    var bs := Utf8(c);
    var s := EscapeAll(bs) + rest;
    Utf8Decodes(c);
    assert s == Escape(bs[0]) + (EscapeAll(bs[1..]) + rest);
    assert s[..3] == Escape(bs[0]);
    assert EscapedByte(s) == Some(bs[0]);
    if |bs| == 1 {
      assert s[3..] == rest;
    } else {
      assert s[3..] == EscapeAll(bs[1..]) + rest;
      ContinuationsOfEscapes(bs[1..], rest);
      assert s[3 * |bs|..] == rest;
    }
  }

  lemma {:induction false} DecodeEncode(s: string)
    ensures Decode(Encode(s)) == Some(s)
  {
    if s != [] {
      DecodeEncode(s[1..]);
      DecodeEscapedChar(s[0], Encode(s[1..]));
      assert [s[0]] + s[1..] == s;
    }
  }
}
