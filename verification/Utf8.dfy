/** Text as UTF-8 bytes and back (RFC 3629, section 3). */
module Utf8 {
  import opened Schema
  import opened Protobuf

  function EncodeChar(c: char): (b: seq<byte>)
    ensures 1 <= |b| <= 4
  {
    var n := c as int;
    if n < 0x80 then [n]
    else if n < 0x800 then [0xC0 + n / 0x40, 0x80 + n % 0x40]
    else if n < 0x1_0000 then [0xE0 + n / 0x1000, 0x80 + n / 0x40 % 0x40, 0x80 + n % 0x40]
    else [0xF0 + n / 0x4_0000, 0x80 + n / 0x1000 % 0x40, 0x80 + n / 0x40 % 0x40, 0x80 + n % 0x40]
  }

  function EncodeText(s: string): (b: seq<byte>)
    ensures |b| <= 4 * |s|
  {
    if s == [] then [] else EncodeChar(s[0]) + EncodeText(s[1..])
  }

  /** The number of bytes the first byte announces, and the bits it brings. */
  function Lead(b: byte): (int, int) {
    if b < 0x80 then (1, b)
    else if b < 0xE0 then (2, b % 0x20)
    else if b < 0xF0 then (3, b % 0x10)
    else (4, b % 0x08)
  }

  /** The code point at the front of the bytes and what follows it. */
  function DecodeChar(b: seq<byte>): (r: Option<(int, seq<byte>)>)
    ensures r.Some? ==> |r.value.1| < |b|
  {
    if b == [] then None
    else
      var (length, bits) := Lead(b[0]);
      if |b| < length then None
      else
        var n :=
          if length == 1 then bits
          else if length == 2 then bits * 0x40 + b[1] % 0x40
          else if length == 3 then (bits * 0x40 + b[1] % 0x40) * 0x40 + b[2] % 0x40
          else ((bits * 0x40 + b[1] % 0x40) * 0x40 + b[2] % 0x40) * 0x40 + b[3] % 0x40;
        Some((n, b[length..]))
  }

  predicate IsScalar(n: int) {
    0 <= n < 0xD800 || 0xE000 <= n < 0x11_0000
  }

  function DecodeText(b: seq<byte>): Option<string>
    decreases |b|
  {
    if b == [] then Some("")
    else
      match DecodeChar(b)
      case None => None
      case Some((n, rest)) =>
        if !IsScalar(n) then None
        else
          match DecodeText(rest)
          case None => None
          case Some(s) => Some([n as char] + s)
  }

  lemma Digits(n: nat)
    ensures n / 0x40 * 0x40 + n % 0x40 == n
    ensures (n / 0x1000 * 0x40 + n / 0x40 % 0x40) * 0x40 + n % 0x40 == n
    ensures ((n / 0x4_0000 * 0x40 + n / 0x1000 % 0x40) * 0x40 + n / 0x40 % 0x40) * 0x40 + n % 0x40 == n
  {
    var a := n / 0x40;
    var b := a / 0x40;
    assert n / 0x1000 == b && n / 0x4_0000 == b / 0x40;
  }

  /** What the trailing bytes carry. */
  lemma Trailing(bits: int)
    requires 0 <= bits < 0x40
    ensures (0x80 + bits) % 0x40 == bits
  {
  }

  lemma DecodeTwo(n: nat, rest: seq<byte>)
    requires 0x80 <= n < 0x800
    ensures DecodeChar([0xC0 + n / 0x40, 0x80 + n % 0x40] + rest) == Some((n, rest))
  {
  }

  lemma DecodeThree(n: nat, rest: seq<byte>)
    requires 0x800 <= n < 0x1_0000
    ensures DecodeChar([0xE0 + n / 0x1000, 0x80 + n / 0x40 % 0x40, 0x80 + n % 0x40] + rest) == Some((n, rest))
  {
    var b: seq<byte> := [0xE0 + n / 0x1000, 0x80 + n / 0x40 % 0x40, 0x80 + n % 0x40] + rest;
    Trailing(n % 0x40);
    Trailing(n / 0x40 % 0x40);
    Digits(n);
    assert Lead(b[0]) == (3, n / 0x1000);
    assert b[3..] == rest;
  }

  lemma DecodeFour(n: nat, rest: seq<byte>)
    requires 0x1_0000 <= n < 0x11_0000
    ensures DecodeChar([0xF0 + n / 0x4_0000, 0x80 + n / 0x1000 % 0x40, 0x80 + n / 0x40 % 0x40, 0x80 + n % 0x40] + rest) == Some((n, rest))
  {
    var b: seq<byte> := [0xF0 + n / 0x4_0000, 0x80 + n / 0x1000 % 0x40, 0x80 + n / 0x40 % 0x40, 0x80 + n % 0x40] + rest;
    Trailing(n % 0x40);
    Trailing(n / 0x40 % 0x40);
    Trailing(n / 0x1000 % 0x40);
    Digits(n);
    assert Lead(b[0]) == (4, n / 0x4_0000);
    assert b[4..] == rest;
  }

  lemma CharRoundTrip(c: char, rest: seq<byte>)
    ensures DecodeChar(EncodeChar(c) + rest) == Some((c as int, rest))
  {
    var n := c as int;
    if n < 0x80 {
      assert ([n] + rest)[1..] == rest;
    } else if n < 0x800 {
      DecodeTwo(n, rest);
    } else if n < 0x1_0000 {
      DecodeThree(n, rest);
    } else {
      DecodeFour(n, rest);
    }
  }

  /** Every text reads back from its bytes. */
  lemma {:induction false} TextRoundTrip(s: string)
    ensures DecodeText(EncodeText(s)) == Some(s)
  {
    if s != [] {
      CharRoundTrip(s[0], EncodeText(s[1..]));
      TextRoundTrip(s[1..]);
      assert [s[0]] + s[1..] == s;
    }
  }

  /** One character of each length, byte for byte. */
  lemma KnownEncodings()
    ensures EncodeText("A") == [0x41]
    ensures EncodeText("\U{E9}") == [0xC3, 0xA9]
    ensures EncodeText("\U{20AC}") == [0xE2, 0x82, 0xAC]
    ensures EncodeText("\U{10348}") == [0xF0, 0x90, 0x8D, 0x88]
  {
  }
}
