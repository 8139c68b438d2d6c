/** UTF-8, section 3 of RFC 3629. A byte is a character below U+0100, so that a piece of encoded text
    can be written and compared as a string; ASCII text is its own encoding. */
module Utf8 {

  predicate Byte(c: char) {
    c as int < 0x100
  }

  predicate Ascii(c: char) {
    c as int < 0x80
  }

  function EncodeChar(c: char): (b: string)
    ensures 1 <= |b| <= 4 && forall i :: 0 <= i < |b| ==> Byte(b[i])
    ensures Ascii(c) ==> b == [c]
    ensures !Ascii(c) ==> forall i :: 0 <= i < |b| ==> !Ascii(b[i])
  {
    var n := c as int;
    if n < 0x80 then [c]
    else if n < 0x800 then [(0xC0 + n / 0x40) as char, (0x80 + n % 0x40) as char]
    else if n < 0x10000 then
      [(0xE0 + n / 0x1000) as char, (0x80 + n / 0x40 % 0x40) as char, (0x80 + n % 0x40) as char]
    else
      [(0xF0 + n / 0x40000) as char, (0x80 + n / 0x1000 % 0x40) as char,
       (0x80 + n / 0x40 % 0x40) as char, (0x80 + n % 0x40) as char]
  }

  function Continuation(b: char): int {
    b as int - 0x80
  }

  /** The value and length of the first encoded character, going by its lead byte. Text that does not
      start with a well-formed sequence gives the replacement character and one byte. */
  function DecodeFirst(b: string): (r: (char, nat))
    requires b != ""
    ensures 1 <= r.1 <= |b|
  {
    var lead := b[0] as int;
    if lead < 0x80 then (b[0], 1)
    else if 0xC0 <= lead < 0xE0 && |b| >= 2 then
      Scalar((lead - 0xC0) * 0x40 + Continuation(b[1]), 2)
    else if 0xE0 <= lead < 0xF0 && |b| >= 3 then
      Scalar((lead - 0xE0) * 0x1000 + Continuation(b[1]) * 0x40 + Continuation(b[2]), 3)
    else if 0xF0 <= lead && |b| >= 4 then
      Scalar((lead - 0xF0) * 0x40000 + Continuation(b[1]) * 0x1000 + Continuation(b[2]) * 0x40 + Continuation(b[3]), 4)
    else ('\U{FFFD}', 1)
  }

  function Scalar(n: int, length: nat): (char, nat) {
    if 0 <= n < 0xD800 || 0xE000 <= n < 0x110000 then (n as char, length) else ('\U{FFFD}', length)
  }

  lemma Split3(n: int)
    requires 0 <= n
    ensures n / 0x1000 * 0x1000 + n / 0x40 % 0x40 * 0x40 + n % 0x40 == n
  {
    assert n / 0x40 / 0x40 == n / 0x1000;
  }

  lemma Split4(n: int)
    requires 0 <= n
    ensures n / 0x40000 * 0x40000 + n / 0x1000 % 0x40 * 0x1000 + n / 0x40 % 0x40 * 0x40 + n % 0x40 == n
  {
    Split3(n);
    assert n / 0x1000 / 0x40 == n / 0x40000;
  }

  lemma DecodeTwo(c: char, rest: string)
    requires 0x80 <= c as int < 0x800
    ensures DecodeFirst(EncodeChar(c) + rest) == (c, 2)
  {
    var b := EncodeChar(c) + rest;
    assert b[0] == EncodeChar(c)[0] && b[1] == EncodeChar(c)[1];
  }

  lemma DecodeThree(c: char, rest: string)
    requires 0x800 <= c as int < 0x10000
    ensures DecodeFirst(EncodeChar(c) + rest) == (c, 3)
  {
    var b := EncodeChar(c) + rest;
    assert b[0] == EncodeChar(c)[0] && b[1] == EncodeChar(c)[1] && b[2] == EncodeChar(c)[2];
    Split3(c as int);
  }

  lemma DecodeFour(c: char, rest: string)
    requires 0x10000 <= c as int
    ensures DecodeFirst(EncodeChar(c) + rest) == (c, 4)
  {
    var b := EncodeChar(c) + rest;
    assert b[0] == EncodeChar(c)[0] && b[1] == EncodeChar(c)[1] && b[2] == EncodeChar(c)[2] && b[3] == EncodeChar(c)[3];
    Split4(c as int);
  }

  /** Decoding gives back what was encoded, whatever follows. */
  lemma DecodeEncoded(c: char, rest: string)
    ensures EncodeChar(c) + rest != "" && DecodeFirst(EncodeChar(c) + rest) == (c, |EncodeChar(c)|)
  {
    if c as int < 0x80 {
      assert (EncodeChar(c) + rest)[0] == c;
    } else if c as int < 0x800 {
      DecodeTwo(c, rest);
    } else if c as int < 0x10000 {
      DecodeThree(c, rest);
    } else {
      DecodeFour(c, rest);
    }
  }
}
