/** UTF-8 (RFC 3629) over Unicode scalar values: the encoder, and the decoder in strict mode. */
module Utf8 {
  import opened Bytes
  import opened Wrappers

  function EncodeChar(c: char): (s: bytes)
    ensures 1 <= |s| <= 4
  {
    var n := c as int;
    if n < 0x80 then [n as byte]
    else if n < 0x800 then [(0xC0 + n / 64) as byte, Low(n)]
    else if n < 0x10000 then [(0xE0 + n / 64 / 64) as byte, Low(n / 64), Low(n)]
    else [(0xF0 + n / 64 / 64 / 64) as byte, Low(n / 64 / 64), Low(n / 64), Low(n)]
  }

  /** The continuation byte that carries the six low bits of `n`. */
  function Low(n: nat): byte {
    (0x80 + n % 64) as byte
  }

  function Encode(text: string): bytes {
    if text == [] then [] else EncodeChar(text[0]) + Encode(text[1..])
  }

  predicate Continuation(b: byte) {
    0x80 <= b < 0xC0
  }

  /** The code point so far, extended by the six payload bits of a continuation byte. */
  function Extend(prefix: int, b: byte): int {
    64 * prefix + b as int - 0x80
  }

  /** The first character of `s` and its length, or None when `s` does not start with a well-formed sequence. */
  function DecodeHead(s: bytes): (r: Option<(char, nat)>)
    requires s != []
    ensures r.Some? ==> 1 <= r.value.1 <= |s|
  {
    var b := s[0] as int;
    if b < 0x80 then
      Some((b as char, 1))
    else if 0xC2 <= b < 0xE0 then
      if |s| < 2 || !Continuation(s[1]) then None else
      Some((Extend(b - 0xC0, s[1]) as char, 2))
    else if 0xE0 <= b < 0xF0 then
      if |s| < 3 || !Continuation(s[1]) || !Continuation(s[2]) then None else
      var n := Extend(Extend(b - 0xE0, s[1]), s[2]);
      if n < 0x800 || 0xD800 <= n < 0xE000 then None else Some((n as char, 3))
    else if 0xF0 <= b < 0xF5 then
      if |s| < 4 || !Continuation(s[1]) || !Continuation(s[2]) || !Continuation(s[3]) then None else
      var n := Extend(Extend(Extend(b - 0xF0, s[1]), s[2]), s[3]);
      if n < 0x10000 || 0x110000 <= n then None else Some((n as char, 4))
    else
      None
  }

  function Decode(s: bytes): Option<string> {
    if s == [] then Some([]) else
    var (c, length) :- DecodeHead(s);
    var rest :- Decode(s[length..]);
    Some([c] + rest)
  }

  lemma DecodeHeadOfEncodeChar(c: char, rest: bytes)
    ensures DecodeHead(EncodeChar(c) + rest) == Some((c, |EncodeChar(c)|))
  {
    var n := c as int;
    var s := EncodeChar(c) + rest;
    var low, mid := n / 64, n / 64 / 64;
    assert n == 64 * low + n % 64;
    assert low == 64 * mid + low % 64;
    if n < 0x80 {
    } else if n < 0x800 {
      assert Extend(s[0] as int - 0xC0, s[1]) == n;
    } else if n < 0x10000 {
      assert Extend(s[0] as int - 0xE0, s[1]) == low;
      assert Extend(low, s[2]) == n;
    } else {
      assert mid == 64 * (mid / 64) + mid % 64;
      assert Extend(s[0] as int - 0xF0, s[1]) == mid;
      assert Extend(mid, s[2]) == low;
      assert Extend(low, s[3]) == n;
    }
  }

  lemma {:induction false} DecodeEncode(text: string)
    ensures Decode(Encode(text)) == Some(text)
  {
    if text == [] {
    } else {
      var head, rest := EncodeChar(text[0]), Encode(text[1..]);
      DecodeHeadOfEncodeChar(text[0], rest);
      assert (head + rest)[|head|..] == rest;
      DecodeEncode(text[1..]);
      assert [text[0]] + text[1..] == text;
    }
  }

  /** ASCII bytes stand only for themselves, so a byte search for one finds exactly that character. */
  lemma AsciiByteOfChar(c: char, b: byte)
    requires b < 0x80
    ensures b in EncodeChar(c) <==> c == b as char
  {
  }

  lemma {:induction false} AsciiByte(text: string, b: byte)
    requires b < 0x80
    ensures b in Encode(text) <==> b as char in text
  {
    if text == [] {
    } else {
      AsciiByteOfChar(text[0], b);
      AsciiByte(text[1..], b);
      assert text == [text[0]] + text[1..];
    }
  }

  /** The last byte is ASCII exactly when the last character is, and then it can be cut off on either side. */
  lemma {:induction false} AsciiSuffix(text: string, b: byte)
    requires b < 0x80 && text != []
    ensures Encode(text) != []
    ensures Encode(text)[|Encode(text)| - 1] == b <==> text[|text| - 1] == b as char
    ensures text[|text| - 1] == b as char ==> Encode(text) == Encode(text[..|text| - 1]) + [b]
  {
    var init, last := text[..|text| - 1], text[|text| - 1];
    assert text == init + [last];
    EncodeSnoc(init, last);
    LastByteOfChar(last, b);
  }

  lemma LastByteOfChar(c: char, b: byte)
    requires b < 0x80
    ensures EncodeChar(c)[|EncodeChar(c)| - 1] == b <==> c == b as char
    ensures c == b as char ==> EncodeChar(c) == [b]
  {
  }

  lemma {:induction false} EncodeAppend(one: string, two: string)
    ensures Encode(one + two) == Encode(one) + Encode(two)
  {
    hide EncodeChar;
    if one == [] {
      assert one + two == two;
    } else {
      assert (one + two)[1..] == one[1..] + two;
      EncodeAppend(one[1..], two);
    }
  }

  lemma {:induction false} EncodeSnoc(text: string, last: char)
    ensures Encode(text + [last]) == Encode(text) + EncodeChar(last)
  {
    hide EncodeChar;
    if text == [] {
      assert text + [last] == [last] && [last][1..] == [];
      assert Encode([last]) == EncodeChar(last) + Encode([]);
    } else {
      assert (text + [last])[1..] == text[1..] + [last];
      EncodeSnoc(text[1..], last);
    }
  }

  /** The decoder is strict: what it reads as one character is the encoding of that character. */
  lemma HeadIsEncoded(s: bytes)
    requires s != [] && DecodeHead(s).Some?
    ensures var (c, length) := DecodeHead(s).value; s[..length] == EncodeChar(c)
  {
    var b := s[0] as int;
    if b < 0x80 {
    } else if b < 0xE0 {
      TwoBytes(b - 0xC0, s[1]);
    } else if b < 0xF0 {
      TwoBytes(b - 0xE0, s[1]);
      TwoBytes(Extend(b - 0xE0, s[1]), s[2]);
    } else {
      TwoBytes(b - 0xF0, s[1]);
      TwoBytes(Extend(b - 0xF0, s[1]), s[2]);
      TwoBytes(Extend(Extend(b - 0xF0, s[1]), s[2]), s[3]);
    }
  }

  lemma TwoBytes(prefix: nat, b: byte)
    requires Continuation(b)
    ensures Extend(prefix, b) / 64 == prefix && Low(Extend(prefix, b)) == b
  {
  }

  /** Only encodings decode: overlong forms, surrogates and stray bytes do not. */
  lemma {:induction false} EncodeDecode(s: bytes)
    ensures Decode(s).Some? ==> Encode(Decode(s).value) == s
    decreases |s|
  {
    hide DecodeHead, EncodeChar;
    if s != [] && DecodeHead(s).Some? {
      var (c, length) := DecodeHead(s).value;
      HeadIsEncoded(s);
      EncodeDecode(s[length..]);
      if Decode(s).Some? {
        var rest := Decode(s[length..]).value;
        assert ([c] + rest)[1..] == rest;
        assert s == s[..length] + s[length..];
      }
    }
  }

  /** Encodings of one, two, three and four bytes, the last of them the largest scalar value. */
  lemma KnownEncodings()
    ensures EncodeChar('A') == [0x41] && EncodeChar('\U{E9}') == [0xC3, 0xA9]
    ensures EncodeChar('\U{20AC}') == [0xE2, 0x82, 0xAC] && EncodeChar('\U{10FFFF}') == [0xF4, 0x8F, 0xBF, 0xBF]
  {
  }
}
