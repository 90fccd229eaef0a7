/** Splitting text at a separator, joining it again, and hexadecimal digits. */
module Text {
  import opened Bytes
  import opened Wrappers

  /** The pieces of `text` between separators; there is always at least one. */
  function Split(text: string, separator: char): (pieces: seq<string>)
    ensures |pieces| >= 1
  {
    if text == [] then [[]]
    else
      var rest := Split(text[1..], separator);
      if text[0] == separator then [[]] + rest else [[text[0]] + rest[0]] + rest[1..]
  }

  function Join(pieces: seq<string>, separator: char): string {
    if pieces == [] then [] else if |pieces| == 1 then pieces[0]
    else pieces[0] + [separator] + Join(pieces[1..], separator)
  }

  lemma {:induction false} JoinSplit(text: string, separator: char)
    ensures Join(Split(text, separator), separator) == text
  {
    hide Join;
    if text == [] {
      JoinNothing(separator);
    } else {
      JoinSplit(text[1..], separator);
      var rest := Split(text[1..], separator);
      assert text == [text[0]] + text[1..];
      if text[0] == separator {
        JoinEmptyFirst(rest, separator);
      } else {
        JoinFirst(text[0], rest, separator);
      }
    }
  }

  lemma JoinNothing(separator: char)
    ensures Join([[]], separator) == []
  {
  }

  lemma JoinEmptyFirst(pieces: seq<string>, separator: char)
    requires pieces != []
    ensures Join([[]] + pieces, separator) == [separator] + Join(pieces, separator)
  {
    assert ([[]] + pieces)[1..] == pieces;
  }

  lemma JoinFirst(c: char, pieces: seq<string>, separator: char)
    requires pieces != []
    ensures Join([[c] + pieces[0]] + pieces[1..], separator) == [c] + Join(pieces, separator)
  {
    var longer := [[c] + pieces[0]] + pieces[1..];
    assert longer[1..] == pieces[1..];
  }

  lemma {:induction false} SplitHasNoSeparator(text: string, separator: char)
    ensures forall k :: 0 <= k < |Split(text, separator)| ==> separator !in Split(text, separator)[k]
  {
    if text != [] {
      SplitHasNoSeparator(text[1..], separator);
    }
  }

  lemma {:induction false} SplitOne(piece: string, separator: char)
    requires separator !in piece
    ensures Split(piece, separator) == [piece]
  {
    if piece == [] {
    } else {
      SplitOne(piece[1..], separator);
      assert [piece[0]] + piece[1..] == piece;
    }
  }

  lemma {:induction false} SplitCons(piece: string, rest: string, separator: char)
    requires separator !in piece
    ensures Split(piece + [separator] + rest, separator) == [piece] + Split(rest, separator)
  {
    var text := piece + [separator] + rest;
    if piece == [] {
      assert text[1..] == rest;
    } else {
      assert text[1..] == piece[1..] + [separator] + rest;
      SplitCons(piece[1..], rest, separator);
      assert Split(text, separator)[0] == [piece[0]] + piece[1..] == piece;
    }
  }

  /** Splitting undoes joining when no piece holds the separator. */
  lemma {:induction false} SplitJoin(pieces: seq<string>, separator: char)
    requires pieces != []
    requires forall k :: 0 <= k < |pieces| ==> separator !in pieces[k]
    ensures Split(Join(pieces, separator), separator) == pieces
  {
    hide Split, Join;
    var rest := pieces[1..];
    JoinCons(pieces, separator);
    if |pieces| == 1 {
      SplitOne(pieces[0], separator);
    } else {
      assert forall k :: 0 <= k < |rest| ==> rest[k] == pieces[k + 1];
      SplitJoin(rest, separator);
      SplitCons(pieces[0], Join(rest, separator), separator);
      assert [pieces[0]] + rest == pieces;
    }
  }

  lemma JoinCons(pieces: seq<string>, separator: char)
    requires pieces != []
    ensures Join(pieces, separator) ==
            if |pieces| == 1 then pieces[0] else pieces[0] + [separator] + Join(pieces[1..], separator)
  {
  }

  predicate EndsWith(text: string, suffix: string) {
    |suffix| <= |text| && text[|text| - |suffix|..] == suffix
  }

  function LowerChar(c: char): char {
    if 'A' <= c <= 'Z' then c - 'A' + 'a' else c
  }

  /** ASCII letters in lower case. */
  function Lower(text: string): (r: string)
    ensures |r| == |text|
  {
    seq(|text|, k requires 0 <= k < |text| => LowerChar(text[k]))
  }

  // ---------- Hexadecimal ----------

  function HexChar(n: nat): char
    requires n < 16
  {
    if n < 10 then '0' + n as char else 'a' + (n - 10) as char
  }

  function HexValue(c: char): Option<nat> {
    if '0' <= c <= '9' then Some((c - '0') as nat)
    else if 'a' <= c <= 'f' then Some((c - 'a') as nat + 10)
    else if 'A' <= c <= 'F' then Some((c - 'A') as nat + 10)
    else None
  }

  predicate LowerHex(c: char) {
    '0' <= c <= '9' || 'a' <= c <= 'f'
  }

  /** A SHA-256 as text: 64 lower-case digits. */
  predicate IsDigest(text: string) {
    |text| == 64 && forall k :: 0 <= k < 64 ==> LowerHex(text[k])
  }

  /** Two lower-case digits for each byte. */
  function Hex(s: bytes): string {
    if s == [] then [] else
    var n := s[0] as nat;
    [HexChar(n / 16), HexChar(n % 16)] + Hex(s[1..])
  }

  predicate AsciiSpace(c: char) {
    c == ' ' || '\t' <= c <= '\r'
  }

  /** Reads pairs of digits; white space may stand between pairs. */
  function FromHex(text: string): Option<bytes> {
    if text == [] then Some([])
    else if AsciiSpace(text[0]) then FromHex(text[1..])
    else if |text| < 2 then None
    else
      var high :- HexValue(text[0]);
      var low :- HexValue(text[1]);
      var rest :- FromHex(text[2..]);
      assert high < 16 && low < 16;
      Some([(16 * high + low) as byte] + rest)
  }

  lemma {:induction false} FromHexHex(s: bytes)
    ensures FromHex(Hex(s)) == Some(s)
    ensures |Hex(s)| == 2 * |s|
  {
    hide HexChar, HexValue, AsciiSpace;
    if s == [] {
    } else {
      FromHexHex(s[1..]);
      var n := s[0] as nat;
      HexDigit(n / 16);
      HexDigit(n % 16);
      assert n == 16 * (n / 16) + n % 16;
      assert Hex(s)[2..] == Hex(s[1..]);
      assert [s[0]] + s[1..] == s;
    }
  }

  lemma HexDigit(n: nat)
    requires n < 16
    ensures HexValue(HexChar(n)) == Some(n) && !AsciiSpace(HexChar(n))
  {
  }

  /** Different bytes have different digits. */
  lemma HexInjective(s: bytes, t: bytes)
    requires Hex(s) == Hex(t)
    ensures s == t
  {
    FromHexHex(s);
    FromHexHex(t);
  }

  // ---------- The single characters ----------

  const LOWER_DIGITS := "0123456789abcdef"
  const UPPER_DIGITS := "0123456789ABCDEF"

  /** Digits are written in lower case and read in either case; nothing else is a digit. */
  lemma HexDigits(n: nat, c: char)
    requires n < 16
    ensures HexChar(n) == LOWER_DIGITS[n]
    ensures HexValue(LOWER_DIGITS[n]) == HexValue(UPPER_DIGITS[n]) == Some(n)
    ensures HexValue(c).Some? <==> c in LOWER_DIGITS || c in UPPER_DIGITS
    ensures LowerHex(c) <==> c in LOWER_DIGITS
  {
  }

  /** Byte `k` is printed as its two digits. */
  lemma {:induction false} HexOfByte(s: bytes, k: nat)
    requires k < |s|
    ensures |Hex(s)| == 2 * |s|
    ensures Hex(s)[2 * k..2 * k + 2] == [LOWER_DIGITS[s[k] as nat / 16], LOWER_DIGITS[s[k] as nat % 16]]
  {
    FromHexHex(s);
    HexDigits(s[0] as nat / 16, 'a');
    HexDigits(s[0] as nat % 16, 'a');
    if k > 0 {
      HexOfByte(s[1..], k - 1);
      assert Hex(s)[2..] == Hex(s[1..]);
      assert Hex(s)[2 * k..2 * k + 2] == Hex(s[1..])[2 * (k - 1)..2 * (k - 1) + 2];
    }
  }

  /** White space between pairs: a space, a tab, and the four line ends. */
  lemma AsciiSpaces(c: char)
    ensures AsciiSpace(c) <==> c as int in {9, 10, 11, 12, 13, 32}
  {
  }

  /** Only the letters A to Z change, by 32 places. */
  lemma LowerLetters(c: char)
    ensures LowerChar(c) as int == c as int + if 65 <= c as int <= 90 then 32 else 0
  {
  }

  /** A digest has 64 lower-case hexadecimal digits. */
  lemma DigestMeans(text: string)
    ensures IsDigest(text) <==> |text| == 64 && forall k :: 0 <= k < 64 ==> text[k] in "0123456789abcdef"
  {
    forall c ensures LowerHex(c) <==> c in LOWER_DIGITS {
      HexDigits(0, c);
    }
  }
}
