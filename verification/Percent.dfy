/** Percent-encoding of text (section 2.1 of RFC 3986) over UTF-8, and its inverse. */
module Percent {
  import opened Bytes

  // ---------------------------------------------------------------------------
  // Encoding
  // ---------------------------------------------------------------------------

  function Utf8(c: char): seq<Byte> {
    var n := c as int;
    if n < 0x80 then [n as Byte]
    else if n < 0x800 then [(0xC0 + n / 64) as Byte, (0x80 + n % 64) as Byte]
    else if n < 0x1_0000 then [(0xE0 + n / 4096) as Byte, (0x80 + n / 64 % 64) as Byte, (0x80 + n % 64) as Byte]
    else [(0xF0 + n / 262144) as Byte, (0x80 + n / 4096 % 64) as Byte, (0x80 + n / 64 % 64) as Byte, (0x80 + n % 64) as Byte]
  }

  predicate Unreserved(c: char) {
    'a' <= c <= 'z' || 'A' <= c <= 'Z' || '0' <= c <= '9' || c == '_' || c == '.' || c == '-' || c == '~'
  }

  function HexDigit(n: int): char
    requires 0 <= n < 16
  {
    if n < 10 then '0' + n as char else 'A' + (n - 10) as char
  }

  function Escape(b: Byte): string {
    ['%', HexDigit(b as int / 16), HexDigit(b as int % 16)]
  }

  function EscapeAll(bytes: seq<Byte>): string {
    if bytes == [] then "" else Escape(bytes[0]) + EscapeAll(bytes[1..])
  }

  function QuoteChar(c: char): string {
    if Unreserved(c) then [c] else EscapeAll(Utf8(c))
  }

  function Quote(s: string): string {
    if s == "" then "" else QuoteChar(s[0]) + Quote(s[1..])
  }

  /** A text is its own encoding exactly if every character of it is a letter or digit of ASCII, an
      underscore, a dot, a hyphen or a tilde. */
  predicate NeedsNoEscape(s: string) {
    forall c | c in s ::
      || (c as int < 128 && ('0' <= c <= '9' || 'A' <= c <= 'Z' || 'a' <= c <= 'z'))
      || c in "_.-~"
  }

  lemma {:induction false} QuoteLeavesExactlyUnreserved(s: string)
    ensures Quote(s) == s <==> NeedsNoEscape(s)
    ensures |Quote(s)| >= |s|
  {
    if s != "" {
      var rest := s[1..];
      QuoteLeavesExactlyUnreserved(rest);
      assert s == [s[0]] + rest;
      CharStaysExactlyUnreserved(s[0]);
      assert NeedsNoEscape(s) <==> NeedsNoEscape([s[0]]) && NeedsNoEscape(rest);
      if |QuoteChar(s[0])| == 1 {
        assert Quote(s)[1..] == Quote(rest);
      }
    }
  }

  lemma CharStaysExactlyUnreserved(c: char)
    ensures |QuoteChar(c)| == 1 <==> NeedsNoEscape([c])
    ensures |QuoteChar(c)| >= 1 && (|QuoteChar(c)| == 1 ==> QuoteChar(c) == [c])
  {
    EscapesAreLong(Utf8(c));
    assert c in [c];
  }

  lemma {:induction false} EscapesAreLong(bytes: seq<Byte>)
    ensures |EscapeAll(bytes)| == 3 * |bytes|
  {
    if bytes != [] {
      EscapesAreLong(bytes[1..]);
    }
  }

  // ---------------------------------------------------------------------------
  // Decoding
  // ---------------------------------------------------------------------------

  /** What an encoded text stands for: bytes, and characters outside ASCII that were never escaped. */
  datatype Piece = Octet(b: Byte) | Verbatim(c: char)

  function HexValue(c: char): int {
    if '0' <= c <= '9' then c as int - '0' as int
    else if 'a' <= c <= 'f' then c as int - 'a' as int + 10
    else if 'A' <= c <= 'F' then c as int - 'A' as int + 10
    else -1
  }

  predicate Escaped(s: string) {
    |s| >= 3 && s[0] == '%' && 0 <= HexValue(s[1]) && 0 <= HexValue(s[2])
  }

  /** A percent sign that does not start an escape stands for itself. */
  function Pieces(s: string): seq<Piece> {
    if s == "" then []
    else if Escaped(s) then [Octet((16 * HexValue(s[1]) + HexValue(s[2])) as Byte)] + Pieces(s[3..])
    else [if s[0] as int < 0x80 then Octet(s[0] as int as Byte) else Verbatim(s[0])] + Pieces(s[1..])
  }

  predicate Tail(p: seq<Piece>, i: nat) {
    i < |p| && p[i].Octet? && 0x80 <= p[i].b < 0xC0
  }

  function Low(p: seq<Piece>, i: nat): int
    requires Tail(p, i)
  {
    p[i].b as int - 0x80
  }

  predicate Scalar(n: int) {
    0 <= n < 0xD800 || 0xE000 <= n < 0x11_0000
  }

  const REPLACEMENT: char := 0xFFFD as char

  /** The character the pieces start with and how many of them it takes; what is no UTF-8 is replaced,
      one piece at a time. */
  function FirstChar(p: seq<Piece>): (char, nat)
    requires p != []
    ensures 1 <= FirstChar(p).1 <= |p|
  {
    if p[0].Verbatim? then (p[0].c, 1)
    else
      var lead := p[0].b as int;
      if lead < 0x80 then (lead as char, 1)
      else if 0xC2 <= lead < 0xE0 && Tail(p, 1) then
        (((lead - 0xC0) * 64 + Low(p, 1)) as char, 2)
      else if 0xE0 <= lead < 0xF0 && Tail(p, 1) && Tail(p, 2) then
        var n := (lead - 0xE0) * 4096 + Low(p, 1) * 64 + Low(p, 2);
        if n >= 0x800 && Scalar(n) then (n as char, 3) else (REPLACEMENT, 1)
      else if 0xF0 <= lead < 0xF5 && Tail(p, 1) && Tail(p, 2) && Tail(p, 3) then
        var n := (lead - 0xF0) * 262144 + Low(p, 1) * 4096 + Low(p, 2) * 64 + Low(p, 3);
        if n >= 0x1_0000 && Scalar(n) then (n as char, 4) else (REPLACEMENT, 1)
      else (REPLACEMENT, 1)
  }

  function Decode(p: seq<Piece>): string
    decreases |p|
  {
    if p == [] then "" else [FirstChar(p).0] + Decode(p[FirstChar(p).1..])
  }

  function Unquote(s: string): string {
    Decode(Pieces(s))
  }

  // ---------------------------------------------------------------------------
  // Round trip
  // ---------------------------------------------------------------------------

  function Octets(bytes: seq<Byte>): seq<Piece> {
    seq(|bytes|, i requires 0 <= i < |bytes| => Octet(bytes[i]))
  }

  lemma HexDigitValue(n: int)
    requires 0 <= n < 16
    ensures HexValue(HexDigit(n)) == n
  {
  }

  lemma EscapeIsEscaped(b: Byte, rest: string)
    ensures Pieces(Escape(b) + rest) == [Octet(b)] + Pieces(rest)
  {
    var s := Escape(b) + rest;
    HexDigitValue(b as int / 16);
    HexDigitValue(b as int % 16);
    assert s[3..] == rest;
    assert Escaped(s);
  }

  lemma OctetsGrow(bytes: seq<Byte>, rest: seq<Piece>)
    requires bytes != []
    ensures Octets(bytes) + rest == [Octet(bytes[0])] + (Octets(bytes[1..]) + rest)
  {
  }

  lemma {:induction false} EscapesGiveOctets(bytes: seq<Byte>, rest: string)
    ensures Pieces(EscapeAll(bytes) + rest) == Octets(bytes) + Pieces(rest)
  {
    if bytes == [] {
      assert EscapeAll(bytes) + rest == rest;
    } else {
      var first, others := Escape(bytes[0]), EscapeAll(bytes[1..]);
      EscapesGiveOctets(bytes[1..], rest);
      EscapeIsEscaped(bytes[0], others + rest);
      assert (first + others) + rest == first + (others + rest);
      OctetsGrow(bytes, Pieces(rest));
    }
  }

  lemma QuoteCharGivesOctets(c: char, rest: string)
    ensures Pieces(QuoteChar(c) + rest) == Octets(Utf8(c)) + Pieces(rest)
  {
    if Unreserved(c) {
      var s := [c] + rest;
      assert s[1..] == rest && !Escaped(s);
      assert Octets(Utf8(c)) == [Octet(c as int as Byte)];
    } else {
      EscapesGiveOctets(Utf8(c), rest);
    }
  }

  lemma ShortCharDecodes(c: char, rest: seq<Piece>)
    requires c as int < 0x800
    ensures FirstChar(Octets(Utf8(c)) + rest) == (c, |Utf8(c)|)
  {
    var p := Octets(Utf8(c)) + rest;
    assert forall i :: 0 <= i < |Utf8(c)| ==> p[i] == Octet(Utf8(c)[i]);
  }

  lemma MediumCharDecodes(c: char, rest: seq<Piece>)
    requires 0x800 <= c as int < 0x1_0000
    ensures FirstChar(Octets(Utf8(c)) + rest) == (c, 3)
  {
    var p, n := Octets(Utf8(c)) + rest, c as int;
    assert p[0] == Octet(Utf8(c)[0]) && p[1] == Octet(Utf8(c)[1]) && p[2] == Octet(Utf8(c)[2]);
    assert n == n / 4096 * 4096 + n / 64 % 64 * 64 + n % 64;
  }

  lemma SextetsRecompose(n: int)
    ensures n == n / 262144 * 262144 + n / 4096 % 64 * 4096 + n / 64 % 64 * 64 + n % 64
  {
    assert n / 64 / 64 == n / 4096 && n / 4096 / 64 == n / 262144;
  }

  lemma LongCharDecodes(c: char, rest: seq<Piece>)
    requires 0x1_0000 <= c as int
    ensures FirstChar(Octets(Utf8(c)) + rest) == (c, 4)
  {
    var p, n := Octets(Utf8(c)) + rest, c as int;
    assert p[0] == Octet(Utf8(c)[0]) && p[1] == Octet(Utf8(c)[1]) && p[2] == Octet(Utf8(c)[2]) && p[3] == Octet(Utf8(c)[3]);
    SextetsRecompose(n);
    assert Low(p, 1) == n / 4096 % 64 && Low(p, 2) == n / 64 % 64 && Low(p, 3) == n % 64;
  }

  lemma CharDecodes(c: char, rest: seq<Piece>)
    ensures Decode(Octets(Utf8(c)) + rest) == [c] + Decode(rest)
  {
    var p := Octets(Utf8(c)) + rest;
    if c as int < 0x800 { ShortCharDecodes(c, rest); }
    else if c as int < 0x1_0000 { MediumCharDecodes(c, rest); }
    else { LongCharDecodes(c, rest); }
    assert p[|Utf8(c)|..] == rest;
  }

  /** Every text comes back from its encoding. */
  lemma {:induction false} UnquoteInvertsQuote(s: string)
    ensures Unquote(Quote(s)) == s
  {
    if s != "" {
      UnquoteInvertsQuote(s[1..]);
      QuoteCharGivesOctets(s[0], Quote(s[1..]));
      CharDecodes(s[0], Pieces(Quote(s[1..])));
    }
  }

  lemma {:induction false} EscapesAreSafe(bytes: seq<Byte>)
    ensures forall c | c in EscapeAll(bytes) :: c == '%' || Unreserved(c)
  {
    if bytes != [] {
      EscapesAreSafe(bytes[1..]);
    }
  }

  /** An encoding holds nothing but unreserved characters and percent signs. */
  lemma {:induction false} QuoteIsSafe(s: string)
    ensures forall c | c in Quote(s) :: c == '%' || Unreserved(c)
  {
    if s != "" {
      EscapesAreSafe(Utf8(s[0]));
      QuoteIsSafe(s[1..]);
    }
  }

  predicate IsHex(c: char) {
    c in "0123456789ABCDEF"
  }

  /** Every percent sign starts an escape in two upper-case hexadecimal digits. */
  predicate EscapesInHex(s: string) {
    forall i :: 0 <= i < |s| && s[i] == '%' ==> i + 2 < |s| && IsHex(s[i + 1]) && IsHex(s[i + 2])
  }

  lemma HexDigitsAreHex(n: int)
    requires 0 <= n < 16
    ensures IsHex(HexDigit(n)) && HexDigit(n) != '%'
  {
    var digits := "0123456789ABCDEF";
    assert digits[n] == HexDigit(n);
  }

  lemma EscapesInHexTogether(a: string, b: string)
    requires EscapesInHex(a) && EscapesInHex(b)
    ensures EscapesInHex(a + b)
  {
  }

  lemma {:induction false} EscapesAreInHex(bytes: seq<Byte>)
    ensures EscapesInHex(EscapeAll(bytes))
  {
    if bytes != [] {
      HexDigitsAreHex(bytes[0] as int / 16);
      HexDigitsAreHex(bytes[0] as int % 16);
      EscapesAreInHex(bytes[1..]);
      EscapesInHexTogether(Escape(bytes[0]), EscapeAll(bytes[1..]));
    }
  }

  lemma {:induction false} QuoteEscapesInHex(s: string)
    ensures EscapesInHex(Quote(s))
  {
    if s != "" {
      EscapesAreInHex(Utf8(s[0]));
      QuoteEscapesInHex(s[1..]);
      EscapesInHexTogether(QuoteChar(s[0]), Quote(s[1..]));
    }
  }
}
