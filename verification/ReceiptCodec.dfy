/** The token of a receipt marker: URL-safe base64 without padding (section 5 of RFC 4648), from the
    bytes of the payload on. */
module ReceiptCodec {
  import opened Wrappers
  import opened Bytes

  const PAD: char := '='

  function Digit(v: int): char
    requires 0 <= v < 64
  {
    if v < 26 then 'A' + v as char
    else if v < 52 then 'a' + (v - 26) as char
    else if v < 62 then '0' + (v - 52) as char
    else if v == 62 then '-' else '_'
  }

  predicate IsDigit(c: char) {
    'A' <= c <= 'Z' || 'a' <= c <= 'z' || '0' <= c <= '9' || c == '-' || c == '_'
  }

  function Value(c: char): (v: int)
    requires IsDigit(c)
    ensures 0 <= v < 64 && Digit(v) == c
  {
    if 'A' <= c <= 'Z' then c as int - 'A' as int
    else if 'a' <= c <= 'z' then c as int - 'a' as int + 26
    else if '0' <= c <= '9' then c as int - '0' as int + 52
    else if c == '-' then 62 else 63
  }

  predicate IsToken(s: string) {
    forall c | c in s :: IsDigit(c)
  }

  lemma DigitValue(v: int)
    requires 0 <= v < 64
    ensures IsDigit(Digit(v)) && Value(Digit(v)) == v
  {
  }

  // ---------------------------------------------------------------------------
  // Bytes in groups of three, sextets in groups of four
  // ---------------------------------------------------------------------------

  newtype Sextet = n: int | 0 <= n < 64

  /** Three bytes as four sextets. */
  datatype Quad = Quad(w: Sextet, x: Sextet, y: Sextet, z: Sextet)

  /** Four sextets as three bytes. */
  datatype Triple = Triple(a: Byte, b: Byte, c: Byte)

  function Split(t: Triple): Quad {
    var a, b, c := t.a as int, t.b as int, t.c as int;
    Quad((a / 4) as Sextet, (a % 4 * 16 + b / 16) as Sextet, (b % 16 * 4 + c / 64) as Sextet, (c % 64) as Sextet)
  }

  function Merge(q: Quad): Triple {
    var w, x, y, z := q.w as int, q.x as int, q.y as int, q.z as int;
    Triple((w * 4 + x / 16) as Byte, (x % 16 * 16 + y / 4) as Byte, (y % 4 * 64 + z) as Byte)
  }

  /** Putting a number together from a high and a low part and taking it apart again. */
  lemma HighAndLow(high: int, low: int, n: int)
    requires n in {4, 16, 64} && 0 <= low < n
    ensures (high * n + low) / n == high && (high * n + low) % n == low
  {
    if n == 4 {
      assert (high * 4 + low) / 4 == high;
    } else if n == 16 {
      assert (high * 16 + low) / 16 == high;
    } else {
      assert (high * 64 + low) / 64 == high;
    }
  }

  lemma MergeInvertsSplit(t: Triple)
    ensures Merge(Split(t)) == t
  {
    var a, b, c := t.a as int, t.b as int, t.c as int;
    HighAndLow(a % 4, b / 16, 16);
    HighAndLow(b % 16, c / 64, 4);
  }

  lemma SplitInvertsMerge(q: Quad)
    ensures Split(Merge(q)) == q
  {
    var w, x, y, z := q.w as int, q.x as int, q.y as int, q.z as int;
    HighAndLow(w, x / 16, 4);
    HighAndLow(x % 16, y / 4, 16);
    HighAndLow(y % 4, z, 64);
  }

  /** The last group is filled up with zeros and cut to what it needs. */
  function Sextets(bytes: seq<Byte>): seq<Sextet> {
    if bytes == [] then []
    else if |bytes| == 1 then
      var q := Split(Triple(bytes[0], 0, 0));
      [q.w, q.x]
    else if |bytes| == 2 then
      var q := Split(Triple(bytes[0], bytes[1], 0));
      [q.w, q.x, q.y]
    else
      var q := Split(Triple(bytes[0], bytes[1], bytes[2]));
      [q.w, q.x, q.y, q.z] + Sextets(bytes[3..])
  }

  /** Bits left over at the end are ignored. */
  function BytesOf(s: seq<Sextet>): seq<Byte> {
    if |s| < 2 then []
    else if |s| == 2 then [Merge(Quad(s[0], s[1], 0, 0)).a]
    else if |s| == 3 then
      var t := Merge(Quad(s[0], s[1], s[2], 0));
      [t.a, t.b]
    else
      var t := Merge(Quad(s[0], s[1], s[2], s[3]));
      [t.a, t.b, t.c] + BytesOf(s[4..])
  }

  lemma {:induction false} BytesBack(bytes: seq<Byte>)
    ensures BytesOf(Sextets(bytes)) == bytes
    ensures |Sextets(bytes)| % 4 != 1
  {
    if |bytes| >= 3 {
      var t := Triple(bytes[0], bytes[1], bytes[2]);
      BytesBack(bytes[3..]);
      MergeInvertsSplit(t);
      GroupBack(Split(t), Sextets(bytes[3..]));
      assert bytes == [bytes[0], bytes[1], bytes[2]] + bytes[3..];
    } else if bytes != [] {
      LastBytesBack(bytes);
    }
  }

  lemma GroupBack(q: Quad, rest: seq<Sextet>)
    ensures BytesOf([q.w, q.x, q.y, q.z] + rest) == [Merge(q).a, Merge(q).b, Merge(q).c] + BytesOf(rest)
  {
    assert ([q.w, q.x, q.y, q.z] + rest)[4..] == rest;
  }

  lemma LastBytesBack(bytes: seq<Byte>)
    requires 1 <= |bytes| <= 2
    ensures BytesOf(Sextets(bytes)) == bytes && |Sextets(bytes)| == |bytes| + 1
  {
    MergeInvertsSplit(Triple(bytes[0], if |bytes| == 2 then bytes[1] else 0, 0));
    if |bytes| == 1 { assert bytes == [bytes[0]]; } else { assert bytes == [bytes[0], bytes[1]]; }
  }

  /** The bits of the last sextet that no byte takes up are zero. */
  predicate NoStrayBits(s: seq<Sextet>) {
    && (|s| % 4 == 2 ==> s[|s| - 1] % 16 == 0)
    && (|s| % 4 == 3 ==> s[|s| - 1] % 4 == 0)
  }

  lemma StrayBitsOfTail(s: seq<Sextet>)
    requires |s| >= 4
    ensures NoStrayBits(s) <==> NoStrayBits(s[4..])
  {
    assert |s[4..]| % 4 == |s| % 4;
  }

  lemma {:induction false} SextetsBackExactlyWhen(s: seq<Sextet>)
    requires |s| % 4 != 1
    ensures Sextets(BytesOf(s)) == s <==> NoStrayBits(s)
  {
    if |s| >= 4 {
      var group := [s[0], s[1], s[2], s[3]];
      SextetsBackExactlyWhen(s[4..]);
      StrayBitsOfTail(s);
      SextetsOfGroup(Quad(s[0], s[1], s[2], s[3]), s[4..]);
      assert s == group + s[4..];
    } else if |s| == 3 {
      assert s == [s[0], s[1], s[2]];
      ThreeSextetsBack(s[0], s[1], s[2]);
    } else if |s| == 2 {
      assert s == [s[0], s[1]];
      TwoSextetsBack(s[0], s[1]);
    }
  }

  lemma SextetsOfGroup(q: Quad, rest: seq<Sextet>)
    ensures Sextets(BytesOf([q.w, q.x, q.y, q.z] + rest)) == [q.w, q.x, q.y, q.z] + Sextets(BytesOf(rest))
  {
    GroupBack(q, rest);
    GroupForth(Merge(q), BytesOf(rest));
    SplitInvertsMerge(q);
  }

  lemma GroupForth(t: Triple, rest: seq<Byte>)
    ensures Sextets([t.a, t.b, t.c] + rest) == [Split(t).w, Split(t).x, Split(t).y, Split(t).z] + Sextets(rest)
  {
    assert ([t.a, t.b, t.c] + rest)[3..] == rest;
  }

  lemma TwoSextetsBack(w: Sextet, x: Sextet)
    ensures Sextets(BytesOf([w, x])) == [w, x] <==> x % 16 == 0
  {
    var t := Merge(Quad(w, x, 0, 0));
    HighAndLow(w as int, x as int / 16, 4);
    assert BytesOf([w, x]) == [t.a];
  }

  lemma ThreeSextetsBack(w: Sextet, x: Sextet, y: Sextet)
    ensures Sextets(BytesOf([w, x, y])) == [w, x, y] <==> y % 4 == 0
  {
    var t := Merge(Quad(w, x, y, 0));
    HighAndLow(w as int, x as int / 16, 4);
    HighAndLow(x as int % 16, y as int / 4, 16);
    assert BytesOf([w, x, y]) == [t.a, t.b];
  }

  // ---------------------------------------------------------------------------
  // Encoding and decoding
  // ---------------------------------------------------------------------------

  function Digits(s: seq<Sextet>): string {
    seq(|s|, i requires 0 <= i < |s| => Digit(s[i] as int))
  }

  function Values(s: string): seq<Sextet>
    requires IsToken(s)
  {
    seq(|s|, i requires 0 <= i < |s| => Value(s[i]) as Sextet)
  }

  function Pads(k: nat): (s: string)
    ensures |s| == k
  {
    if k == 0 then "" else Pads(k - 1) + [PAD]
  }

  /** What completes the last group of four. */
  function Padding(n: nat): string {
    Pads((4 - n % 4) % 4)
  }

  function Base64(bytes: seq<Byte>): string {
    Digits(Sextets(bytes)) + Padding(|Sextets(bytes)|)
  }

  function DropPadding(s: string): string {
    if s != "" && s[|s| - 1] == PAD then DropPadding(s[..|s| - 1]) else s
  }

  function EncodePayload(bytes: seq<Byte>): string {
    DropPadding(Base64(bytes))
  }

  datatype DecodeError = Malformed

  /** A padded text: whole groups, and no more than two padding characters. */
  function Unbase64(s: string): Result<seq<Byte>, DecodeError> {
    var digits := DropPadding(s);
    if |s| % 4 != 0 || |s| - |digits| > 2 || !IsToken(digits) then Err(Malformed)
    else Ok(BytesOf(Values(digits)))
  }

  function DecodePayload(token: string): Result<seq<Byte>, DecodeError> {
    Unbase64(token + Padding(|token|))
  }

  // ---------------------------------------------------------------------------
  // Digits and padding
  // ---------------------------------------------------------------------------

  lemma ValuesOfDigits(s: seq<Sextet>)
    ensures IsToken(Digits(s)) && Values(Digits(s)) == s
  {
    forall i | 0 <= i < |s| ensures IsDigit(Digits(s)[i]) && Value(Digits(s)[i]) == s[i] as int {
      DigitValue(s[i] as int);
    }
  }

  lemma DigitsOfValues(s: string)
    requires IsToken(s)
    ensures Digits(Values(s)) == s
  {
  }

  lemma TokenEndsInDigit(s: string)
    requires IsToken(s)
    ensures DropPadding(s) == s
  {
    if s != "" {
      assert s[|s| - 1] in s;
    }
  }

  lemma {:induction false} DropsExactlyPads(s: string, k: nat)
    requires IsToken(s)
    ensures DropPadding(s + Pads(k)) == s
  {
    var padded := s + Pads(k);
    if k == 0 {
      assert padded == s;
      TokenEndsInDigit(s);
    } else {
      DropsExactlyPads(s, k - 1);
      assert padded[..|padded| - 1] == s + Pads(k - 1);
    }
  }

  lemma PaddingDrops(s: string)
    requires IsToken(s)
    ensures DropPadding(s + Padding(|s|)) == s
  {
    DropsExactlyPads(s, (4 - |s| % 4) % 4);
  }

  lemma EncodeIsDigits(bytes: seq<Byte>)
    ensures EncodePayload(bytes) == Digits(Sextets(bytes))
  {
    ValuesOfDigits(Sextets(bytes));
    PaddingDrops(Digits(Sextets(bytes)));
  }

  // ---------------------------------------------------------------------------
  // Round trips
  // ---------------------------------------------------------------------------

  /** A token is decodable exactly when its length is not one more than a multiple of four. */
  lemma DecodableExactlyWhen(token: string)
    requires IsToken(token)
    ensures DecodePayload(token).Ok? <==> |token| % 4 != 1
    ensures |token| % 4 != 1 ==> DecodePayload(token) == Ok(BytesOf(Values(token)))
  {
    PaddingDrops(token);
  }

  /** Decoding undoes encoding on every payload, and tokens are made of marker characters only. */
  lemma DecodeInvertsEncode(bytes: seq<Byte>)
    ensures IsToken(EncodePayload(bytes)) && DecodePayload(EncodePayload(bytes)) == Ok(bytes)
  {
    EncodeIsDigits(bytes);
    ValuesOfDigits(Sextets(bytes));
    BytesBack(bytes);
    DecodableExactlyWhen(EncodePayload(bytes));
  }

  /** Encoding undoes decoding exactly on the tokens without stray bits: several tokens decode to one
      payload, but only one of them is ever printed for it. */
  lemma EncodeInvertsDecodeExactlyWhen(token: string)
    requires IsToken(token) && |token| % 4 != 1
    ensures DecodePayload(token).Ok?
    ensures EncodePayload(DecodePayload(token).value) == token <==> NoStrayBits(Values(token))
  {
    DecodableExactlyWhen(token);
    var bytes := BytesOf(Values(token));
    EncodeIsDigits(bytes);
    SextetsBackExactlyWhen(Values(token));
    DigitsOfValues(token);
    ValuesOfDigits(Sextets(bytes));
  }

  // ---------------------------------------------------------------------------
  // What a token spells
  // ---------------------------------------------------------------------------

  /** The place of a character in the alphabet of section 5 of RFC 4648. */
  function PlaceOf(c: char): int {
    if 'A' <= c <= 'Z' then c as int - 65 else if 'a' <= c <= 'z' then c as int - 71
    else if '0' <= c <= '9' then c as int + 4 else if c == '-' then 62 else 63
  }

  /** The payload read as a number in base 256, after the digits read so far. */
  function InBase256(n: int, bytes: seq<Byte>): int
    decreases |bytes|
  {
    if bytes == [] then n else InBase256(256 * n + bytes[0] as int, bytes[1..])
  }

  /** The token read as a number in base 64, likewise. */
  function InBase64(n: int, token: string): int
    decreases |token|
  {
    if token == "" then n else InBase64(64 * n + PlaceOf(token[0]), token[1..])
  }

  function SextetsInBase64(n: int, s: seq<Sextet>): int
    decreases |s|
  {
    if s == [] then n else SextetsInBase64(64 * n + s[0] as int, s[1..])
  }

  lemma {:induction false} DigitsSpellSextets(n: int, s: seq<Sextet>)
    ensures InBase64(n, Digits(s)) == SextetsInBase64(n, s)
    decreases |s|
  {
    if s != [] {
      DigitsSpellSextets(64 * n + s[0] as int, s[1..]);
      assert Digits(s)[1..] == Digits(s[1..]);
    }
  }

  /** Splitting keeps the number. */
  lemma SplitKeepsNumber(t: Triple)
    ensures
      var q := Split(t);
      64 * (64 * (64 * q.w as int + q.x as int) + q.y as int) + q.z as int == 256 * (256 * t.a as int + t.b as int) + t.c as int
  {
  }

  lemma OneMoreSextet(n: int, x: Sextet, rest: seq<Sextet>)
    ensures SextetsInBase64(n, [x] + rest) == SextetsInBase64(64 * n + x as int, rest)
  {
    assert ([x] + rest)[1..] == rest;
  }

  lemma OneMoreByte(n: int, b: Byte, rest: seq<Byte>)
    ensures InBase256(n, [b] + rest) == InBase256(256 * n + b as int, rest)
  {
    assert ([b] + rest)[1..] == rest;
  }

  lemma QuadInBase64(n: int, q: Quad, rest: seq<Sextet>)
    ensures SextetsInBase64(n, [q.w, q.x, q.y, q.z] + rest)
         == SextetsInBase64(64 * (64 * (64 * (64 * n + q.w as int) + q.x as int) + q.y as int) + q.z as int, rest)
  {
    var nw := 64 * n + q.w as int;
    var nx := 64 * nw + q.x as int;
    assert [q.w, q.x, q.y, q.z] + rest == [q.w] + ([q.x] + ([q.y] + ([q.z] + rest)));
    OneMoreSextet(n, q.w, [q.x] + ([q.y] + ([q.z] + rest)));
    OneMoreSextet(nw, q.x, [q.y] + ([q.z] + rest));
    OneMoreSextet(nx, q.y, [q.z] + rest);
    OneMoreSextet(64 * nx + q.y as int, q.z, rest);
  }

  lemma TripleInBase256(n: int, t: Triple, rest: seq<Byte>)
    ensures InBase256(n, [t.a, t.b, t.c] + rest)
         == InBase256(256 * (256 * (256 * n + t.a as int) + t.b as int) + t.c as int, rest)
  {
    var na := 256 * n + t.a as int;
    assert [t.a, t.b, t.c] + rest == [t.a] + ([t.b] + ([t.c] + rest));
    OneMoreByte(n, t.a, [t.b] + ([t.c] + rest));
    OneMoreByte(na, t.b, [t.c] + rest);
    OneMoreByte(256 * na + t.b as int, t.c, rest);
  }

  /** The zero bits that fill up the last character shift the number. */
  function FillShift(n: nat): int {
    if n % 3 == 0 then 1 else if n % 3 == 1 then 16 else 4
  }

  lemma GroupSpells(n: int, t: Triple, rest: seq<Byte>) returns (m: int)
    ensures SextetsInBase64(n, Sextets([t.a, t.b, t.c] + rest)) == SextetsInBase64(m, Sextets(rest))
    ensures InBase256(n, [t.a, t.b, t.c] + rest) == InBase256(m, rest)
  {
    m := 256 * (256 * (256 * n + t.a as int) + t.b as int) + t.c as int;
    SplitKeepsNumber(t);
    GroupForth(t, rest);
    QuadInBase64(n, Split(t), Sextets(rest));
    TripleInBase256(n, t, rest);
  }

  lemma {:induction false} SextetsSpellBytes(n: int, bytes: seq<Byte>)
    ensures SextetsInBase64(n, Sextets(bytes)) == InBase256(n, bytes) * FillShift(|bytes|)
    decreases |bytes|
  {
    if |bytes| >= 3 {
      var t, rest := Triple(bytes[0], bytes[1], bytes[2]), bytes[3..];
      assert bytes == [t.a, t.b, t.c] + rest;
      var m := GroupSpells(n, t, rest);
      SextetsSpellBytes(m, rest);
      assert FillShift(|rest|) == FillShift(|bytes|);
    } else if bytes != [] {
      LastSextetsSpell(n, bytes);
    }
  }

  lemma LastSextetsSpell(n: int, bytes: seq<Byte>)
    requires 1 <= |bytes| <= 2
    ensures SextetsInBase64(n, Sextets(bytes)) == InBase256(n, bytes) * FillShift(|bytes|)
  {
    var q := Split(Triple(bytes[0], if |bytes| == 2 then bytes[1] else 0, 0));
    SplitKeepsNumber(Triple(bytes[0], if |bytes| == 2 then bytes[1] else 0, 0));
    if |bytes| == 1 {
      assert q.y == 0 && q.z == 0;
      assert [q.w, q.x] == [q.w] + ([q.x] + []) && bytes == [bytes[0]] + [];
      OneMoreSextet(n, q.w, [q.x] + []);
      OneMoreSextet(64 * n + q.w as int, q.x, []);
      OneMoreByte(n, bytes[0], []);
    } else {
      assert [q.w, q.x, q.y] == [q.w] + ([q.x] + ([q.y] + [])) && bytes == [bytes[0]] + ([bytes[1]] + []);
      OneMoreSextet(n, q.w, [q.x] + ([q.y] + []));
      OneMoreSextet(64 * n + q.w as int, q.x, [q.y] + []);
      OneMoreSextet(64 * (64 * n + q.w as int) + q.x as int, q.y, []);
      OneMoreByte(n, bytes[0], [bytes[1]] + []);
      OneMoreByte(256 * n + bytes[0] as int, bytes[1], []);
    }
  }

  lemma {:induction false} SextetCount(bytes: seq<Byte>)
    ensures |Sextets(bytes)| == (8 * |bytes| + 5) / 6
  {
    if |bytes| >= 3 {
      SextetCount(bytes[3..]);
    }
  }

  /** A token has a character for every six bits of the payload or part of them. Read in base 64 it is the
      payload read in base 256, shifted by the bits that fill up the last character. */
  lemma TokenSpellsPayload(bytes: seq<Byte>)
    ensures |EncodePayload(bytes)| == (8 * |bytes| + 5) / 6
    ensures InBase64(0, EncodePayload(bytes)) == InBase256(0, bytes) * FillShift(|bytes|)
  {
    EncodeIsDigits(bytes);
    DigitsSpellSextets(0, Sextets(bytes));
    SextetsSpellBytes(0, bytes);
    SextetCount(bytes);
  }
}
