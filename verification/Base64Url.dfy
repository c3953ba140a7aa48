// Unpadded base64url over bytes (RFC 4648 section 5, padding per section 3.2): the form in which a
// subject appears in a state key. Decoding puts the padding back first, and both directions go
// group by group.

module Base64Url {

  import opened Common

  type Byte = b: int | 0 <= b < 256

  type Sextet = x: int | 0 <= x < 64

  const PAD: char := '='

  // ---- three bytes are four groups of six bits ----

  function Bits0(a: Byte): Sextet { a / 4 }

  function Bits1(a: Byte, b: Byte): Sextet { a % 4 * 16 + b / 16 }

  function Bits2(b: Byte, c: Byte): Sextet { b % 16 * 4 + c / 64 }

  function Bits3(c: Byte): Sextet { c % 64 }

  function Byte0(p: Sextet, q: Sextet): Byte { p * 4 + q / 16 }

  function Byte1(q: Sextet, r: Sextet): Byte { q % 16 * 16 + r / 4 }

  function Byte2(r: Sextet, t: Sextet): Byte { r % 4 * 64 + t }

  lemma BytesBack(a: Byte, b: Byte, c: Byte)
    ensures Byte0(Bits0(a), Bits1(a, b)) == a
    ensures Byte1(Bits1(a, b), Bits2(b, c)) == b
    ensures Byte2(Bits2(b, c), Bits3(c)) == c
  {
  }

  lemma BitsBack(p: Sextet, q: Sextet, r: Sextet, t: Sextet)
    ensures Bits0(Byte0(p, q)) == p
    ensures Bits1(Byte0(p, q), Byte1(q, r)) == q
    ensures Bits2(Byte1(q, r), Byte2(r, t)) == r
    ensures Bits3(Byte2(r, t)) == t
  {
  }

  // With no further byte, the bits below the last byte come back as zeros.
  lemma ShortBitsBack(p: Sextet, q: Sextet, r: Sextet)
    ensures Bits1(Byte0(p, q), 0) == q <==> q % 16 == 0
    ensures Bits2(Byte1(q, r), 0) == r <==> r % 4 == 0
  {
    assert (p * 4 + q / 16) % 4 == q / 16;
    assert (q % 16 * 16 + r / 4) % 16 == r / 4;
  }

  // ---- symbols ----

  // The alphabet A-Z a-z 0-9 - _.
  function Symbol(x: Sextet): char
  {
    if x < 26 then 'A' + x as char
    else if x < 52 then 'a' + (x - 26) as char
    else if x < 62 then '0' + (x - 52) as char
    else if x == 62 then '-'
    else '_'
  }

  predicate IsSymbol(c: char)
  {
    'A' <= c <= 'Z' || 'a' <= c <= 'z' || '0' <= c <= '9' || c == '-' || c == '_'
  }

  function Place(c: char): Sextet
    requires IsSymbol(c)
  {
    if 'A' <= c <= 'Z' then c as int - 'A' as int
    else if 'a' <= c <= 'z' then c as int - 'a' as int + 26
    else if '0' <= c <= '9' then c as int - '0' as int + 52
    else if c == '-' then 62
    else 63
  }

  lemma SymbolHasPlace(x: Sextet)
    ensures IsSymbol(Symbol(x)) && Place(Symbol(x)) == x
  {
  }

  lemma PlaceHasSymbol(c: char)
    requires IsSymbol(c)
    ensures Symbol(Place(c)) == c
  {
  }

  lemma NotSymbols()
    ensures !IsSymbol(PAD) && !IsSymbol('|') && !IsSymbol(':')
  {
  }

  predicate AllSymbols(s: string)
  {
    forall i :: 0 <= i < |s| ==> IsSymbol(s[i])
  }

  // ---- encoding ----

  function Quad(a: Byte, b: Byte, c: Byte): string
  {
    [Symbol(Bits0(a)), Symbol(Bits1(a, b)), Symbol(Bits2(b, c)), Symbol(Bits3(c))]
  }

  // urlsafe_b64encode: four symbols for three bytes, the last group filled up with '='.
  function Encode(bytes: seq<Byte>): string
  {
    if bytes == [] then ""
    else if |bytes| == 1 then
      [Symbol(Bits0(bytes[0])), Symbol(Bits1(bytes[0], 0)), PAD, PAD]
    else if |bytes| == 2 then
      [Symbol(Bits0(bytes[0])), Symbol(Bits1(bytes[0], bytes[1])), Symbol(Bits2(bytes[1], 0)), PAD]
    else
      Quad(bytes[0], bytes[1], bytes[2]) + Encode(bytes[3..])
  }

  function EncodeSubject(bytes: seq<Byte>): string
  {
    RStrip(Encode(bytes), PAD)
  }

  // "=" * (-n % 4)
  function Padding(n: nat): string
  {
    if n % 4 == 0 then [] else if n % 4 == 3 then [PAD] else if n % 4 == 2 then [PAD, PAD] else [PAD, PAD, PAD]
  }

  // urlsafe_b64decode of symbols and final padding. The bits of a short group that no byte needs
  // are dropped, whatever they are; one symbol alone is an error.
  function Decode(s: string): Option<seq<Byte>>
  {
    if s == [] then Some([])
    else if |s| < 4 || !IsSymbol(s[0]) || !IsSymbol(s[1]) then None
    else if s[2] == PAD then
      if s[3] == PAD && |s| == 4 then Some([Byte0(Place(s[0]), Place(s[1]))]) else None
    else if !IsSymbol(s[2]) then None
    else if s[3] == PAD then
      if |s| == 4 then Some([Byte0(Place(s[0]), Place(s[1])), Byte1(Place(s[1]), Place(s[2]))]) else None
    else if !IsSymbol(s[3]) then None
    else
      match Decode(s[4..])
      case None => None
      case Some(rest) =>
        Some([Byte0(Place(s[0]), Place(s[1])), Byte1(Place(s[1]), Place(s[2])), Byte2(Place(s[2]), Place(s[3]))] + rest)
  }

  function DecodeSubject(s: string): Option<seq<Byte>>
  {
    Decode(s + Padding(|s|))
  }

  // ---- what the encoding looks like ----

  // The symbols alone.
  function Symbols(bytes: seq<Byte>): string
  {
    if bytes == [] then []
    else if |bytes| == 1 then [Symbol(Bits0(bytes[0])), Symbol(Bits1(bytes[0], 0))]
    else if |bytes| == 2 then [Symbol(Bits0(bytes[0])), Symbol(Bits1(bytes[0], bytes[1])), Symbol(Bits2(bytes[1], 0))]
    else Quad(bytes[0], bytes[1], bytes[2]) + Symbols(bytes[3..])
  }

  lemma {:induction false} SymbolsAreSymbols(bytes: seq<Byte>)
    ensures AllSymbols(Symbols(bytes))
    decreases |bytes|
  {
    hide Symbol, IsSymbol, Bits0, Bits1, Bits2, Bits3;
    forall x: Sextet ensures IsSymbol(Symbol(x)) {
      SymbolHasPlace(x);
    }
    if |bytes| > 2 {
      SymbolsAreSymbols(bytes[3..]);
    }
  }

  lemma {:induction false} EncodeIsSymbolsPadded(bytes: seq<Byte>)
    ensures Encode(bytes) == Symbols(bytes) + Padding(|Symbols(bytes)|)
    decreases |bytes|
  {
    hide Symbol, Bits0, Bits1, Bits2, Bits3;
    if |bytes| > 2 {
      var quad := Quad(bytes[0], bytes[1], bytes[2]);
      var rest := Symbols(bytes[3..]);
      EncodeIsSymbolsPadded(bytes[3..]);
      assert Symbols(bytes) == quad + rest;
      assert Encode(bytes) == quad + Encode(bytes[3..]);
      assert quad + (rest + Padding(|rest|)) == (quad + rest) + Padding(|rest|);
    }
  }

  lemma StripsAll(s: string, n: nat)
    requires AllSymbols(s)
    ensures RStrip(s + Padding(n), PAD) == s
  {
    NotSymbols();
    hide IsSymbol;
    assert RStrip(s, PAD) == s;
    var one, two, three := s + [PAD], s + [PAD, PAD], s + [PAD, PAD, PAD];
    assert s + [] == s && one[..|s|] == s && two[..|s| + 1] == one && three[..|s| + 2] == two;
    assert RStrip(one, PAD) == s;
    assert RStrip(two, PAD) == s;
    assert RStrip(three, PAD) == s;
  }

  // A subject's encoding is made of alphabet symbols only.
  lemma EncodedIsSymbols(bytes: seq<Byte>)
    ensures EncodeSubject(bytes) == Symbols(bytes) && AllSymbols(EncodeSubject(bytes))
  {
    hide Encode, Symbols, AllSymbols, RStrip;
    SymbolsAreSymbols(bytes);
    EncodeIsSymbolsPadded(bytes);
    StripsAll(Symbols(bytes), |Symbols(bytes)|);
  }

  // ---- round trips ----

  lemma {:induction false} DecodeEncode(bytes: seq<Byte>)
    ensures Decode(Encode(bytes)) == Some(bytes)
    decreases |bytes|
  {
    hide Symbol, IsSymbol, Place, Bits0, Bits1, Bits2, Bits3, Decode;
    if |bytes| > 2 {
      DecodeEncode(bytes[3..]);
      DecodeQuad(bytes[0], bytes[1], bytes[2], Encode(bytes[3..]), bytes[3..]);
      assert bytes == [bytes[0], bytes[1], bytes[2]] + bytes[3..];
    } else {
      DecodeShort(bytes);
    }
  }

  lemma DecodeQuad(a: Byte, b: Byte, c: Byte, tail: string, rest: seq<Byte>)
    requires Decode(tail) == Some(rest)
    ensures Decode(Quad(a, b, c) + tail) == Some([a, b, c] + rest)
  {
    var s := Quad(a, b, c) + tail;
    hide Symbol, IsSymbol, Place, Bits0, Bits1, Bits2, Bits3, Byte0, Byte1, Byte2;
    assert s[4..] == tail;
    NotSymbols();
    SymbolHasPlace(Bits0(a));
    SymbolHasPlace(Bits1(a, b));
    SymbolHasPlace(Bits2(b, c));
    SymbolHasPlace(Bits3(c));
    BytesBack(a, b, c);
  }

  lemma DecodeOne(a: Byte)
    ensures Decode([Symbol(Bits0(a)), Symbol(Bits1(a, 0)), PAD, PAD]) == Some([a])
  {
    hide Symbol, IsSymbol, Place, Bits0, Bits1, Bits2, Bits3, Byte0, Byte1, Byte2;
    NotSymbols();
    SymbolHasPlace(Bits0(a));
    SymbolHasPlace(Bits1(a, 0));
    BytesBack(a, 0, 0);
  }

  lemma DecodeTwo(a: Byte, b: Byte)
    ensures Decode([Symbol(Bits0(a)), Symbol(Bits1(a, b)), Symbol(Bits2(b, 0)), PAD]) == Some([a, b])
  {
    hide Symbol, IsSymbol, Place, Bits0, Bits1, Bits2, Bits3, Byte0, Byte1, Byte2;
    NotSymbols();
    SymbolHasPlace(Bits0(a));
    SymbolHasPlace(Bits1(a, b));
    SymbolHasPlace(Bits2(b, 0));
    BytesBack(a, b, 0);
  }

  lemma DecodeShort(bytes: seq<Byte>)
    requires |bytes| <= 2
    ensures Decode(Encode(bytes)) == Some(bytes)
  {
    hide Symbol, Bits0, Bits1, Bits2;
    if |bytes| == 1 {
      DecodeOne(bytes[0]);
      assert bytes == [bytes[0]];
    } else if |bytes| == 2 {
      DecodeTwo(bytes[0], bytes[1]);
      assert bytes == [bytes[0], bytes[1]];
    }
  }

  // A stored key reads back to its subject.
  lemma RoundTrip(bytes: seq<Byte>)
    ensures DecodeSubject(EncodeSubject(bytes)) == Some(bytes)
  {
    hide Encode, Symbols, AllSymbols, RStrip, Decode;
    EncodedIsSymbols(bytes);
    EncodeIsSymbolsPadded(bytes);
    DecodeEncode(bytes);
  }

  // The bits the last byte leaves over are zero.
  predicate ZeroTail(s: string)
    requires AllSymbols(s)
  {
    var n := |s|;
    && (n % 4 == 2 ==> Place(s[n - 1]) % 16 == 0)
    && (n % 4 == 3 ==> Place(s[n - 1]) % 4 == 0)
  }

  // One whole group: it decodes to three bytes, which encode to it again.
  lemma WholeGroup(s: string) returns (a: Byte, b: Byte, c: Byte)
    requires AllSymbols(s) && |s| >= 4
    ensures DecodeSubject(s) == match DecodeSubject(s[4..]) case None => None case Some(rest) => Some([a, b, c] + rest)
    ensures Quad(a, b, c) == s[..4]
  {
    hide Symbol, IsSymbol, Place, Bits0, Bits1, Bits2, Bits3, Byte0, Byte1, Byte2;
    var p, q, r, t := Place(s[0]), Place(s[1]), Place(s[2]), Place(s[3]);
    a, b, c := Byte0(p, q), Byte1(q, r), Byte2(r, t);
    assert Padding(|s|) == Padding(|s[4..]|);
    assert (s + Padding(|s|))[4..] == s[4..] + Padding(|s[4..]|);
    NotSymbols();
    BitsBack(p, q, r, t);
    PlaceHasSymbol(s[0]);
    PlaceHasSymbol(s[1]);
    PlaceHasSymbol(s[2]);
    PlaceHasSymbol(s[3]);
  }

  lemma SymbolsOfGroup(a: Byte, b: Byte, c: Byte, rest: seq<Byte>)
    ensures Symbols([a, b, c] + rest) == Quad(a, b, c) + Symbols(rest)
  {
    assert ([a, b, c] + rest)[3..] == rest;
  }

  lemma SameSymbol(x: Sextet, c: char)
    requires IsSymbol(c)
    ensures Symbol(x) == c <==> x == Place(c)
  {
    SymbolHasPlace(x);
    PlaceHasSymbol(c);
  }

  lemma ShortGroup(s: string)
    requires AllSymbols(s) && |s| < 4
    ensures DecodeSubject(s).None? <==> |s| == 1
    ensures |s| != 1 ==> (Symbols(DecodeSubject(s).value) == s <==> ZeroTail(s))
  {
    hide Symbol, IsSymbol, Place, Bits0, Bits1, Bits2, Bits3, Byte0, Byte1, Byte2;
    NotSymbols();
    if |s| == 0 {
      assert s + Padding(0) == [];
    } else if |s| == 1 {
      assert s + Padding(1) == [s[0], PAD, PAD, PAD];
    } else {
      PairOrTriple(s);
    }
  }

  lemma PairOrTriple(s: string)
    requires AllSymbols(s) && 2 <= |s| < 4
    ensures DecodeSubject(s).Some?
    ensures Symbols(DecodeSubject(s).value) == s <==> ZeroTail(s)
  {
    hide Symbol, IsSymbol, Place, Bits0, Bits1, Bits2, Bits3, Byte0, Byte1, Byte2;
    NotSymbols();
    var p, q, r := Place(s[0]), Place(s[1]), Place(s[|s| - 1]);
    var a, b := Byte0(p, q), Byte1(q, r);
    BitsBack(p, q, r, 0);
    ShortBitsBack(p, q, r);
    PlaceHasSymbol(s[0]);
    PlaceHasSymbol(s[1]);
    SameSymbol(Bits1(a, 0), s[1]);
    SameSymbol(Bits2(b, 0), s[|s| - 1]);
    if |s| == 2 {
      assert s + Padding(2) == [s[0], s[1], PAD, PAD];
      assert DecodeSubject(s) == Some([a]);
      assert Symbols([a]) == [s[0], Symbol(Bits1(a, 0))];
    } else {
      assert s + Padding(3) == [s[0], s[1], s[2], PAD];
      assert DecodeSubject(s) == Some([a, b]);
      assert Symbols([a, b]) == [s[0], s[1], Symbol(Bits2(b, 0))];
    }
  }

  // The other way round: text over the alphabet is some subject's encoding exactly when it has no
  // single symbol over whole groups and its left-over bits are zero.
  lemma {:induction false} ReencodesIff(s: string)
    requires AllSymbols(s)
    ensures DecodeSubject(s).None? <==> |s| % 4 == 1
    ensures |s| % 4 != 1 ==> (EncodeSubject(DecodeSubject(s).value) == s <==> ZeroTail(s))
    decreases |s|
  {
    hide Symbol, Symbols, IsSymbol, Place, Quad, DecodeSubject, EncodeSubject;
    if |s| >= 4 {
      var tail := s[4..];
      ReencodesIff(tail);
      var a, b, c := WholeGroup(s);
      if |s| % 4 != 1 {
        var rest := DecodeSubject(tail).value;
        EncodedIsSymbols(rest);
        EncodedIsSymbols([a, b, c] + rest);
        SymbolsOfGroup(a, b, c, rest);
      }
    } else {
      ShortGroup(s);
      if |s| != 1 {
        EncodedIsSymbols(DecodeSubject(s).value);
      }
    }
  }
}
