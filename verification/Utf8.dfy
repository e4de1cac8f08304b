/** UTF-8 as section 3 of RFC 3629 encodes it, and what it says of well-formed bytes and
    of lengths in bytes. */
module Utf8 {
  import opened Bytes
  import opened Text
  import opened AnsiSgr

  predicate IsScalar(c: int) {
    0 <= c < 0xd800 || 0xe000 <= c <= 0x10_ffff
  }

  /** The octets of a character number. */
  function Encoded(c: int): seq<byte>
    requires IsScalar(c)
  {
    if c < 0x80 then [c as byte]
    else if c < 0x800 then [(0xc0 + c / 64) as byte, Tail(c)]
    else if c < 0x1_0000 then [(0xe0 + c / 4096) as byte, Tail(c / 64), Tail(c)]
    else [(0xf0 + c / 262_144) as byte, Tail(c / 4096), Tail(c / 64), Tail(c)]
  }

  /** A continuation octet: the last six bits. */
  function Tail(c: nat): byte {
    (0x80 + c % 64) as byte
  }

  ghost predicate Scalars(codes: seq<int>) {
    forall i :: 0 <= i < |codes| ==> IsScalar(codes[i])
  }

  function EncodedAll(codes: seq<int>): seq<byte>
    requires Scalars(codes)
  {
    if codes == [] then [] else Encoded(codes[0]) + EncodedAll(codes[1..])
  }

  /** The character number that one to four octets stand for. */
  function Number(s: seq<byte>, i: nat, n: nat): int
    requires i + n <= |s| && 1 <= n <= 4
  {
    if n == 1 then s[i] as int
    else if n == 2 then Bits(s, i, 0xc0) * 64 + Bits(s, i + 1, 0x80)
    else if n == 3 then Bits(s, i, 0xe0) * 4096 + Bits(s, i + 1, 0x80) * 64 + Bits(s, i + 2, 0x80)
    else
      Bits(s, i, 0xf0) * 262_144 + Bits(s, i + 1, 0x80) * 4096 + Bits(s, i + 2, 0x80) * 64 + Bits(s, i + 3, 0x80)
  }

  /** What an octet adds to its mark. */
  function Bits(s: seq<byte>, i: nat, mark: int): int
    requires i < |s|
  {
    s[i] as int - mark
  }

  lemma {:induction false} Digits(a: int, b: int, c: int, d: int)
    requires 0 <= a && 0 <= b < 64 && 0 <= c < 64 && 0 <= d < 64
    ensures var x := a * 262_144 + b * 4096 + c * 64 + d;
            x / 262_144 == a && x / 4096 % 64 == b && x / 64 % 64 == c && x % 64 == d
  {
    var x := a * 262_144 + b * 4096 + c * 64 + d;
    assert x / 64 == a * 4096 + b * 64 + c;
    assert x / 4096 == a * 64 + b;
  }

  lemma {:induction false} TwoOctets(a: int, b: int)
    requires 2 <= a < 32 && 0 <= b < 64
    ensures var c := a * 64 + b; IsScalar(c) && Encoded(c) == [(0xc0 + a) as byte, (0x80 + b) as byte]
  {
    Digits(0, 0, a, b);
  }

  lemma {:induction false} ThreeOctets(a: int, b: int, c: int)
    requires 0 <= a < 16 && 0 <= b < 64 && 0 <= c < 64 && (a == 0 ==> b >= 32) && (a == 13 ==> b < 32)
    ensures var x := a * 4096 + b * 64 + c;
            IsScalar(x) && Encoded(x) == [(0xe0 + a) as byte, (0x80 + b) as byte, (0x80 + c) as byte]
  {
    Digits(0, a, b, c);
  }

  lemma {:induction false} FourOctets(a: int, b: int, c: int, d: int)
    requires 0 <= a <= 4 && 0 <= b < 64 && 0 <= c < 64 && 0 <= d < 64 && (a == 0 ==> b >= 16) && (a == 4 ==> b < 16)
    ensures var x := a * 262_144 + b * 4096 + c * 64 + d;
            IsScalar(x)
            && Encoded(x) == [(0xf0 + a) as byte, (0x80 + b) as byte, (0x80 + c) as byte, (0x80 + d) as byte]
  {
    Digits(a, b, c, d);
  }

  lemma {:induction false} CharOfTwo(s: seq<byte>, i: nat)
    requires i < |s| && CharLength(s, i) == 2
    ensures var c := Number(s, i, 2); IsScalar(c) && Encoded(c) == s[i..i + 2]
  {
    TwoOctets(Bits(s, i, 0xc0), Bits(s, i + 1, 0x80));
  }

  lemma {:induction false} CharOfThree(s: seq<byte>, i: nat)
    requires i < |s| && CharLength(s, i) == 3
    ensures var c := Number(s, i, 3); IsScalar(c) && Encoded(c) == s[i..i + 3]
  {
    ThreeOctets(Bits(s, i, 0xe0), Bits(s, i + 1, 0x80), Bits(s, i + 2, 0x80));
  }

  lemma {:induction false} CharOfFour(s: seq<byte>, i: nat)
    requires i < |s| && CharLength(s, i) == 4
    ensures var c := Number(s, i, 4); IsScalar(c) && Encoded(c) == s[i..i + 4]
  {
    FourOctets(Bits(s, i, 0xf0), Bits(s, i + 1, 0x80), Bits(s, i + 2, 0x80), Bits(s, i + 3, 0x80));
  }

  /** A well-formed character is the encoding of its number. */
  lemma {:induction false} CharIsEncoded(s: seq<byte>, i: nat)
    requires i < |s| && CharLength(s, i) > 0
    ensures CharLength(s, i) <= 4
    ensures var n := CharLength(s, i); var c := Number(s, i, n); IsScalar(c) && Encoded(c) == s[i..i + n]
  {
    var n := CharLength(s, i);
    if n == 2 { CharOfTwo(s, i); } else if n == 3 { CharOfThree(s, i); } else if n == 4 { CharOfFour(s, i); }
  }

  /** The parts of a number of three or four octets. */
  lemma {:induction false} Parts(c: int)
    requires IsScalar(c) && c >= 0x800
    ensures c < 0x1_0000 ==> c / 4096 < 16 && (c / 4096 == 0 ==> c / 64 % 64 >= 32)
                             && (c / 4096 == 13 ==> c / 64 % 64 < 32)
    ensures c >= 0x1_0000 ==> c / 262_144 <= 4 && (c / 262_144 == 0 ==> c / 4096 % 64 >= 16)
                              && (c / 262_144 == 4 ==> c / 4096 % 64 < 16)
  {
  }

  /** An encoding is a well-formed character. */
  lemma {:induction false} EncodedIsChar(c: int, rest: seq<byte>)
    requires IsScalar(c)
    ensures CharLength(Encoded(c) + rest, 0) == |Encoded(c)|
  {
    var e := Encoded(c);
    assert forall k :: 0 <= k < |e| ==> (e + rest)[k] == e[k];
    if c >= 0x800 { Parts(c); }
  }

  lemma {:induction false} DecodedFrom(s: seq<byte>, i: nat) returns (codes: seq<int>)
    requires i <= |s| && WellFormedFrom(s, i)
    ensures Scalars(codes) && EncodedAll(codes) == s[i..]
    decreases |s| - i
  {
    if i == |s| {
      codes := [];
    } else {
      var n := CharLength(s, i);
      CharIsEncoded(s, i);
      var rest := DecodedFrom(s, i + n);
      codes := [Number(s, i, n)] + rest;
      assert codes[1..] == rest;
      assert s[i..] == s[i..i + n] + s[i + n..];
    }
  }

  lemma {:induction false} EncodedWellFormed(codes: seq<int>)
    requires Scalars(codes)
    ensures WellFormed(EncodedAll(codes))
  {
    if codes != [] {
      var first, rest := Encoded(codes[0]), EncodedAll(codes[1..]);
      EncodedWellFormed(codes[1..]);
      EncodedIsChar(codes[0], rest);
      assert (first + rest)[|first|..] == rest[0..];
      WellFormedShift(first + rest, |first|, rest, 0);
    }
  }

  /** Bytes are well formed exactly when they encode some character numbers. */
  lemma {:induction false} WellFormedIff(s: seq<byte>)
    ensures WellFormed(s) <==> exists codes :: Scalars(codes) && EncodedAll(codes) == s
  {
    if WellFormed(s) {
      var codes := DecodedFrom(s, 0);
      assert s[0..] == s;
    }
    if codes :| Scalars(codes) && EncodedAll(codes) == s {
      EncodedWellFormed(codes);
    }
  }

  /** The character numbers of a text. */
  function Codes(text: string): (r: seq<int>)
    ensures |r| == |text| && forall i :: 0 <= i < |r| ==> r[i] == text[i] as int && IsScalar(r[i])
  {
    seq(|text|, i requires 0 <= i < |text| => text[i] as int)
  }

  /** The byte length of a text is the length of its encoding. */
  lemma {:induction false} ByteLengthIs(text: string)
    ensures ByteLength(text) == |EncodedAll(Codes(text))|
  {
    if text != [] {
      ByteLengthIs(text[1..]);
      assert Codes(text)[1..] == Codes(text[1..]);
    }
  }
}
