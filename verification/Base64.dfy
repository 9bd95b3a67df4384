/** Streaming base64 (exoclaw_tools_voice/b64.py) against section 4 of RFC 4648. */
module Base64 {
  import opened Basics

  const ALPHABET := ("ABCDEFGHIJKLM" + "NOPQRSTUVWXYZ") + ("abcdefghijklm" + "nopqrstuvwxyz") + "0123456789+/"

  function Digit(v: bv8): char
    requires v < 64
  {
    ALPHABET[v as int]
  }

  // ----- The encoder's arithmetic -----

  function Group(b0: bv8, b1: bv8, b2: bv8): string {
    [Digit(b0 >> 2), Digit(((b0 & 0x03) << 4) | (b1 >> 4)), Digit(((b1 & 0x0F) << 2) | (b2 >> 6)), Digit(b2 & 0x3F)]
  }

  /** Whole groups of three. */
  function Full(data: seq<bv8>): string {
    if |data| < 3 then "" else Group(data[0], data[1], data[2]) + Full(data[3..])
  }

  function OneLeft(b: bv8): string {
    [Digit(b >> 2), Digit((b & 0x03) << 4), '=', '=']
  }

  function TwoLeft(b0: bv8, b1: bv8): string {
    [Digit(b0 >> 2), Digit(((b0 & 0x03) << 4) | (b1 >> 4)), Digit((b1 & 0x0F) << 2), '=']
  }

  /** What `flush` writes for the bytes carried over. */
  function Final(carry: seq<bv8>): string {
    if |carry| == 1 then OneLeft(carry[0]) else if |carry| == 2 then TwoLeft(carry[0], carry[1]) else ""
  }

  function Aligned(data: seq<bv8>): (n: nat)
    ensures n <= |data| && n % 3 == 0 && |data| - n < 3
  {
    (|data| / 3) * 3
  }

  // ----- RFC 4648, section 4 -----

  /** The bits of a byte, most significant first, each 0 or 1. */
  function ByteBits(b: bv8): seq<bv8> {
    [(b >> 7) & 1, (b >> 6) & 1, (b >> 5) & 1, (b >> 4) & 1, (b >> 3) & 1, (b >> 2) & 1, (b >> 1) & 1, b & 1]
  }

  function Bits(data: seq<bv8>): seq<bv8> {
    if data == [] then [] else ByteBits(data[0]) + Bits(data[1..])
  }

  function Sextet(bits: seq<bv8>): (v: bv8)
    requires |bits| == 6
    ensures v < 64
  {
    ((bits[0] & 1) << 5) | ((bits[1] & 1) << 4) | ((bits[2] & 1) << 3) | ((bits[3] & 1) << 2) | ((bits[4] & 1) << 1) | (bits[5] & 1)
  }

  /** Six bits to a character, a short last group filled up with zero bits. */
  function Characters(bits: seq<bv8>): string {
    if bits == [] then ""
    else if |bits| < 6 then [Digit(Sextet(bits + seq(6 - |bits|, _ => 0)))]
    else [Digit(Sextet(bits[..6]))] + Characters(bits[6..])
  }

  function Padding(n: nat): string {
    if n % 3 == 1 then "==" else if n % 3 == 2 then "=" else ""
  }

  /** The encoding of a byte string taken as one string of bits. */
  function Encoding(data: seq<bv8>): string {
    Characters(Bits(data)) + Padding(|data|)
  }

  // ----- The encoder object -----

  class B64StreamEncoder {
    var carry: seq<bv8>

    constructor ()
      ensures carry == []
    {
      carry := [];
    }

    method Encode(chunk: seq<bv8>) returns (out: string)
      requires |carry| < 3
      modifies this
      ensures |carry| < 3
      ensures var data := old(carry) + chunk; out == Full(data[..Aligned(data)]) && carry == data[Aligned(data)..]
    {
      if chunk == [] {
        NothingToEncode(carry);
        return "";
      }
      var data := carry + chunk;
      var full := (|data| / 3) * 3;
      out := EncodeFull(data[..full]);
      carry := data[full..];
    }

    method Flush() returns (out: string)
      requires |carry| < 3
      modifies this
      ensures out == Final(old(carry)) && carry == []
    {
      hide Digit;
      var c := carry;
      carry := [];
      if c == [] {
        return "";
      }
      if |c| == 1 {
        var b0 := c[0];
        return [Digit(b0 >> 2), Digit((b0 & 0x03) << 4), '=', '='];
      }
      var b0, b1 := c[0], c[1];
      return [Digit(b0 >> 2), Digit(((b0 & 0x03) << 4) | (b1 >> 4)), Digit((b1 & 0x0F) << 2), '='];
    }

    static method EncodeFull(data: seq<bv8>) returns (out: string)
      requires |data| % 3 == 0
      ensures out == Full(data)
    {
      hide Digit, Full;
      out := "";
      var i := 0;
      assert data[0..] == data;
      while i < |data|
        invariant 0 <= i <= |data| && i % 3 == 0
        invariant out + Full(data[i..]) == Full(data)
      {
        var b0, b1, b2 := data[i], data[i + 1], data[i + 2];
        GroupStep(out, data, i);
        out := out + [Digit(b0 >> 2), Digit(((b0 & 0x03) << 4) | (b1 >> 4)), Digit(((b1 & 0x0F) << 2) | (b2 >> 6)), Digit(b2 & 0x3F)];
        i := i + 3;
      }
      NothingLeft(out, data[i..]);
    }
  }

  lemma NothingToEncode(carry: seq<bv8>)
    requires |carry| < 3
    ensures carry + [] == carry && Aligned(carry) == 0 && Full(carry[..0]) == ""
  {
  }

  lemma NothingLeft(out: string, data: seq<bv8>)
    requires data == []
    ensures out + Full(data) == out
  {
  }

  lemma GroupStep(out: string, data: seq<bv8>, i: nat)
    requires i + 3 <= |data|
    ensures out + Full(data[i..]) == out + Group(data[i], data[i + 1], data[i + 2]) + Full(data[i + 3..])
  {
    hide Group;
    assert data[i..][3..] == data[i + 3..];
  }

  // ----- One group, as arithmetic and as bits -----

  lemma SixMore(bits: seq<bv8>, rest: seq<bv8>)
    requires |bits| == 6
    ensures Characters(bits + rest) == [Digit(Sextet(bits))] + Characters(rest)
  {
    hide Sextet, Digit;
    assert (bits + rest)[..6] == bits && (bits + rest)[6..] == rest;
  }

  lemma FirstSextet(b: bv8)
    ensures var x := ByteBits(b); Sextet(x[..6]) == b >> 2
  {
  }

  lemma SecondSextet(b0: bv8, b1: bv8)
    ensures Sextet(ByteBits(b0)[6..] + ByteBits(b1)[..4]) == ((b0 & 0x03) << 4) | (b1 >> 4)
  {
  }

  lemma ThirdSextet(b1: bv8, b2: bv8)
    ensures Sextet(ByteBits(b1)[4..] + ByteBits(b2)[..2]) == ((b1 & 0x0F) << 2) | (b2 >> 6)
  {
  }

  lemma FourthSextet(b2: bv8)
    ensures Sextet(ByteBits(b2)[2..]) == b2 & 0x3F
  {
  }

  lemma Regroup(x: seq<bv8>, y: seq<bv8>, z: seq<bv8>, rest: seq<bv8>)
    requires |x| == 8 && |y| == 8 && |z| == 8
    ensures x + (y + (z + rest)) == x[..6] + ((x[6..] + y[..4]) + ((y[4..] + z[..2]) + (z[2..] + rest)))
  {
  }

  lemma GroupOfBits(b0: bv8, b1: bv8, b2: bv8, rest: seq<bv8>)
    ensures Characters(ByteBits(b0) + (ByteBits(b1) + (ByteBits(b2) + rest))) == Group(b0, b1, b2) + Characters(rest)
  {
    hide Characters, Sextet, Digit;
    var x, y, z := ByteBits(b0), ByteBits(b1), ByteBits(b2);
    Regroup(x, y, z, rest);
    FirstSextet(b0);
    SecondSextet(b0, b1);
    ThirdSextet(b1, b2);
    FourthSextet(b2);
    SixMore(z[2..], rest);
    SixMore(y[4..] + z[..2], z[2..] + rest);
    SixMore(x[6..] + y[..4], (y[4..] + z[..2]) + (z[2..] + rest));
    SixMore(x[..6], (x[6..] + y[..4]) + ((y[4..] + z[..2]) + (z[2..] + rest)));
  }

  lemma BitsStep(data: seq<bv8>)
    requires data != []
    ensures Bits(data) == ByteBits(data[0]) + Bits(data[1..])
  {
  }

  lemma BitsOfThree(data: seq<bv8>)
    requires |data| >= 3
    ensures Bits(data) == ByteBits(data[0]) + (ByteBits(data[1]) + (ByteBits(data[2]) + Bits(data[3..])))
  {
    hide ByteBits, Bits;
    assert data[1..][1..] == data[2..] && data[2..][1..] == data[3..];
    BitsStep(data);
    BitsStep(data[1..]);
    BitsStep(data[2..]);
  }

  lemma EncodingOfGroup(data: seq<bv8>)
    requires |data| >= 3
    ensures Encoding(data) == Group(data[0], data[1], data[2]) + Encoding(data[3..])
  {
    hide ByteBits, Bits, Characters, Group;
    BitsOfThree(data);
    GroupOfBits(data[0], data[1], data[2], Bits(data[3..]));
  }

  lemma EncodingOfRemainder(data: seq<bv8>)
    requires |data| < 3
    ensures Encoding(data) == Final(data)
  {
    hide Characters, Sextet, Digit, ByteBits, Bits, OneLeft, TwoLeft;
    if |data| == 1 {
      BitsStep(data);
      NoMoreBits(data[1..]);
      assert ByteBits(data[0]) + [] == ByteBits(data[0]);
      OneByte(data[0]);
    } else if |data| == 2 {
      BitsStep(data);
      BitsStep(data[1..]);
      NoMoreBits(data[1..][1..]);
      assert ByteBits(data[1]) + [] == ByteBits(data[1]);
      TwoBytes(data[0], data[1]);
    } else {
      NoMoreBits(data);
      NoBits([]);
    }
  }

  lemma NoMoreBits(data: seq<bv8>)
    requires data == []
    ensures Bits(data) == []
  {
  }

  lemma NoBits(bits: seq<bv8>)
    requires bits == []
    ensures Characters(bits) == ""
  {
  }

  lemma LastBits(bits: seq<bv8>)
    requires 0 < |bits| < 6
    ensures Characters(bits) == [Digit(Sextet(bits + seq(6 - |bits|, _ => 0)))]
  {
  }

  lemma OneByte(b: bv8)
    ensures Characters(ByteBits(b)) + "==" == OneLeft(b)
  {
    hide Characters, Digit;
    var x := ByteBits(b);
    assert x == x[..6] + x[6..];
    SixMore(x[..6], x[6..]);
    FirstSextet(b);
    LastBits(x[6..]);
    assert Sextet(x[6..] + seq(4, _ => 0)) == (b & 0x03) << 4;
  }

  lemma TwoBytes(b0: bv8, b1: bv8)
    ensures Characters(ByteBits(b0) + ByteBits(b1)) + "=" == TwoLeft(b0, b1)
  {
    hide Characters, Digit, Sextet;
    var x, y := ByteBits(b0), ByteBits(b1);
    assert x + y == x[..6] + ((x[6..] + y[..4]) + y[4..]);
    SixMore(x[..6], (x[6..] + y[..4]) + y[4..]);
    SixMore(x[6..] + y[..4], y[4..]);
    FirstSextet(b0);
    SecondSextet(b0, b1);
    LastBits(y[4..]);
    LastSextet(b1);
  }

  lemma LastSextet(b1: bv8)
    ensures Sextet(ByteBits(b1)[4..] + seq(2, _ => 0)) == (b1 & 0x0F) << 2
  {
  }

  // ----- Chunks do not show -----

  /** All the text the encoder gives out for `chunks` and a final flush, starting with `carry` held back. */
  function Streamed(carry: seq<bv8>, chunks: seq<seq<bv8>>): string
    decreases |chunks|
  {
    if chunks == [] then Final(carry)
    else
      var data := carry + chunks[0];
      Full(data[..Aligned(data)]) + Streamed(data[Aligned(data)..], chunks[1..])
  }

  lemma {:induction false} EncodingSplits(a: seq<bv8>, b: seq<bv8>)
    requires |a| % 3 == 0
    ensures Encoding(a + b) == Full(a) + Encoding(b)
  {
    hide Encoding, Group;
    if a == [] {
      assert a + b == b;
    } else {
      EncodingOfGroup(a + b);
      assert (a + b)[3..] == a[3..] + b;
      EncodingSplits(a[3..], b);
      assert (Group(a[0], a[1], a[2]) + Full(a[3..])) + Encoding(b) == Group(a[0], a[1], a[2]) + (Full(a[3..]) + Encoding(b));
    }
  }

  /** Any chunking, empty and one-byte chunks included, streams the one-shot encoding. */
  lemma {:induction false} StreamedIsOneShot(carry: seq<bv8>, chunks: seq<seq<bv8>>)
    requires |carry| < 3
    ensures Streamed(carry, chunks) == Encoding(carry + Concat(chunks))
    decreases |chunks|
  {
    hide Encoding, Full, Final, Aligned;
    if chunks == [] {
      assert carry + Concat(chunks) == carry;
      EncodingOfRemainder(carry);
    } else {
      var data := carry + chunks[0];
      var n := Aligned(data);
      StreamedIsOneShot(data[n..], chunks[1..]);
      EncodingSplits(data[..n], data[n..] + Concat(chunks[1..]));
      assert carry + Concat(chunks) == data[..n] + (data[n..] + Concat(chunks[1..]));
    }
  }

  // ----- Decoding -----

  /** Table 1 of RFC 4648. */
  function Code(c: char): (r: Option<nat>)
    ensures r.Some? ==> r.value < 64
  {
    var n := c as int;
    if 'A' <= c <= 'Z' then Some(n - 65)
    else if 'a' <= c <= 'z' then Some(n - 71)
    else if '0' <= c <= '9' then Some(n + 4)
    else if c == '+' then Some(62)
    else if c == '/' then Some(63)
    else None
  }

  function Value(c: char): Option<bv8> {
    if Code(c).None? then None else Some(Code(c).value as bv8)
  }

  /** The last group, rejecting pad bits that are not zero (RFC 4648, section 3.5). */
  function DecodeOne(v0: bv8, v1: bv8): Option<seq<bv8>> {
    if v1 & 0x0F == 0 then Some([(v0 << 2) | (v1 >> 4)]) else None
  }

  function DecodeTwo(v0: bv8, v1: bv8, v2: bv8): Option<seq<bv8>> {
    if v2 & 0x03 == 0 then Some([(v0 << 2) | (v1 >> 4), ((v1 & 0x0F) << 4) | (v2 >> 2)]) else None
  }

  function DecodeThree(v0: bv8, v1: bv8, v2: bv8, v3: bv8): seq<bv8> {
    [(v0 << 2) | (v1 >> 4), ((v1 & 0x0F) << 4) | (v2 >> 2), ((v2 & 0x03) << 6) | v3]
  }

  function DecodeGroup(c0: char, c1: char, c2: char, c3: char, last: bool): Option<seq<bv8>> {
    var v0, v1, v2, v3 := Value(c0), Value(c1), Value(c2), Value(c3);
    if v0.None? || v1.None? then None
    else if last && c2 == '=' && c3 == '=' then DecodeOne(v0.value, v1.value)
    else if v2.None? then None
    else if last && c3 == '=' then DecodeTwo(v0.value, v1.value, v2.value)
    else if v3.None? then None
    else Some(DecodeThree(v0.value, v1.value, v2.value, v3.value))
  }

  /** A strict decoder: padding only at the end, nothing outside the alphabet. */
  function Decode(s: string): Option<seq<bv8>> {
    if s == "" then Some([])
    else if |s| < 4 then None
    else
      var here := DecodeGroup(s[0], s[1], s[2], s[3], |s| == 4);
      var rest := Decode(s[4..]);
      if here.None? || rest.None? then None else Some(here.value + rest.value)
  }

  lemma UpperAt(i: nat)
    requires i < 26
    ensures ALPHABET[i] as int == 65 + i
  {
    match i {
      case 0 => case 1 => case 2 => case 3 => case 4 => case 5 => case 6 => case 7 => case 8 => case 9 => case 10 =>
      case 11 => case 12 => case 13 => case 14 => case 15 => case 16 => case 17 => case 18 => case 19 => case 20 =>
      case 21 => case 22 => case 23 => case 24 => case 25 =>
    }
  }

  lemma LowerAt(i: nat)
    requires i < 26
    ensures ALPHABET[26 + i] as int == 97 + i
  {
    match i {
      case 0 => case 1 => case 2 => case 3 => case 4 => case 5 => case 6 => case 7 => case 8 => case 9 => case 10 =>
      case 11 => case 12 => case 13 => case 14 => case 15 => case 16 => case 17 => case 18 => case 19 => case 20 =>
      case 21 => case 22 => case 23 => case 24 => case 25 =>
    }
  }

  lemma OtherAt(i: nat)
    requires i < 12
    ensures ALPHABET[52 + i] == if i < 10 then (48 + i) as char else if i == 10 then '+' else '/'
  {
    match i {
      case 0 => case 1 => case 2 => case 3 => case 4 => case 5 => case 6 => case 7 => case 8 => case 9 => case 10 => case 11 =>
    }
  }

  lemma CodeAt(i: nat)
    requires i < 64
    ensures Code(ALPHABET[i]) == Some(i) && ALPHABET[i] != '='
  {
    if i < 26 {
      UpperAt(i);
    } else if i < 52 {
      LowerAt(i - 26);
    } else {
      OtherAt(i - 52);
    }
  }

  lemma AtCode(c: char)
    requires Code(c).Some?
    ensures ALPHABET[Code(c).value] == c
  {
    CodeAt(Code(c).value);
    SameCode(c, ALPHABET[Code(c).value]);
  }

  lemma SameCode(c: char, d: char)
    requires Code(c).Some? && Code(c) == Code(d)
    ensures c == d
  {
  }

  /** The encoder's table inverts Table 1. */
  lemma ValueOfDigit(v: bv8)
    requires v < 64
    ensures Value(Digit(v)) == Some(v) && Digit(v) != '='
  {
    hide Code;
    CodeAt(v as int);
  }

  lemma DigitOfValue(c: char)
    requires Value(c).Some?
    ensures Value(c).value < 64 && Digit(Value(c).value) == c
  {
    hide Code;
    AtCode(c);
    AsBits(Code(c).value);
  }

  lemma AsBits(n: nat)
    requires n < 64
    ensures (n as bv8) < 64 && (n as bv8) as int == n
  {
    var b := n as bv8;
    assert b as int == n;
    assert (b as int) < 64;
  }

  // ----- Decoding undoes encoding, and nothing else decodes -----

  lemma ThreeBack(b0: bv8, b1: bv8, b2: bv8)
    ensures DecodeThree(b0 >> 2, ((b0 & 0x03) << 4) | (b1 >> 4), ((b1 & 0x0F) << 2) | (b2 >> 6), b2 & 0x3F) == [b0, b1, b2]
  {
  }

  lemma TwoBack(b0: bv8, b1: bv8)
    ensures DecodeTwo(b0 >> 2, ((b0 & 0x03) << 4) | (b1 >> 4), (b1 & 0x0F) << 2) == Some([b0, b1])
  {
  }

  lemma OneBack(b: bv8)
    ensures DecodeOne(b >> 2, (b & 0x03) << 4) == Some([b])
  {
  }

  lemma GroupDecodes(b0: bv8, b1: bv8, b2: bv8, last: bool)
    ensures var g := Group(b0, b1, b2); DecodeGroup(g[0], g[1], g[2], g[3], last) == Some([b0, b1, b2])
  {
    hide Value, Digit, DecodeThree;
    ValueOfDigit(b0 >> 2);
    ValueOfDigit(((b0 & 0x03) << 4) | (b1 >> 4));
    ValueOfDigit(((b1 & 0x0F) << 2) | (b2 >> 6));
    ValueOfDigit(b2 & 0x3F);
    ThreeBack(b0, b1, b2);
  }

  lemma TwoLeftDecodes(b0: bv8, b1: bv8)
    ensures var g := TwoLeft(b0, b1); DecodeGroup(g[0], g[1], g[2], g[3], true) == Some([b0, b1])
  {
    hide Value, Digit, DecodeTwo;
    ValueOfDigit(b0 >> 2);
    ValueOfDigit(((b0 & 0x03) << 4) | (b1 >> 4));
    ValueOfDigit((b1 & 0x0F) << 2);
    TwoBack(b0, b1);
  }

  lemma OneLeftDecodes(b: bv8)
    ensures var g := OneLeft(b); DecodeGroup(g[0], g[1], g[2], g[3], true) == Some([b])
  {
    hide Value, Digit, DecodeOne;
    ValueOfDigit(b >> 2);
    ValueOfDigit((b & 0x03) << 4);
    OneBack(b);
  }

  lemma DecodeStep(g: string, rest: string)
    requires |g| == 4
    ensures Decode(g + rest) ==
      (var here := DecodeGroup(g[0], g[1], g[2], g[3], rest == "");
       if here.None? || Decode(rest).None? then None else Some(here.value + Decode(rest).value))
  {
    hide DecodeGroup;
    assert (g + rest)[4..] == rest;
  }

  lemma {:induction false} EncodingDecodes(data: seq<bv8>)
    ensures Decode(Encoding(data)) == Some(data)
  {
    hide Encoding, Group, OneLeft, TwoLeft, DecodeGroup, Decode;
    if |data| >= 3 {
      EncodingOfGroup(data);
      EncodingDecodes(data[3..]);
      var g := Group(data[0], data[1], data[2]);
      GroupSize(data[0], data[1], data[2]);
      DecodeStep(g, Encoding(data[3..]));
      GroupDecodes(data[0], data[1], data[2], Encoding(data[3..]) == "");
      assert [data[0], data[1], data[2]] + data[3..] == data;
    } else {
      EncodingOfRemainder(data);
      EmptyDecodes();
      if |data| == 1 {
        OneLeftDecodes(data[0]);
        LeftSize(data[0], data[0]);
        DecodeStep(OneLeft(data[0]), "");
        assert OneLeft(data[0]) + "" == OneLeft(data[0]);
        assert [data[0]] + [] == data;
      } else if |data| == 2 {
        TwoLeftDecodes(data[0], data[1]);
        LeftSize(data[0], data[1]);
        DecodeStep(TwoLeft(data[0], data[1]), "");
        assert TwoLeft(data[0], data[1]) + "" == TwoLeft(data[0], data[1]);
        assert [data[0], data[1]] + [] == data;
      }
    }
  }

  lemma EmptyDecodes()
    ensures Decode("") == Some([])
  {
  }

  lemma GroupSize(b0: bv8, b1: bv8, b2: bv8)
    ensures |Group(b0, b1, b2)| == 4
  {
  }

  lemma LeftSize(b0: bv8, b1: bv8)
    ensures |OneLeft(b0)| == 4 && |TwoLeft(b0, b1)| == 4
  {
  }

  lemma ThreeForth(v0: bv8, v1: bv8, v2: bv8, v3: bv8)
    requires v0 < 64 && v1 < 64 && v2 < 64 && v3 < 64
    ensures var d := DecodeThree(v0, v1, v2, v3);
      d[0] >> 2 == v0 && ((d[0] & 0x03) << 4) | (d[1] >> 4) == v1 && ((d[1] & 0x0F) << 2) | (d[2] >> 6) == v2 && d[2] & 0x3F == v3
  {
  }

  lemma TwoForth(v0: bv8, v1: bv8, v2: bv8)
    requires v0 < 64 && v1 < 64 && v2 < 64 && DecodeTwo(v0, v1, v2).Some?
    ensures var d := DecodeTwo(v0, v1, v2).value;
      |d| == 2 && d[0] >> 2 == v0 && ((d[0] & 0x03) << 4) | (d[1] >> 4) == v1 && (d[1] & 0x0F) << 2 == v2
  {
  }

  lemma OneForth(v0: bv8, v1: bv8)
    requires v0 < 64 && v1 < 64 && DecodeOne(v0, v1).Some?
    ensures var d := DecodeOne(v0, v1).value; |d| == 1 && d[0] >> 2 == v0 && (d[0] & 0x03) << 4 == v1
  {
  }

  lemma ThreeRead(c0: char, c1: char, c2: char, c3: char)
    requires Value(c0).Some? && Value(c1).Some? && Value(c2).Some? && Value(c3).Some?
    ensures var d := DecodeThree(Value(c0).value, Value(c1).value, Value(c2).value, Value(c3).value);
      [c0, c1, c2, c3] == Group(d[0], d[1], d[2])
  {
    hide Value, Digit, DecodeThree;
    DigitOfValue(c0);
    DigitOfValue(c1);
    DigitOfValue(c2);
    DigitOfValue(c3);
    ThreeForth(Value(c0).value, Value(c1).value, Value(c2).value, Value(c3).value);
    ThreeBytes(Value(c0).value, Value(c1).value, Value(c2).value, Value(c3).value);
  }

  lemma ThreeBytes(v0: bv8, v1: bv8, v2: bv8, v3: bv8)
    ensures |DecodeThree(v0, v1, v2, v3)| == 3
  {
  }

  lemma TwoRead(c0: char, c1: char, c2: char)
    requires Value(c0).Some? && Value(c1).Some? && Value(c2).Some?
    requires DecodeTwo(Value(c0).value, Value(c1).value, Value(c2).value).Some?
    ensures var d := DecodeTwo(Value(c0).value, Value(c1).value, Value(c2).value).value;
      |d| == 2 && [c0, c1, c2, '='] == TwoLeft(d[0], d[1])
  {
    hide Value, Digit, DecodeTwo;
    DigitOfValue(c0);
    DigitOfValue(c1);
    DigitOfValue(c2);
    TwoForth(Value(c0).value, Value(c1).value, Value(c2).value);
  }

  lemma OneRead(c0: char, c1: char)
    requires Value(c0).Some? && Value(c1).Some? && DecodeOne(Value(c0).value, Value(c1).value).Some?
    ensures var d := DecodeOne(Value(c0).value, Value(c1).value).value; |d| == 1 && [c0, c1, '=', '='] == OneLeft(d[0])
  {
    hide Value, Digit, DecodeOne;
    DigitOfValue(c0);
    DigitOfValue(c1);
    OneForth(Value(c0).value, Value(c1).value);
  }

  /** Only an encoded group decodes. */
  lemma GroupForth(c0: char, c1: char, c2: char, c3: char, last: bool)
    requires DecodeGroup(c0, c1, c2, c3, last).Some?
    ensures var d := DecodeGroup(c0, c1, c2, c3, last).value;
      0 < |d| <= 3 && (!last ==> |d| == 3) &&
      [c0, c1, c2, c3] == if |d| == 3 then Group(d[0], d[1], d[2]) else Final(d)
  {
    hide Value, DecodeOne, DecodeTwo, DecodeThree, Group, OneLeft, TwoLeft;
    if last && c2 == '=' && c3 == '=' {
      OneRead(c0, c1);
    } else if last && c3 == '=' {
      TwoRead(c0, c1, c2);
    } else {
      ThreeRead(c0, c1, c2, c3);
      ThreeBytes(Value(c0).value, Value(c1).value, Value(c2).value, Value(c3).value);
    }
  }

  lemma {:induction false} OnlyEncodingsDecode(s: string)
    requires Decode(s).Some?
    ensures s == Encoding(Decode(s).value)
  {
    hide Encoding, Group, Final, DecodeGroup;
    if s == "" {
      EncodingOfRemainder([]);
      NothingFinal();
    } else {
      var here := DecodeGroup(s[0], s[1], s[2], s[3], |s| == 4);
      var rest := Decode(s[4..]).value;
      GroupForth(s[0], s[1], s[2], s[3], |s| == 4);
      OnlyEncodingsDecode(s[4..]);
      var d := here.value + rest;
      assert s == [s[0], s[1], s[2], s[3]] + s[4..];
      if |here.value| == 3 {
        EncodingOfGroup(d);
        assert d[3..] == rest;
      } else {
        assert s[4..] == "";
        EmptyDecodes();
        assert d == here.value;
        EncodingOfRemainder(d);
      }
    }
  }

  lemma NothingFinal()
    ensures Final([]) == ""
  {
  }

  /** A text decodes to `data` exactly when it is the encoding of `data`. */
  lemma DecodesExactlyItsEncoding(s: string, data: seq<bv8>)
    ensures Decode(s) == Some(data) <==> s == Encoding(data)
  {
    hide Encoding, Decode;
    EncodingDecodes(data);
    if Decode(s).Some? {
      OnlyEncodingsDecode(s);
    }
  }
}
