/**
 * Base64 with padding, the alphabet of section 4 of RFC 4648, as
 * `Buffer.toString("base64")` writes it. Decoding here is strict; the
 * lenient decoder of the runtime is only assumed to give back the bytes of
 * every encoding, which is the same as agreeing with strict decoding on
 * the texts that decoding accepts.
 */
module Base64 {
  import opened Js

  type Byte = b: int | 0 <= b < 256

  /** The value of a sextet as a character of the alphabet of RFC 4648 section 4. */
  function Char(i: nat): (c: char)
    requires i < 64
    ensures c != '='
  {
    if i < 26 then ('A' as int + i) as char
    else if i < 52 then ('a' as int + (i - 26)) as char
    else if i < 62 then ('0' as int + (i - 52)) as char
    else if i == 62 then '+'
    else '/'
  }

  /** The sextet a character stands for, `None` for a character outside the alphabet. */
  function Index(c: char): (r: Option<nat>)
    ensures r.Some? ==> r.value < 64 && Char(r.value) == c
  {
    if 'A' <= c <= 'Z' then Some(c as int - 'A' as int)
    else if 'a' <= c <= 'z' then Some(c as int - 'a' as int + 26)
    else if '0' <= c <= '9' then Some(c as int - '0' as int + 52)
    else if c == '+' then Some(62)
    else if c == '/' then Some(63)
    else None
  }

  /** Every character of the alphabet stands for its own position. */
  lemma IndexChar(i: nat)
    requires i < 64
    ensures Index(Char(i)) == Some(i)
  {
  }

  /** Three bytes cut into four sextets can be put back together. */
  lemma SplitThree(x: Byte, y: Byte, z: Byte)
    ensures x / 4 < 64 && (x % 4) * 16 + y / 16 < 64 && (y % 16) * 4 + z / 64 < 64
    ensures (x / 4) * 4 + ((x % 4) * 16 + y / 16) / 16 == x
    ensures (((x % 4) * 16 + y / 16) % 16) * 16 + ((y % 16) * 4 + z / 64) / 4 == y
    ensures (((y % 16) * 4 + z / 64) % 4) * 64 + z % 64 == z
  {
  }

  /** Four sextets packed into three bytes can be cut out again. */
  lemma JoinFour(a: nat, b: nat, c: nat, d: nat)
    requires a < 64 && b < 64 && c < 64 && d < 64
    ensures a * 4 + b / 16 < 256 && (b % 16) * 16 + c / 4 < 256 && (c % 4) * 64 + d < 256
    ensures (a * 4 + b / 16) / 4 == a
    ensures ((a * 4 + b / 16) % 4) * 16 + ((b % 16) * 16 + c / 4) / 16 == b
    ensures (((b % 16) * 16 + c / 4) % 16) * 4 + ((c % 4) * 64 + d) / 64 == c
    ensures ((c % 4) * 64 + d) % 64 == d
  {
  }

  /** The four characters of a full group of three bytes. */
  function EncodeGroup(x: Byte, y: Byte, z: Byte): (q: string)
    ensures |q| == 4 && q[3] != '='
  {
    SplitThree(x, y, z);
    [Char(x / 4), Char((x % 4) * 16 + y / 16), Char((y % 16) * 4 + z / 64), Char(z % 64)]
  }

  /** The padded group of a trailing one or two bytes. */
  function EncodeTail(t: seq<Byte>): (q: string)
    requires 1 <= |t| <= 2
    ensures |q| == 4 && q[3] == '='
  {
    if |t| == 1 then
      SplitThree(t[0], 0, 0);
      [Char(t[0] / 4), Char((t[0] % 4) * 16), '=', '=']
    else
      SplitThree(t[0], t[1], 0);
      [Char(t[0] / 4), Char((t[0] % 4) * 16 + t[1] / 16), Char((t[1] % 16) * 4), '=']
  }

  /** Encoding with padding, RFC 4648 section 4: four characters per group of up to three bytes. */
  function Encode(b: seq<Byte>): (s: string)
    ensures |s| == 4 * ((|b| + 2) / 3)
  {
    if |b| == 0 then ""
    else if |b| <= 2 then EncodeTail(b)
    else EncodeGroup(b[0], b[1], b[2]) + Encode(b[3..])
  }

  /** A full group of four alphabet characters. */
  function DecodeGroup(q: string): (r: Option<seq<Byte>>)
    requires |q| == 4
    ensures r.Some? ==> |r.value| == 3
  {
    var a := Index(q[0]);
    var b := Index(q[1]);
    var c := Index(q[2]);
    var d := Index(q[3]);
    if a.None? || b.None? || c.None? || d.None? then None
    else
      JoinFour(a.value, b.value, c.value, d.value);
      Some([a.value * 4 + b.value / 16, (b.value % 16) * 16 + c.value / 4, (c.value % 4) * 64 + d.value])
  }

  /** A padded last group, `xx==` or `xxx=`, whose dropped bits are zero. */
  function DecodeTail(q: string): (r: Option<seq<Byte>>)
    requires |q| == 4
    ensures r.Some? ==> 1 <= |r.value| <= 2
  {
    var a := Index(q[0]);
    var b := Index(q[1]);
    if a.None? || b.None? || q[3] != '=' then None
    else if q[2] == '=' then
      if b.value % 16 != 0 then None
      else
        JoinFour(a.value, b.value, 0, 0);
        Some([a.value * 4 + b.value / 16])
    else
      var c := Index(q[2]);
      if c.None? || c.value % 4 != 0 then None
      else
        JoinFour(a.value, b.value, c.value, 0);
        Some([a.value * 4 + b.value / 16, (b.value % 16) * 16 + c.value / 4])
  }

  /**
   * Strict decoding: only characters of the alphabet, padding only in the
   * last group, and the bits the padding drops must be zero, so that every
   * accepted text is the encoding of what it decodes to.
   */
  function Decode(s: string): (r: Option<seq<Byte>>)
  {
    if |s| == 0 then Some([])
    else if |s| < 4 then None
    else if |s| == 4 && s[3] == '=' then DecodeTail(s)
    else
      match DecodeGroup(s[..4])
      case None => None
      case Some(g) =>
        match Decode(s[4..])
        case None => None
        case Some(rest) => Some(g + rest)
  }

  /** A full group decodes to its three bytes. */
  lemma GroupRoundTrip(x: Byte, y: Byte, z: Byte)
    ensures DecodeGroup(EncodeGroup(x, y, z)) == Some([x, y, z])
  {
    SplitThree(x, y, z);
    var a := x / 4;
    var b := (x % 4) * 16 + y / 16;
    var c := (y % 16) * 4 + z / 64;
    var d := z % 64;
    IndexChar(a);
    IndexChar(b);
    IndexChar(c);
    IndexChar(d);
    var q := EncodeGroup(x, y, z);
    assert q == [Char(a), Char(b), Char(c), Char(d)];
    assert a * 4 + b / 16 == x && (b % 16) * 16 + c / 4 == y && (c % 4) * 64 + d == z;
  }

  /** A one-byte tail decodes back from its `xx==` group. */
  lemma OneByteTailRoundTrip(x: Byte)
    ensures DecodeTail(EncodeTail([x])) == Some([x])
  {
    SplitThree(x, 0, 0);
    var a := x / 4;
    var b := (x % 4) * 16;
    IndexChar(a);
    IndexChar(b);
    var q := EncodeTail([x]);
    assert q == [Char(a), Char(b), '=', '='];
    assert b % 16 == 0 && b / 16 == x % 4;
    assert a * 4 + b / 16 == x;
  }

  /** A two-byte tail decodes back from its `xxx=` group. */
  lemma TwoByteTailRoundTrip(x: Byte, y: Byte)
    ensures DecodeTail(EncodeTail([x, y])) == Some([x, y])
  {
    SplitThree(x, y, 0);
    var a := x / 4;
    var b := (x % 4) * 16 + y / 16;
    var c := (y % 16) * 4;
    IndexChar(a);
    IndexChar(b);
    IndexChar(c);
    var q := EncodeTail([x, y]);
    assert q == [Char(a), Char(b), Char(c), '='];
    assert c % 4 == 0 && c / 4 == y % 16;
    assert b % 16 == y / 16 && b / 16 == x % 4;
    assert a * 4 + b / 16 == x;
    assert (b % 16) * 16 + c / 4 == y;
  }

  /** A padded group decodes to its one or two bytes. */
  lemma TailRoundTrip(t: seq<Byte>)
    requires 1 <= |t| <= 2
    ensures DecodeTail(EncodeTail(t)) == Some(t)
  {
    if |t| == 1 {
      OneByteTailRoundTrip(t[0]);
      assert t == [t[0]];
    } else {
      TwoByteTailRoundTrip(t[0], t[1]);
      assert t == [t[0], t[1]];
    }
  }

  /** A decodable full group is the encoding of what it decodes to. */
  lemma GroupCanonical(q: string)
    requires |q| == 4 && DecodeGroup(q).Some?
    ensures var g := DecodeGroup(q).value; EncodeGroup(g[0], g[1], g[2]) == q
  {
    var a, b, c, d := Index(q[0]).value, Index(q[1]).value, Index(q[2]).value, Index(q[3]).value;
    JoinFour(a, b, c, d);
    var x, y, z := a * 4 + b / 16, (b % 16) * 16 + c / 4, (c % 4) * 64 + d;
    assert DecodeGroup(q) == Some([x, y, z]);
    assert x / 4 == a && (x % 4) * 16 + y / 16 == b && (y % 16) * 4 + z / 64 == c && z % 64 == d;
    assert EncodeGroup(x, y, z) == [Char(a), Char(b), Char(c), Char(d)];
    assert q == [q[0], q[1], q[2], q[3]];
  }

  /** A decodable padded group is the encoding of what it decodes to. */
  lemma TailCanonical(q: string)
    requires |q| == 4 && DecodeTail(q).Some?
    ensures EncodeTail(DecodeTail(q).value) == q
  {
    var a := Index(q[0]).value;
    var b := Index(q[1]).value;
    if q[2] == '=' {
      JoinFour(a, b, 0, 0);
    } else {
      JoinFour(a, b, Index(q[2]).value, 0);
    }
  }

  /** An unpadded group in front of a decodable text decodes to its bytes in front of the text's. */
  lemma DecodeGroupThenRest(q: string, rest: string)
    requires |q| == 4 && q[3] != '=' && DecodeGroup(q).Some? && Decode(rest).Some?
    ensures Decode(q + rest) == Some(DecodeGroup(q).value + Decode(rest).value)
  {
    var s := q + rest;
    assert s[..4] == q && s[4..] == rest;
    assert s[3] == q[3];
  }

  /** Decoding undoes encoding. */
  lemma {:induction false} DecodeEncode(b: seq<Byte>)
    ensures Decode(Encode(b)) == Some(b)
    decreases |b|
  {
    if 1 <= |b| <= 2 {
      TailRoundTrip(b);
    } else if |b| >= 3 {
      var q := EncodeGroup(b[0], b[1], b[2]);
      GroupRoundTrip(b[0], b[1], b[2]);
      DecodeEncode(b[3..]);
      DecodeGroupThenRest(q, Encode(b[3..]));
      assert Encode(b) == q + Encode(b[3..]);
      assert b == [b[0], b[1], b[2]] + b[3..];
    }
  }

  /** Encoding undoes decoding: a strictly decodable text is the one canonical encoding of its bytes. */
  lemma {:induction false} EncodeDecode(s: string)
    requires Decode(s).Some?
    ensures Encode(Decode(s).value) == s
    decreases |s|
  {
    if |s| == 4 && s[3] == '=' {
      TailCanonical(s);
    } else if |s| > 0 {
      var g := DecodeGroup(s[..4]).value;
      var rest := Decode(s[4..]).value;
      GroupCanonical(s[..4]);
      EncodeDecode(s[4..]);
      var b := g + rest;
      assert b[0] == g[0] && b[1] == g[1] && b[2] == g[2] && b[3..] == rest;
      assert s == s[..4] + s[4..];
    }
  }

  /** A decoder, such as the runtime's lenient one, that gives back the bytes of every encoding. */
  ghost predicate InvertsEncoding(decoder: string -> seq<Byte>) {
    forall b :: decoder(Encode(b)) == b
  }

  /** A decoder that agrees with strict decoding on every text strict decoding accepts. */
  ghost predicate AgreesWithStrict(decoder: string -> seq<Byte>) {
    forall s :: Decode(s).Some? ==> decoder(s) == Decode(s).value
  }

  /**
   * The two are the same demand on a decoder, because the texts strict
   * decoding accepts are exactly the encodings.
   */
  lemma StrictAgreement(decoder: string -> seq<Byte>)
    ensures InvertsEncoding(decoder) <==> AgreesWithStrict(decoder)
  {
    if InvertsEncoding(decoder) {
      forall s | Decode(s).Some? ensures decoder(s) == Decode(s).value {
        EncodeDecode(s);
        assert decoder(Encode(Decode(s).value)) == Decode(s).value;
      }
    }
    if AgreesWithStrict(decoder) {
      forall b ensures decoder(Encode(b)) == b {
        DecodeEncode(b);
      }
    }
  }
}
