/** Base 64 as section 4 of RFC 4648 defines it: the standard alphabet, `=`
    padding to a multiple of four characters, and a strict decoder that accepts
    exactly the canonical encodings. */
module Base64 {
  import opened Wrappers

  type Byte = x: int | 0 <= x < 256

  /** A 6-bit group. */
  type Sextet = x: int | 0 <= x < 64

  /** The character for a sextet (Table 1 of RFC 4648). */
  function CharOf(v: Sextet): (c: char)
    ensures c != '='
  {
    if v < 26 then ('A' as int + v) as char
    else if v < 52 then ('a' as int + (v - 26)) as char
    else if v < 62 then ('0' as int + (v - 52)) as char
    else if v == 62 then '+'
    else '/'
  }

  /** The sextet a character stands for; padding and every other character stand for none. */
  function SextetOf(c: char): Option<Sextet>
  {
    if 'A' <= c <= 'Z' then Some(c as int - 'A' as int)
    else if 'a' <= c <= 'z' then Some(c as int - 'a' as int + 26)
    else if '0' <= c <= '9' then Some(c as int - '0' as int + 52)
    else if c == '+' then Some(62)
    else if c == '/' then Some(63)
    else None
  }

  lemma SextetOfCharOf(v: Sextet)
    ensures SextetOf(CharOf(v)) == Some(v)
  {
  }

  lemma CharOfSextetOf(c: char)
    requires SextetOf(c).Some?
    ensures CharOf(SextetOf(c).value) == c
  {
  }

  // The bit slicing between three bytes and four sextets: `S0` to `S3` cut the
  // 24 bits of three bytes into sextets, `B0` to `B2` glue sextets back into bytes.

  function S0(b0: Byte): Sextet { b0 / 4 }
  function S1(b0: Byte, b1: Byte): Sextet { (b0 % 4) * 16 + b1 / 16 }
  function S2(b1: Byte, b2: Byte): Sextet { (b1 % 16) * 4 + b2 / 64 }
  function S3(b2: Byte): Sextet { b2 % 64 }

  function B0(v0: Sextet, v1: Sextet): Byte { (v0 as int) * 4 + (v1 as int) / 16 }
  function B1(v1: Sextet, v2: Sextet): Byte { ((v1 as int) % 16) * 16 + (v2 as int) / 4 }
  function B2(v2: Sextet, v3: Sextet): Byte { ((v2 as int) % 4) * 64 + v3 as int }

  lemma BytesFromSextets(b0: Byte, b1: Byte, b2: Byte)
    ensures B0(S0(b0), S1(b0, b1)) == b0
    ensures B1(S1(b0, b1), S2(b1, b2)) == b1
    ensures B2(S2(b1, b2), S3(b2)) == b2
  {
  }

  lemma SextetsFromBytes(v0: Sextet, v1: Sextet, v2: Sextet, v3: Sextet)
    ensures S0(B0(v0, v1)) == v0
    ensures S1(B0(v0, v1), B1(v1, v2)) == v1
    ensures S2(B1(v1, v2), B2(v2, v3)) == v2
    ensures S3(B2(v2, v3)) == v3
  {
  }

  /** Three bytes as four characters. */
  function EncodeGroup(b0: Byte, b1: Byte, b2: Byte): string
  {
    [CharOf(S0(b0)), CharOf(S1(b0, b1)), CharOf(S2(b1, b2)), CharOf(S3(b2))]
  }

  /** `Buffer.toString('base64')`. */
  function Encode(bs: seq<Byte>): (s: string)
    ensures |s| % 4 == 0
    ensures |s| == (|bs| + 2) / 3 * 4
  {
    if |bs| >= 3 then
      assert (|bs[3..]| + 2) / 3 == (|bs| + 2) / 3 - 1;
      EncodeGroup(bs[0], bs[1], bs[2]) + Encode(bs[3..])
    else if |bs| == 2 then [CharOf(S0(bs[0])), CharOf(S1(bs[0], bs[1])), CharOf(S2(bs[1], 0)), '=']
    else if |bs| == 1 then [CharOf(S0(bs[0])), CharOf(S1(bs[0], 0)), '=', '=']
    else []
  }

  /** Four data characters as three bytes. */
  function DecodeGroup(q: string): Option<seq<Byte>>
    requires |q| == 4
  {
    match (SextetOf(q[0]), SextetOf(q[1]), SextetOf(q[2]), SextetOf(q[3]))
    case (Some(v0), Some(v1), Some(v2), Some(v3)) =>
      Some([B0(v0, v1), B1(v1, v2), B2(v2, v3)])
    case _ => None
  }

  /** The last group, which may end in one or two padding characters; the bits
      the padding leaves over must be zero. */
  function DecodeLast(q: string): Option<seq<Byte>>
    requires |q| == 4
  {
    if q[2] == '=' && q[3] == '=' then
      match (SextetOf(q[0]), SextetOf(q[1]))
      case (Some(v0), Some(v1)) => if v1 % 16 == 0 then Some([B0(v0, v1)]) else None
      case _ => None
    else if q[3] == '=' then
      match (SextetOf(q[0]), SextetOf(q[1]), SextetOf(q[2]))
      case (Some(v0), Some(v1), Some(v2)) =>
        if v2 % 4 == 0 then Some([B0(v0, v1), B1(v1, v2)]) else None
      case _ => None
    else DecodeGroup(q)
  }

  /** Strict decoding: None for a length that is not a multiple of four, a
      character outside the alphabet, misplaced padding or non-zero pad bits. */
  function Decode(s: string): Option<seq<Byte>>
  {
    if s == [] then Some([])
    else if |s| < 4 then None
    else if |s| == 4 then DecodeLast(s)
    else match DecodeGroup(s[..4])
      case None => None
      case Some(head) =>
        match Decode(s[4..])
        case None => None
        case Some(tail) => Some(head + tail)
  }

  // ---------------------------------------------------------------- round trips

  lemma GroupRoundTrip(b0: Byte, b1: Byte, b2: Byte)
    ensures DecodeGroup(EncodeGroup(b0, b1, b2)) == Some([b0, b1, b2])
  {
    SextetOfCharOf(S0(b0));
    SextetOfCharOf(S1(b0, b1));
    SextetOfCharOf(S2(b1, b2));
    SextetOfCharOf(S3(b2));
    BytesFromSextets(b0, b1, b2);
  }

  lemma PadOneRoundTrip(b0: Byte, b1: Byte)
    ensures Decode(Encode([b0, b1])) == Some([b0, b1])
  {
    var v0, v1, v2 := S0(b0), S1(b0, b1), S2(b1, 0);
    var q := Encode([b0, b1]);
    assert q == [CharOf(v0), CharOf(v1), CharOf(v2), '='];
    assert v2 == (b1 % 16) * 4;
    assert v2 % 4 == 0;
    SextetOfCharOf(v0);
    SextetOfCharOf(v1);
    SextetOfCharOf(v2);
    BytesFromSextets(b0, b1, 0);
    assert DecodeLast(q) == Some([B0(v0, v1), B1(v1, v2)]);
  }

  lemma PadTwoRoundTrip(b0: Byte)
    ensures Decode(Encode([b0])) == Some([b0])
  {
    var v0, v1 := S0(b0), S1(b0, 0);
    var q := Encode([b0]);
    assert q == [CharOf(v0), CharOf(v1), '=', '='];
    var r := b0 % 4;
    assert v1 == r * 16;
    assert v1 % 16 == 0;
    SextetOfCharOf(v0);
    SextetOfCharOf(v1);
    assert B0(v0, v1) == b0;
    assert DecodeLast(q) == Some([B0(v0, v1)]);
  }

  lemma FullGroupRoundTrip(bs: seq<Byte>)
    requires |bs| == 3
    ensures Decode(Encode(bs)) == Some(bs)
  {
    var g := EncodeGroup(bs[0], bs[1], bs[2]);
    GroupRoundTrip(bs[0], bs[1], bs[2]);
    assert bs[3..] == [];
    assert Encode(bs) == g;
    assert g[2] != '=' && g[3] != '=';
    assert DecodeLast(g) == DecodeGroup(g);
    assert bs == [bs[0], bs[1], bs[2]];
  }

  /** More than three bytes: the first group, then the encoding of the rest. */
  lemma EncodeSplits(bs: seq<Byte>)
    requires |bs| > 3
    ensures Encode(bs) == EncodeGroup(bs[0], bs[1], bs[2]) + Encode(bs[3..])
    ensures |Encode(bs[3..])| >= 4
  {
    var rest := bs[3..];
    assert rest != [];
    if |rest| >= 3 {
      assert |Encode(rest)| == |EncodeGroup(rest[0], rest[1], rest[2])| + |Encode(rest[3..])|;
    }
  }

  /** A full group followed by more text decodes group by group. */
  lemma DecodeSplits(g: string, rest: string, head: seq<Byte>, tail: seq<Byte>)
    requires |g| == 4 && |rest| >= 4
    requires DecodeGroup(g) == Some(head) && Decode(rest) == Some(tail)
    ensures Decode(g + rest) == Some(head + tail)
  {
    var s := g + rest;
    assert s[..4] == g && s[4..] == rest;
  }

  lemma LeadingGroup(bs: seq<Byte>)
    requires |bs| >= 3
    ensures [bs[0], bs[1], bs[2]] + bs[3..] == bs
  {
    assert bs[..3] == [bs[0], bs[1], bs[2]];
    assert bs[..3] + bs[3..] == bs;
  }

  /** Decoding undoes encoding for every byte string. */
  lemma {:induction false} DecodeEncode(bs: seq<Byte>)
    ensures Decode(Encode(bs)) == Some(bs)
    decreases |bs|, 1
  {
    if |bs| == 3 {
      FullGroupRoundTrip(bs);
    } else if |bs| > 3 {
      DecodeEncodeStep(bs);
    } else if |bs| == 2 {
      PadOneRoundTrip(bs[0], bs[1]);
      assert bs == [bs[0], bs[1]];
    } else if |bs| == 1 {
      PadTwoRoundTrip(bs[0]);
      assert bs == [bs[0]];
    }
  }

  /** The inductive step of `DecodeEncode`: a leading full group round-trips on
      its own and the rest decodes by induction. */
  lemma {:induction false} DecodeEncodeStep(bs: seq<Byte>)
    requires |bs| > 3
    ensures Decode(Encode(bs)) == Some(bs)
    decreases |bs|, 0
  {
    DecodeEncode(bs[3..]);
    var g := EncodeGroup(bs[0], bs[1], bs[2]);
    EncodeSplits(bs);
    GroupRoundTrip(bs[0], bs[1], bs[2]);
    LeadingGroup(bs);
    DecodeSplits(g, Encode(bs[3..]), [bs[0], bs[1], bs[2]], bs[3..]);
  }

  lemma GroupCanonical(q: string)
    requires |q| == 4 && DecodeGroup(q).Some?
    ensures var d := DecodeGroup(q).value; |d| == 3 && EncodeGroup(d[0], d[1], d[2]) == q
  {
    var v0, v1, v2, v3 := SextetOf(q[0]).value, SextetOf(q[1]).value, SextetOf(q[2]).value, SextetOf(q[3]).value;
    CharOfSextetOf(q[0]);
    CharOfSextetOf(q[1]);
    CharOfSextetOf(q[2]);
    CharOfSextetOf(q[3]);
    SextetsFromBytes(v0, v1, v2, v3);
  }

  lemma PadTwoCanonical(q: string)
    requires |q| == 4 && q[2] == '=' && q[3] == '=' && DecodeLast(q).Some?
    ensures Encode(DecodeLast(q).value) == q
  {
    var v0, v1 := SextetOf(q[0]).value, SextetOf(q[1]).value;
    CharOfSextetOf(q[0]);
    CharOfSextetOf(q[1]);
    var b := B0(v0, v1);
    assert v1 == (v1 / 16) * 16;
    assert b == (v0 as int) * 4 + (v1 as int) / 16;
    assert b / 4 == v0 && b % 4 == v1 / 16;
    assert S1(b, 0) == v1;
  }

  lemma PadOneCanonical(q: string)
    requires |q| == 4 && q[2] != '=' && q[3] == '=' && DecodeLast(q).Some?
    ensures Encode(DecodeLast(q).value) == q
  {
    var v0, v1, v2 := SextetOf(q[0]).value, SextetOf(q[1]).value, SextetOf(q[2]).value;
    CharOfSextetOf(q[0]);
    CharOfSextetOf(q[1]);
    CharOfSextetOf(q[2]);
    SextetsFromBytes(v0, v1, v2, 0);
    assert B2(v2, 0) == 0;
  }

  lemma LastCanonical(q: string)
    requires |q| == 4 && DecodeLast(q).Some?
    ensures Encode(DecodeLast(q).value) == q
  {
    if q[2] == '=' && q[3] == '=' {
      PadTwoCanonical(q);
    } else if q[3] == '=' {
      PadOneCanonical(q);
    } else {
      GroupCanonical(q);
      var d := DecodeGroup(q).value;
      assert d[3..] == [];
    }
  }

  /** The decoder is strict: whatever it accepts is exactly the encoding of what it returns. */
  lemma {:induction false} EncodeDecode(s: string)
    requires Decode(s).Some?
    ensures Encode(Decode(s).value) == s
  {
    if |s| == 4 {
      LastCanonical(s);
    } else if |s| > 4 {
      var head := DecodeGroup(s[..4]).value;
      var tail := Decode(s[4..]).value;
      GroupCanonical(s[..4]);
      EncodeDecode(s[4..]);
      var bs := head + tail;
      assert bs[..3] == head && bs[3..] == tail;
      assert |Encode(tail)| > 0;
      assert s == s[..4] + s[4..];
    }
  }
}
