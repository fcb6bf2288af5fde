/**
 * ECDSA signatures in DER (pkg/keys/canton_keys.go). Encoding and decoding are those
 * of Go's encoding/asn1 for a SEQUENCE of two INTEGERs; sections 8.1.3, 8.3, 8.9
 * and 10.1 of ITU-T X.690 give the format.
 */
module Der {
  import opened Arith
  import opened Bytes
  import opened Seqs
  import opened Wrappers

  const SEQUENCE: byte := 0x30
  const INTEGER: byte := 0x02

  /** The order of secp256k1, halved and rounded down. */
  const HALF_N: nat := 0x7FFFFFFF_FFFFFFFF_FFFFFFFF_FFFFFFFF_5D576E73_57A4501D_DFE92F46_681B20A0

  // ----- encoding

  /** Lengths the decoder accepts lie below this. */
  const MAX_LENGTH: nat := 0x8000_0000

  /** Length octets: one for lengths below 128, else a count and the minimal bytes. */
  function LengthOctets(n: nat): (s: seq<byte>)
    requires n < MAX_LENGTH
    ensures 1 <= |s| <= 5 && (n < 128 ==> |s| == 1)
  {
    LengthBytes(n);
    if n < 128 then [n] else [128 + |ToBytes(n)|] + ToBytes(n)
  }

  lemma {:induction false} LengthBytes(n: nat)
    requires n < MAX_LENGTH
    ensures |ToBytes(n)| <= 4
  {
    LengthBound(n, 4);
    assert Pow(256, 4) == 0x1_00000000;
  }

  /** The contents octets of a non-negative INTEGER: a zero octet keeps the sign bit clear. */
  function IntegerContent(n: nat): (s: seq<byte>)
    ensures 1 <= |s| <= |ToBytes(n)| + 1
  {
    var b := ToBytes(n);
    if n == 0 || b[0] >= 128 then [0] + b else b
  }

  function Tagged(tag: byte, content: seq<byte>): (s: seq<byte>)
    requires |content| < MAX_LENGTH
    ensures |content| + 2 <= |s| <= |content| + 6 && (|content| < 128 ==> |s| == |content| + 2)
  {
    [tag] + LengthOctets(|content|) + content
  }

  /** Short enough for two of them to fit one element. */
  predicate Encodable(n: nat) {
    |ToBytes(n)| <= 0x2000_0000
  }

  predicate Signature(r: nat, s: nat) {
    |ToBytes(r)| <= 32 && |ToBytes(s)| <= 32
  }

  /** The two INTEGERs of a signature. */
  function Body(r: nat, s: nat): (b: seq<byte>)
    requires Encodable(r) && Encodable(s)
    ensures |b| < MAX_LENGTH && (Signature(r, s) ==> |b| <= 70)
  {
    Tagged(INTEGER, IntegerContent(r)) + Tagged(INTEGER, IntegerContent(s))
  }

  /** The encoding half of SignHashDER. */
  function EncodeSignature(r: nat, s: nat): (der: seq<byte>)
    requires Signature(r, s)
    ensures |der| <= 72
  {
    Tagged(SEQUENCE, Body(r, s))
  }

  // ----- decoding

  /** The following length octets, most significant first; leading zeros and overlong lengths are refused. */
  function LongLength(s: seq<byte>, count: nat, acc: nat): (r: Option<(nat, seq<byte>)>)
    decreases count
  {
    if count == 0 then Some((acc, s))
    else if |s| == 0 || acc >= 0x80_0000 then None
    else
      var next := acc * 256 + s[0];
      if next == 0 then None else LongLength(s[1..], count - 1, next)
  }

  /** A length that fits the short form must use it. */
  function ParseLength(s: seq<byte>): (r: Option<(nat, seq<byte>)>) {
    if |s| == 0 then None
    else if s[0] < 128 then Some((s[0], s[1..]))
    else if s[0] == 128 then None
    else
      match LongLength(s[1..], s[0] - 128, 0)
      case None => None
      case Some((n, rest)) => if n < 128 then None else Some((n, rest))
  }

  /** One element with the given tag: its contents and what follows it. */
  function ParseElement(s: seq<byte>, tag: byte): (r: Option<(seq<byte>, seq<byte>)>) {
    if |s| == 0 || s[0] != tag then None
    else
      match ParseLength(s[1..])
      case None => None
      case Some((n, rest)) => if n > |rest| then None else Some((rest[..n], rest[n..]))
  }

  /** Not empty, and no first octet that the next one's sign bit makes redundant. */
  predicate MinimalInteger(c: seq<byte>) {
    |c| >= 1 && (|c| > 1 ==> !(c[0] == 0 && c[1] < 128) && !(c[0] == 255 && c[1] >= 128))
  }

  /** Two's complement. */
  function IntegerValue(c: seq<byte>): (n: int) {
    FromBytes(c) - if |c| > 0 && c[0] >= 128 then Pow(256, |c|) else 0
  }

  function ParseInteger(s: seq<byte>): (r: Option<(int, seq<byte>)>) {
    match ParseElement(s, INTEGER)
    case None => None
    case Some((c, rest)) => if MinimalInteger(c) then Some((IntegerValue(c), rest)) else None
  }

  /** R, S, what follows them inside the SEQUENCE, and what follows the SEQUENCE. */
  datatype Parsed = Parsed(r: int, s: int, inside: seq<byte>, rest: seq<byte>)

  /** asn1.Unmarshal into two integers. Octets after the second one inside the SEQUENCE are let through. */
  function Unmarshal(der: seq<byte>): (p: Option<Parsed>) {
    match ParseElement(der, SEQUENCE)
    case None => None
    case Some((body, rest)) =>
      match ParseInteger(body)
      case None => None
      case Some((r, body')) =>
        match ParseInteger(body')
        case None => None
        case Some((s, inside)) => Some(Parsed(r, s, inside, rest))
  }

  /** OutOfRange: R needs more than 32 bytes, so the slice of the 64-byte buffer it is copied to does not exist. */
  datatype Verdict = Raw(sig: seq<byte>) | Malformed | TrailingBytes | NonPositive | HighS | OutOfRange

  /** VerifyDER up to the call that verifies the 64 raw bytes. */
  function DecodeSignature(der: seq<byte>): (v: Verdict) {
    match Unmarshal(der)
    case None => Malformed
    case Some(p) =>
      if |p.rest| > 0 then TrailingBytes
      else if p.r <= 0 || p.s <= 0 then NonPositive
      else if p.s > HALF_N then HighS
      else if |ToBytes(p.r)| > 32 then OutOfRange
      else
        HalfNFits(p.s);
        Raw(Padded(p.r, 32) + Padded(p.s, 32))
  }

  const TWO_256: nat := 0x1_00000000_00000000_00000000_00000000_00000000_00000000_00000000_00000000

  lemma {:induction false} FitsIn32(n: nat)
    ensures |ToBytes(n)| <= 32 <==> n < TWO_256
  {
    LengthBound(n, 32);
    Pow256By32();
  }

  lemma Pow256By32()
    ensures Pow(256, 32) == TWO_256
  {
    PowAdd(256, 4, 4);
    PowAdd(256, 8, 8);
    PowAdd(256, 16, 16);
    assert Pow(256, 4) == 0x1_00000000;
  }

  lemma {:induction false} HalfNFits(s: nat)
    requires s <= HALF_N
    ensures |ToBytes(s)| <= 32
  {
    FitsIn32(s);
  }

  /** The two copies into the zeroed 64-byte buffer. */
  method FillRaw(r: nat, s: nat) returns (raw: array<byte>)
    requires Signature(r, s)
    ensures raw[..] == Padded(r, 32) + Padded(s, 32)
  {
    var rBytes, sBytes := ToBytes(r), ToBytes(s);
    raw := new byte[64](_ => 0);
    for i := 0 to |rBytes|
      invariant forall k :: 0 <= k < 64 ==>
          raw[k] == if 32 - |rBytes| <= k < 32 - |rBytes| + i then rBytes[k - (32 - |rBytes|)] else 0
    {
      raw[32 - |rBytes| + i] := rBytes[i];
    }
    for i := 0 to |sBytes|
      invariant forall k :: 0 <= k < 32 ==>
          raw[k] == if 32 - |rBytes| <= k then rBytes[k - (32 - |rBytes|)] else 0
      invariant forall k :: 32 <= k < 64 ==>
          raw[k] == if 64 - |sBytes| <= k < 64 - |sBytes| + i then sBytes[k - (64 - |sBytes|)] else 0
    {
      raw[64 - |sBytes| + i] := sBytes[i];
    }
    assert forall k :: 0 <= k < 32 ==> raw[k] == Padded(r, 32)[k];
    assert forall k :: 32 <= k < 64 ==> raw[k] == Padded(s, 32)[k - 32];
  }

  // ----- lengths and elements, both ways

  /** Reading bytes onto a number, most significant first. */
  function Accumulate(acc: nat, b: seq<byte>): (n: nat)
    ensures n >= acc && (|b| > 0 ==> n >= acc * 256)
    decreases |b|
  {
    if |b| == 0 then acc else Accumulate(acc * 256 + b[0], b[1..])
  }

  lemma {:induction false} AccumulateLast(acc: nat, b: seq<byte>, x: byte)
    ensures Accumulate(acc, b + [x]) == Accumulate(acc, b) * 256 + x
    decreases |b|
  {
    if |b| == 0 {
      assert (b + [x])[1..] == [];
    } else {
      assert (b + [x])[1..] == b[1..] + [x];
      AccumulateLast(acc * 256 + b[0], b[1..], x);
    }
  }

  lemma {:induction false} AccumulateIsFromBytes(b: seq<byte>)
    ensures Accumulate(0, b) == FromBytes(b)
  {
    if |b| == 0 {
    } else {
      var init, x := b[..|b| - 1], b[|b| - 1];
      AccumulateIsFromBytes(init);
      AccumulateLast(0, init, x);
      assert init + [x] == b;
    }
  }

  /** The long form reads `count` bytes exactly when they do not begin with a zero and their number is small enough. */
  lemma {:induction false} LongLengthIff(s: seq<byte>, count: nat, acc: nat)
    requires acc < MAX_LENGTH
    ensures LongLength(s, count, acc).Some? <==>
            count <= |s| && Accumulate(acc, s[..count]) < MAX_LENGTH && (count > 0 && acc == 0 ==> s[0] != 0)
    ensures LongLength(s, count, acc).Some? ==>
            LongLength(s, count, acc).value == (Accumulate(acc, s[..count]), s[count..])
    decreases count
  {
    if count > 0 && |s| > 0 && acc < 0x80_0000 {
      LongLengthIff(s[1..], count - 1, acc * 256 + s[0]);
      if count <= |s| {
        assert s[..count][1..] == s[1..][..count - 1];
      }
    }
  }

  /** A length is read from exactly one form, its length octets. */
  lemma ParseLengthIff(s: seq<byte>, n: nat, rest: seq<byte>)
    ensures ParseLength(s) == Some((n, rest)) <==> n < MAX_LENGTH && s == LengthOctets(n) + rest
  {
    if ParseLength(s) == Some((n, rest)) {
      ParsedLength(s, n, rest);
    }
    if n < MAX_LENGTH && s == LengthOctets(n) + rest {
      ParseEncodedLength(s, n, rest);
    }
  }

  lemma ParsedLength(s: seq<byte>, n: nat, rest: seq<byte>)
    requires ParseLength(s) == Some((n, rest))
    ensures n < MAX_LENGTH && s == LengthOctets(n) + rest
  {
    if s[0] < 128 {
      assert s == [s[0]] + s[1..];
    } else {
      var count, t := s[0] - 128, s[1..];
      ParsedLongLength(t, count, n, rest);
      ConcatAssociative([s[0]], t[..count], rest);
      assert s == [s[0]] + t;
    }
  }

  lemma ParsedLongLength(t: seq<byte>, count: nat, n: nat, rest: seq<byte>)
    requires count > 0 && LongLength(t, count, 0) == Some((n, rest))
    ensures n < MAX_LENGTH && count <= |t| && t[..count] == ToBytes(n) && t == t[..count] + rest
  {
    LongLengthIff(t, count, 0);
    AccumulateIsFromBytes(t[..count]);
    ToFromBytes(t[..count]);
  }

  lemma {:induction false} ParseEncodedLength(s: seq<byte>, n: nat, rest: seq<byte>)
    requires n < MAX_LENGTH && s == LengthOctets(n) + rest
    ensures ParseLength(s) == Some((n, rest))
  {
    if n < 128 {
      assert s[1..] == rest;
    } else {
      var b := ToBytes(n);
      LengthBytes(n);
      assert s[0] == 128 + |b| && s[1..] == b + rest;
      assert (b + rest)[..|b|] == b && (b + rest)[|b|..] == rest;
      ToBytesMinimal(n);
      FromToBytes(n);
      AccumulateIsFromBytes(b);
      LongLengthIff(b + rest, |b|, 0);
    }
  }

  /** An element is read from exactly one form, too. */
  lemma ParseElementIff(s: seq<byte>, tag: byte, c: seq<byte>, rest: seq<byte>)
    ensures ParseElement(s, tag) == Some((c, rest)) <==> |c| < MAX_LENGTH && s == Tagged(tag, c) + rest
  {
    if ParseElement(s, tag) == Some((c, rest)) {
      ParseLengthIff(s[1..], |c|, c + rest);
      assert s == [tag] + s[1..];
      var t := ParseLength(s[1..]).value.1;
      assert t == c + rest;
      ConcatAssociative([tag], LengthOctets(|c|), c + rest);
      ConcatAssociative([tag] + LengthOctets(|c|), c, rest);
    }
    if |c| < MAX_LENGTH && s == Tagged(tag, c) + rest {
      ParseTagged(tag, c, rest);
    }
  }

  lemma {:induction false} ParseTagged(tag: byte, c: seq<byte>, rest: seq<byte>)
    requires |c| < MAX_LENGTH
    ensures ParseElement(Tagged(tag, c) + rest, tag) == Some((c, rest))
  {
    var octets := LengthOctets(|c|);
    ConcatAssociative([tag] + octets, c, rest);
    ConcatAssociative([tag], octets, c + rest);
    var s := [tag] + (octets + (c + rest));
    assert s[1..] == octets + (c + rest);
    ParseEncodedLength(s[1..], |c|, c + rest);
    assert (c + rest)[..|c|] == c && (c + rest)[|c|..] == rest;
  }

  // ----- round trip

  lemma IntegerContentValue(n: nat)
    ensures MinimalInteger(IntegerContent(n)) && IntegerValue(IntegerContent(n)) == n
  {
    FromToBytes(n);
    if n == 0 {
      assert FromBytes([0]) == 0;
    } else {
      ToBytesMinimal(n);
      if ToBytes(n)[0] >= 128 {
        assert Zeros(1) + ToBytes(n) == [0] + ToBytes(n);
        LeadingZeros(1, ToBytes(n));
      }
    }
  }

  lemma {:induction false} ParseEncodedInteger(n: nat, rest: seq<byte>)
    requires Encodable(n)
    ensures ParseInteger(Tagged(INTEGER, IntegerContent(n)) + rest) == Some((n, rest))
  {
    ParseTagged(INTEGER, IntegerContent(n), rest);
    IntegerContentValue(n);
  }

  lemma BodyParses(r: nat, s: nat, extra: seq<byte>, body: seq<byte>)
    requires Encodable(r) && Encodable(s) && body == Body(r, s) + extra
    ensures ParseInteger(body).Some? && ParseInteger(body).value.0 == r
    ensures ParseInteger(ParseInteger(body).value.1) == Some((s, extra))
  {
    var first, second := Tagged(INTEGER, IntegerContent(r)), Tagged(INTEGER, IntegerContent(s));
    ParseEncodedInteger(s, extra);
    ParseEncodedInteger(r, second + extra);
    ConcatAssociative(first, second, extra);
  }

  /** What unmarshals from the two integers followed by anything, inside a SEQUENCE. */
  lemma UnmarshalWithExtra(r: nat, s: nat, extra: seq<byte>)
    requires Encodable(r) && Encodable(s) && |Body(r, s) + extra| < MAX_LENGTH
    ensures Unmarshal(Tagged(SEQUENCE, Body(r, s) + extra)) == Some(Parsed(r, s, extra, []))
  {
    var body := Body(r, s) + extra;
    ParseTagged(SEQUENCE, body, []);
    assert Tagged(SEQUENCE, body) + [] == Tagged(SEQUENCE, body);
    BodyParses(r, s, extra, body);
  }

  /** A raw signature with 0 < r and 0 < s <= N/2. */
  ghost predicate ValidRaw(raw: seq<byte>) {
    |raw| == 64 && 0 < FromBytes(raw[..32]) && 0 < FromBytes(raw[32..]) <= HALF_N
  }

  lemma RawIsPadded(raw: seq<byte>)
    requires |raw| == 64
    ensures Signature(FromBytes(raw[..32]), FromBytes(raw[32..]))
    ensures Padded(FromBytes(raw[..32]), 32) + Padded(FromBytes(raw[32..]), 32) == raw
  {
    PaddedFromBytes(raw[..32]);
    PaddedFromBytes(raw[32..]);
    assert raw[..32] + raw[32..] == raw;
  }

  /** Encoding a raw signature and decoding it consumes every byte and gives back the same 64 bytes. */
  lemma RoundTrip(raw: seq<byte>)
    requires ValidRaw(raw)
    ensures Signature(FromBytes(raw[..32]), FromBytes(raw[32..]))
    ensures var der := EncodeSignature(FromBytes(raw[..32]), FromBytes(raw[32..]));
            DecodeSignature(der) == Raw(raw) && |der| <= 72
  {
    var r, s := FromBytes(raw[..32]), FromBytes(raw[32..]);
    RawIsPadded(raw);
    UnmarshalWithExtra(r, s, []);
    assert Body(r, s) + [] == Body(r, s);
  }

  // ----- canonicity

  /** A minimal positive INTEGER is the encoding of its value. */
  lemma MinimalIsContent(c: seq<byte>)
    requires MinimalInteger(c) && IntegerValue(c) > 0
    ensures c == IntegerContent(IntegerValue(c))
  {
    if c[0] >= 128 {
      BytesBound(c);
    } else if c[0] == 0 {
      assert Zeros(1) + c[1..] == c;
      LeadingZeros(1, c[1..]);
      ToFromBytes(c[1..]);
    } else {
      ToFromBytes(c);
    }
  }

  lemma ParsedIntegerIsTagged(s: seq<byte>, n: nat, rest: seq<byte>)
    requires ParseInteger(s) == Some((n, rest)) && n > 0 && Encodable(n)
    ensures s == Tagged(INTEGER, IntegerContent(n)) + rest
  {
    var c := ParseElement(s, INTEGER).value.0;
    MinimalIsContent(c);
    ParseElementIff(s, INTEGER, c, rest);
  }

  /** Whatever unmarshals to two positive integers is their encoding, up to what follows them inside and outside. */
  lemma UnmarshalCanonical(der: seq<byte>, p: Parsed)
    requires Unmarshal(der) == Some(p) && 0 < p.r && 0 < p.s && Encodable(p.r) && Encodable(p.s)
    ensures var body := Body(p.r, p.s) + p.inside;
            |body| < MAX_LENGTH && der == Tagged(SEQUENCE, body) + p.rest
  {
    var body := ParseElement(der, SEQUENCE).value.0;
    ParseElementIff(der, SEQUENCE, body, p.rest);
    var tail := ParseInteger(body).value.1;
    ParsedIntegerIsTagged(body, p.r, tail);
    ParsedIntegerIsTagged(tail, p.s, p.inside);
    ConcatAssociative(Tagged(INTEGER, IntegerContent(p.r)), Tagged(INTEGER, IntegerContent(p.s)), p.inside);
  }

  /** The encoding of a raw signature with `extra` behind the two integers, inside the SEQUENCE. */
  ghost predicate Encodes(der: seq<byte>, raw: seq<byte>, extra: seq<byte>)
    requires |raw| == 64
  {
    var r, s := FromBytes(raw[..32]), FromBytes(raw[32..]);
    && Signature(r, s)
    && |Body(r, s) + extra| < MAX_LENGTH && der == Tagged(SEQUENCE, Body(r, s) + extra)
  }

  /**
   * What VerifyDER accepts: a DER string decodes to a raw signature if and only if that
   * has 0 < r and 0 < s <= N/2 and the string is its encoding, possibly with further
   * octets behind the two integers.
   */
  lemma DecodesIff(der: seq<byte>, raw: seq<byte>)
    ensures DecodeSignature(der) == Raw(raw) <==> ValidRaw(raw) && exists extra :: Encodes(der, raw, extra)
  {
    if DecodeSignature(der) == Raw(raw) {
      DecodedIsEncoding(der, raw);
    }
    if ValidRaw(raw) && exists extra :: Encodes(der, raw, extra) {
      var extra :| Encodes(der, raw, extra);
      EncodingDecodes(der, raw, extra);
    }
  }

  lemma EncodingDecodes(der: seq<byte>, raw: seq<byte>, extra: seq<byte>)
    requires ValidRaw(raw) && Encodes(der, raw, extra)
    ensures DecodeSignature(der) == Raw(raw)
  {
    RawIsPadded(raw);
    UnmarshalWithExtra(FromBytes(raw[..32]), FromBytes(raw[32..]), extra);
  }

  lemma DecodedIsEncoding(der: seq<byte>, raw: seq<byte>)
    requires DecodeSignature(der) == Raw(raw)
    ensures ValidRaw(raw) && Encodes(der, raw, Unmarshal(der).value.inside)
  {
    var p := Unmarshal(der).value;
    HalfNFits(p.s);
    UnmarshalCanonical(der, p);
    PaddedValue(p.r, 32);
    PaddedValue(p.s, 32);
    assert raw[..32] == Padded(p.r, 32) && raw[32..] == Padded(p.s, 32);
    var body := Body(p.r, p.s) + p.inside;
    assert Tagged(SEQUENCE, body) + [] == Tagged(SEQUENCE, body);
  }

  /** Nothing but the two integers inside the SEQUENCE. */
  ghost predicate FullyConsumed(der: seq<byte>) {
    Unmarshal(der).Some? && Unmarshal(der).value.inside == []
  }

  /** Among fully consumed strings the one SignHashDER would produce is the only one. */
  lemma CanonicalIff(der: seq<byte>, raw: seq<byte>)
    requires ValidRaw(raw)
    ensures Signature(FromBytes(raw[..32]), FromBytes(raw[32..]))
    ensures DecodeSignature(der) == Raw(raw) && FullyConsumed(der) <==>
            der == EncodeSignature(FromBytes(raw[..32]), FromBytes(raw[32..]))
  {
    var r, s := FromBytes(raw[..32]), FromBytes(raw[32..]);
    RawIsPadded(raw);
    assert Body(r, s) + [] == Body(r, s);
    if DecodeSignature(der) == Raw(raw) && FullyConsumed(der) {
      DecodedIsEncoding(der, raw);
    }
    if der == EncodeSignature(r, s) {
      RoundTrip(raw);
      UnmarshalWithExtra(r, s, []);
    }
  }

  /** The slice of the raw buffer that R is copied to does not exist exactly when R reaches 2^256. */
  lemma OutOfRangeIff(der: seq<byte>)
    requires Unmarshal(der).Some?
    ensures var p := Unmarshal(der).value;
            DecodeSignature(der).OutOfRange? <==> p.rest == [] && p.r >= TWO_256 && 0 < p.s <= HALF_N
  {
    var p := Unmarshal(der).value;
    if p.r > 0 {
      FitsIn32(p.r);
    }
  }

  /** Every such pair that can be encoded gets there; so does r = 2^256 with s = 1. */
  lemma OutOfRangeReached(r: nat, s: nat)
    requires r >= TWO_256 && Encodable(r) && 0 < s <= HALF_N
    ensures Encodable(s) && DecodeSignature(Tagged(SEQUENCE, Body(r, s))) == OutOfRange
    ensures Encodable(TWO_256)
  {
    HalfNFits(s);
    UnmarshalWithExtra(r, s, []);
    assert Body(r, s) + [] == Body(r, s);
    OutOfRangeIff(Tagged(SEQUENCE, Body(r, s)));
    LengthBound(TWO_256, 33);
    Pow256By32();
    PowAdd(256, 1, 32);
  }

  /** The raw buffer exists for exactly the otherwise acceptable signatures with R below 2^256. */
  lemma RawIffInRange(der: seq<byte>)
    requires Unmarshal(der).Some?
    ensures var p := Unmarshal(der).value;
            DecodeSignature(der).Raw? <==>
            p.rest == [] && 0 < p.r < TWO_256 && 0 < p.s <= HALF_N
  {
    var p := Unmarshal(der).value;
    if p.r > 0 {
      FitsIn32(p.r);
    }
  }

  // ----- the octets themselves

  /** The order of secp256k1, as published in section 2.4.1 of SEC 2. */
  const ORDER: nat := 0xFFFFFFFF_FFFFFFFF_FFFFFFFF_FFFFFFFE_BAAEDCE6_AF48A03B_BFD25E8C_D0364141

  lemma HalfOfOrder()
    ensures 2 * HALF_N + 1 == ORDER == 0xFFFFFFFF_FFFFFFFF_FFFFFFFF_FFFFFFFE_BAAEDCE6_AF48A03B_BFD25E8C_D0364141
  {
  }

  /** The contents of an INTEGER: the number's bytes, sign bit clear, and no octet more than that takes. */
  ghost predicate IsContent(c: seq<byte>, n: nat) {
    && FromBytes(c) == n && |c| >= 1 && c[0] < 128
    && (|c| > 1 ==> c[0] != 0 || c[1] >= 128)
  }

  lemma ContentIs(n: nat)
    ensures IsContent(IntegerContent(n), n)
  {
    IntegerContentValue(n);
  }

  lemma ContentLength(n: nat)
    requires |ToBytes(n)| <= 32
    ensures |IntegerContent(n)| <= 33
  {
  }

  lemma ShortForm(tag: byte, content: seq<byte>)
    requires |content| < 128
    ensures Tagged(tag, content) == [tag, |content|] + content
  {
    assert [tag] + [|content|] == [tag, |content|];
  }

  /** A signature's octets: SEQUENCE of the length, and for each integer the tag 2, its length and its contents. */
  lemma EncodedOctets(r: nat, s: nat) returns (rc: seq<byte>, sc: seq<byte>)
    requires Signature(r, s)
    ensures IsContent(rc, r) && IsContent(sc, s) && |rc| <= 33 && |sc| <= 33
    ensures EncodeSignature(r, s) == [0x30, |rc| + |sc| + 4] + ([0x02, |rc|] + rc + ([0x02, |sc|] + sc))
  {
    rc, sc := IntegerContent(r), IntegerContent(s);
    ContentIs(r);
    ContentIs(s);
    BodyOctets(r, s, rc, sc);
  }

  lemma BodyOctets(r: nat, s: nat, rc: seq<byte>, sc: seq<byte>)
    requires Signature(r, s) && rc == IntegerContent(r) && sc == IntegerContent(s)
    ensures |rc| <= 33 && |sc| <= 33 && |Body(r, s)| == |rc| + |sc| + 4
    ensures Body(r, s) == [0x02, |rc|] + rc + ([0x02, |sc|] + sc)
    ensures EncodeSignature(r, s) == [0x30, |rc| + |sc| + 4] + ([0x02, |rc|] + rc + ([0x02, |sc|] + sc))
  {
    ContentLength(r);
    ContentLength(s);
    ShortForm(INTEGER, rc);
    ShortForm(INTEGER, sc);
    ShortForm(SEQUENCE, Body(r, s));
  }

  /** Octets from 128 on are counted in the long form: 0x80 plus how many octets give the length. */
  lemma LongForm(n: nat)
    requires n < MAX_LENGTH
    ensures n < 128 ==> LengthOctets(n) == [n]
    ensures n >= 128 ==>
        var octets := LengthOctets(n);
        octets[0] == 0x80 + |octets| - 1 && FromBytes(octets[1..]) == n && |octets| > 1 && octets[1] != 0
  {
    if n >= 128 {
      FromToBytes(n);
      ToBytesMinimal(n);
      assert LengthOctets(n)[1..] == ToBytes(n);
    }
  }

  /** Every verdict by its condition, first come first served. */
  lemma VerdictIs(der: seq<byte>)
    ensures DecodeSignature(der).Malformed? <==> Unmarshal(der).None?
    ensures Unmarshal(der).Some? ==>
        var p := Unmarshal(der).value;
        && (DecodeSignature(der).TrailingBytes? <==> p.rest != [])
        && (DecodeSignature(der).NonPositive? <==> p.rest == [] && (p.r <= 0 || p.s <= 0))
        && (DecodeSignature(der).HighS? <==> p.rest == [] && p.r > 0 && p.s > 0 && 2 * p.s > ORDER)
  {
  }

  /** The octets of the signature (1, 1), which decode to it again. */
  lemma OneOne()
    ensures Signature(1, 1) && EncodeSignature(1, 1) == [0x30, 6, 2, 1, 1, 2, 1, 1]
    ensures DecodeSignature([0x30, 6, 2, 1, 1, 2, 1, 1]) == Raw(Padded(1, 32) + Padded(1, 32))
    ensures Padded(1, 32) == Zeros(31) + [1]
  {
    OneByte();
    var r := 1;
    BodyOctets(r, r, [1], [1]);
    assert EncodeSignature(r, r) == [0x30, 6, 2, 1, 1, 2, 1, 1];
    EncodedDecodes(r, r);
  }

  lemma EncodedDecodes(r: nat, s: nat)
    requires Signature(r, s) && r > 0 && 0 < s <= HALF_N
    ensures DecodeSignature(EncodeSignature(r, s)) == Raw(Padded(r, 32) + Padded(s, 32))
  {
    UnmarshalWithExtra(r, s, []);
    assert Body(r, s) + [] == Body(r, s);
  }

  lemma OneByte()
    ensures ToBytes(1) == [1]
  {
    assert |ToBytes(0)| == 0;
  }
}
