/** RSA public keys as JSON Web Keys (pkg/auth/jwt/jwks.go; sections 2 and 6.3.1 of RFC 7518). */
module Jwk {
  import opened Arith
  import opened Bytes
  import opened Wrappers
  import Base64Url

  const TWO_63: int := 0x8000_0000_0000_0000
  const TWO_64: int := 0x1_0000_0000_0000_0000

  datatype Jwk = Jwk(kid: string, kty: string, alg: string, use: string, n: string, e: string)

  datatype PublicKey = PublicKey(modulus: int, exponent: int)

  /** big.Int's Bytes drops the sign. */
  function Field(n: int): (s: string) {
    Base64Url.Encode(ToBytes(Abs(n)))
  }

  function Marshal(kid: string, key: PublicKey): (jwk: Jwk) {
    Jwk(kid, "RSA", "RS256", "sig", Field(key.modulus), Field(key.exponent))
  }

  /** The members of a key set entry, as sections 4 and 6.3.1 of RFC 7517 and RFC 7518 name them for RSA signing keys. */
  lemma MarshalMembers(kid: string, key: PublicKey)
    ensures var jwk := Marshal(kid, key);
            && jwk.kid == kid && jwk.kty == "RSA" && jwk.alg == "RS256" && jwk.use == "sig"
            && jwk.n == Base64Url.Encode(ToBytes(Abs(key.modulus))) && jwk.e == Base64Url.Encode(ToBytes(Abs(key.exponent)))
  {
  }

  /** big.Int's Int64 of a natural number: its low 64 bits, as a signed integer. */
  function Int64(n: nat): (r: int) {
    var low := n % TWO_64;
    if low >= TWO_63 then low - TWO_64 else low
  }

  function ParsePublicKey(n: string, e: string): (r: Option<PublicKey>) {
    match (Base64Url.Decode(n), Base64Url.Decode(e))
    case (Some(nBytes), Some(eBytes)) => Some(PublicKey(FromBytes(nBytes), Int64(FromBytes(eBytes))))
    case _ => None
  }

  lemma FieldDecodes(n: int)
    ensures Base64Url.Decode(Field(n)) == Some(ToBytes(Abs(n)))
    ensures FromBytes(ToBytes(Abs(n))) == Abs(n)
  {
    Base64Url.RoundTrip(ToBytes(Abs(n)));
    FromToBytes(Abs(n));
  }

  lemma Int64OfAbs(e: int)
    requires -TWO_63 <= e < TWO_63
    ensures Int64(Abs(e)) == e <==> e >= 0 || e == -TWO_63
  {
  }

  /** What parsing makes of a marshalled key, whatever its fields. */
  lemma ParsedMarshal(kid: string, key: PublicKey)
    ensures var jwk := Marshal(kid, key);
            ParsePublicKey(jwk.n, jwk.e) == Some(PublicKey(Abs(key.modulus), Int64(Abs(key.exponent))))
  {
    FieldDecodes(key.modulus);
    FieldDecodes(key.exponent);
  }

  /**
   * For every modulus and every 64-bit exponent, parsing the marshalled members gives
   * back the key if and only if no sign was dropped; the least 64-bit integer is its
   * own absolute value there.
   */
  lemma RoundTripIff(kid: string, key: PublicKey)
    requires -TWO_63 <= key.exponent < TWO_63
    ensures var jwk := Marshal(kid, key);
            ParsePublicKey(jwk.n, jwk.e) == Some(key) <==>
            key.modulus >= 0 && (key.exponent >= 0 || key.exponent == -TWO_63)
  {
    ParsedMarshal(kid, key);
    Int64OfAbs(key.exponent);
  }

  /** Different keys get different members. */
  lemma MarshalInjective(kid: string, a: PublicKey, b: PublicKey)
    requires a.modulus >= 0 && b.modulus >= 0 && 0 <= a.exponent < TWO_63 && 0 <= b.exponent < TWO_63
    ensures Marshal(kid, a).n == Marshal(kid, b).n && Marshal(kid, a).e == Marshal(kid, b).e ==> a == b
  {
    RoundTripIff(kid, a);
    RoundTripIff(kid, b);
  }
}
