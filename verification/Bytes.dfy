/** Big-endian bytes of natural numbers, as math/big's Bytes and SetBytes. */
module Bytes {
  import opened Arith

  type byte = b: int | 0 <= b < 256

  function FromBytes(s: seq<byte>): (n: nat) {
    if |s| == 0 then 0 else FromBytes(s[..|s| - 1]) * 256 + s[|s| - 1]
  }

  /** The shortest big-endian form: empty for zero, no leading zero otherwise. */
  function ToBytes(n: nat): (s: seq<byte>)
    ensures s == [] <==> n == 0
  {
    if n == 0 then [] else ToBytes(n / 256) + [n % 256]
  }

  lemma {:induction false} FromToBytes(n: nat)
    ensures FromBytes(ToBytes(n)) == n
  {
    if n == 0 {
    } else {
      FromToBytes(n / 256);
      var s := ToBytes(n);
      assert s[..|s| - 1] == ToBytes(n / 256);
    }
  }

  /** Bytes are digits of base 256, most significant first: each counts 256 times as much as the next. */
  lemma {:induction false} FromBytesConcat(a: seq<byte>, b: seq<byte>)
    ensures FromBytes(a + b) == FromBytes(a) * Pow(256, |b|) + FromBytes(b)
    decreases |b|
  {
    if |b| == 0 {
      assert a + b == a;
    } else {
      var init := b[..|b| - 1];
      FromBytesConcat(a, init);
      assert (a + b)[..|a + b| - 1] == a + init;
      MulAssociative(FromBytes(a), Pow(256, |init|), 256);
    }
  }

  lemma FromOneByte(b: byte)
    ensures FromBytes([b]) == b
  {
    assert |[b][..0]| == 0;
  }

  lemma {:induction false} ToBytesMinimal(n: nat)
    requires n > 0
    ensures ToBytes(n)[0] != 0
  {
    if n < 256 {
    } else {
      ToBytesMinimal(n / 256);
    }
  }

  lemma ToBytesLast(n: nat, b: byte)
    requires n > 0 || b > 0
    ensures ToBytes(n * 256 + b) == ToBytes(n) + [b]
  {
    QuotientFromRemainder(n * 256 + b, n, 256, b);
  }

  /** A form without a leading zero is the shortest form of its number. */
  lemma {:induction false} ToFromBytes(s: seq<byte>)
    requires s == [] || s[0] != 0
    ensures ToBytes(FromBytes(s)) == s
    ensures s != [] ==> FromBytes(s) > 0
  {
    if s == [] {
    } else {
      var init := s[..|s| - 1];
      ToFromBytes(init);
      ToBytesLast(FromBytes(init), s[|s| - 1]);
    }
  }

  function Zeros(k: nat): (s: seq<byte>)
    ensures |s| == k && forall i :: 0 <= i < k ==> s[i] == 0
  {
    seq(k, _ => 0)
  }

  lemma {:induction false} LeadingZeros(k: nat, s: seq<byte>)
    ensures FromBytes(Zeros(k) + s) == FromBytes(s)
    decreases k + |s|
  {
    var t := Zeros(k) + s;
    if s != [] {
      LeadingZeros(k, s[..|s| - 1]);
      assert t[..|t| - 1] == Zeros(k) + s[..|s| - 1];
    } else if k > 0 {
      LeadingZeros(k - 1, []);
      assert t[..|t| - 1] == Zeros(k - 1) + [];
      assert t[|t| - 1] == 0;
    }
  }

  /** k bytes hold exactly the numbers below 256 to the k. */
  lemma {:induction false} BytesBound(s: seq<byte>)
    ensures FromBytes(s) < Pow(256, |s|)
  {
    if s == [] {
    } else {
      BytesBound(s[..|s| - 1]);
    }
  }

  lemma {:induction false} LengthBound(n: nat, k: nat)
    ensures |ToBytes(n)| <= k <==> n < Pow(256, k)
    decreases k
  {
    if n > 0 && k > 0 {
      LengthBound(n / 256, k - 1);
      DivMod(n, 256);
    }
  }

  /** n left-padded with zeros to k bytes. */
  function Padded(n: nat, k: nat): (s: seq<byte>)
    requires |ToBytes(n)| <= k
    ensures |s| == k
  {
    Zeros(k - |ToBytes(n)|) + ToBytes(n)
  }

  lemma {:induction false} PaddedValue(n: nat, k: nat)
    requires |ToBytes(n)| <= k
    ensures FromBytes(Padded(n, k)) == n
  {
    LeadingZeros(k - |ToBytes(n)|, ToBytes(n));
    FromToBytes(n);
  }

  /** Reading k bytes and padding the number back to k bytes gives the same bytes. */
  lemma {:induction false} PaddedFromBytes(s: seq<byte>)
    ensures |ToBytes(FromBytes(s))| <= |s| && Padded(FromBytes(s), |s|) == s
  {
    if s != [] && s[0] == 0 {
      var rest := s[1..];
      assert s == Zeros(1) + rest;
      LeadingZeros(1, rest);
      PaddedFromBytes(rest);
      var b := ToBytes(FromBytes(rest));
      assert Padded(FromBytes(s), |s|) == Zeros(1) + Padded(FromBytes(rest), |rest|);
    } else {
      ToFromBytes(s);
      assert Zeros(0) + s == s;
    }
  }
}
