/** Checksummed renderings of EVM addresses, as common.Address's Hex. */
module EvmAddress {
  import opened Text

  type Nibble = n: int | 0 <= n < 16
  type Address = a: seq<Nibble> | |a| == 40 witness seq(40, _ => 0)

  /** Which letters the checksum of an address turns to upper case. */
  type Casing = (Address, nat) -> bool

  function HexChar(n: Nibble, upper: bool): (c: char) {
    if n < 10 then (n + '0' as int) as char
    else if upper then (n - 10 + 'A' as int) as char
    else (n - 10 + 'a' as int) as char
  }

  /** common.Address's checksummed Hex. */
  function Hex(casing: Casing, a: Address): (s: string)
    ensures |s| == 42 && s[0] == '0' && forall i :: 0 <= i < 40 ==> s[i + 2] == HexChar(a[i], casing(a, i))
  {
    ['0', 'x'] + seq(40, i requires 0 <= i < 40 => HexChar(a[i], casing(a, i)))
  }

  lemma HexCharFolds(n: Nibble, m: Nibble, up: bool, vp: bool)
    ensures LowerChar(HexChar(n, up)) == LowerChar(HexChar(m, vp)) ==> n == m
  {
  }

  /** Without regard to case, different addresses still have different renderings. */
  lemma HexFolds(casing: Casing, a: Address, b: Address)
    requires Lower(Hex(casing, a)) == Lower(Hex(casing, b))
    ensures a == b
  {
    forall i | 0 <= i < 40 ensures a[i] == b[i] {
      LowerAt(Hex(casing, a), i + 2);
      LowerAt(Hex(casing, b), i + 2);
      HexCharFolds(a[i], b[i], casing(a, i), casing(b, i));
    }
  }

  /** Every string in the set renders some address. */
  ghost predicate Renderings(casing: Casing, keys: set<string>) {
    forall k :: k in keys ==> exists a: Address :: Hex(casing, a) == k
  }

  /** No two strings agree up to case, and none is empty: what makes them usable as cursors. */
  ghost predicate CursorSafe(keys: set<string>) {
    "" !in keys && forall k, m :: k in keys && m in keys && Lower(k) == Lower(m) ==> k == m
  }

  lemma RenderingsCursorSafe(casing: Casing, keys: set<string>)
    requires Renderings(casing, keys)
    ensures CursorSafe(keys)
  {
    forall k, m | k in keys && m in keys && Lower(k) == Lower(m) ensures k == m {
      var a: Address :| Hex(casing, a) == k;
      var b: Address :| Hex(casing, b) == m;
      HexFolds(casing, a, b);
    }
    forall k | k in keys ensures k != "" {
      var a: Address :| Hex(casing, a) == k;
    }
  }

  /** A rendering is "0x" and the forty digits, each in either case; so any two differ in case only. */
  lemma HexIs(casing: Casing, a: Address, i: nat)
    requires i < 40
    ensures var s := Hex(casing, a);
            |s| == 42 && s[0] == '0' && s[1] == 'x' && s[2 + i] in {"0123456789abcdef"[a[i]], "0123456789ABCDEF"[a[i]]}
  {
  }

  lemma SameRendering(a: Address, one: Casing, other: Casing)
    ensures Lower(Hex(one, a)) == Lower(Hex(other, a))
  {
    var s, t := Hex(one, a), Hex(other, a);
    forall i | 0 <= i < 42 ensures Lower(s)[i] == Lower(t)[i] {
      LowerAt(s, i);
      LowerAt(t, i);
      if i >= 2 {
        HexCharCase(a[i - 2], one(a, i - 2), other(a, i - 2));
      }
    }
  }

  lemma HexCharCase(n: Nibble, up: bool, vp: bool)
    ensures LowerChar(HexChar(n, up)) == LowerChar(HexChar(n, vp))
  {
  }
}
