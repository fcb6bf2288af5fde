/** Unpadded base64url (section 5 of RFC 4648), as Go's base64.RawURLEncoding. */
module Base64Url {
  import opened Bytes
  import opened Wrappers

  function Symbol(i: nat): (c: char)
    requires i < 64
  {
    if i < 26 then (i + 'A' as int) as char
    else if i < 52 then (i - 26 + 'a' as int) as char
    else if i < 62 then (i - 52 + '0' as int) as char
    else if i == 62 then '-'
    else '_'
  }

  /** The position of `c` in the alphabet, or -1. */
  function Index(c: char): (i: int)
    ensures -1 <= i < 64
  {
    if 'A' <= c <= 'Z' then c as int - 'A' as int
    else if 'a' <= c <= 'z' then c as int - 'a' as int + 26
    else if '0' <= c <= '9' then c as int - '0' as int + 52
    else if c == '-' then 62
    else if c == '_' then 63
    else -1
  }

  lemma IndexOfSymbol(i: nat)
    requires i < 64
    ensures Index(Symbol(i)) == i && Symbol(i) != '\r' && Symbol(i) != '\n'
  {
  }

  /** The four symbols of three bytes; a final group of one or two bytes uses the first two or three. */
  function Group(a: byte, b: byte, c: byte): (s: string)
    ensures |s| == 4
  {
    [Symbol(a / 4), Symbol(a % 4 * 16 + b / 16), Symbol(b % 16 * 4 + c / 64), Symbol(c % 64)]
  }

  function Encode(s: seq<byte>): (t: string) {
    if |s| == 0 then []
    else if |s| == 1 then Group(s[0], 0, 0)[..2]
    else if |s| == 2 then Group(s[0], s[1], 0)[..3]
    else Group(s[0], s[1], s[2]) + Encode(s[3..])
  }

  /** The three bytes of four symbols, when all are in the alphabet. */
  function Ungroup(p: char, q: char, r: char, s: char): (t: Option<seq<byte>>)
    ensures t.Some? ==> |t.value| == 3
  {
    var (i, j, k, l) := (Index(p), Index(q), Index(r), Index(s));
    if i < 0 || j < 0 || k < 0 || l < 0 then None
    else Some([i * 4 + j / 16, j % 16 * 16 + k / 4, k % 4 * 64 + l])
  }

  /** Left-over bits of a final group are ignored, as the non-strict encoding does. */
  function DecodeSymbols(s: string): (r: Option<seq<byte>>) {
    if |s| == 0 then Some([])
    else if |s| == 1 then None
    else if |s| < 4 then
      match Ungroup(s[0], s[1], if |s| == 3 then s[2] else 'A', 'A')
      case None => None
      case Some(t) => Some(t[..|s| - 1])
    else
      match (Ungroup(s[0], s[1], s[2], s[3]), DecodeSymbols(s[4..]))
      case (Some(t), Some(rest)) => Some(t + rest)
      case _ => None
  }

  /** Carriage returns and line feeds are skipped. */
  function WithoutNewlines(s: string): (t: string) {
    if |s| == 0 then []
    else (if s[0] == '\r' || s[0] == '\n' then [] else [s[0]]) + WithoutNewlines(s[1..])
  }

  function Decode(s: string): (r: Option<seq<byte>>) {
    DecodeSymbols(WithoutNewlines(s))
  }

  /** Cutting 24 bits into four sextets and putting them together again. */
  lemma Sextets(a: byte, b: byte, c: byte)
    ensures var (i, j, k, l) := (a / 4, a % 4 * 16 + b / 16, b % 16 * 4 + c / 64, c % 64);
            && i < 64 && j < 64 && k < 64 && l < 64
            && i * 4 + j / 16 == a && j % 16 * 16 + k / 4 == b && k % 4 * 64 + l == c
  {
  }

  lemma UngroupGroup(a: byte, b: byte, c: byte)
    ensures var s := Group(a, b, c); Ungroup(s[0], s[1], s[2], s[3]) == Some([a, b, c])
  {
    var (i, j, k, l) := (a / 4, a % 4 * 16 + b / 16, b % 16 * 4 + c / 64, c % 64);
    Sextets(a, b, c);
    UngroupSymbols(i, j, k, l);
  }

  lemma UngroupSymbols(i: nat, j: nat, k: nat, l: nat)
    requires i < 64 && j < 64 && k < 64 && l < 64
    ensures Ungroup(Symbol(i), Symbol(j), Symbol(k), Symbol(l)) == Some([i * 4 + j / 16, j % 16 * 16 + k / 4, k % 4 * 64 + l])
  {
    IndexOfSymbol(i);
    IndexOfSymbol(j);
    IndexOfSymbol(k);
    IndexOfSymbol(l);
  }

  lemma DecodeOne(a: byte)
    ensures DecodeSymbols(Group(a, 0, 0)[..2]) == Some([a])
  {
    UngroupGroup(a, 0, 0);
    var s := Group(a, 0, 0);
    assert s[2] == 'A' && s[3] == 'A';
    assert [a, 0, 0][..1] == [a];
  }

  lemma DecodeTwo(a: byte, b: byte)
    ensures DecodeSymbols(Group(a, b, 0)[..3]) == Some([a, b])
  {
    UngroupGroup(a, b, 0);
    var s := Group(a, b, 0);
    assert s[3] == 'A';
    assert [a, b, 0][..2] == [a, b];
  }

  lemma {:induction false} DecodeThree(a: byte, b: byte, c: byte, t: string, rest: seq<byte>)
    requires DecodeSymbols(t) == Some(rest)
    ensures DecodeSymbols(Group(a, b, c) + t) == Some([a, b, c] + rest)
  {
    UngroupGroup(a, b, c);
    var s := Group(a, b, c) + t;
    assert s[..4] == Group(a, b, c) && s[4..] == t;
  }

  lemma {:induction false} DecodeEncodedSymbols(s: seq<byte>)
    ensures DecodeSymbols(Encode(s)) == Some(s)
  {
    if |s| == 1 {
      DecodeOne(s[0]);
      assert [s[0]] == s;
    } else if |s| == 2 {
      DecodeTwo(s[0], s[1]);
      assert [s[0], s[1]] == s;
    } else if |s| > 2 {
      DecodeEncodedSymbols(s[3..]);
      DecodeThree(s[0], s[1], s[2], Encode(s[3..]), s[3..]);
      assert [s[0], s[1], s[2]] + s[3..] == s;
    }
  }

  predicate OneLine(s: string) {
    forall i :: 0 <= i < |s| ==> s[i] != '\r' && s[i] != '\n'
  }

  lemma {:induction false} EncodeOneLine(s: seq<byte>)
    ensures OneLine(Encode(s))
  {
    if s == [] {
    } else {
      var b, c := if |s| > 1 then s[1] else 0, if |s| > 2 then s[2] else 0;
      GroupOneLine(s[0], b, c);
      if |s| > 2 {
        EncodeOneLine(s[3..]);
      }
    }
  }

  lemma GroupOneLine(a: byte, b: byte, c: byte)
    ensures OneLine(Group(a, b, c))
  {
    IndexOfSymbol(a / 4);
    IndexOfSymbol(a % 4 * 16 + b / 16);
    IndexOfSymbol(b % 16 * 4 + c / 64);
    IndexOfSymbol(c % 64);
  }

  lemma {:induction false} NothingToSkip(s: string)
    requires OneLine(s)
    ensures WithoutNewlines(s) == s
  {
    if s == [] {
    } else {
      assert OneLine(s[1..]);
      NothingToSkip(s[1..]);
    }
  }

  /** Decoding undoes encoding. */
  lemma {:induction false} RoundTrip(s: seq<byte>)
    ensures Decode(Encode(s)) == Some(s)
  {
    EncodeOneLine(s);
    NothingToSkip(Encode(s));
    DecodeEncodedSymbols(s);
  }

  // ----- against the table and the value

  /** Table 2 of RFC 4648. */
  const ALPHABET := "ABCDEFGHIJKLMNOPQRSTUVWXYZ" + "abcdefghijklmnopqrstuvwxyz" + "0123456789" + "-_"

  lemma CapitalIs(i: nat)
    requires i < 26
    ensures Symbol(i) == "ABCDEFGHIJKLMNOPQRSTUVWXYZ"[i]
  {
  }

  lemma SmallIs(i: nat)
    requires i < 26
    ensures Symbol(26 + i) == "abcdefghijklmnopqrstuvwxyz"[i]
  {
  }

  lemma DigitIs(i: nat)
    requires i < 10
    ensures Symbol(52 + i) == "0123456789"[i]
  {
  }

  lemma SymbolIs(i: nat)
    requires i < 64
    ensures |ALPHABET| == 64 && Symbol(i) == ALPHABET[i]
  {
    if i < 26 {
      CapitalIs(i);
    } else if i < 52 {
      SmallIs(i - 26);
    } else if i < 62 {
      DigitIs(i - 52);
    }
  }

  /** A character is decoded exactly when it is in the table, as its position there. */
  lemma IndexIs(c: char)
    ensures Index(c) >= 0 ==> ALPHABET[Index(c)] == c
    ensures Index(c) < 0 ==> c !in ALPHABET
  {
    if Index(c) >= 0 {
      SymbolIs(Index(c));
    } else {
      forall i | 0 <= i < |ALPHABET| ensures ALPHABET[i] != c {
        SymbolIs(i);
        IndexOfSymbol(i);
      }
    }
  }

  /** Three bytes as a number of 24 bits. */
  ghost function Bits24(a: int, b: int, c: int): (n: int) {
    a * 65536 + b * 256 + c
  }

  /** The digits of base 64 of a number of 24 bits. */
  ghost predicate Digits(n: int, i: nat, j: nat, k: nat, l: nat) {
    i < 64 && j < 64 && k < 64 && l < 64 && n == i * 262144 + j * 4096 + k * 64 + l
  }

  lemma SextetDigits(a: byte, b: byte, c: byte)
    ensures Digits(Bits24(a, b, c), a / 4, a % 4 * 16 + b / 16, b % 16 * 4 + c / 64, c % 64)
  {
    DigitsOf(a / 4, a % 4, b / 16, b % 16, c / 64, c % 64, a, b, c);
  }

  lemma DigitsOf(i: int, j: int, k: int, l: int, m: int, n: int, a: int, b: int, c: int)
    requires a == 4 * i + j && b == 16 * k + l && c == 64 * m + n
    ensures Bits24(a, b, c) == i * 262144 + (j * 16 + k) * 4096 + (l * 4 + m) * 64 + n
  {
  }

  /** The symbols of `t` from position p on, as many as there are up to four. */
  ghost predicate Symbols(t: string, p: nat, i: nat, j: nat, k: nat, l: nat)
    requires i < 64 && j < 64 && k < 64 && l < 64
  {
    && (p < |t| ==> t[p] == Symbol(i)) && (p + 1 < |t| ==> t[p + 1] == Symbol(j))
    && (p + 2 < |t| ==> t[p + 2] == Symbol(k)) && (p + 3 < |t| ==> t[p + 3] == Symbol(l))
  }

  /** They are the digits of the number. */
  ghost predicate Writes(t: string, p: nat, n: int) {
    exists i: nat, j: nat, k: nat, l: nat :: Digits(n, i, j, k, l) && Symbols(t, p, i, j, k, l)
  }

  lemma GroupWrites(a: byte, b: byte, c: byte, n: nat)
    requires n <= 4
    ensures Writes(Group(a, b, c)[..n], 0, Bits24(a, b, c))
  {
    SextetDigits(a, b, c);
  }

  lemma WritesAfter(group: string, t: string, p: nat, n: int)
    requires |group| == 4 && Writes(t, p, n)
    ensures Writes(group + t, p + 4, n)
  {
    var i: nat, j: nat, k: nat, l: nat :| Digits(n, i, j, k, l) && Symbols(t, p, i, j, k, l);
    SymbolsAfter(group, t, p, i, j, k, l);
  }

  lemma SymbolsAfter(group: string, t: string, p: nat, i: nat, j: nat, k: nat, l: nat)
    requires |group| == 4 && i < 64 && j < 64 && k < 64 && l < 64 && Symbols(t, p, i, j, k, l)
    ensures Symbols(group + t, p + 4, i, j, k, l)
  {
    var u := group + t;
    assert forall q :: 0 <= q < |t| ==> u[q + 4] == t[q];
  }

  lemma WritesBefore(group: string, t: string, n: int)
    requires |group| == 4 && Writes(group, 0, n)
    ensures Writes(group + t, 0, n)
  {
    var i: nat, j: nat, k: nat, l: nat :| Digits(n, i, j, k, l) && Symbols(group, 0, i, j, k, l);
    SymbolsBefore(group, t, i, j, k, l);
  }

  lemma SymbolsBefore(group: string, t: string, i: nat, j: nat, k: nat, l: nat)
    requires |group| == 4 && i < 64 && j < 64 && k < 64 && l < 64 && Symbols(group, 0, i, j, k, l)
    ensures Symbols(group + t, 0, i, j, k, l)
  {
  }

  /** The byte at a position, zero past the end. */
  ghost function ByteAt(s: seq<byte>, i: nat): (b: int) {
    if i < |s| then s[i] else 0
  }

  lemma {:induction false} EncodedLength(s: seq<byte>)
    ensures |Encode(s)| == (4 * |s| + 2) / 3
  {
    if |s| < 3 {
    } else {
      EncodedLength(s[3..]);
    }
  }

  /** Up to three bytes take one group, of which one symbol more than bytes is kept. */
  lemma EncodedFew(s: seq<byte>)
    requires 1 <= |s| <= 3
    ensures Encode(s) == Group(s[0], ByteAt(s, 1), ByteAt(s, 2))[..|s| + 1]
  {
    if |s| == 3 {
      assert |Encode(s[3..])| == 0;
    }
  }

  ghost function GroupBits(s: seq<byte>, g: nat): (n: int)
    requires 3 * g < |s|
  {
    Bits24(s[3 * g], ByteAt(s, 3 * g + 1), ByteAt(s, 3 * g + 2))
  }

  lemma GroupBitsLater(s: seq<byte>, rest: seq<byte>, g: nat)
    requires |s| >= 3 && rest == s[3..] && g > 0 && 3 * g < |s|
    ensures GroupBits(rest, g - 1) == GroupBits(s, g)
  {
  }

  /** Three bytes at a time become four symbols, most significant bits first; at the end only those that are needed. */
  lemma {:induction false} EncodedGroup(s: seq<byte>, g: nat)
    requires 3 * g < |s|
    ensures Writes(Encode(s), 4 * g, GroupBits(s, g))
  {
    if |s| <= 3 {
      EncodedFew(s);
      GroupWrites(s[0], ByteAt(s, 1), ByteAt(s, 2), |s| + 1);
    } else if g == 0 {
      var group := Group(s[0], s[1], s[2]);
      GroupWrites(s[0], s[1], s[2], 4);
      assert group[..4] == group;
      WritesBefore(group, Encode(s[3..]), GroupBits(s, 0));
    } else {
      EncodedGroup(s[3..], g - 1);
      GroupBitsLater(s, s[3..], g);
      WritesAfter(Group(s[0], s[1], s[2]), Encode(s[3..]), 4 * g - 4, GroupBits(s, g));
    }
  }

  lemma {:induction false} SkippedConcat(a: string, b: string)
    ensures WithoutNewlines(a + b) == WithoutNewlines(a) + WithoutNewlines(b)
  {
    if |a| == 0 {
      assert a + b == b;
    } else {
      assert (a + b)[0] == a[0] && (a + b)[1..] == a[1..] + b;
      SkippedConcat(a[1..], b);
    }
  }

  /** Line breaks may stand anywhere and change nothing. */
  lemma LineBreaksIgnored(a: string, c: char, b: string)
    requires c as int == 10 || c as int == 13
    ensures Decode(a + [c] + b) == Decode(a + b)
  {
    SkippedConcat(a + [c], b);
    SkippedConcat(a, [c]);
    SkippedConcat(a, b);
    assert |[c][1..]| == 0;
    assert WithoutNewlines(a) + [] == WithoutNewlines(a);
  }
}
