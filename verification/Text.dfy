/** String order, case folding and trimming. */
module Text {

  /** Lexicographic order by character. */
  predicate Less(a: string, b: string) {
    |b| > 0 && (|a| == 0 || a[0] < b[0] || (a[0] == b[0] && Less(a[1..], b[1..])))
  }

  /** The strings agree before position k, and there `a` has ended or has the smaller character. */
  ghost predicate SmallerAt(a: string, b: string, k: nat) {
    k <= |a| && k < |b| && a[..k] == b[..k] && (k == |a| || a[k] < b[k])
  }

  /** The strings differ, and `a` is smaller at the first difference. */
  ghost predicate Ascends(a: string, b: string) {
    exists k :: SmallerAt(a, b, k)
  }

  /** One string is less than another exactly when it is smaller at their first difference. */
  lemma {:induction false} LessIff(a: string, b: string)
    ensures Less(a, b) <==> Ascends(a, b)
  {
    if |a| == 0 || |b| == 0 {
      assert |b| > 0 ==> SmallerAt(a, b, 0);
    } else {
      LessIff(a[1..], b[1..]);
      if a[0] < b[0] {
        assert SmallerAt(a, b, 0);
      } else if a[0] == b[0] && Less(a[1..], b[1..]) {
        var k :| SmallerAt(a[1..], b[1..], k);
        SmallerLater(a, b, k);
      }
      if k :| SmallerAt(a, b, k) {
        if k > 0 {
          SmallerEarlier(a, b, k);
        }
      }
    }
  }

  lemma SmallerLater(a: string, b: string, k: nat)
    requires |a| > 0 && |b| > 0 && a[0] == b[0] && SmallerAt(a[1..], b[1..], k)
    ensures SmallerAt(a, b, k + 1)
  {
    assert a[..k + 1] == [a[0]] + a[1..][..k] && b[..k + 1] == [b[0]] + b[1..][..k];
  }

  lemma SmallerEarlier(a: string, b: string, k: nat)
    requires k > 0 && SmallerAt(a, b, k)
    ensures a[0] == b[0] && SmallerAt(a[1..], b[1..], k - 1)
  {
    assert a[..k][0] == a[0] && b[..k][0] == b[0];
    assert a[1..][..k - 1] == a[..k][1..] && b[1..][..k - 1] == b[..k][1..];
  }

  lemma {:induction false} LessIrreflexive(a: string)
    ensures !Less(a, a)
  {
    if a == [] {
    } else {
      LessIrreflexive(a[1..]);
    }
  }

  lemma {:induction false} LessTransitive(a: string, b: string, c: string)
    requires Less(a, b) && Less(b, c)
    ensures Less(a, c)
  {
    if a != [] && a[0] == b[0] == c[0] {
      LessTransitive(a[1..], b[1..], c[1..]);
    }
  }

  lemma {:induction false} LessTotal(a: string, b: string)
    ensures Less(a, b) || a == b || Less(b, a)
  {
    if a != [] && b != [] && a[0] == b[0] {
      LessTotal(a[1..], b[1..]);
      assert a == [a[0]] + a[1..] && b == [b[0]] + b[1..];
    }
  }

  /** Not after: less or equal. */
  lemma {:induction false} AtMostThenLess(a: string, b: string, c: string)
    requires !Less(b, a) && Less(b, c)
    ensures Less(a, c)
  {
    LessTotal(a, b);
    if Less(a, b) {
      LessTransitive(a, b, c);
    }
  }

  function LowerChar(c: char): (l: char) {
    if 'A' <= c <= 'Z' then (c as int + 32) as char else c
  }

  function Lower(s: string): (l: string)
    ensures |l| == |s|
  {
    if |s| == 0 then [] else [LowerChar(s[0])] + Lower(s[1..])
  }

  lemma {:induction false} LowerAt(s: string, i: nat)
    requires i < |s|
    ensures Lower(s)[i] == LowerChar(s[i])
  {
    if i == 0 {
    } else {
      LowerAt(s[1..], i - 1);
    }
  }

  function Upper(s: string): (u: string) {
    if |s| == 0 then []
    else [if 'a' <= s[0] <= 'z' then (s[0] as int - 32) as char else s[0]] + Upper(s[1..])
  }

  predicate IsSpace(c: char) {
    c == ' ' || '\t' <= c <= '\r' || c as int == 0x85 || c as int == 0xA0
  }

  function TrimLeft(s: string): (t: string) {
    if |s| > 0 && IsSpace(s[0]) then TrimLeft(s[1..]) else s
  }

  function TrimRight(s: string): (t: string) {
    if |s| > 0 && IsSpace(s[|s| - 1]) then TrimRight(s[..|s| - 1]) else s
  }

  function TrimSpace(s: string): (t: string) {
    TrimRight(TrimLeft(s))
  }

  lemma NothingToTrim(s: string)
    requires |s| > 0 && !IsSpace(s[0]) && !IsSpace(s[|s| - 1])
    ensures TrimSpace(s) == s
  {
    assert TrimLeft(s) == s;
  }

  /** The Latin-1 characters strings.TrimSpace cuts off: tab to carriage return, space, next line and no-break space. */
  predicate White(c: char) {
    c as int in {9, 10, 11, 12, 13, 32, 0x85, 0xA0}
  }

  ghost predicate AllWhite(s: string) {
    forall i :: 0 <= i < |s| ==> White(s[i])
  }

  ghost predicate Bare(s: string) {
    |s| > 0 ==> !White(s[0]) && !White(s[|s| - 1])
  }

  /** `core` with white space around it. */
  ghost predicate Around(text: string, pre: string, core: string, suf: string) {
    AllWhite(pre) && AllWhite(suf) && text == pre + core + suf
  }

  lemma {:induction false} TrimLeftIs(pre: string, t: string)
    requires AllWhite(pre) && (|t| > 0 ==> !White(t[0]))
    ensures TrimLeft(pre + t) == t
  {
    var s := pre + t;
    if |pre| == 0 {
      assert s == t;
    } else {
      assert s[0] == pre[0] && s[1..] == pre[1..] + t;
      TrimLeftIs(pre[1..], t);
    }
  }

  lemma {:induction false} TrimRightIs(t: string, suf: string)
    requires AllWhite(suf) && (|t| > 0 ==> !White(t[|t| - 1]))
    ensures TrimRight(t + suf) == t
    decreases |suf|
  {
    var s := t + suf;
    if |suf| == 0 {
      assert s == t;
    } else {
      assert s[|s| - 1] == suf[|suf| - 1] && s[..|s| - 1] == t + suf[..|suf| - 1];
      TrimRightIs(t, suf[..|suf| - 1]);
    }
  }

  /** Trimming cuts off exactly the white space around a string. */
  lemma TrimSpaceIs(pre: string, t: string, suf: string)
    requires AllWhite(pre) && Bare(t) && AllWhite(suf)
    ensures TrimSpace(pre + t + suf) == t
  {
    if |t| == 0 {
      var s := pre + suf;
      assert pre + t + suf == s && s + [] == s;
      TrimLeftIs(s, []);
    } else {
      assert pre + t + suf == pre + (t + suf) && (t + suf)[0] == t[0];
      TrimLeftIs(pre, t + suf);
      TrimRightIs(t, suf);
    }
  }

  /** `u` is `s` with its letters a to z replaced by A to Z. */
  ghost predicate IsCapitalised(s: string, u: string) {
    |u| == |s| && forall i :: 0 <= i < |s| ==>
      if 'a' <= s[i] <= 'z' then u[i] as int - 'A' as int == s[i] as int - 'a' as int else u[i] == s[i]
  }

  lemma {:induction false} UpperIs(s: string)
    ensures IsCapitalised(s, Upper(s))
  {
    if |s| == 0 {
    } else {
      UpperIs(s[1..]);
      assert forall i :: 0 < i < |s| ==> s[i] == s[1..][i - 1] && Upper(s)[i] == Upper(s[1..])[i - 1];
    }
  }

  lemma CapitalisedOnce(t: string, u: string, v: string)
    requires IsCapitalised(t, u) && IsCapitalised(t, v)
    ensures u == v
  {
    forall i | 0 <= i < |t| ensures u[i] == v[i] {
      if 'a' <= t[i] <= 'z' {
        assert u[i] as int == v[i] as int;
      }
    }
  }

  /** Nothing is left after trimming exactly when there was nothing but white space. */
  lemma BlankIff(s: string)
    ensures TrimSpace(s) == "" <==> AllWhite(s)
  {
    if AllWhite(s) {
      assert s + [] + [] == s;
      TrimSpaceIs(s, [], []);
    } else {
      var i :| 0 <= i < |s| && !White(s[i]);
      LeftKeeps(s, i);
    }
  }

  lemma {:induction false} LeftKeeps(s: string, i: nat)
    requires i < |s| && !White(s[i])
    ensures TrimRight(TrimLeft(s)) != ""
  {
    if IsSpace(s[0]) {
      LeftKeeps(s[1..], i - 1);
    } else {
      RightKeeps(s, 0);
    }
  }

  lemma {:induction false} RightKeeps(s: string, i: nat)
    requires i < |s| && !White(s[i])
    ensures TrimRight(s) != ""
    decreases |s|
  {
    if IsSpace(s[|s| - 1]) {
      RightKeeps(s[..|s| - 1], i);
    }
  }
}
