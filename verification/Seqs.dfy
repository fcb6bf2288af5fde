/** Facts about sequences that the solver needs spelled out. */
module Seqs {

  lemma ConcatAssociative<T>(a: seq<T>, b: seq<T>, c: seq<T>)
    ensures (a + b) + c == a + (b + c)
  {
  }

  lemma ConcatHead<T>(a: seq<T>, b: seq<T>)
    requires |a| > 0
    ensures (a + b)[0] == a[0] && (a + b)[1..] == a[1..] + b
  {
  }

  lemma ConcatInit<T>(a: seq<T>, b: seq<T>)
    requires |b| > 0
    ensures (a + b)[..|a + b| - 1] == a + b[..|b| - 1] && (a + b)[|a + b| - 1] == b[|b| - 1]
  {
  }

  /** Moving an element across the boundary between two parts of a sequence. */
  lemma MoveHead<T>(done: seq<T>, rest: seq<T>)
    requires |rest| > 0
    ensures (done + rest)[|done|] == rest[0] && rest == [rest[0]] + rest[1..]
    ensures (done + [rest[0]]) + rest[1..] == done + rest
  {
  }

  /** What follows position i of a prefix, and then what follows the prefix. */
  lemma SuffixThroughPrefix<T>(s: seq<T>, prefix: seq<T>, i: nat)
    requires prefix <= s && i <= |prefix|
    ensures prefix[i..] + s[|prefix|..] == s[i..]
  {
  }

  /** Taking the same element out of two permutations of each other leaves permutations. */
  lemma SameRest<T>(init: seq<T>, x: T, pre: seq<T>, suf: seq<T>)
    requires multiset(init + [x]) == multiset(pre + [x] + suf)
    ensures multiset(init) == multiset(pre + suf)
  {
    assert multiset(init + [x]) == multiset(init) + multiset{x};
    assert multiset(pre + [x] + suf) == multiset(pre + suf) + multiset{x};
    assert multiset(init) == multiset(init + [x]) - multiset{x};
  }

  lemma TakeNext<T>(s: seq<T>, i: nat, taken: seq<T>, next: T)
    requires i < |s| && taken == s[..i] && next == s[i]
    ensures taken + [next] == s[..i + 1]
  {
  }
}
