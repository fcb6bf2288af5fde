/**
 * The custodial accept worker (pkg/custodial/accept_worker.go): it pages through
 * the pending offers by page number while its own accepts shrink the list.
 */
module AcceptWorker {
  import opened Arith
  import opened Seqs
  import opened Wrappers

  const PAGE_LIMIT := 200

  datatype Offer = Offer(contractId: string, toParty: string)

  /** What the indexer returns for 1-based `page`: the rows from (page - 1) * limit on, at most limit of them. */
  function Page(list: seq<Offer>, page: nat): (items: seq<Offer>)
    requires page >= 1
  {
    list[Min((page - 1) * PAGE_LIMIT, |list|)..Min(page * PAGE_LIMIT, |list|)]
  }

  /** A page holds 200 offers unless the list ends on it, and page n begins after the first 200 * (n - 1). */
  lemma PageHolds(list: seq<Offer>, page: nat, i: nat)
    requires page >= 1
    ensures |Page(list, page)| <= 200
    ensures i < |Page(list, page)| <==> i < 200 && 200 * (page - 1) + i < |list|
    ensures i < |Page(list, page)| ==> Page(list, page)[i] == list[200 * (page - 1) + i]
  {
  }

  /** The offers whose receiver is custodial. */
  function Custodial(parties: set<string>, offers: seq<Offer>): (r: seq<Offer>) {
    if |offers| == 0 then []
    else (if offers[0].toParty in parties then [offers[0]] else []) + Custodial(parties, offers[1..])
  }

  /** The others. */
  function Others(parties: set<string>, offers: seq<Offer>): (r: seq<Offer>) {
    if |offers| == 0 then []
    else (if offers[0].toParty in parties then [] else [offers[0]]) + Others(parties, offers[1..])
  }

  lemma {:induction false} CustodialConcat(parties: set<string>, a: seq<Offer>, b: seq<Offer>)
    ensures Custodial(parties, a + b) == Custodial(parties, a) + Custodial(parties, b)
  {
    if |a| == 0 {
      assert a + b == b;
    } else {
      CustodialConcat(parties, a[1..], b);
      var first := if a[0].toParty in parties then [a[0]] else [];
      ConcatHead(a, b);
      ConcatAssociative(first, Custodial(parties, a[1..]), Custodial(parties, b));
    }
  }

  lemma {:induction false} OthersConcat(parties: set<string>, a: seq<Offer>, b: seq<Offer>)
    ensures Others(parties, a + b) == Others(parties, a) + Others(parties, b)
  {
    if |a| == 0 {
      assert a + b == b;
    } else {
      OthersConcat(parties, a[1..], b);
      var first := if a[0].toParty in parties then [] else [a[0]];
      ConcatHead(a, b);
      ConcatAssociative(first, Others(parties, a[1..]), Others(parties, b));
    }
  }

  lemma {:induction false} CustodialOfParts(parties: set<string>, a: seq<Offer>)
    ensures Custodial(parties, Others(parties, a)) == []
    ensures Others(parties, Others(parties, a)) == Others(parties, a)
    ensures |Custodial(parties, a)| + |Others(parties, a)| == |a|
  {
    if |a| == 0 {
    } else {
      CustodialOfParts(parties, a[1..]);
      var first := if a[0].toParty in parties then [] else [a[0]];
      CustodialConcat(parties, first, Others(parties, a[1..]));
      OthersConcat(parties, first, Others(parties, a[1..]));
    }
  }

  /** A custodial offer is one of the offers, addressed to a custodial party. */
  lemma {:induction false} CustodialMembers(parties: set<string>, offers: seq<Offer>, o: Offer)
    ensures o in Custodial(parties, offers) <==> o in offers && o.toParty in parties
  {
    if |offers| == 0 {
    } else {
      CustodialMembers(parties, offers[1..], o);
    }
  }

  /** No offer occurs twice. */
  ghost predicate Distinct(list: seq<Offer>) {
    forall o :: multiset(list)[o] <= 1
  }

  lemma DistinctPositions(list: seq<Offer>, i: nat, j: nat)
    requires Distinct(list) && i < j < |list|
    ensures list[i] != list[j]
  {
    var pre, o, suf := list[..j], list[j], list[j + 1..];
    assert list == pre + [o] + suf;
    assert multiset(list)[o] == multiset(pre)[o] + 1 + multiset(suf)[o];
    assert pre[i] in pre;
  }

  lemma DistinctPart(list: seq<Offer>, part: seq<Offer>)
    requires Distinct(list) && multiset(part) <= multiset(list)
    ensures Distinct(part)
  {
  }

  lemma CustodialFirst(parties: set<string>, offers: seq<Offer>)
    requires |offers| > 0
    ensures Custodial(parties, offers)
            == if offers[0].toParty in parties then [offers[0]] + Custodial(parties, offers[1..])
               else Custodial(parties, offers[1..])
    ensures offers == [offers[0]] + offers[1..]
  {
  }

  lemma PartGrows(part: seq<Offer>, all: seq<Offer>, o: Offer)
    requires multiset(part) <= multiset(all)
    ensures multiset([o] + part) <= multiset([o] + all) && multiset(part) <= multiset([o] + all)
  {
  }

  lemma {:induction false} CustodialIsPart(parties: set<string>, offers: seq<Offer>)
    ensures multiset(Custodial(parties, offers)) <= multiset(offers)
  {
    if |offers| == 0 {
    } else {
      CustodialIsPart(parties, offers[1..]);
      CustodialFirst(parties, offers);
      PartGrows(Custodial(parties, offers[1..]), offers[1..], offers[0]);
    }
  }

  lemma PageIsPart(list: seq<Offer>, page: nat)
    requires page >= 1
    ensures multiset(Page(list, page)) <= multiset(list)
  {
    var lo, hi := Min((page - 1) * PAGE_LIMIT, |list|), Min(page * PAGE_LIMIT, |list|);
    assert list == list[..lo] + list[lo..hi] + list[hi..];
  }

  // ----- what a cycle attempts, given the list each fetch saw

  /** `seen[k]` is the pending list when page k + 1 is fetched. */
  function Attempts(parties: set<string>, seen: seq<seq<Offer>>): (r: seq<Offer>) {
    if |seen| == 0 then []
    else
      var n := |seen|;
      Attempts(parties, seen[..n - 1]) + Custodial(parties, Page(seen[n - 1], n))
  }

  /** The paging loop stops at the first page that reaches the total reported with it. */
  ghost predicate Ended(seen: seq<seq<Offer>>) {
    && seen != []
    && |seen| * PAGE_LIMIT >= |seen[|seen| - 1]|
    && StillPaging(seen[..|seen| - 1])
  }

  ghost predicate StillPaging(seen: seq<seq<Offer>>) {
    forall k :: 0 <= k < |seen| ==> (k + 1) * PAGE_LIMIT < |seen[k]|
  }

  ghost predicate AtOrAfter(list: seq<Offer>, i: nat, o: Offer) {
    exists j :: i <= j < |list| && list[j] == o
  }

  /** Nothing arrives, and offers only ever move toward the front. */
  ghost predicate Shrinks(before: seq<Offer>, after: seq<Offer>) {
    forall i :: 0 <= i < |after| ==> AtOrAfter(before, i, after[i])
  }

  lemma ShrinksTransitive(a: seq<Offer>, b: seq<Offer>, c: seq<Offer>)
    requires Shrinks(a, b) && Shrinks(b, c)
    ensures Shrinks(a, c)
  {
    forall i | 0 <= i < |c| ensures AtOrAfter(a, i, c[i]) {
      assert AtOrAfter(b, i, c[i]);
      var k :| i <= k < |b| && b[k] == c[i];
      assert AtOrAfter(a, k, b[k]);
    }
  }

  ghost predicate ShrinkingRun(seen: seq<seq<Offer>>) {
    && (forall k :: 0 <= k < |seen| ==> Distinct(seen[k]))
    && (forall k :: 1 <= k < |seen| ==> Shrinks(seen[k - 1], seen[k]))
  }

  lemma {:induction false} ShrinkingRunShrinks(seen: seq<seq<Offer>>, i: nat, j: nat)
    requires ShrinkingRun(seen) && i <= j < |seen|
    ensures Shrinks(seen[i], seen[j])
    decreases j - i
  {
    if i == j {
      forall k | 0 <= k < |seen[i]| ensures AtOrAfter(seen[i], k, seen[i][k]) {
      }
    } else {
      ShrinkingRunShrinks(seen, i, j - 1);
      ShrinksTransitive(seen[i], seen[j - 1], seen[j]);
    }
  }

  /** An offer on page i + 1 of an earlier fetch is on no later page of a later fetch. */
  lemma PagesDisjoint(seen: seq<seq<Offer>>, i: nat, j: nat, p: nat, q: nat)
    requires ShrinkingRun(seen) && i < j < |seen|
    requires p < |Page(seen[i], i + 1)| && q < |Page(seen[j], j + 1)|
    ensures Page(seen[i], i + 1)[p] != Page(seen[j], j + 1)[q]
  {
    var o := Page(seen[j], j + 1)[q];
    var p', q' := p + i * PAGE_LIMIT, q + j * PAGE_LIMIT;
    assert seen[j][q'] == o;
    ShrinkingRunShrinks(seen, i, j);
    assert AtOrAfter(seen[i], q', o);
    var k :| q' <= k < |seen[i]| && seen[i][k] == o;
    assert Distinct(seen[i]) && p' < q' <= k;
    DistinctPositions(seen[i], p', k);
    assert Page(seen[i], i + 1)[p] == seen[i][p'];
  }

  /** Some fetch found `o` on its page. */
  ghost predicate Fetched(seen: seq<seq<Offer>>, o: Offer) {
    exists k :: 0 <= k < |seen| && o in Page(seen[k], k + 1)
  }

  lemma FetchedLast(seen: seq<seq<Offer>>, last: seq<Offer>, o: Offer)
    ensures Fetched(seen + [last], o) <==> Fetched(seen, o) || o in Page(last, |seen| + 1)
  {
    var all := seen + [last];
    if Fetched(seen, o) {
      var k :| 0 <= k < |seen| && o in Page(seen[k], k + 1);
      assert all[k] == seen[k];
    }
    if Fetched(all, o) {
      var k :| 0 <= k < |all| && o in Page(all[k], k + 1);
      if k < |seen| { assert all[k] == seen[k]; }
    }
    assert all[|seen|] == last;
  }

  lemma {:induction false} AttemptMembers(parties: set<string>, seen: seq<seq<Offer>>, o: Offer)
    ensures o in Attempts(parties, seen) <==> o.toParty in parties && Fetched(seen, o)
  {
    if |seen| == 0 {
    } else {
      var n := |seen|;
      var before, last := seen[..n - 1], seen[n - 1];
      assert seen == before + [last];
      AttemptMembers(parties, before, o);
      CustodialMembers(parties, Page(last, n), o);
      FetchedLast(before, last, o);
    }
  }

  /** A non-custodial receiver is never attempted. */
  lemma {:induction false} OnlyCustodialAttempted(parties: set<string>, seen: seq<seq<Offer>>, o: Offer)
    requires o in Attempts(parties, seen)
    ensures o.toParty in parties
  {
    AttemptMembers(parties, seen, o);
  }

  lemma DistinctConcat(a: seq<Offer>, b: seq<Offer>)
    requires Distinct(a) && Distinct(b) && forall o :: o in a ==> o !in b
    ensures Distinct(a + b)
  {
    assert forall o :: o in a <==> o in multiset(a);
    assert forall o :: o in b <==> o in multiset(b);
  }

  /** On a list that only shrinks, no offer is attempted twice in a cycle. */
  lemma {:induction false} NoDoubleAttempt(parties: set<string>, seen: seq<seq<Offer>>)
    requires ShrinkingRun(seen)
    ensures Distinct(Attempts(parties, seen))
  {
    if |seen| == 0 {
    } else {
      var n := |seen|;
      var before, page := seen[..n - 1], Page(seen[n - 1], n);
      NoDoubleAttempt(parties, before);
      assert Distinct(seen[n - 1]);
      PageIsPart(seen[n - 1], n);
      CustodialIsPart(parties, page);
      DistinctPart(seen[n - 1], Custodial(parties, page));
      forall o | o in Attempts(parties, before) ensures o !in Custodial(parties, page) {
        AttemptMembers(parties, before, o);
        NotFetchedAgain(seen, o);
        CustodialMembers(parties, page, o);
      }
      DistinctConcat(Attempts(parties, before), Custodial(parties, page));
    }
  }

  lemma NotFetchedAgain(seen: seq<seq<Offer>>, o: Offer)
    requires ShrinkingRun(seen) && seen != [] && Fetched(seen[..|seen| - 1], o)
    ensures o !in Page(seen[|seen| - 1], |seen|)
  {
    var n := |seen|;
    var k :| 0 <= k < n - 1 && o in Page(seen[..n - 1][k], k + 1);
    var p :| 0 <= p < |Page(seen[k], k + 1)| && Page(seen[k], k + 1)[p] == o;
    var last := Page(seen[n - 1], n);
    forall q | 0 <= q < |last| ensures last[q] != o {
      PagesDisjoint(seen, k, n - 1, p, q);
    }
  }

  lemma {:induction false} AttemptsOnFrozenPrefix(parties: set<string>, list: seq<Offer>, n: nat)
    ensures Attempts(parties, seq(n, _ => list)) == Custodial(parties, list[..Min(n * PAGE_LIMIT, |list|)])
  {
    var seen := seq(n, _ => list);
    if n == 0 {
    } else {
      assert seen[..n - 1] == seq(n - 1, _ => list);
      AttemptsOnFrozenPrefix(parties, list, n - 1);
      var lo, hi := Min((n - 1) * PAGE_LIMIT, |list|), Min(n * PAGE_LIMIT, |list|);
      assert list[..lo] + list[lo..hi] == list[..hi];
      CustodialConcat(parties, list[..lo], list[lo..hi]);
    }
  }

  /** On an unchanging list, a cycle attempts every custodial offer exactly once, in order. */
  lemma {:induction false} FrozenCoverage(parties: set<string>, list: seq<Offer>, seen: seq<seq<Offer>>)
    requires Ended(seen) && forall k :: 0 <= k < |seen| ==> seen[k] == list
    ensures Attempts(parties, seen) == Custodial(parties, list)
    ensures |seen| == if |list| == 0 then 1 else (|list| + 199) / 200
  {
    var n := |seen|;
    assert seen == seq(n, _ => list);
    AttemptsOnFrozenPrefix(parties, list, n);
    assert list[..Min(n * PAGE_LIMIT, |list|)] == list;
    if n > 1 {
      assert seen[..n - 1][n - 2] == list;
    }
  }

  // ----- a live list: each accept removes its offer before the next fetch

  /** The list after every custodial offer of `page` has been accepted. */
  function AfterPage(parties: set<string>, list: seq<Offer>, page: nat): (r: seq<Offer>)
    requires page >= 1
  {
    list[..Min((page - 1) * PAGE_LIMIT, |list|)]
    + Others(parties, Page(list, page))
    + list[Min(page * PAGE_LIMIT, |list|)..]
  }

  lemma {:induction false} AfterPageLength(parties: set<string>, list: seq<Offer>, page: nat)
    requires page >= 1
    ensures |AfterPage(parties, list, page)| == |list| - |Custodial(parties, Page(list, page))|
  {
    CustodialOfParts(parties, Page(list, page));
  }

  /** A cycle from `page` on in which no call fails: the offers left, and those accepted in order. */
  function LiveCycle(parties: set<string>, list: seq<Offer>, page: nat): (r: (seq<Offer>, seq<Offer>))
    requires page >= 1
    decreases |list| - (page - 1) * PAGE_LIMIT
  {
    var rest := AfterPage(parties, list, page);
    var accepted := Custodial(parties, Page(list, page));
    if page * PAGE_LIMIT >= |list| then (rest, accepted)
    else
      AfterPageLength(parties, list, page);
      var (left, more) := LiveCycle(parties, rest, page + 1);
      (left, accepted + more)
  }

  /** Each custodial offer of `list` is accepted or left, and the others are left in their order. */
  ghost predicate Conserves(parties: set<string>, list: seq<Offer>, left: seq<Offer>, accepted: seq<Offer>) {
    && Others(parties, left) == Others(parties, list)
    && multiset(Custodial(parties, left)) + multiset(accepted) == multiset(Custodial(parties, list))
  }

  lemma ConservesThen(
      parties: set<string>, list: seq<Offer>, rest: seq<Offer>, left: seq<Offer>, accepted: seq<Offer>, more: seq<Offer>)
    requires Conserves(parties, list, rest, accepted) && Conserves(parties, rest, left, more)
    ensures Conserves(parties, list, left, accepted + more)
  {
  }

  lemma ConservesCount(parties: set<string>, list: seq<Offer>, left: seq<Offer>, accepted: seq<Offer>)
    requires Conserves(parties, list, left, accepted)
    ensures |Custodial(parties, left)| + |accepted| == |Custodial(parties, list)|
  {
    assert |multiset(Custodial(parties, left)) + multiset(accepted)| == |multiset(Custodial(parties, list))|;
  }

  lemma {:induction false} AfterPageParts(parties: set<string>, list: seq<Offer>, page: nat)
    requires page >= 1
    ensures Conserves(parties, list, AfterPage(parties, list, page), Custodial(parties, Page(list, page)))
  {
    var lo, hi := Min((page - 1) * PAGE_LIMIT, |list|), Min(page * PAGE_LIMIT, |list|);
    var pre, items, suf := list[..lo], Page(list, page), list[hi..];
    assert list == pre + items + suf;
    CustodialConcat(parties, pre + items, suf);
    CustodialConcat(parties, pre, items);
    CustodialConcat(parties, pre + Others(parties, items), suf);
    CustodialConcat(parties, pre, Others(parties, items));
    OthersConcat(parties, pre + items, suf);
    OthersConcat(parties, pre, items);
    OthersConcat(parties, pre + Others(parties, items), suf);
    OthersConcat(parties, pre, Others(parties, items));
    CustodialOfParts(parties, items);
  }

  /** A cycle conserves offers: each custodial one is accepted or stays, and the others stay in their order. */
  lemma LiveCycleConserves(parties: set<string>, list: seq<Offer>, page: nat)
    requires page >= 1
    ensures var (left, accepted) := LiveCycle(parties, list, page); Conserves(parties, list, left, accepted)
  {
    CycleConserves(parties, list, page, LiveCycle(parties, list, page));
  }

  lemma {:induction false} CycleConserves(
      parties: set<string>, list: seq<Offer>, page: nat, result: (seq<Offer>, seq<Offer>))
    requires page >= 1 && result == LiveCycle(parties, list, page)
    ensures Conserves(parties, list, result.0, result.1)
    decreases |list| - (page - 1) * PAGE_LIMIT
  {
    var rest, accepted, last, more := OnePage(parties, list, page);
    if !last {
      CycleConserves(parties, rest, page + 1, more);
      ConservesThen(parties, list, rest, more.0, accepted, more.1);
    }
  }

  /** A cycle is its first page and, unless that was the last, a cycle on what the page left. */
  lemma {:induction false} OnePage(parties: set<string>, list: seq<Offer>, page: nat)
    returns (rest: seq<Offer>, accepted: seq<Offer>, last: bool, more: (seq<Offer>, seq<Offer>))
    requires page >= 1
    ensures Conserves(parties, list, rest, accepted) && |rest| <= |list| && (last <==> page * PAGE_LIMIT >= |list|)
    ensures last ==> LiveCycle(parties, list, page) == (rest, accepted)
    ensures !last ==> more == LiveCycle(parties, rest, page + 1) && LiveCycle(parties, list, page) == (more.0, accepted + more.1)
  {
    rest, accepted := AfterPage(parties, list, page), Custodial(parties, Page(list, page));
    AfterPageParts(parties, list, page);
    AfterPageLength(parties, list, page);
    last := page * PAGE_LIMIT >= |list|;
    more := if last then ([], []) else LiveCycle(parties, rest, page + 1);
  }

  /** The offers that slide behind the page boundary are no more than those just accepted. */
  lemma {:induction false} SkippedBound(parties: set<string>, list: seq<Offer>, page: nat)
    requires page >= 1 && page * PAGE_LIMIT < |list|
    ensures var rest := AfterPage(parties, list, page);
            |Custodial(parties, rest[..Min(page * PAGE_LIMIT, |rest|)])|
            <= |Custodial(parties, list[..Min((page - 1) * PAGE_LIMIT, |list|)])|
               + |Custodial(parties, Page(list, page))|
  {
    var rest := AfterPage(parties, list, page);
    var pre, items := list[..(page - 1) * PAGE_LIMIT], Page(list, page);
    var kept, suf := Others(parties, items), list[page * PAGE_LIMIT..];
    CustodialOfParts(parties, items);
    var slid := suf[..Min(|items| - |kept|, |suf|)];
    assert rest[..Min(page * PAGE_LIMIT, |rest|)] == pre + kept + slid;
    CustodialConcat(parties, pre + kept, slid);
    CustodialConcat(parties, pre, kept);
    CustodialOfParts(parties, slid);
  }

  lemma {:induction false} LiveCycleSkips(parties: set<string>, list: seq<Offer>, page: nat)
    requires page >= 1
    ensures var (left, accepted) := LiveCycle(parties, list, page);
            |Custodial(parties, left)|
            <= |Custodial(parties, list[..Min((page - 1) * PAGE_LIMIT, |list|)])| + |accepted|
    decreases |list| - (page - 1) * PAGE_LIMIT
  {
    AfterPageLength(parties, list, page);
    if page * PAGE_LIMIT < |list| {
      SkippedBound(parties, list, page);
      LiveCycleSkips(parties, AfterPage(parties, list, page), page + 1);
    } else {
      var pre, items := list[..Min((page - 1) * PAGE_LIMIT, |list|)], Page(list, page);
      assert AfterPage(parties, list, page) == pre + Others(parties, items);
      CustodialConcat(parties, pre, Others(parties, items));
      CustodialOfParts(parties, items);
    }
  }

  /** Although later pages shift, a cycle accepts at least half of the pending custodial offers. */
  lemma {:induction false} LiveCycleHalves(parties: set<string>, list: seq<Offer>)
    ensures var (left, accepted) := LiveCycle(parties, list, 1);
            2 * |Custodial(parties, left)| <= |Custodial(parties, list)|
    ensures Custodial(parties, list) != [] ==> LiveCycle(parties, list, 1).1 != []
  {
    LiveCycleSkips(parties, list, 1);
    LiveCycleConserves(parties, list, 1);
    var (left, accepted) := LiveCycle(parties, list, 1);
    ConservesCount(parties, list, left, accepted);
    assert list[..0] == [];
  }

  /** The list after one cycle. */
  function AfterCycle(parties: set<string>, list: seq<Offer>): (left: seq<Offer>) {
    LiveCycle(parties, list, 1).0
  }

  lemma AfterCycleShrinks(parties: set<string>, list: seq<Offer>)
    ensures 2 * |Custodial(parties, AfterCycle(parties, list))| <= |Custodial(parties, list)|
    ensures Others(parties, AfterCycle(parties, list)) == Others(parties, list)
  {
    LiveCycleHalves(parties, list);
    LiveCycleConserves(parties, list, 1);
  }

  /** The list after `cycles` cycles. */
  function Drain(parties: set<string>, list: seq<Offer>, cycles: nat): (left: seq<Offer>)
    decreases cycles
  {
    if cycles == 0 then list else Drain(parties, AfterCycle(parties, list), cycles - 1)
  }

  function Pow2(n: nat): (p: nat) {
    if n == 0 then 1 else 2 * Pow2(n - 1)
  }

  lemma {:induction false} DrainShrinks(parties: set<string>, list: seq<Offer>, cycles: nat)
    ensures |Custodial(parties, Drain(parties, list, cycles))| * Pow2(cycles) <= |Custodial(parties, list)|
    ensures Others(parties, Drain(parties, list, cycles)) == Others(parties, list)
    decreases cycles
  {
    if cycles == 0 {
    } else {
      AfterCycleShrinks(parties, list);
      DrainShrinks(parties, AfterCycle(parties, list), cycles - 1);
      DoubledProduct(|Custodial(parties, Drain(parties, list, cycles))|, Pow2(cycles - 1));
    }
  }

  lemma DoubledProduct(n: int, p: int)
    ensures n * (2 * p) == 2 * (n * p)
  {
  }

  /** Finitely many cycles, logarithmic in the custodial offers, leave exactly the non-custodial ones. */
  lemma {:induction false} DrainCompletes(parties: set<string>, list: seq<Offer>, cycles: nat)
    requires |Custodial(parties, list)| < Pow2(cycles)
    ensures Drain(parties, list, cycles) == Others(parties, list)
  {
    DrainShrinks(parties, list, cycles);
    var left := Drain(parties, list, cycles);
    if Custodial(parties, left) != [] {
      MulMonotone(1, |Custodial(parties, left)|, Pow2(cycles));
    }
    NoneCustodial(parties, left);
  }

  lemma {:induction false} NoneCustodial(parties: set<string>, list: seq<Offer>)
    requires Custodial(parties, list) == []
    ensures Others(parties, list) == list
  {
    if |list| == 0 {
    } else {
      NoneCustodial(parties, list[1..]);
    }
  }

  // ----- the worker

  function Without(list: seq<Offer>, o: Offer): (r: seq<Offer>) {
    if |list| == 0 then []
    else (if list[0] == o then [] else [list[0]]) + Without(list[1..], o)
  }

  lemma {:induction false} WithoutAbsent(list: seq<Offer>, o: Offer)
    requires o !in list
    ensures Without(list, o) == list
  {
    if |list| == 0 {
    } else {
      WithoutAbsent(list[1..], o);
    }
  }

  lemma {:induction false} WithoutConcat(a: seq<Offer>, b: seq<Offer>, o: Offer)
    ensures Without(a + b, o) == Without(a, o) + Without(b, o)
  {
    if |a| == 0 {
      assert a + b == b;
    } else {
      ConcatHead(a, b);
      WithoutConcat(a[1..], b, o);
      var first := if a[0] == o then [] else [a[0]];
      ConcatAssociative(first, Without(a[1..], o), Without(b, o));
    }
  }

  lemma OnceInTheMiddle(a: seq<Offer>, o: Offer, b: seq<Offer>)
    requires Distinct(a + [o] + b)
    ensures o !in a && o !in b && Distinct(a + b)
  {
    assert multiset(a + [o] + b) == multiset(a) + multiset{o} + multiset(b);
    assert multiset(a + [o] + b)[o] == multiset(a)[o] + 1 + multiset(b)[o];
    DistinctPart(a + [o] + b, a + b);
  }

  lemma {:induction false} WithoutMiddle(a: seq<Offer>, o: Offer, b: seq<Offer>)
    requires Distinct(a + [o] + b)
    ensures Without(a + [o] + b, o) == a + b
  {
    OnceInTheMiddle(a, o, b);
    WithoutConcat(a + [o], b, o);
    WithoutConcat(a, [o], o);
    WithoutAbsent(a, o);
    WithoutAbsent(b, o);
    assert a + [] == a;
  }

  lemma RemovalShrinks(a: seq<Offer>, o: Offer, b: seq<Offer>)
    ensures Shrinks(a + [o] + b, a + b)
  {
    var before, after := a + [o] + b, a + b;
    forall i | 0 <= i < |after| ensures AtOrAfter(before, i, after[i]) {
      var j := if i < |a| then i else i + 1;
      assert before[j] == after[i];
    }
  }

  lemma ShrinksReflexive(a: seq<Offer>)
    ensures Shrinks(a, a)
  {
    forall i | 0 <= i < |a| ensures AtOrAfter(a, i, a[i]) {
    }
  }

  /**
   * The indexer's pending list and the ledger that accepts offers. Any call may
   * fail; the ghost fields record the accepts submitted and what failed.
   */
  class Indexer {
    var pending: seq<Offer>
    ghost var submitted: seq<Offer>
    ghost var rejected: nat
    ghost var failedFetches: nat

    constructor (pending: seq<Offer>)
      ensures this.pending == pending && submitted == [] && rejected == 0 && failedFetches == 0
    {
      this.pending, submitted, rejected, failedFetches := pending, [], 0, 0;
    }

    method GetPendingTransfers(page: nat) returns (r: Option<(seq<Offer>, nat)>)
      requires page >= 1
      modifies this`failedFetches
      ensures r.Some? ==> r.value == (Page(pending, page), |pending|)
      ensures failedFetches == old(failedFetches) + if r.None? then 1 else 0
    {
      var fails: bool := *;
      if fails {
        failedFetches := failedFetches + 1;
        return None;
      }
      r := Some((Page(pending, page), |pending|));
    }

    method AcceptTransferInstruction(o: Offer) returns (ok: bool)
      modifies this`pending, this`submitted, this`rejected
      ensures pending == if ok then Without(old(pending), o) else old(pending)
      ensures submitted == old(submitted) + [o]
      ensures rejected == old(rejected) + if ok then 0 else 1
    {
      ok := *;
      submitted := submitted + [o];
      if ok {
        pending := Without(pending, o);
      } else {
        rejected := rejected + 1;
      }
    }

    /** Since an earlier state of the two records: `attempts` were submitted and `errors` of them failed. */
    ghost predicate Records(submittedBefore: seq<Offer>, rejectedBefore: nat, attempts: seq<Offer>, errors: nat)
      reads this
    {
      submitted == submittedBefore + attempts && rejected == rejectedBefore + errors
    }
  }

  function PartySet(users: seq<string>): (parties: set<string>) {
    set u | u in users
  }

  lemma {:induction false} OneMore(parties: set<string>, offers: seq<Offer>, o: Offer)
    ensures Custodial(parties, offers + [o]) == Custodial(parties, offers) + if o.toParty in parties then [o] else []
    ensures Others(parties, offers + [o]) == Others(parties, offers) + if o.toParty in parties then [] else [o]
  {
    CustodialConcat(parties, offers, [o]);
    OthersConcat(parties, offers, [o]);
  }

  /** One offer of the page, which sits between `head` and `tail` in the pending list. */
  method AcceptOffer(parties: set<string>, o: Offer, indexer: Indexer, ghost head: seq<Offer>, ghost tail: seq<Offer>)
    returns (attempted: bool, ok: bool)
    requires indexer.pending == head + [o] + tail && Distinct(indexer.pending)
    modifies indexer`pending, indexer`submitted, indexer`rejected
    ensures attempted == (o.toParty in parties) && (ok ==> attempted)
    ensures indexer.Records(old(indexer.submitted), old(indexer.rejected),
                            if attempted then [o] else [], if attempted && !ok then 1 else 0)
    ensures indexer.pending == if ok then head + tail else old(indexer.pending)
    ensures Distinct(indexer.pending) && Shrinks(old(indexer.pending), indexer.pending)
  {
    ShrinksReflexive(indexer.pending);
    if o.toParty !in parties {
      return false, false;
    }
    attempted := true;
    ok := indexer.AcceptTransferInstruction(o);
    if ok {
      WithoutMiddle(head, o, tail);
      OnceInTheMiddle(head, o, tail);
      RemovalShrinks(head, o, tail);
    }
  }

  /** What came of the offers of a page handled so far, and which of them are still pending. */
  ghost predicate PageSoFar(
      parties: set<string>, done: seq<Offer>, kept: seq<Offer>, attempts: seq<Offer>, errors: nat, accepted: nat)
  {
    && attempts == Custodial(parties, done) && errors + accepted == |attempts|
    && (errors == 0 ==> kept == Others(parties, done))
    && (accepted == 0 ==> kept == done)
    && |kept| == |done| - accepted
  }

  lemma {:induction false} PageGoesOn(
      parties: set<string>, done: seq<Offer>, kept: seq<Offer>, attempts: seq<Offer>, errors: nat, accepted: nat, o: Offer, ok: bool)
    requires PageSoFar(parties, done, kept, attempts, errors, accepted) && (ok ==> o.toParty in parties)
    ensures var attempted := o.toParty in parties;
            PageSoFar(parties, done + [o], if ok then kept else kept + [o], if attempted then attempts + [o] else attempts,
                      if attempted && !ok then errors + 1 else errors, if ok then accepted + 1 else accepted)
  {
    OneMore(parties, done, o);
    assert Custodial(parties, done) + [] == Custodial(parties, done);
    assert Others(parties, done) + [] == Others(parties, done);
  }

  /** One turn of the loop over a page; `start`, `submitted` and `rejected` are the records when the page began. */
  method AcceptNext(
      parties: set<string>, o: Offer, indexer: Indexer, errors0: nat, accepted0: nat, attempts0: seq<Offer>,
      ghost start: seq<Offer>, ghost submitted: seq<Offer>, ghost rejected: nat,
      ghost done: seq<Offer>, ghost kept0: seq<Offer>, ghost head: seq<Offer>, ghost tail: seq<Offer>)
    returns (errors: nat, accepted: nat, attempts: seq<Offer>, ghost stays: bool)
    requires indexer.pending == head + [o] + tail && Distinct(indexer.pending) && Shrinks(start, indexer.pending)
    requires indexer.Records(submitted, rejected, attempts0, errors0)
    requires PageSoFar(parties, done, kept0, attempts0, errors0, accepted0)
    modifies indexer`pending, indexer`submitted, indexer`rejected
    ensures indexer.pending == (if stays then head + [o] else head) + tail
    ensures Distinct(indexer.pending) && Shrinks(start, indexer.pending)
    ensures indexer.Records(submitted, rejected, attempts, errors)
    ensures PageSoFar(parties, done + [o], if stays then kept0 + [o] else kept0, attempts, errors, accepted)
  {
    errors, accepted, attempts := errors0, accepted0, attempts0;
    ghost var before := indexer.pending;
    var attempted, ok := AcceptOffer(parties, o, indexer, head, tail);
    ShrinksTransitive(start, before, indexer.pending);
    PageGoesOn(parties, done, kept0, attempts, errors, accepted, o, ok);
    if attempted {
      ConcatAssociative(submitted, attempts, [o]);
      attempts := attempts + [o];
      if ok {
        accepted := accepted + 1;
      } else {
        errors := errors + 1;
      }
    }
    stays := !ok;
  }

  /** The next offer with what is pending before and behind it. */
  lemma AroundOffer(pre: seq<Offer>, kept: seq<Offer>, head: seq<Offer>, o: Offer, rest: seq<Offer>, suf: seq<Offer>)
    requires |rest| > 0 && rest[0] == o && head == pre + kept
    ensures head + (rest + suf) == head + [o] + (rest[1..] + suf)
    ensures head + [o] == pre + (kept + [o])
  {
    assert rest == [o] + rest[1..];
    ConcatAssociative([o], rest[1..], suf);
    ConcatAssociative(head, [o], rest[1..] + suf);
    ConcatAssociative(pre, kept, [o]);
  }

  lemma NothingLeft(done: seq<Offer>, rest: seq<Offer>, suf: seq<Offer>)
    requires |done + rest| == |done|
    ensures done + rest == done && rest + suf == suf
  {
  }

  lemma PageStarts(parties: set<string>)
    ensures PageSoFar(parties, [], [], [], 0, 0)
  {
  }

  /** One page of the loop. `errors` and `accepted` are the worker's per-offer outcome counters. */
  method AcceptPage(parties: set<string>, items: seq<Offer>, indexer: Indexer, ghost pre: seq<Offer>, ghost suf: seq<Offer>)
    returns (errors: nat, accepted: nat, attempts: seq<Offer>, ghost kept: seq<Offer>)
    requires indexer.pending == pre + (items + suf) && Distinct(indexer.pending)
    modifies indexer`pending, indexer`submitted, indexer`rejected
    ensures indexer.Records(old(indexer.submitted), old(indexer.rejected), attempts, errors)
    ensures PageSoFar(parties, items, kept, attempts, errors, accepted)
    ensures indexer.pending == (pre + kept) + suf
    ensures Distinct(indexer.pending) && Shrinks(old(indexer.pending), indexer.pending)
  {
    errors, accepted, attempts, kept := 0, 0, [], [];
    ghost var done, rest, head: seq<Offer> := [], items, pre;
    PageStarts(parties);
    ShrinksReflexive(indexer.pending);
    for i := 0 to |items|
      invariant indexer.Records(old(indexer.submitted), old(indexer.rejected), attempts, errors)
      invariant done + rest == items && |done| == i
      invariant PageSoFar(parties, done, kept, attempts, errors, accepted)
      invariant indexer.pending == head + (rest + suf) && head == pre + kept
      invariant Distinct(indexer.pending) && Shrinks(old(indexer.pending), indexer.pending)
    {
      var o := items[i];
      ghost var tail, stays := rest[1..] + suf, false;
      MoveHead(done, rest);
      AroundOffer(pre, kept, head, o, rest, suf);
      errors, accepted, attempts, stays :=
        AcceptNext(parties, o, indexer, errors, accepted, attempts,
                   old(indexer.pending), old(indexer.submitted), old(indexer.rejected), done, kept, head, tail);
      if stays {
        head, kept := head + [o], kept + [o];
      }
      done, rest := done + [o], rest[1..];
    }
    NothingLeft(done, rest, suf);
  }

  /** How many custodial offers stand on `page` or after it. */
  ghost function Ahead(parties: set<string>, list: seq<Offer>, page: nat): (n: nat)
    requires page >= 1
  {
    |Custodial(parties, list[Min((page - 1) * PAGE_LIMIT, |list|)..])|
  }

  /** The custodial offers of a page, and those after it. */
  lemma {:induction false} AheadSplits(parties: set<string>, list: seq<Offer>, page: nat)
    requires page >= 1
    ensures Ahead(parties, list, page) == |Custodial(parties, Page(list, page))| + Ahead(parties, list, page + 1)
    ensures page * PAGE_LIMIT >= |list| ==> Ahead(parties, list, page + 1) == 0
  {
    var lo, hi := Min((page - 1) * PAGE_LIMIT, |list|), Min(page * PAGE_LIMIT, |list|);
    assert list[lo..] == Page(list, page) + list[hi..];
    CustodialConcat(parties, Page(list, page), list[hi..]);
  }

  lemma {:induction false} AheadOfAll(parties: set<string>, list: seq<Offer>)
    ensures Ahead(parties, list, 1) == |Custodial(parties, list)|
  {
    assert list[0..] == list;
  }

  /** The offers that slide behind the page boundary are no more than those accepted on the page. */
  lemma {:induction false} SlideBound(
      parties: set<string>, pre: seq<Offer>, items: seq<Offer>, suf: seq<Offer>, kept: seq<Offer>, page: nat, accepted: nat)
    requires page >= 1 && |kept| + accepted == |items|
    requires |suf| > 0 ==> |pre + items| == page * PAGE_LIMIT
    ensures |Custodial(parties, suf)| <= Ahead(parties, (pre + kept) + suf, page + 1) + accepted
  {
    var after, n := (pre + kept) + suf, Min(accepted, |suf|);
    CustodialOfParts(parties, suf[..n]);
    if |suf| > 0 {
      assert suf == suf[..n] + suf[n..];
      CustodialConcat(parties, suf[..n], suf[n..]);
      assert after[Min(page * PAGE_LIMIT, |after|)..] == suf[n..];
    }
  }

  /** The list before and after one page, with the attempts made on it. */
  ghost predicate PageDone(
      parties: set<string>, page: nat, before: seq<Offer>, after: seq<Offer>, tried: seq<Offer>, failed: nat, succeeded: nat)
  {
    && page >= 1 && tried == Custodial(parties, Page(before, page)) && failed + succeeded == |tried|
    && (failed == 0 ==> after == AfterPage(parties, before, page))
    && (succeeded == 0 ==> after == before)
    && Ahead(parties, before, page + 1) <= Ahead(parties, after, page + 1) + succeeded
    && Distinct(after) && Shrinks(before, after)
  }

  lemma PageAround(list: seq<Offer>, page: nat, pre: seq<Offer>, items: seq<Offer>, suf: seq<Offer>)
    requires page >= 1 && items == Page(list, page)
    requires pre == list[..Min((page - 1) * PAGE_LIMIT, |list|)] && suf == list[Min(page * PAGE_LIMIT, |list|)..]
    ensures list == pre + (items + suf) && list == (pre + items) + suf
  {
  }

  lemma {:induction false} KeptAround(
      parties: set<string>, list: seq<Offer>, page: nat, pre: seq<Offer>, items: seq<Offer>, suf: seq<Offer>, kept: seq<Offer>,
      attempts: seq<Offer>, errors: nat, accepted: nat)
    requires page >= 1 && items == Page(list, page) && list == (pre + items) + suf
    requires pre == list[..Min((page - 1) * PAGE_LIMIT, |list|)] && suf == list[Min(page * PAGE_LIMIT, |list|)..]
    requires PageSoFar(parties, items, kept, attempts, errors, accepted)
    ensures |(pre + kept) + suf| <= |list|
    ensures errors == 0 ==> (pre + kept) + suf == AfterPage(parties, list, page)
    ensures accepted == 0 ==> (pre + kept) + suf == list
    ensures Ahead(parties, list, page + 1) <= Ahead(parties, (pre + kept) + suf, page + 1) + accepted
  {
    SlideBound(parties, pre, items, suf, kept, page, accepted);
  }

  /** AcceptPage on the items fetched for `page`. */
  method FetchedPage(parties: set<string>, page: nat, items: seq<Offer>, indexer: Indexer)
    returns (errors: nat, accepted: nat, attempts: seq<Offer>)
    requires page >= 1 && items == Page(indexer.pending, page) && Distinct(indexer.pending)
    modifies indexer`pending, indexer`submitted, indexer`rejected
    ensures indexer.Records(old(indexer.submitted), old(indexer.rejected), attempts, errors)
    ensures PageDone(parties, page, old(indexer.pending), indexer.pending, attempts, errors, accepted)
    ensures |indexer.pending| <= |old(indexer.pending)|
  {
    ghost var list := indexer.pending;
    ghost var pre, suf := list[..Min((page - 1) * PAGE_LIMIT, |list|)], list[Min(page * PAGE_LIMIT, |list|)..];
    PageAround(list, page, pre, items, suf);
    ghost var kept;
    errors, accepted, attempts, kept := AcceptPage(parties, items, indexer, pre, suf);
    KeptAround(parties, list, page, pre, items, suf, kept, attempts, errors, accepted);
  }

  /** What a failure-free cycle has left and accepted so far, followed by what the rest of it will. */
  ghost predicate OnLiveCourse(parties: set<string>, list: seq<Offer>, pending: seq<Offer>, page: nat, attempts: seq<Offer>)
    requires page >= 1
  {
    var (left, more) := LiveCycle(parties, pending, page);
    LiveCycle(parties, list, 1) == (left, attempts + more)
  }

  lemma LiveCourseStarts(parties: set<string>, list: seq<Offer>)
    ensures OnLiveCourse(parties, list, list, 1, [])
  {
    assert [] + LiveCycle(parties, list, 1).1 == LiveCycle(parties, list, 1).1;
  }

  lemma {:induction false} LiveCourseAdvances(parties: set<string>, list: seq<Offer>, pending: seq<Offer>, page: nat, attempts: seq<Offer>)
    requires page >= 1 && OnLiveCourse(parties, list, pending, page, attempts)
    ensures var rest, tried := AfterPage(parties, pending, page), attempts + Custodial(parties, Page(pending, page));
            if page * PAGE_LIMIT >= |pending| then LiveCycle(parties, list, 1) == (rest, tried)
            else OnLiveCourse(parties, list, rest, page + 1, tried)
  {
    var rest := AfterPage(parties, pending, page);
    var accepted := Custodial(parties, Page(pending, page));
    if page * PAGE_LIMIT < |pending| {
      var more := LiveCycle(parties, rest, page + 1).1;
      assert attempts + (accepted + more) == attempts + accepted + more;
    }
  }

  /** The fetches and attempts of a cycle that began on `list` and has now left `pending`. */
  ghost predicate Course(
      parties: set<string>, list: seq<Offer>, pending: seq<Offer>, seen: seq<seq<Offer>>, attempts: seq<Offer>)
  {
    && attempts == Attempts(parties, seen)
    && ShrinkingRun(seen + [pending])
    && (seen + [pending])[0] == list
  }

  lemma {:induction false} CourseAdvances(
      parties: set<string>, list: seq<Offer>, pending: seq<Offer>, seen: seq<seq<Offer>>, attempts: seq<Offer>,
      after: seq<Offer>)
    requires Course(parties, list, pending, seen, attempts) && Distinct(after) && Shrinks(pending, after)
    ensures Course(parties, list, after, seen + [pending], attempts + Custodial(parties, Page(pending, |seen| + 1)))
  {
    var all := seen + [pending];
    assert all[..|seen|] == seen;
    assert (all + [after])[|all| - 1] == pending;
  }

  lemma PagingAdvances(seen: seq<seq<Offer>>, pending: seq<Offer>)
    requires StillPaging(seen)
    ensures if (|seen| + 1) * PAGE_LIMIT >= |pending| then Ended(seen + [pending]) else StillPaging(seen + [pending])
  {
    assert (seen + [pending])[..|seen|] == seen;
  }

  /** Where the paging loop stands: the fetches so far and what came of them. */
  ghost predicate Paging(
      parties: set<string>, list: seq<Offer>, pending: seq<Offer>, seen: seq<seq<Offer>>, attempts: seq<Offer>,
      errors: nat, accepted: nat)
  {
    && Course(parties, list, pending, seen, attempts)
    && errors + accepted == |attempts|
    && (accepted == 0 ==> pending == list && forall k :: 0 <= k < |seen| ==> seen[k] == list)
  }

  lemma {:induction false} PageAdvances(
      parties: set<string>, list: seq<Offer>, before: seq<Offer>, seen: seq<seq<Offer>>, attempts: seq<Offer>,
      errors: nat, accepted: nat, after: seq<Offer>, tried: seq<Offer>, failed: nat, succeeded: nat)
    requires Paging(parties, list, before, seen, attempts, errors, accepted)
    requires PageDone(parties, |seen| + 1, before, after, tried, failed, succeeded)
    ensures Paging(parties, list, after, seen + [before], attempts + tried, errors + failed, accepted + succeeded)
  {
    CourseAdvances(parties, list, before, seen, attempts, after);
  }

  /** A cycle that goes on is still on the failure-free course; one that ends has followed it to the end. */
  ghost predicate Followed(
      parties: set<string>, list: seq<Offer>, pending: seq<Offer>, page: nat, attempts: seq<Offer>, ended: bool)
  {
    if ended then LiveCycle(parties, list, 1) == (pending, attempts)
    else page >= 1 && OnLiveCourse(parties, list, pending, page, attempts)
  }

  lemma {:induction false} FollowedAdvances(
      parties: set<string>, list: seq<Offer>, before: seq<Offer>, page: nat, attempts: seq<Offer>,
      after: seq<Offer>, tried: seq<Offer>, failed: nat, succeeded: nat)
    requires Followed(parties, list, before, page, attempts, false)
    requires PageDone(parties, page, before, after, tried, failed, succeeded) && failed == 0
    ensures Followed(parties, list, after, page + 1, attempts + tried, page * PAGE_LIMIT >= |before|)
  {
    LiveCourseAdvances(parties, list, before, page, attempts);
  }

  /** The paging loop about to fetch `page`, or ended on it. */
  ghost predicate LoopState(
      parties: set<string>, list: seq<Offer>, pending: seq<Offer>, page: nat, seen: seq<seq<Offer>>,
      attempts: seq<Offer>, errors: nat, accepted: nat, ended: bool)
  {
    && page >= 1 && |seen| == (if ended then page else page - 1)
    && Paging(parties, list, pending, seen, attempts, errors, accepted)
    && (if ended then Ended(seen) else StillPaging(seen))
    && (errors == 0 ==> Followed(parties, list, pending, page, attempts, ended))
    && Covers(parties, list, pending, page, attempts, accepted, ended)
  }

  /** Every custodial offer of the list has been attempted, or slid past behind an accepted one, or is still ahead. */
  ghost predicate Covers(
      parties: set<string>, list: seq<Offer>, pending: seq<Offer>, page: nat, attempts: seq<Offer>, accepted: nat, ended: bool)
    requires page >= 1
  {
    |Custodial(parties, list)| <= |attempts| + accepted + if ended then 0 else Ahead(parties, pending, page)
  }

  lemma CoversAdvances(
      parties: set<string>, list: seq<Offer>, before: seq<Offer>, page: nat, attempts: seq<Offer>, accepted: nat,
      after: seq<Offer>, tried: seq<Offer>, failed: nat, succeeded: nat)
    requires page >= 1 && Covers(parties, list, before, page, attempts, accepted, false)
    requires PageDone(parties, page, before, after, tried, failed, succeeded)
    ensures var ended := page * PAGE_LIMIT >= |before|;
            Covers(parties, list, after, if ended then page else page + 1, attempts + tried, accepted + succeeded, ended)
  {
    AheadSplits(parties, before, page);
  }

  /** A cycle whose fetches all succeed attempts at least half of the custodial offers, whatever accepts fail. */
  lemma AttemptsHalf(
      parties: set<string>, list: seq<Offer>, pending: seq<Offer>, page: nat, seen: seq<seq<Offer>>,
      attempts: seq<Offer>, errors: nat, accepted: nat)
    requires LoopState(parties, list, pending, page, seen, attempts, errors, accepted, true)
    ensures |Custodial(parties, list)| <= |attempts| + accepted <= 2 * |attempts|
    ensures Custodial(parties, list) != [] ==> attempts != []
  {
  }

  lemma LoopStarts(parties: set<string>, list: seq<Offer>)
    requires Distinct(list)
    ensures LoopState(parties, list, list, 1, [], [], 0, 0, false)
  {
    LiveCourseStarts(parties, list);
    AheadOfAll(parties, list);
  }

  lemma LoopAdvances(
      parties: set<string>, list: seq<Offer>, before: seq<Offer>, page: nat, seen: seq<seq<Offer>>, attempts: seq<Offer>,
      errors: nat, accepted: nat, after: seq<Offer>, tried: seq<Offer>, failed: nat, succeeded: nat)
    requires LoopState(parties, list, before, page, seen, attempts, errors, accepted, false)
    requires PageDone(parties, page, before, after, tried, failed, succeeded)
    ensures var ended := page * PAGE_LIMIT >= |before|;
            LoopState(parties, list, after, if ended then page else page + 1, seen + [before],
                      attempts + tried, errors + failed, accepted + succeeded, ended)
  {
    PageAdvances(parties, list, before, seen, attempts, errors, accepted, after, tried, failed, succeeded);
    PagingAdvances(seen, before);
    CoversAdvances(parties, list, before, page, attempts, accepted, after, tried, failed, succeeded);
    if errors + failed == 0 {
      FollowedAdvances(parties, list, before, page, attempts, after, tried, failed, succeeded);
    }
  }

  lemma PendingDistinct(
      parties: set<string>, list: seq<Offer>, pending: seq<Offer>, seen: seq<seq<Offer>>, attempts: seq<Offer>)
    requires Course(parties, list, pending, seen, attempts)
    ensures Distinct(pending)
  {
    assert Distinct((seen + [pending])[|seen|]);
  }

  /** One turn of the paging loop; `submitted` and `rejected` are the records when the cycle began. */
  method NextPage(
      parties: set<string>, page: nat, indexer: Indexer, errors0: nat, accepted0: nat, attempts0: seq<Offer>,
      ghost list: seq<Offer>, ghost seen: seq<seq<Offer>>, ghost submitted: seq<Offer>, ghost rejected: nat)
    returns (fetched: bool, ended: bool, errors: nat, accepted: nat, attempts: seq<Offer>)
    requires LoopState(parties, list, indexer.pending, page, seen, attempts0, errors0, accepted0, false)
    requires indexer.Records(submitted, rejected, attempts0, errors0)
    modifies indexer
    ensures fetched == (indexer.failedFetches == old(indexer.failedFetches))
    ensures indexer.Records(submitted, rejected, attempts, errors)
    ensures fetched ==>
        && ended == (page * PAGE_LIMIT >= |old(indexer.pending)|) && |indexer.pending| <= |old(indexer.pending)|
        && LoopState(parties, list, indexer.pending, if ended then page else page + 1, seen + [old(indexer.pending)],
                     attempts, errors, accepted, ended)
    ensures !fetched ==>
        indexer.pending == old(indexer.pending) && errors == errors0 && accepted == accepted0 && attempts == attempts0
  {
    fetched, ended, errors, accepted, attempts := false, false, errors0, accepted0, attempts0;
    var result := indexer.GetPendingTransfers(page);
    if result.None? {
      return;
    }
    ghost var before := indexer.pending;
    PendingDistinct(parties, list, before, seen, attempts0);
    var failed, succeeded, tried := FetchedPage(parties, page, result.value.0, indexer);
    LoopAdvances(parties, list, before, page, seen, attempts0, errors0, accepted0, indexer.pending, tried, failed, succeeded);
    ConcatAssociative(submitted, attempts0, tried);
    fetched, ended := true, page * PAGE_LIMIT >= result.value.1;
    errors, accepted, attempts := errors0 + failed, accepted0 + succeeded, attempts0 + tried;
  }

  /** The paging loop of one cycle. `seen` is ghost: the pending list at each fetch. */
  method PageThrough(parties: set<string>, indexer: Indexer)
    returns (completed: bool, errors: nat, accepted: nat, attempts: seq<Offer>, ghost seen: seq<seq<Offer>>)
    requires Distinct(indexer.pending)
    modifies indexer
    ensures Paging(parties, old(indexer.pending), indexer.pending, seen, attempts, errors, accepted)
    ensures indexer.Records(old(indexer.submitted), old(indexer.rejected), attempts, errors)
    ensures completed == (indexer.failedFetches == old(indexer.failedFetches)) && (completed ==> Ended(seen))
    ensures completed && errors == 0 ==> LiveCycle(parties, old(indexer.pending), 1) == (indexer.pending, attempts)
    ensures completed ==> |Custodial(parties, old(indexer.pending))| <= |attempts| + accepted <= 2 * |attempts|
  {
    completed, errors, accepted, attempts, seen := false, 0, 0, [], [];
    ghost var list := indexer.pending;
    LoopStarts(parties, list);
    var page := 1;
    while !completed
      invariant LoopState(parties, list, indexer.pending, page, seen, attempts, errors, accepted, completed)
      invariant indexer.Records(old(indexer.submitted), old(indexer.rejected), attempts, errors)
      invariant indexer.failedFetches == old(indexer.failedFetches)
      decreases if completed then 0 else 1, |indexer.pending| - (page - 1) * PAGE_LIMIT
    {
      ghost var before := indexer.pending;
      var fetched;
      fetched, completed, errors, accepted, attempts :=
        NextPage(parties, page, indexer, errors, accepted, attempts, list, seen, old(indexer.submitted), old(indexer.rejected));
      if !fetched {
        return false, errors, accepted, attempts, seen;
      }
      seen := seen + [before];
      if !completed {
        page := page + 1;
      }
    }
    AttemptsHalf(parties, list, indexer.pending, page, seen, attempts, errors, accepted);
  }

  /**
   * acceptPending. `users` are the custodial users' party ids, or None when listing
   * them failed; `completed` is the cycle's success.
   */
  method AcceptPending(users: Option<seq<string>>, indexer: Indexer)
    returns (completed: bool, errors: nat, accepted: nat, attempts: seq<Offer>, ghost seen: seq<seq<Offer>>)
    requires Distinct(indexer.pending)
    modifies indexer
    ensures users.None? || users.value == [] ==>
        attempts == [] && seen == [] && indexer.pending == old(indexer.pending) && completed == users.Some?
    ensures users.Some? && users.value != [] ==>
        && attempts == Attempts(PartySet(users.value), seen)
        && completed == (indexer.failedFetches == old(indexer.failedFetches))
        && (completed ==> Ended(seen))
        && (completed ==> |Custodial(PartySet(users.value), old(indexer.pending))| <= |attempts| + accepted <= 2 * |attempts|)
        && (completed && errors == 0 ==>
              LiveCycle(PartySet(users.value), old(indexer.pending), 1) == (indexer.pending, attempts))
    ensures accepted == 0 ==> forall k :: 0 <= k < |seen| ==> seen[k] == old(indexer.pending)
    ensures indexer.Records(old(indexer.submitted), old(indexer.rejected), attempts, errors)
    ensures errors + accepted == |attempts| && Distinct(attempts)
    ensures ShrinkingRun(seen + [indexer.pending]) && (seen + [indexer.pending])[0] == old(indexer.pending)
  {
    if users.None? || users.value == [] {
      return users.Some?, 0, 0, [], [];
    }
    var parties: set<string> := {};
    for i := 0 to |users.value|
      invariant parties == PartySet(users.value[..i])
    {
      parties := parties + {users.value[i]};
    }
    assert users.value[..|users.value|] == users.value;
    completed, errors, accepted, attempts, seen := PageThrough(parties, indexer);
    assert ShrinkingRun(seen) by {
      assert seen == (seen + [indexer.pending])[..|seen|];
    }
    NoDoubleAttempt(parties, seen);
  }
}
