/**
 * The EVM address whitelist (pkg/userstore/pg.go) and its cursor paging
 * (pkg/user/whitelist/whitelist.go), while rows come and go between pages.
 */
module Whitelist {
  import opened EvmAddress
  import opened Text
  import opened Wrappers

  /** The table: address as stored, and its note, empty when it has none. */
  type Rows = map<string, string>

  const DEFAULT_LIMIT := 50
  const MAX_LIMIT := 200

  datatype Entry = Entry(address: string, note: string)

  predicate SameAddress(a: string, b: string) {
    Lower(a) == Lower(b)
  }

  /** Addresses come in the order of their lower-case form; `a` comes strictly before `b`. */
  predicate Before(a: string, b: string) {
    Less(Lower(a), Lower(b))
  }

  /** That order is ascending, character by character. */
  lemma BeforeIff(a: string, b: string)
    ensures Before(a, b) <==> Ascends(Lower(a), Lower(b))
  {
    LessIff(Lower(a), Lower(b));
  }

  /** A row the query for the page after `cursor` selects. */
  predicate Eligible(rows: Rows, cursor: string, k: string) {
    k in rows && (cursor == "" || Before(cursor, k))
  }

  /** Distinct rows in address order. */
  ghost predicate Ordered(page: seq<Entry>) {
    && (forall i, j :: 0 <= i < j < |page| ==> page[i].address != page[j].address)
    && (forall i, j :: 0 <= i < j < |page| ==> !Before(page[j].address, page[i].address))
  }

  ghost predicate Lists(page: seq<Entry>, k: string) {
    exists i :: 0 <= i < |page| && page[i].address == k
  }

  /** `k` comes after the whole page, or ties with its end. */
  ghost predicate NotBeforeAny(page: seq<Entry>, k: string) {
    forall i :: 0 <= i < |page| ==> !Before(k, page[i].address)
  }

  /** The first `limit` eligible rows; rows that differ only in case may come in either order. */
  ghost predicate IsPage(rows: Rows, cursor: string, limit: nat, page: seq<Entry>) {
    && |page| <= limit && Ordered(page)
    && (forall i :: 0 <= i < |page| ==> Eligible(rows, cursor, page[i].address) && rows[page[i].address] == page[i].note)
    && (forall k :: Eligible(rows, cursor, k) && !Lists(page, k) ==> |page| == limit && NotBeforeAny(page, k))
  }

  lemma {:induction false} LeastExists(s: set<string>) returns (k: string)
    requires s != {}
    ensures k in s && forall m :: m in s ==> !Before(m, k)
    decreases |s|
  {
    k :| k in s;
    if s == {k} {
      LessIrreflexive(Lower(k));
    } else {
      var rest := s - {k};
      assert s == rest + {k};
      var m := LeastExists(rest);
      LessTotal(Lower(k), Lower(m));
      LessIrreflexive(Lower(k));
      if Before(k, m) {
        forall x | x in s ensures !Before(x, k) {
          if x != k && Before(x, k) {
            LessTransitive(Lower(x), Lower(k), Lower(m));
            assert false;
          }
        }
      } else {
        k := m;
      }
    }
  }

  /** The page size the service uses for a requested one. */
  function Clamp(limit: int): (n: nat)
    ensures n == if limit < 1 then 50 else if limit > 200 then 200 else limit
  {
    if limit < 1 then DEFAULT_LIMIT else if limit > MAX_LIMIT then MAX_LIMIT else limit
  }

  /** Some row matches without regard to case. */
  predicate Whitelisted(rows: Rows, address: string) {
    exists k :: k in rows && SameAddress(k, address)
  }

  /** A blank address is refused and a blank note stored as none. */
  function Added(rows: Rows, address: string, note: string): (r: Rows) {
    if TrimSpace(address) == "" then rows
    else rows[TrimSpace(address) := if TrimSpace(note) == "" then "" else note]
  }

  function Removed(rows: Rows, address: string): (r: Rows) {
    map k | k in rows && !SameAddress(k, address) :: rows[k]
  }

  class Store {
    var rows: Rows

    constructor ()
      ensures rows == map[]
    {
      rows := map[];
    }

    method IsWhitelisted(address: string) returns (found: bool)
      ensures found == Whitelisted(rows, address)
    {
      found := exists k :: k in rows && SameAddress(k, address);
    }

    /** An upsert on the address exactly as given, so addresses differing in case are different rows. */
    method AddToWhitelist(address: string, note: string) returns (ok: bool)
      modifies this
      ensures ok <==> TrimSpace(address) != ""
      ensures rows == Added(old(rows), address, note)
    {
      var trimmed := TrimSpace(address);
      if trimmed == "" {
        return false;
      }
      rows := rows[trimmed := if TrimSpace(note) != "" then note else ""];
      ok := true;
    }

    /** Removes every row that matches without regard to case. */
    method RemoveFromWhitelist(address: string) returns (removed: bool)
      modifies this
      ensures removed == Whitelisted(old(rows), address)
      ensures rows == Removed(old(rows), address)
    {
      removed := exists k :: k in rows && SameAddress(k, address);
      rows := map k | k in rows && !SameAddress(k, address) :: rows[k];
    }

    /** Selects in order of the lower-case address until the limit is reached. */
    method ListWhitelist(cursor: string, limit: nat) returns (page: seq<Entry>)
      ensures IsPage(rows, cursor, limit, page)
    {
      page := [];
      var rest := set k | k in rows && Eligible(rows, cursor, k);
      while |page| < limit && rest != {}
        invariant |page| <= limit && Collected(rows, cursor, page, rest)
        decreases |rest|
      {
        ghost var least := LeastExists(rest);
        var k :| k in rest && forall m :: m in rest ==> !Before(m, k);
        CollectNext(rows, cursor, page, rest, k);
        page := page + [Entry(k, rows[k])];
        rest := rest - {k};
      }
    }

    /** The service's List: one extra row tells whether there is more. */
    method List(cursor: string, limit: int) returns (items: seq<Entry>, hasMore: bool, nextCursor: string)
      ensures IsServicePage(rows, cursor, Clamp(limit), items, hasMore)
      ensures nextCursor == if hasMore then NextCursor(items) else ""
    {
      var n := limit;
      if n < 1 {
        n := DEFAULT_LIMIT;
      }
      if n > MAX_LIMIT {
        n := MAX_LIMIT;
      }
      items := ListWhitelist(cursor, n + 1);
      hasMore := |items| > n;
      if hasMore {
        CutPage(rows, cursor, n, items);
        items := items[..n];
      }
      nextCursor := "";
      if hasMore && |items| > 0 {
        nextCursor := items[|items| - 1].address;
      }
    }
  }

  /** `page` holds the eligible rows in order, down to those in `rest`. */
  ghost predicate Collected(rows: Rows, cursor: string, page: seq<Entry>, rest: set<string>) {
    && Ordered(page)
    && (forall i :: 0 <= i < |page| ==> Eligible(rows, cursor, page[i].address) && rows[page[i].address] == page[i].note)
    && (forall k :: k in rest ==> Eligible(rows, cursor, k) && !Lists(page, k) && NotBeforeAny(page, k))
    && (forall k :: Eligible(rows, cursor, k) && k !in rest ==> Lists(page, k))
  }

  lemma CollectNext(rows: Rows, cursor: string, page: seq<Entry>, rest: set<string>, k: string)
    requires Collected(rows, cursor, page, rest) && k in rest && forall m :: m in rest ==> !Before(m, k)
    ensures Collected(rows, cursor, page + [Entry(k, rows[k])], rest - {k})
  {
    var e := Entry(k, rows[k]);
    ListsAppend(page, e);
    forall i, j | 0 <= i < j < |page + [e]|
      ensures (page + [e])[i].address != (page + [e])[j].address
    {
      if j == |page| {
        assert !Lists(page, k);
      }
    }
  }

  lemma ListsAppend(page: seq<Entry>, e: Entry)
    ensures forall k :: Lists(page + [e], k) <==> Lists(page, k) || k == e.address
  {
    var all := page + [e];
    forall k ensures Lists(all, k) <==> Lists(page, k) || k == e.address {
      assert all[|page|] == e;
      if Lists(page, k) {
        var i :| 0 <= i < |page| && page[i].address == k;
        assert all[i].address == k;
      }
      if Lists(all, k) {
        var i :| 0 <= i < |all| && all[i].address == k;
        assert i < |page| ==> page[i].address == k;
      }
    }
  }

  ghost predicate IsServicePage(rows: Rows, cursor: string, limit: nat, items: seq<Entry>, hasMore: bool) {
    && IsPage(rows, cursor, limit, items)
    && (hasMore <==> exists k :: Eligible(rows, cursor, k) && !Lists(items, k))
  }

  /** The first `limit` rows of a page of limit + 1 are the page of that limit, and there is more. */
  lemma CutPage(rows: Rows, cursor: string, limit: nat, page: seq<Entry>)
    requires IsPage(rows, cursor, limit + 1, page) && |page| == limit + 1
    ensures IsServicePage(rows, cursor, limit, page[..limit], true)
  {
    var items, last := page[..limit], page[limit];
    assert page == items + [last];
    ListsAppend(items, last);
    assert !Lists(items, last.address);
    forall k | Eligible(rows, cursor, k) && !Lists(items, k) ensures NotBeforeAny(items, k) {
      if k != last.address {
        assert NotBeforeAny(page, k);
      }
    }
  }

  // ----- following the cursor

  /** Page after page, each over the table as it is then; the cursor is the last address returned. */
  ghost predicate Walk(cursor: string, tables: seq<Rows>, limits: seq<nat>, pages: seq<seq<Entry>>)
    decreases |pages|
  {
    && |tables| == |limits| == |pages| > 0
    && limits[0] >= 1 && "" !in tables[0]
    && IsServicePage(tables[0], cursor, limits[0], pages[0], |pages| > 1)
    && (|pages| > 1 ==> Walk(NextCursor(pages[0]), tables[1..], limits[1..], pages[1..]))
  }

  ghost function NextCursor(page: seq<Entry>): (cursor: string) {
    if |page| == 0 then "" else page[|page| - 1].address
  }

  ghost function Addresses(page: seq<Entry>): (r: seq<string>)
    ensures |r| == |page| && forall i :: 0 <= i < |page| ==> r[i] == page[i].address
  {
    seq(|page|, i requires 0 <= i < |page| => page[i].address)
  }

  /** Every address returned, in the order it was returned. */
  ghost function Returned(pages: seq<seq<Entry>>): (r: seq<string>) {
    if |pages| == 0 then [] else Addresses(pages[0]) + Returned(pages[1..])
  }

  /** A page with more behind it is not empty, and its last address is a real cursor that follows the one before. */
  lemma CursorAdvances(rows: Rows, cursor: string, limit: nat, items: seq<Entry>)
    requires limit >= 1 && "" !in rows && IsServicePage(rows, cursor, limit, items, true)
    ensures items != [] && NextCursor(items) != "" && (cursor == "" || Before(cursor, NextCursor(items)))
  {
    var k :| Eligible(rows, cursor, k) && !Lists(items, k);
  }

  /** Everything a walk returns comes after the cursor it began with. */
  lemma {:induction false} ReturnedAfterCursor(cursor: string, tables: seq<Rows>, limits: seq<nat>, pages: seq<seq<Entry>>, i: nat)
    requires Walk(cursor, tables, limits, pages) && cursor != "" && i < |Returned(pages)|
    ensures Before(cursor, Returned(pages)[i])
    decreases |pages|
  {
    var n := |pages[0]|;
    if i >= n {
      CursorAdvances(tables[0], cursor, limits[0], pages[0]);
      var next := NextCursor(pages[0]);
      ReturnedAfterCursor(next, tables[1..], limits[1..], pages[1..], i - n);
      LessTransitive(Lower(cursor), Lower(next), Lower(Returned(pages)[i]));
    }
  }

  /** Within a page an address may tie with a later one that differs in case; across pages it never does. */
  lemma {:induction false} ReturnedOrdered(cursor: string, tables: seq<Rows>, limits: seq<nat>, pages: seq<seq<Entry>>, i: nat, j: nat)
    requires Walk(cursor, tables, limits, pages) && i < j < |Returned(pages)|
    ensures Returned(pages)[i] != Returned(pages)[j]
    ensures !Before(Returned(pages)[j], Returned(pages)[i])
    ensures i < |pages[0]| <= j ==> Before(Returned(pages)[i], Returned(pages)[j])
    decreases |pages|
  {
    var n := |pages[0]|;
    var all := Returned(pages);
    if i >= n {
      ReturnedOrdered(NextCursor(pages[0]), tables[1..], limits[1..], pages[1..], i - n, j - n);
    } else if j >= n {
      CursorAdvances(tables[0], cursor, limits[0], pages[0]);
      var next := NextCursor(pages[0]);
      ReturnedAfterCursor(next, tables[1..], limits[1..], pages[1..], j - n);
      LessIrreflexive(Lower(next));
      AtMostThenLess(Lower(all[i]), Lower(next), Lower(all[j]));
      LessIrreflexive(Lower(all[i]));
      if Before(all[j], all[i]) {
        LessTransitive(Lower(all[i]), Lower(all[j]), Lower(all[i]));
      }
    }
  }

  /** `k` is a row of every table, and no table has another row for the same address. */
  ghost predicate Throughout(tables: seq<Rows>, k: string) {
    forall t :: 0 <= t < |tables| ==> k in tables[t] && forall m :: m in tables[t] && SameAddress(m, k) ==> m == k
  }

  lemma {:induction false} WalkReaches(cursor: string, tables: seq<Rows>, limits: seq<nat>, pages: seq<seq<Entry>>, k: string)
    requires Walk(cursor, tables, limits, pages) && Throughout(tables, k)
    requires cursor == "" || Before(cursor, k)
    ensures k in Returned(pages)
    decreases |pages|
  {
    assert Eligible(tables[0], cursor, k);
    if Lists(pages[0], k) {
      var i :| 0 <= i < |pages[0]| && pages[0][i].address == k;
      assert Returned(pages)[i] == k;
    } else {
      CursorAdvances(tables[0], cursor, limits[0], pages[0]);
      var next := NextCursor(pages[0]);
      assert Lists(pages[0], next);
      LessTotal(Lower(k), Lower(next));
      assert NotBeforeAny(pages[0], k);
      assert Before(next, k);
      WalkReaches(next, tables[1..], limits[1..], pages[1..], k);
    }
  }

  lemma {:induction false} OccursOnce(s: seq<string>, k: string)
    requires k in s && forall i, j :: 0 <= i < j < |s| ==> s[i] != s[j]
    ensures multiset(s)[k] == 1
  {
    var i :| 0 <= i < |s| && s[i] == k;
    assert s == s[..i] + [k] + s[i + 1..];
    assert k !in s[..i] && k !in s[i + 1..];
  }

  /**
   * A complete walk returns every entry that was present throughout, under an address
   * no other row shares, exactly once, whatever else was added or removed meanwhile.
   */
  lemma {:induction false} WalkReturnsOnce(tables: seq<Rows>, limits: seq<nat>, pages: seq<seq<Entry>>, k: string)
    requires Walk("", tables, limits, pages) && Throughout(tables, k)
    ensures multiset(Returned(pages))[k] == 1
  {
    WalkReaches("", tables, limits, pages, k);
    forall i, j | 0 <= i < j < |Returned(pages)| ensures Returned(pages)[i] != Returned(pages)[j] {
      ReturnedOrdered("", tables, limits, pages, i, j);
    }
    OccursOnce(Returned(pages), k);
  }

  /** No two rows of any table differ only in case. */
  ghost predicate CaseUnique(rows: Rows) {
    forall k, m :: k in rows && m in rows && SameAddress(k, m) ==> k == m
  }

  ghost predicate AllCaseUnique(tables: seq<Rows>) {
    forall t :: 0 <= t < |tables| ==> CaseUnique(tables[t])
  }

  lemma PageIncreases(rows: Rows, cursor: string, limit: nat, page: seq<Entry>, i: nat, j: nat)
    requires CaseUnique(rows) && IsPage(rows, cursor, limit, page) && i < j < |page|
    ensures Before(page[i].address, page[j].address)
  {
    LessTotal(Lower(page[i].address), Lower(page[j].address));
  }

  lemma RestCaseUnique(tables: seq<Rows>)
    requires |tables| > 0 && AllCaseUnique(tables)
    ensures AllCaseUnique(tables[1..])
  {
  }

  /** Then the returned addresses strictly increase. */
  lemma {:induction false} ReturnedIncreases(cursor: string, tables: seq<Rows>, limits: seq<nat>, pages: seq<seq<Entry>>, i: nat, j: nat)
    requires Walk(cursor, tables, limits, pages) && AllCaseUnique(tables)
    requires i < j < |Returned(pages)|
    ensures Before(Returned(pages)[i], Returned(pages)[j])
    decreases |pages|
  {
    var n := |pages[0]|;
    if i >= n {
      TailOf(pages, i);
      TailOf(pages, j);
      RestCaseUnique(tables);
      ReturnedIncreases(NextCursor(pages[0]), tables[1..], limits[1..], pages[1..], i - n, j - n);
    } else if j < n {
      FirstPageIncreases(cursor, tables, limits, pages, i, j);
    } else {
      assert Before(Returned(pages)[i], Returned(pages)[j]) by {
        ReturnedOrdered(cursor, tables, limits, pages, i, j);
      }
    }
  }

  lemma {:induction false} FirstPageIncreases(cursor: string, tables: seq<Rows>, limits: seq<nat>, pages: seq<seq<Entry>>, i: nat, j: nat)
    requires Walk(cursor, tables, limits, pages) && CaseUnique(tables[0]) && i < j < |pages[0]|
    ensures j < |Returned(pages)| && Before(Returned(pages)[i], Returned(pages)[j])
  {
    PageIncreases(tables[0], cursor, limits[0], pages[0], i, j);
  }

  lemma {:induction false} TailOf(pages: seq<seq<Entry>>, i: nat)
    requires pages != [] && |pages[0]| <= i < |Returned(pages)|
    ensures i - |pages[0]| < |Returned(pages[1..])| && Returned(pages)[i] == Returned(pages[1..])[i - |pages[0]|]
  {
  }

  // ----- rows that differ only in case

  ghost function Unchanging(rows: Rows, n: nat): (tables: seq<Rows>)
    ensures |tables| == n && forall t :: 0 <= t < n ==> tables[t] == rows
  {
    seq(n, _ => rows)
  }

  ghost function SingleRow(n: nat): (limits: seq<nat>)
    ensures |limits| == n && forall t :: 0 <= t < n ==> limits[t] == 1
  {
    seq(n, _ => 1)
  }

  ghost function EligibleSet(rows: Rows, cursor: string): (s: set<string>) {
    set k | k in rows && Eligible(rows, cursor, k)
  }

  lemma FewerAfter(rows: Rows, cursor: string, k: string)
    requires k in EligibleSet(rows, cursor) && k != ""
    ensures EligibleSet(rows, k) < EligibleSet(rows, cursor)
  {
    forall m | m in EligibleSet(rows, k) ensures m in EligibleSet(rows, cursor) && m != k {
      if cursor != "" {
        LessTransitive(Lower(cursor), Lower(k), Lower(m));
      }
      LessIrreflexive(Lower(k));
    }
  }

  lemma LeastIsPage(rows: Rows, cursor: string, k: string)
    requires k in EligibleSet(rows, cursor) && forall m :: m in EligibleSet(rows, cursor) ==> !Before(m, k)
    ensures IsServicePage(rows, cursor, 1, [Entry(k, rows[k])], EligibleSet(rows, cursor) != {k})
  {
    var page := [Entry(k, rows[k])];
    assert page[0].address == k;
    assert forall m :: Lists(page, m) <==> m == k;
    assert forall m :: Eligible(rows, cursor, m) <==> m in EligibleSet(rows, cursor);
    if EligibleSet(rows, cursor) != {k} {
      var m :| m in EligibleSet(rows, cursor) && m != k;
      assert Eligible(rows, cursor, m) && !Lists(page, m);
    }
  }

  /** Paging row by row always comes to an end. */
  lemma {:induction false} RowByRow(rows: Rows, cursor: string) returns (pages: seq<seq<Entry>>)
    requires "" !in rows
    ensures Walk(cursor, Unchanging(rows, |pages|), SingleRow(|pages|), pages)
    ensures forall p :: 0 <= p < |pages| ==> |pages[p]| <= 1
    decreases |EligibleSet(rows, cursor)|
  {
    var eligible := EligibleSet(rows, cursor);
    if eligible == {} {
      assert forall k :: Eligible(rows, cursor, k) ==> k in eligible;
      return [[]];
    }
    var k := LeastExists(eligible);
    var page := [Entry(k, rows[k])];
    LeastIsPage(rows, cursor, k);
    if eligible == {k} {
      pages := [page];
    } else {
      FewerAfter(rows, cursor, k);
      SubsetSmaller(EligibleSet(rows, k), eligible);
      var more := RowByRow(rows, k);
      pages := [page] + more;
      assert pages[1..] == more;
      assert Unchanging(rows, |pages|)[1..] == Unchanging(rows, |more|);
      assert SingleRow(|pages|)[1..] == SingleRow(|more|);
    }
  }

  lemma SubsetSmaller(a: set<string>, b: set<string>)
    requires a < b
    ensures |a| < |b|
  {
    assert b == a + (b - a);
    var x :| x in b - a;
  }

  /** Row by row, no two rows with the same address are both returned. */
  lemma {:induction false} RowByRowSkips(cursor: string, tables: seq<Rows>, limits: seq<nat>, pages: seq<seq<Entry>>, i: nat, j: nat)
    requires Walk(cursor, tables, limits, pages) && forall p :: 0 <= p < |pages| ==> |pages[p]| <= 1
    requires i < j < |Returned(pages)|
    ensures Before(Returned(pages)[i], Returned(pages)[j])
    decreases |pages|
  {
    var n := |pages[0]|;
    if i >= n {
      RowByRowSkips(NextCursor(pages[0]), tables[1..], limits[1..], pages[1..], i - n, j - n);
    } else {
      ReturnedOrdered(cursor, tables, limits, pages, i, j);
    }
  }

  ghost predicate EveryWalkComplete(rows: Rows) {
    forall limits: seq<nat>, pages :: Walk("", Unchanging(rows, |pages|), limits, pages) ==>
      forall k :: k in rows ==> k in Returned(pages)
  }

  /**
   * Even on an unchanging table, every walk returns every row if and only if no two
   * rows differ only in case: the cursor steps over the second of two such rows.
   */
  lemma CompleteIffCaseUnique(rows: Rows)
    requires "" !in rows
    ensures EveryWalkComplete(rows) <==> CaseUnique(rows)
  {
    if CaseUnique(rows) {
      forall limits: seq<nat>, pages, k | Walk("", Unchanging(rows, |pages|), limits, pages) && k in rows
        ensures k in Returned(pages)
      {
        WalkReaches("", Unchanging(rows, |pages|), limits, pages, k);
      }
    } else {
      var k, m :| k in rows && m in rows && SameAddress(k, m) && k != m;
      var pages := RowByRow(rows, "");
      var all := Returned(pages);
      LessIrreflexive(Lower(k));
      if k in all && m in all {
        var i :| 0 <= i < |all| && all[i] == k;
        var j :| 0 <= j < |all| && all[j] == m;
        RowByRowSkips("", Unchanging(rows, |pages|), SingleRow(|pages|), pages, if i < j then i else j, if i < j then j else i);
      }
    }
  }

  // ----- what adding and removing do to it

  /** After adding, exactly the added address, in any letter case, is whitelisted besides. */
  lemma AddedWhitelists(rows: Rows, address: string, note: string, b: string)
    requires TrimSpace(address) != ""
    ensures Whitelisted(Added(rows, address, note), b) <==> Whitelisted(rows, b) || SameAddress(TrimSpace(address), b)
  {
    var after := Added(rows, address, note);
    assert TrimSpace(address) in after;
    if Whitelisted(rows, b) {
      var k :| k in rows && SameAddress(k, b);
      assert k in after;
    }
  }

  /** After removing, exactly that address is not, in any letter case. */
  lemma RemovedBlacklists(rows: Rows, address: string, b: string)
    ensures Whitelisted(Removed(rows, address), b) <==> Whitelisted(rows, b) && !SameAddress(address, b)
  {
    if Whitelisted(rows, b) && !SameAddress(address, b) {
      var k :| k in rows && SameAddress(k, b);
      assert k in Removed(rows, address);
    }
  }

  /** A row keeps the note it was added with, unless that is blank; adding it again replaces the note. */
  lemma AddedKeepsNote(rows: Rows, address: string, note: string)
    requires Bare(address) && address != ""
    ensures var after := Added(rows, address, note);
            && address in after && (forall k :: k in rows && k != address ==> k in after && after[k] == rows[k])
            && (AllWhite(note) ==> after[address] == "")
            && (!AllWhite(note) ==> after[address] == note)
  {
    TrimSpaceIs([], address, []);
    assert [] + address + [] == address;
    BlankIff(note);
  }

  /** Any two casings of one address admit each other. */
  lemma AnyCasingAdmits(rows: Rows, a: Address, stored: Casing, asked: Casing, note: string)
    ensures Whitelisted(Added(rows, Hex(stored, a), note), Hex(asked, a))
    ensures !Whitelisted(Removed(rows, Hex(stored, a)), Hex(asked, a))
  {
    HexTrimmed(stored, a);
    SameRendering(a, stored, asked);
    AddedWhitelists(rows, Hex(stored, a), note, Hex(asked, a));
    RemovedBlacklists(rows, Hex(stored, a), Hex(asked, a));
  }

  /** Adding keeps addresses unique up to case if and only if no other spelling of the address is stored. */
  lemma AddKeepsCaseUniqueIff(rows: Rows, address: string, note: string)
    requires CaseUnique(rows) && TrimSpace(address) != ""
    ensures CaseUnique(Added(rows, address, note)) <==>
            forall k :: k in rows && SameAddress(k, TrimSpace(address)) ==> k == TrimSpace(address)
  {
    var a, after := TrimSpace(address), Added(rows, address, note);
    assert a in after;
    if k :| k in rows && SameAddress(k, a) && k != a {
      assert k in after;
    }
  }

  /** Requests to the service: the address given, or None when it is not a valid one. */
  datatype Request = AddRequest(address: Option<Address>, note: string) | RemoveRequest(address: Option<Address>)

  /** The service puts the address into its checksummed form first. */
  function Serve(casing: Casing, rows: Rows, req: Request): (r: Rows) {
    match req
    case AddRequest(Some(a), note) => Added(rows, Hex(casing, a), note)
    case RemoveRequest(Some(a)) => Removed(rows, Hex(casing, a))
    case _ => rows
  }

  function ServeAll(casing: Casing, rows: Rows, reqs: seq<Request>): (r: Rows) {
    if |reqs| == 0 then rows
    else Serve(casing, ServeAll(casing, rows, reqs[..|reqs| - 1]), reqs[|reqs| - 1])
  }

  lemma HexTrimmed(casing: Casing, a: Address)
    ensures TrimSpace(Hex(casing, a)) == Hex(casing, a)
  {
    assert Hex(casing, a)[39 + 2] == HexChar(a[39], casing(a, 39));
    NothingToTrim(Hex(casing, a));
  }

  /** The service: the gate the registration and eth-rpc facades consult, and the admin operations. */
  class Service {
    const store: Store
    const skip: bool
    const casing: Casing

    constructor (store: Store, skip: bool, casing: Casing)
      ensures this.store == store && this.skip == skip && this.casing == casing
    {
      this.store, this.skip, this.casing := store, skip, casing;
    }

    method IsWhitelisted(address: string) returns (allowed: bool)
      ensures allowed <==> skip || Whitelisted(store.rows, address)
    {
      if skip {
        return true;
      }
      allowed := store.IsWhitelisted(address);
    }

    method Add(address: Option<Address>, note: string) returns (ok: bool)
      modifies store
      ensures ok <==> address.Some?
      ensures store.rows == Serve(casing, old(store.rows), AddRequest(address, note))
      ensures ok ==> forall b :: Whitelisted(store.rows, b) <==>
                                 Whitelisted(old(store.rows), b) || SameAddress(Hex(casing, address.value), b)
    {
      if address.None? {
        return false;
      }
      var a := Hex(casing, address.value);
      HexTrimmed(casing, address.value);
      forall b
        ensures Whitelisted(Added(store.rows, a, note), b) <==> Whitelisted(store.rows, b) || SameAddress(a, b)
      {
        AddedWhitelists(store.rows, a, note, b);
      }
      ok := store.AddToWhitelist(a, note);
    }

    /** An address that was not whitelisted is reported, and nothing changes. */
    method Remove(address: Option<Address>) returns (ok: bool)
      modifies store
      ensures ok <==> address.Some? && Whitelisted(old(store.rows), Hex(casing, address.value))
      ensures store.rows == Serve(casing, old(store.rows), RemoveRequest(address))
      ensures address.Some? ==>
          forall b :: Whitelisted(store.rows, b) <==>
                      Whitelisted(old(store.rows), b) && !SameAddress(Hex(casing, address.value), b)
      ensures !ok ==> store.rows == old(store.rows)
    {
      if address.None? {
        return false;
      }
      var a := Hex(casing, address.value);
      ghost var before := store.rows;
      forall b ensures Whitelisted(Removed(before, a), b) <==> Whitelisted(before, b) && !SameAddress(a, b) {
        RemovedBlacklists(before, a, b);
      }
      ok := store.RemoveFromWhitelist(a);
      assert !ok ==> Removed(before, a) == before;
    }
  }

  lemma {:induction false} ServedAreRenderings(casing: Casing, rows: Rows, reqs: seq<Request>)
    requires Renderings(casing, rows.Keys)
    ensures Renderings(casing, ServeAll(casing, rows, reqs).Keys)
  {
    if |reqs| == 0 {
    } else {
      var req := reqs[|reqs| - 1];
      ServedAreRenderings(casing, rows, reqs[..|reqs| - 1]);
      if req.address.Some? {
        HexTrimmed(casing, req.address.value);
      }
    }
  }

  /** Through the service alone, starting from checksummed rows, the table stays such that every walk is complete. */
  lemma ServedWalksComplete(casing: Casing, rows: Rows, reqs: seq<Request>)
    requires Renderings(casing, rows.Keys)
    ensures CaseUnique(ServeAll(casing, rows, reqs)) && EveryWalkComplete(ServeAll(casing, rows, reqs))
  {
    var after := ServeAll(casing, rows, reqs);
    ServedAreRenderings(casing, rows, reqs);
    RenderingsCursorSafe(casing, after.Keys);
    CompleteIffCaseUnique(after);
  }

  /** Through the store, two spellings of one address are two rows, and some walk misses one of them. */
  lemma StoreMissesSpelling()
    ensures var rows := Added(Added(map[], "0xab", ""), "0xAB", "");
            rows.Keys == {"0xab", "0xAB"} && !EveryWalkComplete(rows)
  {
    TwoSpellings();
    var rows := Added(Added(map[], "0xab", ""), "0xAB", "");
    assert "0xab" in rows && "0xAB" in rows;
    CompleteIffCaseUnique(rows);
  }

  lemma TwoSpellings()
    ensures TrimSpace("0xab") == "0xab" && TrimSpace("0xAB") == "0xAB"
    ensures "0xab" != "0xAB" && SameAddress("0xab", "0xAB") && "0xab" != "" && "0xAB" != ""
  {
    assert "0xab"[2] != "0xAB"[2];
    LowerStep("0xab");
    LowerStep("xab");
    LowerStep("ab");
    LowerStep("b");
    LowerStep("0xAB");
    LowerStep("xAB");
    LowerStep("AB");
    LowerStep("B");
  }

  lemma LowerStep(s: string)
    requires |s| > 0
    ensures Lower(s) == [LowerChar(s[0])] + Lower(s[1..])
  {
  }
}
