/**
 * The paged list of supported tokens (pkg/token/service.go). A token is keyed by the
 * checksummed rendering of its contract address.
 */
module TokenPaging {
  import opened Arith
  import opened EvmAddress
  import opened Text
  import opened Wrappers

  datatype Token = Token(name: string, symbol: string, decimals: int)
  datatype TokenItem = TokenItem(address: string, name: string, symbol: string, decimals: int)
  datatype TokensPage = TokensPage(items: seq<TokenItem>, nextCursor: string, hasMore: bool)

  // ----- sorting

  ghost predicate Increasing(keys: seq<string>) {
    forall i, j :: 0 <= i < j < |keys| ==> Less(keys[i], keys[j])
  }

  /** `list` is `keys` in order. */
  ghost predicate SortedList(keys: set<string>, list: seq<string>) {
    Increasing(list) && forall k :: k in list <==> k in keys
  }

  lemma TailSorted(keys: set<string>, x: seq<string>)
    requires SortedList(keys, x) && x != []
    ensures x[0] in keys && SortedList(keys - {x[0]}, x[1..])
  {
    assert x[0] in x;
    forall k | 1 <= k < |x| ensures x[k] != x[0] {
      LessIrreflexive(x[0]);
    }
    forall a | a in keys - {x[0]} ensures a in x[1..] {
      var k :| 0 <= k < |x| && x[k] == a;
      assert x[1..][k - 1] == a;
    }
  }

  lemma SameLeast(keys: set<string>, x: seq<string>, y: seq<string>)
    requires SortedList(keys, x) && SortedList(keys, y) && x != [] && y != []
    ensures x[0] == y[0]
  {
    assert x[0] in x && y[0] in y;
    assert x[0] in y && y[0] in x;
    var i :| 0 <= i < |y| && y[i] == x[0];
    var j :| 0 <= j < |x| && x[j] == y[0];
    if i > 0 && j > 0 {
      LessTransitive(x[0], y[0], x[0]);
      LessIrreflexive(x[0]);
    }
  }

  lemma NonEmptyList(keys: set<string>, x: seq<string>)
    requires SortedList(keys, x) && |x| > 0
    ensures keys != {}
  {
    assert x[0] in x;
  }

  /** The sorted list is unique, so the order the map was iterated in does not show. */
  lemma {:induction false} SortedUnique(keys: set<string>, x: seq<string>, y: seq<string>)
    requires SortedList(keys, x) && SortedList(keys, y)
    ensures x == y && |x| == |keys|
    decreases |x|
  {
    if x == [] {
      assert forall k :: k !in x;
      assert keys == {};
      if |y| > 0 {
        NonEmptyList(keys, y);
      }
    } else {
      assert x[0] in x;
      SameLeast(keys, x, y);
      TailSorted(keys, x);
      TailSorted(keys, y);
      SortedUnique(keys - {x[0]}, x[1..], y[1..]);
      assert x == [x[0]] + x[1..] && y == [y[0]] + y[1..];
    }
  }

  lemma {:induction false} BelowInserted(list: seq<string>, a: string, i: nat, k: nat)
    requires Increasing(list) && a !in list && k < i <= |list| && !Less(a, list[i - 1])
    ensures Less(list[k], a)
  {
    var last := list[i - 1];
    LessTotal(last, a);
    if k < i - 1 {
      LessTransitive(list[k], last, a);
    }
  }

  lemma {:induction false} InsertedIncreasing(list: seq<string>, a: string, i: nat)
    requires Increasing(list) && i <= |list|
    requires forall k :: 0 <= k < i ==> Less(list[k], a)
    requires forall k :: i <= k < |list| ==> Less(a, list[k])
    ensures Increasing(list[..i] + [a] + list[i..])
  {
    var r := list[..i] + [a] + list[i..];
    assert forall p :: 0 <= p < |r| ==> r[p] == if p < i then list[p] else if p == i then a else list[p - 1];
  }

  /** Puts `a` where it belongs in a sorted list. */
  method Insert(list: seq<string>, a: string) returns (r: seq<string>)
    requires Increasing(list) && a !in list
    ensures Increasing(r) && forall x :: x in r <==> x in list || x == a
  {
    var i := |list|;
    while i > 0 && Less(a, list[i - 1])
      invariant 0 <= i <= |list|
      invariant forall k :: i <= k < |list| ==> Less(a, list[k])
    {
      i := i - 1;
    }
    forall k | 0 <= k < i ensures Less(list[k], a) {
      BelowInserted(list, a, i, k);
    }
    InsertedIncreasing(list, a, i);
    r := list[..i] + [a] + list[i..];
    assert list == list[..i] + list[i..];
  }

  /** Collects the map's keys, in whatever order it yields them, and sorts them. */
  method SortedKeys(keys: set<string>) returns (list: seq<string>)
    ensures SortedList(keys, list)
  {
    list := [];
    var rest := keys;
    while rest != {}
      invariant rest <= keys && Increasing(list)
      invariant forall a :: a in list <==> a in keys && a !in rest
      decreases |rest|
    {
      var a :| a in rest;
      rest := rest - {a};
      list := Insert(list, a);
    }
  }

  // ----- one page

  function ItemOf(tokens: map<string, Token>, a: string): (item: TokenItem)
    requires a in tokens
  {
    TokenItem(a, tokens[a].name, tokens[a].symbol, tokens[a].decimals)
  }

  /** The whole list that is paged through. */
  ghost predicate IsListing(tokens: map<string, Token>, list: seq<TokenItem>) {
    SortedList(tokens.Keys, AddressesOf(list)) && forall item :: item in list ==> item.address in tokens && item == ItemOf(tokens, item.address)
  }

  ghost function AddressesOf(list: seq<TokenItem>): (r: seq<string>)
    ensures |r| == |list| && forall i :: 0 <= i < |list| ==> r[i] == list[i].address
  {
    seq(|list|, i requires 0 <= i < |list| => list[i].address)
  }

  /** There is one listing, whatever order the map is iterated in. */
  lemma ListingUnique(tokens: map<string, Token>, x: seq<TokenItem>, y: seq<TokenItem>)
    requires IsListing(tokens, x) && IsListing(tokens, y)
    ensures x == y && |x| == |tokens|
  {
    SortedUnique(tokens.Keys, AddressesOf(x), AddressesOf(y));
    forall i | 0 <= i < |x| ensures x[i] == y[i] {
      assert x[i] in x && y[i] in y;
      assert AddressesOf(x)[i] == AddressesOf(y)[i];
    }
  }

  /** Every item shows the name, symbol and decimals configured for its address, in ascending order of addresses. */
  lemma ListingShows(tokens: map<string, Token>, list: seq<TokenItem>, i: nat)
    requires IsListing(tokens, list) && i < |list|
    ensures list[i].address in tokens
    ensures var token := tokens[list[i].address];
            list[i].name == token.name && list[i].symbol == token.symbol && list[i].decimals == token.decimals
    ensures i > 0 ==> Ascends(list[i - 1].address, list[i].address)
  {
    assert list[i] in list;
    if i > 0 {
      var addresses := AddressesOf(list);
      assert Less(addresses[i - 1], addresses[i]);
      LessIff(addresses[i - 1], addresses[i]);
    }
  }

  predicate Matches(address: string, cursor: string) {
    Lower(address) == Lower(cursor)
  }

  /** The position after the one the cursor names, if it names one. */
  function StartAfter(list: seq<string>, cursor: string): (start: Option<nat>)
    ensures start.Some? ==> start.value <= |list|
  {
    if list == [] then None
    else if Matches(list[0], cursor) then Some(1)
    else
      match StartAfter(list[1..], cursor)
      case None => None
      case Some(n) => Some(n + 1)
  }

  function Start(list: seq<string>, cursor: string): (start: Option<nat>)
    ensures start.Some? ==> start.value <= |list|
  {
    if cursor == "" then Some(0) else StartAfter(list, cursor)
  }

  function PageAt(list: seq<TokenItem>, start: nat, limit: nat): (page: TokensPage)
    requires start <= |list|
  {
    var end := Min(start + limit, |list|);
    var hasMore := start + limit < |list|;
    TokensPage(list[start..end], if hasMore && end > start then list[end - 1].address else "", hasMore)
  }

  lemma {:induction false} SkipUnmatched(list: seq<string>, cursor: string, i: nat)
    requires i <= |list| && forall k :: 0 <= k < i ==> !Matches(list[k], cursor)
    ensures StartAfter(list, cursor) == match StartAfter(list[i..], cursor) case None => None case Some(n) => Some(n + i)
    decreases i
  {
    if i == 0 {
      assert list[0..] == list;
    } else {
      SkipUnmatched(list[1..], cursor, i - 1);
      assert list[1..][i - 1..] == list[i..];
    }
  }

  /** The scan for the cursor: one past the matching address, or None. */
  method FindStart(list: seq<string>, cursor: string) returns (start: Option<nat>)
    ensures start == Start(list, cursor)
  {
    if cursor == "" {
      return Some(0);
    }
    for i := 0 to |list|
      invariant forall k :: 0 <= k < i ==> !Matches(list[k], cursor)
    {
      if Lower(list[i]) == Lower(cursor) {
        SkipUnmatched(list, cursor, i);
        return Some(i + 1);
      }
    }
    SkipUnmatched(list, cursor, |list|);
    start := None;
  }

  ghost function PageAfter(list: seq<TokenItem>, cursor: string, limit: nat): (r: Option<TokensPage>) {
    match Start(AddressesOf(list), cursor)
    case None => None
    case Some(start) => Some(PageAt(list, start, limit))
  }

  /** GetSupportedTokens: None when the cursor names no supported token. */
  method GetSupportedTokens(tokens: map<string, Token>, cursor: string, limit: nat)
    returns (r: Option<TokensPage>)
    ensures exists list :: IsListing(tokens, list) && r == PageAfter(list, cursor, limit)
  {
    var sorted := SortedKeys(tokens.Keys);
    ghost var list := ListingOf(tokens, sorted);
    var found := FindStart(sorted, cursor);
    if found.None? {
      return None;
    }
    var page := BuildPage(tokens, sorted, found.value, limit, list);
    r := Some(page);
  }

  method BuildPage(tokens: map<string, Token>, sorted: seq<string>, start: nat, limit: nat, ghost list: seq<TokenItem>)
    returns (page: TokensPage)
    requires start <= |sorted| == |list|
    requires forall i :: 0 <= i < |sorted| ==> sorted[i] in tokens && list[i] == ItemOf(tokens, sorted[i])
    ensures page == PageAt(list, start, limit)
  {
    var end := start + limit;
    var hasMore := end < |sorted|;
    if end > |sorted| {
      end := |sorted|;
    }
    var items: seq<TokenItem> := [];
    for i := start to end
      invariant items == list[start..i]
    {
      items := items + [ItemOf(tokens, sorted[i])];
    }
    var nextCursor := "";
    if hasMore && |items| > 0 {
      nextCursor := items[|items| - 1].address;
    }
    page := TokensPage(items, nextCursor, hasMore);
  }

  ghost function ListingOf(tokens: map<string, Token>, sorted: seq<string>): (list: seq<TokenItem>)
    requires SortedList(tokens.Keys, sorted)
    ensures |list| == |sorted| && forall i :: 0 <= i < |sorted| ==> sorted[i] in tokens && list[i] == ItemOf(tokens, sorted[i])
    ensures AddressesOf(list) == sorted && IsListing(tokens, list)
  {
    assert forall i :: 0 <= i < |sorted| ==> sorted[i] in tokens;
    seq(|sorted|, i requires 0 <= i < |sorted| => ItemOf(tokens, sorted[i]))
  }

  // ----- following the cursor

  /** A cursor taken from the list, in any letter case, is found where it was taken. */
  lemma {:induction false} CursorFound(list: seq<string>, i: nat, cursor: string)
    requires i < |list| && Matches(list[i], cursor)
    requires forall k :: 0 <= k < i ==> !Matches(list[k], cursor)
    ensures StartAfter(list, cursor) == Some(i + 1)
  {
    SkipUnmatched(list, cursor, i);
  }

  /** A cursor is found in any casing of its address. */
  lemma {:induction false} CursorAnyCase(list: seq<string>, a: Address, one: Casing, other: Casing)
    ensures StartAfter(list, Hex(one, a)) == StartAfter(list, Hex(other, a))
  {
    SameRendering(a, one, other);
    if list == [] {
    } else {
      CursorAnyCase(list[1..], a, one, other);
    }
  }

  /** A non-empty cursor is rejected exactly when it matches no supported token's address. */
  lemma {:induction false} CursorRejectedIff(list: seq<string>, cursor: string)
    ensures StartAfter(list, cursor).None? <==> forall a :: a in list ==> !Matches(a, cursor)
  {
    if list != [] && !Matches(list[0], cursor) {
      CursorRejectedIff(list[1..], cursor);
    }
  }

  /** No position's address matches an earlier one's, and none is empty. */
  ghost predicate Pageable(list: seq<TokenItem>) {
    forall i, k :: 0 <= k < i < |list| ==> list[i].address != "" && !Matches(list[k].address, list[i].address)
  }

  lemma ListingPageable(tokens: map<string, Token>, list: seq<TokenItem>)
    requires IsListing(tokens, list) && CursorSafe(tokens.Keys)
    ensures Pageable(list)
    ensures forall item :: item in list ==> item.address != ""
  {
    var addrs := AddressesOf(list);
    forall i, k | 0 <= k < i < |list| ensures list[i].address != "" && !Matches(list[k].address, list[i].address) {
      assert addrs[i] in addrs && addrs[k] in addrs && Less(addrs[k], addrs[i]);
      LessIrreflexive(addrs[k]);
    }
  }

  /** Calls with the cursor each page hands out, until one reports no more; `limits` are the calls' limits. */
  ghost predicate Walk(list: seq<TokenItem>, cursor: string, limits: seq<nat>, pages: seq<TokensPage>)
    decreases |pages|
  {
    && |limits| == |pages| > 0 && limits[0] >= 1
    && Start(AddressesOf(list), cursor).Some?
    && pages[0] == PageAt(list, Start(AddressesOf(list), cursor).value, limits[0])
    && pages[0].hasMore == (|pages| > 1)
    && (|pages| > 1 ==> Walk(list, pages[0].nextCursor, limits[1..], pages[1..]))
  }

  ghost function Listed(pages: seq<TokensPage>): (items: seq<TokenItem>) {
    if pages == [] then [] else pages[0].items + Listed(pages[1..])
  }

  lemma NextStart(list: seq<TokenItem>, start: nat, limit: nat)
    requires Pageable(list) && list != [] && list[0].address != "" && limit >= 1 && start + limit < |list|
    ensures Start(AddressesOf(list), PageAt(list, start, limit).nextCursor) == Some(start + limit)
  {
    var last := start + limit - 1;
    CursorFound(AddressesOf(list), last, list[last].address);
  }

  /** The same calls by position: each page starts where the one before ended. */
  ghost predicate WalkAt(list: seq<TokenItem>, start: nat, limits: seq<nat>, pages: seq<TokensPage>)
    decreases |pages|
  {
    && |limits| == |pages| > 0 && limits[0] >= 1 && start <= |list|
    && pages[0] == PageAt(list, start, limits[0])
    && pages[0].hasMore == (|pages| > 1)
    && (|pages| > 1 ==> WalkAt(list, start + limits[0], limits[1..], pages[1..]))
  }

  lemma {:induction false} CursorsArePositions(
      list: seq<TokenItem>, cursor: string, start: nat, limits: seq<nat>, pages: seq<TokensPage>)
    requires Pageable(list) && (list != [] ==> list[0].address != "") && Start(AddressesOf(list), cursor) == Some(start)
    ensures Walk(list, cursor, limits, pages) <==> WalkAt(list, start, limits, pages)
    decreases |pages|
  {
    if |limits| == |pages| > 1 && limits[0] >= 1 && pages[0] == PageAt(list, start, limits[0]) && pages[0].hasMore {
      NextStart(list, start, limits[0]);
      CursorsArePositions(list, pages[0].nextCursor, start + limits[0], limits[1..], pages[1..]);
    }
  }

  lemma {:induction false} WalkAtLists(list: seq<TokenItem>, start: nat, limits: seq<nat>, pages: seq<TokensPage>)
    requires WalkAt(list, start, limits, pages)
    ensures Listed(pages) == list[start..]
    ensures |pages| <= Max(1, |list| - start)
    decreases |pages|
  {
    if |pages| == 1 {
      assert Listed(pages) == pages[0].items + Listed([]);
    } else {
      WalkAtLists(list, start + limits[0], limits[1..], pages[1..]);
      SplitTail(list, start, start + limits[0]);
    }
  }

  lemma SplitTail(list: seq<TokenItem>, start: nat, end: nat)
    requires start <= end <= |list|
    ensures list[start..end] + list[end..] == list[start..]
  {
  }

  /**
   * Following the cursors from the empty one, with any limits, lists every supported
   * token exactly once, in address order, in at most as many calls as there are tokens.
   */
  lemma {:induction false} WalkListsAll(
      casing: Casing, tokens: map<string, Token>, list: seq<TokenItem>, limits: seq<nat>, pages: seq<TokensPage>)
    requires Renderings(casing, tokens.Keys) && IsListing(tokens, list) && Walk(list, "", limits, pages)
    ensures Listed(pages) == list
    ensures |pages| <= Max(1, |tokens|)
  {
    assert WalkAt(list, 0, limits, pages) by {
      RenderingsCursorSafe(casing, tokens.Keys);
      ListingPageable(tokens, list);
      CursorsArePositions(list, "", 0, limits, pages);
    }
    WalkAtLists(list, 0, limits, pages);
    ListingUnique(tokens, list, list);
  }

  lemma {:induction false} WalkAtExists(list: seq<TokenItem>, start: nat, pick: nat -> nat, call: nat)
    returns (limits: seq<nat>, pages: seq<TokensPage>)
    requires start <= |list| && forall k :: pick(k) >= 1
    ensures WalkAt(list, start, limits, pages)
    ensures forall k :: 0 <= k < |limits| ==> limits[k] == pick(call + k)
    decreases |list| - start
  {
    var limit := pick(call);
    var page := PageAt(list, start, limit);
    limits, pages := [limit], [page];
    if page.hasMore {
      var moreLimits, morePages := WalkAtExists(list, start + limit, pick, call + 1);
      limits, pages := limits + moreLimits, pages + morePages;
      assert limits[1..] == moreLimits && pages[1..] == morePages;
    }
  }

  /** And such a walk exists for whatever limits the caller picks. */
  lemma WalkExists(casing: Casing, tokens: map<string, Token>, list: seq<TokenItem>, pick: nat -> nat)
    returns (limits: seq<nat>, pages: seq<TokensPage>)
    requires Renderings(casing, tokens.Keys) && IsListing(tokens, list) && forall k :: pick(k) >= 1
    ensures Walk(list, "", limits, pages)
    ensures forall k :: 0 <= k < |limits| ==> limits[k] == pick(k)
  {
    RenderingsCursorSafe(casing, tokens.Keys);
    ListingPageable(tokens, list);
    limits, pages := WalkAtExists(list, 0, pick, 0);
    CursorsArePositions(list, "", 0, limits, pages);
  }
}
