/**
 * Event-based reconciliation (pkg/reconciler/reconciler.go) over its PostgreSQL store
 * (pkg/reconciler/store/pg.go): mint and burn events are replayed into the
 * bridge_events table and the fingerprint balances.
 */
module BridgeEvents {
  import opened Seqs
  import opened Text
  import opened Tokens
  import opened Wrappers

  datatype Event = Event(
    contractId: string, fromParty: string, toParty: string, fingerprint: string, instrumentId: string, amount: real)

  predicate IsMint(e: Event) {
    e.fromParty == ""
  }

  predicate IsBurn(e: Event) {
    e.fromParty != "" && e.toParty == ""
  }

  /** A balance row: a fingerprint with its 0x prefix, and an upper-case token symbol. */
  type Account = (string, string)

  type Balances = map<Account, real>

  function BareFingerprint(fingerprint: string): (fp: string) {
    var trimmed := TrimSpace(fingerprint);
    if "0x" <= trimmed then trimmed[2..] else trimmed
  }

  function SymbolOf(instrumentId: string): (s: string) {
    if TrimSpace(instrumentId) == "" then PROMPT else Key(instrumentId)
  }

  function AccountOf(e: Event): (a: Account) {
    ("0x" + BareFingerprint(e.fingerprint), SymbolOf(e.instrumentId))
  }

  /** A mint or burn the store takes: without a fingerprint its transaction is rolled back. */
  predicate Storable(e: Event) {
    (IsMint(e) || IsBurn(e)) && BareFingerprint(e.fingerprint) != ""
  }

  /**
   * The balance upsert. On an existing row a mint is added and a burn subtracted; a
   * missing row is inserted with the event's amount, whichever it is.
   */
  function Post(balances: Balances, e: Event): (r: Balances) {
    var a := AccountOf(e);
    if a in balances then balances[a := if IsMint(e) then balances[a] + e.amount else balances[a] - e.amount]
    else balances[a := e.amount]
  }

  function PostAll(balances: Balances, events: seq<Event>): (r: Balances) {
    if |events| == 0 then balances
    else Post(PostAll(balances, events[..|events| - 1]), events[|events| - 1])
  }

  predicate HasId(rows: seq<Event>, id: string) {
    exists i :: 0 <= i < |rows| && rows[i].contractId == id
  }

  ghost predicate DistinctIds(rows: seq<Event>) {
    forall i, j :: 0 <= i < j < |rows| ==> rows[i].contractId != rows[j].contractId
  }

  /** The rows a failure-free pass over `events` adds to a table that holds `rows`. */
  function Missing(rows: seq<Event>, events: seq<Event>): (added: seq<Event>) {
    if |events| == 0 then []
    else
      var added := Missing(rows, events[..|events| - 1]);
      var e := events[|events| - 1];
      if Storable(e) && !HasId(rows + added, e.contractId) then added + [e] else added
  }

  function Mints(rows: seq<Event>): (n: nat) {
    if |rows| == 0 then 0 else Mints(rows[..|rows| - 1]) + if IsMint(rows[|rows| - 1]) then 1 else 0
  }

  // ----- the store

  datatype StoreResult = Stored | AlreadyThere | NoFingerprint | Failed

  class Store {
    var rows: seq<Event>
    var balances: Balances
    var processed: nat
    ghost var failed: nat   // calls that failed

    constructor ()
      ensures rows == [] && balances == map[] && processed == 0 && failed == 0
    {
      rows, balances, processed, failed := [], map[], 0, 0;
    }

    /** The event table has one row per contract id, and the counter counts them. */
    ghost predicate Valid()
      reads this
    {
      DistinctIds(rows) && processed == |rows| && forall i :: 0 <= i < |rows| ==> Storable(rows[i])
    }

    method IsEventProcessed(id: string) returns (r: Option<bool>)
      modifies this`failed
      ensures r.Some? ==> r.value == HasId(rows, id)
      ensures failed == old(failed) + if r.None? then 1 else 0
    {
      var fails: bool := *;
      if fails {
        failed := failed + 1;
        return None;
      }
      r := Some(HasId(rows, id));
    }

    /** One transaction: all of it happens or none of it. */
    method StoreTokenTransferEvent(e: Event) returns (r: StoreResult)
      requires Valid()
      modifies this
      ensures Valid()
      ensures r == Stored ==> Storable(e) && !HasId(old(rows), e.contractId)
      ensures r == NoFingerprint ==> !Storable(e)
      ensures r == AlreadyThere ==> HasId(old(rows), e.contractId) || !(IsMint(e) || IsBurn(e))
      ensures if r == Stored then rows == old(rows) + [e] && balances == Post(old(balances), e)
              else rows == old(rows) && balances == old(balances)
      ensures failed == old(failed) + if r == Failed then 1 else 0
    {
      if !IsMint(e) && !IsBurn(e) {
        return AlreadyThere;
      }
      var fails: bool := *;
      if fails {
        failed := failed + 1;
        return Failed;
      }
      if HasId(rows, e.contractId) {
        return AlreadyThere;
      }
      if BareFingerprint(e.fingerprint) == "" {
        return NoFingerprint;
      }
      rows, balances, processed := rows + [e], Post(balances, e), processed + 1;
      r := Stored;
    }

    method ResetBalancesByTokenSymbol(symbol: string) returns (ok: bool)
      modifies this
      ensures rows == old(rows) && processed == old(processed)
      ensures balances == if ok then Zeroed(old(balances), symbol) else old(balances)
      ensures failed == old(failed) + if ok then 0 else 1
    {
      ok := *;
      if ok {
        balances := Zeroed(balances, symbol);
      } else {
        failed := failed + 1;
      }
    }

    method ClearBridgeEvents() returns (ok: bool)
      modifies this
      ensures balances == old(balances)
      ensures if ok then rows == [] && processed == 0 else rows == old(rows) && processed == old(processed)
      ensures failed == old(failed) + if ok then 0 else 1
    {
      ok := *;
      if ok {
        rows, processed := [], 0;
      } else {
        failed := failed + 1;
      }
    }
  }

  function Zeroed(balances: Balances, symbol: string): (r: Balances) {
    map a | a in balances :: if a.1 == symbol then 0.0 else balances[a]
  }

  // ----- one pass over the events

  /** `after` is `before` with some storable events of the list added, each posted exactly once. */
  ghost predicate Replayed(
      before: seq<Event>, start: Balances, events: seq<Event>, after: seq<Event>, balances: Balances)
  {
    && before <= after
    && balances == PostAll(start, after[|before|..])
    && forall i :: |before| <= i < |after| ==> after[i] in events && Storable(after[i])
  }

  lemma ReplayedSkips(before: seq<Event>, start: Balances, events: seq<Event>, after: seq<Event>, balances: Balances, e: Event)
    requires Replayed(before, start, events, after, balances)
    ensures Replayed(before, start, events + [e], after, balances)
  {
  }

  lemma ReplayedStores(before: seq<Event>, start: Balances, events: seq<Event>, after: seq<Event>, balances: Balances, e: Event)
    requires Replayed(before, start, events, after, balances) && Storable(e)
    ensures Replayed(before, start, events + [e], after + [e], Post(balances, e))
  {
    var added := after[|before|..];
    assert (after + [e])[|before|..] == added + [e];
    assert (added + [e])[..|added|] == added;
  }

  lemma {:induction false} MissingExtends(rows: seq<Event>, events: seq<Event>, e: Event)
    ensures Missing(rows, events + [e])
            == Missing(rows, events) + if Storable(e) && !HasId(rows + Missing(rows, events), e.contractId) then [e] else []
  {
    assert (events + [e])[..|events|] == events;
  }

  /** The table and balances once the first events of the list are done. */
  ghost predicate Progress(
      before: seq<Event>, start: Balances, events: seq<Event>, after: seq<Event>, balances: Balances, failures: nat)
  {
    && Replayed(before, start, events, after, balances)
    && (failures == 0 ==> after == before + Missing(before, events))
  }

  lemma ProgressSkips(
      before: seq<Event>, start: Balances, events: seq<Event>, after: seq<Event>, balances: Balances, failures: nat, e: Event, failed: nat)
    requires Progress(before, start, events, after, balances, failures)
    requires failed == 0 ==> !Storable(e) || HasId(after, e.contractId)
    ensures Progress(before, start, events + [e], after, balances, failures + failed)
  {
    ReplayedSkips(before, start, events, after, balances, e);
    MissingExtends(before, events, e);
    assert Missing(before, events) + [] == Missing(before, events);
  }

  lemma ProgressStores(
      before: seq<Event>, start: Balances, events: seq<Event>, after: seq<Event>, balances: Balances, failures: nat, e: Event)
    requires Progress(before, start, events, after, balances, failures)
    requires Storable(e) && !HasId(after, e.contractId)
    ensures Progress(before, start, events + [e], after + [e], Post(balances, e), failures)
  {
    ReplayedStores(before, start, events, after, balances, e);
    MissingExtends(before, events, e);
    assert before + (Missing(before, events) + [e]) == (before + Missing(before, events)) + [e];
  }

  lemma ProgressStarts(before: seq<Event>, start: Balances, done: seq<Event>)
    requires |done| == 0
    ensures Progress(before, start, done, before, start, 0)
  {
    assert before + Missing(before, done) == before;
  }

  /** The two counts of a pass. */
  ghost predicate Counted(before: seq<Event>, rows: seq<Event>, mints: nat, burns: nat) {
    mints == Mints(rows) - Mints(before) && mints + burns == |rows| - |before|
  }

  lemma CountedStores(before: seq<Event>, rows: seq<Event>, mints: nat, burns: nat, e: Event)
    requires Counted(before, rows, mints, burns)
    ensures if IsMint(e) then Counted(before, rows + [e], mints + 1, burns)
            else Counted(before, rows + [e], mints, burns + 1)
  {
    assert (rows + [e])[..|rows|] == rows;
  }

  /**
   * ReconcileFromBridgeEvents; None stands for a failed fetch. `failures` counts the
   * store calls that failed; an event without a fingerprint is passed over as well.
   */
  method ReconcileFromBridgeEvents(events: Option<seq<Event>>, store: Store)
    returns (ok: bool, mints: nat, burns: nat, failures: nat)
    requires store.Valid()
    modifies store
    ensures store.Valid() && ok == events.Some? && store.failed == old(store.failed) + failures
    ensures !ok ==> store.rows == old(store.rows) && store.balances == old(store.balances)
    ensures ok ==> Replayed(old(store.rows), old(store.balances), events.value, store.rows, store.balances)
    ensures ok && failures == 0 ==> store.rows == old(store.rows) + Missing(old(store.rows), events.value)
    ensures ok ==> mints == Mints(store.rows) - Mints(old(store.rows)) && mints + burns == |store.rows| - |old(store.rows)|
  {
    if events.None? {
      return false, 0, 0, 0;
    }
    mints, burns, failures := ReplayEvents(events.value, store);
    ok := true;
  }

  /** Its loop over the fetched events. */
  method ReplayEvents(events: seq<Event>, store: Store) returns (mints: nat, burns: nat, failures: nat)
    requires store.Valid()
    modifies store
    ensures store.Valid() && store.failed == old(store.failed) + failures
    ensures Progress(old(store.rows), old(store.balances), events, store.rows, store.balances, failures)
    ensures Counted(old(store.rows), store.rows, mints, burns)
  {
    mints, burns, failures := 0, 0, 0;
    ghost var before, start, done := store.rows, store.balances, events[..0];
    ProgressStarts(before, start, done);
    for i := 0 to |events|
      invariant store.Valid() && store.failed == old(store.failed) + failures && done == events[..i]
      invariant Progress(before, start, done, store.rows, store.balances, failures)
      invariant Counted(before, store.rows, mints, burns)
    {
      var e := events[i];
      TakeNext(events, i, done, e);
      ghost var rows, balances := store.rows, store.balances;
      var r := ProcessEvent(e, store);
      if r == Stored {
        ProgressStores(before, start, done, rows, balances, failures, e);
        CountedStores(before, rows, mints, burns, e);
        if IsMint(e) {
          mints := mints + 1;
        } else {
          burns := burns + 1;
        }
      } else {
        var failed := if r == Failed then 1 else 0;
        ProgressSkips(before, start, done, rows, balances, failures, e, failed);
        failures := failures + failed;
      }
      done := done + [e];
    }
    assert done == events;
  }

  /** The loop body: skip transfers and processed events, store the rest. */
  method ProcessEvent(e: Event, store: Store) returns (r: StoreResult)
    requires store.Valid()
    modifies store
    ensures store.Valid()
    ensures r == Stored ==> Storable(e) && !HasId(old(store.rows), e.contractId)
    ensures if r == Stored then store.rows == old(store.rows) + [e] && store.balances == Post(old(store.balances), e)
            else store.rows == old(store.rows) && store.balances == old(store.balances)
    ensures r != Failed ==> (r == Stored <==> Storable(e) && !HasId(old(store.rows), e.contractId))
    ensures store.failed == old(store.failed) + if r == Failed then 1 else 0
  {
    if !IsMint(e) && !IsBurn(e) {
      return AlreadyThere;
    }
    var seen := store.IsEventProcessed(e.contractId);
    if seen.None? {
      return Failed;
    }
    if seen.value {
      return AlreadyThere;
    }
    r := store.StoreTokenTransferEvent(e);
  }

  /** FullBalanceReconciliation: reset, clear, replay. */
  method FullBalanceReconciliation(events: Option<seq<Event>>, store: Store) returns (ok: bool, failures: nat)
    requires store.Valid()
    modifies store
    ensures store.Valid()
    ensures ok <==> events.Some? && store.failed == old(store.failed) + failures
    ensures !ok ==>
        || (store.rows == old(store.rows) && store.balances == old(store.balances))
        || (store.rows in {old(store.rows), []} && store.balances == Zeroed(old(store.balances), PROMPT))
    ensures ok ==> Replayed([], Zeroed(old(store.balances), PROMPT), events.value, store.rows, store.balances)
    ensures ok && failures == 0 ==>
        store.rows == Missing([], events.value) && store.balances == PostAll(Zeroed(old(store.balances), PROMPT), store.rows)
  {
    failures := 0;
    var reset := store.ResetBalancesByTokenSymbol(PROMPT);
    if !reset {
      return false, 0;
    }
    var cleared := store.ClearBridgeEvents();
    if !cleared {
      return false, 0;
    }
    var mints, burns;
    ok, mints, burns, failures := ReconcileFromBridgeEvents(events, store);
    if ok && failures == 0 {
      assert store.rows[0..] == store.rows && [] + Missing([], events.value) == Missing([], events.value);
    }
  }

  // ----- which events end up in the table

  lemma HasIdConcat(a: seq<Event>, b: seq<Event>, id: string)
    ensures HasId(a + b, id) <==> HasId(a, id) || HasId(b, id)
  {
    if HasId(a, id) {
      var i :| 0 <= i < |a| && a[i].contractId == id;
      assert (a + b)[i].contractId == id;
    }
    if HasId(b, id) {
      var i :| 0 <= i < |b| && b[i].contractId == id;
      assert (a + b)[|a| + i].contractId == id;
    }
  }

  ghost predicate ListsStorable(events: seq<Event>, id: string) {
    exists i :: 0 <= i < |events| && Storable(events[i]) && events[i].contractId == id
  }

  lemma ListsStorableExtends(events: seq<Event>, e: Event, id: string)
    ensures ListsStorable(events + [e], id) <==> ListsStorable(events, id) || (Storable(e) && e.contractId == id)
  {
    var all := events + [e];
    assert all[|events|] == e;
    if ListsStorable(events, id) {
      var i :| 0 <= i < |events| && Storable(events[i]) && events[i].contractId == id;
      assert all[i] == events[i];
    }
  }

  /** After a failure-free pass the table holds exactly its old ids and those of the listed storable events. */
  lemma {:induction false} MissingIds(rows: seq<Event>, events: seq<Event>, id: string)
    ensures HasId(rows + Missing(rows, events), id) <==> HasId(rows, id) || ListsStorable(events, id)
    decreases |events|
  {
    if events == [] {
      assert rows + [] == rows;
    } else {
      var init, e := events[..|events| - 1], events[|events| - 1];
      assert events == init + [e];
      MissingIds(rows, init, id);
      MissingIds(rows, init, e.contractId);
      ListsStorableExtends(init, e, id);
      var added := Missing(rows, init);
      assert rows + (added + [e]) == (rows + added) + [e];
      HasIdConcat(rows + added, [e], id);
      assert [e][0] == e;
    }
  }

  /** A mint or burn id of the list is in the table after a full reconciliation exactly when the event has a fingerprint. */
  lemma {:induction false} FullReconciliationIds(events: seq<Event>, id: string)
    ensures HasId(Missing([], events), id) <==> ListsStorable(events, id)
  {
    MissingIds([], events, id);
    assert [] + Missing([], events) == Missing([], events);
  }

  /** A second failure-free pass over the same events adds nothing. */
  lemma {:induction false} ReplayIdempotent(rows: seq<Event>, events: seq<Event>)
    requires forall id :: ListsStorable(events, id) ==> HasId(rows, id)
    ensures Missing(rows, events) == []
    decreases |events|
  {
    if events == [] {
    } else {
      var init, e := events[..|events| - 1], events[|events| - 1];
      forall id | ListsStorable(init, id) ensures HasId(rows, id) {
        ListsStorableExtends(init, e, id);
        assert init + [e] == events;
      }
      ReplayIdempotent(rows, init);
      ListsStorableExtends(init, e, e.contractId);
      assert init + [e] == events && rows + [] == rows;
    }
  }

  /** Two passes in a row, over lists that may overlap, add up to one pass over both. */
  lemma {:induction false} PassesCompose(rows: seq<Event>, first: seq<Event>, second: seq<Event>)
    ensures var after := rows + Missing(rows, first);
            after + Missing(after, second) == rows + Missing(rows, first + second)
    decreases |second|
  {
    var after := rows + Missing(rows, first);
    if second == [] {
      assert first + second == first && after + [] == after;
    } else {
      var init, e := second[..|second| - 1], second[|second| - 1];
      PassesCompose(rows, first, init);
      assert second == init + [e] && first + second == (first + init) + [e];
      AddNext(after, init, e);
      AddNext(rows, first + init, e);
    }
  }

  /** The table after one more event of a pass. */
  lemma {:induction false} AddNext(rows: seq<Event>, events: seq<Event>, e: Event)
    ensures var table := rows + Missing(rows, events);
            rows + Missing(rows, events + [e]) == if Storable(e) && !HasId(table, e.contractId) then table + [e] else table
  {
    MissingExtends(rows, events, e);
    var added := Missing(rows, events);
    assert rows + (added + [e]) == (rows + added) + [e];
    assert added + [] == added;
  }

  // ----- what the balances add up to

  function Signed(e: Event): (v: real) {
    if IsMint(e) then e.amount else -e.amount
  }

  /** Credits minus debits of an account. */
  function Net(events: seq<Event>, a: Account): (v: real) {
    if |events| == 0 then 0.0
    else
      var e := events[|events| - 1];
      Net(events[..|events| - 1], a) + if AccountOf(e) == a then Signed(e) else 0.0
  }

  /** What an event adds beyond its signed amount when it opens the row: nothing for a mint, twice the amount for a burn. */
  function Opening(e: Event): (v: real) {
    if IsMint(e) then 0.0 else 2.0 * e.amount
  }

  /** The same for the first event of an account. */
  function OpeningError(events: seq<Event>, a: Account): (v: real) {
    if |events| == 0 then 0.0
    else if AccountOf(events[0]) == a then Opening(events[0])
    else OpeningError(events[1..], a)
  }

  ghost predicate Touches(events: seq<Event>, a: Account) {
    exists i :: 0 <= i < |events| && AccountOf(events[i]) == a
  }

  lemma {:induction false} OpeningErrorExtends(events: seq<Event>, e: Event, a: Account)
    ensures Touches(events, a) ==> OpeningError(events + [e], a) == OpeningError(events, a)
    ensures !Touches(events, a) ==> OpeningError(events, a) == 0.0
    ensures !Touches(events, a) ==>
        OpeningError(events + [e], a) == if AccountOf(e) == a then Opening(e) else 0.0
  {
    if |events| == 0 {
      assert |(events + [e])[1..]| == 0;
    } else {
      ConcatHead(events, [e]);
      TouchesFirst(events, a);
      OpeningErrorExtends(events[1..], e, a);
    }
  }

  lemma TouchesFirst(events: seq<Event>, a: Account)
    requires |events| > 0
    ensures Touches(events, a) <==> AccountOf(events[0]) == a || Touches(events[1..], a)
  {
    if Touches(events, a) && AccountOf(events[0]) != a {
      var i :| 0 <= i < |events| && AccountOf(events[i]) == a;
      assert events[1..][i - 1] == events[i];
    }
    if Touches(events[1..], a) {
      var i :| 0 <= i < |events[1..]| && AccountOf(events[1..][i]) == a;
      assert events[i + 1] == events[1..][i];
    }
  }

  lemma TouchesExtends(events: seq<Event>, e: Event, a: Account)
    ensures Touches(events + [e], a) <==> Touches(events, a) || AccountOf(e) == a
  {
    var all := events + [e];
    assert all[|events|] == e;
    if Touches(events, a) {
      var i :| 0 <= i < |events| && AccountOf(events[i]) == a;
      assert all[i] == events[i];
    }
  }

  /**
   * The replayed balance of any account: its row before, plus credits minus debits;
   * and, if it had no row, twice the first event's amount when that is a burn.
   */
  lemma {:induction false} PostedBalance(start: Balances, events: seq<Event>, a: Account)
    ensures a in PostAll(start, events) <==> a in start || Touches(events, a)
    ensures a in start ==> PostAll(start, events)[a] == start[a] + Net(events, a)
    ensures a !in start && Touches(events, a) ==> PostAll(start, events)[a] == Net(events, a) + OpeningError(events, a)
    ensures !Touches(events, a) ==> Net(events, a) == 0.0
    decreases |events|
  {
    if events == [] {
    } else {
      var init, e := events[..|events| - 1], events[|events| - 1];
      assert events == init + [e];
      PostedBalance(start, init, a);
      PostAt(PostAll(start, init), e, a);
      TouchesExtends(init, e, a);
      OpeningErrorExtends(init, e, a);
    }
  }

  /** What posting one event does to one account. */
  lemma PostAt(balances: Balances, e: Event, a: Account)
    ensures a in Post(balances, e) <==> a in balances || AccountOf(e) == a
    ensures a in balances ==> Post(balances, e)[a] == balances[a] + if AccountOf(e) == a then Signed(e) else 0.0
    ensures a !in balances && AccountOf(e) == a ==>
        Post(balances, e)[a] == Signed(e) + Opening(e)
  {
  }

  // ----- which row an event reaches, and what it does there

  /** The text is `fp`, possibly with "0x" in front and white space around it. */
  ghost predicate Fingerprints(text: string, fp: string) {
    exists pre, core, suf :: Around(text, pre, core, suf) && (core == fp || core == "0x" + fp)
  }

  /** A fingerprint on its own: no white space around it and no "0x" in front. */
  ghost predicate BareKey(fp: string) {
    |fp| > 0 && Bare(fp) && !("0x" <= fp)
  }

  lemma BareFingerprintIs(text: string, fp: string)
    requires BareKey(fp) && Fingerprints(text, fp)
    ensures BareFingerprint(text) == fp
  {
    var pre, core, suf :| Around(text, pre, core, suf) && (core == fp || core == "0x" + fp);
    if core == "0x" + fp {
      assert core[0] == '0' && core[|core| - 1] == fp[|fp| - 1] && core[2..] == fp;
    }
    TrimSpaceIs(pre, core, suf);
  }

  /** The symbol an instrument is booked under: PROMPT for a blank one, else in capitals. */
  ghost predicate BookedUnder(instrument: string, symbol: string) {
    exists pre, t, suf :: Around(instrument, pre, t, suf) && Bare(t) &&
      if |t| == 0 then symbol == "PROMPT" else IsCapitalised(t, symbol)
  }

  lemma SymbolIs(instrument: string, symbol: string)
    requires BookedUnder(instrument, symbol)
    ensures SymbolOf(instrument) == symbol
  {
    var pre, t, suf :| Around(instrument, pre, t, suf) && Bare(t) &&
      if |t| == 0 then symbol == "PROMPT" else IsCapitalised(t, symbol);
    TrimSpaceIs(pre, t, suf);
    if |t| > 0 {
      assert Around(instrument, pre, t, suf);
      KeyIs(instrument, t, symbol);
    }
  }

  /**
   * An event is posted to the row of its fingerprint with "0x" in front and its symbol. There
   * an event from nobody is added and any other subtracted; a missing row is opened with the
   * amount; and no other row changes.
   */
  lemma PostsToRow(balances: Balances, e: Event, fp: string, symbol: string)
    requires BareKey(fp) && Fingerprints(e.fingerprint, fp) && BookedUnder(e.instrumentId, symbol)
    ensures var row, after := ("0x" + fp, symbol), Post(balances, e);
            && (row in balances && e.fromParty == "" ==> after == balances[row := balances[row] + e.amount])
            && (row in balances && e.fromParty != "" ==> after == balances[row := balances[row] - e.amount])
            && (row !in balances ==> after == balances[row := e.amount])
  {
    AccountIs(e, fp, symbol);
    PostsAt(balances, e, AccountOf(e));
  }

  lemma AccountIs(e: Event, fp: string, symbol: string)
    requires BareKey(fp) && Fingerprints(e.fingerprint, fp) && BookedUnder(e.instrumentId, symbol)
    ensures AccountOf(e) == ("0x" + fp, symbol)
  {
    BareFingerprintIs(e.fingerprint, fp);
    SymbolIs(e.instrumentId, symbol);
  }

  lemma PostsAt(balances: Balances, e: Event, row: Account)
    requires AccountOf(e) == row
    ensures row in balances && e.fromParty == "" ==> Post(balances, e) == balances[row := balances[row] + e.amount]
    ensures row in balances && e.fromParty != "" ==> Post(balances, e) == balances[row := balances[row] - e.amount]
    ensures row !in balances ==> Post(balances, e) == balances[row := e.amount]
  {
  }

  /** The store takes exactly the events from nobody or to nobody that have a fingerprint. */
  lemma StorableIff(e: Event, fp: string)
    requires Fingerprints(e.fingerprint, fp) && (BareKey(fp) || fp == "")
    ensures Storable(e) <==> (e.fromParty == "" || e.toParty == "") && fp != ""
  {
    if fp != "" {
      BareFingerprintIs(e.fingerprint, fp);
    } else {
      NoFingerprintIs(e.fingerprint);
    }
  }

  lemma NoFingerprintIs(text: string)
    requires Fingerprints(text, "")
    ensures BareFingerprint(text) == ""
  {
    var pre, core, suf :| Around(text, pre, core, suf) && (core == "" || core == "0x" + "");
    TrimSpaceIs(pre, core, suf);
  }

  /** The mint of 5 and the burn of 4 for fingerprint ab, no instrument given. */
  lemma MintForAb(id: string, party: string)
    ensures Post(map[], Event(id, "", party, "ab", "", 5.0)) == map[("0xab", "PROMPT") := 5.0]
    ensures Post(map[("0xab", "PROMPT") := 10.0], Event(id, "", party, "ab", "", 5.0)) == map[("0xab", "PROMPT") := 15.0]
    ensures party != "" ==>
        Post(map[("0xab", "PROMPT") := 10.0], Event(id, party, "", "ab", "", 4.0)) == map[("0xab", "PROMPT") := 6.0]
  {
    RowOfAb(Event(id, "", party, "ab", "", 5.0));
    RowOfAb(Event(id, party, "", "ab", "", 4.0));
    PostsAt(map[], Event(id, "", party, "ab", "", 5.0), ("0xab", "PROMPT"));
    PostsAt(map[("0xab", "PROMPT") := 10.0], Event(id, "", party, "ab", "", 5.0), ("0xab", "PROMPT"));
    PostsAt(map[("0xab", "PROMPT") := 10.0], Event(id, party, "", "ab", "", 4.0), ("0xab", "PROMPT"));
  }

  lemma RowOfAb(e: Event)
    requires e.fingerprint == "ab" && e.instrumentId == ""
    ensures AccountOf(e) == ("0xab", "PROMPT")
  {
    assert "0x" + "ab" == "0xab";
    assert Around("ab", "", "ab", "") && Around("", "", "", "");
    AccountIs(e, "ab", "PROMPT");
  }

  /** Every balance row equals the credits minus debits of the replayed events. */
  ghost predicate BalancesMatch(events: seq<Event>, balances: Balances) {
    forall a :: a in balances ==> balances[a] == Net(events, a)
  }

  /** What has to hold beforehand: no balance outside PROMPT, and no account opened by a burn. */
  ghost predicate CleanSlate(prior: Balances, events: seq<Event>) {
    && (forall a :: a in prior && a.1 != PROMPT ==> prior[a] == 0.0)
    && (forall a :: a !in prior && Touches(events, a) ==> OpeningError(events, a) == 0.0)
  }

  /**
   * A full reconciliation rebuilds every balance from the events if and only if the
   * slate was clean: only PROMPT rows are reset, while events of every token are
   * replayed, and a burn that opens a row is inserted with a positive amount.
   */
  lemma {:induction false} FullReconciliationExactIff(prior: Balances, events: seq<Event>)
    ensures BalancesMatch(events, PostAll(Zeroed(prior, PROMPT), events)) <==> CleanSlate(prior, events)
  {
    var start := Zeroed(prior, PROMPT);
    var after := PostAll(start, events);
    forall a ensures a in after <==> a in prior || Touches(events, a) {
      PostedBalance(start, events, a);
    }
    forall a | a in after
      ensures after[a] == Net(events, a) <==>
              if a in prior then a.1 == PROMPT || prior[a] == 0.0 else OpeningError(events, a) == 0.0
    {
      PostedBalance(start, events, a);
    }
  }

  /** On an empty table, a list with one burn: the row opens with plus the burned amount. */
  lemma BurnOpensRow(b: Event)
    requires IsBurn(b) && b.amount > 0.0
    ensures var after := PostAll(Zeroed(map[], PROMPT), [b]);
            after == map[AccountOf(b) := b.amount] && Net([b], AccountOf(b)) == -b.amount
    ensures !BalancesMatch([b], PostAll(Zeroed(map[], PROMPT), [b])) && !CleanSlate(map[], [b])
  {
    var a := AccountOf(b);
    PostAllOne(Zeroed(map[], PROMPT), b);
    NetOne(b, a);
    FullReconciliationExactIff(map[], [b]);
  }

  lemma PostAllOne(balances: Balances, e: Event)
    ensures PostAll(balances, [e]) == Post(balances, e)
  {
    var events := [e];
    assert |events[..|events| - 1]| == 0;
  }

  lemma NetOne(e: Event, a: Account)
    ensures Net([e], a) == if AccountOf(e) == a then Signed(e) else 0.0
  {
    var events := [e];
    assert |events[..|events| - 1]| == 0;
  }

  /** Full reconciliations accumulate: a second one counts every event of another token twice. */
  lemma {:induction false} SecondReconciliationDoubles(events: seq<Event>, a: Account)
    requires a.1 != PROMPT && Touches(events, a) && OpeningError(events, a) == 0.0
    ensures var once := PostAll(map[], events);
            var twice := PostAll(Zeroed(once, PROMPT), events);
            a in once && a in twice && once[a] == Net(events, a) && twice[a] == 2.0 * Net(events, a)
  {
    PostedBalance(map[], events, a);
    PostedBalance(Zeroed(PostAll(map[], events), PROMPT), events, a);
  }

  // ----- passes that fail and are repeated

  lemma {:induction false} PostAllConcat(start: Balances, a: seq<Event>, b: seq<Event>)
    ensures PostAll(PostAll(start, a), b) == PostAll(start, a + b)
    decreases |b|
  {
    if |b| == 0 {
      assert a + b == a;
    } else {
      PostAllConcat(start, a, b[..|b| - 1]);
      ConcatInit(a, b);
    }
  }

  /** Two passes, each with any failures and over lists that may overlap, are one such pass over both lists. */
  lemma ReplayedThen(
      before: seq<Event>, start: Balances, first: seq<Event>, mid: seq<Event>, between: Balances,
      second: seq<Event>, after: seq<Event>, balances: Balances)
    requires Replayed(before, start, first, mid, between) && Replayed(mid, between, second, after, balances)
    ensures Replayed(before, start, first + second, after, balances)
  {
    PostAllConcat(start, mid[|before|..], after[|mid|..]);
    SuffixThroughPrefix(after, mid, |before|);
    forall i | |before| <= i < |after| ensures after[i] in first + second && Storable(after[i]) {
      if i < |mid| {
        assert after[i] == mid[i];
      }
    }
  }

  /** A pass over a longer list may store no more than one over the shorter. */
  lemma ReplayedWithin(
      before: seq<Event>, start: Balances, events: seq<Event>, all: seq<Event>, after: seq<Event>, balances: Balances)
    requires Replayed(before, start, events, after, balances) && forall e :: e in events ==> e in all
    ensures Replayed(before, start, all, after, balances)
  {
  }

  /** One pass: the list it was given, and the table and balances after it. */
  datatype Pass = Pass(events: seq<Event>, rows: seq<Event>, balances: Balances)

  ghost predicate Passes(before: seq<Event>, start: Balances, passes: seq<Pass>)
    decreases |passes|
  {
    |passes| > 0 ==>
      && Replayed(before, start, passes[0].events, passes[0].rows, passes[0].balances)
      && Passes(passes[0].rows, passes[0].balances, passes[1..])
  }

  /** The lists of all passes, one after the other. */
  function Listed(passes: seq<Pass>): (events: seq<Event>) {
    if |passes| == 0 then [] else passes[0].events + Listed(passes[1..])
  }

  /**
   * However many passes fail part of the way, and whatever list each was given, every row is
   * posted exactly once.
   */
  lemma {:induction false} PassesReplay(before: seq<Event>, start: Balances, passes: seq<Pass>)
    requires |passes| > 0 && Passes(before, start, passes)
    ensures var last := passes[|passes| - 1]; Replayed(before, start, Listed(passes), last.rows, last.balances)
    decreases |passes|
  {
    var first, last, rest := passes[0], passes[|passes| - 1], passes[1..];
    if |passes| == 1 {
      ReplayedWithin(before, start, first.events, Listed(passes), last.rows, last.balances);
    } else {
      PassesReplay(first.rows, first.balances, rest);
      ReplayedThen(before, start, first.events, first.rows, first.balances, Listed(rest), last.rows, last.balances);
    }
  }

  /** An event of the list that the table still lacks. */
  ghost predicate Lacks(rows: seq<Event>, events: seq<Event>, e: Event) {
    e in events && Storable(e) && !HasId(rows, e.contractId)
  }

  /** A contract id names one event: an event may be listed twice, but not two events under one id. */
  ghost predicate IdsNameEvents(events: seq<Event>) {
    forall e, f :: e in events && f in events && e.contractId == f.contractId ==> e == f
  }

  lemma DistinctAdded(rows: seq<Event>, added: seq<Event>, e: Event)
    requires DistinctIds(rows + added) && e in added
    ensures !HasId(rows, e.contractId)
  {
    var all := rows + added;
    var j :| 0 <= j < |added| && added[j] == e;
    assert all[|rows| + j] == e;
    forall i | 0 <= i < |rows| ensures rows[i].contractId != e.contractId {
      assert all[i] == rows[i];
    }
  }

  /** If the ids of the list name its events, a table whose new rows come from it and cover it has added exactly what was lacking. */
  lemma AddedIsLacking(rows: seq<Event>, events: seq<Event>, added: seq<Event>, e: Event)
    requires IdsNameEvents(events) && DistinctIds(rows + added)
    requires forall f :: f in added ==> f in events && Storable(f)
    requires forall id :: ListsStorable(events, id) ==> HasId(rows + added, id)
    ensures e in added <==> Lacks(rows, events, e)
  {
    if e in added {
      DistinctAdded(rows, added, e);
    }
    if Lacks(rows, events, e) {
      var i :| 0 <= i < |events| && events[i] == e;
      assert ListsStorable(events, e.contractId);
      HasIdConcat(rows, added, e.contractId);
      var j :| 0 <= j < |added| && added[j].contractId == e.contractId;
      assert added[j] in events && e in events;
    }
  }

  lemma {:induction false} OccursOnce(rows: seq<Event>, e: Event)
    requires DistinctIds(rows)
    ensures multiset(rows)[e] == if e in rows then 1 else 0
  {
    if e in rows {
      var i :| 0 <= i < |rows| && rows[i] == e;
      assert rows == rows[..i] + [e] + rows[i + 1..];
      assert e !in rows[..i] && e !in rows[i + 1..];
    }
  }

  lemma SameRows(a: seq<Event>, b: seq<Event>)
    requires DistinctIds(a) && DistinctIds(b) && forall e :: e in a <==> e in b
    ensures multiset(a) == multiset(b)
  {
    forall e ensures multiset(a)[e] == multiset(b)[e] {
      OccursOnce(a, e);
      OccursOnce(b, e);
    }
  }

  lemma {:induction false} NetConcat(a: seq<Event>, b: seq<Event>, acct: Account)
    ensures Net(a + b, acct) == Net(a, acct) + Net(b, acct)
    decreases |b|
  {
    if |b| == 0 {
      assert a + b == a;
    } else {
      NetConcat(a, b[..|b| - 1], acct);
      ConcatInit(a, b);
    }
  }

  /** Credits minus debits do not depend on the order of the rows. */
  lemma {:induction false} NetOrderIrrelevant(a: seq<Event>, b: seq<Event>, acct: Account)
    requires multiset(a) == multiset(b)
    ensures Net(a, acct) == Net(b, acct)
    decreases |a|
  {
    if |a| == 0 {
      assert |multiset(b)| == 0;
    } else {
      var init, e := a[..|a| - 1], a[|a| - 1];
      assert a == init + [e];
      assert e in multiset(b);
      var i :| 0 <= i < |b| && b[i] == e;
      var pre, suf := b[..i], b[i + 1..];
      assert b == pre + [e] + suf;
      SameRest(init, e, pre, suf);
      NetOrderIrrelevant(init, pre + suf, acct);
      NetConcat(pre, suf, acct);
      NetConcat(pre + [e], suf, acct);
      NetConcat(pre, [e], acct);
      NetConcat(init, [e], acct);
    }
  }

  lemma {:induction false} MissingMembers(rows: seq<Event>, events: seq<Event>)
    requires DistinctIds(rows)
    ensures DistinctIds(rows + Missing(rows, events))
    ensures forall e :: e in Missing(rows, events) ==> e in events && Storable(e)
    decreases |events|
  {
    if |events| == 0 {
      assert rows + [] == rows;
    } else {
      var init, e := events[..|events| - 1], events[|events| - 1];
      MissingMembers(rows, init);
      assert events == init + [e];
      AddNext(rows, init, e);
      MissingExtends(rows, init, e);
      if Storable(e) && !HasId(rows + Missing(rows, init), e.contractId) {
        DistinctNext(rows + Missing(rows, init), e);
      }
    }
  }

  lemma DistinctNext(rows: seq<Event>, e: Event)
    requires DistinctIds(rows) && !HasId(rows, e.contractId)
    ensures DistinctIds(rows + [e])
  {
  }

  lemma DistinctSuffix(rows: seq<Event>, added: seq<Event>)
    requires DistinctIds(rows + added)
    ensures DistinctIds(added)
  {
    var all := rows + added;
    forall i, j | 0 <= i < j < |added| ensures added[i].contractId != added[j].contractId {
      assert all[|rows| + i] == added[i] && all[|rows| + j] == added[j];
    }
  }

  /** New rows that come from the list and cover it are, in some order, those a failure-free pass would have added. */
  lemma CompleteIsMissing(before: seq<Event>, events: seq<Event>, added: seq<Event>)
    requires IdsNameEvents(events) && DistinctIds(before) && DistinctIds(before + added)
    requires forall f :: f in added ==> f in events && Storable(f)
    requires forall id :: ListsStorable(events, id) ==> HasId(before + added, id)
    ensures multiset(added) == multiset(Missing(before, events))
  {
    var clean := Missing(before, events);
    MissingMembers(before, events);
    forall id | ListsStorable(events, id) ensures HasId(before + clean, id) {
      MissingIds(before, events, id);
    }
    forall e ensures e in added <==> e in clean {
      AddedIsLacking(before, events, added, e);
      AddedIsLacking(before, events, clean, e);
    }
    DistinctSuffix(before, added);
    DistinctSuffix(before, clean);
    SameRows(added, clean);
  }

  /** What any number of failed passes over the list may have left: some of its rows, posted. */
  ghost predicate Attempt(before: seq<Event>, start: Balances, events: seq<Event>, mid: seq<Event>, between: Balances) {
    Replayed(before, start, events, mid, between) && DistinctIds(mid)
  }

  /** The rows added in all once a failure-free pass follows. */
  ghost function AddedInAll(before: seq<Event>, mid: seq<Event>, events: seq<Event>): (added: seq<Event>)
    requires before <= mid
  {
    mid[|before|..] + Missing(mid, events)
  }

  /**
   * Repeated passes converge: once a failure-free pass follows, the rows added in all are
   * those one failure-free pass would have added, and the balances are those rows posted.
   */
  lemma RetriesConverge(before: seq<Event>, start: Balances, events: seq<Event>, mid: seq<Event>, between: Balances)
    requires IdsNameEvents(events) && DistinctIds(before) && Attempt(before, start, events, mid, between)
    ensures var added := AddedInAll(before, mid, events);
            && mid + Missing(mid, events) == before + added
            && multiset(added) == multiset(Missing(before, events))
            && PostAll(between, Missing(mid, events)) == PostAll(start, added)
  {
    var more := Missing(mid, events);
    var added := AddedInAll(before, mid, events);
    assert mid + more == before + added;
    MissingMembers(mid, events);
    forall id | ListsStorable(events, id) ensures HasId(before + added, id) {
      MissingIds(mid, events, id);
    }
    forall f | f in added ensures f in events && Storable(f) {
      if f in mid[|before|..] {
        var i :| 0 <= i < |mid[|before|..]| && mid[|before|..][i] == f;
        assert mid[|before| + i] == f;
      }
    }
    CompleteIsMissing(before, events, added);
    PostAllConcat(start, mid[|before|..], more);
  }

  ghost predicate SameBalance(x: Balances, y: Balances, a: Account) {
    (a in x <==> a in y) && (a in x ==> x[a] == y[a])
  }

  /** Whatever failed before, the balance of `a` ends as one failure-free pass would have left it. */
  ghost predicate Converges(before: seq<Event>, start: Balances, events: seq<Event>, a: Account) {
    forall mid, between :: Attempt(before, start, events, mid, between) ==>
      SameBalance(PostAll(between, Missing(mid, events)), PostAll(start, Missing(before, events)), a)
  }

  /** Any two lacking events of the account would open its row with the same error. */
  ghost predicate OpeningsAgree(before: seq<Event>, events: seq<Event>, a: Account) {
    forall e, f :: Lacks(before, events, e) && Lacks(before, events, f) && AccountOf(e) == a && AccountOf(f) == a ==>
      Opening(e) == Opening(f)
  }

  /**
   * The balance of an account converges, whatever failed before, if and only if it had a row
   * or every lacking event of it would open the row alike: otherwise the figure depends on
   * which event was stored first.
   */
  lemma RetriesConvergeIff(before: seq<Event>, start: Balances, events: seq<Event>, a: Account)
    requires IdsNameEvents(events) && DistinctIds(before)
    ensures Converges(before, start, events, a) <==> a in start || OpeningsAgree(before, events, a)
  {
    if a in start || OpeningsAgree(before, events, a) {
      forall mid, between | Attempt(before, start, events, mid, between)
        ensures SameBalance(PostAll(between, Missing(mid, events)), PostAll(start, Missing(before, events)), a)
      {
        AgreeingConverges(before, start, events, mid, between, a);
      }
    } else {
      DisagreeingDiverges(before, start, events, a);
    }
  }

  lemma {:induction false} OpenedBy(events: seq<Event>, a: Account) returns (e: Event)
    requires Touches(events, a)
    ensures e in events && AccountOf(e) == a && OpeningError(events, a) == Opening(e)
    decreases |events|
  {
    if AccountOf(events[0]) == a {
      e := events[0];
    } else {
      TouchesFirst(events, a);
      e := OpenedBy(events[1..], a);
    }
  }

  lemma TouchesSame(x: seq<Event>, y: seq<Event>, a: Account)
    requires multiset(x) == multiset(y) && Touches(x, a)
    ensures Touches(y, a)
  {
    var i :| 0 <= i < |x| && AccountOf(x[i]) == a;
    assert x[i] in multiset(y);
    var j :| 0 <= j < |y| && y[j] == x[i];
  }

  /** Two orders of the same rows leave an account alike exactly when it had a row, or opens alike. */
  lemma OrderShows(start: Balances, x: seq<Event>, y: seq<Event>, a: Account)
    requires multiset(x) == multiset(y)
    ensures SameBalance(PostAll(start, x), PostAll(start, y), a) <==>
            a in start || !Touches(y, a) || OpeningError(x, a) == OpeningError(y, a)
  {
    if Touches(x, a) {
      TouchesSame(x, y, a);
    }
    if Touches(y, a) {
      TouchesSame(y, x, a);
    }
    PostedBalance(start, x, a);
    PostedBalance(start, y, a);
    NetOrderIrrelevant(x, y, a);
  }

  /** What a failure-free pass adds is what the table lacks. */
  lemma MissingIsLacking(before: seq<Event>, events: seq<Event>, e: Event)
    requires IdsNameEvents(events) && DistinctIds(before)
    ensures e in Missing(before, events) <==> Lacks(before, events, e)
  {
    MissingMembers(before, events);
    forall id | ListsStorable(events, id) ensures HasId(before + Missing(before, events), id) {
      MissingIds(before, events, id);
    }
    AddedIsLacking(before, events, Missing(before, events), e);
  }

  lemma AgreeingConverges(
      before: seq<Event>, start: Balances, events: seq<Event>, mid: seq<Event>, between: Balances, a: Account)
    requires IdsNameEvents(events) && DistinctIds(before) && Attempt(before, start, events, mid, between)
    requires a in start || OpeningsAgree(before, events, a)
    ensures SameBalance(PostAll(between, Missing(mid, events)), PostAll(start, Missing(before, events)), a)
  {
    var added, clean := AddedInAll(before, mid, events), Missing(before, events);
    RetriesConverge(before, start, events, mid, between);
    OrderShows(start, added, clean, a);
    if a !in start && Touches(clean, a) {
      TouchesSame(clean, added, a);
      var e := OpenedBy(added, a);
      var f := OpenedBy(clean, a);
      assert e in multiset(clean);
      MissingIsLacking(before, events, e);
      MissingIsLacking(before, events, f);
    }
  }

  /** One lacking event stored while every other call failed. */
  lemma StoredAlone(before: seq<Event>, start: Balances, events: seq<Event>, e: Event)
    requires DistinctIds(before) && Lacks(before, events, e)
    ensures Attempt(before, start, events, before + [e], Post(start, e))
    ensures OpeningError(AddedInAll(before, before + [e], events), AccountOf(e)) == Opening(e)
  {
    var mid := before + [e];
    DistinctNext(before, e);
    assert mid[|before|..] == [e];
    PostAllOne(start, e);
  }

  lemma RetryShows(
      before: seq<Event>, start: Balances, events: seq<Event>, mid: seq<Event>, between: Balances, a: Account)
    requires IdsNameEvents(events) && DistinctIds(before) && Attempt(before, start, events, mid, between)
    ensures Converges(before, start, events, a) && a !in start && Touches(Missing(before, events), a) ==>
        OpeningError(AddedInAll(before, mid, events), a) == OpeningError(Missing(before, events), a)
  {
    RetriesConverge(before, start, events, mid, between);
    OrderShows(start, AddedInAll(before, mid, events), Missing(before, events), a);
  }

  lemma StoredFirstDiverges(before: seq<Event>, start: Balances, events: seq<Event>, x: Event)
    requires IdsNameEvents(events) && DistinctIds(before) && Lacks(before, events, x) && AccountOf(x) !in start
    requires Opening(x) != OpeningError(Missing(before, events), AccountOf(x))
    ensures !Converges(before, start, events, AccountOf(x))
  {
    StoredAlone(before, start, events, x);
    MissingIsLacking(before, events, x);
    var i :| 0 <= i < |Missing(before, events)| && Missing(before, events)[i] == x;
    RetryShows(before, start, events, before + [x], Post(start, x), AccountOf(x));
  }

  lemma DisagreeingDiverges(before: seq<Event>, start: Balances, events: seq<Event>, a: Account)
    requires IdsNameEvents(events) && DistinctIds(before)
    requires a !in start && !OpeningsAgree(before, events, a)
    ensures !Converges(before, start, events, a)
  {
    var e, f :| Lacks(before, events, e) && Lacks(before, events, f) && AccountOf(e) == a && AccountOf(f) == a &&
                Opening(e) != Opening(f);
    StoredFirstDiverges(before, start, events, if Opening(e) != OpeningError(Missing(before, events), a) then e else f);
  }

  /** What a pass over two events adds. */
  lemma MissingPair(rows: seq<Event>, m: Event, b: Event)
    requires Storable(m) && Storable(b) && m.contractId != b.contractId
    ensures var mIsNew, bIsNew := !HasId(rows, m.contractId), !HasId(rows, b.contractId);
            Missing(rows, [m, b]) == (if mIsNew then [m] else []) + (if bIsNew then [b] else [])
  {
    assert [m, b] == [m] + [b] && [] + [m] == [m] && rows + [] == rows;
    MissingExtends(rows, [], m);
    MissingExtends(rows, [m], b);
    HasIdConcat(rows, [m], b.contractId);
  }

  lemma PostAllPair(balances: Balances, x: Event, y: Event)
    ensures PostAll(balances, [x, y]) == Post(Post(balances, x), y)
  {
    assert [x] + [y] == [x, y];
    PostAllConcat(balances, [x], [y]);
    PostAllOne(balances, x);
    PostAllOne(Post(balances, x), y);
  }

  /**
   * A mint and a burn on an account without a row. One pass leaves the mint less the burn; if
   * storing the mint first fails and the pass is repeated, the row holds their sum.
   */
  lemma MintFailsOnce(before: seq<Event>, start: Balances, m: Event, b: Event)
    requires Storable(m) && Storable(b) && IsMint(m) && IsBurn(b) && m.contractId != b.contractId
    requires DistinctIds(before) && !HasId(before, m.contractId) && !HasId(before, b.contractId)
    requires AccountOf(m) == AccountOf(b) && AccountOf(m) !in start
    ensures var a, events := AccountOf(m), [m, b];
            && PostAll(start, Missing(before, events)) == start[a := m.amount - b.amount]
            && Attempt(before, start, events, before + [b], start[a := b.amount])
            && PostAll(start[a := b.amount], Missing(before + [b], events)) == start[a := m.amount + b.amount]
  {
    MissingOther(before, m, b);
    PostedPair(start, m, b, AccountOf(m));
    StoredAlone(before, start, [m, b], b);
  }

  /** Both are missing at first; once the burn is stored, only the mint is. */
  lemma MissingOther(before: seq<Event>, m: Event, b: Event)
    requires Storable(m) && Storable(b) && m.contractId != b.contractId
    requires !HasId(before, m.contractId) && !HasId(before, b.contractId)
    ensures Missing(before, [m, b]) == [m, b] && Missing(before + [b], [m, b]) == [m]
  {
    var mid := before + [b];
    assert mid[|before|] == b;
    HasIdConcat(before, [b], m.contractId);
    MissingPair(before, m, b);
    MissingPair(mid, m, b);
  }

  lemma PostedPair(start: Balances, m: Event, b: Event, a: Account)
    requires IsMint(m) && IsBurn(b) && AccountOf(m) == a && AccountOf(b) == a && a !in start
    ensures PostAll(start, [m, b]) == start[a := m.amount - b.amount] && Post(start, b) == start[a := b.amount]
    ensures PostAll(start[a := b.amount], [m]) == start[a := m.amount + b.amount]
  {
    PostAllPair(start, m, b);
    PostAllOne(start[a := b.amount], m);
  }

  /** At a mint of 5 and a burn of 3 into an empty table: 2, or 8 after one failure. */
  lemma FiveAndThree(m: Event, b: Event)
    requires Storable(m) && Storable(b) && IsMint(m) && IsBurn(b) && m.contractId != b.contractId
    requires AccountOf(m) == AccountOf(b) && m.amount == 5.0 && b.amount == 3.0
    ensures var a, events := AccountOf(m), [m, b];
            && PostAll(map[], Missing([], events)) == map[a := 2.0]
            && Attempt([], map[], events, [b], map[a := 3.0])
            && PostAll(map[a := 3.0], Missing([b], events)) == map[a := 8.0]
  {
    MintFailsOnce([], map[], m, b);
    assert [] + [b] == [b];
  }
}
