/**
 * Reconciliation from holdings (pkg/reconciler/reconciler.go): total supply and party
 * balances are two groupings of the same holdings. Amounts are exact decimals; an
 * amount that does not parse, the empty one included, is None.
 */
module Holdings {
  import opened Seqs
  import opened Text
  import opened Tokens
  import opened Wrappers

  datatype Holding = Holding(owner: string, symbol: string, amount: Option<real>)

  /** The symbol a holding counts toward in the supply. */
  function SupplyLabel(h: Holding): (s: string) {
    if h.symbol == "" then UNKNOWN else h.symbol
  }

  /** The symbol it counts toward in its owner's balances. */
  function BalanceLabel(h: Holding): (s: string) {
    if h.symbol == "" then PROMPT else h.symbol
  }

  type Selector = Holding -> bool

  /** The sum of the parsable amounts a selector picks. */
  function Sum(hs: seq<Holding>, sel: Selector): (total: real) {
    if |hs| == 0 then 0.0
    else
      var h := hs[|hs| - 1];
      Sum(hs[..|hs| - 1], sel) + if sel(h) && h.amount.Some? then h.amount.value else 0.0
  }

  function InSupply(symbol: string): (sel: Selector) {
    (h: Holding) => SupplyLabel(h) == symbol
  }

  function InBalance(party: string, symbol: string): (sel: Selector) {
    (h: Holding) => h.owner != "" && h.owner == party && BalanceLabel(h) == symbol
  }

  function Supply(hs: seq<Holding>, symbol: string): (total: real) {
    Sum(hs, InSupply(symbol))
  }

  function Balance(hs: seq<Holding>, party: string, symbol: string): (total: real) {
    Sum(hs, InBalance(party, symbol))
  }

  /** The symbols that have a supply, and the parties and symbols that have a balance. */
  function SupplySymbols(hs: seq<Holding>): (symbols: set<string>) {
    set h | h in hs && h.amount.Some? :: SupplyLabel(h)
  }

  function Parties(hs: seq<Holding>): (parties: set<string>) {
    set h | h in hs && h.amount.Some? && h.owner != "" :: h.owner
  }

  function PartySymbols(hs: seq<Holding>, party: string): (symbols: set<string>) {
    set h | h in hs && h.amount.Some? && h.owner != "" && h.owner == party :: BalanceLabel(h)
  }

  /** What a holding counts toward: its symbol, or UNKNOWN in the supply and PROMPT in the balances if it has none. */
  lemma CountsToward(h: Holding, party: string, symbol: string)
    ensures InSupply(symbol)(h) <==> (h.symbol != "" && h.symbol == symbol) || (h.symbol == "" && symbol == "UNKNOWN")
    ensures InBalance(party, symbol)(h) <==>
            h.owner != "" && h.owner == party
            && ((h.symbol != "" && h.symbol == symbol) || (h.symbol == "" && symbol == "PROMPT"))
  {
  }

  /** A holding of 7 without a symbol. */
  lemma UnlabelledSeven(owner: string)
    requires owner != ""
    ensures var hs := [Holding(owner, "", Some(7.0))];
            Supply(hs, "UNKNOWN") == 7.0 && Supply(hs, "PROMPT") == 0.0
            && Balance(hs, owner, "PROMPT") == 7.0 && Balance(hs, owner, "UNKNOWN") == 0.0
  {
    var h := Holding(owner, "", Some(7.0));
    CountsToward(h, owner, "UNKNOWN");
    CountsToward(h, owner, "PROMPT");
    SumOfOne(h, InSupply("UNKNOWN"));
    SumOfOne(h, InSupply("PROMPT"));
    SumOfOne(h, InBalance(owner, "PROMPT"));
    SumOfOne(h, InBalance(owner, "UNKNOWN"));
    assert "UNKNOWN"[0] != "PROMPT"[0];
  }

  lemma SumOfOne(h: Holding, sel: Selector)
    ensures Sum([h], sel) == if sel(h) && h.amount.Some? then h.amount.value else 0.0
  {
    assert |[h][..0]| == 0;
  }

  // ----- the two accumulation loops

  lemma SymbolsExtend(hs: seq<Holding>, h: Holding, party: string)
    ensures SupplySymbols(hs + [h]) == SupplySymbols(hs) + if h.amount.Some? then {SupplyLabel(h)} else {}
    ensures Parties(hs + [h]) == Parties(hs) + if h.amount.Some? && h.owner != "" then {h.owner} else {}
    ensures PartySymbols(hs + [h], party)
            == PartySymbols(hs, party) + if h.amount.Some? && h.owner != "" && h.owner == party then {BalanceLabel(h)} else {}
  {
    assert forall x :: x in hs + [h] <==> x in hs || x == h;
  }

  lemma {:induction false} SumExtends(hs: seq<Holding>, h: Holding, sel: Selector)
    ensures Sum(hs + [h], sel) == Sum(hs, sel) + if sel(h) && h.amount.Some? then h.amount.value else 0.0
  {
    assert (hs + [h])[..|hs|] == hs;
  }

  /** A symbol no parsable holding carries has nothing in its sum. */
  lemma {:induction false} SumOfNone(hs: seq<Holding>, sel: Selector)
    requires forall h :: h in hs && h.amount.Some? ==> !sel(h)
    ensures Sum(hs, sel) == 0.0
  {
    if hs == [] {
    } else {
      SumOfNone(hs[..|hs| - 1], sel);
    }
  }

  ghost predicate IsSupply(hs: seq<Holding>, supply: map<string, real>) {
    && supply.Keys == SupplySymbols(hs)
    && forall s :: s in supply ==> supply[s] == Supply(hs, s)
  }

  /** A missing row counts as zero. */
  function AddTo(rows: map<string, real>, symbol: string, amount: real): (r: map<string, real>) {
    rows[symbol := (if symbol in rows then rows[symbol] else 0.0) + amount]
  }

  /** What one more holding adds to a sum that may not have a row yet. */
  lemma {:induction false} RowExtends(hs: seq<Holding>, h: Holding, sel: Selector, known: bool, row: real)
    requires if known then row == Sum(hs, sel) else row == 0.0 && forall x :: x in hs && x.amount.Some? ==> !sel(x)
    ensures Sum(hs + [h], sel) == row + if sel(h) && h.amount.Some? then h.amount.value else 0.0
  {
    SumExtends(hs, h, sel);
    if !known {
      SumOfNone(hs, sel);
    }
  }

  lemma SupplyExtends(hs: seq<Holding>, h: Holding, before: map<string, real>, after: map<string, real>)
    requires IsSupply(hs, before)
    requires after == if h.amount.None? then before else AddTo(before, SupplyLabel(h), h.amount.value)
    ensures IsSupply(hs + [h], after)
  {
    SymbolsExtend(hs, h, "");
    forall s | s in after ensures after[s] == Supply(hs + [h], s) {
      RowExtends(hs, h, InSupply(s), s in before, if s in before then before[s] else 0.0);
    }
  }

  method SupplyByToken(holdings: seq<Holding>) returns (supply: map<string, real>)
    ensures IsSupply(holdings, supply)
  {
    supply := map[];
    ghost var done: seq<Holding> := [];
    for i := 0 to |holdings|
      invariant done == holdings[..i] && IsSupply(done, supply)
    {
      var h := holdings[i];
      ghost var before := supply;
      if h.amount.Some? {
        supply := AddTo(supply, if h.symbol == "" then UNKNOWN else h.symbol, h.amount.value);
      }
      SupplyExtends(done, h, before, supply);
      done := done + [h];
    }
    assert done == holdings;
  }

  ghost predicate IsPartyBalances(hs: seq<Holding>, party: string, own: map<string, real>) {
    && own.Keys == PartySymbols(hs, party)
    && forall s :: s in own ==> own[s] == Balance(hs, party, s)
  }

  ghost predicate IsBalances(hs: seq<Holding>, balances: map<string, map<string, real>>) {
    && balances.Keys == Parties(hs)
    && forall p :: p in balances ==> IsPartyBalances(hs, p, balances[p])
  }

  lemma OthersKept(hs: seq<Holding>, h: Holding, party: string, own: map<string, real>)
    requires IsPartyBalances(hs, party, own) && (h.amount.None? || h.owner == "" || h.owner != party)
    ensures IsPartyBalances(hs + [h], party, own)
  {
    SymbolsExtend(hs, h, party);
    forall s | s in own ensures own[s] == Balance(hs + [h], party, s) {
      SumExtends(hs, h, InBalance(party, s));
    }
  }

  lemma OwnExtends(hs: seq<Holding>, h: Holding, own: map<string, real>)
    requires IsPartyBalances(hs, h.owner, own) && h.amount.Some? && h.owner != ""
    ensures IsPartyBalances(hs + [h], h.owner, AddTo(own, BalanceLabel(h), h.amount.value))
  {
    SymbolsExtend(hs, h, h.owner);
    var after := AddTo(own, BalanceLabel(h), h.amount.value);
    forall s | s in after ensures after[s] == Balance(hs + [h], h.owner, s) {
      RowExtends(hs, h, InBalance(h.owner, s), s in own, if s in own then own[s] else 0.0);
    }
  }

  /** A missing party counts as having no rows. */
  function Credit(balances: map<string, map<string, real>>, party: string, symbol: string, amount: real)
    : (r: map<string, map<string, real>>)
  {
    balances[party := AddTo(if party in balances then balances[party] else map[], symbol, amount)]
  }

  lemma BalancesExtend(
      hs: seq<Holding>, h: Holding, before: map<string, map<string, real>>, after: map<string, map<string, real>>)
    requires IsBalances(hs, before)
    requires after == if h.amount.None? || h.owner == "" then before else Credit(before, h.owner, BalanceLabel(h), h.amount.value)
    ensures IsBalances(hs + [h], after)
  {
    SymbolsExtend(hs, h, "");
    forall p | p in after ensures IsPartyBalances(hs + [h], p, after[p]) {
      if h.amount.Some? && h.owner != "" && h.owner == p {
        if p !in before {
          NoSymbols(hs, p);
        }
        OwnExtends(hs, h, if p in before then before[p] else map[]);
      } else {
        OthersKept(hs, h, p, after[p]);
      }
    }
  }

  lemma NoSymbols(hs: seq<Holding>, p: string)
    requires p !in Parties(hs)
    ensures PartySymbols(hs, p) == {}
  {
  }

  method PartyBalances(holdings: seq<Holding>) returns (balances: map<string, map<string, real>>)
    ensures IsBalances(holdings, balances)
  {
    balances := map[];
    ghost var done: seq<Holding> := [];
    for i := 0 to |holdings|
      invariant done == holdings[..i] && IsBalances(done, balances)
    {
      var h := holdings[i];
      ghost var before := balances;
      if h.owner != "" && h.amount.Some? {
        balances := Credit(balances, h.owner, if h.symbol == "" then PROMPT else h.symbol, h.amount.value);
      }
      BalancesExtend(done, h, before, balances);
      done := done + [h];
    }
    assert done == holdings;
  }

  // ----- conservation

  /** Holdings of any of the parties, and holdings without an owner. */
  function OwnedByAny(parties: set<string>, symbol: string): (sel: Selector) {
    (h: Holding) => h.owner != "" && h.owner in parties && BalanceLabel(h) == symbol
  }

  function Ownerless(symbol: string): (sel: Selector) {
    (h: Holding) => h.owner == "" && BalanceLabel(h) == symbol
  }

  /** What the given parties' balances of a symbol add up to. */
  ghost function SumOfBalances(hs: seq<Holding>, parties: set<string>, symbol: string): (total: real) {
    if parties == {} then 0.0
    else
      var p :| p in parties;
      Balance(hs, p, symbol) + SumOfBalances(hs, parties - {p}, symbol)
  }

  lemma {:induction false} OnePartyMore(hs: seq<Holding>, parties: set<string>, p: string, symbol: string)
    requires p in parties
    ensures Sum(hs, OwnedByAny(parties, symbol)) == Balance(hs, p, symbol) + Sum(hs, OwnedByAny(parties - {p}, symbol))
  {
    if hs == [] {
    } else {
      OnePartyMore(hs[..|hs| - 1], parties, p, symbol);
    }
  }

  /** Adding up balances party by party is adding up those parties' holdings. */
  lemma {:induction false} BalancesAddUp(hs: seq<Holding>, parties: set<string>, symbol: string)
    ensures SumOfBalances(hs, parties, symbol) == Sum(hs, OwnedByAny(parties, symbol))
    decreases |parties|
  {
    if parties == {} {
      SumOfNone(hs, OwnedByAny(parties, symbol));
    } else {
      var p :| p in parties && SumOfBalances(hs, parties, symbol) == Balance(hs, p, symbol) + SumOfBalances(hs, parties - {p}, symbol);
      OnePartyMore(hs, parties, p, symbol);
      BalancesAddUp(hs, parties - {p}, symbol);
    }
  }

  lemma {:induction false} LabelsAgree(hs: seq<Holding>, parties: set<string>, symbol: string)
    requires Parties(hs) <= parties && symbol != PROMPT && symbol != UNKNOWN && symbol != ""
    ensures Supply(hs, symbol) == Sum(hs, OwnedByAny(parties, symbol)) + Sum(hs, Ownerless(symbol))
  {
    if hs == [] {
    } else {
      var rest := hs[..|hs| - 1];
      assert Parties(rest) <= Parties(hs);
      assert hs[|hs| - 1] in hs;
      LabelsAgree(rest, parties, symbol);
    }
  }

  lemma {:induction false} BlankLabelsAgree(hs: seq<Holding>, parties: set<string>)
    requires Parties(hs) <= parties
    ensures Supply(hs, PROMPT) + Supply(hs, UNKNOWN)
            == Sum(hs, OwnedByAny(parties, PROMPT)) + Sum(hs, Ownerless(PROMPT))
               + Sum(hs, OwnedByAny(parties, UNKNOWN)) + Sum(hs, Ownerless(UNKNOWN))
  {
    if hs == [] {
    } else {
      var rest := hs[..|hs| - 1];
      assert Parties(rest) <= Parties(hs);
      assert hs[|hs| - 1] in hs;
      BlankLabelsAgree(rest, parties);
    }
  }

  /**
   * Conservation over one snapshot, for every list of holdings. A symbol's supply is
   * what its holders' balances add up to, plus what no owner holds; holdings without
   * a symbol are supply of UNKNOWN and balance of PROMPT, so those two only agree
   * together.
   */
  lemma {:induction false} Conservation(hs: seq<Holding>, symbol: string)
    ensures symbol != PROMPT && symbol != UNKNOWN && symbol != "" ==>
        Supply(hs, symbol) == SumOfBalances(hs, Parties(hs), symbol) + Sum(hs, Ownerless(symbol))
    ensures Supply(hs, PROMPT) + Supply(hs, UNKNOWN)
        == SumOfBalances(hs, Parties(hs), PROMPT) + Sum(hs, Ownerless(PROMPT))
           + SumOfBalances(hs, Parties(hs), UNKNOWN) + Sum(hs, Ownerless(UNKNOWN))
  {
    BalancesAddUp(hs, Parties(hs), symbol);
    BalancesAddUp(hs, Parties(hs), PROMPT);
    BalancesAddUp(hs, Parties(hs), UNKNOWN);
    BlankLabelsAgree(hs, Parties(hs));
    if symbol != PROMPT && symbol != UNKNOWN && symbol != "" {
      LabelsAgree(hs, Parties(hs), symbol);
    }
  }

  /** If every holding has an owner and none is literally of UNKNOWN, balances account for the whole supply. */
  lemma {:induction false} ConservationWhenOwned(hs: seq<Holding>, symbol: string)
    requires forall h :: h in hs ==> h.owner != "" && h.symbol != UNKNOWN
    ensures symbol != PROMPT && symbol != UNKNOWN && symbol != "" ==>
        Supply(hs, symbol) == SumOfBalances(hs, Parties(hs), symbol)
    ensures Supply(hs, PROMPT) + Supply(hs, UNKNOWN) == SumOfBalances(hs, Parties(hs), PROMPT)
  {
    Conservation(hs, symbol);
    SumOfNone(hs, Ownerless(symbol));
    SumOfNone(hs, Ownerless(PROMPT));
    SumOfNone(hs, Ownerless(UNKNOWN));
    BalancesAddUp(hs, Parties(hs), UNKNOWN);
    SumOfNone(hs, OwnedByAny(Parties(hs), UNKNOWN));
  }

  // ----- order

  lemma {:induction false} SumConcat(a: seq<Holding>, b: seq<Holding>, sel: Selector)
    ensures Sum(a + b, sel) == Sum(a, sel) + Sum(b, sel)
    decreases |b|
  {
    if b == [] {
      assert a + b == a;
    } else {
      SumConcat(a, b[..|b| - 1], sel);
      assert (a + b)[..|a + b| - 1] == a + b[..|b| - 1];
    }
  }

  /** Every sum, and so every supply and balance, is the same for holdings in any order. */
  lemma {:induction false} OrderIrrelevant(a: seq<Holding>, b: seq<Holding>, sel: Selector)
    requires multiset(a) == multiset(b)
    ensures Sum(a, sel) == Sum(b, sel)
    decreases |a|
  {
    if a == [] {
      assert |multiset(b)| == 0;
    } else {
      var h := a[|a| - 1];
      var init := a[..|a| - 1];
      assert a == init + [h];
      assert h in multiset(b);
      var i :| 0 <= i < |b| && b[i] == h;
      var pre, suf := b[..i], b[i + 1..];
      assert b == pre + [h] + suf;
      SameRest(init, h, pre, suf);
      OrderIrrelevant(init, pre + suf, sel);
      SumConcat(pre, suf, sel);
      SumConcat(pre + [h], suf, sel);
      SumConcat(pre, [h], sel);
      SumConcat(init, [h], sel);
    }
  }

  lemma OrderOfMapsIrrelevant(a: seq<Holding>, b: seq<Holding>, x: map<string, map<string, real>>, y: map<string, map<string, real>>)
    requires multiset(a) == multiset(b) && IsBalances(a, x) && IsBalances(b, y)
    ensures x == y && SupplySymbols(a) == SupplySymbols(b)
  {
    assert forall h :: h in a <==> h in multiset(a);
    assert forall h :: h in b <==> h in multiset(b);
    assert x.Keys == y.Keys;
    forall p | p in x ensures x[p] == y[p] {
      assert IsPartyBalances(a, p, x[p]) && IsPartyBalances(b, p, y[p]);
      assert x[p].Keys == y[p].Keys;
      forall s | s in x[p] ensures x[p][s] == y[p][s] {
        OrderIrrelevant(a, b, InBalance(p, s));
      }
    }
  }

  // ----- the store

  type Totals = map<string, real>

  /** Balance rows by trimmed party id and token key. */
  type Rows = map<(string, string), real>

  /** The reconciler's store. Any write may fail; `faults` counts those that did although their arguments were in order. */
  class Store {
    var totals: Totals
    var rows: Rows
    ghost var faults: nat

    constructor ()
      ensures totals == map[] && rows == map[] && faults == 0
    {
      totals, rows, faults := map[], map[], 0;
    }

    /** Upserts the row of the symbol's key; a blank symbol is refused. */
    method SetTotalSupply(symbol: string, value: real) returns (ok: bool)
      modifies this
      ensures rows == old(rows) && totals == if ok then old(totals)[Key(symbol) := value] else old(totals)
      ensures if Key(symbol) == "" then !ok && faults == old(faults) else faults == old(faults) + if ok then 0 else 1
    {
      var key := Key(symbol);
      if key == "" {
        return false;
      }
      ok := *;
      if ok {
        totals := totals[key := value];
      } else {
        faults := faults + 1;
      }
    }

    /** Upserts the row of the trimmed party and the symbol's key; a blank party or symbol is refused. */
    method SetBalance(party: string, symbol: string, value: real) returns (ok: bool)
      modifies this
      ensures totals == old(totals)
      ensures rows == if ok then old(rows)[(TrimSpace(party), Key(symbol)) := value] else old(rows)
      ensures if TrimSpace(party) == "" || Key(symbol) == "" then !ok && faults == old(faults)
              else faults == old(faults) + if ok then 0 else 1
    {
      var key, id := Key(symbol), TrimSpace(party);
      if key == "" || id == "" {
        return false;
      }
      ok := *;
      if ok {
        rows := rows[(id, key) := value];
      } else {
        faults := faults + 1;
      }
    }
  }

  // ----- writing the supply

  function SupplyMap(hs: seq<Holding>): (supply: map<string, real>) {
    map s | s in SupplySymbols(hs) :: Supply(hs, s)
  }

  ghost predicate Distinct(order: seq<string>) {
    forall i, j :: 0 <= i < j < |order| ==> order[i] != order[j]
  }

  /** An order in which a map with these keys may be iterated. */
  ghost predicate IsOrder(keys: set<string>, order: seq<string>) {
    Distinct(order) && forall s :: s in order <==> s in keys
  }

  /** The totals after writing these symbols, one after the other. */
  function Written(totals: Totals, supply: map<string, real>, order: seq<string>): (r: Totals)
    requires forall s :: s in order ==> s in supply
  {
    if |order| == 0 then totals
    else
      var s := order[|order| - 1];
      Written(totals, supply, order[..|order| - 1])[Key(s) := supply[s]]
  }

  lemma {:induction false} WrittenNext(totals: Totals, supply: map<string, real>, order: seq<string>, s: string)
    requires s in supply && forall t :: t in order ==> t in supply
    ensures Written(totals, supply, order + [s]) == Written(totals, supply, order)[Key(s) := supply[s]]
  {
    assert (order + [s])[..|order|] == order;
  }

  lemma DistinctNext(order: seq<string>, s: string)
    requires Distinct(order) && s !in order
    ensures Distinct(order + [s])
  {
  }

  ghost predicate NoBlank(symbols: set<string>) {
    forall s :: s in symbols ==> Key(s) != ""
  }

  /** The supply rows: written symbol by symbol, in the map's order, until a write fails. */
  method WriteSupply(supply: map<string, real>, store: Store) returns (ok: bool, ghost order: seq<string>)
    modifies store
    ensures store.rows == old(store.rows)
    ensures Distinct(order) && (forall s :: s in order ==> s in supply && Key(s) != "")
    ensures store.totals == Written(old(store.totals), supply, order)
    ensures ok <==> IsOrder(supply.Keys, order)
    ensures ok <==> NoBlank(supply.Keys) && store.faults == old(store.faults)
    ensures old(store.faults) <= store.faults <= old(store.faults) + 1
  {
    order := [];
    var rest := supply.Keys;
    while rest != {}
      invariant rest <= supply.Keys && store.rows == old(store.rows) && store.faults == old(store.faults)
      invariant Distinct(order) && forall s :: s in order <==> s in supply && s !in rest
      invariant forall s :: s in order ==> Key(s) != ""
      invariant store.totals == Written(old(store.totals), supply, order)
      decreases |rest|
    {
      var s :| s in rest;
      var written := store.SetTotalSupply(s, supply[s]);
      if !written {
        return false, order;
      }
      WrittenNext(old(store.totals), supply, order, s);
      DistinctNext(order, s);
      order := order + [s];
      rest := rest - {s};
    }
    ok := true;
  }

  /** Some symbol of the order is stored under `k`. */
  ghost predicate Reaches(order: seq<string>, k: string) {
    exists s :: s in order && Key(s) == k
  }

  /** A row holds the supply of one of the symbols stored under it, or what it held before. */
  lemma {:induction false} WrittenRow(totals: Totals, supply: map<string, real>, order: seq<string>, k: string)
    requires forall s :: s in order ==> s in supply
    ensures k in Written(totals, supply, order) <==> k in totals || Reaches(order, k)
    ensures !Reaches(order, k) && k in totals ==> Written(totals, supply, order)[k] == totals[k]
    ensures Reaches(order, k) ==>
        exists s :: s in order && Key(s) == k && Written(totals, supply, order)[k] == supply[s]
  {
    if |order| == 0 {
    } else {
      var init, last := order[..|order| - 1], order[|order| - 1];
      assert order == init + [last];
      WrittenRow(totals, supply, init, k);
      assert last in order;
      if Key(last) != k && Reaches(order, k) {
        var s :| s in order && Key(s) == k;
        assert s in init;
      }
    }
  }

  lemma {:induction false} OrderExists(keys: set<string>) returns (order: seq<string>)
    ensures IsOrder(keys, order)
    decreases |keys|
  {
    if keys == {} {
      order := [];
    } else {
      var s :| s in keys;
      order := OrderEndingWith(keys, s);
    }
  }

  lemma {:induction false} OrderEndingWith(keys: set<string>, s: string) returns (order: seq<string>)
    requires s in keys
    ensures IsOrder(keys, order) && |order| > 0 && order[|order| - 1] == s
    decreases |keys|, 0
  {
    var rest := keys - {s};
    assert |rest| < |keys|;
    var init := OrderExists(rest);
    DistinctNext(init, s);
    order := init + [s];
  }

  ghost predicate CurrentIn(totals: Totals, hs: seq<Holding>, s: string) {
    Key(s) in totals && totals[Key(s)] == Supply(hs, s)
  }

  ghost predicate SharesRow(hs: seq<Holding>, s: string, t: string) {
    t in SupplySymbols(hs) && Key(t) == Key(s)
  }

  /** What decides it beforehand: all symbols stored in the row of `s` have its supply; if there are none, the row held zero. */
  ghost predicate SpellingsAgree(before: Totals, hs: seq<Holding>, s: string) {
    && (forall t :: SharesRow(hs, s, t) ==> Supply(hs, t) == Supply(hs, s))
    && ((exists t :: SharesRow(hs, s, t)) || (Key(s) in before && before[Key(s)] == 0.0))
  }

  /**
   * Whatever order the map is iterated in, a successful reconciliation leaves the supply
   * of `s` in its row, if and only if the spellings agree.
   */
  lemma StoredSupplyCurrentIff(before: Totals, hs: seq<Holding>, s: string)
    requires NoBlank(SupplySymbols(hs))
    ensures (forall order :: IsOrder(SupplySymbols(hs), order) ==> CurrentIn(Written(before, SupplyMap(hs), order), hs, s))
            <==> SpellingsAgree(before, hs, s)
  {
    if SpellingsAgree(before, hs, s) {
      forall order | IsOrder(SupplySymbols(hs), order) ensures CurrentIn(Written(before, SupplyMap(hs), order), hs, s) {
        AgreeingIsCurrent(before, hs, s, order);
      }
    } else if t :| SharesRow(hs, s, t) && Supply(hs, t) != Supply(hs, s) {
      var order := OrderEndingWith(SupplySymbols(hs), t);
      assert Written(before, SupplyMap(hs), order)[Key(s)] == Supply(hs, t);
    } else {
      var order := OrderExists(SupplySymbols(hs));
      StaleRow(before, hs, s, order);
    }
  }

  /** A row no holding reaches keeps its old figure. */
  lemma StaleRow(before: Totals, hs: seq<Holding>, s: string, order: seq<string>)
    requires (forall t :: !SharesRow(hs, s, t)) && IsOrder(SupplySymbols(hs), order)
    ensures CurrentIn(Written(before, SupplyMap(hs), order), hs, s) <==> Key(s) in before && before[Key(s)] == 0.0
  {
    WrittenRow(before, SupplyMap(hs), order, Key(s));
    AloneIsZero(hs, s);
    assert forall t :: t in order ==> !SharesRow(hs, s, t);
  }

  lemma AgreeingIsCurrent(before: Totals, hs: seq<Holding>, s: string, order: seq<string>)
    requires SpellingsAgree(before, hs, s) && IsOrder(SupplySymbols(hs), order)
    ensures CurrentIn(Written(before, SupplyMap(hs), order), hs, s)
  {
    if t :| SharesRow(hs, s, t) {
      WrittenRow(before, SupplyMap(hs), order, Key(s));
      assert t in order;
    } else {
      StaleRow(before, hs, s, order);
    }
  }

  /** A symbol whose row no holding reaches has no supply. */
  lemma AloneIsZero(hs: seq<Holding>, s: string)
    requires forall t :: !SharesRow(hs, s, t)
    ensures Supply(hs, s) == 0.0
  {
    assert !SharesRow(hs, s, s);
    SumOfNone(hs, InSupply(s));
  }

  /** A stored supply; a row that is not there counts as zero. */
  function RowOrZero(totals: Totals, k: string): (v: real) {
    if k in totals then totals[k] else 0.0
  }

  /** A figure the row of `s` may end with: the supply of a symbol stored in it or, if there is none, the old one. */
  ghost predicate MayEndWith(before: Totals, hs: seq<Holding>, s: string, v: real) {
    || (exists t :: SharesRow(hs, s, t) && v == Supply(hs, t))
    || ((forall t :: !SharesRow(hs, s, t)) && v == RowOrZero(before, Key(s)))
  }

  lemma EndsWith(before: Totals, hs: seq<Holding>, s: string, order: seq<string>)
    requires IsOrder(SupplySymbols(hs), order)
    ensures MayEndWith(before, hs, s, RowOrZero(Written(before, SupplyMap(hs), order), Key(s)))
  {
    WrittenRow(before, SupplyMap(hs), order, Key(s));
    assert forall t :: SharesRow(hs, s, t) <==> t in order && Key(t) == Key(s);
  }

  lemma {:induction false} OrderEndingWithTwo(keys: set<string>, s: string, t: string) returns (order: seq<string>)
    requires s in keys && t in keys && s != t
    ensures IsOrder(keys, order) && |order| > 1 && order[|order| - 2] == s && order[|order| - 1] == t
  {
    var init := OrderEndingWith(keys - {t}, s);
    DistinctNext(init, t);
    order := init + [t];
  }

  /** The last symbol of an order, and the one before it if its row is another, decide their rows. */
  lemma {:induction false} LastDecides(before: Totals, supply: map<string, real>, order: seq<string>)
    requires |order| > 0 && forall s :: s in order ==> s in supply
    ensures RowOrZero(Written(before, supply, order), Key(order[|order| - 1])) == supply[order[|order| - 1]]
    ensures |order| > 1 && Key(order[|order| - 2]) != Key(order[|order| - 1]) ==>
        RowOrZero(Written(before, supply, order), Key(order[|order| - 2])) == supply[order[|order| - 2]]
  {
    var init := order[..|order| - 1];
    if |init| > 0 {
      assert init[|init| - 1] == order[|order| - 2];
    }
  }

  /** A row that no holding reaches is the same after every order. */
  lemma UnreachedRow(before: Totals, hs: seq<Holding>, s: string, order: seq<string>)
    requires (forall t :: !SharesRow(hs, s, t)) && IsOrder(SupplySymbols(hs), order)
    ensures RowOrZero(Written(before, SupplyMap(hs), order), Key(s)) == RowOrZero(before, Key(s))
  {
    WrittenRow(before, SupplyMap(hs), order, Key(s));
    assert forall t :: t in order ==> !SharesRow(hs, s, t);
  }

  /** Two rows may end with any two of their figures together. */
  lemma EndTogether(before: Totals, hs: seq<Holding>, s: string, u: string, v: real, w: real) returns (order: seq<string>)
    requires Key(s) != Key(u) && MayEndWith(before, hs, s, v) && MayEndWith(before, hs, u, w)
    ensures IsOrder(SupplySymbols(hs), order)
    ensures RowOrZero(Written(before, SupplyMap(hs), order), Key(s)) == v
    ensures RowOrZero(Written(before, SupplyMap(hs), order), Key(u)) == w
  {
    var keys := SupplySymbols(hs);
    if x :| SharesRow(hs, s, x) && v == Supply(hs, x) {
      if y :| SharesRow(hs, u, y) && w == Supply(hs, y) {
        order := OrderEndingWithTwo(keys, x, y);
      } else {
        order := OrderEndingWith(keys, x);
        UnreachedRow(before, hs, u, order);
      }
      LastDecides(before, SupplyMap(hs), order);
    } else if y :| SharesRow(hs, u, y) && w == Supply(hs, y) {
      order := OrderEndingWith(keys, y);
      LastDecides(before, SupplyMap(hs), order);
      UnreachedRow(before, hs, s, order);
    } else {
      order := OrderExists(keys);
      UnreachedRow(before, hs, s, order);
      UnreachedRow(before, hs, u, order);
    }
  }

  // ----- writing the balances

  /** The stored balance a user without holdings of a symbol gets is zero. */
  lemma MissingIsZero(hs: seq<Holding>, balances: map<string, map<string, real>>, party: string, symbol: string)
    requires IsBalances(hs, balances)
    ensures Balance(hs, party, symbol)
            == if party in balances && symbol in balances[party] then balances[party][symbol] else 0.0
  {
    if party in balances {
      assert IsPartyBalances(hs, party, balances[party]);
    }
    if party !in balances || symbol !in balances[party] {
      SumOfNone(hs, InBalance(party, symbol));
    }
  }

  /** One row of a user rewritten; a user whose id is blank has none. */
  function RowRewritten(rows: Rows, hs: seq<Holding>, user: string, symbol: string): (r: Rows) {
    if TrimSpace(user) == "" then rows else rows[(TrimSpace(user), symbol) := Balance(hs, user, symbol)]
  }

  function UserRewritten(rows: Rows, hs: seq<Holding>, user: string): (r: Rows) {
    RowRewritten(RowRewritten(rows, hs, user, DEMO), hs, user, PROMPT)
  }

  /** The rows after rewriting those of every user, in turn, from one snapshot. */
  function Rewritten(rows: Rows, hs: seq<Holding>, users: seq<string>): (r: Rows) {
    if |users| == 0 then rows
    else UserRewritten(Rewritten(rows, hs, users[..|users| - 1]), hs, users[|users| - 1])
  }

  lemma {:induction false} RewriteExtends(rows: Rows, hs: seq<Holding>, users: seq<string>, user: string)
    ensures Rewritten(rows, hs, users + [user]) == UserRewritten(Rewritten(rows, hs, users), hs, user)
  {
    assert (users + [user])[..|users|] == users;
  }

  predicate IsTarget(symbol: string) {
    symbol == DEMO || symbol == PROMPT
  }

  /** The value is the balance of one of the users stored under this key. */
  ghost predicate WrittenFor(hs: seq<Holding>, users: seq<string>, k: (string, string), value: real) {
    exists u :: u in users && k.0 == TrimSpace(u) != "" && IsTarget(k.1) && value == Balance(hs, u, k.1)
  }

  /** Each row is as before or rewritten, and nothing else is written. */
  ghost predicate PartlyRewritten(before: Rows, after: Rows, hs: seq<Holding>, users: seq<string>) {
    && (forall k :: k in before ==> k in after)
    && (forall k :: k in after ==> (k in before && after[k] == before[k]) || WrittenFor(hs, users, k, after[k]))
  }

  lemma RowIsPartly(rows: Rows, hs: seq<Holding>, user: string, symbol: string)
    requires IsTarget(symbol)
    ensures PartlyRewritten(rows, RowRewritten(rows, hs, user, symbol), hs, [user])
    ensures PartlyRewritten(rows, rows, hs, [user])
  {
    assert user in [user];
  }

  lemma PartlyRewrittenTwice(a: Rows, b: Rows, c: Rows, hs: seq<Holding>, users: seq<string>)
    requires PartlyRewritten(a, b, hs, users) && PartlyRewritten(b, c, hs, users)
    ensures PartlyRewritten(a, c, hs, users)
  {
  }

  /** One balance write; the party's missing balance is written as zero. */
  method WriteBalance(
      ghost hs: seq<Holding>, balances: map<string, map<string, real>>, user: string, symbol: string, store: Store)
    requires IsBalances(hs, balances) && IsTarget(symbol) && Key(symbol) == symbol
    modifies store
    ensures store.totals == old(store.totals) && store.faults >= old(store.faults)
    ensures store.faults == old(store.faults) ==> store.rows == RowRewritten(old(store.rows), hs, user, symbol)
    ensures PartlyRewritten(old(store.rows), store.rows, hs, [user])
  {
    MissingIsZero(hs, balances, user, symbol);
    RowIsPartly(store.rows, hs, user, symbol);
    var balance := if user in balances && symbol in balances[user] then balances[user][symbol] else 0.0;
    var ok := store.SetBalance(user, symbol, balance);
  }

  /** The two balance writes of one user. */
  method WriteUser(ghost hs: seq<Holding>, balances: map<string, map<string, real>>, user: string, store: Store)
    requires IsBalances(hs, balances)
    modifies store
    ensures store.totals == old(store.totals) && store.faults >= old(store.faults)
    ensures store.faults == old(store.faults) ==> store.rows == UserRewritten(old(store.rows), hs, user)
    ensures PartlyRewritten(old(store.rows), store.rows, hs, [user])
  {
    DemoKey();
    PromptKey();
    WriteBalance(hs, balances, user, DEMO, store);
    ghost var between := store.rows;
    WriteBalance(hs, balances, user, PROMPT, store);
    PartlyRewrittenTwice(old(store.rows), between, store.rows, hs, [user]);
  }

  lemma WrittenForMore(hs: seq<Holding>, users: seq<string>, user: string, k: (string, string), value: real)
    requires WrittenFor(hs, users, k, value) || WrittenFor(hs, [user], k, value)
    ensures WrittenFor(hs, users + [user], k, value)
  {
    var u :| (u in users || u == user) && k.0 == TrimSpace(u) != "" && IsTarget(k.1) && value == Balance(hs, u, k.1);
    assert u in users + [user];
  }

  lemma PartlyRewrittenNext(start: Rows, before: Rows, after: Rows, hs: seq<Holding>, users: seq<string>, user: string)
    requires PartlyRewritten(start, before, hs, users) && PartlyRewritten(before, after, hs, [user])
    ensures PartlyRewritten(start, after, hs, users + [user])
  {
    forall k | k in after
      ensures (k in start && after[k] == start[k]) || WrittenFor(hs, users + [user], k, after[k])
    {
      if !(k in start && after[k] == start[k]) {
        WrittenForMore(hs, users, user, k, after[k]);
      }
    }
  }

  /** ReconcileUserBalancesFromHoldings; None stands for a failed fetch of holdings or users. */
  method ReconcileUserBalances(holdings: Option<seq<Holding>>, users: Option<seq<string>>, store: Store) returns (ok: bool)
    modifies store
    ensures store.totals == old(store.totals) && store.faults >= old(store.faults)
    ensures ok <==> holdings.Some? && users.Some?
    ensures !ok ==> store.rows == old(store.rows) && store.faults == old(store.faults)
    ensures ok ==> PartlyRewritten(old(store.rows), store.rows, holdings.value, users.value)
    ensures ok && store.faults == old(store.faults) ==>
        store.rows == Rewritten(old(store.rows), holdings.value, users.value)
  {
    if holdings.None? {
      return false;
    }
    var balances := PartyBalances(holdings.value);
    if users.None? {
      return false;
    }
    ghost var hs, start := holdings.value, store.rows;
    ghost var done: seq<string> := [];
    for i := 0 to |users.value|
      invariant done == users.value[..i] && store.totals == old(store.totals) && store.faults >= old(store.faults)
      invariant PartlyRewritten(start, store.rows, hs, done)
      invariant store.faults == old(store.faults) ==> store.rows == Rewritten(start, hs, done)
    {
      var user := users.value[i];
      ghost var before := store.rows;
      if user != "" {
        WriteUser(hs, balances, user, store);
      }
      PartlyRewrittenNext(start, before, store.rows, hs, done, user);
      RewriteExtends(start, hs, done, user);
      done := done + [user];
    }
    assert done == users.value;
    ok := true;
  }

  /**
   * ReconcileAll: the supply comes from one fetch of the holdings and the balances from
   * the next. `order` is ghost: the symbols whose supply was written, in turn.
   */
  method ReconcileAll(
      first: Option<seq<Holding>>, second: Option<seq<Holding>>, users: Option<seq<string>>, store: Store)
    returns (ok: bool, ghost order: seq<string>)
    modifies store
    ensures first.None? ==> !ok && store.totals == old(store.totals) && store.rows == old(store.rows)
    ensures first.Some? ==>
        && Distinct(order) && (forall s :: s in order ==> s in SupplySymbols(first.value) && Key(s) != "")
        && store.totals == Written(old(store.totals), SupplyMap(first.value), order)
        && (ok <==> IsOrder(SupplySymbols(first.value), order))
        && (ok ==> NoBlank(SupplySymbols(first.value)))
    ensures first.Some? && !ok ==>
        store.rows == old(store.rows)
        && (NoBlank(SupplySymbols(first.value)) ==> store.faults == old(store.faults) + 1)
    ensures ok && (second.None? || users.None?) ==> store.rows == old(store.rows)
    ensures ok && second.Some? && users.Some? ==> PartlyRewritten(old(store.rows), store.rows, second.value, users.value)
    ensures ok && second.Some? && users.Some? && store.faults == old(store.faults) ==>
        store.rows == Rewritten(old(store.rows), second.value, users.value)
  {
    order := [];
    if first.None? {
      return false, order;
    }
    var supply := SupplyByToken(first.value);
    assert supply == SupplyMap(first.value);
    ok, order := WriteSupply(supply, store);
    if !ok {
      return;
    }
    var balanced := ReconcileUserBalances(second, users, store);
  }

  // ----- what the rows hold

  /** The last user stored under a trimmed id, whose balance the row keeps. */
  function LastUser(users: seq<string>, p: string): (u: Option<string>)
    ensures u.Some? ==> u.value in users && TrimSpace(u.value) == p
  {
    if |users| == 0 then None
    else if TrimSpace(users[|users| - 1]) == p then Some(users[|users| - 1])
    else LastUser(users[..|users| - 1], p)
  }

  lemma {:induction false} LastUserExists(users: seq<string>, u: string)
    requires u in users
    ensures LastUser(users, TrimSpace(u)).Some?
  {
    if TrimSpace(users[|users| - 1]) != TrimSpace(u) {
      LastUserExists(users[..|users| - 1], u);
    }
  }

  ghost predicate Hit(users: seq<string>, k: (string, string)) {
    k.0 != "" && IsTarget(k.1) && LastUser(users, k.0).Some?
  }

  /** A rewritten row holds the last such user's balance, whatever it held before; any other row is as before. */
  lemma {:induction false} RewrittenRow(rows: Rows, hs: seq<Holding>, users: seq<string>, k: (string, string))
    ensures Hit(users, k) ==>
        k in Rewritten(rows, hs, users) && Rewritten(rows, hs, users)[k] == Balance(hs, LastUser(users, k.0).value, k.1)
    ensures !Hit(users, k) ==>
        (k in Rewritten(rows, hs, users) <==> k in rows) && (k in rows ==> Rewritten(rows, hs, users)[k] == rows[k])
  {
    if |users| == 0 {
    } else {
      RewrittenRow(rows, hs, users[..|users| - 1], k);
    }
  }

  lemma WrittenForHits(hs: seq<Holding>, users: seq<string>, k: (string, string), value: real)
    requires WrittenFor(hs, users, k, value)
    ensures Hit(users, k)
  {
    var u :| u in users && k.0 == TrimSpace(u) != "" && IsTarget(k.1) && value == Balance(hs, u, k.1);
    LastUserExists(users, u);
  }

  /** Rewriting the user rows again from one snapshot gives the clean result, whatever was left by earlier failures. */
  lemma RewriteIdempotent(rows: Rows, left: Rows, hs: seq<Holding>, users: seq<string>)
    requires PartlyRewritten(rows, left, hs, users)
    ensures Rewritten(left, hs, users) == Rewritten(rows, hs, users)
  {
    var x, y := Rewritten(left, hs, users), Rewritten(rows, hs, users);
    forall k ensures (k in x <==> k in y) && (k in x ==> x[k] == y[k]) {
      RewrittenRow(left, hs, users, k);
      RewrittenRow(rows, hs, users, k);
      if !Hit(users, k) && k in left && !(k in rows && left[k] == rows[k]) {
        WrittenForHits(hs, users, k, left[k]);
      }
    }
  }

  ghost function SumOfRows(rows: Rows, parties: set<string>, symbol: string): (total: real)
    requires forall p :: p in parties ==> (p, symbol) in rows
  {
    if parties == {} then 0.0
    else
      var p :| p in parties;
      rows[(p, symbol)] + SumOfRows(rows, parties - {p}, symbol)
  }

  /** The ids the users are stored under. */
  function StoredIds(users: seq<string>): (ids: set<string>) {
    set u | u in users && TrimSpace(u) != "" :: TrimSpace(u)
  }

  /** The users whose balance is the one that is stored. */
  function Keepers(users: seq<string>, ids: set<string>): (keepers: set<string>)
    requires forall p :: p in ids ==> LastUser(users, p).Some?
  {
    set p | p in ids :: LastUser(users, p).value
  }

  lemma OneKeeperLess(users: seq<string>, ids: set<string>, p: string)
    requires p in ids && forall q :: q in ids ==> LastUser(users, q).Some?
    ensures Keepers(users, ids) - {LastUser(users, p).value} == Keepers(users, ids - {p})
    ensures LastUser(users, p).value in Keepers(users, ids)
  {
  }

  lemma {:induction false} RowsAddUp(rows: Rows, hs: seq<Holding>, users: seq<string>, ids: set<string>, symbol: string)
    requires forall p :: p in ids ==>
        LastUser(users, p).Some? && (p, symbol) in rows && rows[(p, symbol)] == Balance(hs, LastUser(users, p).value, symbol)
    ensures SumOfRows(rows, ids, symbol) == Sum(hs, OwnedByAny(Keepers(users, ids), symbol))
    decreases |ids|
  {
    if ids == {} {
      SumOfNone(hs, OwnedByAny(Keepers(users, ids), symbol));
    } else {
      var p :| p in ids && SumOfRows(rows, ids, symbol) == rows[(p, symbol)] + SumOfRows(rows, ids - {p}, symbol);
      var u := LastUser(users, p).value;
      RowsAddUp(rows, hs, users, ids - {p}, symbol);
      OneKeeperLess(users, ids, p);
      OnePartyMore(hs, Keepers(users, ids), u, symbol);
    }
  }

  lemma StoredIdsHit(users: seq<string>, p: string, symbol: string)
    requires p in StoredIds(users) && IsTarget(symbol)
    ensures Hit(users, (p, symbol))
  {
    var u :| u in users && TrimSpace(u) == p && p != "";
    LastUserExists(users, u);
  }

  /** Every holding of the symbol belongs to a user whose balance is stored. */
  ghost predicate AllKept(hs: seq<Holding>, users: seq<string>, symbol: string) {
    forall h :: h in hs && h.amount.Some? && BalanceLabel(h) == symbol ==>
      h.owner != "" && TrimSpace(h.owner) != "" && LastUser(users, TrimSpace(h.owner)) == Some(h.owner)
  }

  function Labelled(symbol: string): (sel: Selector) {
    (h: Holding) => BalanceLabel(h) == symbol
  }

  lemma {:induction false} SumAgrees(hs: seq<Holding>, a: Selector, b: Selector)
    requires forall h :: h in hs && h.amount.Some? ==> a(h) == b(h)
    ensures Sum(hs, a) == Sum(hs, b)
  {
    if |hs| == 0 {
    } else {
      assert hs[|hs| - 1] in hs;
      SumAgrees(hs[..|hs| - 1], a, b);
    }
  }

  /** The stored balances of a symbol add up to the holdings of that label, if their owners' balances are all stored. */
  lemma StoredBalancesAddUp(rows: Rows, hs: seq<Holding>, users: seq<string>, symbol: string)
    requires IsTarget(symbol) && AllKept(hs, users, symbol)
    ensures forall p :: p in StoredIds(users) ==> (p, symbol) in Rewritten(rows, hs, users)
    ensures SumOfRows(Rewritten(rows, hs, users), StoredIds(users), symbol) == Sum(hs, Labelled(symbol))
  {
    var ids := StoredIds(users);
    forall p | p in ids
      ensures LastUser(users, p).Some? && (p, symbol) in Rewritten(rows, hs, users)
      ensures Rewritten(rows, hs, users)[(p, symbol)] == Balance(hs, LastUser(users, p).value, symbol)
    {
      StoredIdsHit(users, p, symbol);
      RewrittenRow(rows, hs, users, (p, symbol));
    }
    RowsAddUp(Rewritten(rows, hs, users), hs, users, ids, symbol);
    KeptOwners(hs, users, symbol);
    SumAgrees(hs, OwnedByAny(Keepers(users, ids), symbol), Labelled(symbol));
  }

  lemma KeptOwners(hs: seq<Holding>, users: seq<string>, symbol: string)
    requires AllKept(hs, users, symbol) && forall p :: p in StoredIds(users) ==> LastUser(users, p).Some?
    ensures forall h :: h in hs && h.amount.Some? && BalanceLabel(h) == symbol ==>
        h.owner in Keepers(users, StoredIds(users))
  {
    forall h | h in hs && h.amount.Some? && BalanceLabel(h) == symbol
      ensures h.owner in Keepers(users, StoredIds(users))
    {
      assert h.owner in users && TrimSpace(h.owner) in StoredIds(users);
    }
  }

  /** The stored balances of a symbol against the stored supply. */
  ghost predicate AddsUp(totals: Totals, rows: Rows, ids: set<string>, symbol: string) {
    && Key(symbol) in totals
    && (forall p :: p in ids ==> (p, symbol) in rows)
    && SumOfRows(rows, ids, symbol) == totals[Key(symbol)]
  }

  /**
   * After failure-free writes from one snapshot whose DEMO holders all have their balance
   * stored: the stored DEMO balances add up to the stored DEMO supply in every order of
   * the map, if and only if the spellings of DEMO agree.
   */
  lemma StoredDemoAddsUpIff(hs: seq<Holding>, users: seq<string>, before: Totals, rows: Rows)
    requires NoBlank(SupplySymbols(hs)) && AllKept(hs, users, DEMO)
    ensures (forall order :: IsOrder(SupplySymbols(hs), order) ==>
               AddsUp(Written(before, SupplyMap(hs), order), Rewritten(rows, hs, users), StoredIds(users), DEMO))
            <==> SpellingsAgree(before, hs, DEMO)
  {
    StoredBalancesAddUp(rows, hs, users, DEMO);
    SumAgrees(hs, Labelled(DEMO), InSupply(DEMO));
    StoredSupplyCurrentIff(before, hs, DEMO);
    forall order | IsOrder(SupplySymbols(hs), order)
      ensures AddsUp(Written(before, SupplyMap(hs), order), Rewritten(rows, hs, users), StoredIds(users), DEMO)
              <==> CurrentIn(Written(before, SupplyMap(hs), order), hs, DEMO)
    {
    }
  }

  lemma {:induction false} PromptSplits(hs: seq<Holding>)
    requires forall h :: h in hs && h.amount.Some? ==> h.symbol != UNKNOWN
    ensures Supply(hs, PROMPT) + Supply(hs, UNKNOWN) == Sum(hs, Labelled(PROMPT))
  {
    if |hs| == 0 {
    } else {
      assert hs[|hs| - 1] in hs;
      PromptSplits(hs[..|hs| - 1]);
    }
  }

  /** The stored PROMPT balances against the stored PROMPT and UNKNOWN supplies, a missing row counting as zero. */
  ghost predicate PromptAddsUp(totals: Totals, rows: Rows, ids: set<string>) {
    && (forall p :: p in ids ==> (p, PROMPT) in rows)
    && SumOfRows(rows, ids, PROMPT) == RowOrZero(totals, PROMPT) + RowOrZero(totals, UNKNOWN)
  }

  /** Whichever figures the two rows end with, they are the holdings labelled PROMPT or not at all. */
  ghost predicate FiguresAgree(before: Totals, hs: seq<Holding>) {
    forall v, w :: MayEndWith(before, hs, PROMPT, v) && MayEndWith(before, hs, UNKNOWN, w) ==>
      v + w == Sum(hs, Labelled(PROMPT))
  }

  /**
   * Likewise for PROMPT, whose balances include the holdings without a symbol, counted as
   * UNKNOWN in the supply: they add up to the two stored supplies in every order of the map,
   * if and only if the figures the two rows may end with agree.
   */
  lemma StoredPromptAddsUpIff(hs: seq<Holding>, users: seq<string>, before: Totals, rows: Rows)
    requires AllKept(hs, users, PROMPT)
    ensures (forall order :: IsOrder(SupplySymbols(hs), order) ==>
               PromptAddsUp(Written(before, SupplyMap(hs), order), Rewritten(rows, hs, users), StoredIds(users)))
            <==> FiguresAgree(before, hs)
  {
    PromptKey();
    UnknownKey();
    StoredBalancesAddUp(rows, hs, users, PROMPT);
    if FiguresAgree(before, hs) {
      forall order | IsOrder(SupplySymbols(hs), order)
        ensures PromptAddsUp(Written(before, SupplyMap(hs), order), Rewritten(rows, hs, users), StoredIds(users))
      {
        EndsWith(before, hs, PROMPT, order);
        EndsWith(before, hs, UNKNOWN, order);
      }
    } else {
      var v, w :| MayEndWith(before, hs, PROMPT, v) && MayEndWith(before, hs, UNKNOWN, w) &&
                  v + w != Sum(hs, Labelled(PROMPT));
      var order := EndTogether(before, hs, PROMPT, UNKNOWN, v, w);
      assert !PromptAddsUp(Written(before, SupplyMap(hs), order), Rewritten(rows, hs, users), StoredIds(users));
    }
  }

  /** On a freshly seeded database, with PROMPT and UNKNOWN spelled one way only, the figures agree. */
  lemma SeededFiguresAgree(hs: seq<Holding>, before: Totals)
    requires forall h :: h in hs && h.amount.Some? ==> h.symbol != UNKNOWN
    requires forall t :: t in SupplySymbols(hs) && Key(t) in {PROMPT, UNKNOWN} ==> t == Key(t)
    requires RowOrZero(before, PROMPT) == 0.0 && RowOrZero(before, UNKNOWN) == 0.0
    ensures FiguresAgree(before, hs)
  {
    PromptKey();
    UnknownKey();
    PromptSplits(hs);
    OneSpelling(hs, before, PROMPT);
    OneSpelling(hs, before, UNKNOWN);
  }

  lemma OneSpelling(hs: seq<Holding>, before: Totals, s: string)
    requires RowOrZero(before, Key(s)) == 0.0 && forall t :: SharesRow(hs, s, t) ==> t == s
    ensures forall v :: MayEndWith(before, hs, s, v) ==> v == Supply(hs, s)
  {
    if forall t :: !SharesRow(hs, s, t) {
      AloneIsZero(hs, s);
    }
  }

  /** Two spellings of DEMO in one wallet. */
  function TwoSpellings(party: string, other: string): (hs: seq<Holding>) {
    [Holding(party, DEMO, Some(5.0)), Holding(party, other, Some(3.0))]
  }

  lemma {:induction false} SumOfTwo(h: Holding, g: Holding, sel: Selector)
    ensures Sum([h, g], sel)
            == (if sel(h) && h.amount.Some? then h.amount.value else 0.0)
               + if sel(g) && g.amount.Some? then g.amount.value else 0.0
  {
    SumExtends([], h, sel);
    SumExtends([h], g, sel);
    assert [] + [h] == [h] && [h] + [g] == [h, g];
  }

  lemma TwoSpellingsSums(party: string, other: string)
    requires party != "" && other != "" && other != DEMO
    ensures var hs := TwoSpellings(party, other);
            && Supply(hs, DEMO) == 5.0 && Supply(hs, other) == 3.0 && Balance(hs, party, DEMO) == 5.0
            && SupplySymbols(hs) == {DEMO, other}
  {
    var h, g := Holding(party, DEMO, Some(5.0)), Holding(party, other, Some(3.0));
    SumOfTwo(h, g, InSupply(DEMO));
    SumOfTwo(h, g, InSupply(other));
    SumOfTwo(h, g, InBalance(party, DEMO));
    assert forall x :: x in [h, g] <==> x == h || x == g;
  }

  /** They are written to the same row, so one order leaves the other's supply next to the balance of DEMO. */
  lemma TwoSpellingsDisagree(party: string, other: string, before: Totals)
    requires party != "" && other != "" && other != DEMO && Key(other) == DEMO
    ensures var hs, order := TwoSpellings(party, other), [DEMO, other];
            && IsOrder(SupplySymbols(hs), order) && NoBlank(SupplySymbols(hs))
            && DEMO in Written(before, SupplyMap(hs), order) && Written(before, SupplyMap(hs), order)[DEMO] == 3.0
            && Balance(hs, party, DEMO) == 5.0
  {
    var hs := TwoSpellings(party, other);
    TwoSpellingsSums(party, other);
    DemoKey();
    WrittenNext(before, SupplyMap(hs), [DEMO], other);
    assert [DEMO] + [other] == [DEMO, other];
  }

  lemma OneOwnerKept(hs: seq<Holding>, owner: string, symbol: string)
    requires TrimSpace(owner) == owner != "" && forall h :: h in hs ==> h.owner == owner
    ensures AllKept(hs, [owner], symbol)
  {
  }

  lemma TwoSpellingsClash(party: string, other: string, before: Totals)
    requires party != "" && other != "" && other != DEMO && Key(other) == DEMO
    ensures !SpellingsAgree(before, TwoSpellings(party, other), DEMO)
  {
    TwoSpellingsSums(party, other);
    DemoKey();
    assert SharesRow(TwoSpellings(party, other), DEMO, other);
  }

  lemma DemoAndDemo()
    ensures Key("demo") == DEMO && "demo" != DEMO && TrimSpace("p") == "p"
  {
    LowerCaseDemo();
    assert "demo"[0] != DEMO[0];
  }

  /** Holdings of DEMO and demo by a user named p: the balances to be stored are all kept, and the spellings disagree. */
  lemma DemoSpelledTwice(before: Totals)
    ensures AllKept(TwoSpellings("p", "demo"), ["p"], DEMO)
    ensures !SpellingsAgree(before, TwoSpellings("p", "demo"), DEMO)
  {
    DemoAndDemo();
    OneOwnerKept(TwoSpellings("p", "demo"), "p", DEMO);
    TwoSpellingsClash("p", "demo", before);
  }

  /** So, with one order of the map, the reconciled store holds a supply of 3 next to balances of 5. */
  lemma DemoStoredTwice(before: Totals, rows: Rows)
    ensures var hs, order := TwoSpellings("p", "demo"), [DEMO, "demo"];
            var totals, balances := Written(before, SupplyMap(hs), order), Rewritten(rows, hs, ["p"]);
            && IsOrder(SupplySymbols(hs), order) && DEMO in totals && totals[DEMO] == 3.0
            && (forall p :: p in StoredIds(["p"]) ==> (p, DEMO) in balances)
            && SumOfRows(balances, StoredIds(["p"]), DEMO) == 5.0
  {
    DemoAndDemo();
    TwoSpellingsDisagree("p", "demo", before);
    TwoSpellingsBalances("p", "demo", rows);
  }

  lemma TwoSpellingsBalances(party: string, other: string, rows: Rows)
    requires TrimSpace(party) == party != "" && other != "" && other != DEMO
    ensures var balances := Rewritten(rows, TwoSpellings(party, other), [party]);
            && (forall p :: p in StoredIds([party]) ==> (p, DEMO) in balances)
            && SumOfRows(balances, StoredIds([party]), DEMO) == 5.0
  {
    var hs := TwoSpellings(party, other);
    OneOwnerKept(hs, party, DEMO);
    StoredBalancesAddUp(rows, hs, [party], DEMO);
    SumAgrees(hs, Labelled(DEMO), InSupply(DEMO));
    TwoSpellingsSums(party, other);
  }
}
