/**
 * The prepared-transfer cache (pkg/transfer/cache.go): a map with a time to live,
 * a capacity, an atomic take and a background sweeper. Every operation holds the
 * cache's lock from beginning to end, so a concurrent run is a sequence of them;
 * each operation reads the clock once, as its `now`.
 */
module TransferCache {
  import opened Wrappers

  datatype PreparedTransfer = PreparedTransfer(id: string, partyId: string, transaction: string, expiresAt: int)

  datatype CacheError = TransferNotFound | TransferExpired | CacheFull

  type Entries = map<string, PreparedTransfer>

  datatype Config = Config(ttl: int, maxSize: int)

  predicate IsExpired(t: PreparedTransfer, now: int) {
    now > t.expiresAt
  }

  function Stamped(cfg: Config, t: PreparedTransfer, now: int): (s: PreparedTransfer) {
    t.(expiresAt := now + cfg.ttl)
  }

  datatype Op = Put(transfer: PreparedTransfer, now: int) | Take(id: string, now: int) | Sweep(now: int)

  datatype Outcome = Stored(entry: PreparedTransfer) | Full | Taken(entry: PreparedTransfer) | NotFound | Expired | Swept

  function Live(entries: Entries, now: int): (live: Entries) {
    map id | id in entries && !IsExpired(entries[id], now) :: entries[id]
  }

  /** The effect and the outcome of one operation. */
  function Apply(cfg: Config, entries: Entries, op: Op): (r: (Entries, Outcome)) {
    match op
    case Put(t, now) =>
      if cfg.maxSize > 0 && |entries| >= cfg.maxSize then (entries, Full)
      else (entries[t.id := Stamped(cfg, t, now)], Stored(Stamped(cfg, t, now)))
    case Take(id, now) =>
      if id !in entries then (entries, NotFound)
      else (entries - {id}, if IsExpired(entries[id], now) then Expired else Taken(entries[id]))
    case Sweep(now) => (Live(entries, now), Swept)
  }

  /** A put is refused exactly at capacity; otherwise the transfer is kept as it is, but for its expiry. */
  lemma PutStamps(cfg: Config, entries: Entries, t: PreparedTransfer, now: int)
    ensures var (after, outcome) := Apply(cfg, entries, Put(t, now));
            if cfg.maxSize > 0 && |entries| >= cfg.maxSize then after == entries && outcome == Full
            else
              var entry := PreparedTransfer(t.id, t.partyId, t.transaction, now + cfg.ttl);
              after == entries[t.id := entry] && outcome == Stored(entry)
  {
  }

  class PreparedTransferCache {
    var entries: Entries
    const cfg: Config

    constructor (ttl: int, maxSize: int)
      ensures entries == map[] && cfg == Config(ttl, maxSize)
    {
      entries, cfg := map[], Config(ttl, maxSize);
    }

    /** On success, returns the transfer with the expiry the cache has written into it. */
    method Put(transfer: PreparedTransfer, now: int) returns (r: Result<PreparedTransfer, CacheError>)
      modifies this
      ensures entries == Apply(cfg, old(entries), Op.Put(transfer, now)).0
      ensures match Apply(cfg, old(entries), Op.Put(transfer, now)).1
              case Stored(entry) => r == Ok(entry)
              case _ => r == Err(CacheFull)
    {
      if cfg.maxSize > 0 && |entries| >= cfg.maxSize {
        return Err(CacheFull);
      }
      var stamped := transfer.(expiresAt := now + cfg.ttl);
      entries := entries[stamped.id := stamped];
      r := Ok(stamped);
    }

    method GetAndDelete(id: string, now: int) returns (r: Result<PreparedTransfer, CacheError>)
      modifies this
      ensures entries == Apply(cfg, old(entries), Take(id, now)).0
      ensures match Apply(cfg, old(entries), Take(id, now)).1
              case Taken(entry) => r == Ok(entry)
              case Expired => r == Err(TransferExpired)
              case _ => r == Err(TransferNotFound)
    {
      if id !in entries {
        return Err(TransferNotFound);
      }
      var entry := entries[id];
      entries := entries - {id};
      if now > entry.expiresAt {
        return Err(TransferExpired);
      }
      r := Ok(entry);
    }

    /** Deletes while iterating, in whatever order the map yields its keys. */
    method Cleanup(now: int)
      modifies this
      ensures entries == Live(old(entries), now)
    {
      var keys := entries.Keys;
      while keys != {}
        invariant keys <= entries.Keys <= old(entries).Keys
        invariant forall id :: id in entries ==> entries[id] == old(entries)[id]
        invariant forall id :: id in old(entries) && id !in keys ==>
            (id in entries <==> !IsExpired(old(entries)[id], now))
        decreases |keys|
      {
        var id :| id in keys;
        keys := keys - {id};
        if now > entries[id].expiresAt {
          entries := entries - {id};
        }
      }
    }
  }

  // ----- whole runs, from an empty cache

  function StateAfter(cfg: Config, ops: seq<Op>): (entries: Entries) {
    if |ops| == 0 then map[]
    else Apply(cfg, StateAfter(cfg, ops[..|ops| - 1]), ops[|ops| - 1]).0
  }

  function OutcomeOf(cfg: Config, ops: seq<Op>, i: nat): (outcome: Outcome)
    requires i < |ops|
  {
    Apply(cfg, StateAfter(cfg, ops[..i]), ops[i]).1
  }

  /** Cutting a run does not change what happened before the cut. */
  lemma OutcomeOfPrefix(cfg: Config, ops: seq<Op>, n: nat, i: nat)
    requires i < n <= |ops|
    ensures OutcomeOf(cfg, ops[..n], i) == OutcomeOf(cfg, ops, i)
  {
    assert ops[..n][..i] == ops[..i];
  }

  predicate StoresId(outcome: Outcome, id: string) {
    outcome.Stored? && outcome.entry.id == id
  }

  predicate TakesId(outcome: Outcome, id: string) {
    outcome.Taken? && outcome.entry.id == id
  }

  function PutCount(cfg: Config, ops: seq<Op>, id: string): (n: nat) {
    if |ops| == 0 then 0
    else
      var last := |ops| - 1;
      PutCount(cfg, ops[..last], id) + if StoresId(OutcomeOf(cfg, ops, last), id) then 1 else 0
  }

  function TakeCount(cfg: Config, ops: seq<Op>, id: string): (n: nat) {
    if |ops| == 0 then 0
    else
      var last := |ops| - 1;
      TakeCount(cfg, ops[..last], id) + if TakesId(OutcomeOf(cfg, ops, last), id) then 1 else 0
  }

  ghost predicate WellKeyed(entries: Entries) {
    forall id :: id in entries ==> entries[id].id == id
  }

  lemma {:induction false} StateWellKeyed(cfg: Config, ops: seq<Op>)
    ensures WellKeyed(StateAfter(cfg, ops))
  {
    if ops == [] {
    } else {
      StateWellKeyed(cfg, ops[..|ops| - 1]);
    }
  }

  /** Single use: for every id, successful takes plus the entry still cached never exceed successful puts. */
  lemma {:induction false} SingleUse(cfg: Config, ops: seq<Op>, id: string)
    ensures TakeCount(cfg, ops, id) + (if id in StateAfter(cfg, ops) then 1 else 0) <= PutCount(cfg, ops, id)
  {
    if ops == [] {
    } else {
      SingleUse(cfg, ops[..|ops| - 1], id);
      StateWellKeyed(cfg, ops[..|ops| - 1]);
    }
  }

  /** A positive capacity is never exceeded. */
  lemma {:induction false} CapacityKept(cfg: Config, ops: seq<Op>)
    requires cfg.maxSize > 0
    ensures |StateAfter(cfg, ops)| <= cfg.maxSize
  {
    if ops == [] {
    } else {
      var before := StateAfter(cfg, ops[..|ops| - 1]);
      CapacityKept(cfg, ops[..|ops| - 1]);
      match ops[|ops| - 1]
      case Put(t, now) =>
        assert before[t.id := Stamped(cfg, t, now)].Keys == before.Keys + {t.id};
      case Take(id, _) =>
        assert (before - {id}).Keys == before.Keys - {id};
      case Sweep(now) =>
        KeysBound(Live(before, now).Keys, before.Keys);
    }
  }

  lemma KeysBound(a: set<string>, b: set<string>)
    requires a <= b
    ensures |a| <= |b|
  {
    assert b == a + (b - a);
  }

  ghost function Outcomes(cfg: Config, ops: seq<Op>): (outs: seq<Outcome>)
    ensures |outs| == |ops| && forall i :: 0 <= i < |ops| ==> outs[i] == OutcomeOf(cfg, ops, i)
  {
    seq(|ops|, i requires 0 <= i < |ops| => OutcomeOf(cfg, ops, i))
  }

  lemma OutcomesNext(cfg: Config, ops: seq<Op>, op: Op)
    ensures Outcomes(cfg, ops + [op]) == Outcomes(cfg, ops) + [Apply(cfg, StateAfter(cfg, ops), op).1]
  {
    var all := ops + [op];
    forall i | 0 <= i < |all|
      ensures OutcomeOf(cfg, all, i) == if i < |ops| then OutcomeOf(cfg, ops, i) else Apply(cfg, StateAfter(cfg, ops), op).1
    {
      if i < |ops| {
        assert all[..|ops|] == ops;
        OutcomeOfPrefix(cfg, all, |ops|, i);
      } else {
        assert all[..i] == ops;
      }
    }
  }

  /** Operation `j` stored `entry`, and nothing since has stored or taken its id. */
  ghost predicate LastPut(cfg: Config, ops: seq<Op>, outs: seq<Outcome>, entry: PreparedTransfer, j: nat) {
    && j < |ops| == |outs| && ops[j].Put?
    && outs[j] == Stored(entry)
    && entry == Stamped(cfg, ops[j].transfer, ops[j].now)
    && forall k :: j < k < |outs| ==> !StoresId(outs[k], entry.id) && !TakesId(outs[k], entry.id)
  }

  lemma LastPutKept(
      cfg: Config, ops: seq<Op>, outs: seq<Outcome>, entry: PreparedTransfer, j: nat, op: Op, out: Outcome)
    requires LastPut(cfg, ops, outs, entry, j) && !StoresId(out, entry.id) && !TakesId(out, entry.id)
    ensures LastPut(cfg, ops + [op], outs + [out], entry, j)
  {
  }

  /** An entry no operation has just stored was there before, and was not taken. */
  lemma EntryKept(cfg: Config, entries: Entries, op: Op, id: string)
    requires WellKeyed(entries)
    requires var (after, outcome) := Apply(cfg, entries, op); id in after && !StoresId(outcome, id)
    ensures var (after, outcome) := Apply(cfg, entries, op);
            id in entries && entries[id] == after[id] && !TakesId(outcome, id)
  {
  }

  lemma EntryStored(cfg: Config, entries: Entries, op: Op, id: string)
    requires StoresId(Apply(cfg, entries, op).1, id)
    ensures op.Put? && id in Apply(cfg, entries, op).0
    ensures Apply(cfg, entries, op).1 == Stored(Apply(cfg, entries, op).0[id])
    ensures Apply(cfg, entries, op).0[id] == Stamped(cfg, op.transfer, op.now)
  {
  }

  lemma {:induction false} CachedFromLastPut(cfg: Config, ops: seq<Op>, id: string) returns (j: nat)
    requires id in StateAfter(cfg, ops)
    ensures LastPut(cfg, ops, Outcomes(cfg, ops), StateAfter(cfg, ops)[id], j)
  {
    var last := |ops| - 1;
    var init, op := ops[..last], ops[last];
    var before := StateAfter(cfg, init);
    assert ops == init + [op];
    OutcomesNext(cfg, init, op);
    StateWellKeyed(cfg, init);
    if StoresId(Apply(cfg, before, op).1, id) {
      EntryStored(cfg, before, op, id);
      j := last;
    } else {
      EntryKept(cfg, before, op, id);
      j := CachedFromLastPut(cfg, init, id);
      LastPutKept(cfg, init, Outcomes(cfg, init), before[id], j, op, Apply(cfg, before, op).1);
    }
  }

  /**
   * A successful take returns, unexpired, exactly what the last successful put of
   * that id stored, and nothing took it in between.
   */
  lemma TakenIsLastPut(cfg: Config, ops: seq<Op>, i: nat) returns (j: nat)
    requires i < |ops| && OutcomeOf(cfg, ops, i).Taken?
    ensures ops[i].Take? && OutcomeOf(cfg, ops, i).entry.id == ops[i].id
    ensures LastPut(cfg, ops[..i], Outcomes(cfg, ops[..i]), OutcomeOf(cfg, ops, i).entry, j)
    ensures ops[i].now <= ops[j].now + cfg.ttl
  {
    StateWellKeyed(cfg, ops[..i]);
    j := CachedFromLastPut(cfg, ops[..i], ops[i].id);
  }

  // ----- the sweeper is invisible

  predicate ClockMonotone(ops: seq<Op>) {
    forall i, j :: 0 <= i < j < |ops| ==> ops[i].now <= ops[j].now
  }

  function WithoutSweeps(ops: seq<Op>): (r: seq<Op>) {
    if |ops| == 0 then []
    else
      var last := |ops| - 1;
      WithoutSweeps(ops[..last]) + if ops[last].Sweep? then [] else [ops[last]]
  }

  lemma {:induction false} WithoutSweepsPrefix(ops: seq<Op>, n: nat)
    requires n <= |ops|
    ensures WithoutSweeps(ops[..n]) <= WithoutSweeps(ops)
    decreases |ops|
  {
    if n < |ops| {
      var last := |ops| - 1;
      WithoutSweepsPrefix(ops[..last], n);
      assert ops[..last][..n] == ops[..n];
    } else {
      assert ops[..n] == ops;
    }
  }

  /** Where operation `i` of a run ends up when the sweeps are left out. */
  function SweeplessIndex(ops: seq<Op>, i: nat): (k: nat)
    requires i < |ops|
  {
    |WithoutSweeps(ops[..i])|
  }

  lemma {:induction false} SweeplessIndexIsOp(ops: seq<Op>, i: nat)
    requires i < |ops| && !ops[i].Sweep?
    ensures SweeplessIndex(ops, i) < |WithoutSweeps(ops)|
    ensures WithoutSweeps(ops)[SweeplessIndex(ops, i)] == ops[i]
    ensures WithoutSweeps(ops)[..SweeplessIndex(ops, i)] == WithoutSweeps(ops[..i])
  {
    WithoutSweepsPrefix(ops, i + 1);
    assert ops[..i + 1][..i] == ops[..i];
  }

  /** The swept cache agrees with the unswept one, which holds expired entries besides. */
  ghost predicate SweptOf(swept: Entries, unswept: Entries, now: int) {
    && (forall id :: id in swept ==> id in unswept && swept[id] == unswept[id])
    && (forall id :: id in unswept && id !in swept ==> IsExpired(unswept[id], now))
  }

  lemma SweptStep(cfg: Config, swept: Entries, unswept: Entries, op: Op, now: int)
    requires cfg.maxSize <= 0 && SweptOf(swept, unswept, op.now) && op.now <= now
    ensures SweptOf(Apply(cfg, swept, op).0, if op.Sweep? then unswept else Apply(cfg, unswept, op).0, now)
  {
  }

  lemma {:induction false} SweptSimulates(cfg: Config, ops: seq<Op>, now: int)
    requires cfg.maxSize <= 0 && ClockMonotone(ops) && (ops != [] ==> ops[|ops| - 1].now <= now)
    ensures SweptOf(StateAfter(cfg, ops), StateAfter(cfg, WithoutSweeps(ops)), now)
    decreases |ops|
  {
    if ops == [] {
    } else {
      var last := |ops| - 1;
      var before := WithoutSweeps(ops[..last]);
      SweptSimulates(cfg, ops[..last], ops[last].now);
      SweptStep(cfg, StateAfter(cfg, ops[..last]), StateAfter(cfg, before), ops[last], now);
      if ops[last].Sweep? {
        assert WithoutSweeps(ops) == before;
      } else {
        assert WithoutSweeps(ops) == before + [ops[last]];
      }
    }
  }

  /** Equal, or both failures of a take. */
  predicate SameResult(a: Outcome, b: Outcome) {
    a == b || (a == NotFound && b == Expired)
  }

  ghost predicate SweeperInvisible(cfg: Config) {
    forall ops: seq<Op>, i: nat :: ClockMonotone(ops) && i < |ops| && !ops[i].Sweep? ==> SweeplessSame(cfg, ops, i)
  }

  ghost predicate SweeplessSame(cfg: Config, ops: seq<Op>, i: nat)
    requires i < |ops|
  {
    var k := SweeplessIndex(ops, i);
    k < |WithoutSweeps(ops)| && SameResult(OutcomeOf(cfg, ops, i), OutcomeOf(cfg, WithoutSweeps(ops), k))
  }

  lemma SweepsDoNotShow(cfg: Config, ops: seq<Op>, i: nat)
    requires cfg.maxSize <= 0 && ClockMonotone(ops) && i < |ops| && !ops[i].Sweep?
    ensures SweeplessSame(cfg, ops, i)
  {
    SweeplessIndexIsOp(ops, i);
    SweptSimulates(cfg, ops[..i], ops[i].now);
  }

  lemma {:induction false} StateNext(cfg: Config, ops: seq<Op>, op: Op)
    ensures StateAfter(cfg, ops + [op]) == Apply(cfg, StateAfter(cfg, ops), op).0
    ensures WithoutSweeps(ops + [op]) == if op.Sweep? then WithoutSweeps(ops) else WithoutSweeps(ops) + [op]
  {
    assert (ops + [op])[..|ops|] == ops;
    assert WithoutSweeps(ops) + [] == WithoutSweeps(ops);
  }

  /** A put at time 0 of an id of this length. */
  function FillOp(n: nat): (op: Op) {
    Put(PreparedTransfer(seq(n, _ => 'x'), "", "", 0), 0)
  }

  /** `n` puts of different ids at time 0. */
  function Fill(n: nat): (ops: seq<Op>) {
    if n == 0 then [] else Fill(n - 1) + [FillOp(n)]
  }

  ghost predicate Filled(cfg: Config, entries: Entries, n: nat) {
    |entries| == n && forall id :: id in entries ==> 0 < |id| <= n && entries[id].expiresAt == cfg.ttl
  }

  lemma FilledNext(cfg: Config, entries: Entries, n: nat)
    requires Filled(cfg, entries, n) && n < cfg.maxSize
    ensures Filled(cfg, Apply(cfg, entries, FillOp(n + 1)).0, n + 1)
  {
    assert FillOp(n + 1).transfer.id !in entries;
  }

  lemma {:induction false} FillFills(cfg: Config, n: nat)
    requires n <= cfg.maxSize
    ensures Filled(cfg, StateAfter(cfg, Fill(n)), n)
    ensures WithoutSweeps(Fill(n)) == Fill(n)
  {
    if n == 0 {
    } else {
      FillFills(cfg, n - 1);
      StateNext(cfg, Fill(n - 1), FillOp(n));
      FilledNext(cfg, StateAfter(cfg, Fill(n - 1)), n - 1);
    }
  }

  lemma AppendLater(ops: seq<Op>, op: Op)
    requires ClockMonotone(ops) && forall k :: 0 <= k < |ops| ==> ops[k].now <= op.now
    ensures ClockMonotone(ops + [op])
  {
  }

  lemma {:induction false} FillClock(n: nat)
    ensures |Fill(n)| == n && forall k :: 0 <= k < n ==> Fill(n)[k].now == 0
  {
    if n == 0 {
    } else {
      FillClock(n - 1);
    }
  }

  /** Filling, then a sweep once everything has expired. */
  function FillSweep(n: nat, late: int): (ops: seq<Op>) {
    Fill(n) + [Sweep(late)]
  }

  lemma {:induction false} FillSweepEmpties(cfg: Config, late: int)
    requires cfg.maxSize > 0 && late > cfg.ttl
    ensures StateAfter(cfg, FillSweep(cfg.maxSize, late)) == map[]
    ensures WithoutSweeps(FillSweep(cfg.maxSize, late)) == Fill(cfg.maxSize)
  {
    FillFills(cfg, cfg.maxSize);
    StateNext(cfg, Fill(cfg.maxSize), Sweep(late));
  }

  lemma {:induction false} FillSweepClock(n: nat, late: int, op: Op)
    requires late >= 0 && op.now == late
    ensures |FillSweep(n, late)| == n + 1 && ClockMonotone(FillSweep(n, late) + [op])
  {
    FillClock(n);
    AppendLater(Fill(n), Sweep(late));
    AppendLater(FillSweep(n, late), op);
  }

  /** The outcome of one more operation, with and without the sweeps before it. */
  lemma {:induction false} OutcomeOfLast(cfg: Config, ops: seq<Op>, op: Op)
    requires !op.Sweep?
    ensures OutcomeOf(cfg, ops + [op], |ops|) == Apply(cfg, StateAfter(cfg, ops), op).1
    ensures var k := SweeplessIndex(ops + [op], |ops|);
            && k < |WithoutSweeps(ops + [op])|
            && OutcomeOf(cfg, WithoutSweeps(ops + [op]), k) == Apply(cfg, StateAfter(cfg, WithoutSweeps(ops)), op).1
  {
    assert (ops + [op])[..|ops|] == ops;
    StateNext(cfg, ops, op);
    var rest := WithoutSweeps(ops);
    assert (rest + [op])[..|rest|] == rest;
  }

  /** A cache filled to a positive capacity refuses the next put, unless a sweep came first. */
  lemma {:induction false} SweepFreesCapacity(cfg: Config) returns (ops: seq<Op>, i: nat)
    requires cfg.maxSize > 0
    ensures ClockMonotone(ops) && i < |ops| && ops[i].Put?
    ensures OutcomeOf(cfg, ops, i).Stored?
    ensures !SweeplessSame(cfg, ops, i)
  {
    var late := if cfg.ttl >= 0 then cfg.ttl + 1 else 0;
    var before, put := FillSweep(cfg.maxSize, late), Put(FillOp(0).transfer, late);
    ops, i := before + [put], |before|;
    FillSweepClock(cfg.maxSize, late, put);
    RoomOnlyAfterSweep(cfg, late, put);
    OutcomeOfLast(cfg, before, put);
  }

  lemma RoomOnlyAfterSweep(cfg: Config, late: int, put: Op)
    requires cfg.maxSize > 0 && late > cfg.ttl && put.Put?
    ensures var before := FillSweep(cfg.maxSize, late);
            && Apply(cfg, StateAfter(cfg, before), put).1.Stored?
            && Apply(cfg, StateAfter(cfg, WithoutSweeps(before)), put).1 == Full
  {
    FillSweepEmpties(cfg, late);
    FillFills(cfg, cfg.maxSize);
  }

  /** The sweeper never shows in any run if and only if the capacity is unlimited. */
  lemma SweeperInvisibleIffUnlimited(cfg: Config)
    ensures SweeperInvisible(cfg) <==> cfg.maxSize <= 0
  {
    if cfg.maxSize <= 0 {
      forall ops: seq<Op>, i: nat | ClockMonotone(ops) && i < |ops| && !ops[i].Sweep?
        ensures SweeplessSame(cfg, ops, i)
      {
        SweepsDoNotShow(cfg, ops, i);
      }
    } else {
      var ops, i := SweepFreesCapacity(cfg);
    }
  }
}
