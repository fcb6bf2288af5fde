/**
 * The poll loop of pkg/ethereum/client.go, written as the source writes it and
 * proved to be a run of the step machine in Poller.
 */
module Client {
  import opened Arith
  import opened Chunks
  import opened Poller
  import opened Wrappers

  /** The consumer callback. Whether a call returns nil is up to the caller of the poller. */
  class Handler {
    ghost var calls: seq<Call>

    constructor ()
      ensures calls == []
    {
      calls := [];
    }

    method Deposit(d: Deposit) returns (ok: bool)
      modifies this
      ensures calls == old(calls) + [DepositCall(d, ok)]
    {
      ok := *;
      calls := calls + [DepositCall(d, ok)];
    }

    method Checkpoint(block: uint64) returns (ok: bool)
      modifies this
      ensures calls == old(calls) + [CheckpointCall(block as int, ok)]
    {
      ok := *;
      calls := calls + [CheckpointCall(block as int, ok)];
    }
  }

  /** The node's log filter and iterator, which may fail at any time. */
  class LogSource {
    ghost var failures: nat

    constructor ()
      ensures failures == 0
    {
      failures := 0;
    }

    method Fails() returns (failed: bool)
      modifies this
      ensures failures == old(failures) + if failed then 1 else 0
    {
      failed := *;
      if failed {
        failures := failures + 1;
      }
    }
  }

  // What the events of a run say about the node.

  ghost function Heads(evs: seq<Event>): (heads: seq<Option<int>>) {
    if |evs| == 0 then [] else Heads(evs[..|evs| - 1]) + HeadOf(evs[|evs| - 1])
  }

  ghost function HeadOf(ev: Event): (heads: seq<Option<int>>) {
    match ev
    case HeadFailed => [None]
    case HeadSeen(latest) => [Some(latest)]
    case _ => []
  }

  /** The highest of `from` and the heads that could be read. */
  ghost function Highest(from: nat, heads: seq<Option<int>>): (h: int) {
    if |heads| == 0 then from
    else
      var rest, last := Highest(from, heads[..|heads| - 1]), heads[|heads| - 1];
      if last.Some? then Max(rest, last.value) else rest
  }

  lemma {:induction false} HighestNext(from: nat, heads: seq<Option<int>>, ev: Event)
    ensures Highest(from, heads + HeadOf(ev))
            == if ev.HeadSeen? then Max(Highest(from, heads), ev.latest) else Highest(from, heads)
  {
    if HeadOf(ev) == [] {
      assert heads + [] == heads;
    } else {
      assert (heads + HeadOf(ev))[..|heads|] == heads;
    }
  }

  lemma {:induction false} TopHeadIsHighest(from: nat, evs: seq<Event>)
    ensures TopHead(from, evs) == Highest(from, Heads(evs))
  {
    if |evs| == 0 {
    } else {
      var rest, ev := evs[..|evs| - 1], evs[|evs| - 1];
      TopHeadIsHighest(from, rest);
      assert evs == rest + [ev];
      TopHeadExtends(from, rest, ev);
      HighestNext(from, Heads(rest), ev);
    }
  }

  ghost function ScanFailures(evs: seq<Event>): (n: nat) {
    if |evs| == 0 then 0
    else ScanFailures(evs[..|evs| - 1]) + if evs[|evs| - 1].ScanFailed? then 1 else 0
  }

  lemma {:induction false} NoFailures(evs: seq<Event>)
    requires ScanFailures(evs) == 0
    ensures NoScanFailed(evs)
  {
    if evs == [] {
    } else {
      NoFailures(evs[..|evs| - 1]);
    }
  }

  lemma {:induction false} EventAdded(chain: Chain, maxRange: nat, p: State, evs: seq<Event>, ev: Event)
    requires Legal(chain, maxRange, p, evs) && Enabled(chain, Run(chain, maxRange, p, evs), ev)
    ensures Legal(chain, maxRange, p, evs + [ev])
    ensures Run(chain, maxRange, p, evs + [ev]) == Step(chain, maxRange, Run(chain, maxRange, p, evs), ev)
    ensures Heads(evs + [ev]) == Heads(evs) + HeadOf(ev)
    ensures ScanFailures(evs + [ev]) == ScanFailures(evs) + if ev.ScanFailed? then 1 else 0
  {
    RunExtends(chain, maxRange, p, evs, ev);
    assert (evs + [ev])[..|evs|] == evs;
  }

  ghost function AsInt(head: Option<uint64>): (h: Option<int>) {
    match head
    case None => None
    case Some(b) => Some(b as int)
  }

  class Client {
    const maxBlockRange: uint64
    var lastScannedBlock: uint64

    constructor (maxBlockRange: uint64)
      ensures this.maxBlockRange == maxBlockRange && lastScannedBlock == 0
    {
      this.maxBlockRange := maxBlockRange;
      lastScannedBlock := 0;
    }

    /**
     * The events `evs` take the machine from `start` to the state this client and its
     * handler are in; they hold these heads and as many failed scans as the node reported.
     */
    ghost predicate Tracks(
        chain: Chain, start: State, evs: seq<Event>, heads: seq<Option<int>>, currentBlock: uint64, phase: Phase,
        handler: Handler, source: LogSource)
      reads this, handler, source
    {
      && Legal(chain, maxBlockRange as int, start, evs)
      && Run(chain, maxBlockRange as int, start, evs)
           == State(currentBlock as int, lastScannedBlock as int, phase, handler.calls)
      && Heads(evs) == heads
      && ScanFailures(evs) == source.failures
    }

    method GetLastScannedBlock() returns (b: uint64)
      ensures b == lastScannedBlock
    {
      b := lastScannedBlock;
    }

    /**
     * The engine's readiness check against a head: the later of the saved offset and the scan
     * position, one block of lag allowed, in 64 bits. If the scan position is what counts,
     * being ready means that every deposit below the head has been delivered.
     */
    method CaughtUpWith(
        ethLastBlock: uint64, head: uint64, ghost chain: Chain, ghost fromBlock: nat, ghost poller: State)
      returns (synced: bool)
      requires Inv(chain, maxBlockRange as int, fromBlock, 0, poller) && poller.lastScanned == lastScannedBlock as int
      ensures var last := Max(ethLastBlock as int, lastScannedBlock as int);
              synced <==> if last == MAX_UINT64 then head == 0 else last + 1 >= head as int
      ensures synced && ethLastBlock <= lastScannedBlock ==>
          Delivered(chain, fromBlock, head as int - 1, poller.trace, |poller.trace|)
    {
      var scannedBlock := GetLastScannedBlock();
      var lastProcessed := ethLastBlock;
      if scannedBlock > lastProcessed {
        lastProcessed := scannedBlock;
      }
      synced := if lastProcessed as int == MAX_UINT64 then head == 0 else lastProcessed + 1 >= head;
    }

    method SetLastScannedBlock(b: uint64)
      modifies this
      ensures lastScannedBlock as int == Max(old(lastScannedBlock) as int, b as int)
    {
      if b > lastScannedBlock {
        lastScannedBlock := b;
      }
    }

    /** One call of the filter or the iterator: a failure ends the tick. */
    method ScanFails(
        chain: Chain, handler: Handler, source: LogSource, ghost start: State, ghost before: seq<Event>,
        ghost heads: seq<Option<int>>, ghost currentBlock: uint64, ghost phase: Phase)
      returns (failed: bool, ghost evs: seq<Event>)
      requires phase.Scanning? && Tracks(chain, start, before, heads, currentBlock, phase, handler, source)
      modifies source
      ensures Tracks(chain, start, evs, heads, currentBlock, if failed then Idle else phase, handler, source)
    {
      evs := before;
      failed := source.Fails();
      if failed {
        EventAdded(chain, maxBlockRange as int, start, evs, ScanFailed);
        evs := evs + [ScanFailed];
      }
    }

    /** One log of the slice: unless the iterator fails, it is handed over. */
    method HandLog(
        chain: Chain, d: Deposit, handler: Handler, source: LogSource, ghost start: State, ghost before: seq<Event>,
        ghost heads: seq<Option<int>>, ghost currentBlock: uint64, ghost phase: Phase)
      returns (ok: bool, ghost evs: seq<Event>)
      requires phase.Scanning? && Tracks(chain, start, before, heads, currentBlock, phase, handler, source)
      requires var logs := Logs(chain, currentBlock as int + 1, phase.sliceEnd); phase.next < |logs| && logs[phase.next] == d
      modifies handler, source
      ensures Tracks(chain, start, evs, heads, currentBlock, if ok then phase.(next := phase.next + 1) else Idle, handler, source)
    {
      ok := false;
      var failed;
      failed, evs := ScanFails(chain, handler, source, start, before, heads, currentBlock, phase);
      if !failed {
        ok := handler.Deposit(d);
        EventAdded(chain, maxBlockRange as int, start, evs, DepositHandled(ok));
        evs := evs + [DepositHandled(ok)];
      }
    }

    /** scanDepositRange: hands over the slice's logs in order until something fails. */
    method ScanDepositRange(
        chain: Chain, r: BlockRange, handler: Handler, source: LogSource, ghost start: State,
        ghost before: seq<Event>, ghost heads: seq<Option<int>>, ghost currentBlock: uint64, ghost head: nat)
      returns (ok: bool, ghost evs: seq<Event>)
      requires currentBlock < r.start && r.start as int == currentBlock as int + 1
      requires Tracks(chain, start, before, heads, currentBlock, Scanning(head, r.end as int, 0), handler, source)
      modifies handler, source
      ensures ok ==>
          Tracks(chain, start, evs, heads, currentBlock,
                 Scanning(head, r.end as int, |Logs(chain, r.start as int, r.end as int)|), handler, source)
      ensures !ok ==> Tracks(chain, start, evs, heads, currentBlock, Idle, handler, source)
    {
      var failed;
      failed, evs := ScanFails(chain, handler, source, start, before, heads, currentBlock, Scanning(head, r.end as int, 0));
      if failed {
        return false, evs;
      }
      var logs := Logs(chain, r.start as int, r.end as int);
      var i := 0;
      while i < |logs|
        invariant 0 <= i <= |logs|
        invariant Tracks(chain, start, evs, heads, currentBlock, Scanning(head, r.end as int, i), handler, source)
      {
        ok, evs := HandLog(chain, logs[i], handler, source, start, evs, heads, currentBlock, Scanning(head, r.end as int, i));
        if !ok {
          return;
        }
        i := i + 1;
      }
      failed, evs := ScanFails(chain, handler, source, start, evs, heads, currentBlock, Scanning(head, r.end as int, i));
      ok := !failed;
    }

    /** One slice: its deposits, then its checkpoint; only an accepted checkpoint moves currentBlock. */
    method AdvanceSlice(
        chain: Chain, r: BlockRange, handler: Handler, source: LogSource, currentBlock: uint64, ghost start: State,
        ghost before: seq<Event>, ghost heads: seq<Option<int>>, ghost head: nat)
      returns (ok: bool, current: uint64, ghost evs: seq<Event>)
      requires currentBlock < r.start && r.start as int == currentBlock as int + 1
      requires Tracks(chain, start, before, heads, currentBlock, Scanning(head, r.end as int, 0), handler, source)
      modifies this, handler, source
      ensures current == if ok then r.end else currentBlock
      ensures Tracks(chain, start, evs, heads, current,
                     if ok then NextPhase(r.end as int, head, maxBlockRange as int) else Idle, handler, source)
    {
      current := currentBlock;
      ok, evs := ScanDepositRange(chain, r, handler, source, start, before, heads, current, head);
      if ok {
        ok := handler.Checkpoint(r.end);
        EventAdded(chain, maxBlockRange as int, start, evs, CheckpointHandled(ok));
        evs := evs + [CheckpointHandled(ok)];
        if ok {
          current := r.end;
          SetLastScannedBlock(current);
        }
      }
    }

    /** One tick of the poll loop, on the head read or None: returns the new currentBlock. */
    method Tick(
        chain: Chain, currentBlock: uint64, head: Option<uint64>, handler: Handler, source: LogSource,
        ghost start: State, ghost before: seq<Event>, ghost heads: seq<Option<int>>)
      returns (current: uint64, ghost evs: seq<Event>)
      requires Tracks(chain, start, before, heads, currentBlock, Idle, handler, source)
      modifies this, handler, source
      ensures Tracks(chain, start, evs, heads + [AsInt(head)], current, Idle, handler, source)
    {
      current, evs := currentBlock, before;
      if head.None? {
        EventAdded(chain, maxBlockRange as int, start, evs, HeadFailed);
        evs := evs + [HeadFailed];
        return;
      }
      var latestBlock := head.value;
      ghost var seen := heads + [AsInt(head)];
      EventAdded(chain, maxBlockRange as int, start, evs, HeadSeen(latestBlock as int));
      evs := evs + [HeadSeen(latestBlock as int)];
      if latestBlock <= current {
        SetLastScannedBlock(latestBlock);
        return;
      }
      var chunks := ChunkRange(current + 1, latestBlock, maxBlockRange);
      ghost var first := current + 1;
      if chunks != [] {
        FirstSlice(chunks, first, latestBlock, maxBlockRange);
      }
      var i := 0;
      while i < |chunks|
        invariant 0 <= i <= |chunks|
        invariant i < |chunks| ==>
            && chunks[i].start as int == current as int + 1
            && Tracks(chain, start, evs, seen, current, Scanning(latestBlock as int, chunks[i].end as int, 0), handler, source)
        invariant i == |chunks| ==> Tracks(chain, start, evs, seen, current, Idle, handler, source)
      {
        var advanced;
        advanced, current, evs :=
          AdvanceSlice(chain, chunks[i], handler, source, current, start, evs, seen, latestBlock as int);
        if !advanced {
          return;
        }
        NextSlice(chunks, first, latestBlock, maxBlockRange, i);
        i := i + 1;
      }
    }

    /**
     * WatchDepositEvents, canceled after one tick for each of `heads`: the latest
     * block read at that tick, or None when the read failed. The handler's calls are
     * the trace of a machine run from `fromBlock`, so they satisfy Poller.Inv; and if
     * nothing failed, everything up to the highest head has been delivered.
     */
    method WatchDepositEvents(
        chain: Chain, fromBlock: uint64, handler: Handler, source: LogSource, heads: seq<Option<uint64>>)
      returns (currentBlock: uint64, ghost evs: seq<Event>)
      requires ChainOk(chain) && handler.calls == [] && source.failures == 0
      modifies this, handler, source
      ensures Tracks(chain, Init(fromBlock as int, old(lastScannedBlock) as int), evs,
                     seq(|heads|, i requires 0 <= i < |heads| => AsInt(heads[i])), currentBlock, Idle, handler, source)
      ensures Inv(chain, maxBlockRange as int, fromBlock as int, old(lastScannedBlock) as int,
                  State(currentBlock as int, lastScannedBlock as int, Idle, handler.calls))
      ensures old(lastScannedBlock) <= fromBlock ==> lastScannedBlock == currentBlock
      ensures source.failures == 0 && AllAccepted(handler.calls) && maxBlockRange > 0 ==>
          currentBlock as int == Highest(fromBlock as int, Heads(evs))
    {
      ghost var start := Init(fromBlock as int, lastScannedBlock as int);
      ghost var seen: seq<Option<int>> := [];
      currentBlock, evs := fromBlock, [];
      SetLastScannedBlock(currentBlock);
      for t := 0 to |heads|
        invariant |seen| == t && forall i :: 0 <= i < t ==> seen[i] == AsInt(heads[i])
        invariant Tracks(chain, start, evs, seen, currentBlock, Idle, handler, source)
      {
        currentBlock, evs := Tick(chain, currentBlock, heads[t], handler, source, start, evs, seen);
        seen := seen + [AsInt(heads[t])];
      }
      assert seen == seq(|heads|, i requires 0 <= i < |heads| => AsInt(heads[i]));
      PollerSafety(chain, maxBlockRange as int, fromBlock as int, old(lastScannedBlock) as int, evs);
      if source.failures == 0 && AllAccepted(handler.calls) && maxBlockRange > 0 {
        NoFailures(evs);
        TopHeadIsHighest(fromBlock as int, evs);
        PollerProgress(chain, maxBlockRange as int, fromBlock as int, old(lastScannedBlock) as int, evs);
      }
    }
  }

  /** The first slice chunkRange cuts is the one the machine opens on seeing the head. */
  lemma FirstSlice(chunks: seq<BlockRange>, start: uint64, head: uint64, maxRange: uint64)
    requires start > 0 && IsPartition(chunks, start as int, head as int, maxRange as int)
    ensures NextPhase(start as int - 1, head as int, maxRange as int) == Scanning(head as int, chunks[0].end as int, 0)
  {
    SliceCount(chunks, start as int, head as int, maxRange as int);
    if |chunks| > 1 {
      SlicesOrdered(chunks, start as int, head as int, maxRange as int, 0, |chunks| - 1);
    }
  }

  /** The slices that follow are those the machine opens after each accepted checkpoint. */
  lemma NextSlice(chunks: seq<BlockRange>, start: uint64, head: uint64, maxRange: uint64, i: nat)
    requires i < |chunks| && IsPartition(chunks, start as int, head as int, maxRange as int)
    ensures i == |chunks| - 1 ==> NextPhase(chunks[i].end as int, head as int, maxRange as int) == Idle
    ensures i < |chunks| - 1 ==>
        && chunks[i + 1].start as int == chunks[i].end as int + 1
        && NextPhase(chunks[i].end as int, head as int, maxRange as int)
             == Scanning(head as int, chunks[i + 1].end as int, 0)
  {
    SliceCount(chunks, start as int, head as int, maxRange as int);
    if i + 1 < |chunks| - 1 {
      SlicesOrdered(chunks, start as int, head as int, maxRange as int, i + 1, |chunks| - 1);
    }
  }
}
