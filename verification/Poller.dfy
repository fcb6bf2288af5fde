/**
 * The deposit poller (pkg/ethereum/client.go) as a step machine.
 *
 * The chain is fixed; the reported head, the log filter, the iterator and every
 * handler call may fail or vary at each step.
 */
module Poller {
  import opened Arith
  import opened Chunks

  /** A deposit log: `id` is the transaction hash and log index that name it. */
  datatype Deposit = Deposit(id: string, block: nat, payload: string)

  type Chain = nat -> seq<Deposit>

  ghost predicate On(chain: Chain, d: Deposit) {
    d in chain(d.block)
  }

  ghost predicate ChainOk(chain: Chain) {
    && (forall b: nat, d :: d in chain(b) ==> d.block == b)
    && (forall d, e :: On(chain, d) && On(chain, e) && d.id == e.id ==> d == e)
    && (forall d :: On(chain, d) ==> d.block <= MAX_UINT64)
  }

  /** What the log filter returns for [start, end]. */
  function Logs(chain: Chain, start: nat, end: int): (logs: seq<Deposit>)
    decreases end - start
  {
    if start > end then [] else chain(start) + Logs(chain, start + 1, end)
  }

  lemma {:induction false} LogsComplete(chain: Chain, start: nat, end: int, d: Deposit)
    requires ChainOk(chain)
    ensures d in Logs(chain, start, end) <==> On(chain, d) && start <= d.block <= end
    decreases end - start
  {
    if start > end {
    } else {
      LogsComplete(chain, start + 1, end, d);
    }
  }

  lemma {:induction false} LogsOrdered(chain: Chain, start: nat, end: int, i: nat, j: nat)
    requires ChainOk(chain) && i <= j < |Logs(chain, start, end)|
    ensures Logs(chain, start, end)[i].block <= Logs(chain, start, end)[j].block
    decreases end - start
  {
    var n := |chain(start)|;
    if i >= n {
      LogsOrdered(chain, start + 1, end, i - n, j - n);
    } else {
      LogsComplete(chain, start, end, Logs(chain, start, end)[j]);
      assert chain(start)[i] in chain(start);
    }
  }

  /** A deposit of a lower block has a lower position. */
  lemma LowerComesEarlier(chain: Chain, start: nat, end: int, i: nat, d: Deposit) returns (k: nat)
    requires ChainOk(chain) && i < |Logs(chain, start, end)|
    requires On(chain, d) && start <= d.block < Logs(chain, start, end)[i].block
    ensures k < i && Logs(chain, start, end)[k] == d
  {
    var logs := Logs(chain, start, end);
    LogsComplete(chain, start, end, logs[i]);
    LogsComplete(chain, start, end, d);
    k :| 0 <= k < |logs| && logs[k] == d;
    if k >= i {
      LogsOrdered(chain, start, end, i, k);
    }
  }

  /** One call to the handler, and whether it returned nil. */
  datatype Call =
    | DepositCall(deposit: Deposit, ok: bool)
    | CheckpointCall(block: nat, ok: bool)

  /** `next` counts the logs of the slice (current, sliceEnd] handed over so far. */
  datatype Phase = Idle | Scanning(head: nat, sliceEnd: nat, next: nat)

  datatype State = State(current: nat, lastScanned: nat, phase: Phase, trace: seq<Call>)

  datatype Event =
    | HeadFailed
    | HeadSeen(latest: nat)
    | ScanFailed                 // filter or iterator error
    | DepositHandled(ok: bool)
    | CheckpointHandled(ok: bool)

  /** The end of the first slice chunkRange cuts from [current + 1, head]. */
  function SliceEnd(current: nat, head: nat, maxRange: nat): (end: int) {
    if head - current > maxRange then current + maxRange else head
  }

  function Init(fromBlock: nat, lastScanned: nat): (p: State) {
    State(fromBlock, Max(lastScanned, fromBlock), Idle, [])
  }

  function SliceLogs(chain: Chain, p: State): (logs: seq<Deposit>)
    requires p.phase.Scanning?
  {
    Logs(chain, p.current + 1, p.phase.sliceEnd)
  }

  predicate Enabled(chain: Chain, p: State, ev: Event) {
    match ev
    case HeadFailed => p.phase.Idle?
    case HeadSeen(latest) => p.phase.Idle? && latest <= MAX_UINT64
    case ScanFailed => p.phase.Scanning?
    case DepositHandled(_) => p.phase.Scanning? && p.phase.next < |SliceLogs(chain, p)|
    case CheckpointHandled(_) => p.phase.Scanning? && p.phase.next == |SliceLogs(chain, p)|
  }

  /** Open the slice that follows `current`, or end the tick when the head is reached. */
  function NextPhase(current: nat, head: nat, maxRange: nat): (phase: Phase) {
    if current < head && maxRange > 0 then Scanning(head, SliceEnd(current, head, maxRange), 0) else Idle
  }

  function Step(chain: Chain, maxRange: nat, p: State, ev: Event): (q: State)
    requires Enabled(chain, p, ev)
  {
    match ev
    case HeadFailed => p
    case HeadSeen(latest) =>
      if latest <= p.current then p.(lastScanned := Max(p.lastScanned, latest))
      else p.(phase := NextPhase(p.current, latest, maxRange))
    case ScanFailed => p.(phase := Idle)
    case DepositHandled(ok) =>
      p.(trace := p.trace + [DepositCall(SliceLogs(chain, p)[p.phase.next], ok)],
         phase := if ok then p.phase.(next := p.phase.next + 1) else Idle)
    case CheckpointHandled(ok) =>
      var end := p.phase.sliceEnd;
      var q := p.(trace := p.trace + [CheckpointCall(end, ok)], phase := Idle);
      if ok then
        q.(current := end, lastScanned := Max(p.lastScanned, end), phase := NextPhase(end, p.phase.head, maxRange))
      else q
  }

  /** The call `c` was made and returned nil among the first `n` calls. */
  ghost predicate Accepted(trace: seq<Call>, n: nat, d: Deposit) {
    exists i :: 0 <= i < n && i < |trace| && trace[i] == DepositCall(d, true)
  }

  ghost predicate AcceptedCheckpoint(trace: seq<Call>, i: int) {
    0 <= i < |trace| && trace[i].CheckpointCall? && trace[i].ok
  }

  /** Every deposit of (fromBlock, block] was accepted within the first `n` calls. */
  ghost predicate Delivered(chain: Chain, fromBlock: nat, block: int, trace: seq<Call>, n: nat) {
    forall d :: On(chain, d) && fromBlock < d.block <= block ==> Accepted(trace, n, d)
  }

  /** The readiness value is `current`, unless the client had already scanned further. */
  ghost predicate Ready(fromBlock: nat, lastScanned: nat, p: State) {
    fromBlock <= p.current && p.lastScanned == Max(lastScanned, p.current)
  }

  /** An accepted checkpoint comes after every deposit it covers, and none of them comes after it. */
  ghost predicate CheckpointsSound(chain: Chain, fromBlock: nat, p: State) {
    && (forall i :: AcceptedCheckpoint(p.trace, i) ==>
            fromBlock < p.trace[i].block <= p.current && Delivered(chain, fromBlock, p.trace[i].block, p.trace, i))
    && (forall i, j :: AcceptedCheckpoint(p.trace, i) && AcceptedCheckpoint(p.trace, j) && i < j ==>
            p.trace[i].block < p.trace[j].block)
    && (forall i, j :: AcceptedCheckpoint(p.trace, i) && i < j < |p.trace| && p.trace[j].DepositCall? ==>
            p.trace[i].block < p.trace[j].deposit.block)
    && (p.current == fromBlock || exists i :: AcceptedCheckpoint(p.trace, i) && p.trace[i].block == p.current)
  }

  /** Only deposits of the chain are handed over, at most one slice beyond `current`. */
  ghost predicate DeliveryConfined(chain: Chain, maxRange: nat, fromBlock: nat, p: State) {
    forall i :: 0 <= i < |p.trace| && p.trace[i].DepositCall? ==>
      var d := p.trace[i].deposit;
      On(chain, d) && fromBlock < d.block <= p.current + maxRange
  }

  ghost predicate SliceSound(chain: Chain, maxRange: nat, p: State) {
    p.phase.Scanning? ==>
      && maxRange > 0
      && p.current < p.phase.sliceEnd <= p.phase.head <= MAX_UINT64
      && p.phase.sliceEnd <= p.current + maxRange
      && p.phase.next <= |SliceLogs(chain, p)|
      && forall k :: 0 <= k < p.phase.next ==> Accepted(p.trace, |p.trace|, SliceLogs(chain, p)[k])
  }

  ghost predicate Inv(chain: Chain, maxRange: nat, fromBlock: nat, lastScanned: nat, p: State) {
    && Ready(fromBlock, lastScanned, p)
    && Delivered(chain, fromBlock, p.current, p.trace, |p.trace|)
    && CheckpointsSound(chain, fromBlock, p)
    && DeliveryConfined(chain, maxRange, fromBlock, p)
    && SliceSound(chain, maxRange, p)
  }

  lemma AcceptedGrows(trace: seq<Call>, n: nat, more: seq<Call>, m: nat, d: Deposit)
    requires Accepted(trace, n, d) && trace <= more && n <= m
    ensures Accepted(more, m, d)
  {
    var i :| 0 <= i < n && i < |trace| && trace[i] == DepositCall(d, true);
    assert more[i] == DepositCall(d, true);
  }

  lemma DeliveredGrows(chain: Chain, fromBlock: nat, block: int, trace: seq<Call>, n: nat, more: seq<Call>, m: nat)
    requires Delivered(chain, fromBlock, block, trace, n) && trace <= more && n <= m
    ensures Delivered(chain, fromBlock, block, more, m)
  {
    forall d | On(chain, d) && fromBlock < d.block <= block
      ensures Accepted(more, m, d)
    {
      AcceptedGrows(trace, n, more, m, d);
    }
  }

  /** Deposits of the slice in lower blocks than the next one have been accepted. */
  lemma LowerInSlice(chain: Chain, maxRange: nat, p: State, d: Deposit)
    requires ChainOk(chain) && SliceSound(chain, maxRange, p) && Enabled(chain, p, DepositHandled(true))
    requires On(chain, d) && p.current < d.block < SliceLogs(chain, p)[p.phase.next].block
    ensures Accepted(p.trace, |p.trace|, d)
  {
    var k := LowerComesEarlier(chain, p.current + 1, p.phase.sliceEnd, p.phase.next, d);
  }

  /** What was handed over of a slice, and one more deposit of it. */
  lemma SliceAdvances(chain: Chain, p: State, q: State)
    requires p.phase.Scanning? && q.phase == p.phase.(next := p.phase.next + 1) && q.current == p.current
    requires p.phase.next < |SliceLogs(chain, p)|
    requires q.trace == p.trace + [DepositCall(SliceLogs(chain, p)[p.phase.next], true)]
    requires forall k :: 0 <= k < p.phase.next ==> Accepted(p.trace, |p.trace|, SliceLogs(chain, p)[k])
    ensures forall k :: 0 <= k < q.phase.next ==> Accepted(q.trace, |q.trace|, SliceLogs(chain, q)[k])
  {
    var logs := SliceLogs(chain, p);
    assert q.trace[|p.trace|] == DepositCall(logs[p.phase.next], true);
    forall k | 0 <= k < q.phase.next
      ensures Accepted(q.trace, |q.trace|, logs[k])
    {
      if k < p.phase.next {
        AcceptedGrows(p.trace, |p.trace|, q.trace, |q.trace|, logs[k]);
      }
    }
  }

  lemma DeliveryStaysConfined(chain: Chain, maxRange: nat, fromBlock: nat, p: State, q: State, d: Deposit, ok: bool)
    requires DeliveryConfined(chain, maxRange, fromBlock, p) && q.current == p.current
    requires q.trace == p.trace + [DepositCall(d, ok)] && On(chain, d) && fromBlock < d.block <= p.current + maxRange
    ensures DeliveryConfined(chain, maxRange, fromBlock, q)
  {
    forall i | 0 <= i < |q.trace| && q.trace[i].DepositCall?
      ensures var e := q.trace[i].deposit; On(chain, e) && fromBlock < e.block <= q.current + maxRange
    {
      if i < |p.trace| {
        assert q.trace[i] == p.trace[i];
      }
    }
  }

  lemma DepositStep(chain: Chain, maxRange: nat, fromBlock: nat, lastScanned: nat, p: State, ok: bool)
    requires ChainOk(chain) && Inv(chain, maxRange, fromBlock, lastScanned, p)
    requires Enabled(chain, p, DepositHandled(ok))
    ensures Inv(chain, maxRange, fromBlock, lastScanned, Step(chain, maxRange, p, DepositHandled(ok)))
  {
    var q := Step(chain, maxRange, p, DepositHandled(ok));
    var d := SliceLogs(chain, p)[p.phase.next];
    LogsComplete(chain, p.current + 1, p.phase.sliceEnd, d);
    DeliveredGrows(chain, fromBlock, p.current, p.trace, |p.trace|, q.trace, |q.trace|);
    CheckpointsKept(chain, fromBlock, p, q);
    DeliveryStaysConfined(chain, maxRange, fromBlock, p, q, d, ok);
    if ok {
      SliceAdvances(chain, p, q);
    }
  }

  /** Steps that make no call and do not move. */
  lemma QuietStep(chain: Chain, maxRange: nat, fromBlock: nat, lastScanned: nat, p: State, q: State)
    requires Inv(chain, maxRange, fromBlock, lastScanned, p) && q.current == p.current && q.trace == p.trace
    requires Ready(fromBlock, lastScanned, q)
    requires q.phase.Scanning? ==>
        p.phase.Idle? && maxRange > 0 && p.current < q.phase.head <= MAX_UINT64
        && q.phase == NextPhase(p.current, q.phase.head, maxRange)
    ensures Inv(chain, maxRange, fromBlock, lastScanned, q)
  {
    if p.current != fromBlock {
      var i :| AcceptedCheckpoint(p.trace, i) && p.trace[i].block == p.current;
      assert AcceptedCheckpoint(q.trace, i);
    }
  }

  /** Appending a call for a deposit beyond `current`, or a refused checkpoint, disturbs no accepted checkpoint. */
  lemma CheckpointsKept(chain: Chain, fromBlock: nat, p: State, q: State)
    requires CheckpointsSound(chain, fromBlock, p)
    requires q.current == p.current && |q.trace| == |p.trace| + 1 && p.trace <= q.trace
    requires q.trace[|p.trace|].DepositCall? ==> q.trace[|p.trace|].deposit.block > p.current
    requires q.trace[|p.trace|].CheckpointCall? ==> !q.trace[|p.trace|].ok
    ensures CheckpointsSound(chain, fromBlock, q)
  {
    forall i | AcceptedCheckpoint(q.trace, i)
      ensures fromBlock < q.trace[i].block <= q.current && Delivered(chain, fromBlock, q.trace[i].block, q.trace, i)
    {
      assert AcceptedCheckpoint(p.trace, i);
      DeliveredGrows(chain, fromBlock, p.trace[i].block, p.trace, i, q.trace, i);
    }
    if p.current != fromBlock {
      var i :| AcceptedCheckpoint(p.trace, i) && p.trace[i].block == p.current;
      assert AcceptedCheckpoint(q.trace, i);
    }
    forall i, j | AcceptedCheckpoint(q.trace, i) && AcceptedCheckpoint(q.trace, j) && i < j
      ensures q.trace[i].block < q.trace[j].block
    {
      assert AcceptedCheckpoint(p.trace, i) && AcceptedCheckpoint(p.trace, j);
    }
    forall i, j | AcceptedCheckpoint(q.trace, i) && i < j < |q.trace| && q.trace[j].DepositCall?
      ensures q.trace[i].block < q.trace[j].deposit.block
    {
      assert AcceptedCheckpoint(p.trace, i);
    }
  }

  lemma CheckpointStep(chain: Chain, maxRange: nat, fromBlock: nat, lastScanned: nat, p: State, ok: bool)
    requires ChainOk(chain) && Inv(chain, maxRange, fromBlock, lastScanned, p)
    requires Enabled(chain, p, CheckpointHandled(ok))
    ensures Inv(chain, maxRange, fromBlock, lastScanned, Step(chain, maxRange, p, CheckpointHandled(ok)))
  {
    var q := Step(chain, maxRange, p, CheckpointHandled(ok));
    if ok {
      SliceDelivered(chain, maxRange, fromBlock, lastScanned, p);
      DeliveredGrows(chain, fromBlock, p.phase.sliceEnd, p.trace, |p.trace|, q.trace, |p.trace|);
      DeliveredGrows(chain, fromBlock, p.phase.sliceEnd, p.trace, |p.trace|, q.trace, |q.trace|);
      CheckpointAdded(chain, fromBlock, p, q);
    } else {
      DeliveredGrows(chain, fromBlock, p.current, p.trace, |p.trace|, q.trace, |q.trace|);
      CheckpointsKept(chain, fromBlock, p, q);
    }
  }

  /** Once a slice is exhausted, everything through its end has been accepted. */
  lemma SliceDelivered(chain: Chain, maxRange: nat, fromBlock: nat, lastScanned: nat, p: State)
    requires ChainOk(chain) && Inv(chain, maxRange, fromBlock, lastScanned, p)
    requires p.phase.Scanning? && p.phase.next == |SliceLogs(chain, p)|
    ensures Delivered(chain, fromBlock, p.phase.sliceEnd, p.trace, |p.trace|)
  {
    forall d | On(chain, d) && fromBlock < d.block <= p.phase.sliceEnd
      ensures Accepted(p.trace, |p.trace|, d)
    {
      if d.block > p.current {
        LogsComplete(chain, p.current + 1, p.phase.sliceEnd, d);
        var k :| 0 <= k < |SliceLogs(chain, p)| && SliceLogs(chain, p)[k] == d;
      }
    }
  }

  lemma CheckpointAdded(chain: Chain, fromBlock: nat, p: State, q: State)
    requires CheckpointsSound(chain, fromBlock, p)
    requires |q.trace| == |p.trace| + 1 && p.trace <= q.trace
    requires q.trace[|p.trace|] == CheckpointCall(q.current, true) && q.current > p.current >= fromBlock
    requires Delivered(chain, fromBlock, q.current, q.trace, |p.trace|)
    ensures CheckpointsSound(chain, fromBlock, q)
  {
    forall i | AcceptedCheckpoint(q.trace, i)
      ensures fromBlock < q.trace[i].block <= q.current && Delivered(chain, fromBlock, q.trace[i].block, q.trace, i)
    {
      if i < |p.trace| {
        assert AcceptedCheckpoint(p.trace, i);
        DeliveredGrows(chain, fromBlock, p.trace[i].block, p.trace, i, q.trace, i);
      }
    }
    forall i, j | AcceptedCheckpoint(q.trace, i) && AcceptedCheckpoint(q.trace, j) && i < j
      ensures q.trace[i].block < q.trace[j].block
    {
      assert AcceptedCheckpoint(p.trace, i);
      if j < |p.trace| { assert AcceptedCheckpoint(p.trace, j); }
    }
    forall i, j | AcceptedCheckpoint(q.trace, i) && i < j < |q.trace| && q.trace[j].DepositCall?
      ensures q.trace[i].block < q.trace[j].deposit.block
    {
      assert AcceptedCheckpoint(p.trace, i);
    }
    assert AcceptedCheckpoint(q.trace, |p.trace|);
  }

  lemma StepKeepsInv(chain: Chain, maxRange: nat, fromBlock: nat, lastScanned: nat, p: State, ev: Event)
    requires ChainOk(chain) && Inv(chain, maxRange, fromBlock, lastScanned, p) && Enabled(chain, p, ev)
    ensures Inv(chain, maxRange, fromBlock, lastScanned, Step(chain, maxRange, p, ev))
    ensures Step(chain, maxRange, p, ev).current >= p.current
  {
    match ev
    case DepositHandled(ok) => DepositStep(chain, maxRange, fromBlock, lastScanned, p, ok);
    case CheckpointHandled(ok) => CheckpointStep(chain, maxRange, fromBlock, lastScanned, p, ok);
    case _ => QuietStep(chain, maxRange, fromBlock, lastScanned, p, Step(chain, maxRange, p, ev));
  }

  /** Whole runs. */
  predicate Legal(chain: Chain, maxRange: nat, p: State, evs: seq<Event>)
    decreases |evs|
  {
    evs == [] || (Enabled(chain, p, evs[0]) && Legal(chain, maxRange, Step(chain, maxRange, p, evs[0]), evs[1..]))
  }

  function Run(chain: Chain, maxRange: nat, p: State, evs: seq<Event>): (q: State)
    requires Legal(chain, maxRange, p, evs)
    decreases |evs|
  {
    if evs == [] then p else Run(chain, maxRange, Step(chain, maxRange, p, evs[0]), evs[1..])
  }

  lemma {:induction false} RunKeepsInv(chain: Chain, maxRange: nat, fromBlock: nat, lastScanned: nat, p: State, evs: seq<Event>)
    requires ChainOk(chain) && Inv(chain, maxRange, fromBlock, lastScanned, p) && Legal(chain, maxRange, p, evs)
    ensures Inv(chain, maxRange, fromBlock, lastScanned, Run(chain, maxRange, p, evs))
    ensures p.current <= Run(chain, maxRange, p, evs).current
    decreases |evs|
  {
    if evs == [] {
    } else {
      StepKeepsInv(chain, maxRange, fromBlock, lastScanned, p, evs[0]);
      RunKeepsInv(chain, maxRange, fromBlock, lastScanned, Step(chain, maxRange, p, evs[0]), evs[1..]);
    }
  }

  lemma {:induction false} RunExtends(chain: Chain, maxRange: nat, p: State, evs: seq<Event>, ev: Event)
    requires Legal(chain, maxRange, p, evs) && Enabled(chain, Run(chain, maxRange, p, evs), ev)
    ensures Legal(chain, maxRange, p, evs + [ev])
    ensures Run(chain, maxRange, p, evs + [ev]) == Step(chain, maxRange, Run(chain, maxRange, p, evs), ev)
    decreases |evs|
  {
    if evs == [] {
      assert ([] + [ev])[1..] == [];
    } else {
      RunExtends(chain, maxRange, Step(chain, maxRange, p, evs[0]), evs[1..], ev);
      assert (evs + [ev])[1..] == evs[1..] + [ev];
    }
  }

  /** The poller's safety, for every run of a client that starts at `fromBlock`. */
  lemma {:induction false} PollerSafety(chain: Chain, maxRange: nat, fromBlock: nat, lastScanned: nat, evs: seq<Event>)
    requires ChainOk(chain) && Legal(chain, maxRange, Init(fromBlock, lastScanned), evs)
    ensures Inv(chain, maxRange, fromBlock, lastScanned, Run(chain, maxRange, Init(fromBlock, lastScanned), evs))
  {
    RunKeepsInv(chain, maxRange, fromBlock, lastScanned, Init(fromBlock, lastScanned), evs);
  }

  /** Within one run, a deposit at or below an accepted checkpoint is never handed over again. */
  lemma {:induction false} NoRedeliveryBelowCheckpoint(
      chain: Chain, maxRange: nat, fromBlock: nat, lastScanned: nat, evs: seq<Event>, i: nat, j: nat)
    requires ChainOk(chain) && Legal(chain, maxRange, Init(fromBlock, lastScanned), evs)
    requires var trace := Run(chain, maxRange, Init(fromBlock, lastScanned), evs).trace;
             i < j < |trace| && AcceptedCheckpoint(trace, i) && trace[j].DepositCall?
    ensures var q := Run(chain, maxRange, Init(fromBlock, lastScanned), evs);
            q.trace[i].block < q.trace[j].deposit.block <= q.current + maxRange
  {
    PollerSafety(chain, maxRange, fromBlock, lastScanned, evs);
  }

  // ----- progress

  /** Nothing went wrong at this step, apart from the head not being readable. */
  predicate Faultless(ev: Event) {
    match ev
    case ScanFailed => false
    case DepositHandled(ok) => ok
    case CheckpointHandled(ok) => ok
    case _ => true
  }

  function AfterHead(top: nat, ev: Event): (h: nat) {
    if ev.HeadSeen? then Max(top, ev.latest) else top
  }

  /** The highest head seen, counting from `top`. */
  function TopHead(top: nat, evs: seq<Event>): (h: nat)
    decreases |evs|
  {
    if |evs| == 0 then top else TopHead(AfterHead(top, evs[0]), evs[1..])
  }

  lemma {:induction false} TopHeadExtends(top: nat, evs: seq<Event>, ev: Event)
    ensures TopHead(top, evs + [ev]) == AfterHead(TopHead(top, evs), ev)
    decreases |evs|
  {
    if evs == [] {
      assert [ev][1..] == [];
    } else {
      TopHeadExtends(AfterHead(top, evs[0]), evs[1..], ev);
      assert (evs + [ev])[1..] == evs[1..] + [ev];
    }
  }

  /** Between ticks the scan has reached `top`; during one it is on its way there. */
  ghost predicate CaughtUp(p: State, top: nat) {
    match p.phase
    case Idle => p.current == top
    case Scanning(head, _, _) => head == top
  }

  lemma {:induction false} RunCatchesUp(
      chain: Chain, maxRange: nat, fromBlock: nat, lastScanned: nat, p: State, evs: seq<Event>, top: nat)
    requires ChainOk(chain) && Inv(chain, maxRange, fromBlock, lastScanned, p) && Legal(chain, maxRange, p, evs)
    requires maxRange > 0 && CaughtUp(p, top) && forall i :: 0 <= i < |evs| ==> Faultless(evs[i])
    ensures CaughtUp(Run(chain, maxRange, p, evs), TopHead(top, evs))
    decreases |evs|
  {
    if evs == [] {
    } else {
      StepKeepsInv(chain, maxRange, fromBlock, lastScanned, p, evs[0]);
      assert Faultless(evs[0]);
      RunCatchesUp(chain, maxRange, fromBlock, lastScanned, Step(chain, maxRange, p, evs[0]), evs[1..],
                   AfterHead(top, evs[0]));
    }
  }

  ghost predicate AllAccepted(trace: seq<Call>) {
    forall i :: 0 <= i < |trace| ==> trace[i].ok
  }

  predicate NoScanFailed(evs: seq<Event>) {
    forall i :: 0 <= i < |evs| ==> !evs[i].ScanFailed?
  }

  /** A run leaves its handler calls on the trace, so accepted calls are faultless events. */
  lemma {:induction false} AcceptedIsFaultless(chain: Chain, maxRange: nat, p: State, evs: seq<Event>)
    requires Legal(chain, maxRange, p, evs) && AllAccepted(Run(chain, maxRange, p, evs).trace) && NoScanFailed(evs)
    ensures p.trace <= Run(chain, maxRange, p, evs).trace
    ensures forall i :: 0 <= i < |evs| ==> Faultless(evs[i])
    decreases |evs|
  {
    if evs == [] {
    } else {
      var q := Step(chain, maxRange, p, evs[0]);
      assert !evs[0].ScanFailed?;
      assert forall i :: 0 <= i < |evs[1..]| ==> evs[1..][i] == evs[i + 1];
      AcceptedIsFaultless(chain, maxRange, q, evs[1..]);
      assert q.trace <= Run(chain, maxRange, p, evs).trace;
      if |q.trace| > |p.trace| {
        assert q.trace[|p.trace|] == Run(chain, maxRange, p, evs).trace[|p.trace|];
      }
    }
  }

  /**
   * The poller's progress: if no scan failed and every call was accepted, then between
   * ticks the scan has reached the highest head seen and has delivered everything up to it.
   */
  lemma {:induction false} PollerProgress(chain: Chain, maxRange: nat, fromBlock: nat, lastScanned: nat, evs: seq<Event>)
    requires ChainOk(chain) && maxRange > 0 && Legal(chain, maxRange, Init(fromBlock, lastScanned), evs)
    requires var q := Run(chain, maxRange, Init(fromBlock, lastScanned), evs);
             q.phase.Idle? && AllAccepted(q.trace) && NoScanFailed(evs)
    ensures var q := Run(chain, maxRange, Init(fromBlock, lastScanned), evs);
            q.current == TopHead(fromBlock, evs) && Delivered(chain, fromBlock, TopHead(fromBlock, evs), q.trace, |q.trace|)
  {
    var p := Init(fromBlock, lastScanned);
    AcceptedIsFaultless(chain, maxRange, p, evs);
    PollerSafety(chain, maxRange, fromBlock, lastScanned, evs);
    RunCatchesUp(chain, maxRange, fromBlock, lastScanned, p, evs, fromBlock);
  }
}
