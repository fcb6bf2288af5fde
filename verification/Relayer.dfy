/**
 * The Ethereum-to-Canton half of the relayer: the deposit poller feeding a
 * bounded channel (pkg/relayer/engine/source.go), the processor draining it
 * (pkg/relayer/engine/processor.go), the transfer table and the persisted
 * offset (pkg/relayer/store/pg.go), and restarts from that offset
 * (pkg/relayer/engine/engine.go).
 *
 * Two switches tell the consumer the comments describe from the one the code
 * implements: whether the offset is also persisted after each deposit, and
 * whether inserting a transfer may fail. Either way a crash may come anywhere.
 */
module Relayer {
  import opened Chunks
  import P = Poller
  import opened Wrappers

  const CHANNEL_CAPACITY := 10

  datatype Config = Config(
    chain: P.Chain, startBlock: nat, maxRange: nat, persistOnDeposit: bool, createMayFail: bool)

  datatype Message = DepositMsg(deposit: P.Deposit) | CheckpointMsg(block: nat)

  function BlockOf(m: Message): (b: nat) {
    match m
    case DepositMsg(d) => d.block
    case CheckpointMsg(b) => b
  }

  /** `fromBlock` is the offset the process was started with. */
  datatype Process =
    | Down
    | Up(fromBlock: nat, poller: P.State, channel: seq<Message>, lastSaved: Option<nat>)

  datatype State = State(process: Process, transfers: map<string, P.Deposit>, offset: Option<nat>)

  /**
   * How one message fares in the processor. A crash between inserting a transfer
   * and saving the offset is a failed submission followed by a crash.
   */
  datatype Outcome = CreateFails | SubmitFails | Succeeds(offsetSaved: bool)

  datatype Action = Poll(event: P.Event) | Consume(outcome: Outcome) | Crash | Restart

  /** loadEthereumOffset: the later of the stored block and the configured start. */
  function ResumeBlock(cfg: Config, offset: Option<nat>): (b: nat) {
    match offset
    case None => cfg.startBlock
    case Some(stored) => if cfg.startBlock > stored then cfg.startBlock else stored
  }

  /** The process resumes from the stored block, but never from below the configured start. */
  lemma ResumesFrom(cfg: Config, stored: nat)
    ensures ResumeBlock(cfg, None) == cfg.startBlock
    ensures var b := ResumeBlock(cfg, Some(stored)); b >= stored && b >= cfg.startBlock && b in {stored, cfg.startBlock}
  {
  }

  function Init(): (s: State) {
    State(Down, map[], None)
  }

  predicate Sends(event: P.Event) {
    (event.DepositHandled? || event.CheckpointHandled?) && event.ok
  }

  /** The message the poller's handler puts on the channel for an accepted call. */
  function MessageOf(call: P.Call): (m: Message) {
    match call
    case DepositCall(d, _) => DepositMsg(d)
    case CheckpointCall(b, _) => CheckpointMsg(b)
  }

  predicate Enabled(cfg: Config, s: State, a: Action) {
    match a
    case Poll(ev) =>
      && s.process.Up?
      && P.Enabled(cfg.chain, s.process.poller, ev)
      && (Sends(ev) ==> |s.process.channel| < CHANNEL_CAPACITY)
    case Consume(outcome) =>
      && s.process.Up? && s.process.channel != []
      && (outcome.CreateFails? ==> cfg.createMayFail)
    case Crash => s.process.Up?
    case Restart => s.process.Down?
  }

  /** persistOffset: block 0 has no offset, and an offset equal to the last one is not written again. */
  function Persist(s: State, block: nat, saved: bool): (t: State)
    requires s.process.Up?
  {
    if block == 0 || s.process.lastSaved == Some(block) then s
    else
      var t := s.(process := s.process.(lastSaved := Some(block)));
      if saved then t.(offset := Some(block)) else t
  }

  /** processEvent on the message that has just been received. */
  function ConsumeDeposit(cfg: Config, s: State, d: P.Deposit, outcome: Outcome): (t: State)
    requires s.process.Up?
  {
    var saved := outcome.Succeeds? && outcome.offsetSaved;
    if outcome.CreateFails? then s
    else if d.id in s.transfers then
      if cfg.persistOnDeposit then Persist(s, d.block, saved) else s
    else
      var t := s.(transfers := s.transfers[d.id := d]);
      if outcome.SubmitFails? || !cfg.persistOnDeposit then t else Persist(t, d.block, saved)
  }

  function PollStep(cfg: Config, s: State, ev: P.Event): (t: State)
    requires Enabled(cfg, s, Poll(ev))
  {
    var poller := P.Step(cfg.chain, cfg.maxRange, s.process.poller, ev);
    var sent := if Sends(ev) then [MessageOf(poller.trace[|poller.trace| - 1])] else [];
    s.(process := s.process.(poller := poller, channel := s.process.channel + sent))
  }

  function Step(cfg: Config, s: State, a: Action): (t: State)
    requires Enabled(cfg, s, a)
  {
    match a
    case Poll(ev) => PollStep(cfg, s, ev)
    case Consume(outcome) =>
      var received := s.(process := s.process.(channel := s.process.channel[1..]));
      match s.process.channel[0] {
        case CheckpointMsg(b) => Persist(received, b, outcome.Succeeds? && outcome.offsetSaved)
        case DepositMsg(d) => ConsumeDeposit(cfg, received, d, outcome)
      }
    case Crash => s.(process := Down)
    case Restart =>
      var from := ResumeBlock(cfg, s.offset);
      s.(process := Up(from, P.Init(from, 0), [], None))
  }

  predicate Legal(cfg: Config, s: State, run: seq<Action>)
    decreases |run|
  {
    run == [] || (Enabled(cfg, s, run[0]) && Legal(cfg, Step(cfg, s, run[0]), run[1..]))
  }

  function Run(cfg: Config, s: State, run: seq<Action>): (t: State)
    requires Legal(cfg, s, run)
    decreases |run|
  {
    if run == [] then s else Run(cfg, Step(cfg, s, run[0]), run[1..])
  }

  ghost predicate Reachable(cfg: Config, s: State) {
    exists run :: Legal(cfg, Init(), run) && Run(cfg, Init(), run) == s
  }

  /** At most ten messages are ever queued, and the poller waits exactly while there are ten. */
  lemma {:induction false} ChannelBounded(cfg: Config, s: State, run: seq<Action>)
    requires (s.process.Up? ==> |s.process.channel| <= 10) && Legal(cfg, s, run)
    ensures var t := Run(cfg, s, run); t.process.Up? ==> |t.process.channel| <= 10
    decreases |run|
  {
    if run == [] {
    } else {
      SendsWhileRoom(cfg, s, run[0]);
      ChannelBounded(cfg, Step(cfg, s, run[0]), run[1..]);
    }
  }

  lemma SendsWhileRoom(cfg: Config, s: State, a: Action)
    requires s.process.Up? ==> |s.process.channel| <= 10
    ensures Enabled(cfg, s, a) ==> var t := Step(cfg, s, a); t.process.Up? ==> |t.process.channel| <= 10
    ensures a.Poll? && s.process.Up? && P.Enabled(cfg.chain, s.process.poller, a.event) && Sends(a.event) ==>
        (Enabled(cfg, s, a) <==> |s.process.channel| != 10)
  {
  }

  ghost predicate ConfigOk(cfg: Config) {
    P.ChainOk(cfg.chain) && cfg.maxRange > 0
  }

  ghost predicate Stored(s: State, d: P.Deposit) {
    d.id in s.transfers && s.transfers[d.id] == d
  }

  /** A deposit the relayer is to bridge. */
  ghost predicate Due(cfg: Config, d: P.Deposit) {
    P.On(cfg.chain, d) && cfg.startBlock < d.block
  }

  /** The stored deposits at or below the persisted offset are exactly the chain's: none lost, none invented. */
  ghost predicate Safe(cfg: Config, s: State) {
    s.offset.Some? ==>
      forall d :: Stored(s, d) && d.block <= s.offset.value <==> Due(cfg, d) && d.block <= s.offset.value
  }

  ghost predicate OneDepositPerBlock(cfg: Config) {
    forall d, e :: Due(cfg, d) && Due(cfg, e) && d.block == e.block ==> d == e
  }

  ghost predicate NoDeposits(cfg: Config) {
    forall d :: !Due(cfg, d)
  }

  /** What has to hold of the chain for the configured consumer to be safe. */
  ghost predicate SafeConsumer(cfg: Config) {
    && (cfg.persistOnDeposit ==> OneDepositPerBlock(cfg))
    && (cfg.createMayFail ==> NoDeposits(cfg))
  }

  // ----- what can be lost, run by run

  /** Of a run so far: the deposits whose insert failed, and the blocks the offset moved to on a deposit. */
  datatype History = History(failed: set<P.Deposit>, marks: set<nat>)

  ghost function Note(cfg: Config, h: History, s: State, a: Action): (g: History)
    requires Enabled(cfg, s, a)
  {
    if a.Consume? && s.process.channel[0].DepositMsg? then
      var d := s.process.channel[0].deposit;
      History(
        if a.outcome.CreateFails? then h.failed + {d} else h.failed,
        if Step(cfg, s, a).offset != s.offset then h.marks + {d.block} else h.marks)
    else h
  }

  ghost function HistoryOf(cfg: Config, h: History, s: State, run: seq<Action>): (g: History)
    requires Legal(cfg, s, run)
    decreases |run|
  {
    if run == [] then h else HistoryOf(cfg, Note(cfg, h, s, run[0]), Step(cfg, s, run[0]), run[1..])
  }

  /** The run has a reason for `d` not to be stored. */
  ghost predicate Excused(h: History, d: P.Deposit) {
    d in h.failed || d.block in h.marks
  }

  ghost predicate Accounted(h: History, s: State, d: P.Deposit) {
    Stored(s, d) || Excused(h, d)
  }

  /** `d` is accounted for or among the first `n` messages on the channel. */
  ghost predicate Handed(h: History, s: State, n: nat, d: P.Deposit)
    requires s.process.Up?
  {
    Accounted(h, s, d) || exists i :: 0 <= i < n && i < |s.process.channel| && s.process.channel[i] == DepositMsg(d)
  }

  /** Everything a message vouches for is ahead of it. */
  ghost predicate MessageSound(cfg: Config, h: History, s: State, i: nat)
    requires s.process.Up? && i < |s.process.channel|
  {
    match s.process.channel[i]
    case CheckpointMsg(b) =>
      cfg.startBlock < b && forall d :: Due(cfg, d) && d.block <= b ==> Handed(h, s, i, d)
    case DepositMsg(e) =>
      Due(cfg, e) && forall d :: Due(cfg, d) && d.block < e.block ==> Handed(h, s, i, d)
  }

  ghost predicate ProcessSound(cfg: Config, h: History, s: State)
    requires s.process.Up?
  {
    && cfg.startBlock <= s.process.fromBlock
    && P.Inv(cfg.chain, cfg.maxRange, s.process.fromBlock, 0, s.process.poller)
    && (forall d :: Due(cfg, d) && d.block <= s.process.fromBlock ==> Accounted(h, s, d))
    && (forall d, n: nat :: P.Accepted(s.process.poller.trace, n, d) ==> Handed(h, s, |s.process.channel|, d))
    && (forall i :: 0 <= i < |s.process.channel| ==> MessageSound(cfg, h, s, i))
  }

  ghost predicate TableSound(cfg: Config, h: History, s: State) {
    && (forall id :: id in s.transfers ==> s.transfers[id].id == id && Due(cfg, s.transfers[id]))
    && (s.offset.Some? ==>
          cfg.startBlock < s.offset.value
          && forall d :: Due(cfg, d) && d.block <= s.offset.value ==> Accounted(h, s, d))
  }

  /** Some deposit of the block is stored. */
  ghost predicate BlockStored(s: State, b: nat) {
    exists e :: Stored(s, e) && e.block == b
  }

  /** Inserts fail only where they may, and the offset moves on a deposit only after storing it. */
  ghost predicate HistorySound(cfg: Config, h: History, s: State) {
    && (forall d :: d in h.failed ==> cfg.createMayFail && Due(cfg, d))
    && (forall b :: b in h.marks ==> cfg.persistOnDeposit && BlockStored(s, b))
  }

  ghost predicate Inv(cfg: Config, h: History, s: State) {
    TableSound(cfg, h, s) && HistorySound(cfg, h, s) && (s.process.Up? ==> ProcessSound(cfg, h, s))
  }

  /** Nothing but the channel grew, at its end. */
  lemma HandedGrows(h: History, s: State, n: nat, t: State, m: nat, d: P.Deposit)
    requires s.process.Up? && t.process.Up? && Handed(h, s, n, d)
    requires s.transfers == t.transfers && s.process.channel <= t.process.channel && n <= m
    ensures Handed(h, t, m, d)
  {
    if !Accounted(h, s, d) {
      var i :| 0 <= i < n && i < |s.process.channel| && s.process.channel[i] == DepositMsg(d);
      assert t.process.channel[i] == DepositMsg(d);
    }
  }

  lemma MessagesKept(cfg: Config, h: History, s: State, t: State)
    requires s.process.Up? && t.process.Up?
    requires s.transfers == t.transfers && s.process.channel <= t.process.channel
    requires forall i :: 0 <= i < |s.process.channel| ==> MessageSound(cfg, h, s, i)
    ensures forall i :: 0 <= i < |s.process.channel| ==> MessageSound(cfg, h, t, i)
  {
    forall i | 0 <= i < |s.process.channel|
      ensures MessageSound(cfg, h, t, i)
    {
      assert MessageSound(cfg, h, s, i);
      forall d | Handed(h, s, i, d) ensures Handed(h, t, i, d) {
        HandedGrows(h, s, i, t, i, d);
      }
    }
  }

  /** Whatever the poller has delivered so far is handed on. */
  lemma DeliveredIsHanded(cfg: Config, h: History, s: State, block: int, d: P.Deposit)
    requires s.process.Up? && ProcessSound(cfg, h, s) && Due(cfg, d) && d.block <= block
    requires P.Delivered(cfg.chain, s.process.fromBlock, block, s.process.poller.trace, |s.process.poller.trace|)
    ensures Handed(h, s, |s.process.channel|, d)
  {
    if d.block > s.process.fromBlock {
      assert P.Accepted(s.process.poller.trace, |s.process.poller.trace|, d);
    }
  }

  /** The next deposit of the slice comes after every deposit of a lower block. */
  lemma LowerBlocksHanded(cfg: Config, h: History, s: State, d: P.Deposit)
    requires ConfigOk(cfg) && s.process.Up? && ProcessSound(cfg, h, s)
    requires P.Enabled(cfg.chain, s.process.poller, P.DepositHandled(true))
    requires var p := s.process.poller;
             Due(cfg, d) && d.block < P.SliceLogs(cfg.chain, p)[p.phase.next].block
    ensures Handed(h, s, |s.process.channel|, d)
  {
    var p := s.process.poller;
    if d.block <= p.current {
      DeliveredIsHanded(cfg, h, s, p.current, d);
    } else {
      P.LowerInSlice(cfg.chain, cfg.maxRange, p, d);
    }
  }

  /** Whatever the poller's handler accepts is on the channel. */
  lemma AcceptedIsHanded(cfg: Config, h: History, s: State, ev: P.Event, n: nat, d: P.Deposit)
    requires s.process.Up? && Enabled(cfg, s, Poll(ev))
    requires forall d, n: nat :: P.Accepted(s.process.poller.trace, n, d) ==> Handed(h, s, |s.process.channel|, d)
    requires P.Accepted(Step(cfg, s, Poll(ev)).process.poller.trace, n, d)
    ensures var t := Step(cfg, s, Poll(ev)); Handed(h, t, |t.process.channel|, d)
  {
    var t := Step(cfg, s, Poll(ev));
    var p, q := s.process.poller.trace, t.process.poller.trace;
    var i :| 0 <= i < n && i < |q| && q[i] == P.DepositCall(d, true);
    if i < |p| {
      assert p[i] == P.DepositCall(d, true);
      assert P.Accepted(p, n, d);
      HandedGrows(h, s, |s.process.channel|, t, |t.process.channel|, d);
    } else {
      assert t.process.channel[|s.process.channel|] == DepositMsg(d);
    }
  }

  lemma NewMessageSound(cfg: Config, h: History, s: State, ev: P.Event)
    requires ConfigOk(cfg) && s.process.Up? && ProcessSound(cfg, h, s) && Enabled(cfg, s, Poll(ev)) && Sends(ev)
    ensures var t := Step(cfg, s, Poll(ev));
            |t.process.channel| == |s.process.channel| + 1 && MessageSound(cfg, h, t, |s.process.channel|)
  {
    var t := Step(cfg, s, Poll(ev));
    var p := s.process.poller;
    var n := |s.process.channel|;
    match ev
    case DepositHandled(_) =>
      var e := P.SliceLogs(cfg.chain, p)[p.phase.next];
      P.LogsComplete(cfg.chain, p.current + 1, p.phase.sliceEnd, e);
      forall d | Due(cfg, d) && d.block < e.block
        ensures Handed(h, t, n, d)
      {
        LowerBlocksHanded(cfg, h, s, d);
        HandedGrows(h, s, n, t, n, d);
      }
    case CheckpointHandled(_) =>
      P.SliceDelivered(cfg.chain, cfg.maxRange, s.process.fromBlock, 0, p);
      forall d | Due(cfg, d) && d.block <= p.phase.sliceEnd
        ensures Handed(h, t, n, d)
      {
        DeliveredIsHanded(cfg, h, s, p.phase.sliceEnd, d);
        HandedGrows(h, s, n, t, n, d);
      }
  }

  lemma PollKeepsMessages(cfg: Config, h: History, s: State, ev: P.Event)
    requires ConfigOk(cfg) && s.process.Up? && ProcessSound(cfg, h, s) && Enabled(cfg, s, Poll(ev))
    ensures var t := Step(cfg, s, Poll(ev));
            forall i :: 0 <= i < |t.process.channel| ==> MessageSound(cfg, h, t, i)
  {
    MessagesKept(cfg, h, s, Step(cfg, s, Poll(ev)));
    if Sends(ev) {
      NewMessageSound(cfg, h, s, ev);
    }
  }

  lemma PollKeepsProcess(cfg: Config, h: History, s: State, ev: P.Event)
    requires ConfigOk(cfg) && s.process.Up? && ProcessSound(cfg, h, s) && Enabled(cfg, s, Poll(ev))
    ensures ProcessSound(cfg, h, Step(cfg, s, Poll(ev)))
  {
    var t := Step(cfg, s, Poll(ev));
    P.StepKeepsInv(cfg.chain, cfg.maxRange, s.process.fromBlock, 0, s.process.poller, ev);
    assert t.process.poller == P.Step(cfg.chain, cfg.maxRange, s.process.poller, ev);
    forall d, n: nat | P.Accepted(t.process.poller.trace, n, d)
      ensures Handed(h, t, |t.process.channel|, d)
    {
      AcceptedIsHanded(cfg, h, s, ev, n, d);
    }
    PollKeepsMessages(cfg, h, s, ev);
    assert forall d :: Stored(s, d) <==> Stored(t, d);
  }

  /** The same table and offset. */
  lemma SameTable(cfg: Config, h: History, s: State, t: State)
    requires TableSound(cfg, h, s) && HistorySound(cfg, h, s) && t.transfers == s.transfers && t.offset == s.offset
    ensures TableSound(cfg, h, t) && HistorySound(cfg, h, t)
  {
    assert forall d :: Stored(s, d) <==> Stored(t, d);
    forall b | b in h.marks ensures BlockStored(t, b) {
      var e :| Stored(s, e) && e.block == b;
      assert Stored(t, e);
    }
  }

  /** Taking the head off the channel once its deposit, if any, is accounted for. */
  lemma ReceiveKeepsProcess(cfg: Config, h: History, s: State, g: History, t: State)
    requires ConfigOk(cfg) && s.process.Up? && t.process.Up? && ProcessSound(cfg, h, s)
    requires s.process.channel != [] && t.process.channel == s.process.channel[1..]
    requires t.process.poller == s.process.poller && t.process.fromBlock == s.process.fromBlock
    requires forall d :: Accounted(h, s, d) ==> Accounted(g, t, d)
    requires s.process.channel[0].DepositMsg? ==> Accounted(g, t, s.process.channel[0].deposit)
    ensures ProcessSound(cfg, g, t)
  {
    forall n: nat, d | Handed(h, s, n + 1, d)
      ensures Handed(g, t, n, d)
    {
      HandedShifts(h, s, g, t, n, d);
    }
    forall i | 0 <= i < |t.process.channel|
      ensures MessageSound(cfg, g, t, i)
    {
      assert MessageSound(cfg, h, s, i + 1);
      assert t.process.channel[i] == s.process.channel[i + 1];
    }
  }

  lemma HandedShifts(h: History, s: State, g: History, t: State, n: nat, d: P.Deposit)
    requires s.process.Up? && t.process.Up? && Handed(h, s, n + 1, d)
    requires s.process.channel != [] && t.process.channel == s.process.channel[1..]
    requires Accounted(h, s, d) ==> Accounted(g, t, d)
    requires s.process.channel[0] == DepositMsg(d) ==> Accounted(g, t, d)
    ensures Handed(g, t, n, d)
  {
    if !Accounted(h, s, d) {
      var i :| 0 <= i < n + 1 && i < |s.process.channel| && s.process.channel[i] == DepositMsg(d);
      if i > 0 {
        assert t.process.channel[i - 1] == DepositMsg(d);
      }
    }
  }

  /** Consuming takes the head off the channel and leaves the poller alone. */
  lemma ConsumeFrame(cfg: Config, s: State, outcome: Outcome)
    requires Enabled(cfg, s, Consume(outcome))
    ensures var t := Step(cfg, s, Consume(outcome));
            && t.process.Up? && t.process.channel == s.process.channel[1..]
            && t.process.poller == s.process.poller && t.process.fromBlock == s.process.fromBlock
            && (s.process.channel[0].CheckpointMsg? || outcome.CreateFails? ==> t.transfers == s.transfers)
            && (s.process.channel[0].DepositMsg? && outcome.CreateFails? ==> t.offset == s.offset)
  {
  }

  lemma SameStored(s: State, t: State)
    requires s.transfers == t.transfers
    ensures forall d :: Stored(s, d) <==> Stored(t, d)
  {
  }

  /** What the head of the channel vouches for is accounted for. */
  lemma HeadVouches(cfg: Config, h: History, s: State, d: P.Deposit)
    requires s.process.Up? && s.process.channel != [] && MessageSound(cfg, h, s, 0) && Due(cfg, d)
    requires match s.process.channel[0] case CheckpointMsg(b) => d.block <= b case DepositMsg(e) => d.block < e.block
    ensures Accounted(h, s, d)
  {
    assert Handed(h, s, 0, d);
  }

  lemma CheckpointKeepsTable(cfg: Config, h: History, s: State, outcome: Outcome)
    requires ConfigOk(cfg) && TableSound(cfg, h, s) && HistorySound(cfg, h, s) && Enabled(cfg, s, Consume(outcome))
    requires s.process.channel[0].CheckpointMsg? && MessageSound(cfg, h, s, 0)
    ensures var t := Step(cfg, s, Consume(outcome)); TableSound(cfg, h, t) && HistorySound(cfg, h, t)
  {
    var t := Step(cfg, s, Consume(outcome));
    var b := s.process.channel[0].block;
    SameTable(cfg, h, s, t.(offset := s.offset));
    forall d | Due(cfg, d) && d.block <= b ensures Accounted(h, t, d) {
      HeadVouches(cfg, h, s, d);
    }
  }

  lemma CheckpointKeepsInv(cfg: Config, h: History, s: State, outcome: Outcome)
    requires ConfigOk(cfg) && Inv(cfg, h, s) && Enabled(cfg, s, Consume(outcome)) && s.process.channel[0].CheckpointMsg?
    ensures Inv(cfg, h, Step(cfg, s, Consume(outcome)))
  {
    var t := Step(cfg, s, Consume(outcome));
    assert MessageSound(cfg, h, s, 0);
    CheckpointKeepsTable(cfg, h, s, outcome);
    ConsumeFrame(cfg, s, outcome);
    SameStored(s, t);
    ReceiveKeepsProcess(cfg, h, s, h, t);
  }

  /** A failed insert changes nothing but the channel. */
  lemma FailedInsertKeepsInv(cfg: Config, h: History, s: State)
    requires ConfigOk(cfg) && Inv(cfg, h, s) && Enabled(cfg, s, Consume(CreateFails)) && s.process.channel[0].DepositMsg?
    ensures Inv(cfg, Note(cfg, h, s, Consume(CreateFails)), Step(cfg, s, Consume(CreateFails)))
  {
    var t, g := Step(cfg, s, Consume(CreateFails)), Note(cfg, h, s, Consume(CreateFails));
    assert MessageSound(cfg, h, s, 0);
    ConsumeFrame(cfg, s, CreateFails);
    SameTable(cfg, h, s, t);
    SameStored(s, t);
    ReceiveKeepsProcess(cfg, h, s, g, t);
  }

  /** Inserting a transfer: the deposit ends up stored, and nothing stored is lost. */
  lemma InsertStores(cfg: Config, h: History, s: State, outcome: Outcome)
    requires ConfigOk(cfg) && TableSound(cfg, h, s) && Enabled(cfg, s, Consume(outcome)) && !outcome.CreateFails?
    requires s.process.channel[0].DepositMsg? && MessageSound(cfg, h, s, 0)
    ensures var t, e := Step(cfg, s, Consume(outcome)), s.process.channel[0].deposit;
            && t.transfers == s.transfers[e.id := e]
            && forall d :: Stored(t, d) <==> Stored(s, d) || d == e
  {
    var t, e := Step(cfg, s, Consume(outcome)), s.process.channel[0].deposit;
    assert t.transfers == s.transfers[e.id := e];
  }

  lemma InsertKeepsHistory(cfg: Config, h: History, s: State, outcome: Outcome)
    requires ConfigOk(cfg) && TableSound(cfg, h, s) && HistorySound(cfg, h, s) && Enabled(cfg, s, Consume(outcome))
    requires s.process.channel[0].DepositMsg? && MessageSound(cfg, h, s, 0) && !outcome.CreateFails?
    ensures HistorySound(cfg, Note(cfg, h, s, Consume(outcome)), Step(cfg, s, Consume(outcome)))
  {
    var t, e := Step(cfg, s, Consume(outcome)), s.process.channel[0].deposit;
    InsertStores(cfg, h, s, outcome);
    assert Stored(t, e);
    forall b | b in h.marks ensures BlockStored(t, b) {
      var f :| Stored(s, f) && f.block == b;
      assert Stored(t, f);
    }
  }

  lemma InsertKeepsTable(cfg: Config, h: History, s: State, outcome: Outcome)
    requires ConfigOk(cfg) && TableSound(cfg, h, s) && Enabled(cfg, s, Consume(outcome))
    requires s.process.channel[0].DepositMsg? && MessageSound(cfg, h, s, 0) && !outcome.CreateFails?
    ensures TableSound(cfg, Note(cfg, h, s, Consume(outcome)), Step(cfg, s, Consume(outcome)))
  {
    var t, g := Step(cfg, s, Consume(outcome)), Note(cfg, h, s, Consume(outcome));
    var e := s.process.channel[0].deposit;
    InsertStores(cfg, h, s, outcome);
    if t.offset != s.offset {
      assert t.offset == Some(e.block);
      forall d | Due(cfg, d) && d.block <= e.block ensures Accounted(g, t, d) {
        if d.block < e.block {
          HeadVouches(cfg, h, s, d);
        }
      }
    }
  }

  lemma InsertAccounts(cfg: Config, h: History, s: State, outcome: Outcome)
    requires ConfigOk(cfg) && TableSound(cfg, h, s) && Enabled(cfg, s, Consume(outcome)) && !outcome.CreateFails?
    requires s.process.channel[0].DepositMsg? && MessageSound(cfg, h, s, 0)
    ensures var t, g := Step(cfg, s, Consume(outcome)), Note(cfg, h, s, Consume(outcome));
            && (forall d :: Accounted(h, s, d) ==> Accounted(g, t, d))
            && Accounted(g, t, s.process.channel[0].deposit)
  {
    InsertStores(cfg, h, s, outcome);
  }

  lemma InsertKeepsInv(cfg: Config, h: History, s: State, outcome: Outcome)
    requires ConfigOk(cfg) && Inv(cfg, h, s) && Enabled(cfg, s, Consume(outcome))
    requires s.process.channel[0].DepositMsg? && !outcome.CreateFails?
    ensures Inv(cfg, Note(cfg, h, s, Consume(outcome)), Step(cfg, s, Consume(outcome)))
  {
    var t, g := Step(cfg, s, Consume(outcome)), Note(cfg, h, s, Consume(outcome));
    assert MessageSound(cfg, h, s, 0);
    InsertKeepsTable(cfg, h, s, outcome);
    InsertKeepsHistory(cfg, h, s, outcome);
    ConsumeFrame(cfg, s, outcome);
    InsertAccounts(cfg, h, s, outcome);
    ReceiveKeepsProcess(cfg, h, s, g, t);
  }

  lemma RestartKeepsInv(cfg: Config, h: History, s: State)
    requires ConfigOk(cfg) && Inv(cfg, h, s) && s.process.Down?
    ensures Inv(cfg, h, Step(cfg, s, Restart))
  {
    var t := Step(cfg, s, Restart);
    SameTable(cfg, h, s, t);
    assert forall d :: Stored(s, d) <==> Stored(t, d);
  }

  /** Every step keeps the invariant, noting what it may lose. */
  lemma StepKeepsInv(cfg: Config, h: History, s: State, a: Action)
    requires ConfigOk(cfg) && Inv(cfg, h, s) && Enabled(cfg, s, a)
    ensures Inv(cfg, Note(cfg, h, s, a), Step(cfg, s, a))
  {
    match a
    case Poll(ev) =>
      PollKeepsProcess(cfg, h, s, ev);
      SameTable(cfg, h, s, Step(cfg, s, a));
    case Consume(outcome) =>
      if s.process.channel[0].CheckpointMsg? {
        CheckpointKeepsInv(cfg, h, s, outcome);
      } else if outcome.CreateFails? {
        FailedInsertKeepsInv(cfg, h, s);
      } else {
        InsertKeepsInv(cfg, h, s, outcome);
      }
    case Crash => SameTable(cfg, h, s, Step(cfg, s, a));
    case Restart => RestartKeepsInv(cfg, h, s);
  }

  lemma {:induction false} RunKeepsInv(cfg: Config, h: History, s: State, run: seq<Action>)
    requires ConfigOk(cfg) && Inv(cfg, h, s) && Legal(cfg, s, run)
    ensures Inv(cfg, HistoryOf(cfg, h, s, run), Run(cfg, s, run))
    decreases |run|
  {
    if run == [] {
    } else {
      StepKeepsInv(cfg, h, s, run[0]);
      RunKeepsInv(cfg, Note(cfg, h, s, run[0]), Step(cfg, s, run[0]), run[1..]);
    }
  }

  /** Before anything has happened. */
  function NoHistory(): (h: History) {
    History({}, {})
  }

  /**
   * For every run of any consumer: a deposit at or below the offset that is not stored had
   * a failed insert in the run, or lies in a block the offset moved to on a deposit; and of
   * such a block some deposit is stored.
   */
  lemma LostOnlyWithReason(cfg: Config, run: seq<Action>, d: P.Deposit)
    requires ConfigOk(cfg) && Legal(cfg, Init(), run) && Due(cfg, d)
    requires var s := Run(cfg, Init(), run); s.offset.Some? && d.block <= s.offset.value && !Stored(s, d)
    ensures var s, h := Run(cfg, Init(), run), HistoryOf(cfg, NoHistory(), Init(), run);
            || (d in h.failed && cfg.createMayFail)
            || (d.block in h.marks && cfg.persistOnDeposit && BlockStored(s, d.block))
  {
    RunKeepsInv(cfg, NoHistory(), Init(), run);
    assert Accounted(HistoryOf(cfg, NoHistory(), Init(), run), Run(cfg, Init(), run), d);
  }

  /** With a safe consumer there is no such reason. */
  lemma SafeConsumerStores(cfg: Config, h: History, s: State, d: P.Deposit)
    requires ConfigOk(cfg) && SafeConsumer(cfg) && TableSound(cfg, h, s) && HistorySound(cfg, h, s)
    requires Due(cfg, d) && Accounted(h, s, d)
    ensures Stored(s, d)
  {
    if d.block in h.marks {
      var e :| Stored(s, e) && e.block == d.block;
      assert Due(cfg, e);
    }
  }

  lemma InvIsSafe(cfg: Config, h: History, s: State)
    requires ConfigOk(cfg) && SafeConsumer(cfg) && TableSound(cfg, h, s) && HistorySound(cfg, h, s)
    ensures Safe(cfg, s)
  {
    if s.offset.Some? {
      forall d | Due(cfg, d) && d.block <= s.offset.value ensures Stored(s, d) {
        SafeConsumerStores(cfg, h, s, d);
      }
    }
  }

  // ----- without a safe consumer, a run that loses a deposit

  lemma ReachableStep(cfg: Config, s: State, a: Action)
    requires Reachable(cfg, s) && Enabled(cfg, s, a)
    ensures Reachable(cfg, Step(cfg, s, a))
  {
    var run :| Legal(cfg, Init(), run) && Run(cfg, Init(), run) == s;
    RunExtends(cfg, Init(), run, a);
  }

  lemma {:induction false} RunExtends(cfg: Config, s: State, run: seq<Action>, a: Action)
    requires Legal(cfg, s, run) && Enabled(cfg, Run(cfg, s, run), a)
    ensures Legal(cfg, s, run + [a]) && Run(cfg, s, run + [a]) == Step(cfg, Run(cfg, s, run), a)
    decreases |run|
  {
    if run != [] {
      RunExtends(cfg, Step(cfg, s, run[0]), run[1..], a);
      assert (run + [a])[1..] == run[1..] + [a];
    } else {
      assert ([] + [a])[1..] == [];
    }
  }

  /** Between ticks, with everything through block `c` scanned and consumed. */
  ghost predicate Quiet(s: State, c: nat) {
    && s.process.Up? && s.process.channel == []
    && s.process.poller.phase.Idle? && s.process.poller.current == c
    && (s.process.lastSaved.Some? ==> s.process.lastSaved.value <= c)
    && (forall d :: Stored(s, d) ==> d.block <= c)
  }

  /** Inside a one-block slice, `k` of whose logs have been handed over and consumed; `fail` says their inserts failed. */
  ghost predicate MidBlock(cfg: Config, s: State, b: nat, k: nat, fail: bool) {
    && s.process.Up? && s.process.channel == []
    && b > 0 && s.process.poller.current == b - 1 && s.process.poller.phase == P.Scanning(b, b, k)
    && k <= |P.Logs(cfg.chain, b, b)|
    && (s.process.lastSaved.Some? ==> s.process.lastSaved.value <= b)
    && (s.process.lastSaved == Some(b) ==> !fail && k > 0)
    && (forall d :: Stored(s, d) ==> d.block < b || (!fail && d in P.Logs(cfg.chain, b, b)[..k]))
  }

  lemma OpenBlock(cfg: Config, s: State, b: nat, fail: bool) returns (t: State)
    requires ConfigOk(cfg) && Reachable(cfg, s) && 0 < b <= MAX_UINT64 && Quiet(s, b - 1)
    ensures Reachable(cfg, t) && MidBlock(cfg, t, b, 0, fail)
  {
    ReachableStep(cfg, s, Poll(P.HeadSeen(b)));
    t := Step(cfg, s, Poll(P.HeadSeen(b)));
  }

  lemma HandOver(cfg: Config, s: State, b: nat, k: nat, fail: bool) returns (t: State)
    requires ConfigOk(cfg) && Reachable(cfg, s) && MidBlock(cfg, s, b, k, fail) && k < |P.Logs(cfg.chain, b, b)|
    requires fail ==> cfg.createMayFail
    ensures Reachable(cfg, t) && MidBlock(cfg, t, b, k + 1, fail)
    ensures cfg.persistOnDeposit && !fail && k == 0 ==> t.offset == Some(b)
  {
    var logs := P.Logs(cfg.chain, b, b);
    var d := logs[k];
    P.LogsComplete(cfg.chain, b, b, d);
    var sent := Step(cfg, s, Poll(P.DepositHandled(true)));
    ReachableStep(cfg, s, Poll(P.DepositHandled(true)));
    assert sent.process.channel == [DepositMsg(d)];
    var outcome := if fail then CreateFails else Succeeds(true);
    ReachableStep(cfg, sent, Consume(outcome));
    t := Step(cfg, sent, Consume(outcome));
    assert logs[..k + 1] == logs[..k] + [d];
    forall e | Stored(t, e)
      ensures e.block < b || (!fail && e in logs[..k + 1])
    {
      ConsumedStores(cfg, sent, outcome, d, e);
      assert Stored(sent, e) ==> Stored(s, e);
    }
  }

  /** Consuming a deposit stores nothing else. */
  lemma ConsumedStores(cfg: Config, s: State, outcome: Outcome, d: P.Deposit, e: P.Deposit)
    requires Enabled(cfg, s, Consume(outcome)) && s.process.channel[0] == DepositMsg(d)
    requires Stored(Step(cfg, s, Consume(outcome)), e)
    ensures Stored(s, e) || (e == d && !outcome.CreateFails?)
  {
  }

  lemma {:induction false} DrainBlock(cfg: Config, s: State, b: nat, k: nat, fail: bool) returns (t: State)
    requires ConfigOk(cfg) && Reachable(cfg, s) && MidBlock(cfg, s, b, k, fail)
    requires fail ==> cfg.createMayFail
    ensures Reachable(cfg, t) && MidBlock(cfg, t, b, |P.Logs(cfg.chain, b, b)|, fail)
    decreases |P.Logs(cfg.chain, b, b)| - k
  {
    if k == |P.Logs(cfg.chain, b, b)| {
      t := s;
    } else {
      t := HandOver(cfg, s, b, k, fail);
      t := DrainBlock(cfg, t, b, k + 1, fail);
    }
  }

  lemma CloseBlock(cfg: Config, s: State, b: nat, fail: bool) returns (t: State)
    requires ConfigOk(cfg) && Reachable(cfg, s) && MidBlock(cfg, s, b, |P.Logs(cfg.chain, b, b)|, fail)
    ensures Reachable(cfg, t) && Quiet(t, b)
    ensures fail ==> t.offset == Some(b) && t.transfers == s.transfers
  {
    var logs := P.Logs(cfg.chain, b, b);
    forall d | d in logs[..|logs|] ensures d.block == b {
      P.LogsComplete(cfg.chain, b, b, d);
    }
    var sent := Step(cfg, s, Poll(P.CheckpointHandled(true)));
    ReachableStep(cfg, s, Poll(P.CheckpointHandled(true)));
    assert sent.process.channel == [CheckpointMsg(b)];
    ReachableStep(cfg, sent, Consume(Succeeds(true)));
    t := Step(cfg, sent, Consume(Succeeds(true)));
    assert forall d :: Stored(t, d) <==> Stored(s, d);
  }

  /** Every block from the start on can be reached with nothing beyond it stored. */
  lemma {:induction false} ReachQuiet(cfg: Config, c: nat) returns (s: State)
    requires ConfigOk(cfg) && cfg.startBlock <= c <= MAX_UINT64
    ensures Reachable(cfg, s) && Quiet(s, c)
    decreases c
  {
    if c == cfg.startBlock {
      assert Legal(cfg, Init(), []) && Run(cfg, Init(), []) == Init();
      ReachableStep(cfg, Init(), Restart);
      s := Step(cfg, Init(), Restart);
    } else {
      s := ReachQuiet(cfg, c - 1);
      s := OpenBlock(cfg, s, c, false);
      s := DrainBlock(cfg, s, c, 0, false);
      s := CloseBlock(cfg, s, c, false);
    }
  }

  /** Persisting after the first of two deposits of one block leaves the other behind the offset. */
  lemma SharedBlockUnsafe(cfg: Config, d: P.Deposit, e: P.Deposit) returns (s: State, lost: P.Deposit)
    requires ConfigOk(cfg) && cfg.persistOnDeposit
    requires Due(cfg, d) && Due(cfg, e) && d.block == e.block && d != e
    ensures Reachable(cfg, s) && s.process.Up?
    ensures Due(cfg, lost) && lost.block == d.block && s.offset == Some(d.block) && !Stored(s, lost)
    ensures lost == (if P.Logs(cfg.chain, d.block, d.block)[0] == d then e else d)
  {
    var b := d.block;
    s := ReachQuiet(cfg, b - 1);
    s := OpenBlock(cfg, s, b, false);
    P.LogsComplete(cfg.chain, b, b, d);
    s := HandOver(cfg, s, b, 0, false);
    var logs := P.Logs(cfg.chain, b, b);
    lost := if logs[0] == d then e else d;
    assert logs[..1] == [logs[0]];
  }

  /** A failed insert is passed over by the checkpoint that follows it. */
  lemma FailedInsertUnsafe(cfg: Config, d: P.Deposit) returns (s: State)
    requires ConfigOk(cfg) && cfg.createMayFail && Due(cfg, d)
    ensures Reachable(cfg, s) && s.process.Up?
    ensures s.offset == Some(d.block) && !Stored(s, d)
  {
    var b := d.block;
    s := ReachQuiet(cfg, b - 1);
    s := OpenBlock(cfg, s, b, true);
    s := DrainBlock(cfg, s, b, 0, true);
    ghost var mid := s;
    s := CloseBlock(cfg, s, b, true);
    assert Stored(s, d) ==> Stored(mid, d);
  }

  // ----- the theorems

  /**
   * Checkpoint safety across restarts. Every reachable state is safe if and only
   * if the consumer is: it never persists the offset in the middle of a block
   * holding several deposits, and never loses an insert.
   */
  lemma SafeIffConsumerSafe(cfg: Config)
    requires ConfigOk(cfg)
    ensures (forall s :: Reachable(cfg, s) ==> Safe(cfg, s)) <==> SafeConsumer(cfg)
  {
    if SafeConsumer(cfg) {
      forall s | Reachable(cfg, s) ensures Safe(cfg, s) {
        var run :| Legal(cfg, Init(), run) && Run(cfg, Init(), run) == s;
        RunKeepsInv(cfg, NoHistory(), Init(), run);
        InvIsSafe(cfg, HistoryOf(cfg, NoHistory(), Init(), run), s);
      }
    } else if cfg.createMayFail && !NoDeposits(cfg) {
      var d :| Due(cfg, d);
      var s := FailedInsertUnsafe(cfg, d);
      assert Reachable(cfg, s) && !Safe(cfg, s);
    } else {
      var d, e :| Due(cfg, d) && Due(cfg, e) && d.block == e.block && d != e;
      var s, lost := SharedBlockUnsafe(cfg, d, e);
      assert Reachable(cfg, s) && !Safe(cfg, s);
    }
  }

  ghost predicate MessageGenuine(cfg: Config, fromBlock: nat, m: Message) {
    match m
    case DepositMsg(d) => P.On(cfg.chain, d) && fromBlock < d.block
    case CheckpointMsg(b) => fromBlock < b
  }

  ghost predicate ProcessGenuine(cfg: Config, s: State) {
    s.process.Up? ==>
      && cfg.startBlock <= s.process.fromBlock
      && P.Inv(cfg.chain, cfg.maxRange, s.process.fromBlock, 0, s.process.poller)
      && forall i :: 0 <= i < |s.process.channel| ==> MessageGenuine(cfg, s.process.fromBlock, s.process.channel[i])
  }

  ghost predicate TableGenuine(cfg: Config, s: State) {
    && (forall id :: id in s.transfers ==> s.transfers[id].id == id && Due(cfg, s.transfers[id]))
    && (s.offset.Some? ==> cfg.startBlock < s.offset.value)
  }

  /** Nothing the consumer stores is invented, whatever the switches. */
  ghost predicate Genuine(cfg: Config, s: State) {
    TableGenuine(cfg, s) && ProcessGenuine(cfg, s)
  }

  lemma PollKeepsGenuine(cfg: Config, s: State, ev: P.Event)
    requires ConfigOk(cfg) && ProcessGenuine(cfg, s) && Enabled(cfg, s, Poll(ev))
    ensures ProcessGenuine(cfg, Step(cfg, s, Poll(ev)))
  {
    var p := s.process.poller;
    P.StepKeepsInv(cfg.chain, cfg.maxRange, s.process.fromBlock, 0, p, ev);
    if ev.DepositHandled? {
      P.LogsComplete(cfg.chain, p.current + 1, p.phase.sliceEnd, P.SliceLogs(cfg.chain, p)[p.phase.next]);
    }
  }

  lemma ConsumeKeepsTableGenuine(cfg: Config, s: State, outcome: Outcome)
    requires TableGenuine(cfg, s) && Enabled(cfg, s, Consume(outcome))
    requires cfg.startBlock <= s.process.fromBlock && MessageGenuine(cfg, s.process.fromBlock, s.process.channel[0])
    ensures TableGenuine(cfg, Step(cfg, s, Consume(outcome)))
  {
  }

  lemma StepKeepsGenuine(cfg: Config, s: State, a: Action)
    requires ConfigOk(cfg) && Genuine(cfg, s) && Enabled(cfg, s, a)
    ensures Genuine(cfg, Step(cfg, s, a))
  {
    match a
    case Poll(ev) => PollKeepsGenuine(cfg, s, ev);
    case Consume(outcome) =>
      ConsumeKeepsTableGenuine(cfg, s, outcome);
      ConsumeFrame(cfg, s, outcome);
    case Crash =>
    case Restart =>
  }

  lemma {:induction false} RunKeepsGenuine(cfg: Config, s: State, run: seq<Action>)
    requires ConfigOk(cfg) && Genuine(cfg, s) && Legal(cfg, s, run)
    ensures Genuine(cfg, Run(cfg, s, run))
    decreases |run|
  {
    if run == [] {
    } else {
      StepKeepsGenuine(cfg, s, run[0]);
      RunKeepsGenuine(cfg, Step(cfg, s, run[0]), run[1..]);
    }
  }
}
