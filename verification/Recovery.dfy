/**
 * Which deposits the relayer can still recover: from any reachable state, whether some
 * continuation (more polling, a crash, a restart) stores a given deposit.
 */
module Recovery {
  import opened Chunks
  import P = Poller
  import opened Relayer
  import opened Wrappers

  /** No continuation of any kind stores `d`. */
  ghost predicate NeverStored(cfg: Config, s: State, d: P.Deposit) {
    forall run :: Legal(cfg, s, run) ==> !Stored(Run(cfg, s, run), d)
  }

  /**
   * The offset has passed `d`; and if the process is up, its scan has passed `d` as well and
   * no message for it is waiting.
   */
  ghost predicate Gone(s: State, d: P.Deposit) {
    && !Stored(s, d)
    && s.offset.Some? && d.block <= s.offset.value
    && (s.process.Up? ==> d.block <= s.process.poller.current && DepositMsg(d) !in s.process.channel)
  }

  // ----- messages for lower blocks are always followed by one for `d`

  ghost predicate WaitsAfter(channel: seq<Message>, i: nat, d: P.Deposit) {
    exists j :: i < j < |channel| && channel[j] == DepositMsg(d)
  }

  /** A message for a lower block than that of `d` has one for `d` after it. */
  ghost predicate Trailed(channel: seq<Message>, d: P.Deposit) {
    forall i :: 0 <= i < |channel| && BlockOf(channel[i]) < d.block ==> WaitsAfter(channel, i, d)
  }

  /** The current scan is past `d`: through an earlier checkpoint, or inside the slice. */
  ghost predicate Scanned(chain: P.Chain, p: P.State, d: P.Deposit) {
    || d.block <= p.current
    || (p.phase.Scanning? && exists k :: 0 <= k < p.phase.next && k < |P.SliceLogs(chain, p)| && P.SliceLogs(chain, p)[k] == d)
  }

  ghost predicate InStep(cfg: Config, s: State) {
    s.process.Up? ==>
      forall d :: P.On(cfg.chain, d) && Scanned(cfg.chain, s.process.poller, d) ==> Trailed(s.process.channel, d)
  }

  lemma TrailedGrows(channel: seq<Message>, m: Message, d: P.Deposit)
    requires Trailed(channel, d) && BlockOf(m) >= d.block
    ensures Trailed(channel + [m], d)
  {
    var more := channel + [m];
    forall i | 0 <= i < |more| && BlockOf(more[i]) < d.block ensures WaitsAfter(more, i, d) {
      assert more[i] == channel[i];
      var j :| i < j < |channel| && channel[j] == DepositMsg(d);
      assert more[j] == DepositMsg(d);
    }
  }

  lemma TrailedByItself(channel: seq<Message>, d: P.Deposit)
    ensures Trailed(channel + [DepositMsg(d)], d)
  {
    var more := channel + [DepositMsg(d)];
    assert more[|channel|] == DepositMsg(d);
  }

  lemma TrailedShrinks(channel: seq<Message>, d: P.Deposit)
    requires Trailed(channel, d) && |channel| > 0
    ensures Trailed(channel[1..], d)
  {
    var rest := channel[1..];
    forall i | 0 <= i < |rest| && BlockOf(rest[i]) < d.block ensures WaitsAfter(rest, i, d) {
      assert rest[i] == channel[i + 1];
      var j :| i + 1 < j < |channel| && channel[j] == DepositMsg(d);
      assert rest[j - 1] == DepositMsg(d);
    }
  }

  /** A deposit sent from the slice comes in block order after everything scanned before it. */
  lemma SentInOrder(cfg: Config, s: State, d: P.Deposit)
    requires ConfigOk(cfg) && Genuine(cfg, s) && Enabled(cfg, s, Poll(P.DepositHandled(true)))
    requires P.On(cfg.chain, d) && Scanned(cfg.chain, s.process.poller, d)
    ensures var p := s.process.poller; d.block <= P.SliceLogs(cfg.chain, p)[p.phase.next].block
  {
    var p := s.process.poller;
    var logs := P.SliceLogs(cfg.chain, p);
    P.LogsComplete(cfg.chain, p.current + 1, p.phase.sliceEnd, logs[p.phase.next]);
    if d.block > p.current {
      var k :| 0 <= k < p.phase.next && k < |logs| && logs[k] == d;
      P.LogsOrdered(cfg.chain, p.current + 1, p.phase.sliceEnd, k, p.phase.next);
    }
  }

  lemma DepositKeepsInStep(cfg: Config, s: State, ok: bool)
    requires ConfigOk(cfg) && Genuine(cfg, s) && InStep(cfg, s) && Enabled(cfg, s, Poll(P.DepositHandled(ok)))
    ensures InStep(cfg, Step(cfg, s, Poll(P.DepositHandled(ok))))
  {
    var p, channel := s.process.poller, s.process.channel;
    var t := Step(cfg, s, Poll(P.DepositHandled(ok)));
    var logs := P.SliceLogs(cfg.chain, p);
    var e := logs[p.phase.next];
    assert t.process.channel == if ok then channel + [DepositMsg(e)] else channel + [];
    forall d | P.On(cfg.chain, d) && Scanned(cfg.chain, t.process.poller, d) ensures Trailed(t.process.channel, d) {
      if !ok {
        assert channel + [] == channel;
      } else if d == e {
        TrailedByItself(channel, d);
      } else {
        assert Scanned(cfg.chain, p, d);
        SentInOrder(cfg, s, d);
        TrailedGrows(channel, DepositMsg(e), d);
      }
    }
  }

  lemma CheckpointKeepsInStep(cfg: Config, s: State, ok: bool)
    requires ConfigOk(cfg) && Genuine(cfg, s) && InStep(cfg, s) && Enabled(cfg, s, Poll(P.CheckpointHandled(ok)))
    ensures InStep(cfg, Step(cfg, s, Poll(P.CheckpointHandled(ok))))
  {
    var p, channel := s.process.poller, s.process.channel;
    var t := Step(cfg, s, Poll(P.CheckpointHandled(ok)));
    var end := p.phase.sliceEnd;
    assert t.process.channel == if ok then channel + [CheckpointMsg(end)] else channel + [];
    forall d | P.On(cfg.chain, d) && Scanned(cfg.chain, t.process.poller, d) ensures Trailed(t.process.channel, d) {
      assert channel + [] == channel;
      assert d.block <= end;
      P.LogsComplete(cfg.chain, p.current + 1, end, d);
      assert Scanned(cfg.chain, p, d);
      if ok {
        TrailedGrows(channel, CheckpointMsg(end), d);
      }
    }
  }

  lemma StepKeepsInStep(cfg: Config, s: State, a: Action)
    requires ConfigOk(cfg) && Genuine(cfg, s) && InStep(cfg, s) && Enabled(cfg, s, a)
    ensures InStep(cfg, Step(cfg, s, a))
  {
    match a
    case Poll(DepositHandled(ok)) => DepositKeepsInStep(cfg, s, ok);
    case Poll(CheckpointHandled(ok)) => CheckpointKeepsInStep(cfg, s, ok);
    case Poll(_) => assert s.process.channel + [] == s.process.channel;
    case Consume(outcome) =>
      ConsumeFrame(cfg, s, outcome);
      forall d | Trailed(s.process.channel, d) ensures Trailed(s.process.channel[1..], d) {
        TrailedShrinks(s.process.channel, d);
      }
    case Crash =>
    case Restart =>
  }

  // ----- what is gone stays gone

  /** Consuming a message moves the offset to its block, or not at all. */
  lemma OffsetMoves(cfg: Config, s: State, outcome: Outcome)
    requires Enabled(cfg, s, Consume(outcome))
    ensures var t := Step(cfg, s, Consume(outcome));
            t.offset == s.offset || t.offset == Some(BlockOf(s.process.channel[0]))
  {
  }

  lemma ConsumeStaysGone(cfg: Config, s: State, d: P.Deposit, outcome: Outcome)
    requires InStep(cfg, s) && Gone(s, d) && Due(cfg, d) && Enabled(cfg, s, Consume(outcome))
    ensures Gone(Step(cfg, s, Consume(outcome)), d)
  {
    var t, head := Step(cfg, s, Consume(outcome)), s.process.channel[0];
    ConsumeFrame(cfg, s, outcome);
    OffsetMoves(cfg, s, outcome);
    assert BlockOf(head) >= d.block by {
      assert Scanned(cfg.chain, s.process.poller, d);
      assert Trailed(s.process.channel, d);
    }
    if Stored(t, d) {
      NewlyStored(cfg, s, outcome, d);
      assert false;
    }
  }

  lemma PollStaysGone(cfg: Config, s: State, d: P.Deposit, ev: P.Event)
    requires ConfigOk(cfg) && Genuine(cfg, s) && Gone(s, d) && Enabled(cfg, s, Poll(ev))
    ensures Gone(Step(cfg, s, Poll(ev)), d)
  {
    var p := s.process.poller;
    P.StepKeepsInv(cfg.chain, cfg.maxRange, s.process.fromBlock, 0, p, ev);
    if ev.DepositHandled? {
      P.LogsComplete(cfg.chain, p.current + 1, p.phase.sliceEnd, P.SliceLogs(cfg.chain, p)[p.phase.next]);
    }
  }

  lemma StepStaysGone(cfg: Config, s: State, d: P.Deposit, a: Action)
    requires ConfigOk(cfg) && Genuine(cfg, s) && InStep(cfg, s) && Gone(s, d) && Due(cfg, d) && Enabled(cfg, s, a)
    ensures Gone(Step(cfg, s, a), d)
  {
    match a
    case Poll(ev) => PollStaysGone(cfg, s, d, ev);
    case Consume(outcome) => ConsumeStaysGone(cfg, s, d, outcome);
    case Crash =>
    case Restart =>
  }

  lemma {:induction false} GoneForGood(cfg: Config, s: State, d: P.Deposit, run: seq<Action>)
    requires ConfigOk(cfg) && Genuine(cfg, s) && InStep(cfg, s) && Gone(s, d) && Due(cfg, d) && Legal(cfg, s, run)
    ensures Gone(Run(cfg, s, run), d)
    decreases |run|
  {
    if run == [] {
    } else {
      StepKeepsGenuine(cfg, s, run[0]);
      StepKeepsInStep(cfg, s, run[0]);
      StepStaysGone(cfg, s, d, run[0]);
      GoneForGood(cfg, Step(cfg, s, run[0]), d, run[1..]);
    }
  }

  lemma {:induction false} RunKeepsInStep(cfg: Config, s: State, run: seq<Action>)
    requires ConfigOk(cfg) && Genuine(cfg, s) && InStep(cfg, s) && Legal(cfg, s, run)
    ensures Genuine(cfg, Run(cfg, s, run)) && InStep(cfg, Run(cfg, s, run))
    decreases |run|
  {
    if run == [] {
    } else {
      StepKeepsGenuine(cfg, s, run[0]);
      StepKeepsInStep(cfg, s, run[0]);
      RunKeepsInStep(cfg, Step(cfg, s, run[0]), run[1..]);
    }
  }

  // ----- what is not gone can be recovered

  ghost predicate Leads(cfg: Config, s: State, t: State) {
    Genuine(cfg, t) && exists run :: Legal(cfg, s, run) && Run(cfg, s, run) == t
  }

  lemma LeadsBack(cfg: Config, s: State)
    requires Genuine(cfg, s)
    ensures Leads(cfg, s, s)
  {
    assert Legal(cfg, s, []) && Run(cfg, s, []) == s;
  }

  lemma LeadsOn(cfg: Config, s: State, t: State, a: Action) returns (u: State)
    requires ConfigOk(cfg) && Leads(cfg, s, t) && Enabled(cfg, t, a)
    ensures u == Step(cfg, t, a) && Leads(cfg, s, u)
  {
    u := Step(cfg, t, a);
    StepKeepsGenuine(cfg, t, a);
    var run :| Legal(cfg, s, run) && Run(cfg, s, run) == t;
    RunExtends(cfg, s, run, a);
  }

  /** Consuming a deposit whose insert does not fail stores it. */
  lemma ConsumedIsStored(cfg: Config, s: State, outcome: Outcome, d: P.Deposit)
    requires ConfigOk(cfg) && Genuine(cfg, s) && Enabled(cfg, s, Consume(outcome)) && !outcome.CreateFails?
    requires s.process.channel[0] == DepositMsg(d)
    ensures Stored(Step(cfg, s, Consume(outcome)), d)
  {
    assert MessageGenuine(cfg, s.process.fromBlock, s.process.channel[0]);
  }

  lemma {:induction false} WaitingIsStored(cfg: Config, s: State, t: State, d: P.Deposit) returns (u: State)
    requires ConfigOk(cfg) && Leads(cfg, s, t) && t.process.Up? && DepositMsg(d) in t.process.channel
    ensures Leads(cfg, s, u) && Stored(u, d)
    decreases if t.process.Up? then |t.process.channel| else 0
  {
    u := LeadsOn(cfg, s, t, Consume(Succeeds(true)));
    ConsumeFrame(cfg, t, Succeeds(true));
    if t.process.channel[0] == DepositMsg(d) {
      ConsumedIsStored(cfg, t, Succeeds(true), d);
    } else {
      assert DepositMsg(d) in t.process.channel[1..];
      u := WaitingIsStored(cfg, s, u, d);
    }
  }

  /** Between ticks, nothing waiting, scanned through block `c`. */
  ghost predicate Rests(s: State, c: nat) {
    s.process.Up? && s.process.channel == [] && s.process.poller.phase.Idle? && s.process.poller.current == c
  }

  lemma {:induction false} ComeToRest(cfg: Config, s: State, t: State) returns (u: State)
    requires ConfigOk(cfg) && Leads(cfg, s, t) && t.process.Up?
    ensures Leads(cfg, s, u) && Rests(u, t.process.poller.current)
    decreases if t.process.Up? then |t.process.channel| else 0
  {
    if t.process.channel != [] {
      u := LeadsOn(cfg, s, t, Consume(Succeeds(true)));
      ConsumeFrame(cfg, t, Succeeds(true));
      u := ComeToRest(cfg, s, u);
    } else if t.process.poller.phase.Scanning? {
      u := LeadsOn(cfg, s, t, Poll(P.ScanFailed));
    } else {
      u := t;
    }
  }

  /** Inside the slice of block `b` alone, `k` of whose logs have been handed over and consumed. */
  ghost predicate Within(cfg: Config, s: State, b: nat, k: nat) {
    && s.process.Up? && s.process.channel == []
    && b > 0 && s.process.poller.current == b - 1 && s.process.poller.phase == P.Scanning(b, b, k)
    && k <= |P.Logs(cfg.chain, b, b)|
  }

  lemma EnterBlock(cfg: Config, s: State, t: State, b: nat) returns (u: State)
    requires ConfigOk(cfg) && Leads(cfg, s, t) && 0 < b <= MAX_UINT64 && Rests(t, b - 1)
    ensures Leads(cfg, s, u) && Within(cfg, u, b, 0)
  {
    u := LeadsOn(cfg, s, t, Poll(P.HeadSeen(b)));
  }

  lemma NextLog(cfg: Config, s: State, t: State, b: nat, k: nat) returns (u: State)
    requires ConfigOk(cfg) && Leads(cfg, s, t) && Within(cfg, t, b, k) && k < |P.Logs(cfg.chain, b, b)|
    ensures Leads(cfg, s, u) && Within(cfg, u, b, k + 1) && Stored(u, P.Logs(cfg.chain, b, b)[k])
  {
    var d := P.Logs(cfg.chain, b, b)[k];
    var sent := LeadsOn(cfg, s, t, Poll(P.DepositHandled(true)));
    assert sent.process.channel == [DepositMsg(d)];
    ConsumedIsStored(cfg, sent, Succeeds(true), d);
    ConsumeFrame(cfg, sent, Succeeds(true));
    u := LeadsOn(cfg, s, sent, Consume(Succeeds(true)));
  }

  lemma {:induction false} LogIsStored(cfg: Config, s: State, t: State, b: nat, k: nat, j: nat) returns (u: State)
    requires ConfigOk(cfg) && Leads(cfg, s, t) && Within(cfg, t, b, k) && k <= j < |P.Logs(cfg.chain, b, b)|
    ensures Leads(cfg, s, u) && Stored(u, P.Logs(cfg.chain, b, b)[j])
    decreases j - k
  {
    u := NextLog(cfg, s, t, b, k);
    if k < j {
      u := LogIsStored(cfg, s, u, b, k + 1, j);
    }
  }

  lemma {:induction false} LeaveBlock(cfg: Config, s: State, t: State, b: nat, k: nat) returns (u: State)
    requires ConfigOk(cfg) && Leads(cfg, s, t) && Within(cfg, t, b, k)
    ensures Leads(cfg, s, u) && Rests(u, b)
    decreases |P.Logs(cfg.chain, b, b)| - k
  {
    if k < |P.Logs(cfg.chain, b, b)| {
      u := NextLog(cfg, s, t, b, k);
      u := LeaveBlock(cfg, s, u, b, k + 1);
    } else {
      u := LeadsOn(cfg, s, t, Poll(P.CheckpointHandled(true)));
      u := ComeToRest(cfg, s, u);
    }
  }

  /** A deposit beyond the position of a process at rest can be stored. */
  lemma {:induction false} AheadIsStored(cfg: Config, s: State, t: State, c: nat, d: P.Deposit) returns (u: State)
    requires ConfigOk(cfg) && Leads(cfg, s, t) && Rests(t, c) && P.On(cfg.chain, d) && c < d.block
    ensures Leads(cfg, s, u) && Stored(u, d)
    decreases d.block - c
  {
    u := EnterBlock(cfg, s, t, c + 1);
    if d.block == c + 1 {
      P.LogsComplete(cfg.chain, c + 1, c + 1, d);
      var j :| 0 <= j < |P.Logs(cfg.chain, c + 1, c + 1)| && P.Logs(cfg.chain, c + 1, c + 1)[j] == d;
      u := LogIsStored(cfg, s, u, c + 1, 0, j);
    } else {
      u := LeaveBlock(cfg, s, u, c + 1, 0);
      u := AheadIsStored(cfg, s, u, c + 1, d);
    }
  }

  /** From a state where `d` is not gone, some continuation stores it. */
  lemma NotGoneIsStored(cfg: Config, s: State, d: P.Deposit) returns (u: State)
    requires ConfigOk(cfg) && Genuine(cfg, s) && Due(cfg, d) && !Gone(s, d)
    ensures Leads(cfg, s, u) && Stored(u, d)
  {
    LeadsBack(cfg, s);
    u := s;
    if Stored(s, d) {
    } else if s.process.Up? && DepositMsg(d) in s.process.channel {
      u := WaitingIsStored(cfg, s, s, d);
    } else if s.process.Up? && s.process.poller.current < d.block {
      u := ComeToRest(cfg, s, s);
      u := AheadIsStored(cfg, s, u, u.process.poller.current, d);
    } else {
      if s.process.Up? {
        u := LeadsOn(cfg, s, s, Crash);
      }
      u := LeadsOn(cfg, s, u, Restart);
      u := AheadIsStored(cfg, s, u, u.process.poller.current, d);
    }
  }

  /**
   * From any reachable state, a due deposit is never stored, whatever happens next, if and
   * only if it is gone: the offset has passed it and, while the process is up, its scan has
   * too with no message for it left on the channel.
   */
  lemma NeverStoredIff(cfg: Config, s: State, d: P.Deposit)
    requires ConfigOk(cfg) && Reachable(cfg, s) && Due(cfg, d)
    ensures NeverStored(cfg, s, d) <==> Gone(s, d)
  {
    var before :| Legal(cfg, Init(), before) && Run(cfg, Init(), before) == s;
    RunKeepsInStep(cfg, Init(), before);
    if Gone(s, d) {
      forall run | Legal(cfg, s, run) ensures !Stored(Run(cfg, s, run), d) {
        GoneForGood(cfg, s, d, run);
      }
    } else {
      var u := NotGoneIsStored(cfg, s, d);
      var run :| Legal(cfg, s, run) && Run(cfg, s, run) == u;
    }
  }

  // ----- which deposits can be lost at all

  /** A log of the same block as `d` comes after `d`, if that is the first of its block. */
  lemma {:induction false} FirstComesFirst(chain: P.Chain, start: nat, end: int, n: nat, d: P.Deposit) returns (k: nat)
    requires P.ChainOk(chain) && n < |P.Logs(chain, start, end)| && P.On(chain, d) && d == chain(d.block)[0]
    requires P.Logs(chain, start, end)[n].block == d.block
    ensures k <= n && P.Logs(chain, start, end)[k] == d
    decreases end - start
  {
    var here := |chain(start)|;
    if n < here {
      assert chain(start)[n] in chain(start);
      k := 0;
    } else {
      k := FirstComesFirst(chain, start + 1, end, n - here, d);
      k := k + here;
    }
  }

  /** `d` is stored, or on the channel no later than position `i`. */
  ghost predicate ComesBy(s: State, i: nat, d: P.Deposit)
    requires s.process.Up?
  {
    Stored(s, d) || exists j :: 0 <= j <= i && j < |s.process.channel| && s.process.channel[j] == DepositMsg(d)
  }

  ghost predicate IsFor(m: Message, b: nat) {
    m.DepositMsg? && m.deposit.block == b
  }

  /** Nothing of its block is stored, or waits, ahead of `d`. */
  ghost predicate First(cfg: Config, s: State, d: P.Deposit) {
    && (BlockStored(s, d.block) ==> Stored(s, d))
    && (s.process.Up? ==>
          var p, channel := s.process.poller, s.process.channel;
          && (forall i :: 0 <= i < |channel| && IsFor(channel[i], d.block) ==> ComesBy(s, i, d))
          && (d.block > p.current && Scanned(cfg.chain, p, d) ==> ComesBy(s, |channel|, d)))
  }

  lemma ComesByGrows(s: State, i: nat, t: State, m: nat, d: P.Deposit)
    requires s.process.Up? && t.process.Up? && ComesBy(s, i, d) && i <= m
    requires s.transfers == t.transfers && s.process.channel <= t.process.channel
    ensures ComesBy(t, m, d)
  {
    if !Stored(s, d) {
      var j :| 0 <= j <= i && j < |s.process.channel| && s.process.channel[j] == DepositMsg(d);
      assert t.process.channel[j] == DepositMsg(d);
    }
  }

  lemma SameBlocksStored(s: State, t: State, b: nat)
    requires s.transfers == t.transfers
    ensures BlockStored(s, b) <==> BlockStored(t, b)
  {
    if BlockStored(s, b) {
      var e :| Stored(s, e) && e.block == b;
      assert Stored(t, e);
    }
    if BlockStored(t, b) {
      var e :| Stored(t, e) && e.block == b;
      assert Stored(s, e);
    }
  }

  /** A deposit sent for the block of `d` is `d`, or has `d` ahead of it. */
  lemma SentAfterFirst(cfg: Config, s: State, d: P.Deposit)
    requires ConfigOk(cfg) && Genuine(cfg, s) && First(cfg, s, d) && P.On(cfg.chain, d) && d == cfg.chain(d.block)[0]
    requires Enabled(cfg, s, Poll(P.DepositHandled(true)))
    requires var p := s.process.poller; P.SliceLogs(cfg.chain, p)[p.phase.next].block == d.block
    ensures var t := Step(cfg, s, Poll(P.DepositHandled(true))); ComesBy(t, |s.process.channel|, d)
  {
    var p, t := s.process.poller, Step(cfg, s, Poll(P.DepositHandled(true)));
    var k := FirstComesFirst(cfg.chain, p.current + 1, p.phase.sliceEnd, p.phase.next, d);
    if k == p.phase.next {
      assert t.process.channel[|s.process.channel|] == DepositMsg(d);
    } else {
      P.LogsComplete(cfg.chain, p.current + 1, p.phase.sliceEnd, d);
      assert Scanned(cfg.chain, p, d);
      ComesByGrows(s, |s.process.channel|, t, |s.process.channel|, d);
    }
  }

  lemma PollKeepsWaiting(cfg: Config, s: State, d: P.Deposit, ev: P.Event, i: nat)
    requires ConfigOk(cfg) && Genuine(cfg, s) && First(cfg, s, d) && P.On(cfg.chain, d) && d == cfg.chain(d.block)[0]
    requires Enabled(cfg, s, Poll(ev))
    requires var t := Step(cfg, s, Poll(ev)); i < |t.process.channel| && IsFor(t.process.channel[i], d.block)
    ensures ComesBy(Step(cfg, s, Poll(ev)), i, d)
  {
    if i < |s.process.channel| {
      ComesByGrows(s, i, Step(cfg, s, Poll(ev)), i, d);
    } else {
      assert ev == P.DepositHandled(true);
      SentAfterFirst(cfg, s, d);
    }
  }

  lemma PollKeepsScanned(cfg: Config, s: State, d: P.Deposit, ev: P.Event)
    requires ConfigOk(cfg) && Genuine(cfg, s) && First(cfg, s, d) && Enabled(cfg, s, Poll(ev))
    requires var p := Step(cfg, s, Poll(ev)).process.poller; d.block > p.current && Scanned(cfg.chain, p, d)
    ensures var t := Step(cfg, s, Poll(ev)); ComesBy(t, |t.process.channel|, d)
  {
    var p, t := s.process.poller, Step(cfg, s, Poll(ev));
    assert ev == P.DepositHandled(true);
    var logs := P.SliceLogs(cfg.chain, p);
    if logs[p.phase.next] == d {
      assert t.process.channel[|s.process.channel|] == DepositMsg(d);
    } else {
      assert Scanned(cfg.chain, p, d);
      ComesByGrows(s, |s.process.channel|, t, |t.process.channel|, d);
    }
  }

  lemma PollKeepsFirst(cfg: Config, s: State, d: P.Deposit, ev: P.Event)
    requires ConfigOk(cfg) && Genuine(cfg, s) && First(cfg, s, d) && P.On(cfg.chain, d) && d == cfg.chain(d.block)[0]
    requires Enabled(cfg, s, Poll(ev))
    ensures First(cfg, Step(cfg, s, Poll(ev)), d)
  {
    var t := Step(cfg, s, Poll(ev));
    SameBlocksStored(s, t, d.block);
    forall i | 0 <= i < |t.process.channel| && IsFor(t.process.channel[i], d.block) ensures ComesBy(t, i, d) {
      PollKeepsWaiting(cfg, s, d, ev, i);
    }
    if d.block > t.process.poller.current && Scanned(cfg.chain, t.process.poller, d) {
      PollKeepsScanned(cfg, s, d, ev);
    }
  }

  lemma StoredIsKept(cfg: Config, s: State, outcome: Outcome, d: P.Deposit)
    requires Enabled(cfg, s, Consume(outcome)) && Stored(s, d)
    ensures Stored(Step(cfg, s, Consume(outcome)), d)
  {
  }

  /** What consuming a message stores was stored, or is the message's deposit. */
  lemma NewlyStored(cfg: Config, s: State, outcome: Outcome, e: P.Deposit)
    requires Enabled(cfg, s, Consume(outcome)) && Stored(Step(cfg, s, Consume(outcome)), e)
    ensures Stored(s, e) || s.process.channel[0] == DepositMsg(e)
  {
  }

  /** Without failed inserts, whatever came by a position is stored or still ahead of it. */
  lemma ComesByShifts(cfg: Config, s: State, outcome: Outcome, i: nat, d: P.Deposit)
    requires ConfigOk(cfg) && Genuine(cfg, s) && Enabled(cfg, s, Consume(outcome)) && !outcome.CreateFails?
    requires ComesBy(s, i + 1, d)
    ensures ComesBy(Step(cfg, s, Consume(outcome)), i, d)
  {
    var t, head := Step(cfg, s, Consume(outcome)), s.process.channel[0];
    ConsumeFrame(cfg, s, outcome);
    if Stored(s, d) {
      StoredIsKept(cfg, s, outcome, d);
    } else if head == DepositMsg(d) {
      ConsumedIsStored(cfg, s, outcome, d);
    } else {
      var j :| 0 <= j <= i + 1 && j < |s.process.channel| && s.process.channel[j] == DepositMsg(d);
      assert t.process.channel[j - 1] == DepositMsg(d);
    }
  }

  lemma ConsumeKeepsBlock(cfg: Config, s: State, d: P.Deposit, outcome: Outcome)
    requires ConfigOk(cfg) && Genuine(cfg, s) && First(cfg, s, d) && Enabled(cfg, s, Consume(outcome))
    requires !outcome.CreateFails? && BlockStored(Step(cfg, s, Consume(outcome)), d.block)
    ensures Stored(Step(cfg, s, Consume(outcome)), d)
  {
    var e :| Stored(Step(cfg, s, Consume(outcome)), e) && e.block == d.block;
    NewlyStored(cfg, s, outcome, e);
    assert Stored(s, e) ==> BlockStored(s, d.block);
    if Stored(s, d) {
      StoredIsKept(cfg, s, outcome, d);
    } else {
      assert ComesBy(s, 0, d);
      ConsumedIsStored(cfg, s, outcome, d);
    }
  }

  lemma ConsumeKeepsFirst(cfg: Config, s: State, d: P.Deposit, outcome: Outcome)
    requires ConfigOk(cfg) && Genuine(cfg, s) && First(cfg, s, d) && Enabled(cfg, s, Consume(outcome))
    requires !outcome.CreateFails?
    ensures First(cfg, Step(cfg, s, Consume(outcome)), d)
  {
    var t := Step(cfg, s, Consume(outcome));
    ConsumeFrame(cfg, s, outcome);
    if BlockStored(t, d.block) {
      ConsumeKeepsBlock(cfg, s, d, outcome);
    }
    forall i | 0 <= i < |t.process.channel| && IsFor(t.process.channel[i], d.block) ensures ComesBy(t, i, d) {
      assert t.process.channel[i] == s.process.channel[i + 1];
      ComesByShifts(cfg, s, outcome, i, d);
    }
    if d.block > t.process.poller.current && Scanned(cfg.chain, t.process.poller, d) {
      ComesByShifts(cfg, s, outcome, |t.process.channel|, d);
    }
  }

  lemma StepKeepsFirst(cfg: Config, s: State, d: P.Deposit, a: Action)
    requires ConfigOk(cfg) && !cfg.createMayFail && P.On(cfg.chain, d) && d == cfg.chain(d.block)[0]
    requires Genuine(cfg, s) && First(cfg, s, d) && Enabled(cfg, s, a)
    ensures First(cfg, Step(cfg, s, a), d)
  {
    match a
    case Poll(ev) => PollKeepsFirst(cfg, s, d, ev);
    case Consume(outcome) => ConsumeKeepsFirst(cfg, s, d, outcome);
    case Crash => SameBlocksStored(s, Step(cfg, s, a), d.block);
    case Restart => SameBlocksStored(s, Step(cfg, s, a), d.block);
  }

  lemma {:induction false} RunKeepsFirst(cfg: Config, s: State, d: P.Deposit, run: seq<Action>)
    requires ConfigOk(cfg) && !cfg.createMayFail && P.On(cfg.chain, d) && d == cfg.chain(d.block)[0]
    requires Genuine(cfg, s) && First(cfg, s, d) && Legal(cfg, s, run)
    ensures First(cfg, Run(cfg, s, run), d)
    decreases |run|
  {
    if run == [] {
    } else {
      StepKeepsGenuine(cfg, s, run[0]);
      StepKeepsFirst(cfg, s, d, run[0]);
      RunKeepsFirst(cfg, Step(cfg, s, run[0]), d, run[1..]);
    }
  }

  /** The consumer as configured can lose `d`: an insert may fail, or the offset may move on an earlier deposit of its block. */
  ghost predicate AtRisk(cfg: Config, d: P.Deposit)
    requires P.On(cfg.chain, d)
  {
    cfg.createMayFail || (cfg.persistOnDeposit && cfg.chain(d.block)[0] != d)
  }

  lemma {:induction false} OneBlockLogs(chain: P.Chain, b: nat)
    ensures P.Logs(chain, b, b) == chain(b)
  {
    assert P.Logs(chain, b + 1, b) == [];
  }

  /** A run that crashes with `d` behind the offset and not stored. */
  lemma LoseIt(cfg: Config, d: P.Deposit) returns (s: State)
    requires ConfigOk(cfg) && Due(cfg, d) && AtRisk(cfg, d)
    ensures Reachable(cfg, s) && Gone(s, d)
  {
    if cfg.createMayFail {
      s := FailedInsertUnsafe(cfg, d);
    } else {
      var e := cfg.chain(d.block)[0];
      assert e in cfg.chain(d.block);
      var lost;
      s, lost := SharedBlockUnsafe(cfg, e, d);
      OneBlockLogs(cfg.chain, d.block);
    }
    ReachableStep(cfg, s, Crash);
    ghost var up := s;
    s := Step(cfg, s, Crash);
    assert Stored(s, d) ==> Stored(up, d);
  }

  lemma SafeFromLoss(cfg: Config, s: State, d: P.Deposit)
    requires ConfigOk(cfg) && Due(cfg, d) && !AtRisk(cfg, d) && Reachable(cfg, s)
    ensures !Gone(s, d)
  {
    var run :| Legal(cfg, Init(), run) && Run(cfg, Init(), run) == s;
    if Gone(s, d) {
      LostOnlyWithReason(cfg, run, d);
      RunKeepsFirst(cfg, Init(), d, run);
      assert false;
    }
  }

  /**
   * A due deposit can be lost for good, in some run, if and only if it is at risk. With the
   * consumer of processor.go that is every one; were inserts never to fail, every deposit
   * that is not the first of its block; with the offset moving on checkpoints only, none.
   */
  lemma CanBeLostIff(cfg: Config, d: P.Deposit)
    requires ConfigOk(cfg) && Due(cfg, d)
    ensures (exists s :: Reachable(cfg, s) && NeverStored(cfg, s, d)) <==> AtRisk(cfg, d)
  {
    if AtRisk(cfg, d) {
      var s := LoseIt(cfg, d);
      NeverStoredIff(cfg, s, d);
    } else {
      forall s | Reachable(cfg, s) ensures !NeverStored(cfg, s, d) {
        SafeFromLoss(cfg, s, d);
        NeverStoredIff(cfg, s, d);
      }
    }
  }

  /** Of two deposits in one block, the consumer of processor.go can lose one for good. */
  lemma SharedBlockLosesForGood(cfg: Config, d: P.Deposit, e: P.Deposit) returns (s: State, lost: P.Deposit)
    requires ConfigOk(cfg) && cfg.persistOnDeposit
    requires Due(cfg, d) && Due(cfg, e) && d.block == e.block && d != e
    ensures lost == (if cfg.chain(d.block)[0] == d then e else d) && Due(cfg, lost)
    ensures Reachable(cfg, s) && NeverStored(cfg, s, lost)
  {
    lost := if cfg.chain(d.block)[0] == d then e else d;
    s := LoseIt(cfg, lost);
    NeverStoredIff(cfg, s, lost);
  }

  /** Two deposits in block 1, relayed from block 0 with the consumer of processor.go. */
  function TwoInOneBlock(): (cfg: Config) {
    Config(
      (b: nat) => if b == 1 then [P.Deposit("tx-0", 1, ""), P.Deposit("tx-1", 1, "")] else [],
      0, 100, true, false)
  }

  lemma TwoInOneBlockLoses() returns (s: State)
    ensures ConfigOk(TwoInOneBlock()) && Reachable(TwoInOneBlock(), s)
    ensures Due(TwoInOneBlock(), P.Deposit("tx-1", 1, ""))
    ensures NeverStored(TwoInOneBlock(), s, P.Deposit("tx-1", 1, ""))
  {
    var cfg := TwoInOneBlock();
    var d, e := P.Deposit("tx-0", 1, ""), P.Deposit("tx-1", 1, "");
    assert cfg.chain(1) == [d, e];
    assert cfg.chain(1)[0] == d && cfg.chain(1)[1] == e;
    assert "tx-0"[3] != "tx-1"[3];
    var lost;
    s, lost := SharedBlockLosesForGood(cfg, d, e);
  }
}
