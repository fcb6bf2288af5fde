/**
 * The consumer end of the channel, written as pkg/relayer/engine/processor.go writes
 * it, and proved to take the steps of the Relayer machine with the offset persisted
 * after each deposit.
 */
module Processor {
  import opened Offsets
  import opened Relayer
  import P = Poller
  import opened Wrappers

  /** The processor with the transfer table and the chain state row it writes to. */
  class Processor {
    var transfers: map<string, P.Deposit>
    var offset: Option<nat>
    var lastSavedOffset: Option<nat>

    constructor (transfers: map<string, P.Deposit>, offset: Option<nat>)
      ensures this.transfers == transfers && this.offset == offset && lastSavedOffset == None
    {
      this.transfers, this.offset, lastSavedOffset := transfers, offset, None;
    }

    /** The machine state this processor is part of, given the rest of the process. */
    ghost function View(fromBlock: nat, poller: P.State, channel: seq<Message>): (s: State)
      reads this
    {
      State(Up(fromBlock, poller, channel, lastSavedOffset), transfers, offset)
    }

    /** `saved` is whether writing the chain state row succeeds. */
    method PersistOffset(
        block: nat, saved: bool, ghost fromBlock: nat, ghost poller: P.State, ghost channel: seq<Message>)
      modifies this
      ensures View(fromBlock, poller, channel) == Persist(old(View(fromBlock, poller, channel)), block, saved)
    {
      if block == 0 || lastSavedOffset == Some(block) {
        return;
      }
      lastSavedOffset := Some(block);
      if saved {
        offset := Some(block);
      }
    }

    /** `outcome` is how the store and the destination chain answer. */
    method ProcessEvent(
        cfg: Config, d: P.Deposit, outcome: Outcome,
        ghost fromBlock: nat, ghost poller: P.State, ghost channel: seq<Message>)
      requires cfg.persistOnDeposit
      modifies this
      ensures View(fromBlock, poller, channel) == ConsumeDeposit(cfg, old(View(fromBlock, poller, channel)), d, outcome)
    {
      var saved := outcome.Succeeds? && outcome.offsetSaved;
      if outcome.CreateFails? {
        return;
      }
      if d.id in transfers {
        PersistOffset(d.block, saved, fromBlock, poller, channel);
        return;
      }
      transfers := transfers[d.id := d];
      if outcome.SubmitFails? {
        return;
      }
      PersistOffset(d.block, saved, fromBlock, poller, channel);
    }

    /** One turn of Start's loop on the message at the head of the channel: a Consume step of the machine. */
    method Receive(
        cfg: Config, m: Message, outcome: Outcome, ghost fromBlock: nat, ghost poller: P.State, ghost rest: seq<Message>)
      requires cfg.persistOnDeposit && (outcome.CreateFails? ==> cfg.createMayFail)
      modifies this
      ensures Enabled(cfg, old(View(fromBlock, poller, [m] + rest)), Consume(outcome))
      ensures View(fromBlock, poller, rest) == Step(cfg, old(View(fromBlock, poller, [m] + rest)), Consume(outcome))
    {
      assert ([m] + rest)[1..] == rest;
      match m
      case CheckpointMsg(b) => PersistOffset(b, outcome.Succeeds? && outcome.offsetSaved, fromBlock, poller, rest);
      case DepositMsg(d) => ProcessEvent(cfg, d, outcome, fromBlock, poller, rest);
    }

    /**
     * Start's loop over the messages that arrive until the channel is closed: the turns are
     * the machine's, and the offset ends as the last turn that writes it leaves it.
     */
    method Start(
        cfg: Config, turns: seq<Turn>, ghost fromBlock: nat, ghost poller: P.State, ghost rest: seq<Message>)
      requires cfg.persistOnDeposit && forall i :: 0 <= i < |turns| && turns[i].outcome.CreateFails? ==> cfg.createMayFail
      modifies this
      ensures var s := old(View(fromBlock, poller, Messages(turns) + rest));
              && Legal(cfg, s, Consumes(turns)) && View(fromBlock, poller, rest) == Run(cfg, s, Consumes(turns))
              && Decided(cfg, s.transfers.Keys, s.process.lastSaved, turns, |turns|, s.offset, offset)
    {
      ghost var s := View(fromBlock, poller, Messages(turns) + rest);
      MessagesFeed(cfg, s, turns, rest);
      var i := 0;
      while i < |turns|
        invariant 0 <= i <= |turns|
        invariant Legal(cfg, s, Consumes(turns[..i]))
        invariant View(fromBlock, poller, (Messages(turns) + rest)[i..]) == Run(cfg, s, Consumes(turns[..i]))
      {
        ghost var channel := (Messages(turns) + rest)[i..];
        NextMessage(turns, rest, i);
        Receive(cfg, turns[i].message, turns[i].outcome, fromBlock, poller, channel[1..]);
        ConsumesNext(turns, i);
        RunExtends(cfg, s, Consumes(turns[..i]), Consume(turns[i].outcome));
        i := i + 1;
      }
      assert turns[..i] == turns && (Messages(turns) + rest)[i..] == rest;
      OffsetAfter(cfg, s, turns, |turns|);
    }
  }

  function Messages(turns: seq<Turn>): (ms: seq<Message>)
    ensures |ms| == |turns| && forall i :: 0 <= i < |turns| ==> ms[i] == turns[i].message
  {
    seq(|turns|, i requires 0 <= i < |turns| => turns[i].message)
  }

  lemma MessagesFeed(cfg: Config, s: State, turns: seq<Turn>, rest: seq<Message>)
    requires s.process.Up? && s.process.channel == Messages(turns) + rest
    requires forall i :: 0 <= i < |turns| && turns[i].outcome.CreateFails? ==> cfg.createMayFail
    ensures Feeds(cfg, s, turns)
  {
  }

  lemma NextMessage(turns: seq<Turn>, rest: seq<Message>, i: nat)
    requires i < |turns|
    ensures var all := Messages(turns) + rest;
            all[i..] == [turns[i].message] + all[i..][1..] && all[i..][1..] == all[i + 1..]
  {
  }
}
