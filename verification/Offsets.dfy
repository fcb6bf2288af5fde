/**
 * When the processor writes the offset (pkg/relayer/engine/processor.go), told from the
 * messages it receives and the answers it gets, without reference to what it remembers.
 */
module Offsets {
  import opened Relayer
  import P = Poller
  import opened Wrappers

  /** A message taken off the channel, and how it fared. */
  datatype Turn = Turn(message: Message, outcome: Outcome)

  /** The turn leaves the id in the transfer table. */
  predicate Inserts(turn: Turn, id: string) {
    turn.message.DepositMsg? && turn.message.deposit.id == id && !turn.outcome.CreateFails?
  }

  /** The id is in the table before turn `n`: it was from the beginning, or an earlier turn inserted it. */
  ghost predicate KnownBy(ids: set<string>, turns: seq<Turn>, n: nat, id: string) {
    id in ids || exists j :: 0 <= j < n && j < |turns| && Inserts(turns[j], id)
  }

  /**
   * Turn `n` gets as far as saving its block, which must not be 0: a checkpoint always does,
   * a deposit unless its insert fails or, being new, its submission does.
   */
  ghost predicate Tries(cfg: Config, ids: set<string>, turns: seq<Turn>, n: nat)
    requires n < |turns|
  {
    && BlockOf(turns[n].message) != 0
    && match turns[n].message
       case CheckpointMsg(_) => true
       case DepositMsg(d) =>
         cfg.persistOnDeposit &&
         match turns[n].outcome
         case CreateFails => false
         case SubmitFails => KnownBy(ids, turns, n, d.id)
         case Succeeds(_) => true
  }

  /** Turn `j` is the last one before `n` that tried. */
  ghost predicate LastTry(cfg: Config, ids: set<string>, turns: seq<Turn>, n: nat, j: nat)
    requires n <= |turns|
  {
    j < n && Tries(cfg, ids, turns, j) && forall k :: j < k < n ==> !Tries(cfg, ids, turns, k)
  }

  ghost predicate NoTry(cfg: Config, ids: set<string>, turns: seq<Turn>, n: nat)
    requires n <= |turns|
  {
    forall k :: 0 <= k < n ==> !Tries(cfg, ids, turns, k)
  }

  /** `block` is what the last turn before `n` that tried, tried to save, whatever the write answered. */
  ghost predicate LastTried(cfg: Config, ids: set<string>, saved: Option<nat>, turns: seq<Turn>, n: nat, block: nat)
    requires n <= |turns|
  {
    || (exists j: nat :: LastTry(cfg, ids, turns, n, j) && BlockOf(turns[j].message) == block)
    || (NoTry(cfg, ids, turns, n) && saved == Some(block))
  }

  /** Turn `n` writes the offset. */
  ghost predicate Writes(cfg: Config, ids: set<string>, saved: Option<nat>, turns: seq<Turn>, n: nat)
    requires n < |turns|
  {
    && Tries(cfg, ids, turns, n)
    && !LastTried(cfg, ids, saved, turns, n, BlockOf(turns[n].message))
    && turns[n].outcome == Succeeds(true)
  }

  /** The turns take the messages at the front of the channel. */
  ghost predicate Feeds(cfg: Config, s: State, turns: seq<Turn>) {
    && s.process.Up? && |turns| <= |s.process.channel|
    && (forall i :: 0 <= i < |turns| ==> s.process.channel[i] == turns[i].message)
    && (forall i :: 0 <= i < |turns| && turns[i].outcome.CreateFails? ==> cfg.createMayFail)
  }

  function Consumes(turns: seq<Turn>): (run: seq<Action>) {
    if |turns| == 0 then [] else Consumes(turns[..|turns| - 1]) + [Consume(turns[|turns| - 1].outcome)]
  }

  // ----- one turn

  /** On its own, a turn tries to save its block. */
  predicate TriesNow(cfg: Config, transfers: map<string, P.Deposit>, turn: Turn) {
    && BlockOf(turn.message) != 0
    && match turn.message
       case CheckpointMsg(_) => true
       case DepositMsg(d) =>
         cfg.persistOnDeposit && !turn.outcome.CreateFails? && (turn.outcome.Succeeds? || d.id in transfers)
  }

  lemma TurnStep(cfg: Config, s: State, turn: Turn)
    requires Enabled(cfg, s, Consume(turn.outcome)) && s.process.channel[0] == turn.message
    ensures var t, block, tries := Step(cfg, s, Consume(turn.outcome)), BlockOf(turn.message), TriesNow(cfg, s.transfers, turn);
            && t.process.Up? && t.process.channel == s.process.channel[1..]
            && t.process.lastSaved == (if tries then Some(block) else s.process.lastSaved)
            && t.offset == (if tries && s.process.lastSaved != Some(block) && turn.outcome == Succeeds(true) then Some(block)
                            else s.offset)
            && forall id :: id in t.transfers <==> id in s.transfers || Inserts(turn, id)
  {
  }

  // ----- whole runs

  lemma KnownNext(ids: set<string>, turns: seq<Turn>, n: nat, id: string)
    requires n < |turns|
    ensures KnownBy(ids, turns, n + 1, id) <==> KnownBy(ids, turns, n, id) || Inserts(turns[n], id)
  {
  }

  lemma TriedNext(cfg: Config, ids: set<string>, saved: Option<nat>, turns: seq<Turn>, n: nat, block: nat)
    requires n < |turns|
    ensures LastTried(cfg, ids, saved, turns, n + 1, block) <==>
            if Tries(cfg, ids, turns, n) then BlockOf(turns[n].message) == block
            else LastTried(cfg, ids, saved, turns, n, block)
  {
    if Tries(cfg, ids, turns, n) {
      assert LastTry(cfg, ids, turns, n + 1, n);
    } else {
      assert forall j: nat :: LastTry(cfg, ids, turns, n + 1, j) <==> LastTry(cfg, ids, turns, n, j);
    }
  }

  /** What holds after the first `n` turns. */
  ghost predicate Reached(cfg: Config, s: State, turns: seq<Turn>, n: nat, t: State)
    requires n <= |turns| && s.process.Up? && n <= |s.process.channel|
  {
    && t.process.Up? && t.process.channel == s.process.channel[n..]
    && (forall id :: id in t.transfers <==> KnownBy(s.transfers.Keys, turns, n, id))
    && (forall b: nat :: t.process.lastSaved == Some(b) <==> LastTried(cfg, s.transfers.Keys, s.process.lastSaved, turns, n, b))
  }

  lemma ReachedStarts(cfg: Config, s: State, turns: seq<Turn>)
    requires s.process.Up?
    ensures Reached(cfg, s, turns, 0, s)
  {
  }

  /** What turn `n` does to the offset once the turns before it are done. */
  lemma ReachedNext(cfg: Config, s: State, turns: seq<Turn>, n: nat, t: State)
    requires Feeds(cfg, s, turns) && n < |turns| && Reached(cfg, s, turns, n, t)
    ensures Enabled(cfg, t, Consume(turns[n].outcome))
    ensures var u := Step(cfg, t, Consume(turns[n].outcome));
            && Reached(cfg, s, turns, n + 1, u)
            && u.offset == if Writes(cfg, s.transfers.Keys, s.process.lastSaved, turns, n) then Some(BlockOf(turns[n].message))
                           else t.offset
  {
    var ids, saved := s.transfers.Keys, s.process.lastSaved;
    assert t.process.channel[0] == turns[n].message;
    TurnStep(cfg, t, turns[n]);
    assert TriesNow(cfg, t.transfers, turns[n]) == Tries(cfg, ids, turns, n);
    forall id ensures KnownBy(ids, turns, n + 1, id) <==> KnownBy(ids, turns, n, id) || Inserts(turns[n], id) {
      KnownNext(ids, turns, n, id);
    }
    forall b: nat
      ensures LastTried(cfg, ids, saved, turns, n + 1, b) <==>
              if Tries(cfg, ids, turns, n) then BlockOf(turns[n].message) == b else LastTried(cfg, ids, saved, turns, n, b)
    {
      TriedNext(cfg, ids, saved, turns, n, b);
    }
  }

  lemma {:induction false} ReachedAfter(cfg: Config, s: State, turns: seq<Turn>, n: nat)
    requires Feeds(cfg, s, turns) && n <= |turns|
    ensures Legal(cfg, s, Consumes(turns[..n])) && Reached(cfg, s, turns, n, Run(cfg, s, Consumes(turns[..n])))
    decreases n
  {
    if n == 0 {
      assert |turns[..0]| == 0;
      ReachedStarts(cfg, s, turns);
    } else {
      ReachedAfter(cfg, s, turns, n - 1);
      ReachedNext(cfg, s, turns, n - 1, Run(cfg, s, Consumes(turns[..n - 1])));
      ConsumesNext(turns, n - 1);
      RunExtends(cfg, s, Consumes(turns[..n - 1]), Consume(turns[n - 1].outcome));
    }
  }

  lemma {:induction false} ConsumesNext(turns: seq<Turn>, n: nat)
    requires n < |turns|
    ensures Consumes(turns[..n + 1]) == Consumes(turns[..n]) + [Consume(turns[n].outcome)]
  {
    assert turns[..n + 1][..n] == turns[..n];
  }

  /**
   * In every run of turns, whatever came before it, a turn writes the offset exactly when its
   * block is not 0 and differs from the one last tried, and the write succeeds.
   */
  lemma OffsetWritten(cfg: Config, s: State, turns: seq<Turn>, n: nat)
    requires Feeds(cfg, s, turns) && n < |turns|
    ensures Legal(cfg, s, Consumes(turns[..n])) && Legal(cfg, s, Consumes(turns[..n + 1]))
    ensures Run(cfg, s, Consumes(turns[..n + 1])).offset
            == if Writes(cfg, s.transfers.Keys, s.process.lastSaved, turns, n) then Some(BlockOf(turns[n].message))
               else Run(cfg, s, Consumes(turns[..n])).offset
  {
    ReachedAfter(cfg, s, turns, n);
    ReachedAfter(cfg, s, turns, n + 1);
    ReachedNext(cfg, s, turns, n, Run(cfg, s, Consumes(turns[..n])));
    ConsumesNext(turns, n);
    RunExtends(cfg, s, Consumes(turns[..n]), Consume(turns[n].outcome));
  }

  /** Turn `j` is the last one before `n` that writes. */
  ghost predicate LastWrite(cfg: Config, ids: set<string>, saved: Option<nat>, turns: seq<Turn>, n: nat, j: nat)
    requires n <= |turns|
  {
    j < n && Writes(cfg, ids, saved, turns, j) && forall k :: j < k < n ==> !Writes(cfg, ids, saved, turns, k)
  }

  ghost predicate NoWrite(cfg: Config, ids: set<string>, saved: Option<nat>, turns: seq<Turn>, n: nat)
    requires n <= |turns|
  {
    forall k :: 0 <= k < n ==> !Writes(cfg, ids, saved, turns, k)
  }

  /** The offset is the block of the last turn that wrote it, or the old one. */
  ghost predicate Decided(
      cfg: Config, ids: set<string>, saved: Option<nat>, turns: seq<Turn>, n: nat, before: Option<nat>, after: Option<nat>)
    requires n <= |turns|
  {
    || (NoWrite(cfg, ids, saved, turns, n) && after == before)
    || exists j: nat :: LastWrite(cfg, ids, saved, turns, n, j) && after == Some(BlockOf(turns[j].message))
  }

  lemma DecidedNext(
      cfg: Config, ids: set<string>, saved: Option<nat>, turns: seq<Turn>, n: nat, before: Option<nat>, mid: Option<nat>,
      after: Option<nat>)
    requires n < |turns| && Decided(cfg, ids, saved, turns, n, before, mid)
    requires after == if Writes(cfg, ids, saved, turns, n) then Some(BlockOf(turns[n].message)) else mid
    ensures Decided(cfg, ids, saved, turns, n + 1, before, after)
  {
    if Writes(cfg, ids, saved, turns, n) {
      assert LastWrite(cfg, ids, saved, turns, n + 1, n);
    } else if !NoWrite(cfg, ids, saved, turns, n) {
      var j: nat :| LastWrite(cfg, ids, saved, turns, n, j) && mid == Some(BlockOf(turns[j].message));
      assert LastWrite(cfg, ids, saved, turns, n + 1, j);
    }
  }

  /** The last turn that writes decides the offset; without one it is as before. */
  lemma {:induction false} OffsetAfter(cfg: Config, s: State, turns: seq<Turn>, n: nat)
    requires Feeds(cfg, s, turns) && n <= |turns|
    ensures Legal(cfg, s, Consumes(turns[..n]))
    ensures Decided(cfg, s.transfers.Keys, s.process.lastSaved, turns, n, s.offset, Run(cfg, s, Consumes(turns[..n])).offset)
    decreases n
  {
    if n == 0 {
      assert |turns[..0]| == 0;
    } else {
      OffsetAfter(cfg, s, turns, n - 1);
      OffsetWritten(cfg, s, turns, n - 1);
      DecidedNext(cfg, s.transfers.Keys, s.process.lastSaved, turns, n - 1, s.offset,
                  Run(cfg, s, Consumes(turns[..n - 1])).offset, Run(cfg, s, Consumes(turns[..n])).offset);
    }
  }

  /** A failed write of block 7 is not made up for by the next message of block 7: the offset stays unset. */
  lemma SevenTwice(cfg: Config, s: State)
    requires s.process.Up? && s.process.channel == [CheckpointMsg(7), CheckpointMsg(7)]
    requires s.process.lastSaved == None && s.offset == None
    ensures var turns := [Turn(CheckpointMsg(7), Succeeds(false)), Turn(CheckpointMsg(7), Succeeds(true))];
            Legal(cfg, s, Consumes(turns)) && Run(cfg, s, Consumes(turns)).offset == None
  {
    var turns := [Turn(CheckpointMsg(7), Succeeds(false)), Turn(CheckpointMsg(7), Succeeds(true))];
    assert turns[..2] == turns;
    assert LastTry(cfg, s.transfers.Keys, turns, 1, 0);
    OffsetAfter(cfg, s, turns, 2);
    assert !Writes(cfg, s.transfers.Keys, None, turns, 0) && !Writes(cfg, s.transfers.Keys, None, turns, 1);
  }
}
