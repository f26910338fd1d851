// Where tracking stops short, as runs of one row: a final head read after the receipt it judges confirms a batch
// the final chain does not hold, and a revert takes a row off its block without an entry in the reorg log.
module TrackingLimits {
  import opened Wrappers
  import opened Chain
  import opened AnchorState
  import opened Tracking
  import Runs

  function ConfigWith(usesFinality: bool, heads: HeadOrder): Config {
    Config(3, if usesFinality then 1 else 5, usesFinality, heads, 1000)
  }

  const GENESIS := Chain([], 0)
  const TX := Tx(7, 0, 50, 1, 0)
  const BATCH := Submission(3, 0, 9)
  const STORED := Mined(TX, true, 50, 0, [BATCH])
  const REVERTED := Mined(TX, false, 50, 0, [])

  function OneBlock(hash: nat, mined: Mined): Chain { Chain([Block(hash, [mined])], 0) }

  lemma OneBlockIsValid(hash: nat, mined: Mined)
    requires mined == STORED || mined == REVERTED
    ensures ValidChain(OneBlock(hash, mined)) && Flat(OneBlock(hash, mined).blocks) == [mined]
    ensures FindReceipt(OneBlock(hash, mined).blocks, TX) == Some(Receipt(0, hash, mined))
  {
    var blocks := OneBlock(hash, mined).blocks;
    assert blocks[..0] == [] && [mined][..0] == [];
    assert blocks[0].txs[0].tx == TX;
  }

  ghost predicate Closed(cfg: Config, reach: iset<State>) { Runs.Closed(StepOf(cfg), reach) }

  ghost function Reached(cfg: Config): iset<State> { Runs.Reached(StepOf(cfg), Init(GENESIS)) }

  lemma Steps(cfg: Config, reach: iset<State>, s: State, e: Event, t: State)
    requires Closed(cfg, reach) && s in reach && Next(cfg, s, e) == t
    ensures t in reach
  {
    assert StepOf(cfg)(s, e) == t;
  }

  lemma ReachedIsClosed(cfg: Config)
    ensures Closed(cfg, Reached(cfg)) && Init(GENESIS) in Reached(cfg)
  {
    Runs.ReachedIsClosed(StepOf(cfg), Init(GENESIS));
  }

  lemma RunTo(cfg: Config, t: State) returns (events: seq<Event>)
    requires t in Reached(cfg)
    ensures Run(cfg, Init(GENESIS), events) == t
  {
    assert Runs.Reachable(StepOf(cfg), Init(GENESIS), t);
    events :| Runs.Run(StepOf(cfg), Init(GENESIS), events) == t;
  }

  // The state of one row, nothing logged, nobody but its tracker at work.
  function One(chain: Chain, row: Row, tracking: map<RowId, TrackPhase>): State {
    State(chain, Tables(map[0 := row], map[], []), tracking)
  }

  const SENT := Row(Submitted, Some(BATCH), Some(TX), Some(3), None, None, None)

  lemma Arrives(cfg: Config, reach: iset<State>)
    requires Closed(cfg, reach) && Init(GENESIS) in reach && cfg.contract == 3
    ensures One(GENESIS, SENT, map[]) in reach
  {
    var created := Row(Created, Some(BATCH), None, None, None, None, None);
    Steps(cfg, reach, Init(GENESIS), RowArrives(0, Some(BATCH)), One(GENESIS, created, map[]));
    assert map[0 := created][0 := SENT] == map[0 := SENT];
    Steps(cfg, reach, One(GENESIS, created, map[]), Sent(0, TX), One(GENESIS, SENT, map[]));
  }

  lemma NewChain(cfg: Config, reach: iset<State>, chain: Chain, later: Chain, row: Row,
                 tracking: map<RowId, TrackPhase>)
    requires Closed(cfg, reach) && One(chain, row, tracking) in reach
    requires ValidChain(later) && Extends(chain, later)
    ensures One(later, row, tracking) in reach
  {
    Steps(cfg, reach, One(chain, row, tracking), ChainTo(later), One(later, row, tracking));
  }

  lemma Claims(cfg: Config, reach: iset<State>, chain: Chain, row: Row)
    requires Closed(cfg, reach) && One(chain, row, map[]) in reach && Traced(row.state) && row.tx.Some?
    ensures One(chain, row, map[0 := Reading]) in reach
  {
    Steps(cfg, reach, One(chain, row, map[]), Claim(0), One(chain, row, map[0 := Reading]));
  }

  // One reading of the row's receipt.
  function SeenPhase(cfg: Config, receipt: Receipt): TrackPhase {
    if cfg.usesFinality then Observed(SeenReceipt(receipt), 0) else Judging(SeenReceipt(receipt), 0, None, false)
  }

  lemma Observes(cfg: Config, reach: iset<State>, chain: Chain, receipt: Receipt, row: Row)
    requires Closed(cfg, reach) && cfg.heads.ReceiptFirst? && row.tx == Some(TX)
    requires SeenOn(chain, TX, false) == SeenReceipt(receipt)
    requires One(chain, row, map[0 := Reading]) in reach
    ensures One(chain, row, map[0 := SeenPhase(cfg, receipt)]) in reach
  {
    var p := SeenPhase(cfg, receipt);
    assert map[0 := Reading][0 := p] == map[0 := p];
    Steps(cfg, reach, One(chain, row, map[0 := Reading]), Observe(0, false, 0), One(chain, row, map[0 := p]));
  }

  // Claimed and read: the row, its block, its receipt.
  lemma ClaimsAndObserves(cfg: Config, reach: iset<State>, hash: nat, mined: Mined, row: Row)
    requires Closed(cfg, reach) && cfg.heads.ReceiptFirst? && (mined == STORED || mined == REVERTED)
    requires One(OneBlock(hash, mined), row, map[]) in reach && row.tx == Some(TX) && Traced(row.state)
    ensures One(OneBlock(hash, mined), row, map[0 := SeenPhase(cfg, Receipt(0, hash, mined))]) in reach
  {
    Claims(cfg, reach, OneBlock(hash, mined), row);
    OneBlockIsValid(hash, mined);
    Observes(cfg, reach, OneBlock(hash, mined), Receipt(0, hash, mined), row);
  }

  // The row is sent, mined in one block, and its receipt read.
  lemma SentAndObserved(cfg: Config, reach: iset<State>)
    requires Closed(cfg, reach) && Init(GENESIS) in reach && cfg.contract == 3 && cfg.heads.ReceiptFirst?
    ensures One(OneBlock(1, STORED), SENT, map[0 := SeenPhase(cfg, Receipt(0, 1, STORED))]) in reach
  {
    Arrives(cfg, reach);
    OneBlockIsValid(1, STORED);
    NewChain(cfg, reach, GENESIS, OneBlock(1, STORED), SENT, map[]);
    ClaimsAndObserves(cfg, reach, 1, STORED, SENT);
  }

  lemma CarriesRoot(cfg: Config, row: Row)
    requires row.batch == Some(BATCH) && row.contract == Some(3)
    ensures StoredRoot(STORED, TrackedContract(cfg, row), BATCH)
  {
    assert STORED.submissions[0] == BATCH;
  }

  // ---- a final head read after the receipt ----

  const EMPTY_FINAL := Chain([Block(3, [])], 1)
  const CONFIRMED := Row(Confirmed, Some(BATCH), Some(TX), Some(3), Some(0), Some(1),
                         Some(Judged(Receipt(0, 1, STORED), 0, Some(0), true)))

  lemma EmptyFinalFacts()
    ensures ValidChain(EMPTY_FINAL) && Extends(OneBlock(1, STORED), EMPTY_FINAL) && Flat(EMPTY_FINAL.blocks) == []
    ensures NotFinal(EMPTY_FINAL, Receipt(0, 1, STORED)) && Extends(EMPTY_FINAL, EMPTY_FINAL)
  {
    assert EMPTY_FINAL.blocks[..0] == [] && EMPTY_FINAL.blocks[..1] == EMPTY_FINAL.blocks;
    assert OneBlock(1, STORED).blocks[..0] == [];
  }

  lemma AcceptsReceipt(cfg: Config, reach: iset<State>)
    requires Closed(cfg, reach) && cfg == ConfigWith(true, ReceiptFirst)
    requires One(EMPTY_FINAL, SENT, map[0 := SeenPhase(cfg, Receipt(0, 1, STORED))]) in reach
    ensures One(EMPTY_FINAL, SENT, map[0 := Judging(SeenReceipt(Receipt(0, 1, STORED)), 0, Some(0), true)]) in reach
  {
    var was := SeenPhase(cfg, Receipt(0, 1, STORED));
    var p := Judging(SeenReceipt(Receipt(0, 1, STORED)), 0, Some(0), true);
    CarriesRoot(cfg, SENT);
    EmptyFinalFacts();
    assert map[0 := was][0 := p] == map[0 := p];
    Steps(cfg, reach, One(EMPTY_FINAL, SENT, map[0 := was]), ReadFinality(0, 0), One(EMPTY_FINAL, SENT, map[0 := p]));
  }

  lemma Confirms(cfg: Config, reach: iset<State>)
    requires Closed(cfg, reach) && cfg == ConfigWith(true, ReceiptFirst)
    requires One(EMPTY_FINAL, SENT, map[0 := Judging(SeenReceipt(Receipt(0, 1, STORED)), 0, Some(0), true)]) in reach
    ensures One(EMPTY_FINAL, CONFIRMED, map[]) in reach
  {
    var p := Judging(SeenReceipt(Receipt(0, 1, STORED)), 0, Some(0), true);
    CarriesRoot(cfg, SENT);
    assert map[0 := p] - {0} == map[];
    assert map[0 := SENT][0 := CONFIRMED] == map[0 := CONFIRMED];
    Steps(cfg, reach, One(EMPTY_FINAL, SENT, map[0 := p]), Commit(0, 0), One(EMPTY_FINAL, CONFIRMED, map[]));
  }

  // The batch is confirmed by a receipt whose block a final one has replaced.
  lemma ConfirmsDisplaced() returns (events: seq<Event>)
    ensures Run(ConfigWith(true, ReceiptFirst), Init(GENESIS), events) == One(EMPTY_FINAL, CONFIRMED, map[])
  {
    var cfg := ConfigWith(true, ReceiptFirst);
    var reach := Reached(cfg);
    ReachedIsClosed(cfg);
    SentAndObserved(cfg, reach);
    EmptyFinalFacts();
    NewChain(cfg, reach, OneBlock(1, STORED), EMPTY_FINAL, SENT, map[0 := SeenPhase(cfg, Receipt(0, 1, STORED))]);
    AcceptsReceipt(cfg, reach);
    Confirms(cfg, reach);
    events := RunTo(cfg, One(EMPTY_FINAL, CONFIRMED, map[]));
  }

  lemma DoesNotStay(cfg: Config)
    ensures !ConfirmedStays(cfg, One(EMPTY_FINAL, CONFIRMED, map[]))
  {
    EmptyFinalFacts();
    assert !IsMined(EMPTY_FINAL, TX);
    assert 0 in One(EMPTY_FINAL, CONFIRMED, map[]).tables.rows;
  }

  // With a finality tag, confirmed batches are stored for good in all runs exactly if the final head is read before
  // the receipt it judges.
  lemma ConfirmsForGoodExactly(heads: HeadOrder)
    ensures (forall cfg: Config, chain, events :: cfg.usesFinality && cfg.heads == heads && ValidChain(chain)
               ==> ConfirmedStays(cfg, Run(cfg, Init(chain), events)))
      <==> heads.FinalHeadFirst?
  {
    if heads.FinalHeadFirst? {
      forall cfg: Config, chain, events | cfg.usesFinality && cfg.heads == heads && ValidChain(chain)
        ensures ConfirmedStays(cfg, Run(cfg, Init(chain), events))
      {
        HeadFirstConfirmsForGood(cfg, chain, events);
      }
    } else {
      var cfg := ConfigWith(true, ReceiptFirst);
      var events := ConfirmsDisplaced();
      DoesNotStay(cfg);
      assert ValidChain(GENESIS);
      assert !ConfirmedStays(cfg, Run(cfg, Init(GENESIS), events));
    }
  }

  // ---- a revert ----

  const INCLUDED := Row(Included, Some(BATCH), Some(TX), Some(3), Some(0), Some(1), None)

  lemma Includes(cfg: Config, reach: iset<State>)
    requires Closed(cfg, reach) && cfg == ConfigWith(false, ReceiptFirst)
    requires One(OneBlock(1, STORED), SENT, map[0 := SeenPhase(cfg, Receipt(0, 1, STORED))]) in reach
    ensures One(OneBlock(1, STORED), INCLUDED, map[]) in reach
  {
    var p := SeenPhase(cfg, Receipt(0, 1, STORED));
    CarriesRoot(cfg, SENT);
    assert map[0 := p] - {0} == map[];
    assert map[0 := SENT][0 := INCLUDED] == map[0 := INCLUDED];
    Steps(cfg, reach, One(OneBlock(1, STORED), SENT, map[0 := p]), Commit(0, 0),
      One(OneBlock(1, STORED), INCLUDED, map[]));
  }

  // A row is included in a block; a reorg executes its transaction again in another block, where it reverts. The
  // step that takes the row off its block writes trackTransaction's result, and the log stays empty.
  lemma RevertLosesTheBlock() returns (events: seq<Event>, last: Event)
    ensures
      var cfg := ConfigWith(false, ReceiptFirst);
      var s := Run(cfg, Init(GENESIS), events);
      var t := Next(cfg, s, last);
      last.Commit? && TakenOff(s, t, last.row) && SeesRevert(s, last.row) && t.tables.reorgEvents == []
  {
    var cfg := ConfigWith(false, ReceiptFirst);
    var reach := Reached(cfg);
    ReachedIsClosed(cfg);
    SentAndObserved(cfg, reach);
    Includes(cfg, reach);
    OneBlockIsValid(2, REVERTED);
    assert OneBlock(1, STORED).blocks[..0] == OneBlock(2, REVERTED).blocks[..0];
    NewChain(cfg, reach, OneBlock(1, STORED), OneBlock(2, REVERTED), INCLUDED, map[]);
    ClaimsAndObserves(cfg, reach, 2, REVERTED, INCLUDED);
    var s := One(OneBlock(2, REVERTED), INCLUDED, map[0 := SeenPhase(cfg, Receipt(0, 2, REVERTED))]);
    events := RunTo(cfg, s);
    last := Commit(0, 0);
    RevertTakesOff(cfg, s);
  }

  lemma RevertTakesOff(cfg: Config, s: State)
    requires cfg == ConfigWith(false, ReceiptFirst)
    requires s == One(OneBlock(2, REVERTED), INCLUDED, map[0 := SeenPhase(cfg, Receipt(0, 2, REVERTED))])
    ensures var t := Next(cfg, s, Commit(0, 0)); TakenOff(s, t, 0) && SeesRevert(s, 0) && t.tables.reorgEvents == []
  {
  }
}
