// Where the guarantees of the anchor workers stop, and exactly where. Each limit is a concrete run, built one
// event at a time, and beside it the condition under which no run has it: for the daily cap, how its two totals
// are read and how many workers share a chain; for the gas rows the worker records, how many workers share a chain;
// for chain moves, whether the final head is read before the receipt it judges.
//
// A run is followed through a set `reach` of states that no event leaves. Nothing else is known of the set, so what a
// run shows to be in it is in the set of the reachable states.
module AnchorLimits {
  import opened Wrappers
  import opened Chain
  import opened AnchorState
  import opened Ledger
  import Runs
  import opened AnchorRuns
  import opened AnchorSafety
  import opened SpendCap

  // Gas limit 50 at 1 wei, and a cap that fits two sends.
  const GUARD := GuardConfig(LOCAL_CHAIN_ID, [LOCAL_CHAIN_ID], false, 1, 9, 100, 50)

  function TwoSendConfig(workers: nat, order: ReadOrder, heads: HeadOrder): Config {
    Config(GUARD, 7, 3, workers, order, heads)
  }

  predicate Small(cfg: Config) { cfg == TwoSendConfig(cfg.workers, cfg.order, cfg.heads) }

  const GENESIS := Chain([], 0)

  // ---- reachable states ----

  ghost predicate Closed(cfg: Config, reach: iset<State>) { Runs.Closed(StepOf(cfg), reach) }

  ghost function Reached(cfg: Config): iset<State> { Runs.Reached(StepOf(cfg), Init(GENESIS, cfg)) }

  lemma Steps(cfg: Config, reach: iset<State>, s: State, e: Event, t: State)
    requires Closed(cfg, reach) && s in reach && Next(cfg, s, e) == t
    ensures t in reach
  {
    assert StepOf(cfg)(s, e) == t;
  }

  lemma RunTo(cfg: Config, t: State) returns (events: seq<Event>)
    requires t in Reached(cfg)
    ensures Run(cfg, Init(GENESIS, cfg), events) == t
  {
    assert Runs.Reachable(StepOf(cfg), Init(GENESIS, cfg), t);
    events :| Runs.Run(StepOf(cfg), Init(GENESIS, cfg), events) == t;
  }

  lemma ReachedIsClosed(cfg: Config)
    ensures Closed(cfg, Reached(cfg)) && Init(GENESIS, cfg) in Reached(cfg)
  {
    Runs.ReachedIsClosed(StepOf(cfg), Init(GENESIS, cfg));
  }

  lemma GotoTwice(s: State, w: nat, p: Phase, q: Phase)
    requires w < |s.workers|
    ensures Goto(Goto(s, w, p), w, q) == Goto(s, w, q)
  {
    assert s.workers[w := p][w := q] == s.workers[w := q];
  }

  lemma GotoSame(s: State, w: nat)
    requires w < |s.workers|
    ensures Goto(s, w, s.workers[w]) == s
  {
    assert s.workers[w := s.workers[w]] == s.workers;
  }

  // ---- a send, one event at a time ----

  const FRESH := Row(Waiting, 0, 0, None, None, false, false, {})

  function SendFor(row: RowId, nonce: nat): Send {
    Send(Tx(7, nonce, 50, 1, row), row, 0, None)
  }

  function WithRow(s: State, row: RowId): State { s.(rows := s.rows[row := FRESH]) }

  // Nobody holds a row or the lock.
  ghost predicate Quiet(s: State) {
    forall i :: 0 <= i < |s.workers| ==> s.workers[i].Idle? || s.workers[i].Settling?
  }

  lemma Arrives(cfg: Config, reach: iset<State>, s: State, row: RowId)
    requires Closed(cfg, reach) && s in reach && row !in s.rows
    ensures WithRow(s, row) in reach
  {
    Steps(cfg, reach, s, Environment(RowArrives(row)), WithRow(s, row));
  }

  lemma Claims(cfg: Config, reach: iset<State>, s: State, w: nat, row: RowId)
    requires Closed(cfg, reach) && s in reach && Quiet(s) && w < |s.workers| && s.workers[w].Idle?
    requires row in s.rows && s.rows[row] == FRESH
    ensures Goto(s, w, Submitting(row, Claimed)) in reach
  {
    assert !RowHeld(s, row);
    Steps(cfg, reach, s, Submit(w, Claim(row)), Goto(s, w, Submitting(row, Claimed)));
  }

  lemma TakesLock(cfg: Config, reach: iset<State>, s: State, w: nat, row: RowId)
    requires Closed(cfg, reach) && Quiet(s) && w < |s.workers|
    requires Goto(s, w, Submitting(row, Claimed)) in reach
    ensures Goto(s, w, Submitting(row, Locked)) in reach
  {
    var a := Goto(s, w, Submitting(row, Claimed));
    assert !LockHeld(a);
    GotoTwice(s, w, a.workers[w], Submitting(row, Locked));
    Steps(cfg, reach, a, Submit(w, TakeLock), Goto(s, w, Submitting(row, Locked)));
  }

  lemma Locks(cfg: Config, reach: iset<State>, s: State, w: nat, row: RowId)
    requires Closed(cfg, reach) && s in reach && Quiet(s) && w < |s.workers| && s.workers[w].Idle? && row !in s.rows
    ensures Goto(WithRow(s, row), w, Submitting(row, Locked)) in reach
  {
    Arrives(cfg, reach, s, row);
    Claims(cfg, reach, WithRow(s, row), w, row);
    TakesLock(cfg, reach, WithRow(s, row), w, row);
  }

  lemma ReadsSpent(cfg: Config, reach: iset<State>, s: State, w: nat, row: RowId)
    requires Closed(cfg, reach) && w < |s.workers| && cfg.order.SpentThenInFlight?
    requires Goto(s, w, Submitting(row, Locked)) in reach
    ensures Goto(s, w, Submitting(row, HalfSpent(SpentSince(s.world.gas, 0)))) in reach
  {
    var a := Goto(s, w, Submitting(row, Locked));
    var q := Submitting(row, HalfSpent(SpentSince(s.world.gas, 0)));
    GotoTwice(s, w, a.workers[w], q);
    Steps(cfg, reach, a, Submit(w, ReadSpent(0)), Goto(s, w, q));
  }

  lemma ReadsInFlight(cfg: Config, reach: iset<State>, s: State, w: nat, row: RowId, spent: nat)
    requires Closed(cfg, reach) && w < |s.workers|
    requires Goto(s, w, Submitting(row, HalfSpent(spent))) in reach
    ensures Goto(s, w, Submitting(row, Totals(spent, InFlight(s.world.sends, s.world.gas)))) in reach
  {
    var a := Goto(s, w, Submitting(row, HalfSpent(spent)));
    var q := Submitting(row, Totals(spent, InFlight(s.world.sends, s.world.gas)));
    GotoTwice(s, w, a.workers[w], q);
    Steps(cfg, reach, a, Submit(w, ReadInFlight), Goto(s, w, q));
  }

  lemma ReadsSnapshot(cfg: Config, reach: iset<State>, s: State, w: nat, row: RowId)
    requires Closed(cfg, reach) && w < |s.workers| && cfg.order.OneSnapshot?
    requires Goto(s, w, Submitting(row, Locked)) in reach
    ensures Goto(s, w, Submitting(row,
      Totals(SpentSince(s.world.gas, 0), InFlight(s.world.sends, s.world.gas)))) in reach
  {
    var a := Goto(s, w, Submitting(row, Locked));
    var q := Submitting(row, Totals(SpentSince(s.world.gas, 0), InFlight(s.world.sends, s.world.gas)));
    GotoTwice(s, w, a.workers[w], q);
    Steps(cfg, reach, a, Submit(w, ReadBoth(0)), Goto(s, w, q));
  }

  lemma ReadsInFlightFirst(cfg: Config, reach: iset<State>, s: State, w: nat, row: RowId)
    requires Closed(cfg, reach) && w < |s.workers| && cfg.order.InFlightThenSpent?
    requires Goto(s, w, Submitting(row, Locked)) in reach
    ensures Goto(s, w, Submitting(row, HalfInFlight(InFlight(s.world.sends, s.world.gas)))) in reach
  {
    var a := Goto(s, w, Submitting(row, Locked));
    var q := Submitting(row, HalfInFlight(InFlight(s.world.sends, s.world.gas)));
    GotoTwice(s, w, a.workers[w], q);
    Steps(cfg, reach, a, Submit(w, ReadInFlight), Goto(s, w, q));
  }

  lemma ReadsSpentSecond(cfg: Config, reach: iset<State>, s: State, w: nat, row: RowId, inFlight: nat)
    requires Closed(cfg, reach) && w < |s.workers|
    requires Goto(s, w, Submitting(row, HalfInFlight(inFlight))) in reach
    ensures Goto(s, w, Submitting(row, Totals(SpentSince(s.world.gas, 0), inFlight))) in reach
  {
    var a := Goto(s, w, Submitting(row, HalfInFlight(inFlight)));
    var q := Submitting(row, Totals(SpentSince(s.world.gas, 0), inFlight));
    GotoTwice(s, w, a.workers[w], q);
    Steps(cfg, reach, a, Submit(w, ReadSpent(0)), Goto(s, w, q));
  }

  // Both totals with nothing in between, in whichever order they are read.
  lemma ReadsTotals(cfg: Config, reach: iset<State>, s: State, w: nat, row: RowId)
    requires Closed(cfg, reach) && w < |s.workers|
    requires Goto(s, w, Submitting(row, Locked)) in reach
    ensures Goto(s, w, Submitting(row,
      Totals(SpentSince(s.world.gas, 0), InFlight(s.world.sends, s.world.gas)))) in reach
  {
    match cfg.order
    case OneSnapshot => ReadsSnapshot(cfg, reach, s, w, row);
    case SpentThenInFlight =>
      ReadsSpent(cfg, reach, s, w, row);
      ReadsInFlight(cfg, reach, s, w, row, SpentSince(s.world.gas, 0));
    case InFlightThenSpent =>
      ReadsInFlightFirst(cfg, reach, s, w, row);
      ReadsSpentSecond(cfg, reach, s, w, row, InFlight(s.world.sends, s.world.gas));
  }

  lemma Quotes(cfg: Config, reach: iset<State>, s: State, w: nat, row: RowId, spent: nat, inFlight: nat)
    requires Closed(cfg, reach) && w < |s.workers| && Small(cfg)
    requires row in s.rows && s.rows[row] == FRESH && spent + inFlight + 50 <= 100
    requires Goto(s, w, Submitting(row, Totals(spent, inFlight))) in reach
    ensures Goto(s, w, Submitting(row, Priced(spent, inFlight, 1, 0))) in reach
  {
    var a := Goto(s, w, Submitting(row, Totals(spent, inFlight)));
    var q := Submitting(row, Priced(spent, inFlight, 1, 0));
    assert CheckSubmitAllowed(GUARD, GuardInput(1, 0, spent, inFlight, 0, 0), PreflightCheck) == AllowEoa;
    assert InputOf(a, row, spent, inFlight, 1, 0, 0) == GuardInput(1, 0, spent, inFlight, 0, 0);
    GotoTwice(s, w, a.workers[w], q);
    Steps(cfg, reach, a, Submit(w, Quote(1, 0)), Goto(s, w, q));
  }

  lemma FindsAbsent(cfg: Config, reach: iset<State>, s: State, w: nat, row: RowId, spent: nat, inFlight: nat)
    requires Closed(cfg, reach) && w < |s.workers| && !StoresBatch(s.world.chain, cfg.contract, row)
    requires Goto(s, w, Submitting(row, Priced(spent, inFlight, 1, 0))) in reach
    ensures Goto(s, w, Submitting(row, Reconciled(spent, inFlight, 1, 0))) in reach
  {
    var a := Goto(s, w, Submitting(row, Priced(spent, inFlight, 1, 0)));
    var q := Submitting(row, Reconciled(spent, inFlight, 1, 0));
    GotoTwice(s, w, a.workers[w], q);
    Steps(cfg, reach, a, Submit(w, NotOnChain), Goto(s, w, q));
  }

  lemma Signs(cfg: Config, reach: iset<State>, s: State, w: nat, row: RowId, nonce: nat, spent: nat, inFlight: nat)
    requires Closed(cfg, reach) && w < |s.workers| && Small(cfg)
    requires row in s.rows && s.rows[row] == FRESH && spent + inFlight + 50 <= 100
    requires Goto(s, w, Submitting(row, Reconciled(spent, inFlight, 1, 0))) in reach
    ensures Goto(s, w, Submitting(row, Admitted(SendFor(row, nonce)))) in reach
  {
    var a := Goto(s, w, Submitting(row, Reconciled(spent, inFlight, 1, 0)));
    var q := Submitting(row, Admitted(SendFor(row, nonce)));
    assert CheckSubmitAllowed(GUARD, GuardInput(1, 0, spent, inFlight, 0, 0), BroadcastCheck) == AllowEoa;
    assert InputOf(a, row, spent, inFlight, 1, 0, 0) == GuardInput(1, 0, spent, inFlight, 0, 0);
    GotoTwice(s, w, a.workers[w], q);
    Steps(cfg, reach, a, Submit(w, Sign(nonce, row)), Goto(s, w, q));
  }

  lemma Reserves(cfg: Config, reach: iset<State>, s: State, w: nat, row: RowId, send: Send)
    requires Closed(cfg, reach) && w < |s.workers|
    requires Goto(s, w, Submitting(row, Admitted(send))) in reach
    ensures Goto(s.(world := RecordSend(s.world, send)), w, Submitting(row, Reserved(send))) in reach
  {
    var a := Goto(s, w, Submitting(row, Admitted(send)));
    var t := s.(world := RecordSend(s.world, send));
    GotoTwice(t, w, a.workers[w], Submitting(row, Reserved(send)));
    Steps(cfg, reach, a, Submit(w, Reserve), Goto(t, w, Submitting(row, Reserved(send))));
  }

  // From both totals to the ledger row.
  lemma Admits(cfg: Config, reach: iset<State>, s: State, w: nat, row: RowId, nonce: nat, spent: nat, inFlight: nat)
    requires Closed(cfg, reach) && w < |s.workers| && Small(cfg) && !StoresBatch(s.world.chain, cfg.contract, row)
    requires row in s.rows && s.rows[row] == FRESH && spent + inFlight + 50 <= 100
    requires Goto(s, w, Submitting(row, Totals(spent, inFlight))) in reach
    ensures Goto(s.(world := RecordSend(s.world, SendFor(row, nonce))), w,
      Submitting(row, Reserved(SendFor(row, nonce)))) in reach
  {
    Quotes(cfg, reach, s, w, row, spent, inFlight);
    FindsAbsent(cfg, reach, s, w, row, spent, inFlight);
    Signs(cfg, reach, s, w, row, nonce, spent, inFlight);
    Reserves(cfg, reach, s, w, row, SendFor(row, nonce));
  }

  // A chain on which nothing was submitted holds no batch.
  lemma StoresNothing(c: Chain, contract: Contract, batch: BatchId)
    requires forall m <- Flat(c.blocks) :: m.submissions == []
    ensures !StoresBatch(c, contract, batch)
  {
  }

  // The row of a send, at a later version.
  function SentRow(tx: Tx, status: RowStatus, version: nat, moveRequested: bool): Row {
    Row(status, version, 1, Some(tx), Some(3), moveRequested, false, {})
  }

  lemma Broadcasts(cfg: Config, reach: iset<State>, s: State, w: nat, row: RowId, send: Send)
    requires Closed(cfg, reach) && w < |s.workers|
    requires Goto(s, w, Submitting(row, Reserved(send))) in reach
    ensures Goto(s.(world := GiveToNetwork(s.world, send.tx)), w, Submitting(row, Answered(send, true))) in reach
  {
    var a := Goto(s, w, Submitting(row, Reserved(send)));
    var t := s.(world := GiveToNetwork(s.world, send.tx));
    GotoTwice(t, w, a.workers[w], Submitting(row, Answered(send, true)));
    Steps(cfg, reach, a, Submit(w, Broadcast(true, true)), Goto(t, w, Submitting(row, Answered(send, true))));
  }

  lemma Finishes(cfg: Config, reach: iset<State>, s: State, w: nat, row: RowId, send: Send)
    requires Closed(cfg, reach) && w < |s.workers| && cfg.contract == 3 && row in s.rows && s.rows[row] == FRESH
    requires Goto(s, w, Submitting(row, Answered(send, true))) in reach
    ensures Goto(s.(rows := s.rows[row := SentRow(send.tx, Active, 1, false)]), w, Idle) in reach
  {
    var a := Goto(s, w, Submitting(row, Answered(send, true)));
    var t := s.(rows := s.rows[row := SentRow(send.tx, Active, 1, false)]);
    GotoTwice(t, w, a.workers[w], Idle);
    Steps(cfg, reach, a, Submit(w, Finish), Goto(t, w, Idle));
  }

  // The state after a whole send.
  function AfterSend(s: State, row: RowId, send: Send): State {
    s.(world := World(s.world.chain, s.world.sends + [send], s.world.gas, s.world.broadcast + {send.tx}),
       rows := s.rows[row := SentRow(send.tx, Active, 1, false)])
  }

  lemma NetworkAndRow(cfg: Config, reach: iset<State>, s: State, row: RowId, send: Send)
    requires Closed(cfg, reach) && |s.workers| > 0 && s.workers[0].Idle? && cfg.contract == 3
    requires !InLedger(s.world.sends, send.tx)
    requires Goto(WithRow(s, row).(world := RecordSend(s.world, send)), 0, Submitting(row, Reserved(send))) in reach
    ensures AfterSend(s, row, send) in reach
  {
    var a := WithRow(s, row).(world := RecordSend(s.world, send));
    Broadcasts(cfg, reach, a, 0, row, send);
    var b := a.(world := GiveToNetwork(a.world, send.tx));
    Finishes(cfg, reach, b, 0, row, send);
    var c := b.(rows := b.rows[row := SentRow(send.tx, Active, 1, false)]);
    GotoSame(c, 0);
    assert c.rows == s.rows[row := SentRow(send.tx, Active, 1, false)];
    assert c == AfterSend(s, row, send);
  }

  // Worker 0 sends for a new row: the totals, the ledger row, the broadcast.
  lemma Sends(cfg: Config, reach: iset<State>, s: State, row: RowId, nonce: nat)
    requires Closed(cfg, reach) && s in reach && Small(cfg) && Quiet(s) && |s.workers| > 0 && s.workers[0].Idle?
    requires row !in s.rows
    requires SpentSince(s.world.gas, 0) + InFlight(s.world.sends, s.world.gas) + 50 <= 100
    requires !InLedger(s.world.sends, SendFor(row, nonce).tx) && !StoresBatch(s.world.chain, cfg.contract, row)
    ensures AfterSend(s, row, SendFor(row, nonce)) in reach
  {
    Locks(cfg, reach, s, 0, row);
    var a := WithRow(s, row);
    ReadsTotals(cfg, reach, a, 0, row);
    Admits(cfg, reach, a, 0, row, nonce, SpentSince(s.world.gas, 0), InFlight(s.world.sends, s.world.gas));
    NetworkAndRow(cfg, reach, s, row, SendFor(row, nonce));
  }

  // ---- sums of a few sends ----

  lemma InFlightOne(s: Send, gas: seq<GasSpend>)
    ensures InFlight([s], gas) == OpenReserve(s, gas)
  {
    assert [s][..0] == [];
  }

  lemma InFlightTwo(s: Send, t: Send, gas: seq<GasSpend>)
    ensures InFlight([s, t], gas) == OpenReserve(s, gas) + OpenReserve(t, gas)
  {
    assert [s, t][..1] == [s];
    InFlightOne(s, gas);
  }

  lemma InFlightThree(s: Send, t: Send, u: Send, gas: seq<GasSpend>)
    ensures InFlight([s, t, u], gas) == OpenReserve(s, gas) + OpenReserve(t, gas) + OpenReserve(u, gas)
  {
    assert [s, t, u][..2] == [s, t];
    InFlightTwo(s, t, gas);
  }

  // ---- two sends, the first of them mined, and another worker that has read its receipt ----

  // Sends for rows 0 and 1, the second on the given nonce.
  function Pair(cfg: Config, nonce: nat): State {
    AfterSend(AfterSend(Init(GENESIS, cfg), 0, SendFor(0, 0)), 1, SendFor(1, nonce))
  }

  lemma PairReached(cfg: Config, reach: iset<State>, nonce: nat)
    requires Closed(cfg, reach) && Init(GENESIS, cfg) in reach && Small(cfg) && cfg.workers >= 1
    ensures Pair(cfg, nonce) in reach
    ensures Pair(cfg, nonce).world
      == World(GENESIS, [SendFor(0, 0), SendFor(1, nonce)], [], {SendFor(0, 0).tx, SendFor(1, nonce).tx})
  {
    var a := Init(GENESIS, cfg);
    StoresNothing(GENESIS, 3, 0);
    StoresNothing(GENESIS, 3, 1);
    Sends(cfg, reach, a, 0, 0);
    var b := AfterSend(a, 0, SendFor(0, 0));
    assert b.world.sends == [SendFor(0, 0)];
    InFlightOne(SendFor(0, 0), []);
    Sends(cfg, reach, b, 1, nonce);
    assert Pair(cfg, nonce).world.sends == [SendFor(0, 0), SendFor(1, nonce)];
    assert Pair(cfg, nonce).world.broadcast == {SendFor(0, 0).tx, SendFor(1, nonce).tx};
  }

  function OnChain(s: State, chain: Chain): State { s.(world := s.world.(chain := chain)) }

  // One block holding one transaction of the wallet.
  lemma OneBlock(cfg: Config, reach: iset<State>, s: State, hash: nat, send: Send, mined: Mined, finalCount: nat)
    requires Closed(cfg, reach) && s in reach && cfg.wallet == 7 && s.world.chain.finalCount == 0 && finalCount <= 1
    requires send in s.world.sends && send.tx in s.world.broadcast && Covers(send, mined)
    requires mined.tx.signer == 7 && mined.tx.nonce == 0 && Executed(mined)
    ensures OnChain(s, Chain([Block(hash, [mined])], finalCount)) in reach
    ensures Flat([Block(hash, [mined])]) == [mined]
  {
    var chain := Chain([Block(hash, [mined])], finalCount);
    assert Flat(chain.blocks) == [mined] by { assert chain.blocks[..0] == []; }
    assert [mined][..0] == [];
    assert s.world.chain.blocks[..0] == chain.blocks[..0];
    Steps(cfg, reach, s, Environment(ChainTo(chain)), OnChain(s, chain));
  }

  const FIRST_MINED := Mined(SendFor(0, 0).tx, true, 50, 0, [])
  const FIRST_CHAIN := Chain([Block(1, [FIRST_MINED])], 0)

  lemma FirstChainFacts()
    ensures Flat(FIRST_CHAIN.blocks) == [FIRST_MINED]
  {
    assert FIRST_CHAIN.blocks[..0] == [];
  }

  // Another worker has read the first send's receipt and not stored it yet.
  function Observing1(): Phase {
    Settling(SettlePass(None, map[], [SendFor(0, 0).tx]), Observed(None, Some(Receipt(0, 1, FIRST_MINED))))
  }

  lemma StartsUnfinalPass(cfg: Config, reach: iset<State>, s: State, tx: Tx)
    requires Closed(cfg, reach) && s in reach && |s.workers| >= 2 && s.workers[1].Idle? && OpenSends(s, [tx])
    ensures Goto(s, 1, Settling(SettlePass(None, map[], [tx]), NonceKnown(None))) in reach
  {
    var pass := SettlePass(None, map[], [tx]);
    var a := Goto(s, 1, Settling(pass, Picking));
    Steps(cfg, reach, s, Settle(1, StartPass([tx], None)), a);
    GotoTwice(s, 1, a.workers[1], Settling(pass, NonceKnown(None)));
    Steps(cfg, reach, a, Settle(1, ReadNonce(true)), Goto(s, 1, Settling(pass, NonceKnown(None))));
  }

  lemma Observes(cfg: Config, reach: iset<State>, s: State)
    requires Closed(cfg, reach) && s in reach && |s.workers| >= 2 && s.workers[1].Idle? && s.world.chain == FIRST_CHAIN
    requires |s.world.sends| > 0 && s.world.sends[0] == SendFor(0, 0)
    ensures Goto(s, 1, Observing1()) in reach
  {
    var tx := SendFor(0, 0).tx;
    assert OpenSends(s, [tx]);
    StartsUnfinalPass(cfg, reach, s, tx);
    var a := Goto(s, 1, Settling(SettlePass(None, map[], [tx]), NonceKnown(None)));
    GotoTwice(s, 1, a.workers[1], Observing1());
    FirstIsFound();
    Steps(cfg, reach, a, Settle(1, LookUp(true)), Goto(s, 1, Observing1()));
  }

  lemma FirstIsFound()
    ensures FindReceipt(FIRST_CHAIN.blocks, SendFor(0, 0).tx) == Some(Receipt(0, 1, FIRST_MINED))
  {
    assert FIRST_CHAIN.blocks[0].txs[0].tx == SendFor(0, 0).tx;
  }

  function Observed1(cfg: Config, nonce: nat): State
    requires cfg.workers >= 2
  {
    Goto(OnChain(Pair(cfg, nonce), FIRST_CHAIN), 1, Observing1())
  }

  lemma Observed1Reached(cfg: Config, reach: iset<State>, nonce: nat)
    requires Closed(cfg, reach) && Init(GENESIS, cfg) in reach && Small(cfg) && cfg.workers >= 2
    ensures Observed1(cfg, nonce) in reach
  {
    PairReached(cfg, reach, nonce);
    var s := Pair(cfg, nonce);
    assert SendFor(0, 0) in s.world.sends;
    OneBlock(cfg, reach, s, 1, SendFor(0, 0), FIRST_MINED, 0);
    Observes(cfg, reach, OnChain(s, FIRST_CHAIN));
  }

  // The other worker stores the receipt it has read.
  lemma StoresReceipt(cfg: Config, reach: iset<State>, s: State)
    requires Closed(cfg, reach) && |s.workers| >= 2 && Goto(s, 1, Observing1()) in reach
    ensures Goto(s.(world := SettleByReceipt(s.world,
      GasSpend(SendFor(0, 0).tx, RowOfSend(s.world.sends, SendFor(0, 0).tx), 50, 0))),
                 1, Idle) in reach
  {
    var t := s.(world := SettleByReceipt(s.world,
      GasSpend(SendFor(0, 0).tx, RowOfSend(s.world.sends, SendFor(0, 0).tx), 50, 0)));
    GotoTwice(t, 1, Observing1(), Idle);
    Steps(cfg, reach, Goto(s, 1, Observing1()), Settle(1, Record(0)), Goto(t, 1, Idle));
  }

  // ---- the two totals read one after the other ----

  const PAID := SendFor(0, 0).(settled := Some(ByReceipt))
  const SECOND := SendFor(1, 1)
  const THIRD := SendFor(2, 2)
  const FIRST_GAS := GasSpend(SendFor(0, 0).tx, 0, 50, 0)

  lemma FirstIsPaid(chain: Chain, broadcast: set<Tx>)
    ensures RowOfSend([SendFor(0, 0), SECOND], SendFor(0, 0).tx) == 0
    ensures SettleByReceipt(World(chain, [SendFor(0, 0), SECOND], [], broadcast), FIRST_GAS)
      == World(chain, [PAID, SECOND], [FIRST_GAS], broadcast)
    ensures InFlight([PAID, SECOND], [FIRST_GAS]) == 50
  {
    assert [SendFor(0, 0), SECOND][..1] == [SendFor(0, 0)];
    assert SettleSends([SendFor(0, 0), SECOND], SendFor(0, 0).tx, ByReceipt) == [PAID, SECOND];
    InFlightTwo(PAID, SECOND, [FIRST_GAS]);
    assert FIRST_GAS.tx != SECOND.tx;
  }

  lemma TotalIs150(w: World)
    requires w.sends == [PAID, SECOND, THIRD] && w.gas == [FIRST_GAS]
    ensures Committed(w, 7, 0) == 150
  {
    InFlightThree(PAID, SECOND, THIRD, w.gas);
    assert w.gas[0].tx != SECOND.tx && w.gas[0].tx != THIRD.tx;
    assert w.gas[..0] == [];
    assert !ConsumedInLedger(w.sends, FIRST_GAS.tx);
    assert OwnSpent([], w.sends, 7, 0) == 0;
  }

  // Worker 0 has read the spent total, for row 2, when worker 1 stores the receipt.
  lemma StoresBetweenReads(cfg: Config, reach: iset<State>, s: State)
    requires Closed(cfg, reach) && |s.workers| >= 2 && s.workers[0].Idle? && s.workers[1] == Observing1()
    requires s.world == World(FIRST_CHAIN, [SendFor(0, 0), SECOND], [], s.world.broadcast)
    requires Goto(s, 0, Submitting(2, HalfSpent(0))) in reach
    ensures Goto(Goto(s.(world := World(FIRST_CHAIN, [PAID, SECOND], [FIRST_GAS], s.world.broadcast)), 1, Idle),
                 0, Submitting(2, HalfSpent(0))) in reach
  {
    var p := Submitting(2, HalfSpent(0));
    var a := Goto(s, 0, p);
    var paid := World(FIRST_CHAIN, [PAID, SECOND], [FIRST_GAS], s.world.broadcast);
    GotoSame(a, 1);
    FirstIsPaid(FIRST_CHAIN, s.world.broadcast);
    StoresReceipt(cfg, reach, a);
    assert s.workers[0 := p][1 := Idle] == s.workers[1 := Idle][0 := p];
    assert Goto(a.(world := paid), 1, Idle) == Goto(Goto(s.(world := paid), 1, Idle), 0, p);
  }

  lemma SendsOnHalfReadTotals(cfg: Config, reach: iset<State>) returns (t: State)
    requires Closed(cfg, reach) && Init(GENESIS, cfg) in reach && Small(cfg) && cfg.workers >= 2
    requires cfg.order.SpentThenInFlight?
    ensures t in reach && Committed(t.world, 7, t.day) == 150
  {
    PairReached(cfg, reach, 1);
    Observed1Reached(cfg, reach, 1);
    var s := Observed1(cfg, 1);
    Locks(cfg, reach, s, 0, 2);
    var a := WithRow(s, 2);
    ReadsSpent(cfg, reach, a, 0, 2);
    StoresBetweenReads(cfg, reach, a);
    FirstIsPaid(FIRST_CHAIN, s.world.broadcast);
    var b := Goto(a.(world := World(FIRST_CHAIN, [PAID, SECOND], [FIRST_GAS], s.world.broadcast)), 1, Idle);
    ReadsInFlight(cfg, reach, b, 0, 2, 0);
    FirstChainFacts();
    StoresNothing(FIRST_CHAIN, 3, 2);
    Admits(cfg, reach, b, 0, 2, 2, 0, 50);
    t := Goto(b.(world := RecordSend(b.world, THIRD)), 0, Submitting(2, Reserved(THIRD)));
    assert t.world.sends == [PAID, SECOND, THIRD];
    TotalIs150(t.world);
  }

  // Two workers: one stores a receipt between the other's two reads, which then sees its send in neither total.
  lemma TwoWorkersExceedTheCap(n: nat, heads: HeadOrder) returns (events: seq<Event>)
    requires n >= 2
    ensures
      var cfg := TwoSendConfig(n, SpentThenInFlight, heads);
      var s := Run(cfg, Init(GENESIS, cfg), events);
      Committed(s.world, 7, s.day) == 150
  {
    var cfg := TwoSendConfig(n, SpentThenInFlight, heads);
    ReachedIsClosed(cfg);
    var t := SendsOnHalfReadTotals(cfg, Reached(cfg));
    events := RunTo(cfg, t);
  }

  ghost predicate CapHoldsFor(cfg: Config, chain: Chain, events: seq<Event>) {
    var s := Run(cfg, Init(chain, cfg), events);
    Committed(s.world, cfg.wallet, s.day) <= cfg.guard.dailySpendCapWei
  }

  // The exact condition for each order of the two reads: any number of workers, but for the order of the code at
  // most one per chain.
  lemma CapHoldsExactly(n: nat, order: ReadOrder)
    ensures (forall cfg: Config, chain, events ::
               cfg.workers == n && cfg.order == order && FreshStart(cfg, chain) ==> CapHoldsFor(cfg, chain, events))
      <==> (order.SpentThenInFlight? ==> n <= 1)
  {
    if order.SpentThenInFlight? && n > 1 {
      var cfg := TwoSendConfig(n, order, ReceiptFirst);
      var events := TwoWorkersExceedTheCap(n, ReceiptFirst);
      assert FreshStart(cfg, GENESIS);
      assert !CapHoldsFor(cfg, GENESIS, events);
    } else {
      forall cfg: Config, chain, events | cfg.workers == n && cfg.order == order && FreshStart(cfg, chain)
        ensures CapHoldsFor(cfg, chain, events)
      {
        DailyCapHolds(cfg, chain, events);
      }
    }
  }

  // ---- a receipt stored after its send was settled as nonce_consumed ----

  const RIVAL := SendFor(1, 0)
  const GONE := SendFor(0, 0).(settled := Some(ByNonceConsumed))
  const NEXT := SendFor(2, 1)
  const RIVAL_MINED := Mined(RIVAL.tx, true, 50, 0, [])
  const RIVAL_CHAIN := Chain([Block(2, [RIVAL_MINED])], 1)

  lemma RivalChainFacts()
    ensures Flat(RIVAL_CHAIN.blocks) == [RIVAL_MINED] && Count(Flat(RIVAL_CHAIN.blocks[..1]), 7) == 1
    ensures FindReceipt(RIVAL_CHAIN.blocks, SendFor(0, 0).tx).None?
  {
    assert RIVAL_CHAIN.blocks[..1] == RIVAL_CHAIN.blocks && RIVAL_CHAIN.blocks[..0] == [];
    assert [RIVAL_MINED][..0] == [];
    assert RIVAL_MINED.tx != SendFor(0, 0).tx;
    assert forall m <- [RIVAL_MINED] :: m.tx != SendFor(0, 0).tx;
  }

  lemma StartsFinalPass(cfg: Config, reach: iset<State>, s: State)
    requires Closed(cfg, reach) && s in reach && |s.workers| > 0 && s.workers[0].Idle? && s.world.chain == RIVAL_CHAIN
    requires |s.world.sends| > 0 && s.world.sends[0] == SendFor(0, 0)
    ensures Goto(s, 0, Settling(SettlePass(Some(1), map[], [SendFor(0, 0).tx]), Picking)) in reach
  {
    var tx := SendFor(0, 0).tx;
    assert OpenSends(s, [tx]);
    Steps(cfg, reach, s, Settle(0, StartPass([tx], Some(1))),
      Goto(s, 0, Settling(SettlePass(Some(1), map[], [tx]), Picking)));
  }

  lemma CountsNonce(cfg: Config, reach: iset<State>, s: State)
    requires Closed(cfg, reach) && |s.workers| > 0 && s.world.chain == RIVAL_CHAIN
    requires Goto(s, 0, Settling(SettlePass(Some(1), map[], [SendFor(0, 0).tx]), Picking)) in reach
    ensures Goto(s, 0, Settling(SettlePass(Some(1), map[7 := 1], [SendFor(0, 0).tx]), NonceKnown(Some(1)))) in reach
  {
    var tx := SendFor(0, 0).tx;
    var a := Goto(s, 0, Settling(SettlePass(Some(1), map[], [tx]), Picking));
    var q := Settling(SettlePass(Some(1), map[7 := 1], [tx]), NonceKnown(Some(1)));
    RivalChainFacts();
    GotoTwice(s, 0, a.workers[0], q);
    Steps(cfg, reach, a, Settle(0, ReadNonce(true)), Goto(s, 0, q));
  }

  lemma FindsNoReceipt(cfg: Config, reach: iset<State>, s: State, pass: SettlePass)
    requires Closed(cfg, reach) && |s.workers| > 0 && s.world.chain == RIVAL_CHAIN && pass.todo == [SendFor(0, 0).tx]
    requires Goto(s, 0, Settling(pass, NonceKnown(Some(1)))) in reach
    ensures Goto(s, 0, Settling(pass, Observed(Some(1), None))) in reach
  {
    var a := Goto(s, 0, Settling(pass, NonceKnown(Some(1))));
    var q := Settling(pass, Observed(Some(1), None));
    RivalChainFacts();
    GotoTwice(s, 0, a.workers[0], q);
    Steps(cfg, reach, a, Settle(0, LookUp(true)), Goto(s, 0, q));
  }

  lemma SettlesAsConsumed(cfg: Config, reach: iset<State>, s: State, pass: SettlePass)
    requires Closed(cfg, reach) && |s.workers| > 0 && pass.todo == [SendFor(0, 0).tx]
    requires Goto(s, 0, Settling(pass, Observed(Some(1), None))) in reach
    ensures Goto(s.(world := SettleByNonce(s.world, SendFor(0, 0).tx)), 0, Idle) in reach
  {
    var a := Goto(s, 0, Settling(pass, Observed(Some(1), None)));
    var t := s.(world := SettleByNonce(s.world, SendFor(0, 0).tx));
    GotoTwice(t, 0, a.workers[0], Idle);
    Steps(cfg, reach, a, Settle(0, Record(0)), Goto(t, 0, Idle));
  }

  // Worker 0 finds the nonce taken at a final block, and no receipt.
  lemma LosesNonce(cfg: Config, reach: iset<State>, s: State)
    requires Closed(cfg, reach) && s in reach && |s.workers| > 0 && s.workers[0].Idle? && s.world.chain == RIVAL_CHAIN
    requires s.world.sends == [SendFor(0, 0), RIVAL]
    ensures s.(world := s.world.(sends := [GONE, RIVAL])) in reach
  {
    StartsFinalPass(cfg, reach, s);
    CountsNonce(cfg, reach, s);
    var pass := SettlePass(Some(1), map[7 := 1], [SendFor(0, 0).tx]);
    FindsNoReceipt(cfg, reach, s, pass);
    SettlesAsConsumed(cfg, reach, s, pass);
    assert SettleSends(s.world.sends, SendFor(0, 0).tx, ByNonceConsumed) == [GONE, RIVAL];
    GotoSame(s.(world := s.world.(sends := [GONE, RIVAL])), 0);
  }

  const STALE_GAS := GasSpend(SendFor(0, 0).tx, 0, 50, 0)

  // The receipt books gas for a send that is settled already.
  lemma StaleIsBooked(chain: Chain, broadcast: set<Tx>)
    ensures RowOfSend([GONE, RIVAL, NEXT], SendFor(0, 0).tx) == 0
    ensures SettleByReceipt(World(chain, [GONE, RIVAL, NEXT], [], broadcast), STALE_GAS)
      == World(chain, [GONE, RIVAL, NEXT], [STALE_GAS], broadcast)
  {
    assert [GONE, RIVAL, NEXT][..2] == [GONE, RIVAL] && [GONE, RIVAL][..1] == [GONE];
    assert RowOfSend([GONE, RIVAL], SendFor(0, 0).tx) == 0;
    assert SettleSends([GONE, RIVAL, NEXT], SendFor(0, 0).tx, ByReceipt) == [GONE, RIVAL, NEXT];
  }

  lemma StaleTotalIs150()
    ensures RecordedOwn([STALE_GAS], 7, 0) == 50 && InFlight([GONE, RIVAL, NEXT], [STALE_GAS]) == 100
  {
    InFlightThree(GONE, RIVAL, NEXT, [STALE_GAS]);
    assert STALE_GAS.tx != RIVAL.tx && STALE_GAS.tx != NEXT.tx;
    assert [STALE_GAS][..0] == [];
  }

  // Two sends on one nonce, and worker 1 holds the receipt of the one that the final chain does not have.
  function StaleState(cfg: Config): State
    requires cfg.workers >= 2
  {
    OnChain(Observed1(cfg, 0), RIVAL_CHAIN)
  }

  lemma StaleReached(cfg: Config, reach: iset<State>)
    requires Closed(cfg, reach) && Init(GENESIS, cfg) in reach && Small(cfg) && cfg.workers >= 2
    ensures StaleState(cfg) in reach && StaleState(cfg).world.sends == [SendFor(0, 0), RIVAL]
  {
    PairReached(cfg, reach, 0);
    Observed1Reached(cfg, reach, 0);
    assert RIVAL == Observed1(cfg, 0).world.sends[1];
    OneBlock(cfg, reach, Observed1(cfg, 0), 2, RIVAL, RIVAL_MINED, 1);
  }

  lemma SendsBeforeStaleReceipt(cfg: Config, reach: iset<State>) returns (t: State)
    requires Closed(cfg, reach) && Init(GENESIS, cfg) in reach && Small(cfg) && cfg.workers >= 2
    ensures t in reach && RecordedOwn(t.world.gas, 7, t.day) + InFlight(t.world.sends, t.world.gas) == 150
  {
    StaleReached(cfg, reach);
    LosesNonce(cfg, reach, StaleState(cfg));
    var s := StaleState(cfg).(world := StaleState(cfg).world.(sends := [GONE, RIVAL]));
    InFlightTwo(GONE, RIVAL, []);
    RivalChainFacts();
    StoresNothing(RIVAL_CHAIN, 3, 2);
    Sends(cfg, reach, s, 2, 1);
    var a := AfterSend(s, 2, NEXT);
    GotoSame(a, 1);
    StoresReceipt(cfg, reach, a);
    assert a.world.sends == [GONE, RIVAL, NEXT];
    StaleIsBooked(a.world.chain, a.world.broadcast);
    StaleTotalIs150();
    t := Goto(a.(world := World(a.world.chain, [GONE, RIVAL, NEXT], [STALE_GAS], a.world.broadcast)), 1, Idle);
  }

  // A receipt read before a reorg and stored after it books gas that no reservation covers any more, in
  // whichever order the totals are read.
  lemma StaleReceiptExceedsTheCap(n: nat, order: ReadOrder, heads: HeadOrder) returns (events: seq<Event>)
    requires n >= 2
    ensures
      var cfg := TwoSendConfig(n, order, heads);
      var s := Run(cfg, Init(GENESIS, cfg), events);
      RecordedOwn(s.world.gas, 7, s.day) + InFlight(s.world.sends, s.world.gas) == 150
  {
    var cfg := TwoSendConfig(n, order, heads);
    ReachedIsClosed(cfg);
    var t := SendsBeforeStaleReceipt(cfg, Reached(cfg));
    events := RunTo(cfg, t);
  }

  // Counting every gas row, the cap holds in all runs exactly with at most one worker per chain, whatever the order.
  lemma RecordedCapHoldsExactly(n: nat, order: ReadOrder)
    ensures (forall cfg: Config, chain, events :: cfg.workers == n && cfg.order == order && FreshStart(cfg, chain)
               ==> RecordedCap(cfg, Run(cfg, Init(chain, cfg), events)))
      <==> n <= 1
  {
    if n > 1 {
      var cfg := TwoSendConfig(n, order, ReceiptFirst);
      var events := StaleReceiptExceedsTheCap(n, order, ReceiptFirst);
      assert FreshStart(cfg, GENESIS);
      assert !RecordedCap(cfg, Run(cfg, Init(GENESIS, cfg), events));
    } else {
      forall cfg: Config, chain, events | cfg.workers == n && cfg.order == order && FreshStart(cfg, chain)
        ensures RecordedCap(cfg, Run(cfg, Init(chain, cfg), events))
      {
        RecordedCapHolds(cfg, chain, events);
      }
    }
  }

  // ---- a final head read after the receipt it judges ----

  // The send, mined so that contract 3 stores batch 0.
  const STORING := Mined(SendFor(0, 0).tx, true, 50, 0, [Submission(3, 0, 9)])
  const STORING_ONLY := Chain([Block(1, [STORING])], 0)
  const EMPTY_FINAL := Chain([Block(3, [])], 1)
  const STORING_LATE := Chain([Block(3, []), Block(4, [STORING])], 1)
  const REQUESTED := SentRow(SendFor(0, 0).tx, Stuck, 4, true)

  function Tracked(status: RowStatus, version: nat): map<RowId, Row> {
    map[0 := SentRow(SendFor(0, 0).tx, status, version, false)]
  }

  lemma Claims0(cfg: Config, reach: iset<State>, s: State, version: nat)
    requires Closed(cfg, reach) && s in reach && Quiet(s) && |s.workers| > 0 && s.workers[0].Idle?
    requires s.rows == Tracked(Active, version)
    ensures Goto(s, 0, Tracking(0, None)) in reach
  {
    assert !RowHeld(s, 0);
    Steps(cfg, reach, s, Track(0, TrackClaim(0)), Goto(s, 0, Tracking(0, None)));
  }

  lemma Observes0(cfg: Config, reach: iset<State>, s: State, version: nat)
    requires Closed(cfg, reach) && |s.workers| > 0 && s.rows == Tracked(Active, version)
    requires Goto(s, 0, Tracking(0, None)) in reach
    ensures Goto(s, 0, Tracking(0, Some(FindReceipt(s.world.chain.blocks, SendFor(0, 0).tx)))) in reach
  {
    var a := Goto(s, 0, Tracking(0, None));
    var q := Tracking(0, Some(FindReceipt(s.world.chain.blocks, SendFor(0, 0).tx)));
    GotoTwice(s, 0, a.workers[0], q);
    Steps(cfg, reach, a, Track(0, Observe), Goto(s, 0, q));
  }

  lemma StoringIsFound()
    ensures FindReceipt(STORING_ONLY.blocks, SendFor(0, 0).tx) == Some(Receipt(0, 1, STORING))
  {
    assert STORING_ONLY.blocks[0].txs[0].tx == SendFor(0, 0).tx;
  }

  // The row's send is mined, and its receipt recorded.
  lemma RecordsReceipt(cfg: Config, reach: iset<State>, s: State)
    requires Closed(cfg, reach) && s in reach && Quiet(s) && |s.workers| > 0 && s.workers[0].Idle?
    requires s.rows == Tracked(Active, 1) && s.world == World(STORING_ONLY, [SendFor(0, 0)], [], s.world.broadcast)
    ensures s.(rows := Tracked(Active, 2),
      world := World(STORING_ONLY, [PAID], [FIRST_GAS], s.world.broadcast)) in reach
  {
    Claims0(cfg, reach, s, 1);
    Observes0(cfg, reach, s, 1);
    StoringIsFound();
    var a := Goto(s, 0, Tracking(0, Some(Some(Receipt(0, 1, STORING)))));
    var t := s.(rows := Tracked(Active, 2), world := World(STORING_ONLY, [PAID], [FIRST_GAS], s.world.broadcast));
    assert SettleSends([SendFor(0, 0)], SendFor(0, 0).tx, ByReceipt) == [PAID];
    assert s.rows[0 := SentRow(SendFor(0, 0).tx, Active, 2, false)] == Tracked(Active, 2);
    GotoTwice(t, 0, a.workers[0], Idle);
    GotoSame(t, 0);
    Steps(cfg, reach, a, Track(0, TrackCommit(SentRow(SendFor(0, 0).tx, Active, 2, false), 0)), Goto(t, 0, Idle));
  }

  // Its block is reorged out, and tracking hands the row to a person.
  lemma LosesBlock(cfg: Config, reach: iset<State>, s: State)
    requires Closed(cfg, reach) && s in reach && Quiet(s) && |s.workers| > 0 && s.workers[0].Idle?
    requires s.rows == Tracked(Active, 2) && s.world.chain == STORING_ONLY
    ensures OnChain(s, GENESIS).(rows := Tracked(Stuck, 3)) in reach
  {
    assert Flat(GENESIS.blocks) == [] && STORING_ONLY.blocks[..0] == [];
    var a := OnChain(s, GENESIS);
    Steps(cfg, reach, s, Environment(ChainTo(GENESIS)), a);
    Claims0(cfg, reach, a, 2);
    Observes0(cfg, reach, a, 2);
    var b := Goto(a, 0, Tracking(0, Some(None)));
    var t := a.(rows := Tracked(Stuck, 3));
    assert s.rows[0 := SentRow(SendFor(0, 0).tx, Stuck, 3, false)] == Tracked(Stuck, 3);
    GotoTwice(t, 0, b.workers[0], Idle);
    GotoSame(t, 0);
    Steps(cfg, reach, b, Track(0, TrackCommit(SentRow(SendFor(0, 0).tx, Stuck, 3, false), 0)), Goto(t, 0, Idle));
  }

  lemma Requests(cfg: Config, reach: iset<State>, s: State)
    requires Closed(cfg, reach) && s in reach && Quiet(s) && s.rows == Tracked(Stuck, 3)
    ensures s.(rows := map[0 := REQUESTED]) in reach
  {
    assert !RowHeld(s, 0);
    assert s.rows[0 := REQUESTED] == map[0 := REQUESTED];
    Steps(cfg, reach, s, Environment(RequestMove(0)), s.(rows := map[0 := REQUESTED]));
  }

  const REQUEST := MoveRequest(0, REQUESTED, [SendFor(0, 0).tx])

  // The state of the move: the row as requested, one paid send.
  predicate ForMove(s: State) {
    |s.workers| > 0 && s.rows == map[0 := REQUESTED] && s.world.sends == [PAID] && s.world.gas == [FIRST_GAS]
  }

  lemma ReadsRequest(cfg: Config, reach: iset<State>, s: State)
    requires Closed(cfg, reach) && s in reach && ForMove(s) && s.workers[0].Idle?
    ensures Goto(s, 0, Moving(REQUEST, CheckingSigner, false)) in reach
  {
    var tx := SendFor(0, 0).tx;
    assert s.world.gas[0] in s.world.gas && tx in GasOf(s.world.gas, 0);
    assert TrackedHashes(s.world, 0, REQUESTED) == {tx};
    assert (set x | x in [tx]) == {tx};
    assert !HasOpenSend(s.world, 0);
    Steps(cfg, reach, s, Move(0, ReadRequest(0, [tx])), Goto(s, 0, Moving(REQUEST, CheckingSigner, false)));
  }

  // Nothing of the signer's is pending: all it ever broadcast is mined.
  ghost predicate AllMined(w: World) { forall tx <- w.broadcast :: IsMined(w.chain, tx) }

  lemma PassesSignerCheck(cfg: Config, reach: iset<State>, s: State)
    requires Closed(cfg, reach) && |s.workers| > 0 && AllMined(s.world)
    requires Goto(s, 0, Moving(REQUEST, CheckingSigner, false)) in reach
    ensures Goto(s, 0, Moving(REQUEST, Observing(0, {}, false, None), false)) in reach
  {
    var a := Goto(s, 0, Moving(REQUEST, CheckingSigner, false));
    var q := Moving(REQUEST, Observing(0, {}, false, None), false);
    GotoTwice(s, 0, a.workers[0], q);
    Steps(cfg, reach, a, Move(0, CheckSigner(false)), Goto(s, 0, q));
  }

  // The move reads the receipt while its block is not final.
  lemma ReadsReceipt(cfg: Config, reach: iset<State>, s: State)
    requires Closed(cfg, reach) && |s.workers| > 0 && cfg.heads.ReceiptFirst? && s.world.chain == STORING_ONLY
    requires Goto(s, 0, Moving(REQUEST, Observing(0, {}, false, None), false)) in reach
    ensures Goto(s, 0, Moving(REQUEST, AwaitFinality(0, {}, false, Receipt(0, 1, STORING)), false)) in reach
  {
    var a := Goto(s, 0, Moving(REQUEST, Observing(0, {}, false, None), false));
    var q := Moving(REQUEST, AwaitFinality(0, {}, false, Receipt(0, 1, STORING)), false);
    StoringIsFound();
    GotoTwice(s, 0, a.workers[0], q);
    Steps(cfg, reach, a, Move(0, ObserveHash), Goto(s, 0, q));
  }

  // Another block becomes final at that height.
  lemma OtherBlockFinal(cfg: Config, reach: iset<State>, s: State)
    requires Closed(cfg, reach) && s in reach && s.world.chain == STORING_ONLY
    ensures OnChain(s, EMPTY_FINAL) in reach
  {
    assert Flat(EMPTY_FINAL.blocks) == [] by { assert EMPTY_FINAL.blocks[..0] == []; }
    assert STORING_ONLY.blocks[..0] == EMPTY_FINAL.blocks[..0];
    Steps(cfg, reach, s, Environment(ChainTo(EMPTY_FINAL)), OnChain(s, EMPTY_FINAL));
  }

  // The finality read accepts the old receipt.
  lemma AcceptsReceipt(cfg: Config, reach: iset<State>, s: State)
    requires Closed(cfg, reach) && |s.workers| > 0 && s.world.chain == EMPTY_FINAL
    requires Goto(s, 0, Moving(REQUEST, AwaitFinality(0, {}, false, Receipt(0, 1, STORING)), false)) in reach
    ensures Goto(s, 0, Moving(REQUEST, Observing(1, {3}, false, Some(1)), true)) in reach
  {
    var a := Goto(s, 0, Moving(REQUEST, AwaitFinality(0, {}, false, Receipt(0, 1, STORING)), false));
    var q := Moving(REQUEST, Observing(1, {3}, false, Some(1)), true);
    assert Landing(STORING, 0) == {3} by { assert STORING.submissions[0] in STORING.submissions; }
    assert {} + Landing(STORING, 0) == {3};
    assert NotFinal(EMPTY_FINAL, Receipt(0, 1, STORING)) by {
      assert EMPTY_FINAL.blocks[..1] == EMPTY_FINAL.blocks && EMPTY_FINAL.blocks[..0] == [];
    }
    GotoTwice(s, 0, a.workers[0], q);
    Steps(cfg, reach, a, Move(0, ReadFinality(1)), Goto(s, 0, q));
  }

  lemma Collects(cfg: Config, reach: iset<State>, s: State)
    requires Closed(cfg, reach) && |s.workers| > 0 && cfg.contract == 3
    requires Goto(s, 0, Moving(REQUEST, Observing(1, {3}, false, Some(1)), true)) in reach
    ensures Goto(s, 0, Moving(REQUEST, Asking({3}, false, [3], 0, 0), true)) in reach
  {
    var a := Goto(s, 0, Moving(REQUEST, Observing(1, {3}, false, Some(1)), true));
    var q := Moving(REQUEST, Asking({3}, false, [3], 0, 0), true);
    assert 3 in [3] && {3} <= (set c | c in [3]);
    GotoTwice(s, 0, a.workers[0], q);
    Steps(cfg, reach, a, Move(0, Collect([3])), Goto(s, 0, q));
  }

  lemma AsksInVain(cfg: Config, reach: iset<State>, s: State)
    requires Closed(cfg, reach) && |s.workers| > 0 && s.world.chain == EMPTY_FINAL
    requires Goto(s, 0, Moving(REQUEST, Asking({3}, false, [3], 0, 0), true)) in reach
    ensures Goto(s, 0, Moving(REQUEST, Asking({3}, false, [3], 1, 1), true)) in reach
  {
    var a := Goto(s, 0, Moving(REQUEST, Asking({3}, false, [3], 0, 0), true));
    var q := Moving(REQUEST, Asking({3}, false, [3], 1, 1), true);
    assert Flat(EMPTY_FINAL.blocks) == [] by { assert EMPTY_FINAL.blocks[..0] == []; }
    GotoTwice(s, 0, a.workers[0], q);
    Steps(cfg, reach, a, Move(0, Ask(true)), Goto(s, 0, q));
  }

  lemma Concludes(cfg: Config, reach: iset<State>, s: State)
    requires Closed(cfg, reach) && |s.workers| > 0
    requires Goto(s, 0, Moving(REQUEST, Asking({3}, false, [3], 1, 1), true)) in reach
    ensures Goto(s, 0, Moving(REQUEST, Decided(None, false), true)) in reach
  {
    var a := Goto(s, 0, Moving(REQUEST, Asking({3}, false, [3], 1, 1), true));
    var q := Moving(REQUEST, Decided(None, false), true);
    GotoTwice(s, 0, a.workers[0], q);
    Steps(cfg, reach, a, Move(0, Conclude), Goto(s, 0, q));
  }

  function MovedRow(s: State): State {
    s.(rows := map[], moves := s.moves + [Moved(0, AllHashes(s.world, REQUEST), true)])
  }

  lemma MovesAway(cfg: Config, reach: iset<State>, s: State)
    requires Closed(cfg, reach) && ForMove(s) && Quiet(s) && s.workers[0].Idle?
    requires Goto(s, 0, Moving(REQUEST, Decided(None, false), true)) in reach
    ensures MovedRow(s) in reach
  {
    var a := Goto(s, 0, Moving(REQUEST, Decided(None, false), true));
    assert !RowHeld(a, 0);
    assert GasOf(s.world.gas, 0) <= (set tx | tx in REQUEST.tracked);
    assert Unchanged(a, REQUEST);
    assert s.rows - {0} == map[];
    var t := MovedRow(s);
    GotoTwice(t, 0, a.workers[0], Idle);
    GotoSame(t, 0);
    Steps(cfg, reach, a, Move(0, Apply(REQUESTED)), Goto(t, 0, Idle));
  }

  // From the accepted receipt to the decision.
  lemma AsksAndMoves(cfg: Config, reach: iset<State>, s: State)
    requires Closed(cfg, reach) && ForMove(s) && Quiet(s) && s.workers[0].Idle? && Small(cfg)
    requires s.world.chain == EMPTY_FINAL
    requires Goto(s, 0, Moving(REQUEST, Observing(1, {3}, false, Some(1)), true)) in reach
    ensures MovedRow(s) in reach
  {
    Collects(cfg, reach, s);
    AsksInVain(cfg, reach, s);
    Concludes(cfg, reach, s);
    MovesAway(cfg, reach, s);
  }

  // From the request to the receipt.
  lemma AsksForReceipt(cfg: Config, reach: iset<State>, s: State)
    requires Closed(cfg, reach) && s in reach && ForMove(s) && s.workers[0].Idle? && cfg.heads.ReceiptFirst?
    requires s.world.chain == STORING_ONLY && s.world.broadcast == {SendFor(0, 0).tx}
    ensures Goto(s, 0, Moving(REQUEST, AwaitFinality(0, {}, false, Receipt(0, 1, STORING)), false)) in reach
  {
    ReadsRequest(cfg, reach, s);
    StoringIsFound();
    assert IsMined(STORING_ONLY, SendFor(0, 0).tx);
    PassesSignerCheck(cfg, reach, s);
    ReadsReceipt(cfg, reach, s);
  }

  // The send is mined after the final block.
  lemma StoringLateFacts()
    ensures Flat(STORING_LATE.blocks) == [STORING] && ValidChain(STORING_LATE) && Extends(STORING_LATE, STORING_LATE)
    ensures EMPTY_FINAL.blocks[..1] == STORING_LATE.blocks[..1]
  {
    var blocks := STORING_LATE.blocks;
    assert blocks[..1] == [Block(3, [])];
    assert [Block(3, [])][..0] == [];
    assert Flat([Block(3, [])]) == [];
    assert [STORING][..0] == [];
  }

  lemma MinedAfterAll(cfg: Config, reach: iset<State>, s: State)
    requires Closed(cfg, reach) && s in reach && cfg.wallet == 7 && s.world.chain == EMPTY_FINAL
    requires s.world.sends == [PAID] && SendFor(0, 0).tx in s.world.broadcast
    ensures OnChain(s, STORING_LATE) in reach
  {
    StoringLateFacts();
    assert s.world.sends[0] == PAID && Covers(PAID, STORING);
    Steps(cfg, reach, s, Environment(ChainTo(STORING_LATE)), OnChain(s, STORING_LATE));
  }

  // The row's send was mined once, its receipt recorded, and its block lost; now it is mined again.
  function BeforeMove(cfg: Config): State {
    State(World(STORING_ONLY, [PAID], [FIRST_GAS], {SendFor(0, 0).tx}), 0, map[0 := REQUESTED],
      Init(GENESIS, cfg).workers, [])
  }

  lemma BeforeMoveReached(cfg: Config, reach: iset<State>)
    requires Closed(cfg, reach) && Init(GENESIS, cfg) in reach && Small(cfg) && cfg.workers > 0
    ensures BeforeMove(cfg) in reach
  {
    var tx := SendFor(0, 0).tx;
    var init := Init(GENESIS, cfg);
    StoresNothing(GENESIS, 3, 0);
    Sends(cfg, reach, init, 0, 0);
    var a := AfterSend(init, 0, SendFor(0, 0));
    assert a.world == World(GENESIS, [SendFor(0, 0)], [], {tx}) && a.rows == Tracked(Active, 1);
    assert SendFor(0, 0) in a.world.sends;
    OneBlock(cfg, reach, a, 1, SendFor(0, 0), STORING, 0);
    RecordsReceipt(cfg, reach, OnChain(a, STORING_ONLY));
    var b := a.(rows := Tracked(Active, 2), world := World(STORING_ONLY, [PAID], [FIRST_GAS], {tx}));
    LosesBlock(cfg, reach, b);
    var c := OnChain(b, GENESIS).(rows := Tracked(Stuck, 3));
    assert PAID in c.world.sends;
    OneBlock(cfg, reach, c, 1, PAID, STORING, 0);
    Requests(cfg, reach, OnChain(c, STORING_ONLY));
  }

  lemma MovesOnDisplacedReceipt(cfg: Config, reach: iset<State>) returns (t: State)
    requires Closed(cfg, reach) && Init(GENESIS, cfg) in reach && Small(cfg) && cfg.workers > 0
    requires cfg.heads.ReceiptFirst?
    ensures t in reach && t.rows == map[] && t.world.sends == [PAID] && t.world.chain == STORING_LATE
    ensures StoresBatch(t.world.chain, 3, PAID.row)
  {
    BeforeMoveReached(cfg, reach);
    var s := BeforeMove(cfg);
    AsksForReceipt(cfg, reach, s);
    OtherBlockFinal(cfg, reach, Goto(s, 0,
      Moving(REQUEST, AwaitFinality(0, {}, false, Receipt(0, 1, STORING)), false)));
    var a := OnChain(s, EMPTY_FINAL);
    AcceptsReceipt(cfg, reach, a);
    AsksAndMoves(cfg, reach, a);
    MinedAfterAll(cfg, reach, MovedRow(a));
    t := OnChain(MovedRow(a), STORING_LATE);
    StoringLateFacts();
    assert STORING in Flat(STORING_LATE.blocks) && STORING.submissions[0] in STORING.submissions;
  }

  // The move's receipt is read before the final head it is judged by. A reorg between the two reads lets a row
  // leave although its send then stores the batch on the old chain.
  lemma ReorgBetweenReadsDefeatsTheMove(n: nat, order: ReadOrder) returns (events: seq<Event>)
    requires n >= 1
    ensures
      var cfg := TwoSendConfig(n, order, ReceiptFirst);
      var s := Run(cfg, Init(GENESIS, cfg), events);
      && s.rows == map[] && s.world.sends == [PAID]
      && s.world.chain == STORING_LATE && StoresBatch(s.world.chain, 3, PAID.row)
  {
    var cfg := TwoSendConfig(n, order, ReceiptFirst);
    ReachedIsClosed(cfg);
    var t := MovesOnDisplacedReceipt(cfg, Reached(cfg));
    events := RunTo(cfg, t);
  }

  // Rows that left are stored here by none of the sends signed for them, on no later chain.
  ghost predicate MovedStayAway(s: State) {
    forall send, later, m :: send in s.world.sends && send.row !in s.rows
      && ValidChain(later) && Extends(s.world.chain, later) && m in Flat(later.blocks) && m.tx == send.tx
      ==> forall sub <- m.submissions :: sub.batchId != send.row
  }

  lemma HeadFirstStaysAway(cfg: Config, chain: Chain, events: seq<Event>)
    requires FreshStart(cfg, chain) && (cfg.heads.FinalHeadFirst? || cfg.workers == 0)
    ensures MovedStayAway(Run(cfg, Init(chain, cfg), events))
  {
    var s := Run(cfg, Init(chain, cfg), events);
    RunNoRaces(cfg, Init(chain, cfg), events);
    forall send, later, m | send in s.world.sends && send.row !in s.rows
      && ValidChain(later) && Extends(s.world.chain, later) && m in Flat(later.blocks) && m.tx == send.tx
      ensures forall sub <- m.submissions :: sub.batchId != send.row
    {
      MovedBatchIsNeverStored(cfg, chain, events, send, later, m);
    }
  }

  // Moves are safe in all runs exactly if the final head is read before the receipts it judges.
  lemma MovesAreSafeExactly(n: nat, heads: HeadOrder)
    ensures (forall cfg: Config, chain, events :: cfg.workers == n && cfg.heads == heads && FreshStart(cfg, chain)
               ==> MovedStayAway(Run(cfg, Init(chain, cfg), events)))
      <==> heads.FinalHeadFirst? || n == 0
  {
    if heads.FinalHeadFirst? || n == 0 {
      forall cfg: Config, chain, events | cfg.workers == n && cfg.heads == heads && FreshStart(cfg, chain)
        ensures MovedStayAway(Run(cfg, Init(chain, cfg), events))
      {
        HeadFirstStaysAway(cfg, chain, events);
      }
    } else {
      var cfg := TwoSendConfig(n, OneSnapshot, ReceiptFirst);
      var events := ReorgBetweenReadsDefeatsTheMove(n, OneSnapshot);
      assert FreshStart(cfg, GENESIS);
      NotAway(Run(cfg, Init(GENESIS, cfg), events));
    }
  }

  lemma NotAway(s: State)
    requires s.rows == map[] && s.world.sends == [PAID] && s.world.chain == STORING_LATE
    ensures !MovedStayAway(s)
  {
    StoringLateFacts();
    assert PAID in s.world.sends && STORING in Flat(STORING_LATE.blocks);
    assert STORING.submissions[0] in STORING.submissions;
  }
}
