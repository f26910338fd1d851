// The life of a chain.transactions row: submission, Safe proposals, tracking against a chain that
// reorgs, and a person's resubmission. A tracking step holds its row between its reads, so only
// the chain changes under it.
module Tracking {
  import opened Wrappers
  import opened Chain
  import opened AnchorState
  import Runs

  type RowId = nat

  // What the worker judged when it confirmed, and whether the finality read accepted a receipt whose outcome
  // was in no final block: kept as history.
  datatype Judged = Judged(receipt: Receipt, head: nat, finalized: Option<nat>, raced: bool)

  datatype Row = Row(
    state: TransactionState,
    batch: Option<Submission>,
    tx: Option<Tx>,
    contract: Option<Contract>,
    blockNumber: Option<nat>,
    blockHash: Option<nat>,
    judged: Option<Judged>)

  // An open Safe proposal of a row, with the contract it calls. Executed and rejected proposals
  // are frozen by the database, so a second worker's update of one aborts.
  datatype Tables = Tables(
    rows: map<RowId, Row>,
    openProposals: map<RowId, Contract>,
    reorgEvents: seq<ReorgEvent>)

  datatype ReorgEvent = ReorgEvent(row: RowId, blockNumber: nat, blockHash: nat, detectedIn: TransactionState)

  datatype Seen = SeenReceipt(receipt: Receipt) | SeenPending | SeenUnknown

  datatype TrackPhase =
    | Reading
    | HeadKnown(finalHead: nat)
    | Observed(seen: Seen, head: nat)
    | Judging(seen: Seen, head: nat, finalized: Option<nat>, raced: bool)

  predicate HasSeen(p: TrackPhase) { p.Observed? || p.Judging? }

  datatype Config = Config(contract: Contract, confirmationDepth: nat, usesFinality: bool, heads: HeadOrder,
      dropTimeoutMs: nat)

  datatype State = State(chain: Chain, tables: Tables, tracking: map<RowId, TrackPhase>)

  datatype Event =
    | ChainTo(chain: Chain)
    | RowArrives(row: RowId, batch: Option<Submission>)
    | Sent(row: RowId, tx: Tx)
    | SubmitFails(row: RowId, toPerson: bool)
    | Propose(row: RowId)
    | ProposalExecuted(row: RowId, tx: Tx)
    | ProposalRejected(row: RowId)
    | Claim(row: RowId)
    | Observe(row: RowId, inMempool: bool, head: nat)
    | ReadFinality(row: RowId, finalized: nat)
    | Follow(row: RowId, tx: Tx)
    | NoRoot(row: RowId)
    | Commit(row: RowId, elapsedMs: nat)
    | GiveUpSearch(row: RowId)
    | Release(row: RowId)
    | Resubmit(row: RowId)
    | AdoptFromMove(row: RowId, tx: Tx, contract: Contract)
    | Leave(row: RowId)

  predicate Movable(s: TransactionState) {
    s.Failed? || s.Dropped? || s.Reverted? || s.ReconciliationRequired?
  }

  // The contract recorded with the hash; the configured one only when none was recorded.
  function TrackedContract(cfg: Config, row: Row): Contract {
    if row.contract.Some? then row.contract.value else cfg.contract
  }

  // The receipt carries exactly this batch and root, from this contract.
  predicate StoredRoot(m: Mined, contract: Contract, batch: Submission)
    ensures StoredRoot(m, contract, batch) <==> Submission(contract, batch.batchId, batch.root) in m.submissions
  {
    exists i :: 0 <= i < |m.submissions| && m.submissions[i].contract == contract
      && m.submissions[i].batchId == batch.batchId && m.submissions[i].root == batch.root
  }

  // A receipt that must not confirm the row: reverted, or without the row's root.
  predicate StoredNothing(cfg: Config, row: Row, seen: Seen) {
    seen.SeenReceipt? && row.batch.Some?
    && (!seen.receipt.mined.success || !StoredRoot(seen.receipt.mined, TrackedContract(cfg, row), row.batch.value))
  }

  function ObservationOf(seen: Seen): Observation {
    match seen
    case SeenReceipt(r) => ReceiptSeen(r.mined.success, r.height, r.blockHash)
    case SeenPending => Pending
    case SeenUnknown => Unknown
  }

  function InputOf(cfg: Config, row: Row, p: TrackPhase, elapsedMs: nat): TrackInput
    requires p.Judging?
  {
    TrackInput(row.state, row.blockNumber, row.blockHash, ObservationOf(p.seen), p.head,
               cfg.confirmationDepth, p.finalized, elapsedMs, cfg.dropTimeoutMs)
  }

  function SetRow(t: Tables, r: RowId, row: Row): Tables { t.(rows := t.rows[r := row]) }

  // The row and reorg log after trackTransaction's result is written.
  function WriteResult(t: Tables, r: RowId, row: Row, p: TrackPhase, result: TrackResult): Tables
    requires p.Judging?
  {
    var logged := if result.reorged && row.blockNumber.Some? && row.blockHash.Some?
      then t.(reorgEvents := t.reorgEvents + [ReorgEvent(r, row.blockNumber.value, row.blockHash.value, row.state)])
      else t;
    if result.nextState == row.state && result.blockHash == row.blockHash then logged
    else SetRow(logged, r, row.(
      state := result.nextState,
      blockNumber := result.blockNumber,
      blockHash := result.blockHash,
      judged := if result.nextState.Confirmed? && p.seen.SeenReceipt?
                then Some(Judged(p.seen.receipt, p.head, p.finalized, p.raced)) else None))
  }

  predicate HasRow(s: State, r: RowId) { r in s.tables.rows }
  predicate Unlocked(s: State, r: RowId) { r in s.tables.rows && r !in s.tracking }

  predicate Traced(st: TransactionState) { st.Submitted? || st.Included? || st.Confirmed? }

  function SeenOn(c: Chain, tx: Tx, inMempool: bool): (seen: Seen)
    ensures seen.SeenReceipt? <==> IsMined(c, tx)
    ensures seen.SeenReceipt? ==> seen.receipt.mined.tx == tx && seen.receipt.mined in Flat(c.blocks)
    ensures seen.SeenPending? <==> !IsMined(c, tx) && inMempool
  {
    var receipt := FindReceipt(c.blocks, tx);
    if receipt.Some? then SeenReceipt(receipt.value) else if inMempool then SeenPending else SeenUnknown
  }

  // Cleared block columns, following `tx` on `contract`.
  function Following(row: Row, tx: Tx, contract: Contract): Row {
    row.(state := Submitted, tx := Some(tx), contract := Some(contract), blockNumber := None, blockHash := None,
      judged := None)
  }

  function Reset(row: Row): Row {
    row.(state := Created, tx := None, contract := None, blockNumber := None, blockHash := None, judged := None)
  }

  function Put(s: State, r: RowId, row: Row): State {
    s.(tables := SetRow(s.tables, r, row))
  }

  function Unlock(s: State, r: RowId): State { s.(tracking := s.tracking - {r}) }

  // ---- one function per kind of step ----

  function NextSubmit(cfg: Config, s: State, e: Event): State {
    match e
    case Sent(r, tx) =>
      // submitPending, and reconcileBeforeSend adopting a hash: both record the configured contract.
      if Unlocked(s, r) && s.tables.rows[r].state.Created?
      then Put(s, r, s.tables.rows[r].(state := Submitted, tx := Some(tx), contract := Some(cfg.contract))) else s
    case SubmitFails(r, toPerson) =>
      if Unlocked(s, r) && s.tables.rows[r].state.Created?
      then Put(s, r, s.tables.rows[r].(state := if toPerson then ReconciliationRequired else Failed)) else s
    case Propose(r) =>
      if Unlocked(s, r) && s.tables.rows[r].state.Created? && r !in s.tables.openProposals
      then
        var t := Put(s, r, s.tables.rows[r].(state := Proposed, contract := Some(cfg.contract)));
        t.(tables := t.tables.(openProposals := s.tables.openProposals[r := cfg.contract]))
      else s
    case ProposalExecuted(r, tx) =>
      if Unlocked(s, r) && r in s.tables.openProposals
      then
        var row := s.tables.rows[r].(state := Submitted, tx := Some(tx), contract := Some(s.tables.openProposals[r]));
        s.(tables := SetRow(s.tables, r, row).(openProposals := s.tables.openProposals - {r}))
      else s
    case ProposalRejected(r) =>
      if Unlocked(s, r) && r in s.tables.openProposals
      then
        s.(tables := SetRow(s.tables, r,
          s.tables.rows[r].(state := Failed)).(openProposals := s.tables.openProposals - {r}))
      else s
    case _ => s
  }

  ghost function NextTrack(cfg: Config, s: State, e: Event): State {
    match e
    case Claim(r) =>
      if Unlocked(s, r) && Traced(s.tables.rows[r].state) then
        if s.tables.rows[r].tx.None? then Put(s, r, s.tables.rows[r].(state := Failed))
        else s.(tracking := s.tracking[r := Reading])
      else s
    case Observe(r, inMempool, head) =>
      if HasRow(s, r) && r in s.tracking && s.tables.rows[r].tx.Some? then
        var seen := SeenOn(s.chain, s.tables.rows[r].tx.value, inMempool);
        match s.tracking[r]
        case HeadKnown(finalized) => s.(tracking := s.tracking[r := Judging(seen, head, Some(finalized), false)])
        case Reading =>
          if !cfg.usesFinality then s.(tracking := s.tracking[r := Judging(seen, head, None, false)])
          else if cfg.heads.FinalHeadFirst? then s
          else s.(tracking := s.tracking[r := if seen.SeenReceipt? then Observed(seen, head)
            else Judging(seen, head, None, false)])
        case _ => s
      else s
    case ReadFinality(r, finalized) =>
      if HasRow(s, r) && r in s.tracking && finalized < s.chain.finalCount then
        match s.tracking[r]
        case Reading =>
          if cfg.usesFinality && cfg.heads.FinalHeadFirst?
            then s.(tracking := s.tracking[r := HeadKnown(finalized)]) else s
        case Observed(seen, head) =>
          if seen.SeenReceipt? && !(seen.receipt.mined.success && StoredNothing(cfg, s.tables.rows[r], seen))
          then s.(tracking := s.tracking[r := Judging(seen, head, Some(finalized),
                 seen.receipt.height <= finalized && NotFinal(s.chain, seen.receipt))])
          else s
        case _ => s
      else s
    case Follow(r, tx) =>
      // Another transaction stored the batch: follow that one, on the contract asked.
      if HasRow(s, r) && r in s.tracking && HasSeen(s.tracking[r]) && Some(tx) != s.tables.rows[r].tx
         && StoredNothing(cfg, s.tables.rows[r], s.tracking[r].seen)
      then Unlock(Put(s, r, Following(s.tables.rows[r], tx, TrackedContract(cfg, s.tables.rows[r]))), r) else s
    case NoRoot(r) =>
      if HasRow(s, r) && r in s.tracking && HasSeen(s.tracking[r])
         && StoredNothing(cfg, s.tables.rows[r], s.tracking[r].seen) && s.tracking[r].seen.receipt.mined.success
      then Unlock(Put(s, r, s.tables.rows[r].(state := ReconciliationRequired, judged := None)), r) else s
    case Commit(r, elapsedMs) =>
      if HasRow(s, r) && r in s.tracking && s.tracking[r].Judging?
         && !(StoredNothing(cfg, s.tables.rows[r], s.tracking[r].seen) && s.tracking[r].seen.receipt.mined.success) then
        var row := s.tables.rows[r];
        var result := TrackTransaction(InputOf(cfg, row, s.tracking[r], elapsedMs));
        Unlock(s.(tables := WriteResult(s.tables, r, row, s.tracking[r], result)), r)
      else s
    case GiveUpSearch(r) =>
      if HasRow(s, r) && r in s.tracking && HasSeen(s.tracking[r])
      then Unlock(Put(s, r, s.tables.rows[r].(state := ReconciliationRequired, judged := None)), r) else s
    case _ => s
  }

  ghost function Next(cfg: Config, s: State, e: Event): State {
    match e
    case ChainTo(chain) =>
      if ValidChain(chain) && Extends(s.chain, chain) then s.(chain := chain) else s
    case RowArrives(r, batch) =>
      if r in s.tables.rows || r in s.tables.openProposals || r in s.tracking then s
      else Put(s, r, Row(Created, batch, None, None, None, None, None))
    case Release(r) => Unlock(s, r)
    case Resubmit(r) =>
      if Unlocked(s, r) && Movable(s.tables.rows[r].state) then Put(s, r, Reset(s.tables.rows[r])) else s
    case AdoptFromMove(r, tx, contract) =>
      if Unlocked(s, r) && Movable(s.tables.rows[r].state)
      then Put(s, r, Following(s.tables.rows[r], tx,
             if s.tables.rows[r].tx == Some(tx) && s.tables.rows[r].contract.Some?
               then s.tables.rows[r].contract.value else contract))
      else s
    case Leave(r) =>
      if Unlocked(s, r) && Movable(s.tables.rows[r].state) && r !in s.tables.openProposals
      then s.(tables := s.tables.(rows := s.tables.rows - {r})) else s
    case _ => if Submits(e) then NextSubmit(cfg, s, e) else NextTrack(cfg, s, e)
  }

  predicate Submits(e: Event) {
    e.Sent? || e.SubmitFails? || e.Propose? || e.ProposalExecuted? || e.ProposalRejected?
  }

  function Init(chain: Chain): State {
    State(chain, Tables(map[], map[], []), map[])
  }

  ghost function StepOf(cfg: Config): (State, Event) -> State {
    (s, e) => Next(cfg, s, e)
  }

  ghost function Run(cfg: Config, s: State, events: seq<Event>): State {
    Runs.Run(StepOf(cfg), s, events)
  }

  // ---- what every reachable state satisfies ----

  // Rows before inclusion hold no block; included and confirmed rows hold one.
  predicate BlockShape(row: Row) {
    && (row.state.Created? || row.state.Proposed? || row.state.Submitted? ==>
          row.blockHash.None? && row.blockNumber.None?)
    && (row.state.Included? || row.state.Confirmed? ==> row.blockHash.Some? && row.blockNumber.Some?)
    && (row.blockHash.Some? <==> row.blockNumber.Some?)
  }

  // A confirmed row carries the receipt that confirmed it.
  predicate ConfirmedByReceipt(cfg: Config, row: Row) {
    row.state.Confirmed? ==>
      && row.judged.Some? && row.tx.Some?
      && var j := row.judged.value;
      && j.receipt.mined.tx == row.tx.value && j.receipt.mined.success
      && row.blockHash == Some(j.receipt.blockHash) && row.blockNumber == Some(j.receipt.height)
      && (row.batch.Some? ==> StoredRoot(j.receipt.mined, TrackedContract(cfg, row), row.batch.value))
      && ConfirmationsOf(j.receipt.height, j.head) >= cfg.confirmationDepth
      && (cfg.usesFinality ==> j.finalized.Some? && j.receipt.height <= j.finalized.value)
  }

  predicate SeenOf(row: Row, seen: Seen) {
    seen.SeenReceipt? ==> row.tx == Some(seen.receipt.mined.tx)
  }

  ghost predicate PhaseOk(cfg: Config, s: State, row: Row, p: TrackPhase) {
    Traced(row.state) && row.tx.Some?
    && match p
       case Reading => true
       case HeadKnown(finalized) => finalized < s.chain.finalCount
       case Observed(seen, head) => seen.SeenReceipt? && cfg.usesFinality && SeenOf(row, seen)
       case Judging(seen, head, finalized, raced) =>
         && SeenOf(row, seen)
         && (cfg.usesFinality && seen.SeenReceipt? ==>
               && finalized.Some?
               && (raced || (seen.receipt.height <= finalized.value ==> !NotFinal(s.chain, seen.receipt))))
  }

  ghost predicate RowOk(cfg: Config, s: State, row: Row) {
    && BlockShape(row)
    && ConfirmedByReceipt(cfg, row)
    && (cfg.usesFinality && row.state.Confirmed? ==>
          row.judged.value.raced || !NotFinal(s.chain, row.judged.value.receipt))
  }

  ghost predicate Inv(cfg: Config, s: State) {
    && ValidChain(s.chain)
    && (forall r <- s.tables.rows :: RowOk(cfg, s, s.tables.rows[r]))
    && (forall r <- s.tables.openProposals :: r in s.tables.rows && s.tables.rows[r].state.Proposed?)
    && (forall r <- s.tracking :: r in s.tables.rows && PhaseOk(cfg, s, s.tables.rows[r], s.tracking[r]))
  }

  // A step that replaces one row (which nobody tracks afterwards) and closes no one else's proposal.
  lemma RowStep(cfg: Config, s: State, t: State, r: RowId)
    requires Inv(cfg, s) && t.chain == s.chain
    requires r in t.tables.rows && t.tables.rows == s.tables.rows[r := t.tables.rows[r]]
    requires RowOk(cfg, s, t.tables.rows[r])
    requires forall q <- t.tracking :: q in s.tracking && t.tracking[q] == s.tracking[q] && q != r
    requires forall q <- t.tables.openProposals :: q == r || q in s.tables.openProposals
    requires r in t.tables.openProposals ==> t.tables.rows[r].state.Proposed?
    ensures Inv(cfg, t)
  {
  }

  lemma SubmitKeeps(cfg: Config, s: State, e: Event)
    requires Inv(cfg, s) && Submits(e)
    ensures Inv(cfg, NextSubmit(cfg, s, e))
  {
    var t := NextSubmit(cfg, s, e);
    if t != s { RowStep(cfg, s, t, e.row); }
  }

  lemma WritesOneRow(t: Tables, r: RowId, row: Row, p: TrackPhase, result: TrackResult)
    requires p.Judging? && r in t.rows && t.rows[r] == row
    ensures
      var u := WriteResult(t, r, row, p, result);
      r in u.rows && u.rows == t.rows[r := u.rows[r]] && u.openProposals == t.openProposals
  {
  }

  // Writing trackTransaction's result, when nothing forbids it.
  lemma CommitKeepsRow(cfg: Config, s: State, r: RowId, elapsedMs: nat)
    requires Inv(cfg, s) && r in s.tracking && s.tracking[r].Judging?
    requires !(StoredNothing(cfg, s.tables.rows[r], s.tracking[r].seen) && s.tracking[r].seen.receipt.mined.success)
    ensures
      var row := s.tables.rows[r];
      var result := TrackTransaction(InputOf(cfg, row, s.tracking[r], elapsedMs));
      var t := WriteResult(s.tables, r, row, s.tracking[r], result);
      r in t.rows && RowOk(cfg, s, t.rows[r])
  {
    assert PhaseOk(cfg, s, s.tables.rows[r], s.tracking[r]);
    assert RowOk(cfg, s, s.tables.rows[r]);
  }

  lemma ClaimKeeps(cfg: Config, s: State, r: RowId)
    requires Inv(cfg, s)
    ensures Inv(cfg, NextTrack(cfg, s, Claim(r)))
  {
    var t := NextTrack(cfg, s, Claim(r));
    if t.tables != s.tables { RowStep(cfg, s, t, r); }
  }

  // A tracking step that moves only its own worker on.
  lemma PhaseStep(cfg: Config, s: State, r: RowId, p: TrackPhase)
    requires Inv(cfg, s) && r in s.tables.rows && PhaseOk(cfg, s, s.tables.rows[r], p)
    ensures Inv(cfg, s.(tracking := s.tracking[r := p]))
  {
    var t := s.(tracking := s.tracking[r := p]);
    forall q | q in t.tables.rows ensures RowOk(cfg, t, t.tables.rows[q]) { assert RowOk(cfg, s, s.tables.rows[q]); }
    forall q | q in t.tracking ensures q in t.tables.rows && PhaseOk(cfg, t, t.tables.rows[q], t.tracking[q]) {
      if q != r { assert PhaseOk(cfg, s, s.tables.rows[q], s.tracking[q]); }
    }
  }

  // A receipt read after a final head that is at or above its block.
  lemma SeenBelowHead(c: Chain, tx: Tx, inMempool: bool, finalized: nat)
    requires ValidChain(c) && finalized < c.finalCount
    ensures var seen := SeenOn(c, tx, inMempool);
      seen.SeenReceipt? ==>
        seen.receipt.mined.tx == tx && (seen.receipt.height <= finalized ==> !NotFinal(c, seen.receipt))
  {
    var seen := SeenOn(c, tx, inMempool);
    if seen.SeenReceipt? && seen.receipt.height <= finalized { ReceiptBelowFinalHead(c, seen.receipt); }
  }

  lemma ObserveKeeps(cfg: Config, s: State, r: RowId, inMempool: bool, head: nat)
    requires Inv(cfg, s)
    ensures Inv(cfg, NextTrack(cfg, s, Observe(r, inMempool, head)))
  {
    var t := NextTrack(cfg, s, Observe(r, inMempool, head));
    if t != s {
      var row := s.tables.rows[r];
      assert PhaseOk(cfg, s, row, s.tracking[r]);
      if s.tracking[r].HeadKnown? { SeenBelowHead(s.chain, row.tx.value, inMempool, s.tracking[r].finalHead); }
      assert PhaseOk(cfg, s, row, t.tracking[r]);
      PhaseStep(cfg, s, r, t.tracking[r]);
    }
  }

  lemma CommitKeeps(cfg: Config, s: State, r: RowId, elapsedMs: nat)
    requires Inv(cfg, s)
    ensures Inv(cfg, NextTrack(cfg, s, Commit(r, elapsedMs)))
  {
    var t := NextTrack(cfg, s, Commit(r, elapsedMs));
    if t != s {
      CommitKeepsRow(cfg, s, r, elapsedMs);
      WritesOneRow(s.tables, r, s.tables.rows[r], s.tracking[r],
        TrackTransaction(InputOf(cfg, s.tables.rows[r], s.tracking[r], elapsedMs)));
      RowStep(cfg, s, t, r);
    }
  }

  // Steps that put a row where a person, or another transaction, decides.
  lemma HandOverKeeps(cfg: Config, s: State, e: Event)
    requires Inv(cfg, s) && (e.Follow? || e.NoRoot? || e.GiveUpSearch?)
    ensures Inv(cfg, NextTrack(cfg, s, e))
  {
    var t := NextTrack(cfg, s, e);
    if t != s {
      assert RowOk(cfg, s, s.tables.rows[e.row]);
      RowStep(cfg, s, t, e.row);
    }
  }

  lemma TrackKeeps(cfg: Config, s: State, e: Event)
    requires Inv(cfg, s)
    ensures Inv(cfg, NextTrack(cfg, s, e))
  {
    match e
    case Claim(r) => ClaimKeeps(cfg, s, r);
    case Observe(r, inMempool, head) => ObserveKeeps(cfg, s, r, inMempool, head);
    case ReadFinality(r, finalized) => FinalityKeeps(cfg, s, r, finalized);
    case Commit(r, elapsedMs) => CommitKeeps(cfg, s, r, elapsedMs);
    case _ => if e.Follow? || e.NoRoot? || e.GiveUpSearch? { HandOverKeeps(cfg, s, e); }
  }

  lemma FinalityKeeps(cfg: Config, s: State, r: RowId, finalized: nat)
    requires Inv(cfg, s)
    ensures Inv(cfg, NextTrack(cfg, s, ReadFinality(r, finalized)))
  {
    var t := NextTrack(cfg, s, ReadFinality(r, finalized));
    if t != s {
      assert PhaseOk(cfg, s, s.tables.rows[r], s.tracking[r]);
      assert PhaseOk(cfg, s, s.tables.rows[r], t.tracking[r]);
      PhaseStep(cfg, s, r, t.tracking[r]);
    }
  }

  lemma ChainKeeps(cfg: Config, s: State, chain: Chain)
    requires Inv(cfg, s) && ValidChain(chain) && Extends(s.chain, chain)
    ensures Inv(cfg, s.(chain := chain))
  {
    var t := s.(chain := chain);
    forall receipt | !NotFinal(s.chain, receipt) ensures !NotFinal(chain, receipt) {
      FinalStays(s.chain, chain, receipt.mined);
    }
    forall r | r in t.tracking ensures PhaseOk(cfg, t, t.tables.rows[r], t.tracking[r]) {
      assert PhaseOk(cfg, s, s.tables.rows[r], s.tracking[r]);
    }
    forall r | r in t.tables.rows ensures RowOk(cfg, t, t.tables.rows[r]) {
      assert RowOk(cfg, s, s.tables.rows[r]);
    }
  }

  // Steps of the environment on one row.
  lemma RowEventKeeps(cfg: Config, s: State, e: Event)
    requires Inv(cfg, s) && (e.RowArrives? || e.Resubmit? || e.AdoptFromMove?)
    ensures Inv(cfg, Next(cfg, s, e))
  {
    if Next(cfg, s, e) != s { RowStep(cfg, s, Next(cfg, s, e), e.row); }
  }

  lemma StepKeeps(cfg: Config, s: State, e: Event)
    requires Inv(cfg, s)
    ensures Inv(cfg, Next(cfg, s, e))
  {
    match e
    case ChainTo(chain) => if ValidChain(chain) && Extends(s.chain, chain) { ChainKeeps(cfg, s, chain); }
    case Release(r) =>
    case Leave(r) =>
    case _ =>
      if e.RowArrives? || e.Resubmit? || e.AdoptFromMove? { RowEventKeeps(cfg, s, e); }
      else if Submits(e) { SubmitKeeps(cfg, s, e); }
      else { TrackKeeps(cfg, s, e); }
  }

  lemma {:induction false} RunKeeps(cfg: Config, s: State, events: seq<Event>)
    requires Inv(cfg, s)
    ensures Inv(cfg, Run(cfg, s, events))
    decreases |events|
  {
    if events != [] {
      StepKeeps(cfg, s, events[0]);
      RunKeeps(cfg, Next(cfg, s, events[0]), events[1..]);
    }
  }

  // ---- main results ----

  // In every reachable state, rows hold a block exactly where they should, and a confirmed row
  // was confirmed by a successful receipt of its own hash that carried its batch and root from the
  // contract recorded with the hash, deep enough and at or below the final head.
  lemma ConfirmationSafety(cfg: Config, chain: Chain, events: seq<Event>, r: RowId)
    requires ValidChain(chain)
    requires r in Run(cfg, Init(chain), events).tables.rows
    ensures
      var row := Run(cfg, Init(chain), events).tables.rows[r];
      BlockShape(row) && ConfirmedByReceipt(cfg, row)
  {
    RunKeeps(cfg, Init(chain), events);
    assert RowOk(cfg, Run(cfg, Init(chain), events), Run(cfg, Init(chain), events).tables.rows[r]);
  }

  // The row's transaction is mined on this chain, and only so that it stores the row's root.
  ghost predicate StoredFor(cfg: Config, row: Row, c: Chain)
    requires row.batch.Some?
  {
    && row.tx.Some? && IsMined(c, row.tx.value)
    && forall m <- Flat(c.blocks) :: m.tx == row.tx.value ==> StoredRoot(m, TrackedContract(cfg, row), row.batch.value)
  }

  // With a finality tag, and unless its finality read accepted a displaced receipt, a confirmed
  // batch is stored for good: on every chain that keeps the final prefix, the row's transaction
  // can only be mined as the receipt that stored the root.
  lemma ConfirmedIsForGood(cfg: Config, chain: Chain, events: seq<Event>, r: RowId, later: Chain)
    requires ValidChain(chain) && cfg.usesFinality
    requires
      var s := Run(cfg, Init(chain), events);
      && r in s.tables.rows && s.tables.rows[r].state.Confirmed? && s.tables.rows[r].batch.Some?
      && (s.tables.rows[r].judged.Some? ==> !s.tables.rows[r].judged.value.raced)
      && ValidChain(later) && Extends(s.chain, later)
    ensures StoredFor(cfg, Run(cfg, Init(chain), events).tables.rows[r], later)
  {
    RunKeeps(cfg, Init(chain), events);
    var s := Run(cfg, Init(chain), events);
    var row := s.tables.rows[r];
    assert RowOk(cfg, s, row);
    var mined := row.judged.value.receipt.mined;
    FinalStays(s.chain, later, mined);
    FinalIsMined(later, mined);
    forall m | m in Flat(later.blocks) && m.tx == row.tx.value ensures m == mined {
      FinalOutcome(s.chain, later, mined, m);
    }
  }

  // With the final head read first no finality read accepts a displaced receipt.
  ghost predicate NoRaces(s: State) {
    && (forall r <- s.tables.rows :: s.tables.rows[r].judged.Some? ==> !s.tables.rows[r].judged.value.raced)
    && (forall r <- s.tracking :: !s.tracking[r].Observed? && (s.tracking[r].Judging? ==> !s.tracking[r].raced))
  }

  lemma TrackNoRaces(cfg: Config, s: State, e: Event)
    requires NoRaces(s) && cfg.heads.FinalHeadFirst?
    ensures NoRaces(NextTrack(cfg, s, e))
  {
  }

  lemma StepNoRaces(cfg: Config, s: State, e: Event)
    requires NoRaces(s) && cfg.heads.FinalHeadFirst?
    ensures NoRaces(Next(cfg, s, e))
  {
    TrackNoRaces(cfg, s, e);
  }

  lemma {:induction false} RunNoRaces(cfg: Config, s: State, events: seq<Event>)
    requires NoRaces(s) && cfg.heads.FinalHeadFirst?
    ensures NoRaces(Run(cfg, s, events))
    decreases |events|
  {
    if events != [] {
      StepNoRaces(cfg, s, events[0]);
      RunNoRaces(cfg, Next(cfg, s, events[0]), events[1..]);
    }
  }

  // Every confirmed batch is stored on every chain that keeps the final prefix.
  ghost predicate ConfirmedStays(cfg: Config, s: State) {
    forall r, later :: r in s.tables.rows && s.tables.rows[r].state.Confirmed? && s.tables.rows[r].batch.Some?
      && ValidChain(later) && Extends(s.chain, later)
      ==> StoredFor(cfg, s.tables.rows[r], later)
  }

  lemma HeadFirstConfirmsForGood(cfg: Config, chain: Chain, events: seq<Event>)
    requires ValidChain(chain) && cfg.usesFinality && cfg.heads.FinalHeadFirst?
    ensures ConfirmedStays(cfg, Run(cfg, Init(chain), events))
  {
    var s := Run(cfg, Init(chain), events);
    RunNoRaces(cfg, Init(chain), events);
    forall r, later | r in s.tables.rows && s.tables.rows[r].state.Confirmed? && s.tables.rows[r].batch.Some?
      && ValidChain(later) && Extends(s.chain, later)
      ensures StoredFor(cfg, s.tables.rows[r], later)
    {
      ConfirmedIsForGood(cfg, chain, events, r, later);
    }
  }

  // ---- what a written result does to its row ----

  // The result of a tracking step may be written: it is judged, and no successful receipt without the row's root.
  predicate MayCommit(cfg: Config, s: State, r: RowId) {
    && r in s.tables.rows && r in s.tracking && s.tracking[r].Judging?
    && !(StoredNothing(cfg, s.tables.rows[r], s.tracking[r].seen) && s.tracking[r].seen.receipt.mined.success)
  }

  // The receipt that was seen confirms the row: it stored the root, deep enough and at or below the final head.
  predicate Confirms(cfg: Config, row: Row, p: TrackPhase)
    requires p.Judging?
  {
    && p.seen.SeenReceipt? && p.seen.receipt.mined.success
    && (row.batch.Some? ==> StoredRoot(p.seen.receipt.mined, TrackedContract(cfg, row), row.batch.value))
    && ConfirmationsOf(p.seen.receipt.height, p.head) >= cfg.confirmationDepth
    && (p.finalized.Some? ==> p.seen.receipt.height <= p.finalized.value)
  }

  // In every reachable state, writing the result confirms the row exactly if what was seen confirms it, takes it off
  // its block exactly if it was on one and no receipt was seen (a pending transaction back to submitted, an unknown
  // one to a person), and gives it up for lost exactly if it was on none, unknown, and past the timeout.
  lemma CommitFollowsTheChain(cfg: Config, chain: Chain, events: seq<Event>, r: RowId, elapsedMs: nat)
    requires ValidChain(chain) && MayCommit(cfg, Run(cfg, Init(chain), events), r)
    ensures
      var s := Run(cfg, Init(chain), events);
      var t := Next(cfg, s, Commit(r, elapsedMs));
      && r in t.tables.rows && r !in t.tracking
      && var was, now, p := s.tables.rows[r], t.tables.rows[r], s.tracking[r];
      && (now.state.Confirmed? <==> Confirms(cfg, was, p))
      && (now.state.Included? <==> p.seen.SeenReceipt? && p.seen.receipt.mined.success && !Confirms(cfg, was, p))
      && (now.state.Reverted? <==> p.seen.SeenReceipt? && !p.seen.receipt.mined.success)
      && (now.state.Dropped? <==> was.state.Submitted? && p.seen.SeenUnknown? && elapsedMs >= cfg.dropTimeoutMs)
      && (now.state.ReconciliationRequired? <==> OnBlock(was.state) && p.seen.SeenUnknown?)
      && (OnBlock(was.state) && p.seen.SeenPending? ==> now.state.Submitted?)
      && (p.seen.SeenReceipt? ==> now.blockHash == Some(p.seen.receipt.blockHash))
      && (!p.seen.SeenReceipt? ==> now.blockHash.None?)
      && now.tx == was.tx && now.contract == was.contract && now.batch == was.batch
  {
    var s := Run(cfg, Init(chain), events);
    RunKeeps(cfg, Init(chain), events);
    assert PhaseOk(cfg, s, s.tables.rows[r], s.tracking[r]);
    assert RowOk(cfg, s, s.tables.rows[r]);
    CommitWrites(cfg, s, r, elapsedMs);
  }

  lemma CommitWrites(cfg: Config, s: State, r: RowId, elapsedMs: nat)
    requires MayCommit(cfg, s, r)
    ensures
      var result := TrackTransaction(InputOf(cfg, s.tables.rows[r], s.tracking[r], elapsedMs));
      var t := Next(cfg, s, Commit(r, elapsedMs));
      && r in t.tables.rows && r !in t.tracking
      && t.tables.rows[r].state == result.nextState && t.tables.rows[r].blockHash == result.blockHash
      && t.tables.rows[r].tx == s.tables.rows[r].tx && t.tables.rows[r].contract == s.tables.rows[r].contract
      && t.tables.rows[r].batch == s.tables.rows[r].batch
  {
  }

  // Which transaction a row comes to follow, and where: a send and a proposal go to the configured contract, and an
  // executed proposal is followed on the contract it was made for, whatever is configured by then. A rejected one, like
  // a send that failed, leaves nothing to follow.
  lemma FollowsWhereItWasSent(cfg: Config, s: State, e: Event)
    requires Submits(e) && Next(cfg, s, e) != s
    ensures
      var t := Next(cfg, s, e);
      && e.row in s.tables.rows && e.row in t.tables.rows && t.tracking == s.tracking
      && var was, now := s.tables.rows[e.row], t.tables.rows[e.row];
      && now.batch == was.batch && now.blockHash == was.blockHash
      && (e.Sent? ==> now.state.Submitted? && now.tx == Some(e.tx) && now.contract == Some(cfg.contract))
      && (e.Propose? ==>
            now.state.Proposed? && now.tx == was.tx
            && t.tables.openProposals == s.tables.openProposals[e.row := cfg.contract])
      && (e.ProposalExecuted? ==>
            && e.row in s.tables.openProposals
            && now.state.Submitted? && now.tx == Some(e.tx) && now.contract == Some(s.tables.openProposals[e.row]))
      && (e.ProposalRejected? || e.SubmitFails? ==> Movable(now.state) && now.tx == was.tx)
      && (e.ProposalExecuted? || e.ProposalRejected? ==>
            t.tables.openProposals == s.tables.openProposals - {e.row})
  {
  }

  // A row in flight is tracked under its lock, and one without a hash to follow has failed.
  lemma ClaimsToTrack(cfg: Config, s: State, r: RowId)
    requires Unlocked(s, r) && Traced(s.tables.rows[r].state)
    ensures
      var t := Next(cfg, s, Claim(r));
      && r in t.tables.rows
      && (s.tables.rows[r].tx.Some? ==> t.tables == s.tables && t.tracking == s.tracking[r := Reading])
      && (s.tables.rows[r].tx.None? ==>
            t.tracking == s.tracking && t.tables.rows[r] == s.tables.rows[r].(state := Failed))
  {
  }

  // A row that stops following its transaction: because another one stored the batch, which it then follows on the
  // same contract, on no block yet; or to a person, with its hash, contract and block kept for them.
  lemma HandsOver(cfg: Config, s: State, e: Event)
    requires (e.Follow? || e.NoRoot? || e.GiveUpSearch?) && Next(cfg, s, e) != s
    ensures
      var t := Next(cfg, s, e);
      && e.row in s.tables.rows && e.row in t.tables.rows && e.row !in t.tracking
      && var was, now := s.tables.rows[e.row], t.tables.rows[e.row];
      && TrackedContract(cfg, now) == TrackedContract(cfg, was) && now.batch == was.batch && now.judged.None?
      && (e.Follow? ==> now.state.Submitted? && now.tx == Some(e.tx) && now.tx != was.tx && now.blockHash.None?)
      && (!e.Follow? ==> now.state.ReconciliationRequired? && now.tx == was.tx && now.blockHash == was.blockHash)
      && (e.Follow? || e.NoRoot? ==> StoredNothing(cfg, was, s.tracking[e.row].seen))
  {
  }

  // ---- the log of displaced blocks ----

  // The step takes the row off its block: onto another one, onto none, or away.
  predicate TakenOff(s: State, t: State, r: RowId) {
    && r in s.tables.rows && s.tables.rows[r].blockHash.Some?
    && (r in t.tables.rows ==> t.tables.rows[r].blockHash != s.tables.rows[r].blockHash)
  }

  function EntryOf(r: RowId, row: Row): ReorgEvent
    requires row.blockNumber.Some? && row.blockHash.Some?
  {
    ReorgEvent(r, row.blockNumber.value, row.blockHash.value, row.state)
  }

  predicate SeesRevert(s: State, r: RowId) {
    r in s.tracking && s.tracking[r].Judging? && s.tracking[r].seen.SeenReceipt?
      && !s.tracking[r].seen.receipt.mined.success
  }

  lemma CommitLogs(cfg: Config, s: State, r: RowId, e: Event)
    requires Inv(cfg, s) && e.Commit? && TakenOff(s, NextTrack(cfg, s, e), r)
    ensures e.row == r && s.tables.rows[r].blockNumber.Some?
    ensures NextTrack(cfg, s, e).tables.reorgEvents == s.tables.reorgEvents
      + if SeesRevert(s, r) then [] else [EntryOf(r, s.tables.rows[r])]
  {
    assert RowOk(cfg, s, s.tables.rows[r]);
  }

  lemma OthersLogNothing(cfg: Config, s: State, e: Event)
    requires !e.Commit?
    ensures Next(cfg, s, e).tables.reorgEvents == s.tables.reorgEvents
  {
  }

  lemma StepLogs(cfg: Config, s: State, r: RowId, e: Event)
    requires Inv(cfg, s) && TakenOff(s, Next(cfg, s, e), r)
    ensures s.tables.rows[r].blockNumber.Some?
    ensures Next(cfg, s, e).tables.reorgEvents == s.tables.reorgEvents
      + if e.Commit? && e.row == r && !SeesRevert(s, r) then [EntryOf(r, s.tables.rows[r])] else []
  {
    if e.Commit? {
      assert Next(cfg, s, e) == NextTrack(cfg, s, e);
      CommitLogs(cfg, s, r, e);
    } else {
      OthersLogNothing(cfg, s, e);
      assert RowOk(cfg, s, s.tables.rows[r]);
    }
  }

  // The log is only ever added to.
  lemma {:induction false} LogOnlyGrows(cfg: Config, s: State, events: seq<Event>)
    ensures s.tables.reorgEvents <= Run(cfg, s, events).tables.reorgEvents
    decreases |events|
  {
    if events != [] {
      var t := Next(cfg, s, events[0]);
      assert s.tables.reorgEvents <= t.tables.reorgEvents;
      LogOnlyGrows(cfg, t, events[1..]);
    }
  }

  // The block a step takes a row off is logged exactly if the step writes trackTransaction's result for anything
  // but a reverted receipt, and what is logged is kept. Every other way off a block leaves no entry.
  lemma TakenOffIsLoggedExactly(cfg: Config, chain: Chain, events: seq<Event>, r: RowId, e: Event, more: seq<Event>)
    requires ValidChain(chain)
    requires var s := Run(cfg, Init(chain), events); TakenOff(s, Next(cfg, s, e), r)
    ensures
      var s := Run(cfg, Init(chain), events);
      var t := Next(cfg, s, e);
      && s.tables.rows[r].blockNumber.Some?
      && var logged := t.tables.reorgEvents == s.tables.reorgEvents + [EntryOf(r, s.tables.rows[r])];
      && (logged <==> e.Commit? && e.row == r && !SeesRevert(s, r))
      && (logged ==> EntryOf(r, s.tables.rows[r]) in Run(cfg, t, more).tables.reorgEvents)
      && (!logged ==> t.tables.reorgEvents == s.tables.reorgEvents)
  {
    var s := Run(cfg, Init(chain), events);
    RunKeeps(cfg, Init(chain), events);
    StepLogs(cfg, s, r, e);
    var t := Next(cfg, s, e);
    LogOnlyGrows(cfg, t, more);
    if |t.tables.reorgEvents| > |s.tables.reorgEvents| {
      assert Run(cfg, t, more).tables.reorgEvents[|s.tables.reorgEvents|] == EntryOf(r, s.tables.rows[r]);
    }
  }
}
