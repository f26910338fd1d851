// The anchor workers of one chain as a transition system: one event per RPC read, SQL statement
// or commit, so the events of several workers interleave anywhere, and a crash or a new chain can
// fall between any two of them.
module AnchorRuns {
  import opened Wrappers
  import opened Chain
  import opened AnchorState
  import opened Ledger
  import Runs

  // How the two totals of the daily cap are read. The code issues the spent total first and the
  // in-flight total second, as two READ COMMITTED statements.
  datatype ReadOrder = SpentThenInFlight | InFlightThenSpent | OneSnapshot

  datatype Config = Config(
    guard: GuardConfig,
    wallet: Address,
    contract: Contract,
    workers: nat,
    order: ReadOrder,
    heads: HeadOrder)

  // Waiting is `created`; Stuck is any state a move is made from; Active is every other state.
  datatype RowStatus = Waiting | Active | Stuck

  // A row belongs to one batch, so the row's id stands for the batch id too.
  datatype Row = Row(
    status: RowStatus,
    version: nat,
    attempts: nat,
    tx: Option<Tx>,
    contract: Option<Contract>,
    moveRequested: bool,
    openProposal: bool,
    executions: set<Tx>)

  datatype SubmitStep =
    | Claimed
    | Locked
    | HalfSpent(spent: nat)
    | HalfInFlight(inFlight: nat)
    | Totals(spent: nat, inFlight: nat)
    | Priced(spent: nat, inFlight: nat, fee: nat, l1: nat)
    | Reconciled(spent: nat, inFlight: nat, fee: nat, l1: nat)
    | Admitted(send: Send)
    | Reserved(send: Send)
    | Answered(send: Send, accepted: bool)

  datatype SettlePass = SettlePass(depth: Option<nat>, nonces: map<Address, nat>, todo: seq<Tx>)

  datatype SettleStep =
    | Picking
    | NonceKnown(takenBelow: Option<nat>)
    | Observed(takenBelow: Option<nat>, receipt: Option<Receipt>)

  datatype MoveRequest = MoveRequest(row: RowId, was: Row, tracked: seq<Tx>)

  datatype MoveStep =
    | CheckingSigner
    | Observing(done: nat, landed: set<Contract>, unknown: bool, finalCount: Option<nat>)
    | AwaitFinality(done: nat, landed: set<Contract>, unknown: bool, receipt: Receipt)
    | Asking(landed: set<Contract>, unknown: bool, contracts: seq<Contract>, asked: nat, answered: nat)
    | Decided(found: Option<Contract>, unknown: bool)

  datatype Phase =
    | Idle
    | Submitting(row: RowId, submit: SubmitStep)
    | Settling(pass: SettlePass, settle: SettleStep)
    | Tracking(row: RowId, seen: Option<Option<Receipt>>)
    // `raced`: this move accepted a receipt whose outcome was in no final block. No variable of the code says so.
    | Moving(request: MoveRequest, move: MoveStep, raced: bool)

  // A row that left for another chain, with every hash recorded for it here.
  datatype Moved = Moved(row: RowId, hashes: set<Tx>, raced: bool)

  datatype State = State(
    world: World,
    day: nat,
    rows: map<RowId, Row>,
    workers: seq<Phase>,
    moves: seq<Moved>)

  datatype EnvEvent =
    | ChainTo(chain: Chain)
    | Midnight
    | RowArrives(row: RowId)
    | Resubmit(row: RowId)
    | RequestMove(row: RowId)
    | RowChanges(row: RowId, now: Row)

  datatype SubmitEvent =
    | Claim(row: RowId)
    | TakeLock
    | ReadSpent(asOf: nat)
    | ReadInFlight
    | ReadBoth(asOf: nat)
    | Quote(fee: nat, l1: nat)
    | NotOnChain
    | OnChain(now: Row)
    | GiveUpSearch
    | Sign(nonce: nat, payload: nat)
    | Fails(counted: bool)
    | Reserve
    | Broadcast(reached: bool, accepted: bool)
    | Finish

  datatype SettleEvent =
    | StartPass(todo: seq<Tx>, depth: Option<nat>)
    | ReadNonce(answered: bool)
    | LookUp(answered: bool)
    | Record(asOf: nat)

  datatype TrackEvent =
    | TrackClaim(row: RowId)
    | Observe
    | TrackCommit(now: Row, asOf: nat)

  datatype MoveEvent =
    | ReadRequest(row: RowId, tracked: seq<Tx>)
    | CheckSigner(pending: bool)
    | ObserveHash
    | ReadFinality(finalCount: nat)
    | Collect(contracts: seq<Contract>)
    | Ask(hasCode: bool)
    | Conclude
    | Apply(now: Row)
    | Wait

  datatype Event =
    | Environment(env: EnvEvent)
    | Crash(worker: nat)
    | Submit(worker: nat, submit: SubmitEvent)
    | Settle(worker: nat, settle: SettleEvent)
    | Track(worker: nat, track: TrackEvent)
    | Move(worker: nat, move: MoveEvent)

  // ---- locks ----

  predicate HoldsRow(p: Phase, row: RowId) {
    (p.Submitting? || p.Tracking?) && p.row == row
  }

  // The advisory lock of the chain's spend check.
  predicate HoldsLock(p: Phase) {
    p.Submitting? && !p.submit.Claimed?
  }

  predicate RowHeld(s: State, row: RowId) {
    exists w :: 0 <= w < |s.workers| && HoldsRow(s.workers[w], row)
  }

  predicate LockHeld(s: State) {
    exists w :: 0 <= w < |s.workers| && HoldsLock(s.workers[w])
  }

  // ---- transitions ----

  function Init(chain: Chain, cfg: Config): State {
    State(World(chain, [], [], {}), 0, map[], seq(cfg.workers, _ => Idle), [])
  }

  function Goto(s: State, w: nat, p: Phase): State
    requires w < |s.workers|
  {
    s.(workers := s.workers[w := p])
  }

  // A later version of a row, changed by whoever held it; only a resubmission makes it wait again, and only a send
  // counts as an attempt.
  predicate RowUpdate(was: Row, now: Row) {
    now.version == was.version + 1 && now.status != Waiting && now.attempts == was.attempts
  }

  ghost function NextEnv(cfg: Config, s: State, e: EnvEvent): State {
    match e
    case ChainTo(chain) =>
      if Extends(s.world.chain, chain) && ChainAgrees(s.world, cfg.wallet, chain)
      then s.(world := s.world.(chain := chain)) else s
    case Midnight => s.(day := s.day + 1)
    case RowArrives(r) =>
      if r in s.rows then s
      else s.(rows := s.rows[r := Row(Waiting, 0, 0, None, None, false, false, {})])
    case Resubmit(r) =>
      if r in s.rows && s.rows[r].status == Stuck && !RowHeld(s, r)
      then s.(rows := s.rows[r := s.rows[r].(status := Waiting, version := s.rows[r].version + 1, attempts := 0,
                                             tx := None, contract := None, moveRequested := false)])
      else s
    case RequestMove(r) =>
      if r in s.rows && s.rows[r].status == Stuck && !RowHeld(s, r)
      then s.(rows := s.rows[r := s.rows[r].(moveRequested := true, version := s.rows[r].version + 1)])
      else s
    case RowChanges(r, now) =>
      if r in s.rows && s.rows[r].status != Waiting && !RowHeld(s, r) && RowUpdate(s.rows[r], now)
      then s.(rows := s.rows[r := now]) else s
  }

  // Ends a submit step that did not put the row on chain.
  function GiveUp(s: State, w: nat, row: RowId, attempts: nat, status: RowStatus): State
    requires w < |s.workers|
  {
    var t := Goto(s, w, Idle);
    if row in s.rows then
      t.(rows := s.rows[row := s.rows[row].(version := s.rows[row].version + 1, status := status,
                                           attempts := s.rows[row].attempts + attempts)])
    else t
  }

  // The attempt cap never clears on its own, so it ends the row; every other refusal waits.
  function Blocked(s: State, w: nat, row: RowId, guard: Guard): State
    requires w < |s.workers|
  {
    GiveUp(s, w, row, 0, if guard == Refuse(MaxAttemptsReached) then Stuck else Waiting)
  }

  // A failure counts as an attempt from the preparation of the send on: preparing it may fail counted, or reading the
  // earlier reservation uncounted, and recording it fails counted, be it that only the answer was lost.
  predicate CanFail(step: SubmitStep, counted: bool) {
    match step
    case Reconciled(_, _, _, _) => true
    case Admitted(_) => counted
    case Reserved(_) => counted
    case Answered(_, _) => false
    case _ => !counted
  }

  // A Safe proposal instead of a send.
  function Proposes(cfg: Config, s: State, w: nat, row: RowId): State
    requires w < |s.workers|
  {
    var t := Goto(s, w, Idle);
    if row in s.rows then
      t.(rows := s.rows[row := s.rows[row].(version := s.rows[row].version + 1, status := Active, openProposal := true,
                                           contract := Some(cfg.contract))])
    else t
  }

  function InputOf(s: State, row: RowId, spent: nat, inFlight: nat, fee: nat, l1: nat, retry: nat): GuardInput {
    GuardInput(fee, if row in s.rows then s.rows[row].attempts else 0, spent, inFlight, l1, retry)
  }

  ghost function NextSubmit(cfg: Config, s: State, w: nat, e: SubmitEvent): State
    requires w < |s.workers|
  {
    match (s.workers[w], e)
    case (Idle, Claim(r)) =>
      if r in s.rows && s.rows[r].status == Waiting && !RowHeld(s, r)
      then Goto(s, w, Submitting(r, Claimed)) else s
    case (Submitting(r, Claimed), TakeLock) =>
      if LockHeld(s) then s else Goto(s, w, Submitting(r, Locked))
    case (Submitting(r, Locked), ReadBoth(asOf)) =>
      if cfg.order.OneSnapshot? && asOf <= s.day
      then Goto(s, w, Submitting(r, Totals(SpentSince(s.world.gas, asOf), InFlight(s.world.sends, s.world.gas)))) else s
    case (Submitting(r, Locked), ReadSpent(asOf)) =>
      if cfg.order.SpentThenInFlight? && asOf <= s.day
      then Goto(s, w, Submitting(r, HalfSpent(SpentSince(s.world.gas, asOf)))) else s
    case (Submitting(r, HalfSpent(spent)), ReadInFlight) =>
      Goto(s, w, Submitting(r, Totals(spent, InFlight(s.world.sends, s.world.gas))))
    case (Submitting(r, Locked), ReadInFlight) =>
      if cfg.order.InFlightThenSpent?
      then Goto(s, w, Submitting(r, HalfInFlight(InFlight(s.world.sends, s.world.gas)))) else s
    case (Submitting(r, HalfInFlight(inFlight)), ReadSpent(asOf)) =>
      if asOf <= s.day then Goto(s, w, Submitting(r, Totals(SpentSince(s.world.gas, asOf), inFlight))) else s
    case (Submitting(r, Totals(spent, inFlight)), Quote(fee, l1)) =>
      var guard := CheckSubmitAllowed(cfg.guard, InputOf(s, r, spent, inFlight, fee, l1, 0), PreflightCheck);
      if guard.AllowEoa? then Goto(s, w, Submitting(r, Priced(spent, inFlight, fee, l1)))
      else if guard.AllowSafeProposal? then Proposes(cfg, s, w, r)
      else Blocked(s, w, r, guard)
    case (Submitting(r, Priced(spent, inFlight, fee, l1)), NotOnChain) =>
      if StoresBatch(s.world.chain, cfg.contract, r) then s
      else Goto(s, w, Submitting(r, Reconciled(spent, inFlight, fee, l1)))
    case (Submitting(r, Priced(spent, inFlight, fee, l1)), OnChain(now)) =>
      if StoresBatch(s.world.chain, cfg.contract, r) && r in s.rows && RowUpdate(s.rows[r], now)
      then Goto(s.(rows := s.rows[r := now]), w, Idle) else s
    case (Submitting(r, Priced(_, _, _, _)), GiveUpSearch) => GiveUp(s, w, r, 0, Stuck)
    case (Submitting(r, Reconciled(spent, inFlight, fee, l1)), Sign(nonce, payload)) =>
      var retry := if l1 > 0 then RetryReservation(s.world.sends, s.world.gas, r, cfg.wallet, nonce) else 0;
      var guard := CheckSubmitAllowed(cfg.guard, InputOf(s, r, spent, inFlight, fee, l1, retry), BroadcastCheck);
      if guard.AllowEoa?
      then
        var tx := Tx(cfg.wallet, nonce, cfg.guard.gasLimit, fee, payload);
        Goto(s, w, Submitting(r, Admitted(Send(tx, r, l1, None))))
      else Blocked(s, w, r, guard)
    case (Submitting(r, Admitted(send)), Reserve) =>
      Goto(s.(world := RecordSend(s.world, send)), w, Submitting(r, Reserved(send)))
    case (Submitting(r, Reserved(send)), Broadcast(reached, accepted)) =>
      Goto(if reached || accepted then s.(world := GiveToNetwork(s.world, send.tx)) else s, w,
           Submitting(r, Answered(send, accepted)))
    case (Submitting(r, Answered(send, accepted)), Finish) =>
      if accepted && r in s.rows
      then Goto(s.(rows := s.rows[r := s.rows[r].(status := Active, version := s.rows[r].version + 1,
                                                 attempts := s.rows[r].attempts + 1,
                                                 tx := Some(send.tx), contract := Some(cfg.contract))]), w, Idle)
      else GiveUp(s, w, r, 1, Waiting)
    case (Submitting(r, step), Fails(counted)) =>
      if CanFail(step, counted) then GiveUp(s, w, r, if counted then 1 else 0, Waiting) else s
    case _ => s
  }

  function OpenSends(s: State, todo: seq<Tx>): bool {
    forall tx <- todo ::
      exists i :: 0 <= i < |s.world.sends| && s.world.sends[i].tx == tx && s.world.sends[i].settled.None?
  }

  // settleSends: `depth` is how many blocks are both deep enough and at or below the finalized
  // head (None when that read failed), read before anything else of the pass.
  function NextSettle(cfg: Config, s: State, w: nat, e: SettleEvent): State
    requires w < |s.workers|
  {
    match (s.workers[w], e)
    case (Idle, StartPass(todo, depth)) =>
      if OpenSends(s, todo) && (depth.Some? ==> depth.value <= s.world.chain.finalCount)
      then Goto(s, w, if todo == [] then Idle else Settling(SettlePass(depth, map[], todo), Picking)) else s
    case (Settling(pass, Picking), ReadNonce(answered)) =>
      if pass.todo == [] then s
      else
        var signer := pass.todo[0].signer;
        if pass.depth.None? || pass.depth.value > |s.world.chain.blocks| then
          Goto(s, w, Settling(pass, NonceKnown(None)))
        else if signer in pass.nonces then
          Goto(s, w, Settling(pass, NonceKnown(Some(pass.nonces[signer]))))
        else if !answered then
          Goto(s, w, Settling(pass, NonceKnown(None)))
        else
          var taken := Count(Flat(s.world.chain.blocks[..pass.depth.value]), signer);
          Goto(s, w, Settling(pass.(nonces := pass.nonces[signer := taken]), NonceKnown(Some(taken))))
    case (Settling(pass, NonceKnown(taken)), LookUp(answered)) =>
      if pass.todo == [] then s
      else if answered then
        Goto(s, w, Settling(pass, Observed(taken, FindReceipt(s.world.chain.blocks, pass.todo[0]))))
      else NextSend(s, w, pass)
    case (Settling(pass, Observed(taken, receipt)), Record(asOf)) =>
      if pass.todo == [] || asOf > s.day then s
      else
        var tx := pass.todo[0];
        if receipt.Some? then
          NextSend(s.(world := SettleByReceipt(s.world,
            GasSpend(tx, RowOfSend(s.world.sends, tx), receipt.value.mined.Cost(), asOf))),
                   w, pass)
        else if taken.Some? && tx.nonce < taken.value then
          NextSend(s.(world := SettleByNonce(s.world, tx)), w, pass)
        else NextSend(s, w, pass)
    case _ => s
  }

  function NextSend(s: State, w: nat, pass: SettlePass): State
    requires w < |s.workers| && pass.todo != []
  {
    Goto(s, w, if |pass.todo| == 1 then Idle else Settling(pass.(todo := pass.todo[1..]), Picking))
  }

  function RowOfSend(sends: seq<Send>, tx: Tx): (row: RowId)
    ensures InLedger(sends, tx) ==> exists s :: s in sends && s.tx == tx && s.row == row
  {
    if sends == [] then 0
    else if sends[|sends| - 1].tx == tx then sends[|sends| - 1].row
    else RowOfSend(sends[..|sends| - 1], tx)
  }

  function NextTrack(cfg: Config, s: State, w: nat, e: TrackEvent): State
    requires w < |s.workers|
  {
    match (s.workers[w], e)
    case (Idle, TrackClaim(r)) =>
      if r in s.rows && s.rows[r].status == Active && s.rows[r].tx.Some? && !RowHeld(s, r)
      then Goto(s, w, Tracking(r, None)) else s
    case (Tracking(r, None), Observe) =>
      if r in s.rows && s.rows[r].tx.Some?
      then Goto(s, w, Tracking(r, Some(FindReceipt(s.world.chain.blocks, s.rows[r].tx.value)))) else s
    case (Tracking(r, Some(receipt)), TrackCommit(now, asOf)) =>
      if r in s.rows && RowUpdate(s.rows[r], now) && asOf <= s.day then
        var world := if receipt.None? then s.world
          else SettleByReceipt(s.world, GasSpend(receipt.value.mined.tx, r, receipt.value.mined.Cost(), asOf));
        Goto(s.(rows := s.rows[r := now], world := world), w, Idle)
      else s
    case _ => s
  }

  // ---- chain moves ----

  function SendsOf(sends: seq<Send>, row: RowId): set<Tx> {
    set s | s in sends && s.row == row :: s.tx
  }

  function GasOf(gas: seq<GasSpend>, row: RowId): set<Tx> {
    set g | g in gas && g.row == row :: g.tx
  }

  function RecordedTx(row: Row): set<Tx> {
    if row.tx.Some? then {row.tx.value} else {}
  }

  // Every hash of the row whose receipt the move must read back.
  function TrackedHashes(w: World, r: RowId, row: Row): set<Tx> {
    (set s | s in w.sends && s.row == r && s.settled == Some(ByReceipt) :: s.tx)
    + (set tx | tx in RecordedTx(row) && !ConsumedInLedger(w.sends, tx))
    + GasOf(w.gas, r)
    + row.executions
  }

  predicate HasOpenSend(w: World, r: RowId) {
    exists i :: 0 <= i < |w.sends| && w.sends[i].row == r && w.sends[i].settled.None?
  }

  // getBatch: whether the contract holds the batch on this chain.
  ghost predicate StoresBatch(c: Chain, contract: Contract, batch: BatchId) {
    exists m, sub :: m in Flat(c.blocks) && sub in m.submissions && sub.contract == contract && sub.batchId == batch
  }

  function Landing(m: Mined, batch: BatchId): set<Contract> {
    set sub | sub in m.submissions && sub.batchId == batch :: sub.contract
  }

  // A receipt judged against `finalCount` final and deep-enough blocks.
  function Judge(req: MoveRequest, done: nat, landed: set<Contract>, unknown: bool, receipt: Receipt, finalCount: nat,
                 raced: bool): Phase
  {
    if receipt.height >= finalCount then Idle
    else Moving(req, Observing(done + 1, landed + Landing(receipt.mined, req.row),
      unknown || (!receipt.mined.success && receipt.mined.tx in req.was.executions), Some(finalCount)), raced)
  }

  // The row as it was checked, still requested, with nothing of ours in flight or unchecked.
  predicate Unchanged(s: State, req: MoveRequest) {
    && req.row in s.rows && s.rows[req.row] == req.was && !RowHeld(s, req.row)
    && (forall i :: 0 <= i < |s.world.sends| && s.world.sends[i].row == req.row ==>
          && s.world.sends[i].settled.Some?
          && (s.world.sends[i].settled == Some(ByReceipt) ==> s.world.sends[i].tx in req.tracked))
    && GasOf(s.world.gas, req.row) <= (set tx | tx in req.tracked)
  }

  // The checks of a move: no row is locked, nothing shared changes. A node that has lost a transaction may
  // answer that the signer has none pending.
  ghost function MoveCheck(cfg: Config, s: State, p: Phase, e: MoveEvent): Phase {
    match (p, e)
    case (Idle, ReadRequest(r, tracked)) =>
      if && r in s.rows && s.rows[r].status == Stuck && s.rows[r].moveRequested && !s.rows[r].openProposal
         && !HasOpenSend(s.world, r)
         && (set tx | tx in tracked) == TrackedHashes(s.world, r, s.rows[r])
      then Moving(MoveRequest(r, s.rows[r], tracked), CheckingSigner, false) else p
    case (Moving(req, CheckingSigner, raced), CheckSigner(pending)) =>
      if pending then Idle else Moving(req, Observing(0, {}, false, None), raced)
    case (Moving(req, Observing(done, landed, unknown, finalCount), raced), ObserveHash) =>
      if done >= |req.tracked| || (cfg.heads.FinalHeadFirst? && finalCount.None?) then p
      else
        var receipt := FindReceipt(s.world.chain.blocks, req.tracked[done]);
        if receipt.None? then Moving(req, Observing(done + 1, landed, true, finalCount), raced)
        else if finalCount.None? then Moving(req, AwaitFinality(done, landed, unknown, receipt.value), raced)
        else Judge(req, done, landed, unknown, receipt.value, finalCount.value, raced)
    case (Moving(req, Observing(done, landed, unknown, finalCount), raced), ReadFinality(count)) =>
      if cfg.heads.ReceiptFirst? || finalCount.Some? || count > s.world.chain.finalCount then p
      else Moving(req, Observing(done, landed, unknown, Some(count)), raced)
    case (Moving(req, AwaitFinality(done, landed, unknown, receipt), raced), ReadFinality(finalCount)) =>
      if finalCount > s.world.chain.finalCount then p
      else Judge(req, done, landed, unknown, receipt, finalCount, raced || NotFinal(s.world.chain, receipt))
    case (Moving(req, Observing(done, landed, unknown, finalCount), raced), Collect(contracts)) =>
      if && done == |req.tracked|
         && landed <= (set c | c in contracts)
         && cfg.contract in contracts
         && (req.was.contract.Some? ==> req.was.contract.value in contracts)
      then Moving(req, Asking(landed, unknown, contracts, 0, 0), raced) else p
    case (Moving(req, Asking(landed, unknown, contracts, asked, answered), raced), Ask(hasCode)) =>
      if asked >= |contracts| then p
      else
        var c := contracts[asked];
        if StoresBatch(s.world.chain, c, req.row) then Moving(req, Decided(Some(c), unknown), raced)
        else if hasCode then Moving(req, Asking(landed, unknown, contracts, asked + 1, answered + 1), raced)
        else if c == cfg.contract || Some(c) == req.was.contract then Idle
        else Moving(req, Asking(landed, unknown, contracts, asked + 1, answered), raced)
    case (Moving(req, Asking(landed, unknown, contracts, asked, answered), raced), Conclude) =>
      if asked < |contracts| then p
      else if answered == 0 then Idle
      else Moving(req, Decided(None, unknown), raced)
    case (Moving(_, _, _), Wait) => Idle
    case _ => p
  }

  // The decision, in one transaction that locks the row and looks at it again.
  function ApplyMove(cfg: Config, s: State, w: nat, now: Row): State
    requires w < |s.workers|
  {
    match s.workers[w]
    case Moving(req, Decided(found, unknown), raced) =>
      if !Unchanged(s, req) then Goto(s, w, Idle)
      else if found.Some? || unknown then
        if RowUpdate(req.was, now) && !now.moveRequested then Goto(s.(rows := s.rows[req.row := now]), w, Idle) else s
      else
        Goto(s.(rows := s.rows - {req.row},
                moves := s.moves + [Moved(req.row, AllHashes(s.world, req), raced)]), w, Idle)
    case _ => s
  }

  ghost function NextMove(cfg: Config, s: State, w: nat, e: MoveEvent): State
    requires w < |s.workers|
  {
    if e.Apply? then ApplyMove(cfg, s, w, e.now)
    else Goto(s, w, MoveCheck(cfg, s, s.workers[w], e))
  }

  function AllHashes(w: World, req: MoveRequest): set<Tx> {
    SendsOf(w.sends, req.row) + GasOf(w.gas, req.row) + RecordedTx(req.was) + req.was.executions
  }

  ghost function Next(cfg: Config, s: State, e: Event): State
  {
    match e
    case Environment(env) => NextEnv(cfg, s, env)
    case Crash(w) => if w < |s.workers| then Goto(s, w, Idle) else s
    case Submit(w, a) => if w < |s.workers| then NextSubmit(cfg, s, w, a) else s
    case Settle(w, a) => if w < |s.workers| then NextSettle(cfg, s, w, a) else s
    case Track(w, a) => if w < |s.workers| then NextTrack(cfg, s, w, a) else s
    case Move(w, a) => if w < |s.workers| then NextMove(cfg, s, w, a) else s
  }

  ghost function StepOf(cfg: Config): (State, Event) -> State {
    (s, e) => Next(cfg, s, e)
  }

  ghost function Run(cfg: Config, s: State, events: seq<Event>): State {
    Runs.Run(StepOf(cfg), s, events)
  }
}
