// Pure decisions of the anchor worker: the pre-submission guard, its startup floor, and the
// transaction state transition.
module AnchorState {
  import opened Numbers
  import opened Wrappers

  const OPBNB_TESTNET_CHAIN_ID := 5611
  const LOCAL_CHAIN_ID := 31337

  datatype RefusalReason =
    | EoaNotAllowedOnChain
    | DailySpendCapReached
    | FeeAboveCap
    | MaxAttemptsReached
    | DailySpendCapTooLowForRetry

  datatype Guard = AllowEoa | AllowSafeProposal | Refuse(reason: RefusalReason)

  datatype GuardPhase = PreflightCheck | BroadcastCheck

  datatype GuardConfig = GuardConfig(
    chainId: int,
    eoaAllowedChainIds: seq<int>,
    safeConfigured: bool,
    feeCapWei: nat,
    maxAttempts: nat,
    dailySpendCapWei: nat,
    gasLimit: nat)

  // What one check reads: the quote, the two totals and the row's own numbers.
  datatype GuardInput = GuardInput(
    maxFeePerGas: nat,
    attempts: nat,
    spentTodayWei: nat,
    inFlightMaxWei: nat,
    l1FeeBoundWei: nat,
    retryReservationWei: nat)

  predicate EoaSubmissionAllowed(chainId: int, allowed: seq<int>) {
    chainId in [OPBNB_TESTNET_CHAIN_ID, LOCAL_CHAIN_ID] && chainId in allowed
  }

  // The most the ledger books for one send: signed gas ceiling plus quoted L1 data fee.
  function Reservation(gasLimit: nat, maxFeePerGas: nat, l1FeeBound: nat): nat {
    gasLimit * maxFeePerGas + l1FeeBound
  }

  // What is booked already, and one send with these bounds on top, fit under the daily cap.
  predicate Fits(config: GuardConfig, booked: nat, maxFeePerGas: nat, l1FeeBound: nat) {
    booked + Reservation(config.gasLimit, maxFeePerGas, l1FeeBound) <= config.dailySpendCapWei
  }

  // A send at the fee cap fits, and so does a second one on the same nonce, of which `held` is booked already.
  predicate FitsTwice(config: GuardConfig, booked: nat, l1FeeBound: nat, held: nat) {
    var one := Reservation(config.gasLimit, config.feeCapWei, l1FeeBound);
    booked + 2 * one - Min(one, held) <= config.dailySpendCapWei
  }

  // An EOA send is admitted exactly if the chain is allowed, the fee and the attempts are within their caps, and its
  // whole reservation fits under the daily cap, on a chain with an L1 fee with a replacement's besides. Where the
  // worker may not sign alone, a Safe takes over if there is one. The attempt cap is the reason only if nothing that
  // clears by itself stands in the way.
  function CheckSubmitAllowed(config: GuardConfig, input: GuardInput, phase: GuardPhase): (g: Guard)
    ensures
      var booked := input.spentTodayWei + input.inFlightMaxWei;
      g.AllowEoa? <==>
        && EoaSubmissionAllowed(config.chainId, config.eoaAllowedChainIds)
        && input.maxFeePerGas <= config.feeCapWei
        && input.attempts < config.maxAttempts
        && Fits(config, booked, input.maxFeePerGas, input.l1FeeBoundWei)
        && (phase.BroadcastCheck? && input.l1FeeBoundWei > 0 ==>
              FitsTwice(config, booked, input.l1FeeBoundWei, input.retryReservationWei))
    ensures g.AllowSafeProposal? <==>
      !EoaSubmissionAllowed(config.chainId, config.eoaAllowedChainIds) && config.safeConfigured
    ensures g == Refuse(MaxAttemptsReached) <==>
      && EoaSubmissionAllowed(config.chainId, config.eoaAllowedChainIds)
      && input.attempts >= config.maxAttempts && input.maxFeePerGas <= config.feeCapWei
      && Fits(config, input.spentTodayWei + input.inFlightMaxWei, input.maxFeePerGas, input.l1FeeBoundWei)
  {
    if !EoaSubmissionAllowed(config.chainId, config.eoaAllowedChainIds) then
      if config.safeConfigured then AllowSafeProposal else Refuse(EoaNotAllowedOnChain)
    else
      var feeCeiling := Min(input.maxFeePerGas, config.feeCapWei);
      var projected := input.spentTodayWei + input.inFlightMaxWei + config.gasLimit * feeCeiling + input.l1FeeBoundWei;
      if projected > config.dailySpendCapWei then Refuse(DailySpendCapReached)
      else if input.maxFeePerGas > config.feeCapWei then Refuse(FeeAboveCap)
      else if input.attempts >= config.maxAttempts then Refuse(MaxAttemptsReached)
      else
        var candidate := Reservation(config.gasLimit, config.feeCapWei, input.l1FeeBoundWei);
        var extra := Max(candidate - input.retryReservationWei, 0);
        if phase.BroadcastCheck? && input.l1FeeBoundWei > 0
           && input.spentTodayWei + input.inFlightMaxWei + candidate + extra > config.dailySpendCapWei
        then Refuse(DailySpendCapTooLowForRetry)
        else AllowEoa
  }

  predicate RefusedForDailyCap(g: Guard) {
    g == Refuse(DailySpendCapReached) || g == Refuse(DailySpendCapTooLowForRetry)
  }

  // The startup floor on the daily cap.
  predicate DailyCapAccepted(config: GuardConfig) {
    config.dailySpendCapWei > 0 && 2 * (config.gasLimit * config.feeCapWei) <= config.dailySpendCapWei
  }

  // The input of a replacement on the nonce of a first send that failed after it was reserved:
  // that reservation is now in flight, and is the one the retry slot is matched with.
  function ReplacementInput(config: GuardConfig, first: GuardInput, fee: nat, attempts: nat): GuardInput {
    var reserved := Reservation(config.gasLimit, first.maxFeePerGas, first.l1FeeBoundWei);
    first.(maxFeePerGas := fee, attempts := attempts,
           inFlightMaxWei := first.inFlightMaxWei + reserved,
           retryReservationWei := if first.l1FeeBoundWei > 0 then reserved else 0)
  }

  // Retry room on a chain with an L1 fee: the first send is admitted only with room for its own
  // replacement, at any fee up to the cap.
  lemma RetryRoomWithL1Fee(config: GuardConfig, first: GuardInput, fee: nat, attempts: nat, phase: GuardPhase)
    requires first.l1FeeBoundWei > 0 && first.retryReservationWei == 0
    requires CheckSubmitAllowed(config, first, BroadcastCheck).AllowEoa?
    requires fee <= config.feeCapWei
    ensures
      var g := CheckSubmitAllowed(config, ReplacementInput(config, first, fee, attempts), phase);
      && !RefusedForDailyCap(g)
      && (g.AllowEoa? <==> attempts < config.maxAttempts)
  {
    MulMonotone(config.gasLimit, fee, config.feeCapWei);
    MulMonotone(config.gasLimit, first.maxFeePerGas, config.feeCapWei);
  }

  // Retry room without one: the startup floor leaves it when nothing else is booked.
  lemma RetryRoomFromFloor(config: GuardConfig, first: GuardInput, fee: nat, attempts: nat, phase: GuardPhase)
    requires DailyCapAccepted(config)
    requires first.l1FeeBoundWei == 0 && first.spentTodayWei == 0 && first.inFlightMaxWei == 0
    requires first.maxFeePerGas <= config.feeCapWei && fee <= config.feeCapWei
    ensures !RefusedForDailyCap(CheckSubmitAllowed(config, first, phase))
    ensures !RefusedForDailyCap(CheckSubmitAllowed(config, ReplacementInput(config, first, fee, attempts), phase))
  {
    MulMonotone(config.gasLimit, fee, config.feeCapWei);
    MulMonotone(config.gasLimit, first.maxFeePerGas, config.feeCapWei);
  }

  // No first send of an empty ledger that is admitted leaves its replacement refused for the daily cap.
  ghost predicate LeavesRetryRoom(config: GuardConfig) {
    forall first: GuardInput, fee: nat, attempts: nat, phase: GuardPhase ::
      first.l1FeeBoundWei == 0 && first.spentTodayWei == 0 && first.inFlightMaxWei == 0 && fee <= config.feeCapWei
      && CheckSubmitAllowed(config, first, BroadcastCheck).AllowEoa?
      ==> !RefusedForDailyCap(CheckSubmitAllowed(config, ReplacementInput(config, first, fee, attempts), phase))
  }

  // The floor is exact: with a smaller cap, some admitted first send has its replacement refused.
  lemma FloorIsExact(config: GuardConfig)
    requires EoaSubmissionAllowed(config.chainId, config.eoaAllowedChainIds)
    requires config.maxAttempts > 0 && config.gasLimit > 0 && config.feeCapWei > 0 && config.dailySpendCapWei > 0
    ensures DailyCapAccepted(config) <==> LeavesRetryRoom(config)
  {
    if DailyCapAccepted(config) {
      forall first: GuardInput, fee: nat, attempts: nat, phase: GuardPhase |
        first.l1FeeBoundWei == 0 && first.spentTodayWei == 0 && first.inFlightMaxWei == 0 && fee <= config.feeCapWei
        && CheckSubmitAllowed(config, first, BroadcastCheck).AllowEoa?
        ensures !RefusedForDailyCap(CheckSubmitAllowed(config, ReplacementInput(config, first, fee, attempts), phase))
      {
        RetryRoomFromFloor(config, first, fee, attempts, phase);
      }
    } else {
      var first := HighestAdmitted(config);
      var second := ReplacementInput(config, first, config.feeCapWei, 0);
      assert RefusedForDailyCap(CheckSubmitAllowed(config, second, PreflightCheck));
    }
  }

  // A send that fits an empty ledger on its own is admitted.
  lemma AdmitsAlone(config: GuardConfig, fee: nat)
    requires EoaSubmissionAllowed(config.chainId, config.eoaAllowedChainIds) && config.maxAttempts > 0
    requires fee <= config.feeCapWei && config.gasLimit * fee <= config.dailySpendCapWei
    ensures CheckSubmitAllowed(config, GuardInput(fee, 0, 0, 0, 0, 0), BroadcastCheck).AllowEoa?
  {
  }

  lemma RefusesReplacement(config: GuardConfig, fee: nat)
    requires EoaSubmissionAllowed(config.chainId, config.eoaAllowedChainIds)
    requires config.gasLimit * fee + config.gasLimit * config.feeCapWei > config.dailySpendCapWei
    ensures RefusedForDailyCap(CheckSubmitAllowed(config,
      ReplacementInput(config, GuardInput(fee, 0, 0, 0, 0, 0), config.feeCapWei, 0), PreflightCheck))
  {
  }

  // How many times `g` fits into `cap`.
  lemma Quotient(g: nat, cap: nat) returns (most: nat)
    requires g > 0
    ensures g * most <= cap < g * (most + 1)
  {
    most := cap / g;
  }

  // The dearest first send a low cap admits, and its replacement at the fee cap.
  lemma HighestAdmitted(config: GuardConfig) returns (first: GuardInput)
    requires EoaSubmissionAllowed(config.chainId, config.eoaAllowedChainIds)
    requires config.maxAttempts > 0 && config.gasLimit > 0 && config.dailySpendCapWei > 0 && !DailyCapAccepted(config)
    ensures first.l1FeeBoundWei == 0 && first.spentTodayWei == 0 && first.inFlightMaxWei == 0
    ensures CheckSubmitAllowed(config, first, BroadcastCheck).AllowEoa?
    ensures RefusedForDailyCap(
      CheckSubmitAllowed(config, ReplacementInput(config, first, config.feeCapWei, 0), PreflightCheck))
  {
    var fee := DearestFee(config.gasLimit, config.feeCapWei, config.dailySpendCapWei);
    first := GuardInput(fee, 0, 0, 0, 0, 0);
    AdmitsAlone(config, fee);
    RefusesReplacement(config, fee);
  }

  lemma DearestFee(g: nat, feeCap: nat, cap: nat) returns (fee: nat)
    requires g > 0 && cap < 2 * (g * feeCap)
    ensures fee <= feeCap && g * fee <= cap < g * fee + g * feeCap
  {
    var most := Quotient(g, cap);
    if most < feeCap {
      fee := most;
      MulMonotone(g, most + 1, feeCap);
      assert g * (most + 1) <= g * fee + g * feeCap;
    } else {
      fee := feeCap;
      MulMonotone(g, feeCap, most);
    }
  }

  // A second replacement at the fee cap, after a first send and a first replacement at the fee cap, has room exactly
  // if the daily cap fits three such sends. Only two are promised.
  lemma SecondReplacementFitsExactly(config: GuardConfig, first: GuardInput, attempts: nat, later: nat,
                                     phase: GuardPhase)
    requires EoaSubmissionAllowed(config.chainId, config.eoaAllowedChainIds)
    requires first.maxFeePerGas == config.feeCapWei && first.retryReservationWei == 0
    ensures
      var second := ReplacementInput(config, first, config.feeCapWei, attempts);
      var third := ReplacementInput(config, second, config.feeCapWei, later);
      var reserved := Reservation(config.gasLimit, config.feeCapWei, first.l1FeeBoundWei);
      !RefusedForDailyCap(CheckSubmitAllowed(config, third, phase))
      <==> first.spentTodayWei + first.inFlightMaxWei + 3 * reserved <= config.dailySpendCapWei
  {
  }

  predicate EmptyLedger(first: GuardInput) {
    first.l1FeeBoundWei == 0 && first.spentTodayWei == 0 && first.inFlightMaxWei == 0
  }

  // No admitted first send and admitted replacement, from an empty ledger, leave a second replacement refused for
  // the daily cap.
  ghost predicate LeavesTwoRetries(config: GuardConfig) {
    forall first: GuardInput, fee: nat, last: nat, attempts: nat, later: nat, phase: GuardPhase ::
      EmptyLedger(first) && fee <= config.feeCapWei && last <= config.feeCapWei
      && CheckSubmitAllowed(config, first, BroadcastCheck).AllowEoa?
      && CheckSubmitAllowed(config, ReplacementInput(config, first, fee, attempts), BroadcastCheck).AllowEoa?
      ==>
        var third := SecondReplacement(config, first, fee, attempts, last, later);
        !RefusedForDailyCap(CheckSubmitAllowed(config, third, phase))
  }

  function SecondReplacement(config: GuardConfig, first: GuardInput, fee: nat, attempts: nat, last: nat, later: nat)
    : GuardInput
  {
    ReplacementInput(config, ReplacementInput(config, first, fee, attempts), last, later)
  }

  lemma ThreeFit(config: GuardConfig, first: GuardInput, fee: nat, attempts: nat, last: nat, later: nat,
                 phase: GuardPhase)
    requires EmptyLedger(first) && first.maxFeePerGas <= config.feeCapWei
    requires fee <= config.feeCapWei && last <= config.feeCapWei
    requires 3 * (config.gasLimit * config.feeCapWei) <= config.dailySpendCapWei
    ensures
      var third := SecondReplacement(config, first, fee, attempts, last, later);
      !RefusedForDailyCap(CheckSubmitAllowed(config, third, phase))
  {
    MulMonotone(config.gasLimit, first.maxFeePerGas, config.feeCapWei);
    MulMonotone(config.gasLimit, fee, config.feeCapWei);
    MulMonotone(config.gasLimit, last, config.feeCapWei);
  }

  // Two fees whose sends fit together, and leave no room at the fee cap.
  lemma TwoFees(g: nat, feeCap: nat, cap: nat) returns (fee: nat, next: nat)
    requires g > 0 && cap < 3 * (g * feeCap)
    ensures fee <= feeCap && next <= feeCap && g * fee + g * next <= cap < g * fee + g * next + g * feeCap
  {
    if cap < 2 * (g * feeCap) {
      fee := DearestFee(g, feeCap, cap);
      next := 0;
    } else {
      fee, next := feeCap, feeCap;
    }
  }

  lemma ReplacesAlone(config: GuardConfig, fee: nat, next: nat)
    requires EoaSubmissionAllowed(config.chainId, config.eoaAllowedChainIds) && config.maxAttempts > 0
    requires next <= config.feeCapWei && config.gasLimit * fee + config.gasLimit * next <= config.dailySpendCapWei
    ensures
      var second := ReplacementInput(config, GuardInput(fee, 0, 0, 0, 0, 0), next, 0);
      CheckSubmitAllowed(config, second, BroadcastCheck).AllowEoa?
  {
  }

  lemma RefusesSecond(config: GuardConfig, fee: nat, next: nat)
    requires EoaSubmissionAllowed(config.chainId, config.eoaAllowedChainIds)
    requires config.dailySpendCapWei
      < config.gasLimit * fee + config.gasLimit * next + config.gasLimit * config.feeCapWei
    ensures RefusedForDailyCap(CheckSubmitAllowed(config,
      SecondReplacement(config, GuardInput(fee, 0, 0, 0, 0, 0), next, 0, config.feeCapWei, 0), PreflightCheck))
  {
  }

  // A second replacement is safe exactly with a cap of three times gas limit times fee cap.
  lemma TwoReplacementsFitExactly(config: GuardConfig)
    requires EoaSubmissionAllowed(config.chainId, config.eoaAllowedChainIds)
    requires config.maxAttempts > 0 && config.gasLimit > 0
    ensures 3 * (config.gasLimit * config.feeCapWei) <= config.dailySpendCapWei <==> LeavesTwoRetries(config)
  {
    if 3 * (config.gasLimit * config.feeCapWei) <= config.dailySpendCapWei {
      forall first: GuardInput, fee: nat, last: nat, attempts: nat, later: nat, phase: GuardPhase |
        EmptyLedger(first) && fee <= config.feeCapWei && last <= config.feeCapWei
        && CheckSubmitAllowed(config, first, BroadcastCheck).AllowEoa?
        ensures
          var third := SecondReplacement(config, first, fee, attempts, last, later);
          !RefusedForDailyCap(CheckSubmitAllowed(config, third, phase))
      {
        ThreeFit(config, first, fee, attempts, last, later, phase);
      }
    } else {
      var fee, next := TwoFees(config.gasLimit, config.feeCapWei, config.dailySpendCapWei);
      MulMonotone(config.gasLimit, 0, next);
      AdmitsAlone(config, fee);
      ReplacesAlone(config, fee, next);
      RefusesSecond(config, fee, next);
    }
  }

  // Only one replacement is promised: a second one on the same nonce can be refused.
  lemma SecondReplacementCanBeRefused()
    ensures
      var config := GuardConfig(LOCAL_CHAIN_ID, [LOCAL_CHAIN_ID], false, 10, 9, 22, 1);
      var first := GuardInput(10, 0, 0, 0, 1, 0);
      var second := ReplacementInput(config, first, 10, 1);
      var third := ReplacementInput(config, second, 10, 2);
      && DailyCapAccepted(config)
      && CheckSubmitAllowed(config, first, BroadcastCheck).AllowEoa?
      && CheckSubmitAllowed(config, second, BroadcastCheck).AllowEoa?
      && RefusedForDailyCap(CheckSubmitAllowed(config, third, BroadcastCheck))
  {
  }

  // The recorded reason is the harder one: a daily-cap refusal holds at every allowed price, and a
  // fee refusal would be lifted, as far as the daily cap goes, by the fee alone.
  lemma ReasonIsTheHarderOne(config: GuardConfig, input: GuardInput, phase: GuardPhase)
    requires EoaSubmissionAllowed(config.chainId, config.eoaAllowedChainIds) && input.maxFeePerGas > config.feeCapWei
    ensures
      var g := CheckSubmitAllowed(config, input, phase);
      var cheaper := CheckSubmitAllowed(config, input.(maxFeePerGas := config.feeCapWei), phase);
      && (g == Refuse(DailySpendCapReached) <==> cheaper == Refuse(DailySpendCapReached))
      && (g == Refuse(FeeAboveCap) <==> cheaper != Refuse(DailySpendCapReached))
  {
  }

  // More spent, more in flight, a higher fee or a later attempt never opens the guard.
  lemma AdmissionIsMonotone(config: GuardConfig, less: GuardInput, more: GuardInput, phase: GuardPhase)
    requires less.maxFeePerGas <= more.maxFeePerGas && less.attempts <= more.attempts
    requires less.spentTodayWei <= more.spentTodayWei && less.inFlightMaxWei <= more.inFlightMaxWei
    requires less.l1FeeBoundWei == more.l1FeeBoundWei && less.retryReservationWei == more.retryReservationWei
    ensures CheckSubmitAllowed(config, more, phase).AllowEoa? ==> CheckSubmitAllowed(config, less, phase).AllowEoa?
  {
    MulMonotone(config.gasLimit, less.maxFeePerGas, more.maxFeePerGas);
  }

  lemma MulMonotone(g: nat, a: nat, b: nat)
    requires a <= b
    ensures g * a <= g * b
  {
  }

  datatype TransactionState =
    | Created | Proposed | Signed | Submitted | Included | Confirmed
    | Replaced | Reverted | Reorged | Dropped | Failed | ReconciliationRequired

  datatype Observation =
    | Pending
    | Unknown
    | ReceiptSeen(success: bool, blockNumber: nat, blockHash: nat)

  datatype TrackInput = TrackInput(
    state: TransactionState,
    recordedBlockNumber: Option<nat>,
    recordedBlockHash: Option<nat>,
    observation: Observation,
    headBlockNumber: int,
    confirmationDepth: int,
    finalizedBlockNumber: Option<nat>,
    elapsedSinceSubmitMs: int,
    dropTimeoutMs: int)

  datatype TrackResult = TrackResult(
    nextState: TransactionState,
    confirmations: int,
    blockNumber: Option<nat>,
    blockHash: Option<nat>,
    reorged: bool)

  function ConfirmationsOf(blockNumber: int, headBlockNumber: int): int {
    Max(0, headBlockNumber - blockNumber + 1)
  }

  function Keep(input: TrackInput): TrackResult {
    TrackResult(input.state, 0, input.recordedBlockNumber, input.recordedBlockHash, false)
  }

  // On a block, by the record.
  predicate OnBlock(s: TransactionState) { s.Included? || s.Confirmed? }

  predicate SeesSuccess(input: TrackInput) { input.observation.ReceiptSeen? && input.observation.success }

  predicate DeepEnough(input: TrackInput)
    requires input.observation.ReceiptSeen?
  {
    ConfirmationsOf(input.observation.blockNumber, input.headBlockNumber) >= input.confirmationDepth
  }

  predicate FinalByTag(input: TrackInput)
    requires input.observation.ReceiptSeen?
  {
    input.finalizedBlockNumber.Some? ==> input.observation.blockNumber <= input.finalizedBlockNumber.value
  }

  // What leads to each state, and what takes a row off its block. Terminal states are left alone; a vanished block
  // is a reorg, and only a row that is on none can be given up for lost.
  function TrackTransaction(input: TrackInput): (r: TrackResult)
    ensures Terminal(input.state) ==> r == Keep(input)
    ensures r.nextState.Confirmed? <==>
      !Terminal(input.state) && SeesSuccess(input) && DeepEnough(input) && FinalByTag(input)
    ensures r.nextState.Included? <==>
      !Terminal(input.state) && SeesSuccess(input) && !(DeepEnough(input) && FinalByTag(input))
    ensures r.nextState.Reverted? <==>
      input.state.Reverted?
      || (!Terminal(input.state) && input.observation.ReceiptSeen? && !input.observation.success)
    ensures r.nextState.Dropped? <==>
      input.state.Dropped?
      || (!Terminal(input.state) && !OnBlock(input.state) && input.observation.Unknown?
          && input.elapsedSinceSubmitMs >= input.dropTimeoutMs)
    ensures OnBlock(input.state) && !input.observation.ReceiptSeen? ==>
      r.reorged && r.blockHash.None? && r.blockNumber.None?
      && r.nextState == if input.observation.Pending? then Submitted else ReconciliationRequired
    ensures r.reorged <==>
      || (OnBlock(input.state) && !input.observation.ReceiptSeen?)
      || (!Terminal(input.state) && SeesSuccess(input)
          && input.recordedBlockHash.Some? && input.recordedBlockHash.value != input.observation.blockHash)
    ensures !Terminal(input.state) && input.observation.ReceiptSeen? ==>
      r.blockHash == Some(input.observation.blockHash) && r.blockNumber == Some(input.observation.blockNumber)
  {
    if Terminal(input.state) then Keep(input)
    else match input.observation
      case ReceiptSeen(success, number, hash) =>
        if !success then TrackResult(Reverted, 0, Some(number), Some(hash), false)
        else
          var reorged := input.recordedBlockHash.Some? && input.recordedBlockHash.value != hash;
          var confirmations := ConfirmationsOf(number, input.headBlockNumber);
          var deepEnough := confirmations >= input.confirmationDepth;
          var final := input.finalizedBlockNumber.None? || number <= input.finalizedBlockNumber.value;
          TrackResult(if deepEnough && final then Confirmed else Included,
                      confirmations, Some(number), Some(hash), reorged)
      case Unknown =>
        if input.state.Confirmed? || input.state.Included? then
          TrackResult(ReconciliationRequired, 0, None, None, true)
        else if input.elapsedSinceSubmitMs >= input.dropTimeoutMs then
          TrackResult(Dropped, 0, None, None, false)
        else Keep(input)
      case Pending =>
        if input.state.Confirmed? || input.state.Included? then
          TrackResult(Submitted, 0, None, None, true)
        else Keep(input)
  }

  predicate Terminal(s: TransactionState) {
    s.Reverted? || s.Replaced? || s.Dropped? || s.Failed?
  }
}
