// Sending, row by row: in every reachable state one worker at most holds a row, no row is tried more often than the
// attempt cap, and a worker past the guard carries numbers that passed it. What ends a claim leaves its row in a state
// that says so, and a send that was admitted and failed leaves room in the ledger for its replacement.
module SubmitSafety {
  import opened Wrappers
  import opened Numbers
  import opened Chain
  import opened AnchorState
  import opened Ledger
  import opened AnchorRuns
  import opened AnchorSafety

  // ---- room for a replacement, in the ledger ----

  // The ledger's answer for the slot, after a send was reserved there.
  lemma ReservedIsHeld(w: World, send: Send)
    requires send.settled.None?
    ensures
      var v := RecordSend(w, send);
      var held := RetryReservation(v.sends, v.gas, send.row, send.tx.signer, send.tx.nonce);
      || (v == w && InLedger(w.sends, send.tx))
      || (v.sends == w.sends + [send] && OpenReserve(send, w.gas) <= held
          && InFlight(v.sends, v.gas) == InFlight(w.sends, w.gas) + OpenReserve(send, w.gas))
  {
    var v := RecordSend(w, send);
    if v != w {
      assert send in v.sends && SameSlot(send, send.row, send.tx.signer, send.tx.nonce);
      assert v.sends[..|w.sends|] == w.sends;
    }
  }

  // What a reservation adds to the total in flight is no more than what its slot answers for.
  lemma RoomStays(config: GuardConfig, booked: nat, more: nat, held: nat, l1: nat)
    requires FitsTwice(config, booked, l1, 0) && more <= held
    requires more <= Reservation(config.gasLimit, config.feeCapWei, l1)
    ensures FitsTwice(config, booked + more, l1, held)
    ensures Fits(config, booked + more, config.feeCapWei, l1)
  {
  }

  lemma CheaperFits(config: GuardConfig, booked: nat, fee: nat, l1: nat)
    requires fee <= config.feeCapWei && Fits(config, booked, config.feeCapWei, l1)
    ensures Fits(config, booked, fee, l1)
  {
    MulMonotone(config.gasLimit, fee, config.feeCapWei);
  }

  // A signed send carries what was quoted and checked, and the check was passed.
  lemma SignsWhatWasQuoted(cfg: Config, s: State, w: nat, r: RowId, spent: nat, inFlight: nat, fee: nat, l1: nat,
                           nonce: nat, payload: nat)
    requires w < |s.workers| && s.workers[w] == Submitting(r, Reconciled(spent, inFlight, fee, l1))
    ensures
      var t := NextSubmit(cfg, s, w, Sign(nonce, payload));
      var held := RetryReservation(s.world.sends, s.world.gas, r, cfg.wallet, nonce);
      t.workers[w].Submitting? && t.workers[w].submit.Admitted? ==>
        && t.workers[w].submit.send
           == Send(Tx(cfg.wallet, nonce, cfg.guard.gasLimit, fee, payload), r, l1, None)
        && EoaSubmissionAllowed(cfg.guard.chainId, cfg.guard.eoaAllowedChainIds)
        && fee <= cfg.guard.feeCapWei && Fits(cfg.guard, spent + inFlight, fee, l1)
        && (l1 > 0 ==> FitsTwice(cfg.guard, spent + inFlight, l1, held))
  {
  }

  // With a first send reserved, its replacement fits and so does what the broadcast check keeps for another.
  lemma RoomInLedger(config: GuardConfig, w: World, send: Send, spent: nat, newFee: nat)
    requires FitsTwice(config, spent + InFlight(w.sends, w.gas), send.l1FeeBound, 0) && send.settled.None?
    requires send.Reserved() <= Reservation(config.gasLimit, config.feeCapWei, send.l1FeeBound)
    requires newFee <= config.feeCapWei
    ensures
      var v := RecordSend(w, send);
      var booked := spent + InFlight(v.sends, v.gas);
      && Fits(config, booked, newFee, send.l1FeeBound)
      && FitsTwice(config, booked, send.l1FeeBound,
           RetryReservation(v.sends, v.gas, send.row, send.tx.signer, send.tx.nonce))
  {
    var v := RecordSend(w, send);
    var booked, l1 := spent + InFlight(w.sends, w.gas), send.l1FeeBound;
    var held := RetryReservation(v.sends, v.gas, send.row, send.tx.signer, send.tx.nonce);
    ReservedIsHeld(w, send);
    var more := InFlight(v.sends, v.gas) - InFlight(w.sends, w.gas);
    RoomStays(config, booked, more, held, l1);
    CheaperFits(config, booked + more, newFee, l1);
  }

  lemma ChecksPass(config: GuardConfig, input: GuardInput)
    requires EoaSubmissionAllowed(config.chainId, config.eoaAllowedChainIds) && input.maxFeePerGas <= config.feeCapWei
    requires Fits(config, input.spentTodayWei + input.inFlightMaxWei, input.maxFeePerGas, input.l1FeeBoundWei)
    requires FitsTwice(config, input.spentTodayWei + input.inFlightMaxWei, input.l1FeeBoundWei,
               input.retryReservationWei)
    ensures CheckSubmitAllowed(config, input.(retryReservationWei := 0), PreflightCheck).AllowEoa?
      <==> input.attempts < config.maxAttempts
    ensures CheckSubmitAllowed(config, input, BroadcastCheck)
      == if input.attempts < config.maxAttempts then AllowEoa else Refuse(MaxAttemptsReached)
  {
  }

  // The broadcast check's step, by its answer.
  lemma SignsByItsCheck(cfg: Config, s: State, w: nat, r: RowId, spent: nat, inFlight: nat, fee: nat, l1: nat,
                        nonce: nat, payload: nat)
    requires w < |s.workers| && s.workers[w] == Submitting(r, Reconciled(spent, inFlight, fee, l1)) && l1 > 0
    ensures
      var held := RetryReservation(s.world.sends, s.world.gas, r, cfg.wallet, nonce);
      var guard := CheckSubmitAllowed(cfg.guard, InputOf(s, r, spent, inFlight, fee, l1, held), BroadcastCheck);
      var t := NextSubmit(cfg, s, w, Sign(nonce, payload));
      && (guard == AllowEoa ==> t == Goto(s, w, Submitting(r, Admitted(
            Send(Tx(cfg.wallet, nonce, cfg.guard.gasLimit, fee, payload), r, l1, None)))))
      && (guard == Refuse(MaxAttemptsReached) && r in s.rows ==> r in t.rows && t.rows[r].status == Stuck)
  {
  }

  // The first send on a nonce was admitted on a chain with an L1 fee, reserved, and not broadcast. With nothing else
  // booked since, its replacement passes both checks at any fee up to the cap, as long as attempts remain, and
  // without any the row ends.
  lemma ReplacementIsSigned(cfg: Config, s: State, w: nat, r: RowId, spent: nat, fee: nat, l1: nat, nonce: nat,
                            payload: nat, t: State, v: nat, newFee: nat, newPayload: nat)
    requires w < |s.workers| && v < |t.workers| && l1 > 0 && newFee <= cfg.guard.feeCapWei && r in t.rows
    requires s.workers[w] == Submitting(r, Reconciled(spent, InFlight(s.world.sends, s.world.gas), fee, l1))
    requires RetryReservation(s.world.sends, s.world.gas, r, cfg.wallet, nonce) == 0
    requires
      var a := NextSubmit(cfg, s, w, Sign(nonce, payload));
      && a.workers[w].Submitting? && a.workers[w].submit.Admitted?
      && t.world.gas == s.world.gas && t.world.sends == RecordSend(s.world, a.workers[w].submit.send).sends
    requires t.workers[v] == Submitting(r, Reconciled(spent, InFlight(t.world.sends, t.world.gas), newFee, l1))
    ensures
      var inFlight := InFlight(t.world.sends, t.world.gas);
      CheckSubmitAllowed(cfg.guard, InputOf(t, r, spent, inFlight, newFee, l1, 0), PreflightCheck).AllowEoa?
      <==> t.rows[r].attempts < cfg.guard.maxAttempts
    ensures
      var b := NextSubmit(cfg, t, v, Sign(nonce, newPayload));
      if t.rows[r].attempts < cfg.guard.maxAttempts
      then b == Goto(t, v, Submitting(r, Admitted(
                  Send(Tx(cfg.wallet, nonce, cfg.guard.gasLimit, newFee, newPayload), r, l1, None))))
      else r in b.rows && b.rows[r].status == Stuck
  {
    var send := NextSubmit(cfg, s, w, Sign(nonce, payload)).workers[w].submit.send;
    var held := RetryReservation(t.world.sends, t.world.gas, r, cfg.wallet, nonce);
    var inFlight := InFlight(t.world.sends, t.world.gas);
    SignsWhatWasQuoted(cfg, s, w, r, spent, InFlight(s.world.sends, s.world.gas), fee, l1, nonce, payload);
    MulMonotone(cfg.guard.gasLimit, fee, cfg.guard.feeCapWei);
    RoomInLedger(cfg.guard, s.world, send, spent, newFee);
    ChecksPass(cfg.guard, InputOf(t, r, spent, inFlight, newFee, l1, held));
    SignsByItsCheck(cfg, t, v, r, spent, inFlight, newFee, l1, nonce, newPayload);
  }

  // ---- what every reachable state satisfies ----

  ghost predicate OneHolderEach(workers: seq<Phase>) {
    forall i, j, r :: 0 <= i < j < |workers| ==> !(HoldsRow(workers[i], r) && HoldsRow(workers[j], r))
  }

  // What a worker past the guard carries has passed it.
  predicate QuoteOk(cfg: Config, row: Row, step: SubmitStep) {
    match step
    case Priced(spent, inFlight, fee, l1) =>
      CheckSubmitAllowed(cfg.guard, GuardInput(fee, row.attempts, spent, inFlight, l1, 0), PreflightCheck).AllowEoa?
    case Reconciled(spent, inFlight, fee, l1) =>
      CheckSubmitAllowed(cfg.guard, GuardInput(fee, row.attempts, spent, inFlight, l1, 0), PreflightCheck).AllowEoa?
    case Admitted(send) => row.attempts < cfg.guard.maxAttempts
    case Reserved(send) => row.attempts < cfg.guard.maxAttempts
    case Answered(send, accepted) => row.attempts < cfg.guard.maxAttempts
    case _ => true
  }

  // A claimed row waits until its claim ends, and what was answered is in the ledger and on the network.
  predicate ClaimOk(cfg: Config, s: State, p: Phase) {
    p.Submitting? ==>
      && p.row in s.rows && s.rows[p.row].status == Waiting && QuoteOk(cfg, s.rows[p.row], p.submit)
      && (p.submit.Reserved? ==> InLedger(s.world.sends, p.submit.send.tx))
      && (p.submit.Answered? ==>
            && InLedger(s.world.sends, p.submit.send.tx)
            && (p.submit.accepted ==> p.submit.send.tx in s.world.broadcast))
  }

  ghost predicate ClaimsOk(cfg: Config, s: State) {
    && OneHolderEach(s.workers)
    && (forall p <- s.workers :: ClaimOk(cfg, s, p))
    && forall r <- s.rows :: s.rows[r].attempts <= cfg.guard.maxAttempts
  }

  // Rows that somebody holds stay as they are, and the tables only grow.
  ghost predicate HeldRowsStay(s: State, t: State) {
    && (forall r :: r in s.rows && RowHeld(s, r) ==> r in t.rows && t.rows[r] == s.rows[r])
    && (forall tx :: InLedger(s.world.sends, tx) ==> InLedger(t.world.sends, tx))
    && s.world.broadcast <= t.world.broadcast
  }

  lemma HeldClaimsStay(cfg: Config, s: State, t: State, p: Phase)
    requires p in s.workers && ClaimOk(cfg, s, p) && HeldRowsStay(s, t)
    ensures ClaimOk(cfg, t, p)
  {
    if p.Submitting? {
      var i :| 0 <= i < |s.workers| && s.workers[i] == p;
      assert HoldsRow(s.workers[i], p.row);
    }
  }

  // A step that is no worker's own claim: one worker changes at most, to something that holds no row.
  lemma OthersKeepClaims(cfg: Config, s: State, t: State, w: nat)
    requires ClaimsOk(cfg, s) && HeldRowsStay(s, t)
    requires t.workers == s.workers || (w < |s.workers| == |t.workers| && t.workers == s.workers[w := t.workers[w]]
               && forall r :: !HoldsRow(t.workers[w], r))
    requires forall r <- t.rows :: t.rows[r].attempts <= cfg.guard.maxAttempts
    ensures ClaimsOk(cfg, t)
  {
    forall p | p in t.workers ensures ClaimOk(cfg, t, p) {
      if p in s.workers {
        HeldClaimsStay(cfg, s, t, p);
      } else {
        assert p == t.workers[w] && (p.Submitting? ==> HoldsRow(p, p.row));
      }
    }
  }

  lemma EnvKeepsClaims(cfg: Config, s: State, e: EnvEvent)
    requires ClaimsOk(cfg, s)
    ensures ClaimsOk(cfg, NextEnv(cfg, s, e))
  {
    OthersKeepClaims(cfg, s, NextEnv(cfg, s, e), 0);
  }

  lemma SettledStillInLedger(sends: seq<Send>, tx: Tx, reason: SettledReason, u: Tx)
    requires InLedger(sends, u)
    ensures InLedger(SettleSends(sends, tx, reason), u)
  {
    var i :| 0 <= i < |sends| && sends[i].tx == u;
    assert SettleSends(sends, tx, reason)[i].tx == u;
  }

  lemma SettleKeepsLedger(cfg: Config, s: State, w: nat, e: SettleEvent, u: Tx)
    requires w < |s.workers| && InLedger(s.world.sends, u)
    ensures InLedger(NextSettle(cfg, s, w, e).world.sends, u)
  {
    if NextSettle(cfg, s, w, e).world != s.world {
      SettledStillInLedger(s.world.sends, s.workers[w].pass.todo[0], ByReceipt, u);
      SettledStillInLedger(s.world.sends, s.workers[w].pass.todo[0], ByNonceConsumed, u);
    }
  }

  lemma SettleKeepsClaims(cfg: Config, s: State, w: nat, e: SettleEvent)
    requires ClaimsOk(cfg, s) && w < |s.workers|
    ensures ClaimsOk(cfg, NextSettle(cfg, s, w, e))
  {
    var t := NextSettle(cfg, s, w, e);
    if t != s {
      forall u | InLedger(s.world.sends, u) ensures InLedger(t.world.sends, u) { SettleKeepsLedger(cfg, s, w, e, u); }
      OthersKeepClaims(cfg, s, t, w);
    }
  }

  // A row is changed by its only holder, which lets go of it.
  lemma HolderChangesRow(cfg: Config, s: State, t: State, w: nat, r: RowId)
    requires ClaimsOk(cfg, s) && w < |s.workers| && HoldsRow(s.workers[w], r) && r in s.rows
    requires t.workers == s.workers[w := Idle] && r in t.rows && t.rows == s.rows[r := t.rows[r]]
    requires t.rows[r].attempts <= cfg.guard.maxAttempts && s.world.broadcast <= t.world.broadcast
    requires forall tx :: InLedger(s.world.sends, tx) ==> InLedger(t.world.sends, tx)
    ensures ClaimsOk(cfg, t)
  {
    forall p | p in t.workers ensures ClaimOk(cfg, t, p) {
      var i :| 0 <= i < |t.workers| && t.workers[i] == p;
      if i != w {
        assert p == s.workers[i] && !HoldsRow(p, r);
        assert ClaimOk(cfg, s, p);
      }
    }
  }

  lemma TrackKeepsClaims(cfg: Config, s: State, w: nat, e: TrackEvent)
    requires ClaimsOk(cfg, s) && w < |s.workers|
    ensures ClaimsOk(cfg, NextTrack(cfg, s, w, e))
  {
    var t := NextTrack(cfg, s, w, e);
    if t != s {
      match e
      case TrackClaim(r) => ClaimTaken(cfg, s, t, w, r);
      case Observe => SamePlace(cfg, s, t, w);
      case TrackCommit(now, asOf) =>
        var receipt := s.workers[w].seen.value;
        forall u | InLedger(s.world.sends, u) ensures InLedger(t.world.sends, u) {
          if receipt.Some? { SettledStillInLedger(s.world.sends, receipt.value.mined.tx, ByReceipt, u); }
        }
        HolderChangesRow(cfg, s, t, w, s.workers[w].row);
    }
  }

  // A free row is claimed.
  lemma ClaimTaken(cfg: Config, s: State, t: State, w: nat, r: RowId)
    requires ClaimsOk(cfg, s) && w < |s.workers| && !RowHeld(s, r) && s.workers[w].Idle?
    requires |t.workers| == |s.workers| && t == Goto(s, w, t.workers[w]) && ClaimOk(cfg, s, t.workers[w])
    requires forall q :: HoldsRow(t.workers[w], q) ==> q == r
    ensures ClaimsOk(cfg, t)
  {
    assert forall i :: 0 <= i < |s.workers| ==> !HoldsRow(s.workers[i], r);
    forall p | p in t.workers ensures ClaimOk(cfg, t, p) {
      if p != t.workers[w] { assert p in s.workers; }
    }
  }

  // A worker goes on with the row it holds; the tables may grow.
  lemma SamePlace(cfg: Config, s: State, t: State, w: nat)
    requires ClaimsOk(cfg, s) && w < |s.workers| == |t.workers| && t.rows == s.rows
    requires t.workers == s.workers[w := t.workers[w]]
    requires forall r :: HoldsRow(t.workers[w], r) ==> HoldsRow(s.workers[w], r)
    requires ClaimOk(cfg, t, t.workers[w]) && s.world.broadcast <= t.world.broadcast
    requires forall tx :: InLedger(s.world.sends, tx) ==> InLedger(t.world.sends, tx)
    ensures ClaimsOk(cfg, t)
  {
    forall p | p in t.workers ensures ClaimOk(cfg, t, p) {
      if p != t.workers[w] { HeldClaimsStay(cfg, s, t, p); }
    }
  }

  // The worker lets go of its row.
  predicate EndsClaim(s: State, t: State, w: nat)
    requires w < |s.workers| == |t.workers|
  {
    s.workers[w].Submitting? && t.workers[w].Idle?
  }

  lemma RecordedIsInLedger(w: World, send: Send)
    ensures InLedger(RecordSend(w, send).sends, send.tx)
  {
    if !InLedger(w.sends, send.tx) { assert RecordSend(w, send).sends[|w.sends|] == send; }
  }

  lemma SubmitGoesOn(cfg: Config, s: State, w: nat, e: SubmitEvent)
    requires ClaimsOk(cfg, s) && w < |s.workers| && s.workers[w].Submitting?
    requires |NextSubmit(cfg, s, w, e).workers| == |s.workers| && !NextSubmit(cfg, s, w, e).workers[w].Idle?
    ensures
      var t := NextSubmit(cfg, s, w, e);
      && t.workers == s.workers[w := t.workers[w]] && t.rows == s.rows
      && t.workers[w].Submitting? && t.workers[w].row == s.workers[w].row
      && s.world.broadcast <= t.world.broadcast
      && ClaimOk(cfg, t, t.workers[w])
  {
    assert ClaimOk(cfg, s, s.workers[w]);
    if e.Reserve? && s.workers[w].submit.Admitted? { RecordedIsInLedger(s.world, s.workers[w].submit.send); }
  }

  lemma SubmitKeepsLedger(cfg: Config, s: State, w: nat, e: SubmitEvent, u: Tx)
    requires w < |s.workers| && InLedger(s.world.sends, u)
    ensures InLedger(NextSubmit(cfg, s, w, e).world.sends, u)
  {
    SubmitFrame(cfg, s, w, e);
    SubmitResult(cfg, s, w, e);
    var i :| 0 <= i < |s.world.sends| && s.world.sends[i].tx == u;
    assert NextSubmit(cfg, s, w, e).world.sends[i].tx == u;
  }

  // The step counts as an attempt at its row.
  predicate CountsAttempt(p: Phase, e: SubmitEvent) {
    p.Submitting? && ((p.submit.Answered? && e.Finish?) || (e == Fails(true) && CanFail(p.submit, true)))
  }

  // The broadcast was answered without an error.
  predicate Accepts(p: Phase, e: SubmitEvent) {
    p.Submitting? && p.submit.Answered? && p.submit.accepted && e.Finish?
  }

  // How a claim ends: its row alone changes, and counts an attempt if a send was prepared, whether or not it went out.
  lemma ClaimEnds(cfg: Config, s: State, w: nat, e: SubmitEvent)
    requires ClaimsOk(cfg, s) && w < |s.workers| == |NextSubmit(cfg, s, w, e).workers|
    requires EndsClaim(s, NextSubmit(cfg, s, w, e), w)
    ensures
      var t := NextSubmit(cfg, s, w, e);
      var p := s.workers[w];
      && t.workers == s.workers[w := Idle] && t.world == s.world
      && p.row in s.rows && p.row in t.rows && t.rows == s.rows[p.row := t.rows[p.row]]
      && t.rows[p.row].version == s.rows[p.row].version + 1
      && t.rows[p.row].attempts == s.rows[p.row].attempts + (if CountsAttempt(p, e) then 1 else 0)
      && t.rows[p.row].attempts <= cfg.guard.maxAttempts
  {
    assert ClaimOk(cfg, s, s.workers[w]);
  }

  // Whom its row follows then: a hash only if that was broadcast for it or found on the chain, and a Safe proposal
  // only where the worker may not sign alone.
  lemma ClaimEndsFollowing(cfg: Config, s: State, w: nat, e: SubmitEvent)
    requires ClaimsOk(cfg, s) && w < |s.workers| == |NextSubmit(cfg, s, w, e).workers|
    requires EndsClaim(s, NextSubmit(cfg, s, w, e), w)
    ensures
      var t := NextSubmit(cfg, s, w, e);
      var p := s.workers[w];
      && p.row in s.rows && p.row in t.rows
      && var was, now := s.rows[p.row], t.rows[p.row];
      && (Accepts(p, e) ==>
            && now.status == Active && now.tx == Some(p.submit.send.tx) && now.contract == Some(cfg.contract)
            && InLedger(t.world.sends, p.submit.send.tx) && p.submit.send.tx in t.world.broadcast)
      && (e.OnChain? ==> StoresBatch(s.world.chain, cfg.contract, p.row))
      && (now.tx != was.tx ==> Accepts(p, e) || e.OnChain?)
      && (now.openProposal != was.openProposal && !e.OnChain? ==>
            now.openProposal && now.contract == Some(cfg.contract) && cfg.guard.safeConfigured
            && !EoaSubmissionAllowed(cfg.guard.chainId, cfg.guard.eoaAllowedChainIds))
  {
    assert ClaimOk(cfg, s, s.workers[w]);
  }

  // When it stops for good: at the attempt cap, if nothing that clears by itself refused it first, and when the search
  // of the chain is given up. A send that failed leaves it waiting, its hash and contract as they were.
  lemma ClaimEndsForGood(cfg: Config, s: State, w: nat, e: SubmitEvent)
    requires ClaimsOk(cfg, s) && w < |s.workers| == |NextSubmit(cfg, s, w, e).workers|
    requires EndsClaim(s, NextSubmit(cfg, s, w, e), w)
    ensures
      var t := NextSubmit(cfg, s, w, e);
      var p := s.workers[w];
      && p.row in s.rows && p.row in t.rows
      && var was, now := s.rows[p.row], t.rows[p.row];
      && (now.status == Stuck && !e.OnChain? ==> e.GiveUpSearch? || was.attempts >= cfg.guard.maxAttempts)
      && (e.GiveUpSearch? ==> now.status == Stuck)
      && (e.Quote? && EoaSubmissionAllowed(cfg.guard.chainId, cfg.guard.eoaAllowedChainIds) ==>
            (now.status == Stuck <==>
               && was.attempts >= cfg.guard.maxAttempts && e.fee <= cfg.guard.feeCapWei
               && Fits(cfg.guard, p.submit.spent + p.submit.inFlight, e.fee, e.l1)))
      && ((e.Finish? && !Accepts(p, e)) || e.Fails? || e.Sign? ==>
            now == was.(version := now.version, attempts := now.attempts))
  {
    assert ClaimOk(cfg, s, s.workers[w]);
  }

  lemma SubmitKeepsClaims(cfg: Config, s: State, w: nat, e: SubmitEvent)
    requires ClaimsOk(cfg, s) && w < |s.workers|
    ensures ClaimsOk(cfg, NextSubmit(cfg, s, w, e))
  {
    var t := NextSubmit(cfg, s, w, e);
    SubmitFrame(cfg, s, w, e);
    forall u | InLedger(s.world.sends, u) ensures InLedger(t.world.sends, u) { SubmitKeepsLedger(cfg, s, w, e, u); }
    if s.workers[w].Submitting? {
      if t.workers[w].Idle? {
        ClaimEnds(cfg, s, w, e);
        HolderChangesRow(cfg, s, t, w, s.workers[w].row);
      } else {
        SubmitGoesOn(cfg, s, w, e);
        SamePlace(cfg, s, t, w);
      }
    } else if t != s {
      ClaimTaken(cfg, s, t, w, e.row);
    }
  }

  lemma MoveKeepsClaims(cfg: Config, s: State, w: nat, e: MoveEvent)
    requires ClaimsOk(cfg, s) && w < |s.workers|
    ensures ClaimsOk(cfg, NextMove(cfg, s, w, e))
  {
    var t := NextMove(cfg, s, w, e);
    if !e.Apply? {
      MoveCheckShape(cfg, s, s.workers[w], e);
      if t.workers[w] == s.workers[w] { assert t == s; } else { CheckerHoldsNothing(cfg, s, s.workers[w], e); }
    }
    if t != s { OthersKeepClaims(cfg, s, t, w); }
  }

  lemma CheckerHoldsNothing(cfg: Config, s: State, p: Phase, e: MoveEvent)
    requires MoveCheck(cfg, s, p, e) != p
    ensures MoveCheck(cfg, s, p, e).Idle? || MoveCheck(cfg, s, p, e).Moving?
  {
  }

  lemma StepKeepsClaims(cfg: Config, s: State, e: Event)
    requires ClaimsOk(cfg, s)
    ensures ClaimsOk(cfg, Next(cfg, s, e))
  {
    match e
    case Environment(env) => EnvKeepsClaims(cfg, s, env);
    case Crash(w) => if w < |s.workers| { OthersKeepClaims(cfg, s, Goto(s, w, Idle), w); }
    case Submit(w, a) => if w < |s.workers| { SubmitKeepsClaims(cfg, s, w, a); }
    case Settle(w, a) => if w < |s.workers| { SettleKeepsClaims(cfg, s, w, a); }
    case Track(w, a) => if w < |s.workers| { TrackKeepsClaims(cfg, s, w, a); }
    case Move(w, a) => if w < |s.workers| { MoveKeepsClaims(cfg, s, w, a); }
  }

  lemma {:induction false} RunKeepsClaims(cfg: Config, s: State, events: seq<Event>)
    requires ClaimsOk(cfg, s)
    ensures ClaimsOk(cfg, Run(cfg, s, events))
    decreases |events|
  {
    if events != [] {
      StepKeepsClaims(cfg, s, events[0]);
      RunKeepsClaims(cfg, Next(cfg, s, events[0]), events[1..]);
    }
  }

  // ---- main results ----

  // No row is ever tried more often than the cap, and no two workers hold one row.
  lemma AttemptsWithinCap(cfg: Config, chain: Chain, events: seq<Event>, r: RowId)
    requires r in Run(cfg, Init(chain, cfg), events).rows
    ensures Run(cfg, Init(chain, cfg), events).rows[r].attempts <= cfg.guard.maxAttempts
    ensures OneHolderEach(Run(cfg, Init(chain, cfg), events).workers)
  {
    RunKeepsClaims(cfg, Init(chain, cfg), events);
  }

  // The broadcast check never ends a row: what passed the preflight is refused there only for the replacement's room,
  // and then waits.
  lemma RefusedOnlyForRetryRoom(cfg: Config, chain: Chain, events: seq<Event>, w: nat, nonce: nat, payload: nat)
    requires
      var s := Run(cfg, Init(chain, cfg), events);
      w < |s.workers| && s.workers[w].Submitting? && s.workers[w].submit.Reconciled?
    ensures
      var s := Run(cfg, Init(chain, cfg), events);
      var t := NextSubmit(cfg, s, w, Sign(nonce, payload));
      var p := s.workers[w];
      var held := RetryReservation(s.world.sends, s.world.gas, p.row, cfg.wallet, nonce);
      && |t.workers| == |s.workers| && p.row in s.rows && p.row in t.rows
      && (t.workers[w].Idle? <==>
            p.submit.l1 > 0 && !FitsTwice(cfg.guard, p.submit.spent + p.submit.inFlight, p.submit.l1, held))
      && (t.workers[w].Idle? ==> t.rows[p.row] == s.rows[p.row].(version := s.rows[p.row].version + 1))
  {
    RunKeepsClaims(cfg, Init(chain, cfg), events);
    var s := Run(cfg, Init(chain, cfg), events);
    assert ClaimOk(cfg, s, s.workers[w]);
  }
}
