// What holds in every state the anchor workers can reach: one invariant over the ledger, the chain and
// every worker's phase, kept by each step of each role. From it follow the main results at the end: ledger
// before network, conclusive settlement, and moved rows that are never stored on the chain they left.
module AnchorSafety {
  import opened Wrappers
  import opened Chain
  import opened AnchorState
  import opened Ledger
  import opened AnchorRuns

  // ---- what a worker's local variables still say about the shared state ----

  ghost predicate Reservable(w: World, wallet: Address, m: Mined) {
    m.tx.signer == wallet ==> exists s :: s in w.sends && Covers(s, m)
  }

  ghost predicate SettleOk(w: World, wallet: Address, pass: SettlePass, step: SettleStep)
    requires ValidChain(w.chain)
  {
    && (pass.depth.Some? ==> pass.depth.value <= w.chain.finalCount)
    && (forall a <- pass.nonces :: pass.nonces[a] <= Count(FinalTxs(w.chain), a))
    && (forall tx <- pass.todo :: InLedger(w.sends, tx))
    && (pass.todo != [] ==>
          match step
          case Picking => true
          case NonceKnown(taken) => taken.Some? ==> taken.value <= Count(FinalTxs(w.chain), pass.todo[0].signer)
          case Observed(taken, receipt) =>
            && (receipt.Some? ==> receipt.value.mined.tx == pass.todo[0] && Reservable(w, wallet, receipt.value.mined))
            && (receipt.None? && taken.Some? && pass.todo[0].nonce < taken.value ==> Dead(w.chain, pass.todo[0])))
  }

  // The hash is final here, and stored the batch at most on the contracts in `landed`.
  ghost predicate FinalWithin(c: Chain, tx: Tx, batch: BatchId, landed: set<Contract>)
    requires c.finalCount <= |c.blocks|
  {
    exists m :: IsFinal(c, m) && m.tx == tx && Landing(m, batch) <= landed
  }

  // Judged for a move: final here, landed at most there, and a Safe execution also succeeded. A reverted one leaves
  // the Safe's own nonce free, so its payload may still be executed by another transaction.
  ghost predicate Conclusive(c: Chain, req: MoveRequest, tx: Tx, landed: set<Contract>)
    requires c.finalCount <= |c.blocks|
  {
    exists m :: IsFinal(c, m) && m.tx == tx && Landing(m, req.row) <= landed && (tx in req.was.executions ==> m.success)
  }

  ghost predicate JudgedOk(c: Chain, req: MoveRequest, done: nat, landed: set<Contract>, unknown: bool)
    requires c.finalCount <= |c.blocks|
  {
    && done <= |req.tracked|
    && (unknown || forall i :: 0 <= i < done ==> Conclusive(c, req, req.tracked[i], landed))
    && (forall k <- landed :: exists m :: IsFinal(c, m) && k in Landing(m, req.row))
  }

  ghost predicate MoveOk(c: Chain, req: MoveRequest, step: MoveStep)
    requires ValidChain(c)
  {
    && (forall tx <- RecordedTx(req.was) :: tx in req.tracked || Dead(c, tx))
    && (forall tx <- req.was.executions :: tx in req.tracked)
    && match step
       case Observing(done, landed, unknown, fin) =>
         JudgedOk(c, req, done, landed, unknown) && (fin.Some? ==> fin.value <= c.finalCount)
       case CheckingSigner => true
       case AwaitFinality(done, landed, unknown, receipt) =>
         JudgedOk(c, req, done, landed, unknown) && done < |req.tracked| && receipt.mined.tx == req.tracked[done]
       case Asking(landed, unknown, contracts, asked, answered) =>
         && JudgedOk(c, req, |req.tracked|, landed, unknown)
         && landed <= (set k | k in contracts)
         && asked <= |contracts|
         && forall i :: 0 <= i < asked ==> contracts[i] !in landed
       case Decided(found, unknown) =>
         found.None? && !unknown ==> forall tx <- req.tracked :: Conclusive(c, req, tx, {})
  }

  ghost predicate PhaseOk(w: World, wallet: Address, p: Phase)
    requires ValidChain(w.chain)
  {
    match p
    case Submitting(r, Admitted(send)) => send.tx.signer == wallet && send.row == r && send.settled.None?
    case Submitting(r, Reserved(send)) => InLedger(w.sends, send.tx)
    case Settling(pass, step) => SettleOk(w, wallet, pass, step)
    case Tracking(r, Some(Some(receipt))) => Reservable(w, wallet, receipt.mined)
    case Moving(req, step, raced) => raced || MoveOk(w.chain, req, step)
    case _ => true
  }

  // No chain that keeps the final prefix mines this hash so that it stores the batch.
  ghost predicate Harmless(c: Chain, tx: Tx, batch: BatchId)
    requires c.finalCount <= |c.blocks|
  {
    Dead(c, tx) || FinalWithin(c, tx, batch, {})
  }

  ghost predicate Inv(cfg: Config, s: State) {
    && WorldOk(s.world, cfg.wallet)
    && |s.workers| == cfg.workers
    && (forall p <- s.workers :: PhaseOk(s.world, cfg.wallet, p))
    && (forall p <- s.workers :: p.Submitting? || p.Tracking? ==> p.row in s.rows)
    && (forall mv <- s.moves, tx <- mv.hashes :: mv.raced || Harmless(s.world.chain, tx, mv.row))
    && (forall send <- s.world.sends :: send.row in s.rows || MovedWith(s.moves, send))
  }

  ghost predicate MovedWith(moves: seq<Moved>, send: Send) {
    exists mv :: mv in moves && mv.row == send.row && send.tx in mv.hashes
  }

  // ---- local facts survive every step of the others ----

  lemma FinalWithinStays(c: Chain, d: Chain, tx: Tx, batch: BatchId, landed: set<Contract>)
    requires ValidChain(c) && ValidChain(d) && Extends(c, d) && FinalWithin(c, tx, batch, landed)
    ensures FinalWithin(d, tx, batch, landed)
  {
    var m :| IsFinal(c, m) && m.tx == tx && Landing(m, batch) <= landed;
    FinalStays(c, d, m);
  }

  lemma ConclusiveStays(c: Chain, d: Chain, req: MoveRequest, tx: Tx, landed: set<Contract>)
    requires ValidChain(c) && ValidChain(d) && Extends(c, d) && Conclusive(c, req, tx, landed)
    ensures Conclusive(d, req, tx, landed)
  {
    var m :| IsFinal(c, m) && m.tx == tx && Landing(m, req.row) <= landed && (tx in req.was.executions ==> m.success);
    FinalStays(c, d, m);
  }

  lemma HarmlessStays(c: Chain, d: Chain, tx: Tx, batch: BatchId)
    requires ValidChain(c) && ValidChain(d) && Extends(c, d) && Harmless(c, tx, batch)
    ensures Harmless(d, tx, batch)
  {
    if Dead(c, tx) { DeadForever(c, d, tx); } else { FinalWithinStays(c, d, tx, batch, {}); }
  }

  lemma ReservableStays(w: World, v: World, wallet: Address, m: Mined)
    requires Grows(w, v) && Reservable(w, wallet, m)
    ensures Reservable(v, wallet, m)
  {
    if m.tx.signer == wallet { CoversSurvives(w, v, m); }
  }

  lemma SettleOkStays(w: World, v: World, wallet: Address, pass: SettlePass, step: SettleStep)
    requires Grows(w, v) && SettleOk(w, wallet, pass, step)
    ensures SettleOk(v, wallet, pass, step)
  {
    LedgerKeepsGrowing(w, v);
    forall a { CountStays(w.chain, v.chain, a); }
    if pass.todo != [] && step.Observed? {
      if step.receipt.Some? { ReservableStays(w, v, wallet, step.receipt.value.mined); }
      else if Dead(w.chain, pass.todo[0]) { DeadForever(w.chain, v.chain, pass.todo[0]); }
    }
  }

  lemma JudgedOkStays(c: Chain, d: Chain, req: MoveRequest, done: nat, landed: set<Contract>, unknown: bool)
    requires ValidChain(c) && ValidChain(d) && Extends(c, d) && JudgedOk(c, req, done, landed, unknown)
    ensures JudgedOk(d, req, done, landed, unknown)
  {
    if !unknown {
      forall i | 0 <= i < done { ConclusiveStays(c, d, req, req.tracked[i], landed); }
    }
    forall k | k in landed ensures exists m :: IsFinal(d, m) && k in Landing(m, req.row) {
      var m :| IsFinal(c, m) && k in Landing(m, req.row);
      FinalStays(c, d, m);
    }
  }

  lemma MoveOkStays(c: Chain, d: Chain, req: MoveRequest, step: MoveStep)
    requires ValidChain(c) && ValidChain(d) && Extends(c, d) && MoveOk(c, req, step)
    ensures MoveOk(d, req, step)
  {
    forall tx | tx in RecordedTx(req.was) && Dead(c, tx) ensures Dead(d, tx) { DeadForever(c, d, tx); }
    match step
    case CheckingSigner =>
    case Observing(done, landed, unknown, fin) => JudgedOkStays(c, d, req, done, landed, unknown);
    case AwaitFinality(done, landed, unknown, receipt) => JudgedOkStays(c, d, req, done, landed, unknown);
    case Asking(landed, unknown, contracts, asked, answered) =>
      JudgedOkStays(c, d, req, |req.tracked|, landed, unknown);
    case Decided(found, unknown) =>
      if found.None? && !unknown {
        forall tx | tx in req.tracked { ConclusiveStays(c, d, req, tx, {}); }
      }
  }

  lemma PhaseOkStays(w: World, v: World, wallet: Address, p: Phase)
    requires Grows(w, v) && PhaseOk(w, wallet, p)
    ensures PhaseOk(v, wallet, p)
  {
    LedgerKeepsGrowing(w, v);
    match p
    case Settling(pass, step) => SettleOkStays(w, v, wallet, pass, step);
    case Tracking(r, Some(Some(receipt))) => ReservableStays(w, v, wallet, receipt.mined);
    case Moving(req, step, raced) => if !raced { MoveOkStays(w.chain, v.chain, req, step); }
    case _ =>
  }

  // ---- one step ----

  // A step that replaces worker `k`'s phase, grows the world, and removes no row.
  lemma StepKeeps(cfg: Config, s: State, t: State, k: nat, p: Phase)
    requires Inv(cfg, s) && k < |s.workers| && t.workers == s.workers[k := p]
    requires WorldOk(t.world, cfg.wallet) && Grows(s.world, t.world)
    requires PhaseOk(t.world, cfg.wallet, p)
    requires s.rows.Keys <= t.rows.Keys && t.moves == s.moves
    requires p.Submitting? || p.Tracking? ==> p.row in t.rows
    requires forall i :: |s.world.sends| <= i < |t.world.sends| ==> t.world.sends[i].row in t.rows
    ensures Inv(cfg, t)
  {
    OthersKeep(cfg, s, t);
    forall q | q in t.workers ensures PhaseOk(t.world, cfg.wallet, q) {
      if q != p { assert q in s.workers; }
    }
    forall q | q in t.workers && (q.Submitting? || q.Tracking?) ensures q.row in t.rows {
      if q != p { assert q in s.workers; }
    }
    SendsKeep(s, t);
  }

  lemma OthersKeep(cfg: Config, s: State, t: State)
    requires Inv(cfg, s) && Grows(s.world, t.world) && t.moves == s.moves
    ensures forall q <- s.workers :: PhaseOk(t.world, cfg.wallet, q)
    ensures forall mv <- t.moves, tx <- mv.hashes :: mv.raced || Harmless(t.world.chain, tx, mv.row)
  {
    forall q | q in s.workers { PhaseOkStays(s.world, t.world, cfg.wallet, q); }
    forall mv, tx | mv in s.moves && tx in mv.hashes && !mv.raced {
      HarmlessStays(s.world.chain, t.world.chain, tx, mv.row);
    }
  }

  lemma SendsKeep(s: State, t: State)
    requires Grows(s.world, t.world) && s.rows.Keys <= t.rows.Keys && t.moves == s.moves
    requires forall send <- s.world.sends :: send.row in s.rows || MovedWith(s.moves, send)
    requires forall i :: |s.world.sends| <= i < |t.world.sends| ==> t.world.sends[i].row in t.rows
    ensures forall send <- t.world.sends :: send.row in t.rows || MovedWith(t.moves, send)
  {
    forall send | send in t.world.sends ensures send.row in t.rows || MovedWith(t.moves, send) {
      var i :| 0 <= i < |t.world.sends| && t.world.sends[i] == send;
      if i < |s.world.sends| {
        assert s.world.sends[i] in s.world.sends;
        if send.row !in s.rows {
          var mv :| mv in s.moves && mv.row == s.world.sends[i].row && s.world.sends[i].tx in mv.hashes;
        }
      }
    }
  }

  // A step of one worker that leaves the shared tables alone.
  lemma LocalStep(cfg: Config, s: State, t: State, k: nat, p: Phase)
    requires Inv(cfg, s) && k < |s.workers| && t.workers == s.workers[k := p] && t.world == s.world
    requires PhaseOk(s.world, cfg.wallet, p)
    requires s.rows.Keys <= t.rows.Keys && t.moves == s.moves
    requires p.Submitting? || p.Tracking? ==> p.row in t.rows
    ensures Inv(cfg, t)
  {
    StepKeeps(cfg, s, t, k, p);
  }

  lemma EnvKeeps(cfg: Config, s: State, e: EnvEvent)
    requires Inv(cfg, s)
    ensures Inv(cfg, NextEnv(cfg, s, e))
  {
    var t := NextEnv(cfg, s, e);
    if e.ChainTo? && t != s { ChainStep(s.world, e.chain, cfg.wallet); }
    OthersKeep(cfg, s, t);
    SendsKeep(s, t);
  }

  // What a submit step can touch.
  lemma SubmitFrame(cfg: Config, s: State, w: nat, e: SubmitEvent)
    requires w < |s.workers|
    ensures
      var t := NextSubmit(cfg, s, w, e);
      && |t.workers| == |s.workers| && t.workers == s.workers[w := t.workers[w]]
      && t.moves == s.moves && t.day == s.day
      && s.rows.Keys <= t.rows.Keys
  {
  }

  // Two of its steps change the ledger and the network, the rest only the worker.
  lemma SubmitResult(cfg: Config, s: State, w: nat, e: SubmitEvent)
    requires w < |s.workers|
    ensures
      var t := NextSubmit(cfg, s, w, e);
      var p := s.workers[w];
      && |t.workers| == |s.workers|
      && (t.world == s.world && t.workers[w] != p ==> LocalResult(cfg, s, p, t.workers[w]))
      && (t.world != s.world ==>
            && p.Submitting?
            && ((p.submit.Admitted? && t.world == RecordSend(s.world, p.submit.send)
                 && t.workers[w] == p.(submit := Reserved(p.submit.send)))
                || (p.submit.Reserved? && t.world == GiveToNetwork(s.world, p.submit.send.tx)
                    && t.workers[w].Submitting? && t.workers[w].submit.Answered? && t.workers[w].row == p.row)))
  {
  }

  predicate LocalResult(cfg: Config, s: State, p: Phase, q: Phase) {
    || q.Idle?
    || (q.Submitting? && (q.row in s.rows || (p.Submitting? && q.row == p.row))
        && (q.submit.Admitted? ==>
              q.submit.send.tx.signer == cfg.wallet && q.submit.send.row == q.row && q.submit.send.settled.None?)
        && (q.submit.Reserved? ==>
              && p.Submitting? && p.submit.Admitted?
              && p.submit.send == q.submit.send && InLedger(s.world.sends, q.submit.send.tx)))
  }

  lemma SubmitKeeps(cfg: Config, s: State, w: nat, e: SubmitEvent)
    requires Inv(cfg, s) && w < |s.workers|
    ensures Inv(cfg, NextSubmit(cfg, s, w, e))
  {
    var t := NextSubmit(cfg, s, w, e);
    var p := s.workers[w];
    assert p in s.workers;
    SubmitFrame(cfg, s, w, e);
    SubmitResult(cfg, s, w, e);
    if t.world != s.world {
      if p.submit.Admitted? { RecordStep(s.world, p.submit.send, cfg.wallet); }
      else { NetworkStep(s.world, p.submit.send.tx, cfg.wallet); }
    }
    StepKeeps(cfg, s, t, w, t.workers[w]);
  }

  // The nonce count is read at final blocks, before the receipt: that is what makes a missing
  // receipt conclusive.
  lemma SettleKeeps(cfg: Config, s: State, w: nat, e: SettleEvent)
    requires Inv(cfg, s) && w < |s.workers|
    ensures Inv(cfg, NextSettle(cfg, s, w, e))
  {
    var p := s.workers[w];
    assert p in s.workers;
    if NextSettle(cfg, s, w, e) != s {
      match e
      case StartPass(todo, depth) =>
        LocalStep(cfg, s, NextSettle(cfg, s, w, e), w, NextSettle(cfg, s, w, e).workers[w]);
      case ReadNonce(answered) => NonceReadKeeps(cfg, s, w, p.pass, answered);
      case LookUp(answered) => LookUpKeeps(cfg, s, w, p.pass, p.settle.takenBelow, answered);
      case Record(asOf) => RecordKeeps(cfg, s, w, p.pass, p.settle.takenBelow, p.settle.receipt, asOf);
    }
  }

  lemma NonceReadKeeps(cfg: Config, s: State, w: nat, pass: SettlePass, answered: bool)
    requires Inv(cfg, s) && w < |s.workers| && s.workers[w] == Settling(pass, Picking)
    ensures Inv(cfg, NextSettle(cfg, s, w, ReadNonce(answered)))
  {
    var t := NextSettle(cfg, s, w, ReadNonce(answered));
    assert s.workers[w] in s.workers;
    if pass.todo != [] {
      if pass.depth.Some? { CountAtDepth(s.world.chain, pass.depth.value, pass.todo[0].signer); }
      LocalStep(cfg, s, t, w, t.workers[w]);
    }
  }

  lemma LookUpKeeps(cfg: Config, s: State, w: nat, pass: SettlePass, taken: Option<nat>, answered: bool)
    requires Inv(cfg, s) && w < |s.workers| && s.workers[w] == Settling(pass, NonceKnown(taken))
    ensures Inv(cfg, NextSettle(cfg, s, w, LookUp(answered)))
  {
    var t := NextSettle(cfg, s, w, LookUp(answered));
    assert s.workers[w] in s.workers;
    if pass.todo != [] {
      LookUpIsConclusive(s.world, cfg.wallet, pass, taken);
      LocalStep(cfg, s, t, w, t.workers[w]);
    }
  }

  lemma RecordReceiptWorld(cfg: Config, s: State, w: nat, pass: SettlePass, taken: Option<nat>, receipt: Receipt,
      asOf: nat)
    requires Inv(cfg, s) && w < |s.workers| && s.workers[w] == Settling(pass, Observed(taken, Some(receipt)))
    requires pass.todo != [] && asOf <= s.day
    ensures var t := NextSettle(cfg, s, w, Record(asOf)); WorldOk(t.world, cfg.wallet) && Grows(s.world, t.world)
  {
    var tx := pass.todo[0];
    assert s.workers[w] in s.workers;
    RecordsReceipt(cfg, s, w, pass, taken, receipt, asOf);
    ReceiptStep(s.world, GasSpend(tx, RowOfSend(s.world.sends, tx), receipt.mined.Cost(), asOf), cfg.wallet);
  }

  lemma RecordsReceipt(cfg: Config, s: State, w: nat, pass: SettlePass, taken: Option<nat>, receipt: Receipt, asOf: nat)
    requires w < |s.workers| && s.workers[w] == Settling(pass, Observed(taken, Some(receipt)))
    requires pass.todo != [] && asOf <= s.day
    ensures NextSettle(cfg, s, w, Record(asOf)).world
      == SettleByReceipt(s.world,
           GasSpend(pass.todo[0], RowOfSend(s.world.sends, pass.todo[0]), receipt.mined.Cost(), asOf))
  {
  }

  lemma RecordNonceWorld(cfg: Config, s: State, w: nat, pass: SettlePass, taken: Option<nat>, asOf: nat)
    requires Inv(cfg, s) && w < |s.workers| && s.workers[w] == Settling(pass, Observed(taken, None))
    requires pass.todo != [] && asOf <= s.day
    ensures var t := NextSettle(cfg, s, w, Record(asOf)); WorldOk(t.world, cfg.wallet) && Grows(s.world, t.world)
  {
    var tx := pass.todo[0];
    assert s.workers[w] in s.workers;
    if taken.Some? && tx.nonce < taken.value { NonceStep(s.world, tx, cfg.wallet); }
  }

  lemma RecordKeeps(cfg: Config, s: State, w: nat, pass: SettlePass, taken: Option<nat>, receipt: Option<Receipt>,
      asOf: nat)
    requires Inv(cfg, s) && w < |s.workers| && s.workers[w] == Settling(pass, Observed(taken, receipt))
    ensures Inv(cfg, NextSettle(cfg, s, w, Record(asOf)))
  {
    var t := NextSettle(cfg, s, w, Record(asOf));
    assert s.workers[w] in s.workers;
    if pass.todo != [] && asOf <= s.day {
      if receipt.Some? { RecordReceiptWorld(cfg, s, w, pass, taken, receipt.value, asOf); }
      else { RecordNonceWorld(cfg, s, w, pass, taken, asOf); }
      SettleOkStays(s.world, t.world, cfg.wallet, pass, Observed(taken, receipt));
      StepKeeps(cfg, s, t, w, t.workers[w]);
    }
  }

  lemma LookUpIsConclusive(w: World, wallet: Address, pass: SettlePass, taken: Option<nat>)
    requires WorldOk(w, wallet) && SettleOk(w, wallet, pass, NonceKnown(taken)) && pass.todo != []
    ensures SettleOk(w, wallet, pass, Observed(taken, FindReceipt(w.chain.blocks, pass.todo[0])))
  {
    var tx := pass.todo[0];
    if FindReceipt(w.chain.blocks, tx).None? && taken.Some? && tx.nonce < taken.value {
      ConsumedNonceIsDead(w.chain, tx, taken.value);
    }
  }

  lemma TrackKeeps(cfg: Config, s: State, w: nat, e: TrackEvent)
    requires Inv(cfg, s) && w < |s.workers|
    ensures Inv(cfg, NextTrack(cfg, s, w, e))
  {
    var t := NextTrack(cfg, s, w, e);
    var p := s.workers[w];
    assert p in s.workers;
    if t != s {
      if e.TrackCommit? {
        var receipt := p.seen.value;
        if receipt.Some? {
          var m := receipt.value.mined;
          if m.tx.signer == cfg.wallet {
            var send :| send in s.world.sends && Covers(send, m);
            assert InLedger(s.world.sends, m.tx);
          }
          ReceiptStep(s.world, GasSpend(m.tx, p.row, m.Cost(), e.asOf), cfg.wallet);
        }
      }
      StepKeeps(cfg, s, t, w, t.workers[w]);
    }
  }

  // ---- chain moves ----

  // A final head read no later than the receipt it judges is conclusive. Read later, it is so exactly if the
  // receipt's outcome is in some final block by then, be it another block than the receipt named.
  lemma FinalityReadExact(before: Chain, c: Chain, receipt: Receipt, finalCount: nat)
    requires ValidChain(before) && ValidChain(c) && Extends(before, c)
    requires receipt.height < |before.blocks| && receipt.mined in before.blocks[receipt.height].txs
    requires receipt.height < finalCount <= c.finalCount
    ensures finalCount <= before.finalCount ==> IsFinal(c, receipt.mined)
    ensures IsFinal(c, receipt.mined) <==> exists h :: 0 <= h < c.finalCount && receipt.mined in c.blocks[h].txs
  {
    FinalIffInFinalBlock(c, receipt.mined);
    if finalCount <= before.finalCount {
      ReceiptBelowFinalHead(before, receipt);
      FinalStays(before, c, receipt.mined);
    }
  }

  lemma JudgeKeeps(c: Chain, req: MoveRequest, done: nat, landed: set<Contract>, unknown: bool, m: Mined,
      unknown': bool)
    requires ValidChain(c) && JudgedOk(c, req, done, landed, unknown) && done < |req.tracked|
    requires IsFinal(c, m) && m.tx == req.tracked[done]
    requires unknown' == (unknown || (!m.success && m.tx in req.was.executions))
    ensures JudgedOk(c, req, done + 1, landed + Landing(m, req.row), unknown')
  {
    var landed' := landed + Landing(m, req.row);
    if !unknown' {
      forall i | 0 <= i < done + 1 ensures Conclusive(c, req, req.tracked[i], landed') {
        if i < done {
          var n :| IsFinal(c, n) && n.tx == req.tracked[i] && Landing(n, req.row) <= landed
            && (req.tracked[i] in req.was.executions ==> n.success);
          assert Landing(n, req.row) <= landed';
        }
      }
    }
  }

  lemma MoveKeeps(cfg: Config, s: State, w: nat, e: MoveEvent)
    requires Inv(cfg, s) && w < |s.workers|
    ensures Inv(cfg, NextMove(cfg, s, w, e))
  {
    var t := NextMove(cfg, s, w, e);
    var p := s.workers[w];
    assert p in s.workers;
    if e.Apply? {
      if p.Moving? && p.move.Decided? { ApplyEventKeeps(cfg, s, w, p.request, p.move, p.raced, e.now); }
    } else {
      MovePhaseOk(cfg, s, p, e);
      MoveCheckShape(cfg, s, p, e);
      LocalStep(cfg, s, t, w, t.workers[w]);
    }
  }

  lemma MoveCheckShape(cfg: Config, s: State, p: Phase, e: MoveEvent)
    ensures var q := MoveCheck(cfg, s, p, e); q == p || q.Idle? || q.Moving?
  {
  }

  lemma MovePhaseOk(cfg: Config, s: State, p: Phase, e: MoveEvent)
    requires WorldOk(s.world, cfg.wallet) && !e.Apply? && PhaseOk(s.world, cfg.wallet, p)
    ensures PhaseOk(s.world, cfg.wallet, MoveCheck(cfg, s, p, e))
  {
    if e.ReadRequest? || e.CheckSigner? || e.ObserveHash? || e.ReadFinality? { ReceiptsOk(cfg, s, p, e); }
    else { ContractsOk(cfg, s, p, e); }
  }

  // Up to the last receipt.
  lemma ReceiptsOk(cfg: Config, s: State, p: Phase, e: MoveEvent)
    requires WorldOk(s.world, cfg.wallet) && PhaseOk(s.world, cfg.wallet, p)
    requires e.ReadRequest? || e.CheckSigner? || e.ObserveHash? || e.ReadFinality?
    ensures PhaseOk(s.world, cfg.wallet, MoveCheck(cfg, s, p, e))
  {
    if MoveCheck(cfg, s, p, e) != p && (p.Moving? ==> !p.raced) {
      match e
      case ReadRequest(r, tracked) => ReadRequestOk(s.world, cfg.wallet, r, s.rows[r], tracked);
      case ObserveHash => ObserveOk(s.world.chain, p.request, p.move);
      case ReadFinality(finalCount) =>
        if p.move.AwaitFinality? { FinalityOk(s.world.chain, p.request, p.move, finalCount); }
      case _ =>
    }
  }

  // From the contracts to ask to the decision.
  lemma ContractsOk(cfg: Config, s: State, p: Phase, e: MoveEvent)
    requires WorldOk(s.world, cfg.wallet) && PhaseOk(s.world, cfg.wallet, p)
    requires e.Collect? || e.Ask? || e.Conclude? || e.Wait?
    ensures PhaseOk(s.world, cfg.wallet, MoveCheck(cfg, s, p, e))
  {
    if MoveCheck(cfg, s, p, e) != p && !p.raced {
      match e
      case Ask(hasCode) => AskOk(s.world.chain, p.request, p.move, if hasCode then 1 else 0);
      case Conclude =>
        NoneLanded(s.world.chain, p.request, p.move.landed, p.move.unknown, p.move.contracts, p.move.asked);
      case _ =>
    }
  }

  lemma ObserveOk(c: Chain, req: MoveRequest, step: MoveStep)
    requires ValidChain(c) && MoveOk(c, req, step)
    requires step.Observing? && step.done < |req.tracked|
    ensures
      var receipt := FindReceipt(c.blocks, req.tracked[step.done]);
      && (receipt.None? ==> MoveOk(c, req, Observing(step.done + 1, step.landed, true, step.finalCount)))
      && (receipt.Some? && step.finalCount.Some? ==>
            var p := Judge(req, step.done, step.landed, step.unknown, receipt.value, step.finalCount.value, false);
            p.Idle? || (p.Moving? && MoveOk(c, req, p.move)))
  {
    var receipt := FindReceipt(c.blocks, req.tracked[step.done]);
    if receipt.Some? && step.finalCount.Some? && receipt.value.height < step.finalCount.value {
      ReceiptBelowFinalHead(c, receipt.value);
      JudgeKeeps(c, req, step.done, step.landed, step.unknown, receipt.value.mined,
        step.unknown || (!receipt.value.mined.success && receipt.value.mined.tx in req.was.executions));
    }
  }

  lemma FinalityOk(c: Chain, req: MoveRequest, step: MoveStep, finalCount: nat)
    requires ValidChain(c) && MoveOk(c, req, step)
    requires step.AwaitFinality? && finalCount <= c.finalCount
    ensures
      var p := Judge(req, step.done, step.landed, step.unknown, step.receipt, finalCount, false);
      step.receipt.height < finalCount && IsFinal(c, step.receipt.mined) ==> p.Moving? && MoveOk(c, req, p.move)
  {
    if step.receipt.height < finalCount && IsFinal(c, step.receipt.mined) {
      JudgeKeeps(c, req, step.done, step.landed, step.unknown, step.receipt.mined,
        step.unknown || (!step.receipt.mined.success && step.receipt.mined.tx in req.was.executions));
    }
  }

  lemma AskOk(c: Chain, req: MoveRequest, step: MoveStep, more: nat)
    requires ValidChain(c) && MoveOk(c, req, step) && step.Asking? && step.asked < |step.contracts|
    ensures !StoresBatch(c, step.contracts[step.asked], req.row) ==>
      MoveOk(c, req, step.(asked := step.asked + 1, answered := step.answered + more))
  {
    var k := step.contracts[step.asked];
    if k in step.landed { LandedIsStored(c, req, step.landed, step.unknown, k); }
  }

  lemma ApplyEventKeeps(cfg: Config, s: State, w: nat, req: MoveRequest, step: MoveStep, raced: bool, now: Row)
    requires Inv(cfg, s) && w < |s.workers| && s.workers[w] == Moving(req, step, raced) && step.Decided?
    ensures Inv(cfg, NextMove(cfg, s, w, Apply(now)))
  {
    var t := NextMove(cfg, s, w, Apply(now));
    if Unchanged(s, req) && step.found.None? && !step.unknown {
      ApplyKeeps(cfg, s, t, w, req, raced);
    } else if t != s {
      LocalStep(cfg, s, t, w, Idle);
    }
  }

  lemma ReadRequestOk(w: World, wallet: Address, r: RowId, row: Row, tracked: seq<Tx>)
    requires WorldOk(w, wallet) && (set tx | tx in tracked) == TrackedHashes(w, r, row)
    ensures MoveOk(w.chain, MoveRequest(r, row, tracked), CheckingSigner)
  {
    forall tx | tx in RecordedTx(row) ensures tx in tracked || Dead(w.chain, tx) {
      if ConsumedInLedger(w.sends, tx) {
        var i :| 0 <= i < |w.sends| && w.sends[i].tx == tx && w.sends[i].settled == Some(ByNonceConsumed);
        assert w.sends[i] in w.sends;
      } else {
        assert tx in TrackedHashes(w, r, row);
      }
    }
    forall tx | tx in row.executions ensures tx in tracked { assert tx in TrackedHashes(w, r, row); }
  }

  // A contract a final receipt landed on does hold the batch, so asking it finds the batch.
  lemma LandedIsStored(c: Chain, req: MoveRequest, landed: set<Contract>, unknown: bool, k: Contract)
    requires ValidChain(c) && JudgedOk(c, req, |req.tracked|, landed, unknown) && k in landed
    ensures StoresBatch(c, k, req.row)
  {
    var m :| IsFinal(c, m) && k in Landing(m, req.row);
    FinalIsMined(c, m);
    var sub :| sub in m.submissions && sub.batchId == req.row && sub.contract == k;
  }

  lemma NoneLanded(c: Chain, req: MoveRequest, landed: set<Contract>, unknown: bool, contracts: seq<Contract>,
      asked: nat)
    requires ValidChain(c) && JudgedOk(c, req, |req.tracked|, landed, unknown)
    requires landed <= (set k | k in contracts) && asked == |contracts|
    requires forall i :: 0 <= i < asked ==> contracts[i] !in landed
    ensures !unknown ==> forall tx <- req.tracked :: Conclusive(c, req, tx, {})
  {
    assert forall k :: k in (set x | x in contracts) ==> k !in landed;
    assert landed == {};
  }

  lemma ApplyKeeps(cfg: Config, s: State, t: State, w: nat, req: MoveRequest, raced: bool)
    requires Inv(cfg, s) && w < |s.workers| && Unchanged(s, req)
    requires s.workers[w] == Moving(req, Decided(None, false), raced)
    requires t == Goto(s.(rows := s.rows - {req.row},
                          moves := s.moves + [Moved(req.row, AllHashes(s.world, req), raced)]), w, Idle)
    ensures Inv(cfg, t)
  {
    assert s.workers[w] in s.workers;
    var hashes := AllHashes(s.world, req);
    var moved := Moved(req.row, hashes, raced);
    if !raced {
      forall tx | tx in hashes ensures Harmless(s.world.chain, tx, req.row) {
        HashIsHarmless(cfg, s, req, tx);
      }
    }
    forall p | p in t.workers && (p.Submitting? || p.Tracking?) ensures p.row in t.rows {
      assert p in s.workers;
      var i :| 0 <= i < |s.workers| && s.workers[i] == p;
      assert !HoldsRow(s.workers[i], req.row);
    }
    forall send | send in t.world.sends ensures send.row in t.rows || MovedWith(t.moves, send) {
      if send.row == req.row {
        assert moved in t.moves && send.tx in moved.hashes;
      } else if send.row !in s.rows {
        var mv :| mv in s.moves && mv.row == send.row && send.tx in mv.hashes;
        assert mv in t.moves;
      }
    }
  }

  lemma HashIsHarmless(cfg: Config, s: State, req: MoveRequest, tx: Tx)
    requires Inv(cfg, s) && Unchanged(s, req) && tx in AllHashes(s.world, req)
    requires MoveOk(s.world.chain, req, Decided(None, false))
    ensures Harmless(s.world.chain, tx, req.row)
  {
    if tx in SendsOf(s.world.sends, req.row) {
      var send :| send in s.world.sends && send.row == req.row && send.tx == tx;
      var i :| 0 <= i < |s.world.sends| && s.world.sends[i] == send;
      assert s.world.sends[i].settled.Some?;
      if send.settled.value.ByReceipt? { assert tx in req.tracked; }
    } else if tx in GasOf(s.world.gas, req.row) {
      assert tx in (set h | h in req.tracked);
    }
    if tx in req.tracked { assert Conclusive(s.world.chain, req, tx, {}); }
  }

  // ---- every reachable state ----

  ghost predicate FreshStart(cfg: Config, chain: Chain) {
    ValidChain(chain) && forall m <- Flat(chain.blocks) :: m.tx.signer != cfg.wallet
  }

  lemma StepKeepsInv(cfg: Config, s: State, e: Event)
    requires Inv(cfg, s)
    ensures Inv(cfg, Next(cfg, s, e))
  {
    match e
    case Environment(env) => EnvKeeps(cfg, s, env);
    case Crash(w) => if w < |s.workers| { LocalStep(cfg, s, Goto(s, w, Idle), w, Idle); }
    case Submit(w, a) => if w < |s.workers| { SubmitKeeps(cfg, s, w, a); }
    case Settle(w, a) => if w < |s.workers| { SettleKeeps(cfg, s, w, a); }
    case Track(w, a) => if w < |s.workers| { TrackKeeps(cfg, s, w, a); }
    case Move(w, a) => if w < |s.workers| { MoveKeeps(cfg, s, w, a); }
  }

  lemma {:induction false} RunKeepsInv(cfg: Config, s: State, events: seq<Event>)
    requires Inv(cfg, s)
    ensures Inv(cfg, Run(cfg, s, events))
    decreases |events|
  {
    if events != [] {
      StepKeepsInv(cfg, s, events[0]);
      RunKeepsInv(cfg, Next(cfg, s, events[0]), events[1..]);
    }
  }

  lemma ReachableInv(cfg: Config, chain: Chain, events: seq<Event>)
    requires FreshStart(cfg, chain)
    ensures Inv(cfg, Run(cfg, Init(chain, cfg), events))
  {
    RunKeepsInv(cfg, Init(chain, cfg), events);
  }

  // Ledger before network: in every reachable state, crashes included, whatever was broadcast or
  // mined for the wallet has its ledger row.
  lemma BroadcastIsInLedger(cfg: Config, chain: Chain, events: seq<Event>)
    requires FreshStart(cfg, chain)
    ensures
      var w := Run(cfg, Init(chain, cfg), events).world;
      && (forall tx <- w.broadcast :: InLedger(w.sends, tx))
      && (forall m <- Flat(w.chain.blocks) :: m.tx.signer == cfg.wallet ==> InLedger(w.sends, m.tx))
  {
    ReachableInv(cfg, chain, events);
  }

  // A send settled as nonce_consumed is mined on no chain that keeps the final prefix.
  lemma ConsumedIsNeverMined(cfg: Config, chain: Chain, events: seq<Event>, send: Send, later: Chain)
    requires FreshStart(cfg, chain)
    requires
      var w := Run(cfg, Init(chain, cfg), events).world;
      && send in w.sends && send.settled == Some(ByNonceConsumed)
      && ValidChain(later) && Extends(w.chain, later)
    ensures !IsMined(later, send.tx)
  {
    ReachableInv(cfg, chain, events);
    DeadForever(Run(cfg, Init(chain, cfg), events).world.chain, later, send.tx);
  }

  // Reading the receipt first proves nothing: no receipt now, the nonce taken at final blocks
  // afterwards, and it was this very transaction that took it.
  lemma ReceiptFirstIsInconclusive()
    ensures exists c: Chain, d: Chain, tx: Tx ::
      && ValidChain(c) && ValidChain(d) && Extends(c, d)
      && FindReceipt(c.blocks, tx).None?
      && tx.nonce < Count(FinalTxs(d), tx.signer)
      && !Dead(d, tx) && IsMined(d, tx)
  {
    var tx := Tx(1, 0, 1, 1, 0);
    var m := Mined(tx, true, 1, 0, []);
    var c := Chain([], 0);
    var d := Chain([Block(7, [m])], 1);
    assert d.blocks[..1] == d.blocks;
    assert Flat(d.blocks) == [m] by { assert d.blocks[..0] == []; }
    assert Flat(c.blocks) == [];
    assert Count([m], 1) == 1;
    assert [m][..0] == [];
    assert ValidChain(c) && ValidChain(d) && Extends(c, d);
    assert FinalTxs(d) == [m];
    assert m in Flat(d.blocks);
    assert !Dead(d, tx) && IsMined(d, tx);
  }

  // Once a row has left for another chain, every send ever signed for it here has either lost its
  // nonce in the final prefix or has a final receipt that stored nothing for the batch; so no
  // chain that keeps the final prefix stores the batch through any of them.
  lemma MovedBatchIsNeverStored(cfg: Config, chain: Chain, events: seq<Event>, send: Send, later: Chain, m: Mined)
    requires FreshStart(cfg, chain)
    requires
      var s := Run(cfg, Init(chain, cfg), events);
      && send in s.world.sends && send.row !in s.rows
      && (forall mv <- s.moves :: mv.row == send.row ==> !mv.raced)
      && ValidChain(later) && Extends(s.world.chain, later)
      && m in Flat(later.blocks) && m.tx == send.tx
    ensures forall sub <- m.submissions :: sub.batchId != send.row
  {
    var s := Run(cfg, Init(chain, cfg), events);
    ReachableInv(cfg, chain, events);
    assert MovedWith(s.moves, send);
    HarmlessOutcome(s.world.chain, later, send.tx, send.row, m);
  }

  lemma HarmlessOutcome(c: Chain, later: Chain, tx: Tx, batch: BatchId, m: Mined)
    requires ValidChain(c) && ValidChain(later) && Extends(c, later) && Harmless(c, tx, batch)
    requires m in Flat(later.blocks) && m.tx == tx
    ensures FinalWithin(c, tx, batch, {})
    ensures forall sub <- m.submissions :: sub.batchId != batch
  {
    if Dead(c, tx) {
      DeadForever(c, later, tx);
    } else {
      var n :| IsFinal(c, n) && n.tx == tx && Landing(n, batch) <= {};
      FinalOutcome(c, later, n, m);
      assert forall sub <- n.submissions :: sub.batchId == batch ==> sub.contract in Landing(n, batch);
    }
  }

  // With the final head read first no move ever races, and without a worker nothing moves.
  ghost predicate NoRaces(s: State) {
    && (forall mv <- s.moves :: !mv.raced)
    && (forall p <- s.workers :: p.Moving? ==> !p.raced && !p.move.AwaitFinality?)
  }

  lemma GotoNoRaces(s: State, t: State, w: nat)
    requires NoRaces(s) && w < |s.workers| == |t.workers| && t.workers == s.workers[w := t.workers[w]]
    requires t.workers[w].Moving? ==> !t.workers[w].raced && !t.workers[w].move.AwaitFinality?
    requires forall mv <- t.moves :: !mv.raced
    ensures NoRaces(t)
  {
  }

  lemma MoveNoRaces(cfg: Config, s: State, w: nat, e: MoveEvent)
    requires NoRaces(s) && w < |s.workers| && cfg.heads.FinalHeadFirst?
    ensures NoRaces(NextMove(cfg, s, w, e))
  {
    assert s.workers[w] in s.workers;
    GotoNoRaces(s, NextMove(cfg, s, w, e), w);
  }

  lemma WorkerNoRaces(cfg: Config, s: State, w: nat, e: Event)
    requires NoRaces(s) && w < |s.workers| && (e.Submit? || e.Settle? || e.Track?) && e.worker == w
    ensures NoRaces(Next(cfg, s, e)) && |Next(cfg, s, e).workers| == |s.workers|
  {
    assert s.workers[w] in s.workers;
    if e.Submit? {
      SubmitFrame(cfg, s, w, e.submit);
      SubmitResult(cfg, s, w, e.submit);
    }
    GotoNoRaces(s, Next(cfg, s, e), w);
  }

  lemma StepNoRaces(cfg: Config, s: State, e: Event)
    requires NoRaces(s) && (cfg.heads.FinalHeadFirst? || |s.workers| == 0)
    ensures NoRaces(Next(cfg, s, e)) && |Next(cfg, s, e).workers| == |s.workers|
  {
    match e
    case Environment(env) =>
    case Crash(w) => if w < |s.workers| { GotoNoRaces(s, Goto(s, w, Idle), w); }
    case Move(w, a) => if w < |s.workers| { MoveNoRaces(cfg, s, w, a); }
    case _ => if e.worker < |s.workers| { WorkerNoRaces(cfg, s, e.worker, e); }
  }

  lemma {:induction false} RunNoRaces(cfg: Config, s: State, events: seq<Event>)
    requires NoRaces(s) && (cfg.heads.FinalHeadFirst? || |s.workers| == 0)
    ensures NoRaces(Run(cfg, s, events))
    decreases |events|
  {
    if events != [] {
      StepNoRaces(cfg, s, events[0]);
      RunNoRaces(cfg, Next(cfg, s, events[0]), events[1..]);
    }
  }

  // The same for everything else recorded for the row when it left: the hash it tracked, the
  // gas ledger's hashes and its Safe executions.
  lemma MovedHashesAreHarmless(cfg: Config, chain: Chain, events: seq<Event>, mv: Moved, tx: Tx)
    requires FreshStart(cfg, chain)
    requires
      var s := Run(cfg, Init(chain, cfg), events);
      mv in s.moves && !mv.raced && tx in mv.hashes
    ensures
      var c := Run(cfg, Init(chain, cfg), events).world.chain;
      c.finalCount <= |c.blocks| && Harmless(c, tx, mv.row)
  {
    ReachableInv(cfg, chain, events);
  }
}
