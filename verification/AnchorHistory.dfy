// What must have happened before: results that look back along a run, from a state to the steps that led there. A row
// leaves for another chain only after one pass that read it as free to go, heard that the signer had nothing pending,
// and asked the contracts in vain; a send is in the ledger only after the chain was asked for its batch; and a gas
// row carries what a block once charged for its hash.
module AnchorHistory {
  import opened Wrappers
  import opened Chain
  import opened Ledger
  import Runs
  import opened AnchorRuns
  import opened AnchorSafety

  // The state after the first `n` events.
  ghost function At(cfg: Config, chain: Chain, events: seq<Event>, n: nat): State
    requires n <= |events|
  {
    Run(cfg, Init(chain, cfg), events[..n])
  }

  lemma NextAt(cfg: Config, chain: Chain, events: seq<Event>, n: nat)
    requires n < |events|
    ensures At(cfg, chain, events, n + 1) == Next(cfg, At(cfg, chain, events, n), events[n])
  {
    assert events[..n + 1] == events[..n] + [events[n]];
    Runs.RunSnoc(StepOf(cfg), Init(chain, cfg), events[..n], events[n]);
  }

  lemma SameWorkers(cfg: Config, s: State, e: Event)
    ensures |Next(cfg, s, e).workers| == |s.workers|
  {
    if e.Submit? && e.worker < |s.workers| { SubmitFrame(cfg, s, e.worker, e.submit); }
  }

  // A worker moves by its own events only.
  lemma OwnEventsOnly(cfg: Config, s: State, e: Event, w: nat)
    requires w < |s.workers| == |Next(cfg, s, e).workers| && Next(cfg, s, e).workers[w] != s.workers[w]
    ensures !e.Environment? && e.worker == w
  {
    if e.Submit? && e.worker < |s.workers| { SubmitFrame(cfg, s, e.worker, e.submit); }
  }

  lemma {:induction false} WorkersAt(cfg: Config, chain: Chain, events: seq<Event>, n: nat)
    requires n <= |events|
    ensures |At(cfg, chain, events, n).workers| == cfg.workers
  {
    if n > 0 {
      WorkersAt(cfg, chain, events, n - 1);
      NextAt(cfg, chain, events, n - 1);
      SameWorkers(cfg, At(cfg, chain, events, n - 1), events[n - 1]);
    }
  }

  // ---- a row that leaves ----

  // Nothing of the row is open, and every receipt and every gas row of it is among the hashes the move reads back.
  predicate AllAccounted(w: World, r: RowId, tracked: seq<Tx>) {
    && (forall send <- w.sends :: send.row == r ==>
          send.settled.Some? && (send.settled == Some(ByReceipt) ==> send.tx in tracked))
    && (forall g <- w.gas :: g.row == r ==> g.tx in tracked)
  }

  // The row is as the move read it, stuck, with its move requested and no Safe proposal open.
  predicate FreeToLeave(s: State, req: MoveRequest) {
    && req.row in s.rows && s.rows[req.row] == req.was
    && req.was.status == Stuck && req.was.moveRequested && !req.was.openProposal
    && AllAccounted(s.world, req.row, req.tracked)
  }

  // Step `n` reads the request, of a row that is free to leave, with every execution and the hash it followed
  // tracked, unless that lost its nonce.
  ghost predicate ReadsFree(cfg: Config, chain: Chain, events: seq<Event>, n: nat, w: nat, req: MoveRequest)
    requires n < |events|
  {
    var s := At(cfg, chain, events, n);
    && events[n] == Move(w, ReadRequest(req.row, req.tracked)) && FreeToLeave(s, req)
    && (forall tx <- req.was.executions :: tx in req.tracked)
    && (req.was.tx.Some? ==> req.was.tx.value in req.tracked || ConsumedInLedger(s.world.sends, req.was.tx.value))
  }

  // From step `first` to step `n` the worker checks this one request.
  ghost predicate OnePass(cfg: Config, chain: Chain, events: seq<Event>, first: nat, n: nat, w: nat, req: MoveRequest)
    requires n <= |events| && w < cfg.workers
  {
    forall k :: first < k <= n ==>
      var s := At(cfg, chain, events, k);
      |s.workers| == cfg.workers && s.workers[w].Moving? && s.workers[w].request == req
  }

  predicate MustHaveCode(cfg: Config, req: MoveRequest, c: Contract) {
    c == cfg.contract || Some(c) == req.was.contract
  }

  // Step `n` asks contract `c` for the batch, and the chain does not hold it there. A contract that must have code
  // answers with code.
  ghost predicate AsksInVain(cfg: Config, chain: Chain, events: seq<Event>, n: nat, w: nat, req: MoveRequest,
                             c: Contract)
    requires n < |events|
  {
    && (events[n] == Move(w, Ask(true)) || (events[n] == Move(w, Ask(false)) && !MustHaveCode(cfg, req, c)))
    && !StoresBatch(At(cfg, chain, events, n).world.chain, c, req.row)
  }

  ghost predicate AskedInVain(cfg: Config, chain: Chain, events: seq<Event>, first: nat, n: nat, w: nat,
                              req: MoveRequest, c: Contract)
    requires n <= |events|
  {
    exists k :: first < k < n && AsksInVain(cfg, chain, events, k, w, req, c)
  }

  // Step `n` finds nothing that speaks for the tracked hash: no receipt, or a Safe execution that reverted.
  ghost predicate Doubts(cfg: Config, chain: Chain, events: seq<Event>, n: nat, req: MoveRequest, i: nat)
    requires n <= |events|
  {
    i < |req.tracked| &&
    var receipt := FindReceipt(At(cfg, chain, events, n).world.chain.blocks, req.tracked[i]);
    receipt.None? || (!receipt.value.mined.success && req.tracked[i] in req.was.executions)
  }

  ghost predicate Doubted(cfg: Config, chain: Chain, events: seq<Event>, first: nat, n: nat, req: MoveRequest)
    requires n <= |events|
  {
    exists k, i :: first < k < n && Doubts(cfg, chain, events, k, req, i)
  }

  predicate Unknown(step: MoveStep) { !step.CheckingSigner? && step.unknown }

  // The receipt that awaits the final head was found by the pass.
  ghost predicate WasFound(cfg: Config, chain: Chain, events: seq<Event>, first: nat, n: nat, tx: Tx, receipt: Receipt)
    requires n <= |events|
  {
    exists k :: first < k < n && FindReceipt(At(cfg, chain, events, k).world.chain.blocks, tx) == Some(receipt)
  }

  ghost predicate WasStored(cfg: Config, chain: Chain, events: seq<Event>, first: nat, n: nat, c: Contract, r: RowId)
    requires n <= |events|
  {
    exists k :: first < k < n && StoresBatch(At(cfg, chain, events, k).world.chain, c, r)
  }

  // What the pass has established, by how far it has come.
  ghost predicate Established(cfg: Config, chain: Chain, events: seq<Event>, first: nat, signer: nat, n: nat, w: nat,
                              req: MoveRequest, step: MoveStep)
    requires n <= |events|
  {
    && first < n && ReadsFree(cfg, chain, events, first, w, req)
    && (!step.CheckingSigner? ==> first < signer < n && events[signer] == Move(w, CheckSigner(false)))
    && (step.Asking? ==>
          && step.asked <= |step.contracts|
          && (forall c :: MustHaveCode(cfg, req, c) ==> c in step.contracts)
          && forall i :: 0 <= i < step.asked ==> AskedInVain(cfg, chain, events, first, n, w, req, step.contracts[i]))
    && (step.Decided? && step.found.None? ==>
          forall c :: MustHaveCode(cfg, req, c) ==> AskedInVain(cfg, chain, events, first, n, w, req, c))
    && (step.Decided? && step.found.Some? ==> WasStored(cfg, chain, events, first, n, step.found.value, req.row))
    && (Unknown(step) ==> Doubted(cfg, chain, events, first, n, req))
    && (step.AwaitFinality? ==>
          step.done < |req.tracked|
          && WasFound(cfg, chain, events, first, n, req.tracked[step.done], step.receipt))
  }

  lemma SubmitMovesNothing(cfg: Config, s: State, w: nat, e: SubmitEvent)
    requires w < |s.workers| == |NextSubmit(cfg, s, w, e).workers|
    requires NextSubmit(cfg, s, w, e).workers[w] != s.workers[w]
    ensures !NextSubmit(cfg, s, w, e).workers[w].Moving?
  {
  }

  lemma MovingOnlyByChecks(cfg: Config, s: State, e: Event, w: nat)
    requires w < |s.workers| == |Next(cfg, s, e).workers| && Next(cfg, s, e).workers[w].Moving?
    requires Next(cfg, s, e).workers[w] != s.workers[w]
    ensures e.Move? && e.worker == w && !e.move.Apply?
    ensures Next(cfg, s, e).workers[w] == MoveCheck(cfg, s, s.workers[w], e.move)
  {
    OwnEventsOnly(cfg, s, e, w);
    if e.Submit? { SubmitMovesNothing(cfg, s, w, e.submit); }
  }

  lemma ReadsWhatIsFree(cfg: Config, s: State, e: MoveEvent)
    requires MoveCheck(cfg, s, Idle, e).Moving?
    ensures e.ReadRequest? && MoveCheck(cfg, s, Idle, e).move.CheckingSigner?
    ensures
      var req := MoveCheck(cfg, s, Idle, e).request;
      && e == ReadRequest(req.row, req.tracked) && FreeToLeave(s, req)
      && (forall tx <- req.was.executions :: tx in req.tracked)
      && (req.was.tx.Some? ==> req.was.tx.value in req.tracked || ConsumedInLedger(s.world.sends, req.was.tx.value))
  {
    var req := MoveCheck(cfg, s, Idle, e).request;
    var hashes := TrackedHashes(s.world, req.row, req.was);
    assert forall tx :: tx in hashes ==> tx in (set x | x in req.tracked);
    forall send | send in s.world.sends && send.row == req.row
      ensures send.settled.Some? && (send.settled == Some(ByReceipt) ==> send.tx in req.tracked)
    {
      var i :| 0 <= i < |s.world.sends| && s.world.sends[i] == send;
      if send.settled == Some(ByReceipt) { assert send.tx in hashes; }
    }
    forall g | g in s.world.gas && g.row == req.row ensures g.tx in req.tracked {
      assert g.tx in GasOf(s.world.gas, req.row);
      assert g.tx in hashes;
    }
    forall tx | tx in req.was.executions ensures tx in req.tracked { assert tx in hashes; }
    if req.was.tx.Some? && !ConsumedInLedger(s.world.sends, req.was.tx.value) {
      assert req.was.tx.value in hashes;
    }
  }

  lemma OnlyIdleWorkersRead(cfg: Config, s: State, p: Phase, e: MoveEvent)
    requires MoveCheck(cfg, s, p, e) != p && MoveCheck(cfg, s, p, e).Moving?
    ensures p.Idle? || (p.Moving? && MoveCheck(cfg, s, p, e).request == p.request && !e.ReadRequest?)
  {
  }

  // A step of the worker whose pass it is.
  lemma PassGoesOn(cfg: Config, chain: Chain, events: seq<Event>, n: nat, w: nat, first: nat, signer: nat)
    returns (signer': nat)
    requires n < |events| && w < cfg.workers && |At(cfg, chain, events, n).workers| == cfg.workers
    requires events[n].Move? && events[n].worker == w && !events[n].move.Apply?
    requires
      var s := At(cfg, chain, events, n);
      var q := MoveCheck(cfg, s, s.workers[w], events[n].move);
      && s.workers[w].Moving? && q.Moving? && q != s.workers[w] && q.request == s.workers[w].request
      && Established(cfg, chain, events, first, signer, n, w, s.workers[w].request, s.workers[w].move)
    ensures
      var s := At(cfg, chain, events, n);
      var q := MoveCheck(cfg, s, s.workers[w], events[n].move);
      Established(cfg, chain, events, first, signer', n + 1, w, q.request, q.move)
  {
    var s := At(cfg, chain, events, n);
    var p := s.workers[w];
    signer' := if p.move.CheckingSigner? then n else signer;
    StillInVain(cfg, chain, events, first, n, w, p.request);
    StillDoubted(cfg, chain, events, first, n, p.request);
    if p.move.Asking? {
      AskingGoesOn(cfg, chain, events, n, w, first, signer, p.request, p.move, p.raced);
    } else if p.move.AwaitFinality? {
      JudgingGoesOn(cfg, chain, events, n, w, first, signer, p.request, p.move, p.raced);
    } else if p.move.Observing? && events[n].move.ObserveHash? {
      LooksGoOn(cfg, chain, events, n, w, first, signer, p.request, p.move, p.raced);
    } else {
      ChecksGoOn(cfg, chain, events, n, w, first, signer, p.request, p.move, p.raced);
    }
  }

  lemma StillDoubted(cfg: Config, chain: Chain, events: seq<Event>, first: nat, n: nat, req: MoveRequest)
    requires n < |events|
    ensures Doubted(cfg, chain, events, first, n, req) ==> Doubted(cfg, chain, events, first, n + 1, req)
  {
    if Doubted(cfg, chain, events, first, n, req) {
      var k, i :| first < k < n && Doubts(cfg, chain, events, k, req, i);
      assert first < k < n + 1;
    }
  }

  // The signer's answer, and a final head read first.
  lemma ChecksGoOn(cfg: Config, chain: Chain, events: seq<Event>, n: nat, w: nat, first: nat, signer: nat,
                   req: MoveRequest, step: MoveStep, raced: bool)
    requires n < |events| && events[n].Move? && events[n].worker == w
    requires step.CheckingSigner? || (step.Observing? && !events[n].move.ObserveHash?)
    requires Established(cfg, chain, events, first, signer, n, w, req, step)
    requires Doubted(cfg, chain, events, first, n, req) ==> Doubted(cfg, chain, events, first, n + 1, req)
    ensures
      var p := Moving(req, step, raced);
      var q := MoveCheck(cfg, At(cfg, chain, events, n), p, events[n].move);
      var heard := if step.CheckingSigner? then n else signer;
      q.Moving? && q != p ==> Established(cfg, chain, events, first, heard, n + 1, w, req, q.move)
  {
  }

  // What a look at the chain leaves to be shown.
  lemma Establishes(cfg: Config, chain: Chain, events: seq<Event>, n: nat, w: nat, first: nat, signer: nat,
                    req: MoveRequest, step: MoveStep, next: MoveStep)
    requires n < |events| && Established(cfg, chain, events, first, signer, n, w, req, step)
    requires !step.CheckingSigner? && (next.Observing? || next.AwaitFinality?)
    requires Unknown(next) ==> Doubted(cfg, chain, events, first, n + 1, req)
    requires next.AwaitFinality? ==>
      next.done < |req.tracked| && WasFound(cfg, chain, events, first, n + 1, req.tracked[next.done], next.receipt)
    ensures Established(cfg, chain, events, first, signer, n + 1, w, req, next)
  {
  }

  // What a look at the chain for a receipt can lead to.
  lemma Looks(cfg: Config, s: State, req: MoveRequest, step: MoveStep, raced: bool)
    requires step.Observing?
    ensures
      var q := MoveCheck(cfg, s, Moving(req, step, raced), ObserveHash);
      q.Moving? && q.move != step ==>
        && step.done < |req.tracked| && q.request == req
        && var receipt := FindReceipt(s.world.chain.blocks, req.tracked[step.done]);
        && (q.move.Observing? || (q.move.AwaitFinality? && q.move.done == step.done && receipt == Some(q.move.receipt)))
        && (q.move.unknown ==>
              || step.unknown || receipt.None?
              || (!receipt.value.mined.success && req.tracked[step.done] in req.was.executions))
    ensures
      var q := MoveCheck(cfg, s, Moving(req, step, raced), ObserveHash);
      q.Moving? && q.move == step ==> q == Moving(req, step, raced)
  {
  }

  // A receipt that is looked for.
  lemma LooksGoOn(cfg: Config, chain: Chain, events: seq<Event>, n: nat, w: nat, first: nat, signer: nat,
                  req: MoveRequest, step: MoveStep, raced: bool)
    requires n < |events| && events[n] == Move(w, ObserveHash) && step.Observing?
    requires Established(cfg, chain, events, first, signer, n, w, req, step)
    requires Doubted(cfg, chain, events, first, n, req) ==> Doubted(cfg, chain, events, first, n + 1, req)
    ensures
      var p := Moving(req, step, raced);
      var q := MoveCheck(cfg, At(cfg, chain, events, n), p, events[n].move);
      q.Moving? && q != p ==> Established(cfg, chain, events, first, signer, n + 1, w, req, q.move)
  {
    var s := At(cfg, chain, events, n);
    Looks(cfg, s, req, step, raced);
    var q := MoveCheck(cfg, s, Moving(req, step, raced), ObserveHash);
    if q.Moving? && q.move != step {
      if Doubts(cfg, chain, events, n, req, step.done) { assert Doubted(cfg, chain, events, first, n + 1, req); }
      if q.move.AwaitFinality? {
        assert WasFound(cfg, chain, events, first, n + 1, req.tracked[step.done], q.move.receipt);
      }
      Establishes(cfg, chain, events, n, w, first, signer, req, step, q.move);
    }
  }

  // What the final head, read after the receipt it judges, can lead to.
  lemma Judges(cfg: Config, s: State, req: MoveRequest, step: MoveStep, raced: bool, e: MoveEvent)
    requires step.AwaitFinality?
    ensures
      var q := MoveCheck(cfg, s, Moving(req, step, raced), e);
      q.Moving? && q != Moving(req, step, raced) ==>
        && q.request == req && q.move.Observing?
        && (q.move.unknown ==>
              step.unknown || (!step.receipt.mined.success && step.receipt.mined.tx in req.was.executions))
  {
  }

  // The final head, read after the receipt it judges.
  lemma JudgingGoesOn(cfg: Config, chain: Chain, events: seq<Event>, n: nat, w: nat, first: nat, signer: nat,
                      req: MoveRequest, step: MoveStep, raced: bool)
    requires n < |events| && events[n].Move? && events[n].worker == w && step.AwaitFinality?
    requires Established(cfg, chain, events, first, signer, n, w, req, step)
    requires Doubted(cfg, chain, events, first, n, req) ==> Doubted(cfg, chain, events, first, n + 1, req)
    ensures
      var p := Moving(req, step, raced);
      var q := MoveCheck(cfg, At(cfg, chain, events, n), p, events[n].move);
      q.Moving? && q != p ==> Established(cfg, chain, events, first, signer, n + 1, w, req, q.move)
  {
    var k :| first < k < n
      && FindReceipt(At(cfg, chain, events, k).world.chain.blocks, req.tracked[step.done]) == Some(step.receipt);
    if Doubts(cfg, chain, events, k, req, step.done) { assert Doubted(cfg, chain, events, first, n + 1, req); }
    Judges(cfg, At(cfg, chain, events, n), req, step, raced, events[n].move);
    var q := MoveCheck(cfg, At(cfg, chain, events, n), Moving(req, step, raced), events[n].move);
    if q.Moving? && q != Moving(req, step, raced) {
      Establishes(cfg, chain, events, n, w, first, signer, req, step, q.move);
    }
  }

  lemma StillInVain(cfg: Config, chain: Chain, events: seq<Event>, first: nat, n: nat, w: nat, req: MoveRequest)
    requires n < |events|
    ensures forall c :: AskedInVain(cfg, chain, events, first, n, w, req, c)
              ==> AskedInVain(cfg, chain, events, first, n + 1, w, req, c)
  {
    forall c | AskedInVain(cfg, chain, events, first, n, w, req, c)
      ensures AskedInVain(cfg, chain, events, first, n + 1, w, req, c)
    {
      var k :| first < k < n && AsksInVain(cfg, chain, events, k, w, req, c);
      assert first < k < n + 1;
    }
  }

  // What asking a contract can lead to.
  lemma Asks(cfg: Config, s: State, req: MoveRequest, step: MoveStep, raced: bool, e: MoveEvent)
    requires step.Asking? && step.asked <= |step.contracts|
    ensures
      var p := Moving(req, step, raced);
      var q := MoveCheck(cfg, s, p, e);
      q.Moving? && q != p ==>
        && q.request == req && (q.move.Asking? || q.move.Decided?) && q.move.unknown == step.unknown
        && (q.move.Asking? ==>
              && step.asked < |step.contracts| && q.move.contracts == step.contracts && q.move.asked == step.asked + 1
              && (e == Ask(true) || (e == Ask(false) && !MustHaveCode(cfg, req, step.contracts[step.asked])))
              && !StoresBatch(s.world.chain, step.contracts[step.asked], req.row))
        && (q.move.Decided? && q.move.found.None? ==> step.asked == |step.contracts|)
        && (q.move.Decided? && q.move.found.Some? ==> StoresBatch(s.world.chain, q.move.found.value, req.row))
  {
  }

  lemma AllAsked(cfg: Config, chain: Chain, events: seq<Event>, n: nat, w: nat, first: nat, req: MoveRequest,
                 contracts: seq<Contract>)
    requires n <= |events|
    requires forall c :: MustHaveCode(cfg, req, c) ==> c in contracts
    requires forall i :: 0 <= i < |contracts| ==> AskedInVain(cfg, chain, events, first, n, w, req, contracts[i])
    ensures forall c :: MustHaveCode(cfg, req, c) ==> AskedInVain(cfg, chain, events, first, n, w, req, c)
  {
    forall c | MustHaveCode(cfg, req, c) ensures AskedInVain(cfg, chain, events, first, n, w, req, c) {
      var i :| 0 <= i < |contracts| && contracts[i] == c;
      assert AskedInVain(cfg, chain, events, first, n, w, req, contracts[i]);
    }
  }

  lemma AskingGoesOn(cfg: Config, chain: Chain, events: seq<Event>, n: nat, w: nat, first: nat, signer: nat,
                     req: MoveRequest, step: MoveStep, raced: bool)
    requires n < |events| && events[n].Move? && events[n].worker == w && step.Asking?
    requires Established(cfg, chain, events, first, signer, n, w, req, step)
    requires forall c :: AskedInVain(cfg, chain, events, first, n, w, req, c)
               ==> AskedInVain(cfg, chain, events, first, n + 1, w, req, c)
    requires Doubted(cfg, chain, events, first, n, req) ==> Doubted(cfg, chain, events, first, n + 1, req)
    ensures
      var p := Moving(req, step, raced);
      var q := MoveCheck(cfg, At(cfg, chain, events, n), p, events[n].move);
      q.Moving? && q != p ==> Established(cfg, chain, events, first, signer, n + 1, w, req, q.move)
  {
    var p := Moving(req, step, raced);
    var q := MoveCheck(cfg, At(cfg, chain, events, n), p, events[n].move);
    Asks(cfg, At(cfg, chain, events, n), req, step, raced, events[n].move);
    if q.Moving? && q != p {
      if q.move.Asking? {
        assert AsksInVain(cfg, chain, events, n, w, req, step.contracts[step.asked]);
      } else if q.move.found.None? {
        AllAsked(cfg, chain, events, n + 1, w, first, req, step.contracts);
      } else {
        assert WasStored(cfg, chain, events, first, n + 1, q.move.found.value, req.row);
      }
    }
  }

  // A step of somebody else.
  lemma PassWaits(cfg: Config, chain: Chain, events: seq<Event>, n: nat, w: nat, first: nat, signer: nat,
                  req: MoveRequest, step: MoveStep)
    requires n < |events| && Established(cfg, chain, events, first, signer, n, w, req, step)
    ensures Established(cfg, chain, events, first, signer, n + 1, w, req, step)
  {
    StillInVain(cfg, chain, events, first, n, w, req);
    StillDoubted(cfg, chain, events, first, n, req);
    if step.AwaitFinality? {
      var k :| first < k < n
        && FindReceipt(At(cfg, chain, events, k).world.chain.blocks, req.tracked[step.done]) == Some(step.receipt);
      assert first < k < n + 1;
    }
    if step.Decided? && step.found.Some? {
      var k :| first < k < n && StoresBatch(At(cfg, chain, events, k).world.chain, step.found.value, req.row);
      assert first < k < n + 1;
    }
  }

  lemma {:induction false} PassSoFar(cfg: Config, chain: Chain, events: seq<Event>, n: nat, w: nat)
    returns (first: nat, signer: nat)
    requires n <= |events| && w < cfg.workers && |At(cfg, chain, events, n).workers| == cfg.workers
    requires At(cfg, chain, events, n).workers[w].Moving?
    ensures
      var p := At(cfg, chain, events, n).workers[w];
      && Established(cfg, chain, events, first, signer, n, w, p.request, p.move)
      && OnePass(cfg, chain, events, first, n, w, p.request)
    decreases n
  {
    WorkersAt(cfg, chain, events, n - 1);
    NextAt(cfg, chain, events, n - 1);
    var s := At(cfg, chain, events, n - 1);
    var q := At(cfg, chain, events, n).workers[w];
    if s.workers[w] == q {
      first, signer := PassSoFar(cfg, chain, events, n - 1, w);
      PassWaits(cfg, chain, events, n - 1, w, first, signer, q.request, q.move);
    } else {
      var e := events[n - 1];
      MovingOnlyByChecks(cfg, s, e, w);
      OnlyIdleWorkersRead(cfg, s, s.workers[w], e.move);
      if s.workers[w].Idle? {
        ReadsWhatIsFree(cfg, s, e.move);
        first, signer := n - 1, 0;
      } else {
        first, signer := PassSoFar(cfg, chain, events, n - 1, w);
        signer := PassGoesOn(cfg, chain, events, n - 1, w, first, signer);
      }
    }
  }

  lemma OnlyApplyRemoves(cfg: Config, s: State, e: Event, r: RowId)
    requires r in s.rows && r !in Next(cfg, s, e).rows
    ensures e.Move? && e.worker < |s.workers| && e.move.Apply?
    ensures
      var p := s.workers[e.worker];
      && p.Moving? && p.request.row == r && p.move == Decided(None, false)
      && s.rows[r] == p.request.was
      && (forall send <- s.world.sends :: send.row == r ==>
            send.settled.Some? && (send.settled == Some(ByReceipt) ==> send.tx in p.request.tracked))
      && (forall g <- s.world.gas :: g.row == r ==> g.tx in p.request.tracked)
  {
    if e.Submit? && e.worker < |s.workers| { SubmitFrame(cfg, s, e.worker, e.submit); }
    var p := s.workers[e.worker];
    forall send | send in s.world.sends && send.row == r
      ensures send.settled.Some? && (send.settled == Some(ByReceipt) ==> send.tx in p.request.tracked)
    {
      var i :| 0 <= i < |s.world.sends| && s.world.sends[i] == send;
    }
    forall g | g in s.world.gas && g.row == r ensures g.tx in p.request.tracked {
      assert g.tx in GasOf(s.world.gas, r);
      assert g.tx in (set tx | tx in p.request.tracked);
    }
  }

  // A row leaves only by a move that in one pass read it free to leave, then heard that the signer has nothing
  // pending, and then asked at least the configured contract and the row's own, deployed and without the batch; and
  // only if it is still free to leave as it was read. Unless a receipt was displaced meanwhile, each hash the pass
  // tracked is then final without having stored the batch anywhere, a Safe execution successful besides.
  lemma LeavesOnlyWhenChecked(cfg: Config, chain: Chain, events: seq<Event>, n: nat, r: RowId)
    returns (w: nat, first: nat, signer: nat)
    requires FreshStart(cfg, chain) && n < |events|
    requires r in At(cfg, chain, events, n).rows && r !in At(cfg, chain, events, n + 1).rows
    ensures events[n].Move? && events[n].move.Apply? && events[n].worker == w < cfg.workers
    ensures |At(cfg, chain, events, n).workers| == cfg.workers && At(cfg, chain, events, n).workers[w].Moving?
    ensures
      var s := At(cfg, chain, events, n);
      var req := s.workers[w].request;
      && req.row == r && first < signer < n
      && ReadsFree(cfg, chain, events, first, w, req) && OnePass(cfg, chain, events, first, n, w, req)
      && events[signer] == Move(w, CheckSigner(false))
      && (forall c :: MustHaveCode(cfg, req, c) ==> AskedInVain(cfg, chain, events, first, n, w, req, c))
      && FreeToLeave(s, req)
      && s.world.chain.finalCount <= |s.world.chain.blocks|
      && (s.workers[w].raced || forall tx <- req.tracked :: Conclusive(s.world.chain, req, tx, {}))
  {
    var s := At(cfg, chain, events, n);
    NextAt(cfg, chain, events, n);
    WorkersAt(cfg, chain, events, n);
    ReachableInv(cfg, chain, events[..n]);
    OnlyApplyRemoves(cfg, s, events[n], r);
    w := events[n].worker;
    first, signer := PassSoFar(cfg, chain, events, n, w);
    assert PhaseOk(s.world, cfg.wallet, s.workers[w]);
  }

  lemma FreeMeansUnchanged(s: State, req: MoveRequest)
    requires req.was.status == Stuck && req.was.moveRequested && !req.was.openProposal
    ensures Unchanged(s, req) <==> FreeToLeave(s, req) && !RowHeld(s, req.row)
  {
    var r := req.row;
    if FreeToLeave(s, req) {
      forall i | 0 <= i < |s.world.sends| && s.world.sends[i].row == r
        ensures s.world.sends[i].settled.Some?
        ensures s.world.sends[i].settled == Some(ByReceipt) ==> s.world.sends[i].tx in req.tracked
      {
        assert s.world.sends[i] in s.world.sends;
      }
      forall tx | tx in GasOf(s.world.gas, r) ensures tx in (set h | h in req.tracked) {
        var g :| g in s.world.gas && g.row == r && g.tx == tx;
      }
    }
    if Unchanged(s, req) {
      forall send | send in s.world.sends && send.row == r
        ensures send.settled.Some? && (send.settled == Some(ByReceipt) ==> send.tx in req.tracked)
      {
        var i :| 0 <= i < |s.world.sends| && s.world.sends[i] == send;
      }
      forall g | g in s.world.gas && g.row == r ensures g.tx in req.tracked {
        assert g.tx in GasOf(s.world.gas, r);
        assert g.tx in (set tx | tx in req.tracked);
      }
    }
  }

  // How a move is decided, in every run: the row leaves exactly if it still is free to leave, nobody holds it, and the
  // pass found the batch nowhere and doubted no hash. If it found the batch, on a contract that held it, or doubted a
  // hash, for want of a receipt or over a reverted Safe execution, the request is withdrawn and the row stays. And if
  // the row is not as it was read, nothing of it changes.
  lemma MoveDecides(cfg: Config, chain: Chain, events: seq<Event>, n: nat, w: nat, now: Row) returns (first: nat)
    requires n <= |events| && w < cfg.workers && |At(cfg, chain, events, n).workers| == cfg.workers
    requires
      var p := At(cfg, chain, events, n).workers[w];
      p.Moving? && p.move.Decided? && RowUpdate(p.request.was, now) && !now.moveRequested
    ensures
      var s := At(cfg, chain, events, n);
      var t := Next(cfg, s, Move(w, Apply(now)));
      var p := s.workers[w];
      var req := p.request;
      var free := FreeToLeave(s, req) && !RowHeld(s, req.row);
      && first < n && t.workers == s.workers[w := Idle] && t.world == s.world
      && t.rows == (if !free then s.rows
                    else if p.move.found.None? && !p.move.unknown then s.rows - {req.row}
                    else s.rows[req.row := now])
      && (p.move.found.Some? ==> WasStored(cfg, chain, events, first, n, p.move.found.value, req.row))
      && (p.move.unknown ==> Doubted(cfg, chain, events, first, n, req))
  {
    var signer;
    first, signer := PassSoFar(cfg, chain, events, n, w);
    FreeMeansUnchanged(At(cfg, chain, events, n), At(cfg, chain, events, n).workers[w].request);
  }

  // ---- a send in the ledger ----

  // Step `n` asks the configured contract for the row's batch, and the chain does not hold it.
  ghost predicate FindsAbsent(cfg: Config, chain: Chain, events: seq<Event>, n: nat, w: nat, r: RowId)
    requires n < |events|
  {
    var s := At(cfg, chain, events, n);
    && events[n] == Submit(w, NotOnChain) && w < |s.workers|
    && s.workers[w].Submitting? && s.workers[w].row == r && s.workers[w].submit.Priced?
    && !StoresBatch(s.world.chain, cfg.contract, r)
  }

  // Past the question whether the chain holds the batch already.
  predicate PastSearch(step: SubmitStep) { step.Reconciled? || step.Admitted? || step.Reserved? || step.Answered? }

  // From step `first` to step `n` the worker holds this one row.
  ghost predicate OneClaim(cfg: Config, chain: Chain, events: seq<Event>, first: nat, n: nat, w: nat, r: RowId)
    requires n <= |events| && w < cfg.workers
  {
    forall k :: first < k <= n ==>
      var s := At(cfg, chain, events, k);
      |s.workers| == cfg.workers && s.workers[w].Submitting? && s.workers[w].row == r
  }

  predicate SendsOwnRow(p: Phase) {
    p.Submitting? ==>
      match p.submit
      case Admitted(send) => send.row == p.row
      case Reserved(send) => send.row == p.row
      case Answered(send, _) => send.row == p.row
      case _ => true
  }

  // A submit step keeps the row, gets past the search only by finding the batch absent, and carries the row's send.
  lemma SubmitSearches(cfg: Config, s: State, w: nat, e: SubmitEvent)
    requires w < |s.workers| == |NextSubmit(cfg, s, w, e).workers| && NextSubmit(cfg, s, w, e).workers[w].Submitting?
    ensures
      var p, q := s.workers[w], NextSubmit(cfg, s, w, e).workers[w];
      && (PastSearch(q.submit) ==> p.Submitting? && p.row == q.row)
      && (PastSearch(q.submit) && !PastSearch(p.submit) ==>
            && e.NotOnChain? && p.submit.Priced?
            && !StoresBatch(s.world.chain, cfg.contract, q.row))
  {
  }

  lemma SubmitSendsOwnRow(cfg: Config, s: State, w: nat, e: SubmitEvent)
    requires w < |s.workers| == |NextSubmit(cfg, s, w, e).workers| && SendsOwnRow(s.workers[w])
    ensures SendsOwnRow(NextSubmit(cfg, s, w, e).workers[w])
  {
  }

  lemma OtherEventsSubmitNothing(cfg: Config, s: State, e: Event, w: nat)
    requires w < |s.workers| == |Next(cfg, s, e).workers| && !(e.Submit? && e.worker == w)
    ensures Next(cfg, s, e).workers[w] == s.workers[w] || !Next(cfg, s, e).workers[w].Submitting?
  {
    if Next(cfg, s, e).workers[w] != s.workers[w] {
      OwnEventsOnly(cfg, s, e, w);
      if e.Move? && !e.move.Apply? { MoveCheckShape(cfg, s, s.workers[w], e.move); }
    }
  }

  lemma SubmittingOnlyBySubmits(cfg: Config, s: State, e: Event, w: nat)
    requires w < |s.workers| == |Next(cfg, s, e).workers| && Next(cfg, s, e).workers[w].Submitting?
    requires Next(cfg, s, e).workers[w] != s.workers[w]
    ensures e.Submit? && e.worker == w
    ensures
      var q := Next(cfg, s, e).workers[w];
      && (PastSearch(q.submit) ==> s.workers[w].Submitting? && s.workers[w].row == q.row)
      && (PastSearch(q.submit) && !PastSearch(s.workers[w].submit) ==>
            && e.submit.NotOnChain? && s.workers[w].submit.Priced?
            && !StoresBatch(s.world.chain, cfg.contract, q.row))
      && (SendsOwnRow(s.workers[w]) ==> SendsOwnRow(q))
  {
    if e.Submit? && e.worker == w {
      SubmitSearches(cfg, s, w, e.submit);
      if SendsOwnRow(s.workers[w]) { SubmitSendsOwnRow(cfg, s, w, e.submit); }
    } else {
      OtherEventsSubmitNothing(cfg, s, e, w);
    }
  }

  lemma {:induction false} SearchSoFar(cfg: Config, chain: Chain, events: seq<Event>, n: nat, w: nat)
    returns (first: nat)
    requires n <= |events| && w < cfg.workers && |At(cfg, chain, events, n).workers| == cfg.workers
    requires
      var p := At(cfg, chain, events, n).workers[w];
      p.Submitting? && PastSearch(p.submit)
    ensures
      var p := At(cfg, chain, events, n).workers[w];
      first < n && FindsAbsent(cfg, chain, events, first, w, p.row) && OneClaim(cfg, chain, events, first, n, w, p.row)
    decreases n
  {
    WorkersAt(cfg, chain, events, n - 1);
    NextAt(cfg, chain, events, n - 1);
    var s := At(cfg, chain, events, n - 1);
    if s.workers[w] != At(cfg, chain, events, n).workers[w] {
      SubmittingOnlyBySubmits(cfg, s, events[n - 1], w);
    }
    if s.workers[w].Submitting? && PastSearch(s.workers[w].submit) {
      first := SearchSoFar(cfg, chain, events, n - 1, w);
    } else {
      first := n - 1;
    }
  }

  lemma {:induction false} OwnRows(cfg: Config, chain: Chain, events: seq<Event>, n: nat, w: nat)
    requires n <= |events| && w < cfg.workers && |At(cfg, chain, events, n).workers| == cfg.workers
    ensures SendsOwnRow(At(cfg, chain, events, n).workers[w])
    decreases n
  {
    if n > 0 {
      WorkersAt(cfg, chain, events, n - 1);
      NextAt(cfg, chain, events, n - 1);
      OwnRows(cfg, chain, events, n - 1, w);
      var s := At(cfg, chain, events, n - 1);
      if s.workers[w] != At(cfg, chain, events, n).workers[w] && At(cfg, chain, events, n).workers[w].Submitting? {
        SubmittingOnlyBySubmits(cfg, s, events[n - 1], w);
      }
    }
  }

  // The ledger gains a send only when a worker reserves the one it was admitted with.
  lemma LedgerGrowsByReserving(cfg: Config, s: State, e: Event, i: nat)
    requires |s.world.sends| <= i < |Next(cfg, s, e).world.sends|
    ensures e.Submit? && e.worker < |s.workers|
    ensures
      var p := s.workers[e.worker];
      p.Submitting? && p.submit.Admitted? && Next(cfg, s, e).world.sends[i] == p.submit.send
  {
    if e.Submit? && e.worker < |s.workers| { SubmitResult(cfg, s, e.worker, e.submit); }
  }

  lemma SendKept(cfg: Config, s: State, e: Event, i: nat)
    requires i < |s.world.sends|
    ensures i < |Next(cfg, s, e).world.sends| && Next(cfg, s, e).world.sends[i].row == s.world.sends[i].row
  {
    if e.Submit? && e.worker < |s.workers| { SubmitResult(cfg, s, e.worker, e.submit); }
  }

  // Every send in the ledger was signed only after the configured contract had been asked for its batch, under the
  // same claim of its row, and the chain did not hold it there.
  lemma {:induction false} SentOnlyWhenAbsent(cfg: Config, chain: Chain, events: seq<Event>, n: nat, i: nat)
    returns (w: nat, first: nat, reserved: nat)
    requires n <= |events| && i < |At(cfg, chain, events, n).world.sends|
    ensures
      var send := At(cfg, chain, events, n).world.sends[i];
      && w < cfg.workers && first < reserved < n && events[reserved] == Submit(w, Reserve)
      && FindsAbsent(cfg, chain, events, first, w, send.row)
      && OneClaim(cfg, chain, events, first, reserved, w, send.row)
    decreases n
  {
    if n == 0 { return; }
    NextAt(cfg, chain, events, n - 1);
    var s, e := At(cfg, chain, events, n - 1), events[n - 1];
    if i < |s.world.sends| {
      SendKept(cfg, s, e, i);
      w, first, reserved := SentOnlyWhenAbsent(cfg, chain, events, n - 1, i);
    } else {
      LedgerGrowsByReserving(cfg, s, e, i);
      WorkersAt(cfg, chain, events, n - 1);
      w, reserved := e.worker, n - 1;
      OwnRows(cfg, chain, events, n - 1, w);
      first := SearchSoFar(cfg, chain, events, n - 1, w);
    }
  }

  // ---- a gas row ----

  // A block charged this once.
  ghost predicate Charged(c: Chain, tx: Tx, cost: nat) {
    exists m :: m in Flat(c.blocks) && m.tx == tx && m.Cost() == cost
  }

  // The receipt a worker still has to store was on the chain when the worker read it.
  ghost predicate SawIt(cfg: Config, chain: Chain, events: seq<Event>, n: nat, receipt: Receipt)
    requires n <= |events|
  {
    exists k :: 0 <= k <= n && Charged(At(cfg, chain, events, k).world.chain, receipt.mined.tx, receipt.mined.Cost())
  }

  function ToStore(p: Phase): Option<Receipt> {
    match p
    case Settling(_, Observed(_, receipt)) => receipt
    case Tracking(_, Some(receipt)) => receipt
    case _ => None
  }

  lemma SettleReads(cfg: Config, s: State, w: nat, e: SettleEvent)
    requires w < |s.workers| && NextSettle(cfg, s, w, e).workers[w] != s.workers[w]
    ensures
      var receipt := ToStore(NextSettle(cfg, s, w, e).workers[w]);
      receipt.Some? ==> Charged(s.world.chain, receipt.value.mined.tx, receipt.value.mined.Cost())
  {
  }

  lemma TrackReads(cfg: Config, s: State, w: nat, e: TrackEvent)
    requires w < |s.workers| && NextTrack(cfg, s, w, e).workers[w] != s.workers[w]
    ensures
      var receipt := ToStore(NextTrack(cfg, s, w, e).workers[w]);
      receipt.Some? ==> Charged(s.world.chain, receipt.value.mined.tx, receipt.value.mined.Cost())
  {
  }

  lemma SubmitStoresNothing(cfg: Config, s: State, w: nat, e: SubmitEvent)
    requires w < |s.workers| == |NextSubmit(cfg, s, w, e).workers|
    requires NextSubmit(cfg, s, w, e).workers[w] != s.workers[w]
    ensures ToStore(NextSubmit(cfg, s, w, e).workers[w]).None?
  {
  }

  lemma StoresOnlyWhatItReads(cfg: Config, s: State, e: Event, w: nat)
    requires w < |s.workers| == |Next(cfg, s, e).workers| && Next(cfg, s, e).workers[w] != s.workers[w]
    requires ToStore(Next(cfg, s, e).workers[w]).Some?
    ensures
      var m := ToStore(Next(cfg, s, e).workers[w]).value.mined;
      Charged(s.world.chain, m.tx, m.Cost())
  {
    OwnEventsOnly(cfg, s, e, w);
    match e
    case Settle(_, a) => SettleReads(cfg, s, w, a);
    case Track(_, a) => TrackReads(cfg, s, w, a);
    case Submit(_, a) => SubmitStoresNothing(cfg, s, w, a);
    case _ =>
  }

  lemma {:induction false} ReceiptWasRead(cfg: Config, chain: Chain, events: seq<Event>, n: nat, w: nat)
    requires n <= |events| && w < cfg.workers && |At(cfg, chain, events, n).workers| == cfg.workers
    requires ToStore(At(cfg, chain, events, n).workers[w]).Some?
    ensures SawIt(cfg, chain, events, n, ToStore(At(cfg, chain, events, n).workers[w]).value)
    decreases n
  {
    WorkersAt(cfg, chain, events, n - 1);
    NextAt(cfg, chain, events, n - 1);
    var s := At(cfg, chain, events, n - 1);
    if s.workers[w] == At(cfg, chain, events, n).workers[w] {
      ReceiptWasRead(cfg, chain, events, n - 1, w);
    } else {
      StoresOnlyWhatItReads(cfg, s, events[n - 1], w);
    }
  }

  // A new gas row is the receipt its worker holds, for the row of the send or the row that is tracked.
  lemma GasGrowsByReceipts(cfg: Config, s: State, e: Event, i: nat)
    requires |s.world.gas| <= i < |Next(cfg, s, e).world.gas|
    ensures (e.Settle? || e.Track?) && e.worker < |s.workers| && ToStore(s.workers[e.worker]).Some?
    ensures
      var g := Next(cfg, s, e).world.gas[i];
      var p := s.workers[e.worker];
      && g.cost == ToStore(p).value.mined.Cost() && g.day <= s.day && !InGas(s.world.gas, g.tx)
      && (p.Settling? ==> p.pass.todo != [] && g.tx == p.pass.todo[0] && g.row == RowOfSend(s.world.sends, g.tx))
      && (p.Tracking? ==> g.tx == ToStore(p).value.mined.tx && g.row == p.row)
  {
    if e.Submit? && e.worker < |s.workers| { SubmitResult(cfg, s, e.worker, e.submit); }
  }

  lemma GasKept(cfg: Config, s: State, e: Event, i: nat)
    requires i < |s.world.gas|
    ensures i < |Next(cfg, s, e).world.gas| && Next(cfg, s, e).world.gas[i] == s.world.gas[i]
  {
    if e.Submit? && e.worker < |s.workers| { SubmitResult(cfg, s, e.worker, e.submit); }
  }

  // A row that the last step added.
  lemma NewGasWasCharged(cfg: Config, chain: Chain, events: seq<Event>, n: nat, i: nat) returns (k: nat)
    requires FreshStart(cfg, chain) && n < |events|
    requires |At(cfg, chain, events, n).world.gas| <= i
    requires i < |Next(cfg, At(cfg, chain, events, n), events[n]).world.gas|
    ensures
      var g := Next(cfg, At(cfg, chain, events, n), events[n]).world.gas[i];
      k <= n && Charged(At(cfg, chain, events, k).world.chain, g.tx, g.cost)
  {
    var s, e := At(cfg, chain, events, n), events[n];
    GasGrowsByReceipts(cfg, s, e, i);
    WorkersAt(cfg, chain, events, n);
    ReceiptWasRead(cfg, chain, events, n, e.worker);
    ReachableInv(cfg, chain, events[..n]);
    assert PhaseOk(s.world, cfg.wallet, s.workers[e.worker]);
    var receipt := ToStore(s.workers[e.worker]).value;
    k :| 0 <= k <= n && Charged(At(cfg, chain, events, k).world.chain, receipt.mined.tx, receipt.mined.Cost());
  }

  // Every gas row carries what a block of the chain, as it then was, charged for its hash: gas and L1 fee.
  lemma {:induction false} GasIsWhatWasCharged(cfg: Config, chain: Chain, events: seq<Event>, n: nat, i: nat)
    returns (k: nat)
    requires FreshStart(cfg, chain) && n <= |events| && i < |At(cfg, chain, events, n).world.gas|
    ensures
      var g := At(cfg, chain, events, n).world.gas[i];
      k <= n && Charged(At(cfg, chain, events, k).world.chain, g.tx, g.cost)
    decreases n
  {
    if n == 0 { return; }
    NextAt(cfg, chain, events, n - 1);
    var s := At(cfg, chain, events, n - 1);
    if i < |s.world.gas| {
      GasKept(cfg, s, events[n - 1], i);
      k := GasIsWhatWasCharged(cfg, chain, events, n - 1, i);
    } else {
      k := NewGasWasCharged(cfg, chain, events, n - 1, i);
    }
  }

  // A hash is booked once.
  lemma {:induction false} BookedOnce(cfg: Config, chain: Chain, events: seq<Event>, n: nat, i: nat, j: nat)
    requires n <= |events| && i < j < |At(cfg, chain, events, n).world.gas|
    ensures At(cfg, chain, events, n).world.gas[i].tx != At(cfg, chain, events, n).world.gas[j].tx
    decreases n
  {
    if n == 0 { return; }
    NextAt(cfg, chain, events, n - 1);
    var s, e := At(cfg, chain, events, n - 1), events[n - 1];
    OneGasRowAtATime(cfg, s, e);
    if i < |s.world.gas| { GasKept(cfg, s, e, i); }
    if j < |s.world.gas| {
      GasKept(cfg, s, e, j);
      BookedOnce(cfg, chain, events, n - 1, i, j);
    } else {
      GasGrowsByReceipts(cfg, s, e, j);
    }
  }

  lemma OneGasRowAtATime(cfg: Config, s: State, e: Event)
    ensures |Next(cfg, s, e).world.gas| <= |s.world.gas| + 1
  {
    if e.Submit? && e.worker < |s.workers| { SubmitResult(cfg, s, e.worker, e.submit); }
  }

  // ---- a new day ----

  lemma DaysPass(cfg: Config, s: State, e: Event)
    ensures s.day <= Next(cfg, s, e).day
  {
    if e.Submit? && e.worker < |s.workers| { SubmitFrame(cfg, s, e.worker, e.submit); }
  }

  lemma StepIsDated(cfg: Config, s: State, e: Event)
    requires forall g <- s.world.gas :: g.day <= s.day
    ensures forall g <- Next(cfg, s, e).world.gas :: g.day <= Next(cfg, s, e).day
  {
    var t := Next(cfg, s, e);
    DaysPass(cfg, s, e);
    forall g | g in t.world.gas ensures g.day <= t.day {
      var i :| 0 <= i < |t.world.gas| && t.world.gas[i] == g;
      if i < |s.world.gas| { GasKept(cfg, s, e, i); } else { GasGrowsByReceipts(cfg, s, e, i); }
    }
  }

  lemma {:induction false} GasIsDated(cfg: Config, chain: Chain, events: seq<Event>, n: nat)
    requires n <= |events|
    ensures forall g <- At(cfg, chain, events, n).world.gas :: g.day <= At(cfg, chain, events, n).day
    decreases n
  {
    if n > 0 {
      NextAt(cfg, chain, events, n - 1);
      GasIsDated(cfg, chain, events, n - 1);
      StepIsDated(cfg, At(cfg, chain, events, n - 1), events[n - 1]);
    }
  }

  lemma {:induction false} NothingSince(gas: seq<GasSpend>, day: nat)
    requires forall g <- gas :: g.day < day
    ensures SpentSince(gas, day) == 0
    decreases |gas|
  {
    if gas != [] {
      assert gas[|gas| - 1] in gas;
      NothingSince(gas[..|gas| - 1], day);
    }
  }

  // At midnight the spent total is nothing again, whatever was spent before: only what is in flight is booked.
  lemma MidnightReopensTheCap(cfg: Config, chain: Chain, events: seq<Event>, n: nat)
    requires n < |events| && events[n] == Environment(Midnight)
    ensures SpentSince(At(cfg, chain, events, n + 1).world.gas, At(cfg, chain, events, n + 1).day) == 0
  {
    NextAt(cfg, chain, events, n);
    GasIsDated(cfg, chain, events, n);
    NothingSince(At(cfg, chain, events, n + 1).world.gas, At(cfg, chain, events, n + 1).day);
  }
}
