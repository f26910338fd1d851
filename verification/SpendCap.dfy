// The daily spend cap over whole runs of any number of workers. What counts is the gas recorded for the
// wallet's own hashes and the reservations still open; the second invariant says that what is committed
// stays within the cap, and that a worker past its reads has room for the send it is about to record.
module SpendCap {
  import opened Wrappers
  import opened Chain
  import opened AnchorState
  import opened Ledger
  import opened AnchorRuns
  import opened AnchorSafety

  // Two separate statements, spent first, are safe only while nobody settles in between.
  predicate ReadsAreSafe(cfg: Config) {
    cfg.order.SpentThenInFlight? ==> cfg.workers <= 1
  }

  ghost predicate OneLockHolder(s: State) {
    forall i, j :: 0 <= i < j < |s.workers| ==> !HoldsLock(s.workers[i]) || !HoldsLock(s.workers[j])
  }

  // What the lock holder has read still bounds what is committed now.
  ghost predicate ReadsBound(cfg: Config, w: World, day: nat, p: Phase) {
    match p
    case Submitting(_, HalfSpent(spent)) => cfg.workers <= 1 && OwnSpent(w.gas, w.sends, cfg.wallet, day) <= spent
    case Submitting(_, HalfInFlight(inFlight)) => InFlight(w.sends, w.gas) <= inFlight
    case Submitting(_, Totals(spent, inFlight)) => Committed(w, cfg.wallet, day) <= spent + inFlight
    case Submitting(_, Priced(spent, inFlight, _, _)) => Committed(w, cfg.wallet, day) <= spent + inFlight
    case Submitting(_, Reconciled(spent, inFlight, _, _)) => Committed(w, cfg.wallet, day) <= spent + inFlight
    case Submitting(_, Admitted(send)) =>
      Committed(w, cfg.wallet, day) + send.Reserved() <= cfg.guard.dailySpendCapWei
    case _ => true
  }

  ghost predicate CapInv(cfg: Config, s: State) {
    && Committed(s.world, cfg.wallet, s.day) <= cfg.guard.dailySpendCapWei
    && OneLockHolder(s)
    && forall i :: 0 <= i < |s.workers| ==> ReadsBound(cfg, s.world, s.day, s.workers[i])
  }

  // The shared state commits no more than before.
  ghost predicate CommitsLess(cfg: Config, s: State, t: State) {
    && Committed(t.world, cfg.wallet, t.day) <= Committed(s.world, cfg.wallet, s.day)
    && InFlight(t.world.sends, t.world.gas) <= InFlight(s.world.sends, s.world.gas)
  }

  lemma OthersStillBounded(cfg: Config, s: State, t: State, p: Phase)
    requires CommitsLess(cfg, s, t) && ReadsBound(cfg, s.world, s.day, p)
    requires p.Submitting? && p.submit.HalfSpent? ==>
      OwnSpent(t.world.gas, t.world.sends, cfg.wallet, t.day) <= OwnSpent(s.world.gas, s.world.sends, cfg.wallet, s.day)
    ensures ReadsBound(cfg, t.world, t.day, p)
  {
  }

  // A step of worker `k` that commits no more and takes no lock another holds.
  lemma CapStep(cfg: Config, s: State, t: State, k: nat)
    requires CapInv(cfg, s) && |s.workers| == cfg.workers && k < |s.workers| == |t.workers|
    requires t.workers == s.workers[k := t.workers[k]]
    requires CommitsLess(cfg, s, t)
    requires ReadsBound(cfg, t.world, t.day, t.workers[k])
    requires HoldsLock(t.workers[k]) ==> HoldsLock(s.workers[k]) || !LockHeld(s)
    ensures CapInv(cfg, t)
  {
    forall i | 0 <= i < |t.workers| ensures ReadsBound(cfg, t.world, t.day, t.workers[i]) {
      if i != k { OthersStillBounded(cfg, s, t, s.workers[i]); }
    }
    forall i, j | 0 <= i < j < |t.workers| ensures !HoldsLock(t.workers[i]) || !HoldsLock(t.workers[j]) {
    }
  }

  lemma EnvCap(cfg: Config, s: State, e: EnvEvent)
    requires CapInv(cfg, s)
    ensures CapInv(cfg, NextEnv(cfg, s, e))
  {
    var t := NextEnv(cfg, s, e);
    OwnSpentShrinks(s.world.gas, s.world.sends, s.world.sends, cfg.wallet, s.day, t.day);
    assert t.world.gas == s.world.gas && t.world.sends == s.world.sends && t.workers == s.workers;
    forall i | 0 <= i < |t.workers| ensures ReadsBound(cfg, t.world, t.day, t.workers[i]) {
      OthersStillBounded(cfg, s, t, s.workers[i]);
    }
  }

  // The phases a submit step can lead to, with what it read on the way.
  lemma SubmitReads(cfg: Config, s: State, w: nat, e: SubmitEvent)
    requires w < |s.workers| == cfg.workers && ReadsAreSafe(cfg)
    requires ReadsBound(cfg, s.world, s.day, s.workers[w])
    ensures
      var t := NextSubmit(cfg, s, w, e);
      && t.day == s.day && |t.workers| == |s.workers|
      && (t.world.sends == s.world.sends ==>
            t.world.gas == s.world.gas && ReadsBound(cfg, t.world, t.day, t.workers[w]))
  {
    forall asOf: nat | asOf <= s.day
      ensures OwnSpent(s.world.gas, s.world.sends, cfg.wallet, s.day) <= SpentSince(s.world.gas, asOf)
    {
      OwnSpentIsSpent(s.world.gas, s.world.sends, cfg.wallet, s.day, asOf);
    }
  }

  lemma SubmitLocks(cfg: Config, s: State, w: nat, e: SubmitEvent)
    requires w < |s.workers|
    ensures
      var t := NextSubmit(cfg, s, w, e);
      |t.workers| == |s.workers| && (HoldsLock(t.workers[w]) ==> HoldsLock(s.workers[w]) || !LockHeld(s))
  {
  }

  lemma SubmitCap(cfg: Config, s: State, w: nat, e: SubmitEvent)
    requires Inv(cfg, s) && CapInv(cfg, s) && w < |s.workers| && ReadsAreSafe(cfg)
    ensures CapInv(cfg, NextSubmit(cfg, s, w, e))
  {
    var t := NextSubmit(cfg, s, w, e);
    SubmitFrame(cfg, s, w, e);
    SubmitReads(cfg, s, w, e);
    SubmitLocks(cfg, s, w, e);
    if t.world.sends == s.world.sends {
      CapStep(cfg, s, t, w);
    } else {
      ReserveCap(cfg, s, t, w);
    }
  }

  // The one step that commits more: the lock holder's, with room it has checked.
  lemma ReserveCap(cfg: Config, s: State, t: State, w: nat)
    requires Inv(cfg, s) && CapInv(cfg, s) && w < |s.workers| == |t.workers| && t.day == s.day
    requires s.workers[w].Submitting? && s.workers[w].submit.Admitted?
    requires t.world == RecordSend(s.world, s.workers[w].submit.send)
    requires t.workers == s.workers[w := Submitting(s.workers[w].row, Reserved(s.workers[w].submit.send))]
    ensures CapInv(cfg, t)
  {
    assert s.workers[w] in s.workers;
    RecordCommits(s.world, s.workers[w].submit.send, cfg.wallet, s.day);
    forall i | 0 <= i < |t.workers| ensures ReadsBound(cfg, t.world, t.day, t.workers[i]) {
      if i != w { assert !HoldsLock(s.workers[i]); }
    }
  }

  lemma CoveredReceipt(cfg: Config, s: State, m: Mined)
    requires Reservable(s.world, cfg.wallet, m) && m.tx.signer == cfg.wallet
    ensures exists i ::
      0 <= i < |s.world.sends| && s.world.sends[i].tx == m.tx && m.Cost() <= s.world.sends[i].Reserved()
  {
    var send :| send in s.world.sends && Covers(send, m);
    var i :| 0 <= i < |s.world.sends| && s.world.sends[i] == send;
    assert s.world.sends[i].tx == m.tx;
  }

  lemma RecordCap(cfg: Config, s: State, w: nat, asOf: nat)
    requires Inv(cfg, s) && CapInv(cfg, s) && w < |s.workers|
    ensures CapInv(cfg, NextSettle(cfg, s, w, Record(asOf)))
  {
    var t := NextSettle(cfg, s, w, Record(asOf));
    var p := s.workers[w];
    assert p in s.workers;
    if t != s {
      var tx := p.pass.todo[0];
      if p.settle.receipt.Some? {
        var m := p.settle.receipt.value.mined;
        if tx.signer == cfg.wallet { CoveredReceipt(cfg, s, m); }
        ReceiptCommits(s.world, GasSpend(tx, RowOfSend(s.world.sends, tx), m.Cost(), asOf), cfg.wallet, s.day);
      } else {
        NonceCommits(s.world, tx, cfg.wallet, s.day);
      }
      CapStep(cfg, s, t, w);
    }
  }

  lemma SettleCap(cfg: Config, s: State, w: nat, e: SettleEvent)
    requires Inv(cfg, s) && CapInv(cfg, s) && w < |s.workers|
    ensures CapInv(cfg, NextSettle(cfg, s, w, e))
  {
    if e.Record? {
      RecordCap(cfg, s, w, e.asOf);
    } else if NextSettle(cfg, s, w, e) != s {
      CapStep(cfg, s, NextSettle(cfg, s, w, e), w);
    }
  }

  lemma TrackCap(cfg: Config, s: State, w: nat, e: TrackEvent)
    requires Inv(cfg, s) && CapInv(cfg, s) && w < |s.workers|
    ensures CapInv(cfg, NextTrack(cfg, s, w, e))
  {
    var t := NextTrack(cfg, s, w, e);
    var p := s.workers[w];
    assert p in s.workers;
    if t != s {
      if e.TrackCommit? && p.seen.value.Some? {
        var m := p.seen.value.value.mined;
        if m.tx.signer == cfg.wallet { CoveredReceipt(cfg, s, m); }
        ReceiptCommits(s.world, GasSpend(m.tx, p.row, m.Cost(), e.asOf), cfg.wallet, s.day);
      }
      CapStep(cfg, s, t, w);
    }
  }

  lemma StepKeepsCap(cfg: Config, s: State, e: Event)
    requires Inv(cfg, s) && CapInv(cfg, s) && ReadsAreSafe(cfg)
    ensures CapInv(cfg, Next(cfg, s, e))
  {
    match e
    case Environment(env) => EnvCap(cfg, s, env);
    case Crash(w) => if w < |s.workers| { CapStep(cfg, s, Goto(s, w, Idle), w); }
    case Submit(w, a) => if w < |s.workers| { SubmitCap(cfg, s, w, a); }
    case Settle(w, a) => if w < |s.workers| { SettleCap(cfg, s, w, a); }
    case Track(w, a) => if w < |s.workers| { TrackCap(cfg, s, w, a); }
    case Move(w, a) => if w < |s.workers| { MoveCap(cfg, s, w, a); }
  }

  lemma MoveCap(cfg: Config, s: State, w: nat, e: MoveEvent)
    requires Inv(cfg, s) && CapInv(cfg, s) && w < |s.workers|
    ensures CapInv(cfg, NextMove(cfg, s, w, e))
  {
    var t := NextMove(cfg, s, w, e);
    MoveCheckShape(cfg, s, s.workers[w], e);
    CapStep(cfg, s, t, w);
  }

  lemma {:induction false} RunKeepsCap(cfg: Config, s: State, events: seq<Event>)
    requires Inv(cfg, s) && CapInv(cfg, s) && ReadsAreSafe(cfg)
    ensures CapInv(cfg, Run(cfg, s, events))
    decreases |events|
  {
    if events != [] {
      StepKeepsInv(cfg, s, events[0]);
      StepKeepsCap(cfg, s, events[0]);
      RunKeepsCap(cfg, Next(cfg, s, events[0]), events[1..]);
    }
  }

  // In every reachable state, today's gas of the wallet's own hashes plus every open reservation
  // is within the daily cap.
  lemma DailyCapHolds(cfg: Config, chain: Chain, events: seq<Event>)
    requires FreshStart(cfg, chain) && ReadsAreSafe(cfg)
    ensures
      var s := Run(cfg, Init(chain, cfg), events);
      Committed(s.world, cfg.wallet, s.day) <= cfg.guard.dailySpendCapWei
  {
    RunKeepsInv(cfg, Init(chain, cfg), []);
    ReachableInv(cfg, chain, []);
    RunKeepsCap(cfg, Init(chain, cfg), events);
  }

  // All gas recorded since `day` for the wallet's own hashes, settled however they are.
  function RecordedOwn(gas: seq<GasSpend>, wallet: Address, day: nat): nat {
    if gas == [] then 0
    else
      var g := gas[|gas| - 1];
      RecordedOwn(gas[..|gas| - 1], wallet, day) + if g.day >= day && g.tx.signer == wallet then g.cost else 0
  }

  // A gas row for a hash that had been settled as nonce_consumed: its receipt was read before a
  // reorg and stored after it.
  predicate HasStaleReceipt(w: World) {
    exists i :: 0 <= i < |w.gas| && ConsumedInLedger(w.sends, w.gas[i].tx)
  }

  lemma RecordedWithoutStale(gas: seq<GasSpend>, sends: seq<Send>, wallet: Address, day: nat)
    requires forall i :: 0 <= i < |gas| ==> !ConsumedInLedger(sends, gas[i].tx)
    ensures RecordedOwn(gas, wallet, day) == OwnSpent(gas, sends, wallet, day)
  {
    if gas != [] {
      assert forall i :: 0 <= i < |gas| - 1 ==> gas[..|gas| - 1][i] == gas[i];
      RecordedWithoutStale(gas[..|gas| - 1], sends, wallet, day);
    }
  }

  // The receipt a worker holds is not of a hash the ledger calls consumed.
  predicate HoldsFresh(w: World, p: Phase) {
    match p
    case Settling(pass, Observed(_, Some(_))) => pass.todo != [] ==> !ConsumedInLedger(w.sends, pass.todo[0])
    case Tracking(_, Some(Some(receipt))) => !ConsumedInLedger(w.sends, receipt.mined.tx)
    case _ => true
  }

  ghost predicate NoStale(s: State) {
    !HasStaleReceipt(s.world) && |s.workers| <= 1 && forall p <- s.workers :: HoldsFresh(s.world, p)
  }

  // What the ledger calls consumed has no receipt to read.
  lemma ConsumedHasNoReceipt(w: World, wallet: Address, tx: Tx)
    requires WorldOk(w, wallet) && FindReceipt(w.chain.blocks, tx).Some?
    ensures !ConsumedInLedger(w.sends, tx)
  {
    if ConsumedInLedger(w.sends, tx) {
      var i :| 0 <= i < |w.sends| && w.sends[i].tx == tx && w.sends[i].settled == Some(ByNonceConsumed);
      assert w.sends[i] in w.sends;
      DeadForever(w.chain, w.chain, tx);
      assert false;
    }
  }

  lemma ReceiptNoStale(w: World, spend: GasSpend)
    requires !HasStaleReceipt(w) && !ConsumedInLedger(w.sends, spend.tx)
    ensures !HasStaleReceipt(SettleByReceipt(w, spend))
  {
    var v := SettleByReceipt(w, spend);
    ConsumedSame(w.sends, spend.tx);
    forall i | 0 <= i < |v.gas| ensures !ConsumedInLedger(v.sends, v.gas[i].tx) {
      if i < |w.gas| { assert v.gas[i] == w.gas[i]; }
    }
  }

  // Only an open send is settled as consumed, and gas is booked with the settlement of its send.
  lemma NonceNoStale(w: World, wallet: Address, tx: Tx)
    requires WorldOk(w, wallet) && !HasStaleReceipt(w)
    ensures !HasStaleReceipt(SettleByNonce(w, tx))
  {
    var v := SettleByNonce(w, tx);
    forall i | 0 <= i < |w.gas| ensures !ConsumedInLedger(v.sends, w.gas[i].tx) {
      if ConsumedInLedger(v.sends, w.gas[i].tx) {
        assert false;
      }
    }
  }

  lemma SubmitNoStale(cfg: Config, s: State, w: nat, e: SubmitEvent)
    requires Inv(cfg, s) && NoStale(s) && w < |s.workers|
    ensures NoStale(NextSubmit(cfg, s, w, e))
  {
    var t := NextSubmit(cfg, s, w, e);
    assert s.workers[w] in s.workers;
    SubmitFrame(cfg, s, w, e);
    SubmitResult(cfg, s, w, e);
    if t.world != s.world && s.workers[w].submit.Admitted? { RecordConsumesNothing(s.world, s.workers[w].submit.send); }
    assert t.workers == [t.workers[w]];
  }

  lemma SettleNoStale(cfg: Config, s: State, w: nat, e: SettleEvent)
    requires Inv(cfg, s) && NoStale(s) && w < |s.workers|
    ensures NoStale(NextSettle(cfg, s, w, e))
  {
    var t := NextSettle(cfg, s, w, e);
    var p := s.workers[w];
    assert p in s.workers;
    if t != s {
      if e.LookUp? && e.answered && FindReceipt(s.world.chain.blocks, p.pass.todo[0]).Some? {
        ConsumedHasNoReceipt(s.world, cfg.wallet, p.pass.todo[0]);
      } else if e.Record? {
        var tx := p.pass.todo[0];
        if p.settle.receipt.Some? {
          var cost := p.settle.receipt.value.mined.Cost();
          ReceiptNoStale(s.world, GasSpend(tx, RowOfSend(s.world.sends, tx), cost, e.asOf));
        } else {
          NonceNoStale(s.world, cfg.wallet, tx);
        }
      }
      assert t.workers == [t.workers[w]];
    }
  }

  lemma TrackNoStale(cfg: Config, s: State, w: nat, e: TrackEvent)
    requires Inv(cfg, s) && NoStale(s) && w < |s.workers|
    ensures NoStale(NextTrack(cfg, s, w, e))
  {
    var t := NextTrack(cfg, s, w, e);
    var p := s.workers[w];
    assert p in s.workers;
    if t != s {
      if e.Observe? && FindReceipt(s.world.chain.blocks, s.rows[p.row].tx.value).Some? {
        ConsumedHasNoReceipt(s.world, cfg.wallet, s.rows[p.row].tx.value);
      } else if e.TrackCommit? && p.seen.value.Some? {
        var m := p.seen.value.value.mined;
        ReceiptNoStale(s.world, GasSpend(m.tx, p.row, m.Cost(), e.asOf));
      }
      assert t.workers == [t.workers[w]];
    }
  }

  lemma StepNoStale(cfg: Config, s: State, e: Event)
    requires Inv(cfg, s) && NoStale(s)
    ensures NoStale(Next(cfg, s, e))
  {
    match e
    case Environment(env) =>
      var t := NextEnv(cfg, s, env);
      assert t.workers == s.workers && t.world.sends == s.world.sends && t.world.gas == s.world.gas;
    case Crash(w) => if w < |s.workers| { assert Goto(s, w, Idle).workers == [Idle]; }
    case Submit(w, a) => if w < |s.workers| { SubmitNoStale(cfg, s, w, a); }
    case Settle(w, a) => if w < |s.workers| { SettleNoStale(cfg, s, w, a); }
    case Track(w, a) => if w < |s.workers| { TrackNoStale(cfg, s, w, a); }
    case Move(w, a) => if w < |s.workers| { MoveNoStale(cfg, s, w, a); }
  }

  lemma MoveNoStale(cfg: Config, s: State, w: nat, e: MoveEvent)
    requires NoStale(s) && w < |s.workers|
    ensures NoStale(NextMove(cfg, s, w, e))
  {
    assert s.workers[w] in s.workers;
    MoveCheckShape(cfg, s, s.workers[w], e);
    var t := NextMove(cfg, s, w, e);
    assert t.workers == [t.workers[w]] && t.world == s.world;
  }

  lemma {:induction false} RunNoStale(cfg: Config, s: State, events: seq<Event>)
    requires Inv(cfg, s) && NoStale(s)
    ensures NoStale(Run(cfg, s, events))
    decreases |events|
  {
    if events != [] {
      StepKeepsInv(cfg, s, events[0]);
      StepNoStale(cfg, s, events[0]);
      RunNoStale(cfg, Next(cfg, s, events[0]), events[1..]);
    }
  }

  ghost predicate RecordedCap(cfg: Config, s: State) {
    RecordedOwn(s.world.gas, cfg.wallet, s.day) + InFlight(s.world.sends, s.world.gas) <= cfg.guard.dailySpendCapWei
  }

  // With one worker per chain every own gas row counts, in any read order.
  lemma RecordedCapHolds(cfg: Config, chain: Chain, events: seq<Event>)
    requires FreshStart(cfg, chain) && cfg.workers <= 1
    ensures RecordedCap(cfg, Run(cfg, Init(chain, cfg), events))
  {
    var s := Run(cfg, Init(chain, cfg), events);
    DailyCapHolds(cfg, chain, events);
    ReachableInv(cfg, chain, []);
    RunNoStale(cfg, Init(chain, cfg), events);
    RecordedWithoutStale(s.world.gas, s.world.sends, cfg.wallet, s.day);
  }
}
