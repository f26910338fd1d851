// The shared tables of the anchor workers: the send ledger (chain.anchor_sends), the gas ledger
// (chain.gas_spend), and what the network has been given. One function per SQL statement.
module Ledger {
  import opened Wrappers
  import opened Chain
  import opened AnchorState

  type RowId = nat

  datatype SettledReason = ByReceipt | ByNonceConsumed

  datatype Send = Send(tx: Tx, row: RowId, l1FeeBound: nat, settled: Option<SettledReason>) {
    function Reserved(): nat { Reservation(tx.gasLimit, tx.maxFeePerGas, l1FeeBound) }
  }

  // One row per mined hash: the first receipt seen, on the day it was seen.
  datatype GasSpend = GasSpend(tx: Tx, row: RowId, cost: nat, day: nat)

  datatype World = World(chain: Chain, sends: seq<Send>, gas: seq<GasSpend>, broadcast: set<Tx>)

  predicate InLedger(sends: seq<Send>, tx: Tx) {
    exists i :: 0 <= i < |sends| && sends[i].tx == tx
  }

  predicate InGas(gas: seq<GasSpend>, tx: Tx) {
    exists i :: 0 <= i < |gas| && gas[i].tx == tx
  }

  predicate ConsumedInLedger(sends: seq<Send>, tx: Tx) {
    exists i :: 0 <= i < |sends| && sends[i].tx == tx && sends[i].settled == Some(ByNonceConsumed)
  }

  // ---- statements ----

  // spentTodayWei: every hash, whoever signed it.
  function SpentSince(gas: seq<GasSpend>, day: nat): nat {
    if gas == [] then 0
    else
      var g := gas[|gas| - 1];
      SpentSince(gas[..|gas| - 1], day) + if g.day >= day then g.cost else 0
  }

  // What a send still holds back: nothing once it is settled or its cost is booked, so no hash counts in both totals.
  function OpenReserve(s: Send, gas: seq<GasSpend>): (held: nat)
    ensures s.settled.Some? || InGas(gas, s.tx) ==> held == 0
    ensures s.settled.None? && !InGas(gas, s.tx) ==> held == s.Reserved()
  {
    if s.settled.None? && !InGas(gas, s.tx) then s.Reserved() else 0
  }

  // inFlightSends: reservations not settled and not in the gas ledger.
  function InFlight(sends: seq<Send>, gas: seq<GasSpend>): nat {
    if sends == [] then 0
    else InFlight(sends[..|sends| - 1], gas) + OpenReserve(sends[|sends| - 1], gas)
  }

  // A reservation of this row at exactly this signer and nonce.
  predicate SameSlot(s: Send, row: RowId, signer: Address, nonce: nat) {
    s.row == row && s.tx.signer == signer && s.tx.nonce == nonce
  }

  // The largest live reservation in the slot, 0 if there is none.
  function RetryReservation(sends: seq<Send>, gas: seq<GasSpend>, row: RowId, signer: Address, nonce: nat): (most: nat)
    ensures forall s <- sends :: SameSlot(s, row, signer, nonce) ==> OpenReserve(s, gas) <= most
    ensures most == 0 || exists s :: s in sends && SameSlot(s, row, signer, nonce) && OpenReserve(s, gas) == most
  {
    if sends == [] then 0
    else
      var s := sends[|sends| - 1];
      var rest := RetryReservation(sends[..|sends| - 1], gas, row, signer, nonce);
      if SameSlot(s, row, signer, nonce) && rest < OpenReserve(s, gas)
      then OpenReserve(s, gas) else rest
  }

  // recordSend: ON CONFLICT (tx_hash) DO NOTHING.
  function RecordSend(w: World, send: Send): World {
    if InLedger(w.sends, send.tx) then w else w.(sends := w.sends + [send])
  }

  // settle: only a row that is still open.
  function SettleSends(sends: seq<Send>, tx: Tx, reason: SettledReason): seq<Send> {
    seq(|sends|, i requires 0 <= i < |sends| =>
      if sends[i].tx == tx && sends[i].settled.None? then sends[i].(settled := Some(reason)) else sends[i])
  }

  // A receipt: the gas ledger keeps the first one, and the send is settled in the same commit.
  function SettleByReceipt(w: World, spend: GasSpend): World {
    w.(gas := if InGas(w.gas, spend.tx) then w.gas else w.gas + [spend],
       sends := SettleSends(w.sends, spend.tx, ByReceipt))
  }

  function SettleByNonce(w: World, tx: Tx): World {
    w.(sends := SettleSends(w.sends, tx, ByNonceConsumed))
  }

  function GiveToNetwork(w: World, tx: Tx): World {
    w.(broadcast := w.broadcast + {tx})
  }

  // ---- what holds between any two statements ----

  ghost predicate Covers(send: Send, m: Mined) {
    m.tx == send.tx && m.Cost() <= send.Reserved()
  }

  // The network mines only what it was given, and charges no more than was reserved: gas by the
  // rules of the chain, and the L1 fee by the quote (0 on a chain without one).
  ghost predicate ChainAgrees(w: World, wallet: Address, chain: Chain) {
    && ValidChain(chain)
    && forall m <- Flat(chain.blocks) :: m.tx.signer == wallet ==>
         m.tx in w.broadcast && exists s :: s in w.sends && Covers(s, m)
  }

  ghost predicate WorldOk(w: World, wallet: Address) {
    && ChainAgrees(w, wallet, w.chain)
    && (forall i, j :: 0 <= i < j < |w.sends| ==> w.sends[i].tx != w.sends[j].tx)
    && (forall s <- w.sends :: s.tx.signer == wallet)
    && (forall tx <- w.broadcast :: InLedger(w.sends, tx))
    && (forall s <- w.sends :: s.settled == Some(ByReceipt) ==> InGas(w.gas, s.tx))
    && (forall s <- w.sends :: s.settled == Some(ByNonceConsumed) ==> Dead(w.chain, s.tx))
    && (forall g <- w.gas :: g.tx.signer == wallet ==>
          exists s :: s in w.sends && s.tx == g.tx && s.settled.Some?)
  }

  // What no step undoes.
  ghost predicate Grows(w: World, v: World) {
    && ValidChain(w.chain) && ValidChain(v.chain) && Extends(w.chain, v.chain)
    && |w.sends| <= |v.sends|
    && (forall i :: 0 <= i < |w.sends| ==>
          && v.sends[i].tx == w.sends[i].tx
          && v.sends[i].row == w.sends[i].row
          && v.sends[i].l1FeeBound == w.sends[i].l1FeeBound
          && (w.sends[i].settled.Some? ==> v.sends[i] == w.sends[i]))
    && w.broadcast <= v.broadcast
    && w.gas <= v.gas
  }

  // ---- each statement keeps the tables consistent ----

  lemma CoversSurvives(w: World, v: World, m: Mined)
    requires |w.sends| <= |v.sends|
    requires forall i :: 0 <= i < |w.sends| ==>
      v.sends[i].tx == w.sends[i].tx && v.sends[i].l1FeeBound == w.sends[i].l1FeeBound
    requires exists s :: s in w.sends && Covers(s, m)
    ensures exists s :: s in v.sends && Covers(s, m)
  {
    var s :| s in w.sends && Covers(s, m);
    var i :| 0 <= i < |w.sends| && w.sends[i] == s;
    assert Covers(v.sends[i], m);
  }

  lemma ChainAgreesSurvives(w: World, v: World, wallet: Address, chain: Chain)
    requires ChainAgrees(w, wallet, chain) && w.broadcast <= v.broadcast
    requires |w.sends| <= |v.sends|
    requires forall i :: 0 <= i < |w.sends| ==>
      v.sends[i].tx == w.sends[i].tx && v.sends[i].l1FeeBound == w.sends[i].l1FeeBound
    ensures ChainAgrees(v, wallet, chain)
  {
    forall m | m in Flat(chain.blocks) && m.tx.signer == wallet
      ensures exists s :: s in v.sends && Covers(s, m)
    {
      CoversSurvives(w, v, m);
    }
  }

  lemma LedgerKeepsGrowing(w: World, v: World)
    requires Grows(w, v)
    ensures forall tx :: InLedger(w.sends, tx) ==> InLedger(v.sends, tx)
  {
    forall tx | InLedger(w.sends, tx) ensures InLedger(v.sends, tx) {
      var i :| 0 <= i < |w.sends| && w.sends[i].tx == tx;
      assert v.sends[i].tx == tx;
    }
  }

  lemma ChainStep(w: World, chain: Chain, wallet: Address)
    requires WorldOk(w, wallet) && ChainAgrees(w, wallet, chain) && Extends(w.chain, chain)
    ensures WorldOk(w.(chain := chain), wallet) && Grows(w, w.(chain := chain))
  {
    forall s | s in w.sends && s.settled == Some(ByNonceConsumed) ensures Dead(chain, s.tx) {
      DeadForever(w.chain, chain, s.tx);
    }
  }

  lemma RecordStep(w: World, send: Send, wallet: Address)
    requires WorldOk(w, wallet) && send.tx.signer == wallet && send.settled.None?
    ensures WorldOk(RecordSend(w, send), wallet) && Grows(w, RecordSend(w, send))
    ensures InLedger(RecordSend(w, send).sends, send.tx)
  {
    var v := RecordSend(w, send);
    if !InLedger(w.sends, send.tx) {
      assert v.sends[|w.sends|] == send;
      ChainAgreesSurvives(w, v, wallet, w.chain);
      assert Grows(w, v);
      LedgerKeepsGrowing(w, v);
      forall g | g in v.gas && g.tx.signer == wallet
        ensures exists s :: s in v.sends && s.tx == g.tx && s.settled.Some?
      {
        var s :| s in w.sends && s.tx == g.tx && s.settled.Some?;
        assert s in v.sends;
      }
    }
  }

  lemma NetworkStep(w: World, tx: Tx, wallet: Address)
    requires WorldOk(w, wallet) && InLedger(w.sends, tx)
    ensures WorldOk(GiveToNetwork(w, tx), wallet) && Grows(w, GiveToNetwork(w, tx))
  {
  }

  lemma SettleGrows(w: World, v: World, tx: Tx, reason: SettledReason)
    requires ValidChain(w.chain) && v.chain == w.chain && v.broadcast == w.broadcast && w.gas <= v.gas
    requires v.sends == SettleSends(w.sends, tx, reason)
    ensures Grows(w, v)
  {
  }

  lemma SettleKeepsSettled(sends: seq<Send>, tx: Tx, reason: SettledReason, t: Tx)
    requires exists s :: s in sends && s.tx == t && s.settled.Some?
    ensures exists s :: s in SettleSends(sends, tx, reason) && s.tx == t && s.settled.Some?
  {
    var s :| s in sends && s.tx == t && s.settled.Some?;
    var i :| 0 <= i < |sends| && sends[i] == s;
    assert SettleSends(sends, tx, reason)[i] == s;
  }

  lemma GasKept(w: World, spend: GasSpend)
    ensures forall t :: InGas(w.gas, t) ==> InGas(SettleByReceipt(w, spend).gas, t)
    ensures InGas(SettleByReceipt(w, spend).gas, spend.tx)
  {
    var gas := SettleByReceipt(w, spend).gas;
    if !InGas(w.gas, spend.tx) {
      assert gas[|w.gas|] == spend;
    }
    forall t | InGas(w.gas, t) ensures InGas(gas, t) {
      var i :| 0 <= i < |w.gas| && w.gas[i].tx == t;
      assert gas[i] == w.gas[i];
    }
  }

  // A settled receipt needs evidence that the hash, if it is the wallet's own, was recorded.
  lemma ReceiptStep(w: World, spend: GasSpend, wallet: Address)
    requires WorldOk(w, wallet)
    requires spend.tx.signer == wallet ==> InLedger(w.sends, spend.tx)
    ensures WorldOk(SettleByReceipt(w, spend), wallet) && Grows(w, SettleByReceipt(w, spend))
  {
    var v := SettleByReceipt(w, spend);
    SettleGrows(w, v, spend.tx, ByReceipt);
    ChainAgreesSurvives(w, v, wallet, w.chain);
    LedgerKeepsGrowing(w, v);
    GasKept(w, spend);
    forall s | s in v.sends && s.settled == Some(ByReceipt) ensures InGas(v.gas, s.tx) {
      var i :| 0 <= i < |v.sends| && v.sends[i] == s;
      assert w.sends[i].settled == Some(ByReceipt) || w.sends[i].tx == spend.tx;
      assert w.sends[i] in w.sends;
    }
    forall s | s in v.sends && s.settled == Some(ByNonceConsumed) ensures Dead(v.chain, s.tx) {
      var i :| 0 <= i < |v.sends| && v.sends[i] == s;
      assert w.sends[i] in w.sends;
    }
    forall g | g in v.gas && g.tx.signer == wallet
      ensures exists s :: s in v.sends && s.tx == g.tx && s.settled.Some?
    {
      if g in w.gas {
        SettleKeepsSettled(w.sends, spend.tx, ByReceipt, g.tx);
      } else {
        var i :| 0 <= i < |w.sends| && w.sends[i].tx == spend.tx;
        assert v.sends[i].tx == spend.tx && v.sends[i].settled.Some?;
      }
    }
  }

  lemma NonceStep(w: World, tx: Tx, wallet: Address)
    requires WorldOk(w, wallet) && Dead(w.chain, tx)
    ensures WorldOk(SettleByNonce(w, tx), wallet) && Grows(w, SettleByNonce(w, tx))
  {
    var v := SettleByNonce(w, tx);
    SettleGrows(w, v, tx, ByNonceConsumed);
    ChainAgreesSurvives(w, v, wallet, w.chain);
    LedgerKeepsGrowing(w, v);
    forall s | s in v.sends && s.settled.Some?
      ensures s.settled == Some(ByReceipt) ==> InGas(v.gas, s.tx)
      ensures s.settled == Some(ByNonceConsumed) ==> Dead(v.chain, s.tx)
    {
      var i :| 0 <= i < |v.sends| && v.sends[i] == s;
      assert w.sends[i] in w.sends;
    }
    forall g | g in v.gas && g.tx.signer == wallet
      ensures exists s :: s in v.sends && s.tx == g.tx && s.settled.Some?
    {
      SettleKeepsSettled(w.sends, tx, ByNonceConsumed, g.tx);
    }
  }

  // ---- what the wallet has committed to spend ----

  // Gas recorded since `day` for the wallet's own hashes that can still be mined or were.
  function OwnSpent(gas: seq<GasSpend>, sends: seq<Send>, wallet: Address, day: nat): nat {
    if gas == [] then 0
    else
      var g := gas[|gas| - 1];
      OwnSpent(gas[..|gas| - 1], sends, wallet, day)
        + if g.day >= day && g.tx.signer == wallet && !ConsumedInLedger(sends, g.tx) then g.cost else 0
  }

  function Committed(w: World, wallet: Address, day: nat): nat {
    OwnSpent(w.gas, w.sends, wallet, day) + InFlight(w.sends, w.gas)
  }

  lemma OwnSpentIsSpent(gas: seq<GasSpend>, sends: seq<Send>, wallet: Address, day: nat, asOf: nat)
    requires asOf <= day
    ensures OwnSpent(gas, sends, wallet, day) <= SpentSince(gas, asOf)
  {
  }

  lemma OwnSpentShrinks(gas: seq<GasSpend>, sends: seq<Send>, sends': seq<Send>, wallet: Address, day: nat, day': nat)
    requires day <= day'
    requires forall tx :: ConsumedInLedger(sends, tx) ==> ConsumedInLedger(sends', tx)
    ensures OwnSpent(gas, sends', wallet, day') <= OwnSpent(gas, sends, wallet, day)
  {
  }

  lemma OwnSpentSame(gas: seq<GasSpend>, sends: seq<Send>, sends': seq<Send>, wallet: Address, day: nat)
    requires forall g <- gas ::
      g.tx.signer == wallet ==> (ConsumedInLedger(sends, g.tx) <==> ConsumedInLedger(sends', g.tx))
    ensures OwnSpent(gas, sends', wallet, day) == OwnSpent(gas, sends, wallet, day)
  {
    if gas != [] {
      assert gas[|gas| - 1] in gas;
      OwnSpentSame(gas[..|gas| - 1], sends, sends', wallet, day);
    }
  }

  // Settling frees exactly the open reservation of that hash.
  lemma {:induction false} SettleFrees(sends: seq<Send>, gas: seq<GasSpend>, tx: Tx, reason: SettledReason, k: nat)
    requires k < |sends| && sends[k].tx == tx
    requires forall i, j :: 0 <= i < j < |sends| ==> sends[i].tx != sends[j].tx
    ensures InFlight(SettleSends(sends, tx, reason), gas) + OpenReserve(sends[k], gas) == InFlight(sends, gas)
  {
    var n := |sends| - 1;
    var settled := SettleSends(sends, tx, reason);
    assert settled[..n] == SettleSends(sends[..n], tx, reason);
    if k < n {
      assert sends[n].tx != tx;
      SettleFrees(sends[..n], gas, tx, reason, k);
    } else {
      SettleOther(sends[..n], tx, reason);
    }
  }

  lemma SettleOther(sends: seq<Send>, tx: Tx, reason: SettledReason)
    requires !InLedger(sends, tx)
    ensures SettleSends(sends, tx, reason) == sends
  {
  }

  // A gas row for a hash with no open send changes no reservation.
  lemma {:induction false} GasForSettledHash(sends: seq<Send>, gas: seq<GasSpend>, g: GasSpend)
    requires forall s <- sends :: s.tx == g.tx ==> s.settled.Some?
    ensures InFlight(sends, gas + [g]) == InFlight(sends, gas)
  {
    if sends != [] {
      var s := sends[|sends| - 1];
      assert s in sends;
      GasForSettledHash(sends[..|sends| - 1], gas, g);
      assert InGas(gas + [g], s.tx) <==> InGas(gas, s.tx) || s.tx == g.tx by {
        if InGas(gas, s.tx) {
          var i :| 0 <= i < |gas| && gas[i].tx == s.tx;
          assert (gas + [g])[i].tx == s.tx;
        }
        assert (gas + [g])[|gas|] == g;
      }
    }
  }

  lemma RecordConsumesNothing(w: World, send: Send)
    requires send.settled.None?
    ensures forall tx :: ConsumedInLedger(RecordSend(w, send).sends, tx) <==> ConsumedInLedger(w.sends, tx)
  {
    var v := RecordSend(w, send);
    forall tx ensures ConsumedInLedger(w.sends, tx) <==> ConsumedInLedger(v.sends, tx) {
      if ConsumedInLedger(w.sends, tx) {
        var i :| 0 <= i < |w.sends| && w.sends[i].tx == tx && w.sends[i].settled == Some(ByNonceConsumed);
        assert v.sends[i] == w.sends[i];
      }
    }
  }

  lemma RecordCommits(w: World, send: Send, wallet: Address, day: nat)
    requires WorldOk(w, wallet) && send.settled.None? && send.tx.signer == wallet
    ensures Committed(RecordSend(w, send), wallet, day) <= Committed(w, wallet, day) + send.Reserved()
    ensures InLedger(w.sends, send.tx) ==> RecordSend(w, send) == w
  {
    if !InLedger(w.sends, send.tx) {
      var v := RecordSend(w, send);
      assert v.sends[..|v.sends| - 1] == w.sends;
      RecordConsumesNothing(w, send);
      OwnSpentSame(w.gas, w.sends, v.sends, wallet, day);
    }
  }

  // A receipt replaces the reservation by no more than it.
  lemma ReceiptCommits(w: World, spend: GasSpend, wallet: Address, day: nat)
    requires WorldOk(w, wallet)
    requires spend.tx.signer == wallet ==>
      exists i :: 0 <= i < |w.sends| && w.sends[i].tx == spend.tx && spend.cost <= w.sends[i].Reserved()
    ensures Committed(SettleByReceipt(w, spend), wallet, day) <= Committed(w, wallet, day)
    ensures InFlight(SettleByReceipt(w, spend).sends, SettleByReceipt(w, spend).gas) <= InFlight(w.sends, w.gas)
  {
    var v := SettleByReceipt(w, spend);
    ConsumedSame(w.sends, spend.tx);
    OwnSpentSame(w.gas, w.sends, v.sends, wallet, day);
    var freed := 0;
    if InLedger(w.sends, spend.tx) {
      freed := SettledReserve(w, spend);
    } else {
      SettleOther(w.sends, spend.tx, ByReceipt);
    }
    if !InGas(w.gas, spend.tx) {
      forall s | s in v.sends && s.tx == spend.tx ensures s.settled.Some? { }
      GasForSettledHash(v.sends, w.gas, spend);
      GasAdds(v, w.gas, spend, wallet, day);
    }
  }

  lemma SettledReserve(w: World, spend: GasSpend) returns (freed: nat)
    requires InLedger(w.sends, spend.tx)
    requires forall i, j :: 0 <= i < j < |w.sends| ==> w.sends[i].tx != w.sends[j].tx
    requires forall s <- w.sends :: s.settled == Some(ByReceipt) ==> InGas(w.gas, s.tx)
    ensures InFlight(SettleSends(w.sends, spend.tx, ByReceipt), w.gas) + freed == InFlight(w.sends, w.gas)
    ensures forall i :: 0 <= i < |w.sends| && w.sends[i].tx == spend.tx && !InGas(w.gas, spend.tx)
              && !ConsumedInLedger(SettleSends(w.sends, spend.tx, ByReceipt), spend.tx)
              ==> freed == w.sends[i].Reserved()
  {
    var k :| 0 <= k < |w.sends| && w.sends[k].tx == spend.tx;
    SettleFrees(w.sends, w.gas, spend.tx, ByReceipt, k);
    freed := OpenReserve(w.sends[k], w.gas);
    assert w.sends[k] in w.sends;
    if w.sends[k].settled == Some(ByNonceConsumed) {
      assert SettleSends(w.sends, spend.tx, ByReceipt)[k] == w.sends[k];
      assert ConsumedInLedger(SettleSends(w.sends, spend.tx, ByReceipt), spend.tx);
    } else if w.sends[k].settled.Some? {
      assert w.sends[k].settled.value == ByReceipt;
    }
    assert forall i :: 0 <= i < |w.sends| && w.sends[i].tx == spend.tx ==> i == k;
  }

  lemma GasAdds(v: World, gas: seq<GasSpend>, spend: GasSpend, wallet: Address, day: nat)
    requires v.gas == gas + [spend]
    ensures OwnSpent(v.gas, v.sends, wallet, day) <= OwnSpent(gas, v.sends, wallet, day)
      + if spend.tx.signer == wallet && !ConsumedInLedger(v.sends, spend.tx) then spend.cost else 0
  {
    assert v.gas[..|gas|] == gas;
  }

  lemma ConsumedSame(sends: seq<Send>, tx: Tx)
    ensures forall t :: ConsumedInLedger(SettleSends(sends, tx, ByReceipt), t) <==> ConsumedInLedger(sends, t)
  {
    var settled := SettleSends(sends, tx, ByReceipt);
    forall t ensures ConsumedInLedger(settled, t) <==> ConsumedInLedger(sends, t) {
      if ConsumedInLedger(sends, t) {
        var i :| 0 <= i < |sends| && sends[i].tx == t && sends[i].settled == Some(ByNonceConsumed);
        assert settled[i] == sends[i];
      }
      if ConsumedInLedger(settled, t) {
        var i :| 0 <= i < |sends| && settled[i].tx == t && settled[i].settled == Some(ByNonceConsumed);
        assert settled[i] == sends[i];
      }
    }
  }

  lemma NonceCommits(w: World, tx: Tx, wallet: Address, day: nat)
    requires WorldOk(w, wallet)
    ensures Committed(SettleByNonce(w, tx), wallet, day) <= Committed(w, wallet, day)
    ensures InFlight(SettleByNonce(w, tx).sends, w.gas) <= InFlight(w.sends, w.gas)
  {
    var v := SettleByNonce(w, tx);
    forall t | ConsumedInLedger(w.sends, t) ensures ConsumedInLedger(v.sends, t) {
      var i :| 0 <= i < |w.sends| && w.sends[i].tx == t && w.sends[i].settled == Some(ByNonceConsumed);
      assert v.sends[i] == w.sends[i];
    }
    OwnSpentShrinks(w.gas, w.sends, v.sends, wallet, day, day);
    if k :| 0 <= k < |w.sends| && w.sends[k].tx == tx {
      SettleFrees(w.sends, w.gas, tx, ByNonceConsumed, k);
    } else {
      SettleOther(w.sends, tx, ByNonceConsumed);
    }
  }
}
