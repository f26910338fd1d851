// settleSends as the loop it is: one pass over open sends, with other workers and the chain moving
// on between any two of its reads and writes.
module SendSettling {
  import opened Wrappers
  import opened Chain
  import opened Ledger
  import opened AnchorRuns
  import opened AnchorSafety

  // What everybody else does to the shared world before step `n`. It may be anything that keeps the
  // ledger's rules.
  type Others = (nat, World) -> World

  ghost predicate Fair(others: Others, wallet: Address) {
    forall n, w :: WorldOk(w, wallet) ==> WorldOk(others(n, w), wallet) && Grows(w, others(n, w))
  }

  // The database and the node, as one pass sees them.
  class Shared {
    var world: World
    var steps: nat
    const others: Others
    const wallet: Address

    constructor (world: World, others: Others, wallet: Address)
      ensures this.world == world && this.others == others && this.wallet == wallet
    {
      this.world, this.others, this.wallet, steps := world, others, wallet, 0;
    }

    ghost predicate Valid()
      reads this
    {
      WorldOk(world, wallet) && Fair(others, wallet)
    }

    method Wait()
      requires Valid()
      modifies this
      ensures Valid() && Grows(old(world), world)
    {
      world := others(steps, world);
      steps := steps + 1;
    }

    // confirmedNonce: how many of the signer's nonces the first `depth` blocks have taken.
    method ConfirmedNonce(signer: Address, depth: nat) returns (taken: nat)
      requires Valid() && depth <= world.chain.finalCount
      modifies this
      ensures Valid() && Grows(old(world), world)
      ensures taken <= Count(FinalTxs(world.chain), signer) && depth <= |world.chain.blocks|
      ensures taken == Count(Flat(world.chain.blocks[..depth]), signer)
    {
      Wait();
      CountAtDepth(world.chain, depth, signer);
      taken := Count(Flat(world.chain.blocks[..depth]), signer);
    }

    // One statement, or one short transaction.
    method RecordReceipt(spend: GasSpend)
      requires Valid() && (spend.tx.signer == wallet ==> InLedger(world.sends, spend.tx))
      modifies this
      ensures Valid() && Grows(old(world), world) && world == SettleByReceipt(old(world), spend)
    {
      ReceiptStep(world, spend, wallet);
      world := SettleByReceipt(world, spend);
    }

    method RecordConsumed(tx: Tx)
      requires Valid() && Dead(world.chain, tx)
      modifies this
      ensures Valid() && Grows(old(world), world) && world == SettleByNonce(old(world), tx)
    {
      NonceStep(world, tx, wallet);
      world := SettleByNonce(world, tx);
    }
  }

  // A send of this hash is settled.
  ghost predicate IsSettled(sends: seq<Send>, tx: Tx) {
    exists i :: 0 <= i < |sends| && sends[i].tx == tx && sends[i].settled.Some?
  }

  // What holds of a send once the pass has settled it, from then on.
  ghost predicate OutcomeOk(w: World, tx: Tx, outcome: Option<SettledReason>)
    requires ValidChain(w.chain)
  {
    outcome.Some? ==> IsSettled(w.sends, tx) && (outcome == Some(ByNonceConsumed) ==> Dead(w.chain, tx))
  }

  lemma OutcomeStays(w: World, v: World, tx: Tx, outcome: Option<SettledReason>)
    requires Grows(w, v) && OutcomeOk(w, tx, outcome)
    ensures OutcomeOk(v, tx, outcome)
  {
    if outcome.Some? {
      var i :| 0 <= i < |w.sends| && w.sends[i].tx == tx && w.sends[i].settled.Some?;
      assert v.sends[i] == w.sends[i];
      if outcome == Some(ByNonceConsumed) { DeadForever(w.chain, v.chain, tx); }
    }
  }

  lemma SettlingSettles(sends: seq<Send>, tx: Tx, reason: SettledReason)
    requires InLedger(sends, tx)
    ensures IsSettled(SettleSends(sends, tx, reason), tx)
  {
    var i :| 0 <= i < |sends| && sends[i].tx == tx;
    assert SettleSends(sends, tx, reason)[i].tx == tx && SettleSends(sends, tx, reason)[i].settled.Some?;
  }

  // ---- what one send's settlement writes ----

  // The world in which the receipt was looked up, and the worlds just before and just after the write.
  datatype Write = Write(seen: World, before: World, after: World)

  // The gas ledger has a row for the hash. If it had none before the write, that row carries the receipt's cost, the
  // row of the send, and the day.
  ghost predicate BookedIn(gas: seq<GasSpend>, before: World, tx: Tx, cost: nat, day: nat) {
    exists g :: g in gas && g.tx == tx && (InGas(before.gas, tx) || BooksSend(before, g, cost, day))
  }

  ghost predicate BooksSend(before: World, g: GasSpend, cost: nat, day: nat) {
    g.cost == cost && g.day == day && exists s :: s in before.sends && s.tx == g.tx && s.row == g.row
  }

  // Exactly the open sends of this hash are settled, for this reason.
  predicate SettlesOnly(before: seq<Send>, after: seq<Send>, tx: Tx, reason: SettledReason) {
    |after| == |before| && forall i :: 0 <= i < |before| ==>
      after[i] == if before[i].tx == tx && before[i].settled.None? then before[i].(settled := Some(reason))
                  else before[i]
  }

  // A receipt books its cost once and settles the send; a consumed nonce settles it and books nothing; otherwise
  // nothing is written.
  ghost predicate WriteOk(u: Write, tx: Tx, outcome: Option<SettledReason>, day: nat) {
    var receipt := FindReceipt(u.seen.chain.blocks, tx);
    && Grows(u.seen, u.before) && Grows(u.before, u.after)
    && match outcome
       case Some(ByReceipt) =>
         && receipt.Some? && SettlesOnly(u.before.sends, u.after.sends, tx, ByReceipt)
         && BookedIn(u.after.gas, u.before, tx, receipt.value.mined.Cost(), day)
         && |u.after.gas| == |u.before.gas| + (if InGas(u.before.gas, tx) then 0 else 1)
       case Some(ByNonceConsumed) =>
         && receipt.None? && SettlesOnly(u.before.sends, u.after.sends, tx, ByNonceConsumed)
         && u.after.gas == u.before.gas
       case None => u.after == u.before
  }

  lemma BookingStays(gas: seq<GasSpend>, more: seq<GasSpend>, before: World, tx: Tx, cost: nat, day: nat)
    requires gas <= more && BookedIn(gas, before, tx, cost, day)
    ensures BookedIn(more, before, tx, cost, day)
  {
    var g :| g in gas && g.tx == tx && (InGas(before.gas, tx) || BooksSend(before, g, cost, day));
    var i :| 0 <= i < |gas| && gas[i] == g;
    assert more[i] == g;
  }

  lemma ReceiptIsBooked(w: World, tx: Tx, cost: nat, day: nat)
    requires InLedger(w.sends, tx)
    ensures
      var v := SettleByReceipt(w, GasSpend(tx, RowOfSend(w.sends, tx), cost, day));
      && BookedIn(v.gas, w, tx, cost, day) && |v.gas| == |w.gas| + (if InGas(w.gas, tx) then 0 else 1)
  {
    var g := GasSpend(tx, RowOfSend(w.sends, tx), cost, day);
    if InGas(w.gas, tx) {
      var i :| 0 <= i < |w.gas| && w.gas[i].tx == tx;
      assert w.gas[i] in w.gas;
    } else {
      assert BooksSend(w, g, cost, day);
      assert g in SettleByReceipt(w, g).gas;
    }
  }

  lemma ReceiptIsWritten(seen: World, before: World, tx: Tx, day: nat)
    requires FindReceipt(seen.chain.blocks, tx).Some? && InLedger(before.sends, tx) && Grows(seen, before)
    requires
      var cost := FindReceipt(seen.chain.blocks, tx).value.mined.Cost();
      Grows(before, SettleByReceipt(before, GasSpend(tx, RowOfSend(before.sends, tx), cost, day)))
    ensures
      var cost := FindReceipt(seen.chain.blocks, tx).value.mined.Cost();
      var after := SettleByReceipt(before, GasSpend(tx, RowOfSend(before.sends, tx), cost, day));
      WriteOk(Write(seen, before, after), tx, Some(ByReceipt), day) && IsSettled(after.sends, tx)
  {
    ReceiptIsBooked(before, tx, FindReceipt(seen.chain.blocks, tx).value.mined.Cost(), day);
    SettlingSettles(before.sends, tx, ByReceipt);
  }

  lemma ConsumptionIsWritten(seen: World, before: World, tx: Tx, day: nat)
    requires FindReceipt(seen.chain.blocks, tx).None? && InLedger(before.sends, tx) && Grows(seen, before)
    requires Grows(before, SettleByNonce(before, tx))
    ensures WriteOk(Write(seen, before, SettleByNonce(before, tx)), tx, Some(ByNonceConsumed), day)
    ensures IsSettled(SettleByNonce(before, tx).sends, tx)
  {
    SettlingSettles(before.sends, tx, ByNonceConsumed);
  }

  // What the pass has written for a send, and what is left of it at its end.
  ghost predicate Written(start: World, end: World, u: Write, tx: Tx, outcome: Option<SettledReason>, day: nat) {
    && Grows(start, u.seen) && Grows(u.after, end) && WriteOk(u, tx, outcome, day)
    && (outcome == Some(ByReceipt) ==>
          BookedIn(end.gas, u.before, tx, FindReceipt(u.seen.chain.blocks, tx).value.mined.Cost(), day))
  }

  lemma WrittenStays(start: World, end: World, later: World, u: Write, tx: Tx, outcome: Option<SettledReason>, day: nat)
    requires Written(start, end, u, tx, outcome, day) && Grows(end, later)
    ensures Written(start, later, u, tx, outcome, day)
  {
    GrowsOn(u.after, end, later);
    if outcome == Some(ByReceipt) {
      BookingStays(end.gas, later.gas, u.before, tx, FindReceipt(u.seen.chain.blocks, tx).value.mined.Cost(), day);
    }
  }

  // What the loop carries: nonces read at final blocks, and sends that are in the ledger.
  ghost predicate PassOk(w: World, depth: Option<nat>, nonces: map<Address, nat>, hashes: seq<Tx>)
    requires ValidChain(w.chain)
  {
    && (depth.Some? ==> depth.value <= w.chain.finalCount)
    && (forall a <- nonces :: nonces[a] <= Count(FinalTxs(w.chain), a))
    && (forall i :: 0 <= i < |hashes| ==> InLedger(w.sends, hashes[i]))
  }

  lemma PassStays(w: World, v: World, depth: Option<nat>, nonces: map<Address, nat>, hashes: seq<Tx>)
    requires Grows(w, v) && PassOk(w, depth, nonces, hashes)
    ensures PassOk(v, depth, nonces, hashes)
  {
    LedgerKeepsGrowing(w, v);
    forall a <- nonces ensures nonces[a] <= Count(FinalTxs(v.chain), a) { CountStays(w.chain, v.chain, a); }
  }

  lemma GrowsOn(u: World, v: World, w: World)
    requires Grows(u, v) && Grows(v, w)
    ensures Grows(u, w)
  {
  }

  lemma GrowsSelf(w: World, wallet: Address)
    requires WorldOk(w, wallet)
    ensures Grows(w, w)
  {
  }

  // The nonce read: from an earlier send of the pass, or from the node.
  method ReadNonce(db: Shared, tx: Tx, depth: Option<nat>, nonces: map<Address, nat>, answered: bool)
    returns (takenBelow: Option<nat>, confirmed: map<Address, nat>)
    requires db.Valid() && PassOk(db.world, depth, nonces, [tx])
    modifies db
    ensures db.Valid() && Grows(old(db.world), db.world) && PassOk(db.world, depth, confirmed, [tx])
    ensures takenBelow.Some? ==> takenBelow.value <= Count(FinalTxs(db.world.chain), tx.signer)
    ensures depth == None ==> takenBelow == None && confirmed == nonces
    ensures depth.Some? && tx.signer in nonces ==> takenBelow == Some(nonces[tx.signer]) && confirmed == nonces
    ensures depth.Some? && tx.signer !in nonces ==>
      if answered
      then takenBelow == Some(Count(Flat(db.world.chain.blocks[..depth.value]), tx.signer))
           && confirmed == nonces[tx.signer := takenBelow.value]
      else takenBelow == None && confirmed == nonces
  {
    GrowsSelf(db.world, db.wallet);
    takenBelow, confirmed := None, nonces;
    if depth.Some? {
      if tx.signer in confirmed {
        takenBelow := Some(confirmed[tx.signer]);
      } else if answered {
        ghost var start := db.world;
        var taken := db.ConfirmedNonce(tx.signer, depth.value);
        PassStays(start, db.world, depth, nonces, [tx]);
        takenBelow := Some(taken);
        confirmed := confirmed[tx.signer := taken];
      }
    }
  }

  // Why no receipt together with a taken nonce is conclusive.
  ghost predicate Evidence(w: World, tx: Tx, takenBelow: Option<nat>, receipt: Option<Receipt>)
    requires ValidChain(w.chain)
  {
    && receipt == FindReceipt(w.chain.blocks, tx)
    && (receipt.None? && takenBelow.Some? && tx.nonce < takenBelow.value ==> Dead(w.chain, tx))
  }

  // The receipt lookup, after the nonce was read.
  method Observe(db: Shared, tx: Tx, takenBelow: Option<nat>) returns (receipt: Option<Receipt>)
    requires db.Valid()
    requires takenBelow.Some? ==> takenBelow.value <= Count(FinalTxs(db.world.chain), tx.signer)
    modifies db
    ensures db.Valid() && Grows(old(db.world), db.world) && Evidence(db.world, tx, takenBelow, receipt)
  {
    ghost var known := db.world;
    db.Wait();
    if takenBelow.Some? { CountStays(known.chain, db.world.chain, tx.signer); }
    receipt := FindReceipt(db.world.chain.blocks, tx);
    if receipt.None? && takenBelow.Some? && tx.nonce < takenBelow.value {
      ConsumedNonceIsDead(db.world.chain, tx, takenBelow.value);
    }
  }

  // The write, after others may have moved on again.
  method RecordOutcome(db: Shared, tx: Tx, takenBelow: Option<nat>, receipt: Option<Receipt>, day: nat)
    returns (outcome: Option<SettledReason>, ghost before: World)
    requires db.Valid() && Evidence(db.world, tx, takenBelow, receipt) && InLedger(db.world.sends, tx)
    modifies db
    ensures db.Valid() && Grows(old(db.world), db.world) && OutcomeOk(db.world, tx, outcome)
    ensures outcome == if receipt.Some? then Some(ByReceipt)
                       else if takenBelow.Some? && tx.nonce < takenBelow.value then Some(ByNonceConsumed) else None
    ensures WriteOk(Write(old(db.world), before, db.world), tx, outcome, day)
  {
    ghost var seen := db.world;
    db.Wait();
    LedgerKeepsGrowing(seen, db.world);
    before := db.world;
    if receipt.Some? {
      outcome := Some(ByReceipt);
      db.RecordReceipt(GasSpend(tx, RowOfSend(db.world.sends, tx), receipt.value.mined.Cost(), day));
      ReceiptIsWritten(seen, before, tx, day);
    } else if takenBelow.Some? && tx.nonce < takenBelow.value {
      outcome := Some(ByNonceConsumed);
      DeadForever(seen.chain, before.chain, tx);
      db.RecordConsumed(tx);
      ConsumptionIsWritten(seen, before, tx, day);
    } else {
      outcome := None;
      GrowsSelf(before, db.wallet);
    }
    GrowsOn(seen, before, db.world);
  }

  // One send: the nonce before the receipt, then the write.
  method SettleSend(db: Shared, tx: Tx, depth: Option<nat>, nonces: map<Address, nat>,
                    nonceAnswered: bool, receiptAnswered: bool, day: nat)
    returns (outcome: Option<SettledReason>, confirmed: map<Address, nat>, ghost u: Write)
    requires db.Valid() && PassOk(db.world, depth, nonces, [tx])
    modifies db
    ensures db.Valid() && Grows(old(db.world), db.world)
    ensures PassOk(db.world, depth, confirmed, [tx])
    ensures OutcomeOk(db.world, tx, outcome)
    ensures !receiptAnswered ==> outcome == None
    ensures receiptAnswered && FindReceipt(u.seen.chain.blocks, tx).Some? ==> outcome == Some(ByReceipt)
    ensures depth == None ==> outcome != Some(ByNonceConsumed)
    ensures depth.Some? && nonceAnswered ==> tx.signer in confirmed
    ensures receiptAnswered && depth.Some? && tx.signer in confirmed && FindReceipt(u.seen.chain.blocks, tx).None? ==>
      (outcome == Some(ByNonceConsumed) <==> tx.nonce < confirmed[tx.signer])
    ensures Written(old(db.world), db.world, u, tx, outcome, day)
  {
    var takenBelow;
    takenBelow, confirmed := ReadNonce(db, tx, depth, nonces, nonceAnswered);
    ghost var known := db.world;
    if receiptAnswered {
      var receipt := Observe(db, tx, takenBelow);
      ghost var seen := db.world;
      GrowsOn(old(db.world), known, seen);
      PassStays(known, seen, depth, confirmed, [tx]);
      assert InLedger(seen.sends, [tx][0]);
      ghost var before;
      outcome, before := RecordOutcome(db, tx, takenBelow, receipt, day);
      u := Write(seen, before, db.world);
      GrowsOn(old(db.world), seen, db.world);
      PassStays(seen, db.world, depth, confirmed, [tx]);
    } else {
      outcome, u := None, Write(known, known, known);
    }
    GrowsSelf(db.world, db.wallet);
  }

  // How far the pass has come.
  ghost predicate Settled(w: World, hashes: seq<Tx>, depth: Option<nat>, receiptAnswers: seq<bool>,
                          outcomes: seq<Option<SettledReason>>)
    requires ValidChain(w.chain)
  {
    |outcomes| <= |hashes| == |receiptAnswers| &&
    forall k :: 0 <= k < |outcomes| ==>
      && OutcomeOk(w, hashes[k], outcomes[k])
      && (!receiptAnswers[k] ==> outcomes[k] == None)
      && (depth == None ==> outcomes[k] != Some(ByNonceConsumed))
  }

  // Every write of the pass so far, each found by its own look at the chain.
  ghost predicate AllWritten(start: World, end: World, hashes: seq<Tx>, receiptAnswers: seq<bool>,
                             outcomes: seq<Option<SettledReason>>, writes: seq<Write>, day: nat)
  {
    |writes| == |outcomes| <= |hashes| == |receiptAnswers| &&
    forall k :: 0 <= k < |writes| ==>
      && Written(start, end, writes[k], hashes[k], outcomes[k], day)
      && (receiptAnswers[k] && FindReceipt(writes[k].seen.chain.blocks, hashes[k]).Some? ==>
            outcomes[k] == Some(ByReceipt))
  }

  lemma WrittenSince(start: World, w: World, v: World, u: Write, tx: Tx, outcome: Option<SettledReason>, day: nat)
    requires Grows(start, w) && Written(w, v, u, tx, outcome, day)
    ensures Written(start, v, u, tx, outcome, day)
  {
    GrowsOn(start, w, u.seen);
  }

  lemma AllWrittenStays(start: World, w: World, v: World, hashes: seq<Tx>, receiptAnswers: seq<bool>,
                        outcomes: seq<Option<SettledReason>>, writes: seq<Write>, day: nat)
    requires AllWritten(start, w, hashes, receiptAnswers, outcomes, writes, day) && Grows(w, v)
    ensures AllWritten(start, v, hashes, receiptAnswers, outcomes, writes, day)
  {
    forall k | 0 <= k < |writes| ensures Written(start, v, writes[k], hashes[k], outcomes[k], day) {
      WrittenStays(start, w, v, writes[k], hashes[k], outcomes[k], day);
    }
  }

  lemma AllWrittenSnoc(start: World, v: World, hashes: seq<Tx>, receiptAnswers: seq<bool>,
                       outcomes: seq<Option<SettledReason>>, writes: seq<Write>, day: nat,
                       outcome: Option<SettledReason>, u: Write)
    requires AllWritten(start, v, hashes, receiptAnswers, outcomes, writes, day) && |outcomes| < |hashes|
    requires Written(start, v, u, hashes[|outcomes|], outcome, day)
    requires receiptAnswers[|outcomes|] && FindReceipt(u.seen.chain.blocks, hashes[|outcomes|]).Some? ==>
               outcome == Some(ByReceipt)
    ensures AllWritten(start, v, hashes, receiptAnswers, outcomes + [outcome], writes + [u], day)
  {
  }

  lemma WrittenMore(start: World, w: World, v: World, hashes: seq<Tx>, receiptAnswers: seq<bool>,
                    outcomes: seq<Option<SettledReason>>, writes: seq<Write>, day: nat,
                    outcome: Option<SettledReason>, u: Write)
    requires AllWritten(start, w, hashes, receiptAnswers, outcomes, writes, day) && |outcomes| < |hashes|
    requires Grows(start, w) && Grows(w, v) && Written(w, v, u, hashes[|outcomes|], outcome, day)
    requires receiptAnswers[|outcomes|] && FindReceipt(u.seen.chain.blocks, hashes[|outcomes|]).Some? ==>
               outcome == Some(ByReceipt)
    ensures AllWritten(start, v, hashes, receiptAnswers, outcomes + [outcome], writes + [u], day)
  {
    WrittenSince(start, w, v, u, hashes[|outcomes|], outcome, day);
    AllWrittenStays(start, w, v, hashes, receiptAnswers, outcomes, writes, day);
    AllWrittenSnoc(start, v, hashes, receiptAnswers, outcomes, writes, day, outcome, u);
  }

  lemma SettledStays(w: World, v: World, hashes: seq<Tx>, depth: Option<nat>, receiptAnswers: seq<bool>,
                     outcomes: seq<Option<SettledReason>>)
    requires Grows(w, v) && Settled(w, hashes, depth, receiptAnswers, outcomes)
    ensures Settled(v, hashes, depth, receiptAnswers, outcomes)
  {
    forall k | 0 <= k < |outcomes| ensures OutcomeOk(v, hashes[k], outcomes[k]) {
      OutcomeStays(w, v, hashes[k], outcomes[k]);
    }
  }

  lemma PassOfOne(w: World, depth: Option<nat>, nonces: map<Address, nat>, hashes: seq<Tx>, i: nat)
    requires ValidChain(w.chain) && PassOk(w, depth, nonces, hashes) && i < |hashes|
    ensures PassOk(w, depth, nonces, [hashes[i]])
  {
  }

  // The nonces of the last send serve the whole pass.
  lemma PassGoesOn(w: World, v: World, depth: Option<nat>, nonces: map<Address, nat>, confirmed: map<Address, nat>,
                   hashes: seq<Tx>, tx: Tx)
    requires Grows(w, v) && PassOk(w, depth, nonces, hashes) && PassOk(v, depth, confirmed, [tx])
    ensures PassOk(v, depth, confirmed, hashes)
  {
    LedgerKeepsGrowing(w, v);
  }

  lemma SettledMore(w: World, v: World, hashes: seq<Tx>, depth: Option<nat>, receiptAnswers: seq<bool>,
                    outcomes: seq<Option<SettledReason>>, outcome: Option<SettledReason>)
    requires Grows(w, v) && Settled(w, hashes, depth, receiptAnswers, outcomes) && |outcomes| < |hashes|
    requires OutcomeOk(v, hashes[|outcomes|], outcome)
    requires !receiptAnswers[|outcomes|] ==> outcome == None
    requires depth == None ==> outcome != Some(ByNonceConsumed)
    ensures Settled(v, hashes, depth, receiptAnswers, outcomes + [outcome])
  {
    SettledStays(w, v, hashes, depth, receiptAnswers, outcomes);
  }

  // Where the loop is.
  ghost predicate PassSoFar(start: World, w: World, depth: Option<nat>, nonces: map<Address, nat>, hashes: seq<Tx>,
                            receiptAnswers: seq<bool>, outcomes: seq<Option<SettledReason>>, writes: seq<Write>,
                            day: nat)
  {
    && Grows(start, w)
    && PassOk(w, depth, nonces, hashes)
    && Settled(w, hashes, depth, receiptAnswers, outcomes)
    && AllWritten(start, w, hashes, receiptAnswers, outcomes, writes, day)
  }

  lemma PassAdvances(start: World, w: World, v: World, depth: Option<nat>, nonces: map<Address, nat>,
                     confirmed: map<Address, nat>, hashes: seq<Tx>, receiptAnswers: seq<bool>,
                     outcomes: seq<Option<SettledReason>>, writes: seq<Write>, day: nat,
                     outcome: Option<SettledReason>, u: Write)
    requires PassSoFar(start, w, depth, nonces, hashes, receiptAnswers, outcomes, writes, day)
    requires |outcomes| < |hashes| && Grows(w, v)
    requires PassOk(v, depth, confirmed, [hashes[|outcomes|]])
    requires OutcomeOk(v, hashes[|outcomes|], outcome)
    requires !receiptAnswers[|outcomes|] ==> outcome == None
    requires depth == None ==> outcome != Some(ByNonceConsumed)
    requires Written(w, v, u, hashes[|outcomes|], outcome, day)
    requires receiptAnswers[|outcomes|] && FindReceipt(u.seen.chain.blocks, hashes[|outcomes|]).Some? ==>
               outcome == Some(ByReceipt)
    ensures PassSoFar(start, v, depth, confirmed, hashes, receiptAnswers, outcomes + [outcome], writes + [u], day)
  {
    GrowsOn(start, w, v);
    PassGoesOn(w, v, depth, nonces, confirmed, hashes, hashes[|outcomes|]);
    SettledMore(w, v, hashes, depth, receiptAnswers, outcomes, outcome);
    WrittenMore(start, w, v, hashes, receiptAnswers, outcomes, writes, day, outcome, u);
  }

  // The pass. `nonceAnswers` and `receiptAnswers` say which reads the node answered. Whatever others do
  // meanwhile, a hash it calls consumed is mined in no chain that keeps the final prefix, a failed read leaves the
  // send open, and a send it settles by receipt has its cost in the gas ledger, booked once.
  method SettleAll(db: Shared, hashes: seq<Tx>, depth: Option<nat>,
                   nonceAnswers: seq<bool>, receiptAnswers: seq<bool>, day: nat)
    returns (outcomes: seq<Option<SettledReason>>, ghost writes: seq<Write>)
    requires db.Valid() && PassOk(db.world, depth, map[], hashes)
    requires |nonceAnswers| == |receiptAnswers| == |hashes|
    modifies db
    ensures db.Valid() && Grows(old(db.world), db.world)
    ensures |outcomes| == |hashes| && Settled(db.world, hashes, depth, receiptAnswers, outcomes)
    ensures AllWritten(old(db.world), db.world, hashes, receiptAnswers, outcomes, writes, day)
  {
    var confirmedNonces: map<Address, nat> := map[];
    outcomes, writes := [], [];
    GrowsSelf(db.world, db.wallet);
    for i := 0 to |hashes|
      invariant db.Valid() && |outcomes| == i
      invariant PassSoFar(old(db.world), db.world, depth, confirmedNonces, hashes, receiptAnswers, outcomes, writes,
                  day)
    {
      ghost var before := db.world;
      PassOfOne(before, depth, confirmedNonces, hashes, i);
      ghost var u;
      var outcome, confirmed;
      outcome, confirmed, u :=
        SettleSend(db, hashes[i], depth, confirmedNonces, nonceAnswers[i], receiptAnswers[i], day);
      PassAdvances(old(db.world), before, db.world, depth, confirmedNonces, confirmed, hashes, receiptAnswers, outcomes,
        writes, day, outcome, u);
      confirmedNonces := confirmed;
      outcomes, writes := outcomes + [outcome], writes + [u];
    }
  }
}
