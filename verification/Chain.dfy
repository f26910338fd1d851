// The chain as the anchor worker's RPC reads show it: blocks that a reorg can replace, and a
// prefix of final blocks that never changes again.
module Chain {
  import opened Wrappers

  type Address = nat
  type Contract = nat
  type BatchId = nat
  type Root = nat

  // A signed transaction. Its hash is the hash of exactly these fields, so the signed content
  // stands for the hash.
  datatype Tx = Tx(signer: Address, nonce: nat, gasLimit: nat, maxFeePerGas: nat, payload: nat)

  // A RootSubmitted log with the address that emitted it.
  datatype Submission = Submission(contract: Contract, batchId: BatchId, root: Root)

  datatype Mined = Mined(tx: Tx, success: bool, gasCost: nat, l1Fee: nat, submissions: seq<Submission>) {
    function Cost(): nat { gasCost + l1Fee }
  }

  datatype Block = Block(hash: nat, txs: seq<Mined>)

  datatype Chain = Chain(blocks: seq<Block>, finalCount: nat)

  // A transaction receipt with the block that holds it.
  datatype Receipt = Receipt(height: nat, blockHash: nat, mined: Mined)

  function Flat(blocks: seq<Block>): seq<Mined> {
    if blocks == [] then [] else Flat(blocks[..|blocks| - 1]) + blocks[|blocks| - 1].txs
  }

  // eth_getTransactionCount: how many transactions of `signer` are in these blocks.
  function Count(ms: seq<Mined>, signer: Address): nat {
    if ms == [] then 0
    else Count(ms[..|ms| - 1], signer) + if ms[|ms| - 1].tx.signer == signer then 1 else 0
  }

  // Each account's transactions carry the nonces 0, 1, 2, ... in order.
  ghost predicate NoncesInOrder(ms: seq<Mined>) {
    forall i :: 0 <= i < |ms| ==> ms[i].tx.nonce == Count(ms[..i], ms[i].tx.signer)
  }

  // The rules every node enforces on a block.
  ghost predicate Executed(m: Mined) {
    && m.gasCost <= m.tx.gasLimit * m.tx.maxFeePerGas
    && (!m.success ==> m.submissions == [])
  }

  ghost predicate ValidChain(c: Chain) {
    && c.finalCount <= |c.blocks|
    && NoncesInOrder(Flat(c.blocks))
    && forall m <- Flat(c.blocks) :: Executed(m)
  }

  function FinalTxs(c: Chain): seq<Mined>
    requires c.finalCount <= |c.blocks|
  {
    Flat(c.blocks[..c.finalCount])
  }

  // New blocks, a reorg, or a later final head: everything but the final prefix may change.
  ghost predicate Extends(c: Chain, d: Chain) {
    && c.finalCount <= d.finalCount
    && c.finalCount <= |c.blocks|
    && c.finalCount <= |d.blocks|
    && c.blocks[..c.finalCount] == d.blocks[..c.finalCount]
  }

  ghost predicate IsMined(c: Chain, tx: Tx) {
    exists m :: m in Flat(c.blocks) && m.tx == tx
  }

  // Mined with this outcome in a final block.
  ghost predicate IsFinal(c: Chain, m: Mined)
    requires c.finalCount <= |c.blocks|
  {
    m in FinalTxs(c)
  }

  // The outcome a receipt reports is in no final block.
  ghost predicate NotFinal(c: Chain, r: Receipt) {
    c.finalCount <= |c.blocks| ==> !IsFinal(c, r.mined)
  }

  // Whether a worker reads the final head after the receipt it judges by it, as the code does, or before.
  datatype HeadOrder = ReceiptFirst | FinalHeadFirst

  // Another transaction holds this one's nonce in a final block.
  ghost predicate Dead(c: Chain, tx: Tx)
    requires c.finalCount <= |c.blocks|
  {
    exists m :: m in FinalTxs(c) && m.tx != tx && m.tx.signer == tx.signer && m.tx.nonce == tx.nonce
  }

  function FindReceipt(blocks: seq<Block>, tx: Tx): (r: Option<Receipt>)
    ensures r.Some? ==>
      && r.value.height < |blocks|
      && r.value.blockHash == blocks[r.value.height].hash
      && r.value.mined in blocks[r.value.height].txs
      && r.value.mined in Flat(blocks)
      && r.value.mined.tx == tx
    ensures r.None? ==> forall m <- Flat(blocks) :: m.tx != tx
  {
    if blocks == [] then None
    else
      var last := |blocks| - 1;
      if exists i :: 0 <= i < |blocks[last].txs| && blocks[last].txs[i].tx == tx then
        var i := FirstWithTx(blocks[last].txs, tx);
        Some(Receipt(last, blocks[last].hash, blocks[last].txs[i]))
      else FindReceipt(blocks[..last], tx)
  }

  function FirstWithTx(ms: seq<Mined>, tx: Tx): (i: nat)
    requires exists i :: 0 <= i < |ms| && ms[i].tx == tx
    ensures i < |ms| && ms[i].tx == tx
  {
    if ms[0].tx == tx then 0 else 1 + FirstWithTx(ms[1..], tx)
  }

  lemma FlatPrefix(blocks: seq<Block>, k: nat)
    requires k <= |blocks|
    ensures Flat(blocks[..k]) <= Flat(blocks)
  {
    if k < |blocks| {
      FlatPrefix(blocks[..|blocks| - 1], k);
      assert blocks[..|blocks| - 1][..k] == blocks[..k];
    } else {
      assert blocks[..k] == blocks;
    }
  }

  lemma FlatHas(blocks: seq<Block>, h: nat, m: Mined)
    requires h < |blocks| && m in blocks[h].txs
    ensures m in Flat(blocks)
  {
    if h < |blocks| - 1 { FlatHas(blocks[..|blocks| - 1], h, m); }
  }

  lemma CountPrefix(ms: seq<Mined>, k: nat, signer: Address)
    requires k <= |ms|
    ensures Count(ms[..k], signer) <= Count(ms, signer)
  {
    if k < |ms| {
      CountPrefix(ms[..|ms| - 1], k, signer);
      assert ms[..|ms| - 1][..k] == ms[..k];
    } else {
      assert ms[..k] == ms;
    }
  }

  lemma NoncesInOrderPrefix(ms: seq<Mined>, k: nat)
    requires k <= |ms| && NoncesInOrder(ms)
    ensures NoncesInOrder(ms[..k])
  {
    forall i | 0 <= i < k ensures ms[..k][i].tx.nonce == Count(ms[..k][..i], ms[..k][i].tx.signer) {
      assert ms[..k][..i] == ms[..i];
    }
  }

  // Every nonce below the account's count is taken.
  lemma {:induction false} NonceTaken(ms: seq<Mined>, signer: Address, n: nat)
    requires NoncesInOrder(ms) && n < Count(ms, signer)
    ensures exists m :: m in ms && m.tx.signer == signer && m.tx.nonce == n
  {
    var k := |ms| - 1;
    if n < Count(ms[..k], signer) {
      NoncesInOrderPrefix(ms, k);
      NonceTaken(ms[..k], signer, n);
    } else {
      assert ms[k].tx.nonce == Count(ms[..k], ms[k].tx.signer);
      assert ms[k] in ms;
    }
  }

  // One account's nonce is used once: two mined entries that share it are the same entry.
  lemma {:induction false} NonceUsedOnce(ms: seq<Mined>, m: Mined, n: Mined)
    requires NoncesInOrder(ms) && m in ms && n in ms
    requires m.tx.signer == n.tx.signer && m.tx.nonce == n.tx.nonce
    ensures m == n
  {
    var i :| 0 <= i < |ms| && ms[i] == m;
    var j :| 0 <= j < |ms| && ms[j] == n;
    if i < j { NonceGrows(ms, i, j); } else if j < i { NonceGrows(ms, j, i); }
  }

  lemma NonceGrows(ms: seq<Mined>, i: nat, j: nat)
    requires NoncesInOrder(ms) && i < j < |ms| && ms[i].tx.signer == ms[j].tx.signer
    ensures ms[i].tx.nonce < ms[j].tx.nonce
  {
    CountPrefix(ms[..j], i + 1, ms[i].tx.signer);
    assert ms[..j][..i + 1] == ms[..i + 1];
    assert ms[..i + 1][..i] == ms[..i];
  }

  lemma FinalIsMined(c: Chain, m: Mined)
    requires ValidChain(c) && IsFinal(c, m)
    ensures m in Flat(c.blocks)
  {
    FlatPrefix(c.blocks, c.finalCount);
  }

  // What is final stays final, on every later chain.
  lemma FinalStays(c: Chain, d: Chain, m: Mined)
    requires ValidChain(c) && ValidChain(d) && Extends(c, d) && IsFinal(c, m)
    ensures IsFinal(d, m)
  {
    FlatPrefix(d.blocks[..d.finalCount], c.finalCount);
    assert d.blocks[..d.finalCount][..c.finalCount] == c.blocks[..c.finalCount];
  }

  lemma CountStays(c: Chain, d: Chain, signer: Address)
    requires ValidChain(c) && ValidChain(d) && Extends(c, d)
    ensures Count(FinalTxs(c), signer) <= Count(FinalTxs(d), signer)
  {
    FlatPrefix(d.blocks[..d.finalCount], c.finalCount);
    assert d.blocks[..d.finalCount][..c.finalCount] == c.blocks[..c.finalCount];
    CountPrefix(FinalTxs(d), |FinalTxs(c)|, signer);
    assert FinalTxs(d)[..|FinalTxs(c)|] == FinalTxs(c);
  }

  // A transaction whose nonce another one holds in the final prefix is mined on no chain that
  // keeps that prefix.
  lemma DeadForever(c: Chain, d: Chain, tx: Tx)
    requires ValidChain(c) && ValidChain(d) && Extends(c, d) && Dead(c, tx)
    ensures Dead(d, tx) && !IsMined(d, tx)
  {
    var m :| m in FinalTxs(c) && m.tx != tx && m.tx.signer == tx.signer && m.tx.nonce == tx.nonce;
    FinalStays(c, d, m);
    FinalIsMined(d, m);
    if IsMined(d, tx) {
      var n :| n in Flat(d.blocks) && n.tx == tx;
      NonceUsedOnce(Flat(d.blocks), m, n);
      assert false;
    }
  }

  // A final outcome is the only one the transaction has, on every later chain.
  lemma FinalOutcome(c: Chain, d: Chain, m: Mined, n: Mined)
    requires ValidChain(c) && ValidChain(d) && Extends(c, d) && IsFinal(c, m)
    requires n in Flat(d.blocks) && n.tx == m.tx
    ensures n == m
  {
    FinalStays(c, d, m);
    FinalIsMined(d, m);
    NonceUsedOnce(Flat(d.blocks), m, n);
  }

  // The settlement argument: a nonce count taken at final blocks, then no receipt.
  lemma ConsumedNonceIsDead(c: Chain, tx: Tx, takenBelow: nat)
    requires ValidChain(c) && takenBelow <= Count(FinalTxs(c), tx.signer)
    requires tx.nonce < takenBelow && !IsMined(c, tx)
    ensures Dead(c, tx)
  {
    FlatPrefix(c.blocks, c.finalCount);
    NoncesInOrderPrefix(Flat(c.blocks), |FinalTxs(c)|);
    assert Flat(c.blocks)[..|FinalTxs(c)|] == FinalTxs(c);
    NonceTaken(FinalTxs(c), tx.signer, tx.nonce);
    var m :| m in FinalTxs(c) && m.tx.signer == tx.signer && m.tx.nonce == tx.nonce;
    FinalIsMined(c, m);
  }

  lemma {:induction false} InSomeBlock(blocks: seq<Block>, m: Mined) returns (h: nat)
    requires m in Flat(blocks)
    ensures h < |blocks| && m in blocks[h].txs
  {
    var last := |blocks| - 1;
    if m in blocks[last].txs { h := last; } else { h := InSomeBlock(blocks[..last], m); }
  }

  // Final is being in some final block, whichever block a receipt once named.
  lemma FinalIffInFinalBlock(c: Chain, m: Mined)
    requires c.finalCount <= |c.blocks|
    ensures IsFinal(c, m) <==> exists h :: 0 <= h < c.finalCount && m in c.blocks[h].txs
  {
    if IsFinal(c, m) {
      var h := InSomeBlock(c.blocks[..c.finalCount], m);
      assert m in c.blocks[h].txs;
    }
    if h :| 0 <= h < c.finalCount && m in c.blocks[h].txs { FlatHas(c.blocks[..c.finalCount], h, m); }
  }

  // A receipt whose block is below the final head is final.
  lemma ReceiptBelowFinalHead(c: Chain, r: Receipt)
    requires ValidChain(c) && r.height < c.finalCount && r.mined in c.blocks[r.height].txs
    ensures IsFinal(c, r.mined)
  {
    FlatHas(c.blocks[..c.finalCount], r.height, r.mined);
  }

  // At most `k` final blocks: the count there is at most the count in the final prefix.
  lemma CountAtDepth(c: Chain, k: nat, signer: Address)
    requires ValidChain(c) && k <= c.finalCount
    ensures Count(Flat(c.blocks[..k]), signer) <= Count(FinalTxs(c), signer)
  {
    FlatPrefix(c.blocks[..c.finalCount], k);
    assert c.blocks[..c.finalCount][..k] == c.blocks[..k];
    CountPrefix(FinalTxs(c), |Flat(c.blocks[..k])|, signer);
    assert FinalTxs(c)[..|Flat(c.blocks[..k])|] == Flat(c.blocks[..k]);
  }
}
