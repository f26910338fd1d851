// findSubmissionHash: the backward search for the transaction that stored a batch.
module LogSearch {
  const LOG_SEARCH_CHUNK_BLOCKS: nat := 5000

  type TxHash = nat

  datatype Reply<+T> = Answer(value: T) | Refused

  // What the node answers. `submissionHashes` lists the batch's logs in a block range.
  datatype Reader = Reader(
    head: nat,
    blockTimestamp: nat -> Reply<int>,
    submissionHashes: (nat, nat) -> Reply<seq<TxHash>>)

  // `Incomplete` is every thrown error: a refused read, or a head not newer than the batch.
  datatype Outcome = Found(hash: TxHash) | NotInWindow | Incomplete

  // The chain itself, beyond what this node has seen of it.
  datatype Truth = Truth(time: nat -> int, logs: nat -> seq<TxHash>)

  // The contract stores a batch in a block of the batch's own timestamp, and time never goes back.
  ghost predicate BatchStoredAt(truth: Truth, submittedAt: int) {
    && (forall a: nat, b: nat :: a <= b ==> truth.time(a) <= truth.time(b))
    && (forall b: nat :: truth.logs(b) != [] ==> truth.time(b) == submittedAt)
  }

  ghost predicate Truthful(reader: Reader, truth: Truth) {
    && (forall b: nat :: b <= reader.head && reader.blockTimestamp(b).Answer? ==>
          reader.blockTimestamp(b).value == truth.time(b))
    && (forall from: nat, last: nat :: last <= reader.head && reader.submissionHashes(from, last).Answer? ==>
          var hashes := reader.submissionHashes(from, last).value;
          && (hashes == [] ==> forall b: nat :: from <= b <= last ==> truth.logs(b) == [])
          && (hashes != [] ==> exists b: nat :: from <= b <= last && hashes[0] in truth.logs(b)))
  }

  ghost predicate NeverRefuses(reader: Reader) {
    && (forall b: nat :: reader.blockTimestamp(b).Answer?)
    && (forall from: nat, last: nat :: reader.submissionHashes(from, last).Answer?)
  }

  // From the head down, each range right below the one before, none wider than a chunk.
  ghost predicate Descends(asked: seq<(nat, nat)>, head: nat) {
    && (forall i :: 0 <= i < |asked| ==>
          asked[i].0 <= asked[i].1 && asked[i].1 - asked[i].0 < LOG_SEARCH_CHUNK_BLOCKS)
    && (asked != [] ==> asked[0].1 == head)
    && (forall i :: 0 < i < |asked| ==> asked[i].1 + 1 == asked[i - 1].0)
  }

  lemma DescendsFurther(asked: seq<(nat, nat)>, head: nat, from: nat, last: nat)
    requires Descends(asked, head) && from <= last && last - from < LOG_SEARCH_CHUNK_BLOCKS
    requires if asked == [] then last == head else last + 1 == asked[|asked| - 1].0
    ensures Descends(asked + [(from, last)], head)
  {
  }

  // The window is the last `lookback` blocks, or all there are.
  function Oldest(head: nat, lookback: nat): (oldest: nat)
    ensures head + 1 - oldest == if lookback <= head then lookback else head + 1
  {
    if head >= lookback then head - lookback + 1 else 0
  }

  method NotFound(reader: Reader, submittedAt: int, ghost truth: Truth) returns (r: Outcome)
    requires Truthful(reader, truth)
    ensures r.NotInWindow? || r.Incomplete?
    ensures r.NotInWindow? ==> truth.time(reader.head) > submittedAt
    ensures r.Incomplete? ==> reader.blockTimestamp(reader.head).Refused? || truth.time(reader.head) <= submittedAt
  {
    var time := reader.blockTimestamp(reader.head);
    if time.Refused? || time.value <= submittedAt {
      return Incomplete;
    }
    return NotInWindow;
  }

  method FindSubmissionHash(reader: Reader, submittedAt: int, lookbackBlocks: nat, ghost truth: Truth)
    returns (r: Outcome, asked: seq<(nat, nat)>)
    requires Truthful(reader, truth) && BatchStoredAt(truth, submittedAt)
    ensures if lookbackBlocks == 0 then asked == [(reader.head + 1, reader.head)] else Descends(asked, reader.head)
    ensures r.Found? ==>
      exists b: nat :: Oldest(reader.head, lookbackBlocks) <= b <= reader.head && r.hash in truth.logs(b)
    ensures r.NotInWindow? ==> forall b: nat :: b >= Oldest(reader.head, lookbackBlocks) ==> truth.logs(b) == []
    ensures NeverRefuses(reader)
            && (exists b: nat :: Oldest(reader.head, lookbackBlocks) <= b <= reader.head && truth.logs(b) != [])
            ==> r.Found?
    ensures r.Incomplete? ==> !NeverRefuses(reader) || truth.time(reader.head) <= submittedAt
    ensures NeverRefuses(reader) && truth.time(reader.head) > submittedAt
            && (forall b: nat :: Oldest(reader.head, lookbackBlocks) <= b <= reader.head ==> truth.logs(b) == [])
            ==> r.NotInWindow?
    ensures forall i :: 0 <= i < |asked| - 1 ==> truth.time(asked[i].0) >= submittedAt
  {
    var head := reader.head;
    var oldest := Oldest(head, lookbackBlocks);
    var last := head;
    asked := [];
    while true
      invariant last <= head && (if lookbackBlocks == 0 then last == head && asked == [] else oldest <= last)
      invariant lookbackBlocks > 0 ==> Descends(asked, head)
      invariant asked == [] ==> last == head
      invariant asked != [] ==> last + 1 == asked[|asked| - 1].0
      invariant forall b: nat :: last < b <= head ==> truth.logs(b) == []
      invariant forall i :: 0 <= i < |asked| ==> truth.time(asked[i].0) >= submittedAt
      decreases last
    {
      var from := if last - LOG_SEARCH_CHUNK_BLOCKS + 1 > oldest then last - LOG_SEARCH_CHUNK_BLOCKS + 1 else oldest;
      if lookbackBlocks > 0 { DescendsFurther(asked, head, from, last); }
      asked := asked + [(from, last)];
      var hashes := reader.submissionHashes(from, last);
      if hashes.Refused? {
        return Incomplete, asked;
      }
      if hashes.value != [] {
        return Found(hashes.value[0]), asked;
      }
      assert forall b: nat :: from <= b <= head ==> truth.logs(b) == [];
      if from == oldest {
        r := NotFound(reader, submittedAt, truth);
        return r, asked;
      }
      var time := reader.blockTimestamp(from);
      if time.Refused? {
        return Incomplete, asked;
      }
      if time.value < submittedAt {
        r := NotFound(reader, submittedAt, truth);
        return r, asked;
      }
      last := from - 1;
    }
  }
}
