// The sorted-pair Merkle tree with promoted odd nodes: building it, its proofs, and what a proof
// that verifies is evidence of. Keccak-256 is any function from bytes to 32 bytes.
module Merkle {
  import opened Wrappers
  import opened Jcs
  import opened Utf8
  import opened Hex

  type Keccak = Bytes -> Digest

  datatype MerkleError =
    | EmptyBatch
    | NotBytes32(index: nat)
    | DuplicateLeaf
    | LeafNotFound
    | BadHex(hex: HexError)
    // Uint8Array.set past the end of the buffer.
    | RangeExceeded

  // ---- pairs ----

  function Zeros(n: nat): Bytes { seq(n, _ => 0) }

  function SetAt(buffer: Bytes, source: Bytes, offset: nat): Bytes
    requires offset + |source| <= |buffer|
  {
    buffer[..offset] + source + buffer[offset + |source|..]
  }

  // The 64 bytes hashed for a pair already in order.
  function PairBuffer(left: Text, right: Text): (r: Result<Bytes, MerkleError>)
    ensures r.Ok? ==> |r.value| == 64
  {
    var l := FromHex(left);
    if l.Err? then Err(BadHex(l.error))
    else if |l.value| > 64 then Err(RangeExceeded)
    else
      var r := FromHex(right);
      if r.Err? then Err(BadHex(r.error))
      else if |r.value| > 32 then Err(RangeExceeded)
      else Ok(SetAt(SetAt(Zeros(64), l.value, 0), r.value, 32))
  }

  function Ordered(a: Text, b: Text): (Text, Text) { if Less(b, a) then (b, a) else (a, b) }

  function PairHash(k: Keccak, a: Text, b: Text): Result<Text, MerkleError> {
    var buffer := PairBuffer(Ordered(a, b).0, Ordered(a, b).1);
    if buffer.Err? then Err(buffer.error) else Ok(ToHex(k(buffer.value)))
  }

  method CopyInto(buffer: array<Byte>, source: Bytes, offset: nat) returns (ok: bool)
    modifies buffer
    ensures ok == (offset + |source| <= buffer.Length)
    ensures buffer[..] == if ok then SetAt(old(buffer[..]), source, offset) else old(buffer[..])
  {
    if offset + |source| > buffer.Length {
      return false;
    }
    for i := 0 to |source|
      invariant forall j :: 0 <= j < buffer.Length ==>
        buffer[j] == if offset <= j < offset + i then source[j - offset] else old(buffer[j])
    {
      buffer[offset + i] := source[i];
    }
    return true;
  }

  method HashPair(k: Keccak, a: Text, b: Text) returns (r: Result<Text, MerkleError>)
    ensures r == PairHash(k, a, b)
  {
    var left, right := a, b;
    if Less(b, a) {
      left, right := b, a;
    }
    var bytes := new Byte[64](_ => 0);
    assert bytes[..] == Zeros(64);
    var leftBytes := HexToBytes(left);
    if leftBytes.Err? {
      return Err(BadHex(leftBytes.error));
    }
    var ok := CopyInto(bytes, leftBytes.value, 0);
    if !ok {
      return Err(RangeExceeded);
    }
    var rightBytes := HexToBytes(right);
    if rightBytes.Err? {
      return Err(BadHex(rightBytes.error));
    }
    ok := CopyInto(bytes, rightBytes.value, 32);
    if !ok {
      return Err(RangeExceeded);
    }
    var out := BytesToHex(k(bytes[..]));
    return Ok(out);
  }

  // The hash of an inner node: the smaller child first, as unsigned numbers.
  function Node(k: Keccak, x: Digest, y: Digest): Digest {
    k(if Number(x) <= Number(y) then x + y else y + x)
  }

  // Whatever order the children come in, the pair hashes to the same node.
  lemma PairOfDigests(k: Keccak, x: Digest, y: Digest)
    ensures PairHash(k, ToHex(x), ToHex(y)) == Ok(ToHex(Node(k, x, y))) == Ok(ToHex(Node(k, y, x)))
  {
    PrintedOrder(x, y);
    PrintedOrder(y, x);
    HexOrder(x, y);
    FromHexToHex(x);
    FromHexToHex(y);
    assert SetAt(SetAt(Zeros(64), x, 0), y, 32) == x + y;
    assert SetAt(SetAt(Zeros(64), y, 0), x, 32) == y + x;
  }

  lemma HexInjective(x: Bytes, y: Bytes)
    requires ToHex(x) == ToHex(y)
    ensures x == y
  {
    FromHexToHex(x);
    FromHexToHex(y);
  }

  // ---- layers ----

  function Next(k: Keccak, ds: seq<Digest>): (r: seq<Digest>)
    ensures |r| == (|ds| + 1) / 2
  {
    if |ds| < 2 then ds else [Node(k, ds[0], ds[1])] + Next(k, ds[2..])
  }

  // Node `j` of the next layer: its two children hashed, or its only child as it is.
  lemma NextAt(k: Keccak, ds: seq<Digest>, j: nat)
    requires j < |Next(k, ds)|
    ensures 2 * j < |ds|
    ensures Next(k, ds)[j] == if 2 * j + 1 < |ds| then Node(k, ds[2 * j], ds[2 * j + 1]) else ds[2 * j]
  {
    if |ds| >= 2 && j > 0 {
      NextAt(k, ds[2..], j - 1);
      assert ds[2..][2 * (j - 1)] == ds[2 * j];
      if 2 * j + 1 < |ds| { assert ds[2..][2 * (j - 1) + 1] == ds[2 * j + 1]; }
    }
  }

  function Layers(k: Keccak, ds: seq<Digest>): (r: seq<seq<Digest>>)
    requires ds != []
    ensures r != [] && |r[|r| - 1]| == 1
    decreases |ds|
  {
    if |ds| == 1 then [ds] else [ds] + Layers(k, Next(k, ds))
  }

  function Root(k: Keccak, ds: seq<Digest>): Digest
    requires ds != []
  {
    var layers := Layers(k, ds);
    layers[|layers| - 1][0]
  }

  function HexLayer(ds: seq<Digest>): (r: seq<Text>)
    ensures |r| == |ds| && forall i :: 0 <= i < |ds| ==> r[i] == ToHex(ds[i])
  {
    seq(|ds|, i requires 0 <= i < |ds| => ToHex(ds[i]))
  }

  function HexLayers(layers: seq<seq<Digest>>): (r: seq<seq<Text>>)
    ensures |r| == |layers| && forall i :: 0 <= i < |layers| ==> r[i] == HexLayer(layers[i])
  {
    seq(|layers|, i requires 0 <= i < |layers| => HexLayer(layers[i]))
  }

  function DigestOf(text: Text): (d: Digest)
    requires IsBytes32(text)
    ensures ToHex(d) == text
  {
    Bytes32IffPrinted(text);
    FromHex(text).value
  }

  function DigestsOf(texts: seq<Text>): (r: seq<Digest>)
    requires forall i :: 0 <= i < |texts| ==> IsBytes32(texts[i])
    ensures |r| == |texts| && forall i :: 0 <= i < |texts| ==> ToHex(r[i]) == texts[i]
  {
    seq(|texts|, i requires 0 <= i < |texts| => DigestOf(texts[i]))
  }

  lemma DigestsAreThose(texts: seq<Text>)
    requires forall i :: 0 <= i < |texts| ==> IsBytes32(texts[i])
    ensures HexLayer(DigestsOf(texts)) == texts
  {
  }

  // ---- sorting ----

  function InsertText(t: Text, ts: seq<Text>): seq<Text> {
    if ts == [] then [t]
    else if Less(ts[0], t) then [ts[0]] + InsertText(t, ts[1..])
    else [t] + ts
  }

  function SortTexts(ts: seq<Text>): seq<Text> {
    if ts == [] then [] else InsertText(ts[0], SortTexts(ts[1..]))
  }

  ghost predicate Ascending(ts: seq<Text>) {
    forall i, j :: 0 <= i < j < |ts| ==> !Less(ts[j], ts[i])
  }

  lemma {:induction false} InsertTextMembers(t: Text, ts: seq<Text>)
    ensures multiset(InsertText(t, ts)) == multiset{t} + multiset(ts)
    ensures forall x :: x in InsertText(t, ts) <==> x == t || x in ts
  {
    if ts != [] {
      assert ts == [ts[0]] + ts[1..];
      if Less(ts[0], t) { InsertTextMembers(t, ts[1..]); }
    }
  }

  lemma {:induction false} InsertTextSorts(t: Text, ts: seq<Text>)
    requires Ascending(ts)
    ensures Ascending(InsertText(t, ts))
  {
    if ts != [] {
      if Less(ts[0], t) {
        InsertTextSorts(t, ts[1..]);
        InsertTextMembers(t, ts[1..]);
        LessIsTotal(ts[0], t);
        forall x | x in InsertText(t, ts[1..]) ensures !Less(x, ts[0]) {}
      } else {
        forall j | 0 <= j < |ts| ensures !Less(ts[j], t) {
          if Less(ts[j], t) { NotLessIsTransitive(ts[j], ts[0], t); }
        }
      }
    }
  }

  lemma NotLessIsTransitive(a: Text, b: Text, c: Text)
    requires Less(a, c)
    ensures Less(a, b) || Less(b, c) || a == b
  {
    LessIsTotal(a, b);
    if Less(b, a) { LessIsTransitive(b, a, c); }
  }

  lemma SortTextsKeeps(ts: seq<Text>)
    ensures Ascending(SortTexts(ts)) && multiset(SortTexts(ts)) == multiset(ts)
  {
    if ts != [] {
      assert ts == [ts[0]] + ts[1..];
      SortTextsKeeps(ts[1..]);
      InsertTextMembers(ts[0], SortTexts(ts[1..]));
      InsertTextSorts(ts[0], SortTexts(ts[1..]));
    }
  }

  lemma TailCounts(a: seq<Text>)
    requires a != []
    ensures multiset(a[1..]) == multiset(a) - multiset{a[0]}
    ensures a[0] in multiset(a)
  {
    assert a == [a[0]] + a[1..];
  }

  lemma FirstNotAbove(a: seq<Text>, t: Text)
    requires a != [] && Ascending(a) && t in a
    ensures !Less(t, a[0])
  {
    LessIsTotal(t, t);
  }

  lemma SameFirst(a: seq<Text>, b: seq<Text>)
    requires Ascending(a) && Ascending(b) && multiset(a) == multiset(b) && a != [] && b != []
    ensures a[0] == b[0] && multiset(a[1..]) == multiset(b[1..])
  {
    TailCounts(a);
    TailCounts(b);
    assert a[0] in multiset(a) && b[0] in multiset(b);
    assert a[0] in b && b[0] in a;
    FirstNotAbove(a, b[0]);
    FirstNotAbove(b, a[0]);
    LessIsTotal(a[0], b[0]);
  }

  // There is one way to sort a list of strings.
  lemma {:induction false} SortedIsUnique(a: seq<Text>, b: seq<Text>)
    requires Ascending(a) && Ascending(b) && multiset(a) == multiset(b)
    ensures a == b
    decreases |a|
  {
    assert |multiset(a)| == |a| && |multiset(b)| == |b|;
    if a != [] {
      SameFirst(a, b);
      SortedIsUnique(a[1..], b[1..]);
      assert a == [a[0]] + a[1..] && b == [b[0]] + b[1..];
    }
  }

  // ---- the tree ----

  datatype Tree = Tree(root: Text, layers: seq<seq<Text>>, leafCount: nat)

  ghost predicate Distinct(ts: seq<Text>) {
    forall i, j :: 0 <= i < j < |ts| ==> ts[i] != ts[j]
  }

  ghost predicate Accepted(leafHashes: seq<Text>) {
    leafHashes != [] && (forall i :: 0 <= i < |leafHashes| ==> IsBytes32(leafHashes[i])) && Distinct(leafHashes)
  }

  lemma SortedBytes32(leafHashes: seq<Text>)
    requires forall i :: 0 <= i < |leafHashes| ==> IsBytes32(leafHashes[i])
    ensures forall i :: 0 <= i < |SortTexts(leafHashes)| ==> IsBytes32(SortTexts(leafHashes)[i])
    ensures |SortTexts(leafHashes)| == |leafHashes|
  {
    SortTextsKeeps(leafHashes);
    var sorted := SortTexts(leafHashes);
    assert |multiset(sorted)| == |multiset(leafHashes)|;
    forall i | 0 <= i < |sorted| ensures IsBytes32(sorted[i]) {
      assert sorted[i] in multiset(sorted);
      assert sorted[i] in leafHashes;
    }
  }

  function SortedDigests(leafHashes: seq<Text>): (ds: seq<Digest>)
    requires forall i :: 0 <= i < |leafHashes| ==> IsBytes32(leafHashes[i])
    ensures |ds| == |leafHashes| && HexLayer(ds) == SortTexts(leafHashes)
  {
    SortedBytes32(leafHashes);
    DigestsAreThose(SortTexts(leafHashes));
    DigestsOf(SortTexts(leafHashes))
  }

  function TreeOf(k: Keccak, leafHashes: seq<Text>): Tree
    requires leafHashes != [] && forall i :: 0 <= i < |leafHashes| ==> IsBytes32(leafHashes[i])
  {
    var ds := SortedDigests(leafHashes);
    Tree(ToHex(Root(k, ds)), HexLayers(Layers(k, ds)), |ds|)
  }

  // A sorted list has a duplicate exactly if two neighbours are equal.
  lemma NeighboursTell(leafHashes: seq<Text>)
    ensures var sorted := SortTexts(leafHashes);
      Distinct(leafHashes) <==> forall i :: 0 < i < |sorted| ==> sorted[i] != sorted[i - 1]
  {
    var sorted := SortTexts(leafHashes);
    SortTextsKeeps(leafHashes);
    DistinctByCount(leafHashes);
    DistinctByCount(sorted);
    if forall i :: 0 < i < |sorted| ==> sorted[i] != sorted[i - 1] {
      forall i, j | 0 <= i < j < |sorted| ensures sorted[i] != sorted[j] {
        LessIsTotal(sorted[j - 1], sorted[j]);
        if i < j - 1 { LessIsTotal(sorted[i], sorted[j - 1]); }
      }
    }
  }

  lemma DistinctByCount(ts: seq<Text>)
    ensures Distinct(ts) <==> forall t :: multiset(ts)[t] <= 1
  {
    if ts != [] {
      var n := |ts| - 1;
      var front := ts[..n];
      assert ts == front + [ts[n]];
      DistinctByCount(front);
      assert multiset(ts) == multiset(front) + multiset{ts[n]};
      assert ts[n] in front <==> multiset(front)[ts[n]] > 0;
      assert Distinct(ts) <==> Distinct(front) && ts[n] !in front;
      if !Distinct(front) {
        var t :| multiset(front)[t] > 1;
        assert multiset(ts)[t] > 1;
      } else if ts[n] in front {
        assert multiset(ts)[ts[n]] > 1;
      }
    }
  }

  method BuildMerkleTree(k: Keccak, leafHashes: seq<Text>) returns (r: Result<Tree, MerkleError>)
    ensures r.Ok? <==> Accepted(leafHashes)
    ensures r.Ok? ==> r.value == TreeOf(k, leafHashes)
    ensures r == Err(EmptyBatch) <==> leafHashes == []
    ensures r.Err? && r.error.NotBytes32? ==>
      && r.error.index < |leafHashes| && !IsBytes32(leafHashes[r.error.index])
      && forall i :: 0 <= i < r.error.index ==> IsBytes32(leafHashes[i])
    ensures r.Err? && leafHashes != [] && (forall i :: 0 <= i < |leafHashes| ==> IsBytes32(leafHashes[i]))
      ==> r.error == DuplicateLeaf
  {
    if |leafHashes| == 0 {
      return Err(EmptyBatch);
    }
    for i := 0 to |leafHashes|
      invariant forall j :: 0 <= j < i ==> IsBytes32(leafHashes[j])
    {
      if !IsBytes32(leafHashes[i]) {
        return Err(NotBytes32(i));
      }
    }
    var sorted := SortTexts(leafHashes);
    SortedBytes32(leafHashes);
    NeighboursTell(leafHashes);
    for i := 1 to |sorted|
      invariant forall j :: 0 < j < i ==> sorted[j] != sorted[j - 1]
    {
      if sorted[i] == sorted[i - 1] {
        return Err(DuplicateLeaf);
      }
    }
    var layers := BuildLayers(k, sorted, SortedDigests(leafHashes));
    return Ok(Tree(layers[|layers| - 1][0], layers, |sorted|));
  }

  // The layers above the sorted leaves, one at a time until one node is left.
  method BuildLayers(k: Keccak, sorted: seq<Text>, ghost ds: seq<Digest>) returns (layers: seq<seq<Text>>)
    requires ds != [] && sorted == HexLayer(ds)
    ensures layers == HexLayers(Layers(k, ds))
  {
    ghost var done: seq<seq<Digest>> := [ds];
    layers := [sorted];
    LayersFrom(k, [], ds);
    while |layers[|layers| - 1]| > 1
      invariant LayersSoFar(k, ds, done) && layers == HexLayers(done)
      decreases |layers[|layers| - 1]|
    {
      ghost var current := done[|done| - 1];
      var next := NextHexLayer(k, layers[|layers| - 1], current);
      layers := layers + [next];
      LayersStep(k, ds, done);
      HexLayersSnoc(done, Next(k, current));
      done := done + [Next(k, current)];
    }
    LayersDone(k, ds, done);
  }

  lemma LayersDone(k: Keccak, ds: seq<Digest>, done: seq<seq<Digest>>)
    requires LayersSoFar(k, ds, done) && |done[|done| - 1]| == 1
    ensures Layers(k, ds) == done
  {
    assert Layers(k, done[|done| - 1]) == [done[|done| - 1]];
    assert done[..|done| - 1] + [done[|done| - 1]] == done;
  }

  // The layers built so far, the last of them still to be reduced.
  ghost predicate LayersSoFar(k: Keccak, ds: seq<Digest>, done: seq<seq<Digest>>) {
    && ds != [] && done != [] && done[|done| - 1] != []
    && Layers(k, ds) == done[..|done| - 1] + Layers(k, done[|done| - 1])
  }

  lemma LayersFrom(k: Keccak, none: seq<seq<Digest>>, ds: seq<Digest>)
    requires ds != [] && none == []
    ensures LayersSoFar(k, ds, [ds])
  {
    assert [ds][..0] == none && none + Layers(k, ds) == Layers(k, ds);
  }

  lemma LayersStep(k: Keccak, ds: seq<Digest>, done: seq<seq<Digest>>)
    requires LayersSoFar(k, ds, done) && |done[|done| - 1]| > 1
    ensures LayersSoFar(k, ds, done + [Next(k, done[|done| - 1])])
  {
    var current := done[|done| - 1];
    var next := Next(k, current);
    assert (done + [next])[..|done|] == done;
    assert done == done[..|done| - 1] + [current];
    assert done[..|done| - 1] + ([current] + Layers(k, next)) == done[..|done| - 1] + [current] + Layers(k, next);
  }

  lemma HexLayersSnoc(layers: seq<seq<Digest>>, last: seq<Digest>)
    ensures HexLayers(layers + [last]) == HexLayers(layers) + [HexLayer(last)]
  {
  }

  method NextHexLayer(k: Keccak, current: seq<Text>, ghost ds: seq<Digest>) returns (next: seq<Text>)
    requires current == HexLayer(ds)
    ensures next == HexLayer(Next(k, ds))
  {
    next := [];
    var i := 0;
    assert ds[0..] == ds;
    while i < |current|
      invariant 0 <= i
      invariant HexLayer(Next(k, ds)) == next + HexLayer(Next(k, if i < |ds| then ds[i..] else []))
    {
      NextStep(k, ds, i);
      if i + 1 == |current| {
        next := next + [current[i]];
      } else {
        PairOfDigests(k, ds[i], ds[i + 1]);
        var pair := HashPair(k, current[i], current[i + 1]);
        next := next + [pair.value];
      }
      i := i + 2;
    }
  }

  lemma NextStep(k: Keccak, ds: seq<Digest>, i: nat)
    requires i < |ds|
    ensures HexLayer(Next(k, ds[i..])) ==
      [ToHex(if i + 1 < |ds| then Node(k, ds[i], ds[i + 1]) else ds[i])]
      + HexLayer(Next(k, if i + 2 < |ds| then ds[i + 2..] else []))
  {
    if i + 1 < |ds| {
      var rest := if i + 2 < |ds| then ds[i + 2..] else [];
      assert ds[i..][2..] == rest;
      assert Next(k, ds[i..]) == [Node(k, ds[i], ds[i + 1])] + Next(k, rest);
    } else {
      assert ds[i..] == [ds[i]] && Next(k, ds[i..]) == ds[i..];
    }
  }

  // ---- proofs ----

  function Sibling(index: nat): nat { if index % 2 == 0 then index + 1 else index - 1 }

  // The siblings on the way up from `index`, where there is one.
  function ProofAt(layers: seq<seq<Text>>, index: nat): seq<Text>
    requires layers != []
  {
    if |layers| == 1 then []
    else
      (if Sibling(index) < |layers[0]| then [layers[0][Sibling(index)]] else []) + ProofAt(layers[1..], index / 2)
  }

  method GetMerkleProof(tree: Tree, leafHash: Text) returns (r: Result<seq<Text>, MerkleError>)
    requires tree.layers != []
    ensures r.Ok? <==> leafHash in tree.layers[0]
    ensures r.Ok? ==> exists index :: 0 <= index < |tree.layers[0]| && tree.layers[0][index] == leafHash
                                      && r.value == ProofAt(tree.layers, index)
    ensures r.Err? ==> r.error == LeafNotFound
  {
    var index := 0;
    while index < |tree.layers[0]| && tree.layers[0][index] != leafHash
      invariant 0 <= index <= |tree.layers[0]|
      invariant forall j :: 0 <= j < index ==> tree.layers[0][j] != leafHash
    {
      index := index + 1;
    }
    if index == |tree.layers[0]| {
      return Err(LeafNotFound);
    }
    ghost var first := index;
    var proof: seq<Text> := [];
    var level := 0;
    assert tree.layers[0..] == tree.layers;
    while level < |tree.layers| - 1
      invariant 0 <= level <= |tree.layers| - 1 && index >= 0
      invariant proof + ProofAt(tree.layers[level..], index) == ProofAt(tree.layers, first)
    {
      var layer := tree.layers[level];
      var siblingIndex := if index % 2 == 0 then index + 1 else index - 1;
      assert tree.layers[level..][1..] == tree.layers[level + 1..];
      ghost var before := proof;
      if siblingIndex < |layer| {
        proof := proof + [layer[siblingIndex]];
        assert before + ([layer[siblingIndex]] + ProofAt(tree.layers[level + 1..], index / 2))
            == proof + ProofAt(tree.layers[level + 1..], index / 2);
      } else {
        assert [] + ProofAt(tree.layers[level + 1..], index / 2) == ProofAt(tree.layers[level + 1..], index / 2);
      }
      index := index / 2;
      level := level + 1;
    }
    assert proof + [] == proof;
    return Ok(proof);
  }

  // Hashing upwards with each node of a proof.
  function Fold(k: Keccak, computed: Text, proof: seq<Text>): Result<Text, MerkleError>
    decreases |proof|
  {
    if proof == [] then Ok(computed)
    else
      var next := PairHash(k, computed, proof[0]);
      if next.Err? then next else Fold(k, next.value, proof[1..])
  }

  method VerifyMerkleProof(k: Keccak, leafHash: Text, proof: seq<Text>, root: Text)
      returns (r: Result<bool, MerkleError>)
    ensures r.Ok? <==> Fold(k, leafHash, proof).Ok?
    ensures r.Ok? ==> r.value == Verifies(k, leafHash, proof, root)
    ensures r.Err? ==> Fold(k, leafHash, proof) == Err(r.error)
  {
    var computed := leafHash;
    assert proof[0..] == proof;
    for i := 0 to |proof|
      invariant Fold(k, computed, proof[i..]) == Fold(k, leafHash, proof)
    {
      assert proof[i..][1..] == proof[i + 1..];
      var next := HashPair(k, computed, proof[i]);
      if next.Err? {
        return Err(next.error);
      }
      computed := next.value;
    }
    return Ok(computed == root);
  }

  predicate Verifies(k: Keccak, leafHash: Text, proof: seq<Text>, root: Text) {
    Fold(k, leafHash, proof) == Ok(root)
  }

  // ---- every leaf's proof verifies ----

  lemma RootOfNext(k: Keccak, ds: seq<Digest>)
    requires |ds| > 1
    ensures Layers(k, ds) == [ds] + Layers(k, Next(k, ds))
    ensures Root(k, ds) == Root(k, Next(k, ds))
  {
  }

  lemma ProofStep(layer: seq<Digest>, above: seq<seq<Digest>>, i: nat)
    requires above != []
    ensures ProofAt(HexLayers([layer] + above), i) ==
      (if Sibling(i) < |layer| then [ToHex(layer[Sibling(i)])] else []) + ProofAt(HexLayers(above), i / 2)
  {
    assert HexLayers([layer] + above)[1..] == HexLayers(above);
  }

  lemma FoldStep(k: Keccak, d: Digest, e: Digest, rest: seq<Text>)
    ensures Fold(k, ToHex(d), [ToHex(e)] + rest) == Fold(k, ToHex(Node(k, d, e)), rest)
      == Fold(k, ToHex(Node(k, e, d)), rest)
  {
    PairOfDigests(k, d, e);
    assert ([ToHex(e)] + rest)[1..] == rest;
  }

  // A node and its sibling hash to their parent; a node without one is its own parent.
  lemma ParentOf(k: Keccak, ds: seq<Digest>, i: nat)
    requires i < |ds|
    ensures i / 2 < |Next(k, ds)|
    ensures Sibling(i) >= |ds| ==> Next(k, ds)[i / 2] == ds[i]
    ensures Sibling(i) < |ds| ==>
      Next(k, ds)[i / 2] == Node(k, ds[i], ds[Sibling(i)]) || Next(k, ds)[i / 2] == Node(k, ds[Sibling(i)], ds[i])
  {
    NextAt(k, ds, i / 2);
  }

  lemma {:induction false} ProofClimbs(k: Keccak, ds: seq<Digest>, i: nat)
    requires i < |ds|
    ensures Fold(k, ToHex(ds[i]), ProofAt(HexLayers(Layers(k, ds)), i)) == Ok(ToHex(Root(k, ds)))
    decreases |ds|
  {
    if |ds| > 1 {
      var above := Layers(k, Next(k, ds));
      RootOfNext(k, ds);
      ProofStep(ds, above, i);
      ParentOf(k, ds, i);
      ProofClimbs(k, Next(k, ds), i / 2);
      var rest := ProofAt(HexLayers(above), i / 2);
      if Sibling(i) < |ds| {
        FoldStep(k, ds[i], ds[Sibling(i)], rest);
      } else {
        assert [] + rest == rest;
      }
    }
  }

  // getMerkleProof of any leaf of a built tree verifies under its root.
  lemma Completeness(k: Keccak, leafHashes: seq<Text>, index: nat)
    requires Accepted(leafHashes)
    requires var layer := TreeOf(k, leafHashes).layers[0]; index < |layer|
    ensures var tree := TreeOf(k, leafHashes);
      Verifies(k, tree.layers[0][index], ProofAt(tree.layers, index), tree.root)
  {
    ProofClimbs(k, SortedDigests(leafHashes), index);
  }

  // The bottom layer holds the leaves and nothing else.
  lemma LeavesAreTheBottom(k: Keccak, leafHashes: seq<Text>)
    requires Accepted(leafHashes)
    ensures multiset(TreeOf(k, leafHashes).layers[0]) == multiset(leafHashes)
    ensures Ascending(TreeOf(k, leafHashes).layers[0])
  {
    SortTextsKeeps(leafHashes);
  }

  // Any order of the same leaves gives the same tree, root and proofs.
  lemma OrderIndependence(k: Keccak, a: seq<Text>, b: seq<Text>)
    requires Accepted(a) && multiset(a) == multiset(b)
    ensures Accepted(b) && TreeOf(k, a) == TreeOf(k, b)
  {
    assert |multiset(a)| == |multiset(b)|;
    DistinctByCount(a);
    DistinctByCount(b);
    forall i | 0 <= i < |b| ensures IsBytes32(b[i]) {
      assert b[i] in multiset(b);
      assert b[i] in a;
    }
    SortTextsKeeps(a);
    SortTextsKeeps(b);
    SortedIsUnique(SortTexts(a), SortTexts(b));
    SameDigests(SortedDigests(a), SortedDigests(b));
  }

  lemma SameDigests(ds: seq<Digest>, es: seq<Digest>)
    requires HexLayer(ds) == HexLayer(es)
    ensures ds == es
  {
    assert |HexLayer(ds)| == |HexLayer(es)|;
    forall i | 0 <= i < |ds| ensures ds[i] == es[i] {
      assert HexLayer(ds)[i] == HexLayer(es)[i];
      HexInjective(ds[i], es[i]);
    }
  }

  // How often n nodes can be halved, odd ones rounding up, until one is left.
  function Halvings(n: nat): nat {
    if n <= 1 then 0 else 1 + Halvings((n + 1) / 2)
  }

  function Power2(n: nat): nat { if n == 0 then 1 else 2 * Power2(n - 1) }

  lemma HalvingsIsLog(n: nat)
    requires n > 0
    ensures Power2(Halvings(n)) >= n && (n > 1 ==> Power2(Halvings(n) - 1) < n)
  {
    if n > 1 { HalvingsIsLog((n + 1) / 2); }
  }

  lemma {:induction false} ProofLength(k: Keccak, ds: seq<Digest>, i: nat)
    requires i < |ds|
    ensures |ProofAt(HexLayers(Layers(k, ds)), i)| <= Halvings(|ds|)
    decreases |ds|
  {
    if |ds| > 1 {
      RootOfNext(k, ds);
      ProofStep(ds, Layers(k, Next(k, ds)), i);
      ProofLength(k, Next(k, ds), i / 2);
    }
  }

  // ---- what a verifying proof shows ----

  // Either the leaf is in the batch, or two different inputs hash to the same value.
  datatype Evidence = Member(index: nat) | Collision(x: Bytes, y: Bytes)

  ghost predicate Shows(k: Keccak, inners: seq<Digest>, inner: Digest, e: Evidence) {
    match e
    case Member(i) => i < |inners| && inners[i] == inner
    case Collision(x, y) => x != y && k(x) == k(y)
  }

  // Leaf hashes: each is the hash of 32 bytes.
  function LeafDigests(k: Keccak, inners: seq<Digest>): (r: seq<Digest>)
    ensures |r| == |inners| && forall i :: 0 <= i < |r| ==> r[i] == k(inners[i])
  {
    seq(|inners|, i requires 0 <= i < |inners| => k(inners[i]))
  }

  function LayerAt(k: Keccak, ds: seq<Digest>, level: nat): seq<Digest> {
    if level == 0 then ds else Next(k, LayerAt(k, ds, level - 1))
  }

  lemma LayerAtNext(k: Keccak, ds: seq<Digest>, level: nat)
    ensures LayerAt(k, Next(k, ds), level) == LayerAt(k, ds, level + 1)
  {
  }

  lemma RootLevel(k: Keccak, ds: seq<Digest>) returns (level: nat)
    requires ds != []
    ensures LayerAt(k, ds, level) == [Root(k, ds)]
    decreases |ds|
  {
    level := 0;
    if |ds| > 1 {
      RootOfNext(k, ds);
      level := RootLevel(k, Next(k, ds));
      LayerAtNext(k, ds, level);
      level := level + 1;
    }
  }

  // Hashing one pair: a 64-byte input that holds the first argument in one half.
  lemma PairInput(k: Keccak, d: Digest, node: Text) returns (x: Bytes)
    requires PairHash(k, ToHex(d), node).Ok?
    ensures |x| == 64 && PairHash(k, ToHex(d), node) == Ok(ToHex(k(x))) && Holds(x, d)
  {
    FromHexToHex(d);
    var (left, right) := Ordered(ToHex(d), node);
    x := PairBuffer(left, right).value;
    Halves(FromHex(left).value, FromHex(right).value);
  }

  // A 32-byte child fills its half of the buffer, whatever the other one is.
  lemma Halves(l: Bytes, r: Bytes)
    requires |l| <= 64 && |r| <= 32
    ensures var x := SetAt(SetAt(Zeros(64), l, 0), r, 32);
      |x| == 64 && (|l| == 32 ==> x[..32] == l) && (|r| == 32 ==> x[32..] == r)
  {
    var first := SetAt(Zeros(64), l, 0);
    var x := SetAt(first, r, 32);
    if |l| == 32 { assert first[..32] == l && x[..32] == first[..32]; }
    if |r| == 32 { assert x[32..] == r; }
  }

  predicate Holds(x: Bytes, d: Digest) {
    |x| == 64 && (x[..32] == d || x[32..] == d)
  }

  // The inputs hashed on the way up from `d`: each holds the hash before it.
  ghost predicate IsTrace(k: Keccak, d: Digest, xs: seq<Bytes>) {
    forall i :: 0 <= i < |xs| ==> Holds(xs[i], Top(k, d, xs[..i]))
  }

  function Top(k: Keccak, d: Digest, xs: seq<Bytes>): Digest {
    if xs == [] then d else k(xs[|xs| - 1])
  }

  lemma {:induction false} TraceOf(k: Keccak, d: Digest, proof: seq<Text>) returns (xs: seq<Bytes>)
    requires Fold(k, ToHex(d), proof).Ok?
    ensures IsTrace(k, d, xs) && |xs| == |proof| && Fold(k, ToHex(d), proof) == Ok(ToHex(Top(k, d, xs)))
    decreases |proof|
  {
    xs := [];
    if proof != [] {
      var x := PairInput(k, d, proof[0]);
      var rest := TraceOf(k, k(x), proof[1..]);
      xs := [x] + rest;
      forall i | 0 <= i < |xs| ensures Holds(xs[i], Top(k, d, xs[..i])) {
        if i > 0 {
          assert rest[i - 1] == xs[i];
          if i > 1 { assert xs[..i][i - 1] == rest[..i - 1][i - 2]; }
        }
      }
    }
  }

  lemma Peel(k: Keccak, d: Digest, xs: seq<Bytes>)
    requires IsTrace(k, d, xs) && xs != []
    ensures var rest := xs[..|xs| - 1]; IsTrace(k, d, rest) && Holds(xs[|xs| - 1], Top(k, d, rest))
  {
    var rest := xs[..|xs| - 1];
    assert forall i :: 0 <= i < |rest| ==> rest[i] == xs[i] && rest[..i] == xs[..i];
  }

  // The trace from the hash of `inner` has come to node `j` of a layer.
  ghost predicate Arrives(k: Keccak, inner: Digest, xs: seq<Bytes>, layer: seq<Digest>, j: nat) {
    j < |layer| && IsTrace(k, k(inner), xs) && Top(k, k(inner), xs) == layer[j]
  }

  // What was hashed last: 32 bytes at a leaf, 64 above it.
  function LastInput(inner: Digest, xs: seq<Bytes>): Bytes {
    if xs == [] then inner else xs[|xs| - 1]
  }

  // One layer down: the trace came through a child of the node, or it collides with the node.
  lemma StepDown(k: Keccak, inner: Digest, xs: seq<Bytes>, below: seq<Digest>, j: nat)
    returns (e: Option<Evidence>, rest: seq<Bytes>, child: nat)
    requires Arrives(k, inner, xs, Next(k, below), j)
    ensures e.Some? ==> e.value.Collision? && e.value.x != e.value.y && k(e.value.x) == k(e.value.y)
    ensures e.None? ==> |rest| <= |xs| && Arrives(k, inner, rest, below, child)
  {
    NextAt(k, below, j);
    e, rest, child := None, xs, 2 * j;
    if 2 * j + 1 < |below| {
      var x := LastInput(inner, xs);
      var y := NodeInput(k, below, j);
      if x != y {
        e := Some(Collision(x, y));
      } else {
        Peel(k, k(inner), xs);
        rest := xs[..|xs| - 1];
        child := if Top(k, k(inner), rest) == below[2 * j] then 2 * j else 2 * j + 1;
      }
    }
  }

  // Following a trace back from node `j` of a layer, to the leaves.
  lemma {:induction false} Descend(k: Keccak, inners: seq<Digest>, inner: Digest, xs: seq<Bytes>, level: nat, j: nat)
    returns (e: Evidence)
    requires Arrives(k, inner, xs, LayerAt(k, LeafDigests(k, inners), level), j)
    ensures Shows(k, inners, inner, e)
    decreases level
  {
    if level == 0 {
      var x := LastInput(inner, xs);
      e := if x == inners[j] then Member(j) else Collision(x, inners[j]);
    } else {
      var found, rest, child := StepDown(k, inner, xs, LayerAt(k, LeafDigests(k, inners), level - 1), j);
      if found.Some? {
        e := found.value;
      } else {
        e := Descend(k, inners, inner, rest, level - 1, child);
      }
    }
  }

  lemma NodeInput(k: Keccak, below: seq<Digest>, j: nat) returns (y: Bytes)
    requires 2 * j + 1 < |below|
    ensures |y| == 64 && k(y) == Next(k, below)[j]
    ensures forall d: Digest :: Holds(y, d) ==> d == below[2 * j] || d == below[2 * j + 1]
  {
    var a: Bytes, b: Bytes := below[2 * j], below[2 * j + 1];
    NextAt(k, below, j);
    y := if Number(a) <= Number(b) then a + b else b + a;
    assert |a| == 32 && |b| == 32;
    assert (a + b)[..32] == a && (a + b)[32..] == b && (b + a)[..32] == b && (b + a)[32..] == a;
  }

  // A proof that verifies for the hash of 32 bytes, under the root of hashes of 32 bytes, shows
  // that those 32 bytes are one of the batch's, or it exhibits a collision.
  lemma MembershipOrCollision(k: Keccak, inners: seq<Digest>, inner: Digest, proof: seq<Text>) returns (e: Evidence)
    requires inners != []
    requires Verifies(k, ToHex(k(inner)), proof, ToHex(Root(k, LeafDigests(k, inners))))
    ensures Shows(k, inners, inner, e)
  {
    var level := RootLevel(k, LeafDigests(k, inners));
    var xs := TraceOf(k, k(inner), proof);
    HexInjective(Top(k, k(inner), xs), Root(k, LeafDigests(k, inners)));
    e := Descend(k, inners, inner, xs, level, 0);
  }

  // ---- leaves hashed twice ----

  ghost predicate HashedTwice(k: Keccak, inputs: seq<Bytes>, hashes: seq<Text>) {
    |hashes| == |inputs| && forall i :: 0 <= i < |inputs| ==> hashes[i] == ToHex(k(k(inputs[i])))
  }

  lemma {:induction false} InputsOf(k: Keccak, inputs: seq<Bytes>, hashes: seq<Text>, ds: seq<Digest>)
      returns (which: seq<nat>)
    requires HashedTwice(k, inputs, hashes)
    requires forall i :: 0 <= i < |ds| ==> ToHex(ds[i]) in hashes
    ensures |which| == |ds|
    ensures forall i :: 0 <= i < |ds| ==> which[i] < |inputs| && ds[i] == k(k(inputs[which[i]]))
  {
    which := [];
    if ds != [] {
      assert ToHex(ds[0]) in hashes;
      var j :| 0 <= j < |hashes| && hashes[j] == ToHex(ds[0]);
      HexInjective(ds[0], k(k(inputs[j])));
      var rest := InputsOf(k, inputs, hashes, ds[1..]);
      which := [j] + rest;
    }
  }

  lemma SortedAreHashes(hashes: seq<Text>)
    requires Accepted(hashes)
    ensures forall i :: 0 <= i < |SortedDigests(hashes)| ==> ToHex(SortedDigests(hashes)[i]) in hashes
  {
    var ds := SortedDigests(hashes);
    SortTextsKeeps(hashes);
    forall i | 0 <= i < |ds| ensures ToHex(ds[i]) in hashes {
      assert HexLayer(ds)[i] in multiset(SortTexts(hashes));
    }
  }

  // The same for inputs of any length hashed twice: an accepted proof names the input.
  lemma InputOrCollision(k: Keccak, inputs: seq<Bytes>, hashes: seq<Text>, input: Bytes, proof: seq<Text>)
    returns (e: Evidence)
    requires HashedTwice(k, inputs, hashes) && Accepted(hashes)
    requires Verifies(k, ToHex(k(k(input))), proof, TreeOf(k, hashes).root)
    ensures e.Member? ==> e.index < |inputs| && inputs[e.index] == input
    ensures e.Collision? ==> e.x != e.y && k(e.x) == k(e.y)
  {
    var ds := SortedDigests(hashes);
    SortedAreHashes(hashes);
    var which := InputsOf(k, inputs, hashes, ds);
    var inners: seq<Digest> := seq(|ds|, i requires 0 <= i < |ds| => k(inputs[which[i]]));
    assert LeafDigests(k, inners) == ds;
    e := MembershipOrCollision(k, inners, k(input), proof);
    if e.Member? {
      var found := inputs[which[e.index]];
      e := if found == input then Member(which[e.index]) else Collision(input, found);
    }
  }

  // verifyMerkleProof alone does not tell a leaf hash from an inner node: leaves need their second hash.
  lemma InnerNodePasses(k: Keccak, x: Digest, y: Digest, z: Digest)
    ensures Verifies(k, ToHex(Node(k, x, y)), [ToHex(z)], ToHex(Root(k, [x, y, z])))
  {
    var ds: seq<Digest> := [x, y, z];
    assert ds[2..] == [z] && Next(k, [z]) == [z];
    assert Next(k, ds) == [Node(k, x, y), z];
    RootOfNext(k, ds);
    var pair: seq<Digest> := [Node(k, x, y), z];
    assert pair[2..] == [] && Next(k, pair) == [Node(k, pair[0], z)];
    RootOfNext(k, pair);
    var none: seq<Text> := [];
    FoldStep(k, pair[0], z, none);
    assert [ToHex(z)] + none == [ToHex(z)];
  }
}
