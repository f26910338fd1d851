// Leaves of an anchor batch: validation, the double hash, and what an accepted inclusion proof of
// a leaf means.
module Leaf {
  import opened Wrappers
  import opened Jcs
  import opened Utf8
  import opened Hex
  import opened Merkle

  datatype RegistryLeaf = RegistryLeaf(
    registryType: Text,
    entryVersionId: Text,
    subjectId: Text,
    version: Text,
    status: Text,
    serializationVersion: Text,
    policyVersion: Text,
    schemaVersion: Text,
    contentHash: Text)

  datatype LeafField =
    | RegistryType | Status | SerializationVersion | Version
    | EntryVersionId | SubjectId | PolicyVersion | SchemaVersion

  datatype LeafError = InvalidField(field: LeafField) | ContentHashNotBytes32 | LoneSurrogateInLeaf

  function AsciiUnit(c: char): CodeUnit
    requires c as int < 0x80
  {
    c as int
  }

  // A string literal as code units.
  function Ascii(s: string): (t: Text)
    requires forall i :: 0 <= i < |s| ==> s[i] as int < 0x80
    ensures |t| == |s|
  {
    seq(|s|, i requires 0 <= i < |s| => AsciiUnit(s[i]))
  }

  // ---- validation ----

  predicate AsciiDigit(c: CodeUnit) { 0x30 <= c <= 0x39 }

  // Zero, or digits that do not start with zero.
  predicate IsVersion(s: Text) {
    s == [0x30] || (s != [] && s[0] != 0x30 && forall i :: 0 <= i < |s| ==> AsciiDigit(s[i]))
  }

  function ValidLeaf(leaf: RegistryLeaf): Option<LeafError> {
    if leaf.registryType !in {Ascii("project"), Ascii("verification"), Ascii("asset")}
      then Some(InvalidField(RegistryType))
    else if leaf.status !in {Ascii("published"), Ascii("revoked"), Ascii("superseded")} then Some(InvalidField(Status))
    else if leaf.serializationVersion != Ascii("1") then Some(InvalidField(SerializationVersion))
    else if !IsVersion(leaf.version) then Some(InvalidField(Version))
    else if leaf.entryVersionId == [] then Some(InvalidField(EntryVersionId))
    else if leaf.subjectId == [] then Some(InvalidField(SubjectId))
    else if leaf.policyVersion == [] then Some(InvalidField(PolicyVersion))
    else if leaf.schemaVersion == [] then Some(InvalidField(SchemaVersion))
    else if !IsBytes32(leaf.contentHash) then Some(ContentHashNotBytes32)
    else None
  }

  function Decimal(n: nat): Text {
    if n < 10 then [0x30 + n] else Decimal(n / 10) + [0x30 + n % 10]
  }

  lemma {:induction false} DecimalIsVersion(n: nat)
    ensures IsVersion(Decimal(n)) && (n > 0 ==> Decimal(n)[0] != 0x30)
  {
    if n >= 10 { DecimalIsVersion(n / 10); }
  }

  lemma {:induction false} VersionIsDecimal(s: Text) returns (n: nat)
    requires IsVersion(s)
    ensures s == Decimal(n) && (s != [0x30] ==> n > 0)
  {
    if |s| == 1 {
      n := s[0] - 0x30;
    } else {
      var front, last := s[..|s| - 1], s[|s| - 1];
      var m := VersionIsDecimal(front);
      n := m * 10 + (last - 0x30);
      assert s == front + [last];
    }
  }

  // Each version number is accepted in exactly one spelling.
  lemma VersionIffDecimal(s: Text)
    ensures IsVersion(s) <==> exists n: nat :: s == Decimal(n)
  {
    if IsVersion(s) { var n := VersionIsDecimal(s); }
    if n: nat :| s == Decimal(n) { DecimalIsVersion(n); }
  }

  // What a leaf must hold to be hashed.
  ghost predicate Admissible(leaf: RegistryLeaf) {
    && (leaf.registryType == Ascii("project") || leaf.registryType == Ascii("verification")
        || leaf.registryType == Ascii("asset"))
    && (leaf.status == Ascii("published") || leaf.status == Ascii("revoked") || leaf.status == Ascii("superseded"))
    && leaf.serializationVersion == Ascii("1")
    && (exists n: nat :: leaf.version == Decimal(n))
    && leaf.entryVersionId != [] && leaf.subjectId != [] && leaf.policyVersion != [] && leaf.schemaVersion != []
    && (exists d: Digest :: leaf.contentHash == ToHex(d))
  }

  // A leaf is accepted exactly if its type and status are known, its versions are the one serialization and a decimal
  // number in its one spelling, its ids are not empty, and its content hash is a printed digest.
  lemma ValidExactly(leaf: RegistryLeaf)
    ensures ValidLeaf(leaf).None? <==> Admissible(leaf)
  {
    Bytes32IffPrinted(leaf.contentHash);
    assert (exists d: Digest :: leaf.contentHash == ToHex(d)) <==> IsBytes32(leaf.contentHash);
    if IsVersion(leaf.version) { var n := VersionIsDecimal(leaf.version); }
    if n: nat :| leaf.version == Decimal(n) { DecimalIsVersion(n); }
  }

  // ---- hashing ----

  function KeyTexts(): (keys: seq<Text>)
    ensures |keys| == 9
  {
    [Ascii("registryType"), Ascii("entryVersionId"), Ascii("subjectId"), Ascii("version"), Ascii("status"),
     Ascii("serializationVersion"), Ascii("policyVersion"), Ascii("schemaVersion"), Ascii("contentHash")]
  }

  function Values(leaf: RegistryLeaf): (values: seq<Text>)
    ensures |values| == 9
  {
    [leaf.registryType, leaf.entryVersionId, leaf.subjectId, leaf.version, leaf.status,
     leaf.serializationVersion, leaf.policyVersion, leaf.schemaVersion, leaf.contentHash]
  }

  // An object whose values are all strings.
  function Record(keys: seq<Text>, values: seq<Text>): (fields: seq<Field>)
    requires |keys| == |values|
    ensures |fields| == |keys|
    ensures forall i :: 0 <= i < |keys| ==> fields[i] == Field(keys[i], Str(values[i]))
  {
    seq(|keys|, i requires 0 <= i < |keys| => Field(keys[i], Str(values[i])))
  }

  function AsValue(leaf: RegistryLeaf): Value { Obj(Record(KeyTexts(), Values(leaf))) }

  // The object has this field, with this text.
  predicate HasText(v: Value, key: Text, text: Text) {
    v.Obj? && exists i :: 0 <= i < |v.fields| && v.fields[i] == Field(key, Str(text))
  }

  // What is hashed carries each field of the leaf under that field's own name, and nothing else.
  lemma HashedUnderItsName(leaf: RegistryLeaf)
    ensures var v := AsValue(leaf);
      && HasText(v, Ascii("registryType"), leaf.registryType)
      && HasText(v, Ascii("entryVersionId"), leaf.entryVersionId)
      && HasText(v, Ascii("subjectId"), leaf.subjectId)
      && HasText(v, Ascii("version"), leaf.version)
      && HasText(v, Ascii("status"), leaf.status)
      && HasText(v, Ascii("serializationVersion"), leaf.serializationVersion)
      && HasText(v, Ascii("policyVersion"), leaf.policyVersion)
      && HasText(v, Ascii("schemaVersion"), leaf.schemaVersion)
      && HasText(v, Ascii("contentHash"), leaf.contentHash)
      && v.Obj? && |v.fields| == 9
  {
    var fs := AsValue(leaf).fields;
    assert fs[0] == Field(Ascii("registryType"), Str(leaf.registryType));
    assert fs[1] == Field(Ascii("entryVersionId"), Str(leaf.entryVersionId));
    assert fs[2] == Field(Ascii("subjectId"), Str(leaf.subjectId));
    assert fs[3] == Field(Ascii("version"), Str(leaf.version));
    assert fs[4] == Field(Ascii("status"), Str(leaf.status));
    assert fs[5] == Field(Ascii("serializationVersion"), Str(leaf.serializationVersion));
    assert fs[6] == Field(Ascii("policyVersion"), Str(leaf.policyVersion));
    assert fs[7] == Field(Ascii("schemaVersion"), Str(leaf.schemaVersion));
    assert fs[8] == Field(Ascii("contentHash"), Str(leaf.contentHash));
  }

  // The 32 bytes whose hash is the leaf hash.
  function Inner(k: Keccak, leaf: RegistryLeaf): Digest { k(CanonicalBytes(AsValue(leaf))) }

  function HashLeaf(k: Keccak, leaf: RegistryLeaf): Result<Text, LeafError> {
    if ValidLeaf(leaf).Some? then Err(ValidLeaf(leaf).value)
    else if !StringsOk(AsValue(leaf)) then Err(LoneSurrogateInLeaf)
    else
      var inner := FromHex(ToHex(Inner(k, leaf)));
      FromHexToHex(Inner(k, leaf));
      Ok(ToHex(k(inner.value)))
  }

  lemma HashIsOfInner(k: Keccak, leaf: RegistryLeaf)
    requires HashLeaf(k, leaf).Ok?
    ensures HashLeaf(k, leaf) == Ok(ToHex(k(Inner(k, leaf)))) && StringsOk(AsValue(leaf))
  {
    FromHexToHex(Inner(k, leaf));
  }

  ghost predicate DistinctTexts(keys: seq<Text>) {
    forall i, j :: 0 <= i < j < |keys| ==> keys[i] != keys[j]
  }

  lemma KeysAreDistinct()
    ensures DistinctTexts(KeyTexts())
  {
    var keys := KeyTexts();
    assert keys[6][0] == 'p' as int && keys[7][0] == 's' as int;
  }

  lemma MatchingField(fs: seq<Field>, gs: seq<Field>, i: nat) returns (j: nat)
    requires SameTree(Obj(fs), Obj(gs)) && i < |fs|
    ensures j < |gs| && gs[j].key == fs[i].key && SameTree(fs[i].value, gs[j].value)
  {
    j :| 0 <= j < |gs| && gs[j].key == fs[i].key && SameTree(fs[i].value, gs[j].value);
  }

  lemma RecordInjective(keys: seq<Text>, xs: seq<Text>, ys: seq<Text>)
    requires |keys| == |xs| == |ys| && DistinctTexts(keys)
    requires SameTree(Obj(Record(keys, xs)), Obj(Record(keys, ys)))
    ensures xs == ys
  {
    forall i | 0 <= i < |xs| ensures xs[i] == ys[i] { RecordAt(keys, xs, ys, i); }
  }

  lemma RecordAt(keys: seq<Text>, xs: seq<Text>, ys: seq<Text>, i: nat)
    requires |keys| == |xs| == |ys| && DistinctTexts(keys) && i < |xs|
    requires SameTree(Obj(Record(keys, xs)), Obj(Record(keys, ys)))
    ensures xs[i] == ys[i]
  {
    var fs, gs := Record(keys, xs), Record(keys, ys);
    var j := MatchingField(fs, gs, i);
    assert fs[i] == Field(keys[i], Str(xs[i])) && gs[j] == Field(keys[j], Str(ys[j]));
    assert j == i;
  }

  lemma RecordKeysDistinct(keys: seq<Text>, xs: seq<Text>)
    requires |keys| == |xs| && DistinctTexts(keys)
    ensures KeysDistinct(Obj(Record(keys, xs)))
  {
  }

  // What is hashed tells any two leaves apart.
  lemma LeafBytesInjective(a: RegistryLeaf, b: RegistryLeaf)
    requires StringsOk(AsValue(a)) && StringsOk(AsValue(b))
    requires CanonicalBytes(AsValue(a)) == CanonicalBytes(AsValue(b))
    ensures a == b
  {
    KeysAreDistinct();
    RecordKeysDistinct(KeyTexts(), Values(a));
    RecordKeysDistinct(KeyTexts(), Values(b));
    SameBytesIffSameTree(AsValue(a), AsValue(b));
    RecordInjective(KeyTexts(), Values(a), Values(b));
    SameValues(a, b);
  }

  lemma SameValues(a: RegistryLeaf, b: RegistryLeaf)
    requires Values(a) == Values(b)
    ensures a == b
  {
    assert forall i :: 0 <= i < 9 ==> Values(a)[i] == Values(b)[i];
    assert Values(a)[0] == Values(b)[0] && Values(a)[1] == Values(b)[1] && Values(a)[2] == Values(b)[2];
    assert Values(a)[3] == Values(b)[3] && Values(a)[4] == Values(b)[4] && Values(a)[5] == Values(b)[5];
    assert Values(a)[6] == Values(b)[6] && Values(a)[7] == Values(b)[7] && Values(a)[8] == Values(b)[8];
  }

  // ---- batches ----

  ghost predicate Hashed(k: Keccak, leaves: seq<RegistryLeaf>, hashes: seq<Text>) {
    |hashes| == |leaves| && forall i :: 0 <= i < |leaves| ==> HashLeaf(k, leaves[i]) == Ok(hashes[i])
  }

  // Either the leaf is one of the batch's leaves, or two different inputs have the same hash.
  datatype LeafEvidence = InBatch | HashCollision(x: Bytes, y: Bytes)

  ghost predicate Supports(k: Keccak, leaves: seq<RegistryLeaf>, leaf: RegistryLeaf, e: LeafEvidence) {
    match e
    case InBatch => leaf in leaves
    case HashCollision(x, y) => x != y && k(x) == k(y)
  }

  // A proof accepted for a leaf's hash, whatever strings it is made of, shows the leaf itself was
  // in the batch, or it exhibits a collision.
  lemma InclusionSound(k: Keccak, leaves: seq<RegistryLeaf>, hashes: seq<Text>, leaf: RegistryLeaf, hash: Text,
      proof: seq<Text>)
    returns (e: LeafEvidence)
    requires Hashed(k, leaves, hashes) && Accepted(hashes)
    requires HashLeaf(k, leaf) == Ok(hash) && Verifies(k, hash, proof, TreeOf(k, hashes).root)
    ensures Supports(k, leaves, leaf, e)
  {
    var inputs := seq(|leaves|, i requires 0 <= i < |leaves| => CanonicalBytes(AsValue(leaves[i])));
    forall i | 0 <= i < |leaves| ensures hashes[i] == ToHex(k(k(inputs[i]))) && StringsOk(AsValue(leaves[i])) {
      HashIsOfInner(k, leaves[i]);
    }
    HashIsOfInner(k, leaf);
    var shown := InputOrCollision(k, inputs, hashes, CanonicalBytes(AsValue(leaf)), proof);
    if shown.Member? {
      LeafBytesInjective(leaf, leaves[shown.index]);
      e := InBatch;
    } else {
      e := HashCollision(shown.x, shown.y);
    }
  }

  // Every leaf of a batch can be proved.
  lemma InclusionComplete(k: Keccak, leaves: seq<RegistryLeaf>, hashes: seq<Text>, i: nat) returns (proof: seq<Text>)
    requires Hashed(k, leaves, hashes) && Accepted(hashes) && i < |leaves|
    ensures Verifies(k, hashes[i], proof, TreeOf(k, hashes).root)
    ensures |proof| <= Halvings(|leaves|)
  {
    LeavesAreTheBottom(k, hashes);
    var bottom := TreeOf(k, hashes).layers[0];
    assert hashes[i] in multiset(hashes);
    var index := IndexIn(bottom, hashes[i]);
    Completeness(k, hashes, index);
    ProofLength(k, SortedDigests(hashes), index);
    proof := ProofAt(TreeOf(k, hashes).layers, index);
  }

  lemma IndexIn(texts: seq<Text>, t: Text) returns (index: nat)
    requires t in multiset(texts)
    ensures index < |texts| && texts[index] == t
  {
    assert t in texts;
    index :| 0 <= index < |texts| && texts[index] == t;
  }
}
