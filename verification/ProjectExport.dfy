// The project export: its anchor proofs, the grouping of batch leaves, and the job row under
// repeated delivery and dead letters.
module ProjectExport {
  import opened Wrappers
  import opened Jcs
  import opened Hex
  import opened Merkle
  import Runs

  type BatchRow = nat

  // ---- anchor proofs ----

  datatype AnchorProof = AnchorProof(computedRoot: Text, proof: seq<Text>)

  // A proof for one anchored leaf. It fails if the batch's leaves are not what a batch can hold.
  method ProveLeaf(k: Keccak, leaves: seq<Text>, leafHash: Text) returns (r: Result<AnchorProof, MerkleError>)
    ensures r.Ok? <==> Accepted(leaves) && leafHash in leaves
    ensures r.Ok? ==> r.value.computedRoot == TreeOf(k, leaves).root
    ensures r.Ok? ==> Verifies(k, leafHash, r.value.proof, r.value.computedRoot)
    ensures r.Ok? ==> |r.value.proof| <= Halvings(|leaves|)
  {
    var tree := BuildMerkleTree(k, leaves);
    if tree.Err? {
      return Err(tree.error);
    }
    LeavesAreTheBottom(k, leaves);
    assert leafHash in tree.value.layers[0] <==> leafHash in multiset(leaves);
    var proof := GetMerkleProof(tree.value, leafHash);
    if proof.Err? {
      return Err(proof.error);
    }
    ghost var index :| 0 <= index < |tree.value.layers[0]| && tree.value.layers[0][index] == leafHash
                       && proof.value == ProofAt(tree.value.layers, index);
    Completeness(k, leaves, index);
    ProofLength(k, SortedDigests(leaves), index);
    return Ok(AnchorProof(tree.value.root, proof.value));
  }

  // The leaves are selected without an order. The proof does not depend on it.
  lemma RowOrderIsHarmless(k: Keccak, leaves: seq<Text>, reordered: seq<Text>, leafHash: Text)
    requires Accepted(leaves) && multiset(leaves) == multiset(reordered)
    ensures Accepted(reordered) && TreeOf(k, leaves) == TreeOf(k, reordered)
    ensures leafHash in leaves <==> leafHash in reordered
  {
    OrderIndependence(k, leaves, reordered);
    assert leafHash in leaves <==> leafHash in multiset(leaves);
    assert leafHash in reordered <==> leafHash in multiset(reordered);
  }

  datatype LeafRow = LeafRow(batch: BatchRow, leafHash: Text)

  function LeavesOf(rows: seq<LeafRow>, batch: BatchRow): seq<Text> {
    if rows == [] then []
    else
      var last := rows[|rows| - 1];
      LeavesOf(rows[..|rows| - 1], batch) + if last.batch == batch then [last.leafHash] else []
  }

  // loadExportRecords: every batch gets exactly its own leaves, in the order read.
  method GroupLeaves(rows: seq<LeafRow>) returns (groups: map<BatchRow, seq<Text>>)
    ensures forall b :: b in groups <==> LeavesOf(rows, b) != []
    ensures forall b <- groups :: groups[b] == LeavesOf(rows, b)
  {
    groups := map[];
    for i := 0 to |rows|
      invariant forall b :: b in groups <==> LeavesOf(rows[..i], b) != []
      invariant forall b <- groups :: groups[b] == LeavesOf(rows[..i], b)
    {
      assert rows[..i + 1][..i] == rows[..i];
      var row := rows[i];
      groups := groups[row.batch := (if row.batch in groups then groups[row.batch] else []) + [row.leafHash]];
    }
    assert rows[..|rows|] == rows;
  }

  // ---- the job row ----

  type Package = nat

  datatype JobState = Queued | Succeeded | Failed

  datatype Job = Job(state: JobState, package: Option<Package>)

  // A build between its read of the job and its update.
  datatype Build = NoBuild | Building

  // What a build answers. The code says "built" without a package; the one it wrote or tried to write is history.
  datatype Outcome = Built(package: Package) | AlreadyBuilt | Missing

  datatype State = State(job: Option<Job>, builds: seq<Build>, outcomes: seq<Outcome>)

  datatype Event =
    | Request
    | Read(b: nat)
    | Write(b: nat, package: Package)
    | Stop(b: nat)
    | DeadLetter

  function Next(s: State, e: Event): State {
    match e
    case Request => if s.job.None? then s.(job := Some(Job(Queued, None))) else s
    case Read(b) =>
      if b >= |s.builds| || s.builds[b].Building? then s
      else if s.job.None? then s.(outcomes := s.outcomes + [Missing])
      else if s.job.value.state.Succeeded? then s.(outcomes := s.outcomes + [AlreadyBuilt])
      else s.(builds := s.builds[b := Building])
    // The update leaves a job alone that has succeeded by now; the caller is told "built" either way.
    case Write(b, package) =>
      if b >= |s.builds| || s.builds[b].NoBuild? || s.job.None? then s
      else s.(
        job := if s.job.value.state.Succeeded? then s.job else Some(Job(Succeeded, Some(package))),
        builds := s.builds[b := NoBuild],
        outcomes := s.outcomes + [Built(package)])
    case Stop(b) => if b < |s.builds| then s.(builds := s.builds[b := NoBuild]) else s
    case DeadLetter =>
      if s.job.Some? && s.job.value.state.Queued? then s.(job := Some(s.job.value.(state := Failed))) else s
  }

  ghost function Run(s: State, events: seq<Event>): State { Runs.Run(Next, s, events) }

  function Init(builders: nat): State { State(None, seq(builders, _ => NoBuild), []) }

  predicate HasPackage(s: State) { s.job.Some? && s.job.value.state.Succeeded? && s.job.value.package.Some? }

  ghost predicate Inv(s: State) {
    && (s.job.Some? ==> (s.job.value.state.Succeeded? <==> s.job.value.package.Some?))
    && ((exists p :: Built(p) in s.outcomes) || AlreadyBuilt in s.outcomes ==> HasPackage(s))
    && forall i :: 0 <= i < |s.builds| && s.builds[i].Building? ==> s.job.Some?
  }

  lemma StepKeeps(s: State, e: Event)
    requires Inv(s)
    ensures Inv(Next(s, e))
    ensures HasPackage(s) ==> Next(s, e).job == s.job
  {
    var t := Next(s, e);
    forall p | Built(p) in t.outcomes ensures HasPackage(t) {
      assert Built(p) in s.outcomes || e.Write?;
    }
  }

  // A job becomes failed by a dead letter, exactly while it is still queued, and stops being so by a package only.
  lemma FailedExactly(s: State, e: Event)
    ensures
      var t := Next(s, e);
      && (t.job.Some? && t.job.value.state.Failed? <==>
            && s.job.Some?
            && ((s.job.value.state.Queued? && e.DeadLetter?) || (s.job.value.state.Failed? && t.job == s.job)))
      && (s.job.Some? && s.job.value.state.Queued? && e.DeadLetter? ==> t.job.value.package == s.job.value.package)
      && (s.job.Some? && t.job != s.job && !e.DeadLetter? ==> e.Write? && HasPackage(t))
  {
  }

  // The first package stands, and a delivery that returned left a package or found no job.
  lemma {:induction false} FirstPackageStands(s: State, events: seq<Event>)
    requires Inv(s)
    ensures Inv(Run(s, events))
    ensures HasPackage(s) ==> Run(s, events).job == s.job
    decreases |events|
  {
    if events != [] {
      StepKeeps(s, events[0]);
      FirstPackageStands(Next(s, events[0]), events[1..]);
    }
  }

  // From the start: whatever the deliveries, a delivery that was not a miss means a package.
  lemma DeliveredMeansPackage(builders: nat, events: seq<Event>, p: Package)
    ensures var s := Run(Init(builders), events);
      Built(p) in s.outcomes || AlreadyBuilt in s.outcomes ==> HasPackage(s)
  {
    FirstPackageStands(Init(builders), events);
  }

  // ---- whose package it is ----

  // Every build that answered "built" wrote the package that stands.
  ghost predicate BuiltIsOwn(s: State) {
    forall p :: Built(p) in s.outcomes ==> s.job == Some(Job(Succeeded, Some(p)))
  }

  // With one builder a job is open whenever it is being built.
  ghost predicate OneBuild(s: State) {
    && |s.builds| <= 1 && BuiltIsOwn(s)
    && forall i :: 0 <= i < |s.builds| && s.builds[i].Building? ==> s.job.Some? && !s.job.value.state.Succeeded?
  }

  lemma StepOneBuild(s: State, e: Event)
    requires OneBuild(s)
    ensures OneBuild(Next(s, e))
  {
    var t := Next(s, e);
    forall p | Built(p) in t.outcomes ensures t.job == Some(Job(Succeeded, Some(p))) {
      assert Built(p) in s.outcomes || e == Write(0, p);
    }
  }

  lemma {:induction false} RunOneBuild(s: State, events: seq<Event>)
    requires OneBuild(s)
    ensures OneBuild(Run(s, events))
    decreases |events|
  {
    if events != [] {
      StepOneBuild(s, events[0]);
      RunOneBuild(Next(s, events[0]), events[1..]);
    }
  }

  lemma RunFive(s: State, a: Event, b: Event, c: Event, d: Event, e: Event)
    ensures Run(s, [a, b, c, d, e]) == Next(Next(Next(Next(Next(s, a), b), c), d), e)
  {
    Runs.RunSnoc(Next, s, [], a);
    Runs.RunSnoc(Next, s, [a], b);
    Runs.RunSnoc(Next, s, [a, b], c);
    Runs.RunSnoc(Next, s, [a, b, c], d);
    Runs.RunSnoc(Next, s, [a, b, c, d], e);
    assert [] + [a] == [a] && [a] + [b] == [a, b] && [a, b] + [c] == [a, b, c];
    assert [a, b, c] + [d] == [a, b, c, d] && [a, b, c, d] + [e] == [a, b, c, d, e];
  }

  // Two builds at once: both answer "built", and the slower one's package is discarded.
  lemma SlowerIsDiscarded(builders: nat)
    requires builders >= 2
    ensures !BuiltIsOwn(Run(Init(builders), [Request, Read(0), Read(1), Write(1, 2), Write(0, 1)]))
  {
    RunFive(Init(builders), Request, Read(0), Read(1), Write(1, 2), Write(0, 1));
    var t := Run(Init(builders), [Request, Read(0), Read(1), Write(1, 2), Write(0, 1)]);
    assert t.outcomes == [] + [Built(2)] + [Built(1)];
    assert Built(1) in t.outcomes;
  }

  // "built" means one's own package in all runs exactly with at most one builder.
  lemma BuiltIsOwnExactly(builders: nat)
    ensures (forall events :: BuiltIsOwn(Run(Init(builders), events))) <==> builders <= 1
  {
    if builders <= 1 {
      forall events ensures BuiltIsOwn(Run(Init(builders), events)) { RunOneBuild(Init(builders), events); }
    } else {
      SlowerIsDiscarded(builders);
    }
  }

  // ---- replay ----

  // Neither stops build `b` nor writes its package.
  predicate LeavesBuild(e: Event, b: nat) { e != Stop(b) && !(e.Write? && e.b == b) }

  lemma {:induction false} KeepsBuilding(s: State, events: seq<Event>, b: nat)
    requires b < |s.builds| && s.builds[b].Building? && s.job.Some?
    requires forall e <- events :: LeavesBuild(e, b)
    ensures var t := Run(s, events); b < |t.builds| && t.builds[b].Building? && t.job.Some?
    decreases |events|
  {
    if events != [] {
      assert LeavesBuild(events[0], b);
      KeepsBuilding(Next(s, events[0]), events[1..], b);
    }
  }

  // A delivery that is not stopped leaves a package, whatever state the job was in (marked failed by a dead letter,
  // say, and replayed) and whatever the others do meanwhile.
  lemma DeliveryCompletes(s: State, b: nat, between: seq<Event>, package: Package)
    requires Inv(s) && s.job.Some? && b < |s.builds| && s.builds[b].NoBuild?
    requires forall e <- between :: LeavesBuild(e, b)
    ensures HasPackage(Next(Run(Next(s, Read(b)), between), Write(b, package)))
  {
    var a := Next(s, Read(b));
    StepKeeps(s, Read(b));
    FirstPackageStands(a, between);
    if !s.job.value.state.Succeeded? { KeepsBuilding(a, between, b); }
    StepKeeps(Run(a, between), Write(b, package));
  }
}
