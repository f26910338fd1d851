// The round-robin sweep of evidence ledgers: a cursor over project ids that wraps, and why no
// project starves.
module LedgerSweep {
  import opened Numbers
  import opened Wrappers

  type ProjectId = nat

  ghost predicate Ascending(ids: seq<ProjectId>) {
    forall i, j :: 0 <= i < j < |ids| ==> ids[i] < ids[j]
  }

  // How many ids `after` has passed.
  function Passed(ids: seq<ProjectId>, after: Option<ProjectId>): (p: nat)
    ensures p <= |ids|
  {
    if ids == [] || after.None? || ids[0] > after.value then 0 else 1 + Passed(ids[1..], after)
  }

  // WHERE id > after, over ids in order
  function Above(ids: seq<ProjectId>, after: Option<ProjectId>): seq<ProjectId> {
    ids[Passed(ids, after)..]
  }

  lemma {:induction false} AboveIsWhere(ids: seq<ProjectId>, after: Option<ProjectId>, id: ProjectId)
    requires Ascending(ids)
    ensures id in Above(ids, after) <==> id in ids && (after.Some? ==> id > after.value)
  {
    if ids != [] && after.Some? && ids[0] <= after.value {
      AboveIsWhere(ids[1..], after, id);
      assert Above(ids, after) == Above(ids[1..], after);
      assert ids == [ids[0]] + ids[1..];
    } else if ids != [] && id in ids {
      var i :| 0 <= i < |ids| && ids[i] == id;
    }
  }

  // ORDER BY id LIMIT batch, over ids already in order
  function Page(ids: seq<ProjectId>, after: Option<ProjectId>, batch: nat): seq<ProjectId> {
    var above := Above(ids, after);
    if |above| <= batch then above else above[..batch]
  }

  // The projects one sweep attempts: the next page, or the first one when none is left.
  function Attempted(ids: seq<ProjectId>, cursor: Option<ProjectId>, batch: nat): seq<ProjectId> {
    var page := Page(ids, cursor, batch);
    if page == [] && cursor.Some? then Page(ids, None, batch) else page
  }

  function CursorAfter(ids: seq<ProjectId>, cursor: Option<ProjectId>, batch: nat): Option<ProjectId> {
    var attempted := Attempted(ids, cursor, batch);
    if attempted != [] then Some(attempted[|attempted| - 1]) else None
  }

  class Sweep {
    const intervalMs: int
    const batchSize: nat
    var lastAttempt: Option<int>
    var cursor: Option<ProjectId>

    constructor (intervalMs: int, batchSize: nat)
      requires 1 <= batchSize <= 100
      ensures this.intervalMs == intervalMs && this.batchSize == batchSize && cursor == None && lastAttempt == None
    {
      this.intervalMs, this.batchSize := intervalMs, batchSize;
      lastAttempt, cursor := None, None;
    }

    predicate TooSoon(now: int)
      reads this
    {
      lastAttempt.Some? && now - lastAttempt.value < intervalMs
    }

    // One call. `ids` are the eligible projects, `broken` those whose assessment throws.
    method Run(now: int, ids: seq<ProjectId>, broken: set<ProjectId>)
      returns (ran: bool, attempted: seq<ProjectId>, failures: seq<ProjectId>)
      modifies this
      ensures ran == !old(TooSoon(now))
      ensures !ran ==> cursor == old(cursor) && lastAttempt == old(lastAttempt) && attempted == []
      ensures ran ==> lastAttempt == Some(now)
      ensures ran ==> attempted == Attempted(ids, old(cursor), batchSize)
      ensures ran ==> cursor == CursorAfter(ids, old(cursor), batchSize)
      ensures forall p :: p in failures <==> p in attempted && p in broken
    {
      attempted, failures := [], [];
      if lastAttempt.Some? && now - lastAttempt.value < intervalMs {
        return false, [], [];
      }
      ran := true;
      lastAttempt := Some(now);
      var projects := Page(ids, cursor, batchSize);
      if |projects| == 0 && cursor.Some? {
        cursor := None;
        projects := Page(ids, None, batchSize);
      }
      for i := 0 to |projects|
        invariant lastAttempt == Some(now) && attempted == projects[..i]
        invariant forall p :: p in failures <==> p in attempted && p in broken
        invariant cursor == if i > 0 then Some(projects[i - 1]) else if projects == [] then None else cursor
      {
        attempted := attempted + [projects[i]];
        if projects[i] in broken {
          failures := failures + [projects[i]];
        }
        // In the finally block: a failure moves the cursor on too.
        cursor := Some(projects[i]);
      }
      assert projects[..|projects|] == projects;
    }
  }

  // ---- positions ----

  // A cursor on the last of the first `p` ids has passed exactly those.
  lemma {:induction false} PassedAt(ids: seq<ProjectId>, p: nat)
    requires Ascending(ids) && 0 < p <= |ids|
    ensures Passed(ids, Some(ids[p - 1])) == p
  {
    if p > 1 {
      PassedAt(ids[1..], p - 1);
    } else if |ids| > 1 {
      assert Passed(ids[1..], Some(ids[0])) == 0;
    }
  }

  ghost predicate At(ids: seq<ProjectId>, cursor: Option<ProjectId>, p: nat) {
    Passed(ids, cursor) == p && (p == |ids| ==> cursor.Some?)
  }

  // Where a sweep starts when `p` ids have been passed: over again after the last.
  function Start(n: nat, p: nat): nat { if p >= n then 0 else p }

  // Where the next sweep starts.
  function After(n: nat, batch: nat, p: nat): nat { Min(Start(n, p) + batch, n) }

  lemma {:induction false} SweepPage(ids: seq<ProjectId>, cursor: Option<ProjectId>, batch: nat, p: nat)
    requires Ascending(ids) && ids != [] && batch > 0 && At(ids, cursor, p)
    ensures Attempted(ids, cursor, batch) == ids[Start(|ids|, p)..After(|ids|, batch, p)]
  {
    var from, to := Start(|ids|, p), After(|ids|, batch, p);
    assert ids[from..][..to - from] == ids[from..to];
    assert ids[0..] == ids;
  }

  lemma {:induction false} CursorMoves(ids: seq<ProjectId>, cursor: Option<ProjectId>, batch: nat, p: nat)
    requires Ascending(ids) && ids != [] && batch > 0 && At(ids, cursor, p)
    ensures At(ids, CursorAfter(ids, cursor, batch), After(|ids|, batch, p))
  {
    var from, to := Start(|ids|, p), After(|ids|, batch, p);
    SweepPage(ids, cursor, batch, p);
    assert ids[from..to][to - from - 1] == ids[to - 1];
    PassedAt(ids, to);
  }

  // ---- consecutive sweeps of a fixed set ----

  function CursorOf(ids: seq<ProjectId>, cursor: Option<ProjectId>, batch: nat, sweeps: nat): Option<ProjectId> {
    if sweeps == 0 then cursor else CursorAfter(ids, CursorOf(ids, cursor, batch, sweeps - 1), batch)
  }

  function SweepNumber(ids: seq<ProjectId>, cursor: Option<ProjectId>, batch: nat, i: nat): seq<ProjectId> {
    Attempted(ids, CursorOf(ids, cursor, batch, i), batch)
  }

  // The position before the i-th sweep.
  function Position(n: nat, batch: nat, p: nat, i: nat): nat {
    if i == 0 then p else After(n, batch, Position(n, batch, p, i - 1))
  }

  lemma {:induction false} SweepAt(ids: seq<ProjectId>, cursor: Option<ProjectId>, batch: nat, p: nat, i: nat)
    requires Ascending(ids) && ids != [] && batch > 0 && At(ids, cursor, p)
    ensures At(ids, CursorOf(ids, cursor, batch, i), Position(|ids|, batch, p, i))
  {
    if i > 0 {
      SweepAt(ids, cursor, batch, p, i - 1);
      CursorMoves(ids, CursorOf(ids, cursor, batch, i - 1), batch, Position(|ids|, batch, p, i - 1));
    }
  }

  // Sweep `i` attempts exactly the ids from its start up to a batch later.
  lemma {:induction false} SweepTakes(ids: seq<ProjectId>, cursor: Option<ProjectId>, batch: nat, p: nat, i: nat,
      q: nat)
    requires Ascending(ids) && ids != [] && batch > 0 && At(ids, cursor, p) && q < |ids|
    ensures ids[q] in SweepNumber(ids, cursor, batch, i)
      <==> Start(|ids|, Position(|ids|, batch, p, i)) <= q < Start(|ids|, Position(|ids|, batch, p, i)) + batch
  {
    SweepAt(ids, cursor, batch, p, i);
    var here := Position(|ids|, batch, p, i);
    SweepPage(ids, CursorOf(ids, cursor, batch, i), batch, here);
    MemberOfSlice(ids, q, Start(|ids|, here), After(|ids|, batch, here));
  }

  lemma {:induction false} MemberOfSlice(ids: seq<ProjectId>, q: nat, from: nat, to: nat)
    requires Ascending(ids) && q < |ids| && from <= to <= |ids|
    ensures ids[q] in ids[from..to] <==> from <= q < to
  {
    if from <= q < to { assert ids[from..to][q - from] == ids[q]; }
  }

  // No project is attempted twice in one sweep.
  lemma NoRepeatInASweep(ids: seq<ProjectId>, cursor: Option<ProjectId>, batch: nat)
    requires Ascending(ids)
    ensures Ascending(Attempted(ids, cursor, batch))
  {
  }

  // ---- arithmetic of rounds ----

  // Sweeps it takes to pass `m` projects.
  function Steps(m: nat, batch: nat): nat
    requires batch > 0
  {
    if m == 0 then 0 else if m <= batch then 1 else 1 + Steps(m - batch, batch)
  }

  lemma NextMultiple(a: nat, b: nat, d: nat)
    requires d > 0
    ensures a < b ==> a * d + d <= b * d
  {
    if a < b {
      var c := b - a - 1;
      assert b * d == (a + 1 + c) * d == a * d + d + c * d;
    }
  }

  lemma {:induction false} QuotientIs(x: nat, d: nat, q: nat)
    requires d > 0 && q * d <= x < q * d + d
    ensures x / d == q
  {
    var t := x / d;
    assert t * d <= x < t * d + d;
    NextMultiple(t, q, d);
    NextMultiple(q, t, d);
  }

  lemma {:induction false} CeilDivStep(m: nat, batch: nat)
    requires batch > 0
    ensures CeilDiv(m + batch, batch) == CeilDiv(m, batch) + 1
  {
    var x := m + batch - 1;
    var q := x / batch;
    assert q * batch <= x < q * batch + batch;
    assert (q + 1) * batch == q * batch + batch;
    QuotientIs(x + batch, batch, q + 1);
  }

  lemma {:induction false} CeilDivOne(m: nat, batch: nat)
    requires 0 < m <= batch
    ensures CeilDiv(m, batch) == 1
  {
    QuotientIs(m + batch - 1, batch, 1);
  }

  lemma {:induction false} StepsIsCeil(m: nat, batch: nat)
    requires batch > 0
    ensures Steps(m, batch) == CeilDiv(m, batch)
  {
    if m == 0 {
      assert (batch - 1) / batch == 0;
    } else if m <= batch {
      CeilDivOne(m, batch);
    } else {
      StepsIsCeil(m - batch, batch);
      CeilDivStep(m - batch, batch);
    }
  }

  // ---- one round, from anywhere ----

  // From position `p`, the rest of the round takes Steps(n - p) sweeps: sweep `i` of them starts at
  // p + i * batch, and the round ends at `n`.
  lemma {:induction false} Reaches(n: nat, batch: nat, p: nat, q: nat) returns (j: nat)
    requires batch > 0 && p <= q < n
    ensures j < Steps(n - p, batch)
    ensures Start(n, Position(n, batch, p, j)) <= q < Start(n, Position(n, batch, p, j)) + batch
    decreases n - p
  {
    if q < p + batch {
      j := 0;
    } else {
      var rest := Reaches(n, batch, p + batch, q);
      PositionShift(n, batch, p, rest);
      j := rest + 1;
    }
  }

  lemma {:induction false} RoundEnds(n: nat, batch: nat, p: nat)
    requires batch > 0 && p <= n
    ensures Position(n, batch, p, Steps(n - p, batch)) == n
    decreases n - p
  {
    if p < n {
      RoundEnds(n, batch, After(n, batch, p));
      PositionShift(n, batch, p, Steps(n - After(n, batch, p), batch));
    }
  }

  lemma {:induction false} PositionShift(n: nat, batch: nat, p: nat, i: nat)
    ensures Position(n, batch, After(n, batch, p), i) == Position(n, batch, p, i + 1)
  {
    if i > 0 { PositionShift(n, batch, p, i - 1); }
  }

  lemma {:induction false} PositionCompose(n: nat, batch: nat, p: nat, a: nat, b: nat)
    ensures Position(n, batch, p, a + b) == Position(n, batch, Position(n, batch, p, a), b)
  {
    if b > 0 { PositionCompose(n, batch, p, a, b - 1); }
  }

  // A finished round and a fresh start go on the same way.
  lemma {:induction false} StartsOver(n: nat, batch: nat, i: nat)
    ensures Start(n, Position(n, batch, n, i)) == Start(n, Position(n, batch, 0, i))
  {
    if i > 0 { StartsOver(n, batch, i - 1); }
  }

  // From position `p`: in this round, or in the next one from the start.
  lemma {:induction false} ReachesInTwoRounds(n: nat, batch: nat, p: nat, q: nat) returns (j: nat)
    requires batch > 0 && q < n && p <= n
    ensures j < Steps(n - p, batch) + Steps(n, batch)
    ensures Start(n, Position(n, batch, p, j)) <= q < Start(n, Position(n, batch, p, j)) + batch
  {
    if q >= p {
      j := Reaches(n, batch, p, q);
    } else {
      var r := Steps(n - p, batch);
      RoundEnds(n, batch, p);
      var again := Reaches(n, batch, 0, q);
      StartsOver(n, batch, again);
      PositionCompose(n, batch, p, r, again);
      j := r + again;
    }
  }

  lemma {:induction false} CeilRounds(n: nat, batch: nat, p: nat, q: nat) returns (j: nat)
    requires batch > 0 && q < n && p <= n
    ensures j < CeilDiv(n - p, batch) + CeilDiv(n, batch)
    ensures Start(n, Position(n, batch, p, j)) <= q < Start(n, Position(n, batch, p, j)) + batch
  {
    StepsIsCeil(n - p, batch);
    StepsIsCeil(n, batch);
    j := ReachesInTwoRounds(n, batch, p, q);
  }

  // From any cursor with `m` projects above it, every project is attempted within
  // ceil(m / batch) + ceil(n / batch) sweeps, whichever projects fail.
  lemma {:induction false} FairFromAnyCursor(ids: seq<ProjectId>, cursor: Option<ProjectId>, batch: nat, q: nat)
    returns (j: nat)
    requires Ascending(ids) && q < |ids| && batch > 0
    ensures j < CeilDiv(|Above(ids, cursor)|, batch) + CeilDiv(|ids|, batch)
    ensures ids[q] in SweepNumber(ids, cursor, batch, j)
  {
    var n, p := |ids|, Passed(ids, cursor);
    assert |Above(ids, cursor)| == n - p;
    j := CeilRounds(n, batch, p, q);
    SweepTakes(ids, cursor, batch, p, j, q);
  }

  // ---- rounds from a fresh start ----

  // The i-th sweep of a round of `count`: the number of sweeps since a fresh start, counted in turn.
  function Turn(count: nat, i: nat): nat
    requires count > 0
  {
    if i == 0 || Turn(count, i - 1) + 1 >= count then 0 else Turn(count, i - 1) + 1
  }

  lemma {:induction false} TurnShift(count: nat, i: nat, d: nat)
    requires count > 0 && d < count
    ensures Turn(count, i) < count
    ensures Turn(count, i + d) == if Turn(count, i) + d < count then Turn(count, i) + d else Turn(count, i) + d - count
  {
    TurnBound(count, i);
    if d > 0 { TurnShift(count, i, d - 1); }
  }

  lemma TurnBound(count: nat, i: nat)
    requires count > 0
    ensures Turn(count, i) < count
  {
  }

  function StartOfTurn(batch: nat, t: nat): nat {
    if t == 0 then 0 else StartOfTurn(batch, t - 1) + batch
  }

  function TurnOf(batch: nat, q: nat): nat
    requires batch > 0
  {
    if q < batch then 0 else TurnOf(batch, q - batch) + 1
  }

  lemma {:induction false} StartOfNextTurn(batch: nat, t: nat)
    ensures StartOfTurn(batch, t + 1) == batch + StartOfTurn(batch, t)
  {
    if t > 0 { StartOfNextTurn(batch, t - 1); }
  }

  lemma {:induction false} TurnTakes(batch: nat, t: nat, q: nat)
    requires batch > 0
    ensures StartOfTurn(batch, t) <= q < StartOfTurn(batch, t) + batch <==> t == TurnOf(batch, q)
  {
    if t > 0 {
      StartOfNextTurn(batch, t - 1);
      if q >= batch { TurnTakes(batch, t - 1, q - batch); }
    }
  }

  // The last turn of a round is the one that reaches the end.
  lemma {:induction false} LastTurn(n: nat, batch: nat, t: nat)
    requires batch > 0 && t < Steps(n, batch)
    ensures StartOfTurn(batch, t) < n
    ensures t + 1 == Steps(n, batch) <==> StartOfTurn(batch, t) + batch >= n
    decreases n
  {
    if t > 0 {
      LastTurn(n - batch, batch, t - 1);
      StartOfNextTurn(batch, t - 1);
    }
  }

  // From a fresh start, sweeps take the turns of a round one after another.
  lemma {:induction false} SweepIsTurn(n: nat, batch: nat, i: nat)
    requires batch > 0 && n > 0
    ensures Steps(n, batch) > 0
    ensures Start(n, Position(n, batch, 0, i)) == StartOfTurn(batch, Turn(Steps(n, batch), i))
  {
    var count := Steps(n, batch);
    if i > 0 {
      SweepIsTurn(n, batch, i - 1);
      TurnBound(count, i - 1);
      LastTurn(n, batch, Turn(count, i - 1));
    }
  }

  lemma {:induction false} TurnOfBelow(n: nat, batch: nat, q: nat)
    requires batch > 0 && q < n
    ensures TurnOf(batch, q) < Steps(n, batch)
    decreases n
  {
    if q >= batch { TurnOfBelow(n - batch, batch, q - batch); }
  }

  lemma {:induction false} AttemptedWhen(ids: seq<ProjectId>, batch: nat, q: nat, i: nat)
    requires Ascending(ids) && q < |ids| && batch > 0
    ensures Steps(|ids|, batch) > 0
    ensures ids[q] in SweepNumber(ids, None, batch, i) <==> Turn(Steps(|ids|, batch), i) == TurnOf(batch, q)
  {
    SweepTakes(ids, None, batch, 0, i, q);
    SweepIsTurn(|ids|, batch, i);
    TurnTakes(batch, Turn(Steps(|ids|, batch), i), q);
  }

  // Any `count` consecutive sweeps take each turn exactly once.
  lemma {:induction false} EachTurnOnce(count: nat, i: nat, target: nat) returns (j: nat)
    requires target < count
    ensures i <= j < i + count && Turn(count, j) == target
    ensures forall l :: i <= l < i + count && Turn(count, l) == target ==> l == j
  {
    TurnBound(count, i);
    var here := Turn(count, i);
    j := i + if target >= here then target - here else target + count - here;
    TurnShift(count, i, j - i);
    forall l | i <= l < i + count && Turn(count, l) == target ensures l == j { TurnShift(count, i, l - i); }
  }

  lemma {:induction false} FreshStartSteps(ids: seq<ProjectId>, batch: nat, q: nat, i: nat) returns (j: nat)
    requires Ascending(ids) && q < |ids| && batch > 0
    ensures i <= j < i + Steps(|ids|, batch) && ids[q] in SweepNumber(ids, None, batch, j)
    ensures forall l :: i <= l < i + Steps(|ids|, batch) && ids[q] in SweepNumber(ids, None, batch, l) ==> l == j
  {
    var count := Steps(|ids|, batch);
    TurnOfBelow(|ids|, batch, q);
    j := EachTurnOnce(count, i, TurnOf(batch, q));
    AttemptedWhen(ids, batch, q, j);
    forall l | i <= l < i + count && ids[q] in SweepNumber(ids, None, batch, l) ensures l == j {
      AttemptedWhen(ids, batch, q, l);
    }
  }

  // From a fresh start, any ceil(n / batch) consecutive sweeps attempt every project exactly once,
  // whichever projects fail.
  lemma {:induction false} FairFromFreshStart(ids: seq<ProjectId>, batch: nat, q: nat, i: nat) returns (j: nat)
    requires Ascending(ids) && q < |ids| && batch > 0
    ensures i <= j < i + CeilDiv(|ids|, batch) && ids[q] in SweepNumber(ids, None, batch, j)
    ensures forall l :: i <= l < i + CeilDiv(|ids|, batch) && ids[q] in SweepNumber(ids, None, batch, l) ==> l == j
  {
    j := FreshStartSteps(ids, batch, q, i);
    StepsIsCeil(|ids|, batch);
  }
}
