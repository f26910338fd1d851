// The scan lease: attempts, deadlines and refunds on one quarantined upload.
module ScanLease {
  import opened Numbers
  import opened Wrappers
  import Runs

  // ---- how long a lease lasts ----

  const MAX_SCAN_BYTES := 2000 * 1024 * 1024
  const MAX_SCAN_DEADLINE_MS := 10 * 60 * 1000

  // So many mebibytes are started.
  predicate StartedMib(byteSize: int, n: nat) { (n - 1) * 1048576 < byteSize <= n * 1048576 }

  // The budget of one scan: an eighth of a second for every started mebibyte on top of the base, up to the maximum.
  // None is the RangeError.
  function ScanDeadlineMs(byteSize: int, baseTimeoutMs: int): (r: Option<nat>)
    ensures r.Some? <==> 0 <= byteSize <= MAX_SCAN_BYTES && baseTimeoutMs > 0
    ensures r.Some? ==> 0 < r.value <= MAX_SCAN_DEADLINE_MS
    ensures r.Some? ==> forall n: nat :: StartedMib(byteSize, n) ==>
      r.value == if baseTimeoutMs + n * 125 < MAX_SCAN_DEADLINE_MS then baseTimeoutMs + n * 125
                 else MAX_SCAN_DEADLINE_MS
  {
    if byteSize < 0 || byteSize > MAX_SCAN_BYTES || baseTimeoutMs <= 0 then None
    else Some(Min(MAX_SCAN_DEADLINE_MS, baseTimeoutMs + CeilDiv(byteSize, 1024 * 1024) * 125))
  }

  // A larger upload never gets less time.
  lemma DeadlineMonotone(a: nat, b: nat, baseTimeoutMs: nat)
    requires a <= b <= MAX_SCAN_BYTES && baseTimeoutMs > 0
    ensures ScanDeadlineMs(a, baseTimeoutMs).value <= ScanDeadlineMs(b, baseTimeoutMs).value
  {
    assert CeilDiv(a, 1024 * 1024) <= CeilDiv(b, 1024 * 1024);
  }

  function LeaseSeconds(leaseMs: nat, objectReadMs: nat, byteSize: nat, baseTimeoutMs: nat): nat
    requires baseTimeoutMs > 0
  {
    var scanBudget := ScanDeadlineMs(Min(byteSize, MAX_SCAN_BYTES), baseTimeoutMs).value;
    Max(1, CeilDiv(Max(leaseMs, objectReadMs + scanBudget + 120_000), 1000))
  }

  // A lease outlasts the object read, the scan and two minutes of reporting, for any size, and is no shorter than
  // configured; it is longer than the longer of the two by less than a second.
  lemma LeaseCovers(leaseMs: nat, objectReadMs: nat, byteSize: nat, baseTimeoutMs: nat)
    requires baseTimeoutMs > 0
    ensures var budget := ScanDeadlineMs(Min(byteSize, MAX_SCAN_BYTES), baseTimeoutMs);
      && budget.Some?
      && var lease := LeaseSeconds(leaseMs, objectReadMs, byteSize, baseTimeoutMs) * 1000;
      && lease >= objectReadMs + budget.value + 120_000 && lease >= leaseMs
      && (lease < leaseMs + 1000 || lease < objectReadMs + budget.value + 121_000)
  {
  }

  // ---- the row ----

  datatype UploadState = Quarantined | Decided

  datatype Row = Row(state: UploadState, version: int, attempts: int, leasedUntil: Option<int>)

  // What a worker remembers of its lease.
  datatype Lease = Lease(version: int, attempts: int, until: int)

  function CanLease(row: Row, now: int, maxAttempts: int): bool {
    row.state.Quarantined? && row.attempts < maxAttempts && (row.leasedUntil.None? || row.leasedUntil.value < now)
  }

  function Leased(row: Row, now: int, seconds: nat): Row {
    row.(attempts := row.attempts + 1, leasedUntil := Some(now + seconds))
  }

  predicate Matches(row: Row, lease: Lease) {
    && row.state.Quarantined? && row.version == lease.version
    && row.attempts == lease.attempts && row.leasedUntil == Some(lease.until)
  }

  function AfterFailure(row: Row, lease: Lease, refund: bool): Row {
    if Matches(row, lease) then row.(leasedUntil := None, attempts := row.attempts - if refund then 1 else 0) else row
  }

  // The row in the database; each method is one statement or one short transaction.
  class UploadRow {
    var state: UploadState
    var version: int
    var attempts: int
    var leasedUntil: Option<int>

    function Contents(): Row
      reads this
    {
      Row(state, version, attempts, leasedUntil)
    }

    method LeaseOne(now: int, seconds: nat, maxAttempts: int) returns (lease: Option<Lease>)
      modifies this
      ensures lease.Some? <==> CanLease(old(Contents()), now, maxAttempts)
      ensures Contents() == if lease.Some? then Leased(old(Contents()), now, seconds) else old(Contents())
      ensures lease.Some? ==> Matches(Contents(), lease.value)
    {
      if !(state.Quarantined? && attempts < maxAttempts && (leasedUntil.None? || leasedUntil.value < now)) {
        return None;
      }
      attempts := attempts + 1;
      leasedUntil := Some(now + seconds);
      return Some(Lease(version, attempts, leasedUntil.value));
    }

    method RecordFailure(lease: Lease, refund: bool)
      modifies this
      ensures Contents() == AfterFailure(old(Contents()), lease, refund)
    {
      if && state.Quarantined? && version == lease.version
         && attempts == lease.attempts && leasedUntil == Some(lease.until)
      {
        leasedUntil := None;
        if refund {
          attempts := attempts - 1;
        }
      }
    }
  }

  // ---- runs ----

  // `holder` is the worker whose lease the row holds, `granted` the leases it was ever given under, `released` which
  // of them a recorded failure ended, and `refunds` counts the attempts given back; no column keeps them.
  datatype State = State(
    row: Row,
    workers: seq<Option<Lease>>,
    holder: Option<nat>,
    granted: seq<Lease>,
    released: set<nat>,
    refunds: nat)

  datatype Event =
    | Grant(w: nat, now: int, seconds: nat)
    | Fail(w: nat, refund: bool)
    // The API decides the upload; the report is not tied to the lease.
    | Report(w: nat)
    // Any other edit of the upload.
    | Edit
    | Crash(w: nat)

  function Next(maxAttempts: int, s: State, e: Event): State {
    match e
    case Grant(w, now, seconds) =>
      if w < |s.workers| && s.workers[w].None? && CanLease(s.row, now, maxAttempts) then
        var row := Leased(s.row, now, seconds);
        var lease := Lease(row.version, row.attempts, now + seconds);
        State(row, s.workers[w := Some(lease)], Some(w), s.granted + [lease], s.released, s.refunds)
      else s
    case Fail(w, refund) =>
      if w < |s.workers| && s.workers[w].Some? then
        var hit := Matches(s.row, s.workers[w].value);
        State(AfterFailure(s.row, s.workers[w].value, refund), s.workers[w := None],
              if s.holder == Some(w) then None else s.holder, s.granted,
              if hit && s.granted != [] then s.released + {|s.granted| - 1} else s.released,
              s.refunds + if hit && refund then 1 else 0)
      else s
    case Report(w) =>
      if w < |s.workers| && s.workers[w].Some? then
        State(s.row.(state := Decided, version := s.row.version + 1), s.workers[w := None],
              if s.holder == Some(w) then None else s.holder, s.granted, s.released, s.refunds)
      else s
    case Edit => s.(row := s.row.(version := s.row.version + 1))
    case Crash(w) =>
      if w < |s.workers|
      then s.(workers := s.workers[w := None], holder := if s.holder == Some(w) then None else s.holder)
      else s
  }

  function StepOf(maxAttempts: int): (State, Event) -> State {
    (s, e) => Next(maxAttempts, s, e)
  }

  ghost function Run(maxAttempts: int, s: State, events: seq<Event>): State {
    Runs.Run(StepOf(maxAttempts), s, events)
  }

  function Init(workers: nat): State {
    State(Row(Quarantined, 1, 0, None), seq(workers, _ => None), None, [], {}, 0)
  }

  // A worker whose lease was replaced is behind the row: fewer attempts, or as many and no lease.
  ghost predicate Behind(row: Row, lease: Lease) {
    lease.attempts <= row.attempts && (row.leasedUntil.Some? ==> lease.attempts < row.attempts)
  }

  ghost predicate Inv(maxAttempts: int, s: State) {
    && s.row.attempts == |s.granted| - s.refunds
    && 0 <= s.row.attempts && (s.row.attempts > 0 ==> s.row.attempts <= maxAttempts)
    && (s.holder.Some? ==> s.holder.value < |s.workers| && s.workers[s.holder.value].Some?)
    && (s.row.leasedUntil.Some? ==> s.row.attempts >= 1)
    && forall w :: 0 <= w < |s.workers| && s.workers[w].Some? ==>
         s.workers[w].value.attempts >= 1 &&
         if s.holder == Some(w) then
           s.row.attempts == s.workers[w].value.attempts && s.row.leasedUntil == Some(s.workers[w].value.until)
         else Behind(s.row, s.workers[w].value)
  }

  lemma StepKeeps(maxAttempts: int, s: State, e: Event)
    requires Inv(maxAttempts, s)
    ensures Inv(maxAttempts, Next(maxAttempts, s, e))
  {
  }

  lemma {:induction false} RunKeeps(maxAttempts: int, s: State, events: seq<Event>)
    requires Inv(maxAttempts, s)
    ensures Inv(maxAttempts, Run(maxAttempts, s, events))
    decreases |events|
  {
    if events != [] {
      StepKeeps(maxAttempts, s, events[0]);
      RunKeeps(maxAttempts, Next(maxAttempts, s, events[0]), events[1..]);
    }
  }

  // In every run, attempts are the leases granted less the refunds, between zero and the cap.
  lemma AttemptsAreLeasesLessRefunds(maxAttempts: int, workers: nat, events: seq<Event>)
    ensures var s := Run(maxAttempts, Init(workers), events);
      s.row.attempts == |s.granted| - s.refunds && 0 <= s.row.attempts <= Max(0, maxAttempts)
  {
    RunKeeps(maxAttempts, Init(workers), events);
  }

  // In every run, only the worker that holds the row's lease can match it: what a replaced worker
  // records changes nothing. No assumption about the clock is needed, not even that it advances.
  lemma OnlyTheHolderMatches(maxAttempts: int, workers: nat, events: seq<Event>, w: nat, refund: bool)
    requires w < |Run(maxAttempts, Init(workers), events).workers|
    requires Run(maxAttempts, Init(workers), events).workers[w].Some?
    ensures var s := Run(maxAttempts, Init(workers), events);
      && (Matches(s.row, s.workers[w].value) <==>
            s.holder == Some(w) && s.row.state.Quarantined? && s.row.version == s.workers[w].value.version)
      && (s.holder != Some(w) ==> Next(maxAttempts, s, Fail(w, refund)).row == s.row)
  {
    RunKeeps(maxAttempts, Init(workers), events);
  }

  // ---- one lease at a time ----

  // The row's lease is the last one granted, until a failure ends it.
  ghost predicate LastLease(s: State) {
    && (s.row.leasedUntil.Some? ==>
          && s.granted != [] && s.row.leasedUntil == Some(s.granted[|s.granted| - 1].until)
          && |s.granted| - 1 !in s.released)
    && (s.row.leasedUntil.None? && s.granted != [] ==> |s.granted| - 1 in s.released)
    && forall k <- s.released :: k < |s.granted|
  }

  // A lease no longer runs at a given moment.
  predicate Over(s: State, k: nat, now: int)
    requires k < |s.granted|
  {
    k in s.released || s.granted[k].until < now
  }

  // Every lease but the last is over by the time of any request still to come.
  ghost predicate OthersOver(s: State, events: seq<Event>) {
    forall k: nat, i :: k + 1 < |s.granted| && 0 <= i < |events| && events[i].Grant? ==> Over(s, k, events[i].now)
  }

  lemma LastLeaseKept(maxAttempts: int, s: State, e: Event)
    requires LastLease(s)
    ensures LastLease(Next(maxAttempts, s, e))
  {
  }

  lemma StepOver(maxAttempts: int, s: State, events: seq<Event>)
    requires events != [] && ClockAdvances(events, false) && LastLease(s) && OthersOver(s, events)
    ensures OthersOver(Next(maxAttempts, s, events[0]), events[1..]) && ClockAdvances(events[1..], false)
  {
    var t := Next(maxAttempts, s, events[0]);
    forall k: nat, i | k + 1 < |t.granted| && 0 <= i < |events[1..]| && events[1..][i].Grant?
      ensures Over(t, k, events[1..][i].now)
    {
      assert events[1..][i] == events[i + 1];
      assert t.granted[k] == s.granted[k];
      if k + 1 < |s.granted| { assert Over(s, k, events[i + 1].now); }
    }
  }

  lemma {:induction false} RunOver(maxAttempts: int, s: State, events: seq<Event>, e: Event)
    requires ClockAdvances(events + [e], false) && LastLease(s) && OthersOver(s, events + [e])
    ensures LastLease(Run(maxAttempts, s, events)) && OthersOver(Run(maxAttempts, s, events), [e])
    decreases |events|
  {
    if events == [] {
      assert events + [e] == [e];
    } else {
      assert (events + [e])[0] == events[0] && (events + [e])[1..] == events[1..] + [e];
      StepOver(maxAttempts, s, events + [e]);
      LastLeaseKept(maxAttempts, s, events[0]);
      RunOver(maxAttempts, Next(maxAttempts, s, events[0]), events[1..], e);
    }
  }

  // With a clock that never goes back, an idle worker is granted a lease exactly if the upload is undecided, attempts
  // remain, and every lease granted before has run out or was released: no two leases run at once, and none strands
  // the upload.
  lemma GrantedExactlyWhenFree(maxAttempts: int, workers: nat, events: seq<Event>, w: nat, now: int, seconds: nat)
    requires ClockAdvances(events + [Grant(w, now, seconds)], false)
    requires
      var s := Run(maxAttempts, Init(workers), events);
      w < |s.workers| && s.workers[w].None?
    ensures
      var s := Run(maxAttempts, Init(workers), events);
      var t := Next(maxAttempts, s, Grant(w, now, seconds));
      |t.granted| > |s.granted| <==>
        && s.row.state.Quarantined? && s.row.attempts < maxAttempts
        && forall k: nat :: k < |s.granted| ==> Over(s, k, now)
  {
    var e := Grant(w, now, seconds);
    RunOver(maxAttempts, Init(workers), events, e);
    var s := Run(maxAttempts, Init(workers), events);
    forall k: nat | k + 1 < |s.granted| ensures Over(s, k, now) { assert [e][0].Grant?; }
    if s.granted != [] {
      var last := |s.granted| - 1;
      assert Over(s, last, now) <==> s.row.leasedUntil.None? || s.row.leasedUntil.value < now;
    }
  }

  // ---- what a lease is known by ----

  // A row's size and the configuration are fixed, so all its leases last equally long.
  predicate OneLength(events: seq<Event>, seconds: nat) {
    forall i :: 0 <= i < |events| && events[i].Grant? ==> events[i].seconds == seconds
  }

  // The database's clock never goes back; a strict one reads later at every request for a lease.
  predicate ClockAdvances(events: seq<Event>, strict: bool) {
    forall i, j :: 0 <= i < j < |events| && events[i].Grant? && events[j].Grant? ==>
      events[i].now < events[j].now || (!strict && events[i].now == events[j].now)
  }

  ghost predicate DeadlinesDiffer(s: State) {
    forall i, j :: 0 <= i < j < |s.granted| ==> s.granted[i].until != s.granted[j].until
  }

  // What recordFailure matches a lease by, on an upload nobody edits.
  ghost predicate TokensDiffer(s: State) {
    forall i, j :: 0 <= i < j < |s.granted| ==>
      s.granted[i].attempts != s.granted[j].attempts || s.granted[i].until != s.granted[j].until
  }

  // Every lease granted so far runs out before any that can still be granted.
  ghost predicate Earlier(s: State, events: seq<Event>) {
    forall k, i :: 0 <= k < |s.granted| && 0 <= i < |events| && events[i].Grant? ==>
      s.granted[k].until < events[i].now + events[i].seconds
  }

  lemma StepDiffers(maxAttempts: int, s: State, events: seq<Event>, seconds: nat)
    requires events != [] && OneLength(events, seconds) && ClockAdvances(events, true)
    requires DeadlinesDiffer(s) && Earlier(s, events)
    ensures DeadlinesDiffer(Next(maxAttempts, s, events[0])) && Earlier(Next(maxAttempts, s, events[0]), events[1..])
    ensures OneLength(events[1..], seconds) && ClockAdvances(events[1..], true)
  {
    var t := Next(maxAttempts, s, events[0]);
    forall k, i | 0 <= k < |t.granted| && 0 <= i < |events[1..]| && events[1..][i].Grant?
      ensures t.granted[k].until < events[1..][i].now + events[1..][i].seconds
    {
      assert events[1..][i] == events[i + 1];
      if k < |s.granted| { assert t.granted[k] == s.granted[k]; }
    }
  }

  lemma {:induction false} RunDiffers(maxAttempts: int, s: State, events: seq<Event>, seconds: nat)
    requires OneLength(events, seconds) && ClockAdvances(events, true) && DeadlinesDiffer(s) && Earlier(s, events)
    ensures DeadlinesDiffer(Run(maxAttempts, s, events))
    decreases |events|
  {
    if events != [] {
      StepDiffers(maxAttempts, s, events, seconds);
      RunDiffers(maxAttempts, Next(maxAttempts, s, events[0]), events[1..], seconds);
    }
  }

  // Within one moment a failure can be refunded and the row leased again: the same attempt, the same deadline.
  lemma TokenRecurs(maxAttempts: int, workers: nat, seconds: nat)
    requires workers > 0 && maxAttempts > 0
    ensures !TokensDiffer(Run(maxAttempts, Init(workers), [Grant(0, 0, seconds), Fail(0, true), Grant(0, 0, seconds)]))
  {
    var a, b := Grant(0, 0, seconds), Fail(0, true);
    var next, init := StepOf(maxAttempts), Init(workers);
    Runs.RunSnoc(next, init, [], a);
    Runs.RunSnoc(next, init, [a], b);
    Runs.RunSnoc(next, init, [a, b], a);
    assert [] + [a] == [a] && [a] + [b] == [a, b] && [a, b] + [a] == [a, b, a];
    var lease := Lease(1, 1, seconds);
    var s1 := Next(maxAttempts, init, a);
    assert s1.granted == [lease] && s1.workers[0] == Some(lease);
    var s2 := Next(maxAttempts, s1, b);
    assert s2.granted == [lease] && s2.row == Row(Quarantined, 1, 0, None) && s2.workers[0] == None;
    var s3 := Next(maxAttempts, s2, a);
    assert s3.granted == [lease, lease];
    assert s3.granted[0] == s3.granted[1];
  }

  // No lease is granted without a worker, or under a cap of nothing.
  lemma {:induction false} NothingGranted(maxAttempts: int, s: State, events: seq<Event>)
    requires s.granted == [] && s.row.attempts == 0 && (maxAttempts <= 0 || |s.workers| == 0)
    requires forall w :: 0 <= w < |s.workers| ==> s.workers[w].None?
    ensures Run(maxAttempts, s, events).granted == []
    decreases |events|
  {
    if events != [] { NothingGranted(maxAttempts, Next(maxAttempts, s, events[0]), events[1..]); }
  }

  // The runs of this upload under a clock that never goes back.
  ghost predicate RunsOf(events: seq<Event>, seconds: nat, strict: bool) {
    OneLength(events, seconds) && ClockAdvances(events, strict)
  }

  lemma DeadlinesDifferWhen(maxAttempts: int, workers: nat, events: seq<Event>, seconds: nat, strict: bool)
    requires RunsOf(events, seconds, strict) && (strict || workers == 0 || maxAttempts <= 0)
    ensures DeadlinesDiffer(Run(maxAttempts, Init(workers), events))
    ensures TokensDiffer(Run(maxAttempts, Init(workers), events))
  {
    if strict {
      RunDiffers(maxAttempts, Init(workers), events, seconds);
    } else {
      NothingGranted(maxAttempts, Init(workers), events);
    }
  }

  // With leases as long as leaseOne makes them, no two leases of an upload share attempt count and deadline, and
  // none share the deadline, in all runs, exactly if the clock strictly advances (or no lease can be granted).
  lemma TokensDifferExactly(maxAttempts: int, workers: nat, strict: bool,
                            leaseMs: nat, objectReadMs: nat, byteSize: nat, baseTimeoutMs: nat)
    requires baseTimeoutMs > 0
    ensures var seconds := LeaseSeconds(leaseMs, objectReadMs, byteSize, baseTimeoutMs);
      var init := Init(workers);
      && ((forall events :: RunsOf(events, seconds, strict) ==> TokensDiffer(Run(maxAttempts, init, events)))
          <==> strict || workers == 0 || maxAttempts <= 0)
      && ((forall events :: RunsOf(events, seconds, strict) ==> DeadlinesDiffer(Run(maxAttempts, init, events)))
          <==> strict || workers == 0 || maxAttempts <= 0)
  {
    var seconds := LeaseSeconds(leaseMs, objectReadMs, byteSize, baseTimeoutMs);
    if strict || workers == 0 || maxAttempts <= 0 {
      forall events | RunsOf(events, seconds, strict)
        ensures TokensDiffer(Run(maxAttempts, Init(workers), events))
        ensures DeadlinesDiffer(Run(maxAttempts, Init(workers), events))
      {
        DeadlinesDifferWhen(maxAttempts, workers, events, seconds, strict);
      }
    } else {
      var events := [Grant(0, 0, seconds), Fail(0, true), Grant(0, 0, seconds)];
      TokenRecurs(maxAttempts, workers, seconds);
      assert RunsOf(events, seconds, strict);
      var s := Run(maxAttempts, Init(workers), events);
      assert !TokensDiffer(s) && !DeadlinesDiffer(s);
    }
  }
}
