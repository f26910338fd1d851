// What every run of the outbox keeps, over any workers, crashes, lost answers and replays. A holder's snapshot of
// its row is the row, its progress is in the inbox, and the row's attempts are those committed since the last
// replay. Each kind of step keeps that; most touch one worker, its row's lock and one history entry at most.
module OutboxSafety {
  import opened Outbox
  import Runs

  // ---- the invariant ----

  // Every handler before `n` that has work on this event has its inbox row.
  ghost predicate DoneUpTo(cfg: Config, inbox: set<(EventId, string)>, e: EventId, row: Row, n: nat) {
    forall i :: 0 <= i < n && i < |cfg.handlers| && Relevant(cfg.handlers[i], row) ==>
      (e, HandlerKey(cfg.handlers[i])) in inbox
  }

  ghost predicate Open(cfg: Config, inbox: set<(EventId, string)>, e: EventId, row: Row, n: nat) {
    && n < |cfg.handlers| && Relevant(cfg.handlers[n], row)
    && (e, HandlerKey(cfg.handlers[n])) !in inbox
  }

  ghost predicate Progress(cfg: Config, s: State, p: Phase) {
    match p
    case Dispatching(e, row, n) => n <= |cfg.handlers| && DoneUpTo(cfg, s.inbox, e, row, n)
    case Handling(e, row, n) => Open(cfg, s.inbox, e, row, n) && DoneUpTo(cfg, s.inbox, e, row, n)
    case Recording(e, row, n) =>
      Open(cfg, s.inbox, e, row, n) && DoneUpTo(cfg, s.inbox, e, row, n) && Completed(e, cfg.handlers[n]) in s.log
    case Delivered(e, row) => DoneUpTo(cfg, s.inbox, e, row, |cfg.handlers|)
    case _ => true
  }

  // A settlement still finds what its dead letter left, unless the event was replayed since.
  ghost predicate SettleOk(cfg: Config, s: State, e: EventId, row: Row, replays: nat) {
    && replays <= ReplayCount(s.log, e) && e in s.rows
    && (replays == ReplayCount(s.log, e) ==> s.rows[e] == row && row.deadLettered)
  }

  ghost predicate PhaseOk(cfg: Config, s: State, w: WorkerId)
    requires w in s.workers
  {
    var p := s.workers[w].phase;
    && (Holds(p) ==>
          && p.event in s.owner && s.owner[p.event] == ByWorker(w)
          && p.event in s.rows && s.rows[p.event] == p.row && Due(p.row)
          && p.event !in s.workers[w].handled && Progress(cfg, s, p))
    && (p.Settling? ==> SettleOk(cfg, s, p.event, p.row, p.replays))
    && (p.Calling? ==>
          && SettleOk(cfg, s, p.event, p.row, p.replays)
          && (p.replays == ReplayCount(s.log, p.event) ==> Open(cfg, s.inbox, p.event, p.row, p.next)))
  }

  ghost predicate OwnerOk(s: State, e: EventId)
    requires e in s.owner
  {
    e in s.rows &&
    match s.owner[e]
    case ByWorker(w) => w in s.workers && Holds(s.workers[w].phase) && s.workers[w].phase.event == e
    case ByOperator(o) => o in s.operators && s.operators[o].Replaying? && e in s.operators[o].updated
  }

  ghost predicate OperatorOk(s: State, o: OperatorId)
    requires o in s.operators
  {
    s.operators[o].Replaying? ==> forall e <- s.operators[o].updated :: e in s.owner && s.owner[e] == ByOperator(o)
  }

  ghost predicate RowOk(cfg: Config, s: State, e: EventId)
    requires e in s.rows
  {
    var row := s.rows[e];
    && row.attempts == AttemptsSince(s.log, e)
    && !(row.published && row.deadLettered)
    && (row.published ==> DoneUpTo(cfg, s.inbox, e, row, |cfg.handlers|))
    && (!row.published ==> (row.deadLettered <==> row.attempts >= 1 && row.attempts >= cfg.maxAttempts))
  }

  ghost predicate InboxOk(cfg: Config, s: State, e: EventId, k: string) {
    exists i :: 0 <= i < |cfg.handlers| && HandlerKey(cfg.handlers[i]) == k && Completed(e, cfg.handlers[i]) in s.log
  }

  // The log's tries of worker `w` belong to its batches so far, and those of this batch are handled.
  ghost predicate BatchOk(s: State, w: WorkerId)
    requires w in s.workers
  {
    forall b: nat, e :: Committed(w, b, e) in s.log ==>
      b <= s.workers[w].batch && (b == s.workers[w].batch ==> e in s.workers[w].handled)
  }

  ghost predicate TriesOk(s: State) {
    && (forall i, j :: 0 <= i < j < |s.log| && s.log[i].Committed? ==> s.log[i] != s.log[j])
    && forall w, b: nat, e :: Committed(w, b, e) in s.log ==> w in s.workers
  }

  ghost predicate Inv(cfg: Config, s: State) {
    && (forall w <- s.workers :: PhaseOk(cfg, s, w))
    && (forall e <- s.owner :: OwnerOk(s, e))
    && (forall o <- s.operators :: OperatorOk(s, o))
    && (forall e <- s.rows :: RowOk(cfg, s, e))
    && (forall e, k :: (e, k) in s.inbox ==> InboxOk(cfg, s, e, k))
    && (forall w <- s.workers :: BatchOk(s, w))
    && TriesOk(s)
    && forall e :: e !in s.rows ==> AttemptsSince(s.log, e) == 0
  }

  // ---- history ----

  lemma Append(log: seq<Entry>, x: Entry, e: EventId)
    ensures AttemptsSince(log + [x], e) ==
      if x.Replayed? && e in x.events then 0
      else AttemptsSince(log, e) + if x.Committed? && x.event == e then 1 else 0
    ensures ReplayCount(log + [x], e) == ReplayCount(log, e) + if x.Replayed? && e in x.events then 1 else 0
  {
    assert (log + [x])[..|log|] == log;
  }

  lemma AppendTally(log: seq<Entry>, x: Entry, y: Entry)
    ensures Tally(log + [x], y) == Tally(log, y) + if x == y then 1 else 0
  {
    assert (log + [x])[..|log|] == log;
  }

  // Nothing, or one entry about a handler.
  ghost predicate QuietLog(before: seq<Entry>, after: seq<Entry>) {
    || after == before
    || exists x: Entry :: after == before + [x] && !x.Committed? && !x.Replayed?
  }

  lemma QuietCounts(before: seq<Entry>, after: seq<Entry>, e: EventId)
    requires QuietLog(before, after)
    ensures AttemptsSince(after, e) == AttemptsSince(before, e) && ReplayCount(after, e) == ReplayCount(before, e)
  {
    if after != before {
      var x :| after == before + [x] && !x.Committed? && !x.Replayed?;
      Append(before, x, e);
    }
  }

  lemma QuietTries(s: State, t: State)
    requires QuietLog(s.log, t.log) && TriesOk(s) && s.workers.Keys == t.workers.Keys
    ensures TriesOk(t)
    ensures forall x: Entry :: x in s.log ==> x in t.log
    ensures forall x: Entry :: x.Committed? ==> (x in t.log <==> x in s.log)
  {
    if t.log != s.log {
      var x :| t.log == s.log + [x] && !x.Committed? && !x.Replayed?;
      forall i, j | 0 <= i < j < |t.log| && t.log[i].Committed? ensures t.log[i] != t.log[j] {
        if j < |s.log| { assert s.log[i] != s.log[j]; }
      }
    }
  }

  // ---- steps of the worker that holds the event ----

  // Only worker `w`'s phase, the inbox of its event and the history change.
  ghost predicate HolderSteps(s: State, t: State, w: WorkerId, q: Phase) {
    && w in s.workers && Holds(s.workers[w].phase) && Holds(q)
    && q.event == s.workers[w].phase.event && q.row == s.workers[w].phase.row
    && t.workers == s.workers[w := s.workers[w].(phase := q)]
    && t.rows == s.rows && t.owner == s.owner && t.operators == s.operators
    && s.inbox <= t.inbox && (forall x :: x in t.inbox && x !in s.inbox ==> x.0 == q.event)
    && QuietLog(s.log, t.log)
  }

  lemma OtherWorker(cfg: Config, s: State, t: State, w: WorkerId, q: Phase, v: WorkerId)
    requires Inv(cfg, s) && HolderSteps(s, t, w, q) && v in s.workers && v != w
    ensures PhaseOk(cfg, t, v)
  {
    var p := s.workers[v].phase;
    assert PhaseOk(cfg, s, w) && PhaseOk(cfg, s, v);
    QuietTries(s, t);
    if !p.Idle? { QuietCounts(s.log, t.log, p.event); }
  }

  lemma HolderKeeps(cfg: Config, s: State, t: State, w: WorkerId, q: Phase)
    requires Inv(cfg, s) && HolderSteps(s, t, w, q) && Progress(cfg, t, q)
    requires forall e, k :: (e, k) in t.inbox && (e, k) !in s.inbox ==> InboxOk(cfg, t, e, k)
    ensures Inv(cfg, t)
  {
    assert PhaseOk(cfg, s, w);
    QuietTries(s, t);
    forall v <- t.workers ensures PhaseOk(cfg, t, v) {
      if v != w { OtherWorker(cfg, s, t, w, q, v); }
    }
    forall e <- t.owner ensures OwnerOk(t, e) { assert OwnerOk(s, e); }
    forall o <- t.operators ensures OperatorOk(t, o) { assert OperatorOk(s, o); }
    forall e <- t.rows ensures RowOk(cfg, t, e) {
      assert RowOk(cfg, s, e);
      QuietCounts(s.log, t.log, e);
    }
    forall e, k | (e, k) in t.inbox ensures InboxOk(cfg, t, e, k) {
      if (e, k) in s.inbox { InboxStays(cfg, s, t, e, k); }
    }
    forall v <- t.workers ensures BatchOk(t, v) { assert BatchOk(s, v); }
    forall e | e !in t.rows ensures AttemptsSince(t.log, e) == 0 { QuietCounts(s.log, t.log, e); }
  }

  lemma InboxStays(cfg: Config, s: State, t: State, e: EventId, k: string)
    requires InboxOk(cfg, s, e, k) && forall x: Entry :: x in s.log ==> x in t.log
    ensures InboxOk(cfg, t, e, k)
  {
    var i :| 0 <= i < |cfg.handlers| && HandlerKey(cfg.handlers[i]) == k && Completed(e, cfg.handlers[i]) in s.log;
    assert Completed(e, cfg.handlers[i]) in t.log;
  }

  lemma CheckInboxSteps(cfg: Config, s: State, w: WorkerId)
    requires w in s.workers && s.workers[w].phase.Dispatching?
    ensures var t := NextDispatch(cfg, s, w, CheckInbox(w));
      w in t.workers && HolderSteps(s, t, w, t.workers[w].phase)
  {
  }

  lemma CheckInboxProgress(cfg: Config, s: State, w: WorkerId)
    requires w in s.workers && s.workers[w].phase.Dispatching? && Progress(cfg, s, s.workers[w].phase)
    ensures var t := NextDispatch(cfg, s, w, CheckInbox(w)); w in t.workers && Progress(cfg, t, t.workers[w].phase)
  {
  }

  lemma CheckInboxKeeps(cfg: Config, s: State, w: WorkerId)
    requires Inv(cfg, s) && w in s.workers
    ensures Inv(cfg, NextDispatch(cfg, s, w, CheckInbox(w)))
  {
    var t := NextDispatch(cfg, s, w, CheckInbox(w));
    if s.workers[w].phase.Dispatching? {
      assert PhaseOk(cfg, s, w);
      CheckInboxSteps(cfg, s, w);
      CheckInboxProgress(cfg, s, w);
      HolderKeeps(cfg, s, t, w, t.workers[w].phase);
    }
  }

  lemma HandlerKeeps(cfg: Config, s: State, w: WorkerId, e: Event)
    requires Inv(cfg, s) && w in s.workers && (e == HandlerReturns(w) || e == HandlerThrows(w))
    ensures Inv(cfg, NextDispatch(cfg, s, w, e))
  {
    var t := NextDispatch(cfg, s, w, e);
    if s.workers[w].phase.Handling? {
      assert PhaseOk(cfg, s, w);
      HolderKeeps(cfg, s, t, w, t.workers[w].phase);
    }
  }

  lemma RecordSteps(cfg: Config, s: State, w: WorkerId, answered: bool)
    requires w in s.workers && s.workers[w].phase.Recording? && Progress(cfg, s, s.workers[w].phase)
    ensures var t := NextDispatch(cfg, s, w, RecordInbox(w, answered));
      && w in t.workers && HolderSteps(s, t, w, t.workers[w].phase) && Progress(cfg, t, t.workers[w].phase)
      && t.inbox == s.inbox + {(s.workers[w].phase.event, HandlerKey(cfg.handlers[s.workers[w].phase.next]))}
      && t.log == s.log
  {
  }

  lemma RecordKeeps(cfg: Config, s: State, w: WorkerId, answered: bool)
    requires Inv(cfg, s) && w in s.workers
    ensures Inv(cfg, NextDispatch(cfg, s, w, RecordInbox(w, answered)))
  {
    var t := NextDispatch(cfg, s, w, RecordInbox(w, answered));
    var p := s.workers[w].phase;
    if p.Recording? {
      assert PhaseOk(cfg, s, w);
      RecordSteps(cfg, s, w, answered);
      assert InboxOk(cfg, t, p.event, HandlerKey(cfg.handlers[p.next]));
      HolderKeeps(cfg, s, t, w, t.workers[w].phase);
    }
  }

  lemma ForgetIsQuiet(cfg: Config, s: State, p: Phase)
    ensures QuietLog(s.log, Forget(cfg, s, p).log)
    ensures Forget(cfg, s, p) == s.(log := Forget(cfg, s, p).log)
  {
  }

  lemma StatementFailsKeeps(cfg: Config, s: State, w: WorkerId)
    requires Inv(cfg, s) && w in s.workers
    ensures Inv(cfg, NextDispatch(cfg, s, w, StatementFails(w)))
  {
    var t := NextDispatch(cfg, s, w, StatementFails(w));
    var p := s.workers[w].phase;
    if p.Dispatching? || p.Recording? {
      assert PhaseOk(cfg, s, w);
      ForgetIsQuiet(cfg, s, p);
      HolderKeeps(cfg, s, t, w, t.workers[w].phase);
    }
  }

  lemma ClaimKeeps(cfg: Config, s: State, w: WorkerId, event: EventId)
    requires Inv(cfg, s) && w in s.workers
    ensures Inv(cfg, NextDispatch(cfg, s, w, Claim(w, event)))
  {
    var t := NextDispatch(cfg, s, w, Claim(w, event));
    if t != s {
      forall v <- t.workers ensures PhaseOk(cfg, t, v) { assert PhaseOk(cfg, s, v); }
      forall e <- t.owner ensures OwnerOk(t, e) { if e != event { assert OwnerOk(s, e); } }
      forall o <- t.operators ensures OperatorOk(t, o) { assert OperatorOk(s, o); }
      forall e <- t.rows ensures RowOk(cfg, t, e) { assert RowOk(cfg, s, e); }
      forall e, k | (e, k) in t.inbox ensures InboxOk(cfg, t, e, k) { InboxStays(cfg, s, t, e, k); }
      forall v <- t.workers ensures BatchOk(t, v) { assert BatchOk(s, v); }
    }
  }

  // ---- steps that hold nothing, or let go ----

  // Worker `w` ends up without a row; rows stay as they are and at most its own lock is freed.
  ghost predicate LetsGo(s: State, t: State, w: WorkerId) {
    && w in s.workers && t.workers.Keys == s.workers.Keys && !Holds(t.workers[w].phase)
    && (forall v <- s.workers :: v != w ==> t.workers[v] == s.workers[v])
    && t.rows == s.rows && t.inbox == s.inbox && t.operators == s.operators
    && t.owner == (if Holds(s.workers[w].phase) then s.owner - {s.workers[w].phase.event} else s.owner)
    && QuietLog(s.log, t.log)
  }

  lemma LetsGoKeeps(cfg: Config, s: State, t: State, w: WorkerId)
    requires Inv(cfg, s) && LetsGo(s, t, w) && PhaseOk(cfg, t, w) && BatchOk(t, w)
    ensures Inv(cfg, t)
  {
    assert PhaseOk(cfg, s, w);
    QuietTries(s, t);
    forall v <- t.workers ensures PhaseOk(cfg, t, v) {
      if v != w {
        assert PhaseOk(cfg, s, v);
        if !s.workers[v].phase.Idle? { QuietCounts(s.log, t.log, s.workers[v].phase.event); }
      }
    }
    forall e <- t.owner ensures OwnerOk(t, e) { assert OwnerOk(s, e); }
    forall o <- t.operators ensures OperatorOk(t, o) { assert OperatorOk(s, o); }
    forall e <- t.rows ensures RowOk(cfg, t, e) {
      assert RowOk(cfg, s, e);
      QuietCounts(s.log, t.log, e);
    }
    forall e, k | (e, k) in t.inbox ensures InboxOk(cfg, t, e, k) { InboxStays(cfg, s, t, e, k); }
    forall v <- t.workers ensures BatchOk(t, v) { if v != w { assert BatchOk(s, v); } }
    forall e | e !in t.rows ensures AttemptsSince(t.log, e) == 0 { QuietCounts(s.log, t.log, e); }
  }

  lemma CrashKeeps(cfg: Config, s: State, w: WorkerId)
    requires Inv(cfg, s) && w in s.workers
    ensures Inv(cfg, NextCrash(cfg, s, w))
  {
    var t := NextCrash(cfg, s, w);
    assert PhaseOk(cfg, s, w) && BatchOk(s, w);
    LetsGoKeeps(cfg, s, t, w);
  }

  lemma StartBatchKeeps(cfg: Config, s: State, w: WorkerId)
    requires Inv(cfg, s) && w in s.workers && s.workers[w].phase.Idle?
    ensures Inv(cfg, FreshBatch(s, w))
  {
    assert BatchOk(s, w);
    LetsGoKeeps(cfg, s, FreshBatch(s, w), w);
  }

  lemma CheckSettledLetsGo(cfg: Config, s: State, w: WorkerId)
    requires w in s.workers
    ensures var t := NextSettle(cfg, s, w, CheckSettled(w)); t == s || LetsGo(s, t, w)
  {
  }

  lemma CheckSettledPhase(cfg: Config, s: State, w: WorkerId)
    requires w in s.workers && PhaseOk(cfg, s, w) && BatchOk(s, w)
    ensures var t := NextSettle(cfg, s, w, CheckSettled(w));
      w in t.workers && PhaseOk(cfg, t, w) && BatchOk(t, w)
  {
  }

  lemma CheckSettledKeeps(cfg: Config, s: State, w: WorkerId)
    requires Inv(cfg, s) && w in s.workers
    ensures Inv(cfg, NextSettle(cfg, s, w, CheckSettled(w)))
  {
    var t := NextSettle(cfg, s, w, CheckSettled(w));
    CheckSettledLetsGo(cfg, s, w);
    CheckSettledPhase(cfg, s, w);
    if t != s { LetsGoKeeps(cfg, s, t, w); }
  }

  lemma SettleReturnsKeeps(cfg: Config, s: State, w: WorkerId)
    requires Inv(cfg, s) && w in s.workers
    ensures Inv(cfg, NextSettle(cfg, s, w, SettleReturns(w)))
  {
    var t := NextSettle(cfg, s, w, SettleReturns(w));
    var p := s.workers[w].phase;
    if p.Calling? && p.next < |cfg.handlers| {
      assert PhaseOk(cfg, s, w) && BatchOk(s, w);
      assert t.log == s.log + [Settled(p.event, cfg.handlers[p.next])];
      assert QuietLog(s.log, t.log);
      QuietCounts(s.log, t.log, p.event);
      QuietTries(s, t);
      LetsGoKeeps(cfg, s, t, w);
    }
  }

  lemma SettleThrowsKeeps(cfg: Config, s: State, w: WorkerId)
    requires Inv(cfg, s) && w in s.workers
    ensures Inv(cfg, NextSettle(cfg, s, w, SettleThrows(w)))
  {
    var t := NextSettle(cfg, s, w, SettleThrows(w));
    if t != s {
      assert BatchOk(s, w);
      LetsGoKeeps(cfg, s, t, w);
    }
  }

  lemma ArriveKeeps(cfg: Config, s: State, e: Event)
    requires Inv(cfg, s) && e.Arrive?
    ensures Inv(cfg, Next(cfg, s, e))
  {
    var t := Next(cfg, s, e);
    if t != s {
      forall w <- t.workers ensures PhaseOk(cfg, t, w) { assert PhaseOk(cfg, s, w); }
      forall x <- t.owner ensures OwnerOk(t, x) { assert OwnerOk(s, x); }
      forall o <- t.operators ensures OperatorOk(t, o) { assert OperatorOk(s, o); }
      forall x <- t.rows ensures RowOk(cfg, t, x) { if x != e.event { assert RowOk(cfg, s, x); } }
      forall x, k | (x, k) in t.inbox ensures InboxOk(cfg, t, x, k) { InboxStays(cfg, s, t, x, k); }
      forall w <- t.workers ensures BatchOk(t, w) { assert BatchOk(s, w); }
    }
  }

  // ---- committing an outcome ----

  // The committing worker itself.
  lemma CommitSelf(cfg: Config, s: State, w: WorkerId, answered: bool)
    requires Inv(cfg, s) && w in s.workers && NextCommit(cfg, s, w, answered) != s
    ensures PhaseOk(cfg, NextCommit(cfg, s, w, answered), w)
  {
    var p := s.workers[w].phase;
    assert PhaseOk(cfg, s, w);
    Append(s.log, Committed(w, s.workers[w].batch, p.event), p.event);
  }

  lemma CommitWorkers(cfg: Config, s: State, w: WorkerId, answered: bool, v: WorkerId)
    requires Inv(cfg, s) && w in s.workers && v in s.workers && NextCommit(cfg, s, w, answered) != s
    ensures PhaseOk(cfg, NextCommit(cfg, s, w, answered), v)
  {
    var p, q := s.workers[w].phase, s.workers[v].phase;
    if v == w {
      CommitSelf(cfg, s, w, answered);
    } else {
      assert PhaseOk(cfg, s, w) && PhaseOk(cfg, s, v);
      if !q.Idle? { Append(s.log, Committed(w, s.workers[w].batch, p.event), q.event); }
    }
  }

  lemma CommitRows(cfg: Config, s: State, w: WorkerId, answered: bool, e: EventId)
    requires Inv(cfg, s) && w in s.workers && e in s.rows && NextCommit(cfg, s, w, answered) != s
    ensures RowOk(cfg, NextCommit(cfg, s, w, answered), e)
  {
    var p := s.workers[w].phase;
    assert PhaseOk(cfg, s, w) && RowOk(cfg, s, e);
    Append(s.log, Committed(w, s.workers[w].batch, p.event), e);
  }

  lemma CommitBatches(cfg: Config, s: State, w: WorkerId, answered: bool, v: WorkerId)
    requires Inv(cfg, s) && w in s.workers && v in s.workers && NextCommit(cfg, s, w, answered) != s
    ensures BatchOk(NextCommit(cfg, s, w, answered), v)
  {
    assert BatchOk(s, v);
  }

  lemma CommitTries(cfg: Config, s: State, w: WorkerId, answered: bool)
    requires Inv(cfg, s) && w in s.workers && NextCommit(cfg, s, w, answered) != s
    ensures TriesOk(NextCommit(cfg, s, w, answered))
  {
    var t := NextCommit(cfg, s, w, answered);
    var p := s.workers[w].phase;
    assert PhaseOk(cfg, s, w) && BatchOk(s, w);
    assert Committed(w, s.workers[w].batch, p.event) !in s.log;
    forall i, j | 0 <= i < j < |t.log| && t.log[i].Committed? ensures t.log[i] != t.log[j] {
      if j < |s.log| { assert s.log[i] != s.log[j]; } else { assert t.log[i] in s.log; }
    }
  }

  lemma CommitKeeps(cfg: Config, s: State, w: WorkerId, answered: bool)
    requires Inv(cfg, s) && w in s.workers
    ensures Inv(cfg, NextCommit(cfg, s, w, answered))
  {
    var t := NextCommit(cfg, s, w, answered);
    if t != s {
      var p := s.workers[w].phase;
      assert PhaseOk(cfg, s, w);
      forall v <- t.workers ensures PhaseOk(cfg, t, v) && BatchOk(t, v) {
        CommitWorkers(cfg, s, w, answered, v);
        CommitBatches(cfg, s, w, answered, v);
      }
      forall e <- t.owner ensures OwnerOk(t, e) { assert OwnerOk(s, e); }
      forall o <- t.operators ensures OperatorOk(t, o) { assert OperatorOk(s, o); }
      forall e <- t.rows ensures RowOk(cfg, t, e) { CommitRows(cfg, s, w, answered, e); }
      forall e, k | (e, k) in t.inbox ensures InboxOk(cfg, t, e, k) { InboxStays(cfg, s, t, e, k); }
      CommitTries(cfg, s, w, answered);
      forall e | e !in t.rows ensures AttemptsSince(t.log, e) == 0 {
        Append(s.log, Committed(w, s.workers[w].batch, p.event), e);
      }
    }
  }

  // ---- replay ----

  lemma LockWorkers(cfg: Config, s: State, o: OperatorId, e: Event)
    requires Inv(cfg, s) && o in s.operators && !e.CommitReplay?
    ensures var t := NextReplay(s, o, e); forall w <- t.workers :: PhaseOk(cfg, t, w)
  {
    var t := NextReplay(s, o, e);
    assert OperatorOk(s, o);
    forall w <- t.workers ensures PhaseOk(cfg, t, w) { assert PhaseOk(cfg, s, w); }
  }

  lemma LockOwners(cfg: Config, s: State, o: OperatorId, e: Event)
    requires Inv(cfg, s) && o in s.operators && !e.CommitReplay?
    ensures var t := NextReplay(s, o, e);
      (forall x <- t.owner :: OwnerOk(t, x)) && forall q <- t.operators :: OperatorOk(t, q)
  {
    var t := NextReplay(s, o, e);
    assert OperatorOk(s, o);
    forall x <- t.owner ensures OwnerOk(t, x) { if x in s.owner { assert OwnerOk(s, x); } }
    forall q <- t.operators ensures OperatorOk(t, q) { assert OperatorOk(s, q); }
  }

  lemma LockKeeps(cfg: Config, s: State, o: OperatorId, e: Event)
    requires Inv(cfg, s) && o in s.operators && !e.CommitReplay?
    ensures Inv(cfg, NextReplay(s, o, e))
  {
    var t := NextReplay(s, o, e);
    if t != s {
      LockWorkers(cfg, s, o, e);
      LockOwners(cfg, s, o, e);
      forall x <- t.rows ensures RowOk(cfg, t, x) { assert RowOk(cfg, s, x); }
      forall x, k | (x, k) in t.inbox ensures InboxOk(cfg, t, x, k) { InboxStays(cfg, s, t, x, k); }
      forall w <- t.workers ensures BatchOk(t, w) { assert BatchOk(s, w); }
    }
  }

  lemma ReplayWorkers(cfg: Config, s: State, o: OperatorId, w: WorkerId)
    requires Inv(cfg, s) && o in s.operators && s.operators[o].Replaying? && w in s.workers
    ensures PhaseOk(cfg, NextReplay(s, o, CommitReplay(o)), w)
    ensures BatchOk(NextReplay(s, o, CommitReplay(o)), w)
  {
    var t := NextReplay(s, o, CommitReplay(o));
    assert PhaseOk(cfg, s, w) && OperatorOk(s, o) && BatchOk(s, w);
    var x := Replayed(s.operators[o].updated, s.operators[o].skip);
    var p := s.workers[w].phase;
    if !p.Idle? { Append(s.log, x, p.event); }
    assert forall y: Entry :: y.Committed? ==> (y in t.log <==> y in s.log);
  }

  lemma CommitReplayKeeps(cfg: Config, s: State, o: OperatorId)
    requires Inv(cfg, s) && o in s.operators
    ensures Inv(cfg, NextReplay(s, o, CommitReplay(o)))
  {
    var t := NextReplay(s, o, CommitReplay(o));
    if s.operators[o].Replaying? {
      var x := Replayed(s.operators[o].updated, s.operators[o].skip);
      assert OperatorOk(s, o);
      forall w <- t.workers ensures PhaseOk(cfg, t, w) && BatchOk(t, w) { ReplayWorkers(cfg, s, o, w); }
      forall e <- t.owner ensures OwnerOk(t, e) { assert OwnerOk(s, e); }
      forall q <- t.operators ensures OperatorOk(t, q) { assert OperatorOk(s, q); }
      forall e <- t.rows ensures RowOk(cfg, t, e) {
        assert RowOk(cfg, s, e);
        Append(s.log, x, e);
      }
      forall e, k | (e, k) in t.inbox ensures InboxOk(cfg, t, e, k) { InboxStays(cfg, s, t, e, k); }
      forall e | e !in t.rows ensures AttemptsSince(t.log, e) == 0 { Append(s.log, x, e); }
      forall i, j | 0 <= i < j < |t.log| && t.log[i].Committed? ensures t.log[i] != t.log[j] {
        if j < |s.log| { assert s.log[i] != s.log[j]; }
      }
    }
  }

  // ---- runs ----

  lemma WorkerKeeps(cfg: Config, s: State, e: Event)
    requires Inv(cfg, s) && !e.Arrive? && !ByOperatorStep(e) && e.w in s.workers
    ensures Inv(cfg, Next(cfg, s, e))
  {
    match e
    case StartBatch(w) => if s.workers[w].phase.Idle? { StartBatchKeeps(cfg, s, w); }
    case Claim(w, event) => ClaimKeeps(cfg, s, w, event);
    case CheckInbox(w) => CheckInboxKeeps(cfg, s, w);
    case HandlerReturns(w) => HandlerKeeps(cfg, s, w, e);
    case HandlerThrows(w) => HandlerKeeps(cfg, s, w, e);
    case RecordInbox(w, answered) => RecordKeeps(cfg, s, w, answered);
    case StatementFails(w) => StatementFailsKeeps(cfg, s, w);
    case Commit(w, answered) => CommitKeeps(cfg, s, w, answered);
    case Crash(w) => CrashKeeps(cfg, s, w);
    case CheckSettled(w) => CheckSettledKeeps(cfg, s, w);
    case SettleReturns(w) => SettleReturnsKeeps(cfg, s, w);
    case SettleThrows(w) => SettleThrowsKeeps(cfg, s, w);
  }

  lemma StepKeeps(cfg: Config, s: State, e: Event)
    requires Inv(cfg, s)
    ensures Inv(cfg, Next(cfg, s, e))
  {
    if e.Arrive? {
      ArriveKeeps(cfg, s, e);
    } else if ByOperatorStep(e) {
      if e.o in s.operators {
        if e.CommitReplay? { CommitReplayKeeps(cfg, s, e.o); } else { LockKeeps(cfg, s, e.o, e); }
      }
    } else if e.w in s.workers {
      WorkerKeeps(cfg, s, e);
    }
  }

  lemma {:induction false} RunKeeps(cfg: Config, s: State, events: seq<Event>)
    requires Inv(cfg, s)
    ensures Inv(cfg, Run(cfg, s, events))
    decreases |events|
  {
    if events != [] {
      StepKeeps(cfg, s, events[0]);
      RunKeeps(cfg, Next(cfg, s, events[0]), events[1..]);
    }
  }

  // The end of a run from the start, of any workers and operators.
  ghost predicate Reachable(cfg: Config, s: State) {
    exists workers, operators :: Runs.Reachable(StepOf(cfg), Init(workers, operators), s)
  }

  lemma ReachableInv(cfg: Config, s: State)
    requires Reachable(cfg, s)
    ensures Inv(cfg, s)
  {
    var workers, operators :| Runs.Reachable(StepOf(cfg), Init(workers, operators), s);
    var events :| Runs.Run(StepOf(cfg), Init(workers, operators), events) == s;
    RunKeeps(cfg, Init(workers, operators), events);
  }
}
