// What becomes of a dead letter, and how large a batch grows: every dead letter that is seen to be one is settled, a
// settlement that ends has come to every handler with open work, and no batch handles more events than its limit.
module OutboxSettlement {
  import opened Outbox
  import opened OutboxSafety
  import opened OutboxDelivery
  import opened OutboxReplays
  import Runs

  // Settled, or nothing to settle.
  ghost predicate Covered(s: State, e: EventId, h: Handler) {
    (e, HandlerKey(h)) in s.inbox || Settled(e, h) in s.log
  }

  ghost predicate CoversUpTo(cfg: Config, s: State, p: Phase) {
    Settles(p) ==> forall i :: 0 <= i < p.next && i < |cfg.handlers| && Relevant(cfg.handlers[i], p.row) ==>
      Covered(s, p.event, cfg.handlers[i])
  }

  ghost predicate WithinLimit(cfg: Config, worker: Worker) {
    && (worker.handled != [] ==> |worker.handled| <= cfg.limit)
    && (Holds(worker.phase) ==> |worker.handled| < cfg.limit)
  }

  ghost predicate WorkersOk(cfg: Config, s: State) {
    forall w <- s.workers :: CoversUpTo(cfg, s, s.workers[w].phase) && WithinLimit(cfg, s.workers[w])
  }

  lemma StaysCovered(cfg: Config, s: State, ev: Event, e: EventId, h: Handler)
    requires Covered(s, e, h)
    ensures Covered(Next(cfg, s, ev), e, h)
  {
    InboxGrows(cfg, s, ev);
    LogGrows(cfg, s, ev);
    if Settled(e, h) in s.log {
      var j :| 0 <= j < |s.log| && s.log[j] == Settled(e, h);
      assert Next(cfg, s, ev).log[j] == Next(cfg, s, ev).log[..|s.log|][j];
    }
  }

  lemma SamePhaseCovers(cfg: Config, s: State, ev: Event, p: Phase)
    requires CoversUpTo(cfg, s, p)
    ensures CoversUpTo(cfg, Next(cfg, s, ev), p)
  {
    if Settles(p) {
      forall i | 0 <= i < p.next && i < |cfg.handlers| && Relevant(cfg.handlers[i], p.row)
        ensures Covered(Next(cfg, s, ev), p.event, cfg.handlers[i])
      {
        StaysCovered(cfg, s, ev, p.event, cfg.handlers[i]);
      }
    }
  }

  lemma OthersStay(cfg: Config, s: State, ev: Event, v: WorkerId)
    requires v in s.workers && (ev.Arrive? || ByOperatorStep(ev) || ev.w != v)
    ensures v in Next(cfg, s, ev).workers && Next(cfg, s, ev).workers[v] == s.workers[v]
  {
  }

  lemma SettleStepCovers(cfg: Config, s: State, w: WorkerId, ev: Event)
    requires w in s.workers && CoversUpTo(cfg, s, s.workers[w].phase)
    ensures var t := NextSettle(cfg, s, w, ev); w in t.workers && CoversUpTo(cfg, t, t.workers[w].phase)
  {
    var p := s.workers[w].phase;
    var t := NextSettle(cfg, s, w, ev);
    if Settles(p) && t != s {
      forall i | 0 <= i < p.next && i < |cfg.handlers| && Relevant(cfg.handlers[i], p.row)
        ensures Covered(t, p.event, cfg.handlers[i])
      {
        assert Covered(s, p.event, cfg.handlers[i]);
      }
    }
  }

  lemma OwnStepCovers(cfg: Config, s: State, ev: Event)
    requires !ev.Arrive? && !ByOperatorStep(ev) && ev.w in s.workers && CoversUpTo(cfg, s, s.workers[ev.w].phase)
    ensures var t := Next(cfg, s, ev); ev.w in t.workers && CoversUpTo(cfg, t, t.workers[ev.w].phase)
  {
    if ev.CheckSettled? || ev.SettleReturns? || ev.SettleThrows? {
      SettleStepCovers(cfg, s, ev.w, ev);
    } else if !ev.Commit? && !ev.StartBatch? && !ev.Crash? {
      DispatchFrame(cfg, s, ev.w, ev);
    } else {
      SamePhaseCovers(cfg, s, ev, s.workers[ev.w].phase);
    }
  }

  lemma OwnStepWithinLimit(cfg: Config, s: State, ev: Event)
    requires !ev.Arrive? && !ByOperatorStep(ev) && ev.w in s.workers && WithinLimit(cfg, s.workers[ev.w])
    ensures var t := Next(cfg, s, ev); ev.w in t.workers && WithinLimit(cfg, t.workers[ev.w])
  {
  }

  lemma StepWorkersOk(cfg: Config, s: State, ev: Event)
    requires WorkersOk(cfg, s)
    ensures WorkersOk(cfg, Next(cfg, s, ev))
  {
    var t := Next(cfg, s, ev);
    forall v <- t.workers ensures CoversUpTo(cfg, t, t.workers[v].phase) && WithinLimit(cfg, t.workers[v]) {
      SameWorkerIds(cfg, s, ev);
      if ev.Arrive? || ByOperatorStep(ev) || ev.w != v {
        OthersStay(cfg, s, ev, v);
        SamePhaseCovers(cfg, s, ev, s.workers[v].phase);
      } else {
        OwnStepCovers(cfg, s, ev);
        OwnStepWithinLimit(cfg, s, ev);
      }
    }
  }

  lemma SameWorkerIds(cfg: Config, s: State, ev: Event)
    ensures Next(cfg, s, ev).workers.Keys == s.workers.Keys
  {
  }

  lemma {:induction false} RunWorkersOk(cfg: Config, s: State, events: seq<Event>)
    requires WorkersOk(cfg, s)
    ensures WorkersOk(cfg, Run(cfg, s, events))
    decreases |events|
  {
    if events != [] {
      StepWorkersOk(cfg, s, events[0]);
      RunWorkersOk(cfg, Next(cfg, s, events[0]), events[1..]);
    }
  }

  lemma ReachableWorkersOk(cfg: Config, s: State)
    requires Reachable(cfg, s)
    ensures WorkersOk(cfg, s)
  {
    var workers, operators :| Runs.Reachable(StepOf(cfg), Init(workers, operators), s);
    var events :| Runs.Run(StepOf(cfg), Init(workers, operators), events) == s;
    RunWorkersOk(cfg, Init(workers, operators), events);
  }

  // ---- main results ----

  // A batch handles at most as many events as its limit.
  lemma BatchStaysWithinLimit(cfg: Config, s: State, w: WorkerId)
    requires Reachable(cfg, s) && w in s.workers && s.workers[w].handled != []
    ensures |s.workers[w].handled| <= cfg.limit
  {
    ReachableWorkersOk(cfg, s);
  }

  // A commit that is answered hands the event to settlement exactly if it has set it aside, with the row as it then
  // is, from the first handler on; otherwise the worker goes on with its batch.
  lemma SetsAsideToSettle(cfg: Config, s: State, w: WorkerId)
    requires Reachable(cfg, s) && w in s.workers && (s.workers[w].phase.Delivered? || s.workers[w].phase.Failing?)
    ensures
      var e := s.workers[w].phase.event;
      var t := Next(cfg, s, Commit(w, true));
      && e in t.rows && w in t.workers && t.workers[w].handled == s.workers[w].handled + [e]
      && t.workers[w].phase == if t.rows[e].deadLettered then Settling(e, t.rows[e], 0, ReplayCount(s.log, e)) else Idle
  {
    ReachableInv(cfg, s);
    assert PhaseOk(cfg, s, w);
  }

  lemma FailureIsSeen(cfg: Config, s: State, e: Event)
    requires e.HandlerThrows? || e.StatementFails? || (e.RecordInbox? && !e.answered)
    requires e.w in s.workers && Next(cfg, s, e) != s
    ensures
      var t := Next(cfg, s, e);
      var p := s.workers[e.w].phase;
      Holds(p) && t.rows == s.rows && e.w in t.workers && t.workers[e.w].phase == Failing(p.event, p.row)
  {
  }

  lemma FailingIsCommitted(cfg: Config, s: State, w: WorkerId, answered: bool)
    requires w in s.workers && s.workers[w].phase.Failing? && s.workers[w].phase.event in s.rows
    ensures
      var t := Next(cfg, s, Commit(w, answered));
      var p := s.workers[w].phase;
      p.event in t.rows && t.rows[p.event] == AfterAttempt(cfg, p.row, false)
  {
  }

  // An attempt in which a handler, or a statement beside it, was seen to fail is committed as failed: a thrown handler,
  // a failed read, an inbox row whose answer is lost.
  lemma FailuresAreNotPublished(cfg: Config, s: State, e: Event, answered: bool)
    requires Reachable(cfg, s) && (e.HandlerThrows? || e.StatementFails? || (e.RecordInbox? && !e.answered))
    requires e.w in s.workers && Next(cfg, s, e) != s
    ensures
      var event := s.workers[e.w].phase.event;
      var t := Next(cfg, Next(cfg, s, e), Commit(e.w, answered));
      && event in s.rows && event in t.rows
      && !t.rows[event].published && t.rows[event].attempts == s.rows[event].attempts + 1
  {
    ReachableInv(cfg, s);
    assert PhaseOk(cfg, s, e.w);
    FailureIsSeen(cfg, s, e);
    FailingIsCommitted(cfg, Next(cfg, s, e), e.w, answered);
  }

  // A settlement ends only when every handler with work on the event was settled or has its inbox row.
  lemma SettlementComesToAll(cfg: Config, s: State, w: WorkerId, h: Handler)
    requires Reachable(cfg, s) && w in s.workers && s.workers[w].phase.Settling?
    requires Next(cfg, s, CheckSettled(w)).workers[w].phase.Idle?
    requires h in cfg.handlers && Relevant(h, s.workers[w].phase.row)
    ensures Covered(s, s.workers[w].phase.event, h)
  {
    ReachableWorkersOk(cfg, s);
    var i :| 0 <= i < |cfg.handlers| && cfg.handlers[i] == h;
  }
}
