// Main results about the outbox: what a published event and an inbox row mean, who may send an event, when it
// is set aside, how often a handler can complete for it, and what settling a dead letter can rely on: without
// operators nothing is replayed, and a lone worker records nothing while it settles.
module OutboxDelivery {
  import opened Outbox
  import opened OutboxSafety

  // A published event has an inbox row for every handler that accepts it and is not skipped.
  lemma PublishedIsDelivered(cfg: Config, s: State, e: EventId, h: Handler)
    requires Reachable(cfg, s) && e in s.rows && s.rows[e].published
    requires h in cfg.handlers && Relevant(h, s.rows[e])
    ensures (e, HandlerKey(h)) in s.inbox
  {
    ReachableInv(cfg, s);
    assert RowOk(cfg, s, e);
  }

  // An inbox row means its handler completed for that event.
  lemma InboxMeansCompleted(cfg: Config, s: State, e: EventId, h: Handler)
    requires Reachable(cfg, s) && ValidConfig(cfg)
    requires h in cfg.handlers && (e, HandlerKey(h)) in s.inbox
    ensures Completed(e, h) in s.log
  {
    ReachableInv(cfg, s);
    assert InboxOk(cfg, s, e, HandlerKey(h));
    var i :| 0 <= i < |cfg.handlers|
      && HandlerKey(cfg.handlers[i]) == HandlerKey(h) && Completed(e, cfg.handlers[i]) in s.log;
    var j :| 0 <= j < |cfg.handlers| && cfg.handlers[j] == h;
    assert i == j;
  }

  // No two workers are sending one event, and none is sending an event a replay has locked.
  lemma OneHolder(cfg: Config, s: State, v: WorkerId, w: WorkerId)
    requires Reachable(cfg, s) && v in s.workers && w in s.workers
    requires Holds(s.workers[v].phase) && Holds(s.workers[w].phase)
    requires s.workers[v].phase.event == s.workers[w].phase.event
    ensures v == w
    ensures forall o <- s.operators :: s.operators[o].Replaying? ==> s.workers[w].phase.event !in s.operators[o].updated
  {
    ReachableInv(cfg, s);
    assert PhaseOk(cfg, s, v) && PhaseOk(cfg, s, w);
    forall o | o in s.operators && s.operators[o].Replaying?
      ensures s.workers[w].phase.event !in s.operators[o].updated
    {
      assert OperatorOk(s, o);
    }
  }

  // An unpublished event is set aside exactly when its attempts since the last replay reach the cap.
  lemma DeadLetterIff(cfg: Config, s: State, e: EventId)
    requires Reachable(cfg, s) && e in s.rows && !s.rows[e].published
    ensures s.rows[e].deadLettered <==> AttemptsSince(s.log, e) >= 1 && AttemptsSince(s.log, e) >= cfg.maxAttempts
    ensures AttemptsSince(s.log, e) == s.rows[e].attempts
  {
    ReachableInv(cfg, s);
    assert RowOk(cfg, s, e);
  }

  // One batch tries an event at most once.
  lemma OneTryPerBatch(cfg: Config, s: State, i: nat, j: nat)
    requires Reachable(cfg, s) && i < j < |s.log|
    requires s.log[i].Committed? && s.log[j].Committed?
    requires s.log[i].worker == s.log[j].worker && s.log[i].batch == s.log[j].batch
    ensures s.log[i].event != s.log[j].event
  {
    ReachableInv(cfg, s);
  }

  // ---- handlers never run again once recorded ----

  // At most one entry, not about a handler that starts or completes.
  ghost predicate NoHandlerEntry(before: seq<Entry>, after: seq<Entry>) {
    after == before || exists x: Entry :: after == before + [x] && !x.Started? && !x.Completed?
  }

  lemma OtherDispatch(cfg: Config, s: State, w: WorkerId, e: Event)
    requires w in s.workers && !e.CheckInbox? && !e.HandlerReturns?
    ensures NoHandlerEntry(s.log, NextDispatch(cfg, s, w, e).log)
  {
  }

  lemma OtherSteps(cfg: Config, s: State, w: WorkerId, e: Event)
    requires w in s.workers
    ensures NoHandlerEntry(s.log, NextSettle(cfg, s, w, e).log)
    ensures NoHandlerEntry(s.log, NextCrash(cfg, s, w).log)
  {
  }

  lemma CommitSteps(cfg: Config, s: State, w: WorkerId, answered: bool)
    requires w in s.workers
    ensures NoHandlerEntry(s.log, NextCommit(cfg, s, w, answered).log)
  {
  }

  lemma ReplaySteps(s: State, o: OperatorId, e: Event)
    requires o in s.operators
    ensures NoHandlerEntry(s.log, NextReplay(s, o, e).log)
  {
  }

  lemma OnlyTwoStepsRunHandlers(cfg: Config, s: State, e: Event)
    requires !e.CheckInbox? && !e.HandlerReturns?
    ensures NoHandlerEntry(s.log, Next(cfg, s, e).log)
  {
    if e.Arrive? {
    } else if ByOperatorStep(e) {
      if e.o in s.operators { ReplaySteps(s, e.o, e); }
    } else if e.w in s.workers {
      OtherDispatch(cfg, s, e.w, e);
      OtherSteps(cfg, s, e.w, e);
      if e.Commit? { CommitSteps(cfg, s, e.w, e.answered); }
    }
  }

  lemma NoEntryNoCount(before: seq<Entry>, after: seq<Entry>, e: EventId, h: Handler)
    requires NoHandlerEntry(before, after)
    ensures Tally(after, Started(e, h)) == Tally(before, Started(e, h))
    ensures Tally(after, Completed(e, h)) == Tally(before, Completed(e, h))
  {
    if after != before {
      var x: Entry :| after == before + [x] && !x.Started? && !x.Completed?;
      AppendTally(before, x, Started(e, h));
      AppendTally(before, x, Completed(e, h));
    }
  }

  lemma CheckIsQuiet(cfg: Config, s: State, w: WorkerId, event: EventId, h: Handler)
    requires w in s.workers && (event, HandlerKey(h)) in s.inbox
    ensures var log := NextDispatch(cfg, s, w, CheckInbox(w)).log;
      && Tally(log, Started(event, h)) == Tally(s.log, Started(event, h))
      && Tally(log, Completed(event, h)) == Tally(s.log, Completed(event, h))
  {
    var p := s.workers[w].phase;
    if p.Dispatching? && p.next < |cfg.handlers| {
      AppendTally(s.log, Started(p.event, cfg.handlers[p.next]), Started(event, h));
      AppendTally(s.log, Started(p.event, cfg.handlers[p.next]), Completed(event, h));
    }
  }

  lemma ReturnIsQuiet(cfg: Config, s: State, w: WorkerId, event: EventId, h: Handler)
    requires Inv(cfg, s) && w in s.workers && (event, HandlerKey(h)) in s.inbox
    ensures var log := NextDispatch(cfg, s, w, HandlerReturns(w)).log;
      && Tally(log, Started(event, h)) == Tally(s.log, Started(event, h))
      && Tally(log, Completed(event, h)) == Tally(s.log, Completed(event, h))
  {
    var p := s.workers[w].phase;
    assert PhaseOk(cfg, s, w);
    if p.Handling? && p.next < |cfg.handlers| {
      AppendTally(s.log, Completed(p.event, cfg.handlers[p.next]), Started(event, h));
      AppendTally(s.log, Completed(p.event, cfg.handlers[p.next]), Completed(event, h));
    }
  }

  lemma DispatchStep(cfg: Config, s: State, e: Event)
    requires e.CheckInbox? || e.HandlerReturns?
    ensures Next(cfg, s, e) == if e.w in s.workers then NextDispatch(cfg, s, e.w, e) else s
    ensures e == if e.CheckInbox? then CheckInbox(e.w) else HandlerReturns(e.w)
  {
  }

  lemma {:induction false} RecordedIsQuiet(cfg: Config, s: State, e: Event, event: EventId, h: Handler)
    requires Inv(cfg, s) && (event, HandlerKey(h)) in s.inbox
    ensures Tally(Next(cfg, s, e).log, Started(event, h)) == Tally(s.log, Started(event, h))
    ensures Tally(Next(cfg, s, e).log, Completed(event, h)) == Tally(s.log, Completed(event, h))
  {
    if e.CheckInbox? || e.HandlerReturns? {
      DispatchStep(cfg, s, e);
      if e.w in s.workers {
        if e.CheckInbox? { CheckIsQuiet(cfg, s, e.w, event, h); } else { ReturnIsQuiet(cfg, s, e.w, event, h); }
      }
    } else {
      OnlyTwoStepsRunHandlers(cfg, s, e);
      NoEntryNoCount(s.log, Next(cfg, s, e).log, event, h);
    }
  }

  lemma InboxGrows(cfg: Config, s: State, e: Event)
    ensures s.inbox <= Next(cfg, s, e).inbox
  {
  }

  // Once an event's inbox row exists, its handler neither starts nor completes for it again.
  lemma {:induction false} NeverRunsAgain(cfg: Config, s: State, events: seq<Event>, event: EventId, h: Handler)
    requires Inv(cfg, s) && (event, HandlerKey(h)) in s.inbox
    ensures (event, HandlerKey(h)) in Run(cfg, s, events).inbox
    ensures Tally(Run(cfg, s, events).log, Started(event, h)) == Tally(s.log, Started(event, h))
    ensures Tally(Run(cfg, s, events).log, Completed(event, h)) == Tally(s.log, Completed(event, h))
    decreases |events|
  {
    if events != [] {
      StepKeeps(cfg, s, events[0]);
      RecordedIsQuiet(cfg, s, events[0], event, h);
      InboxGrows(cfg, s, events[0]);
      NeverRunsAgain(cfg, Next(cfg, s, events[0]), events[1..], event, h);
    }
  }

  // ---- every completion is accounted for ----

  // A completed handler whose inbox row is still to be written.
  predicate Counts(cfg: Config, p: Phase, e: EventId, h: Handler) {
    p.Recording? && p.event == e && p.next < |cfg.handlers| && cfg.handlers[p.next] == h
  }

  function InFlight(cfg: Config, s: State, e: EventId, h: Handler): nat {
    if e in s.owner && s.owner[e].ByWorker? && s.owner[e].w in s.workers
      && Counts(cfg, s.workers[s.owner[e].w].phase, e, h)
    then 1 else 0
  }

  ghost predicate Accounted(cfg: Config, s: State, e: EventId, h: Handler) {
    Tally(s.log, Completed(e, h)) ==
      Tally(s.log, Unrecorded(e, h)) + InFlight(cfg, s, e, h) + if (e, HandlerKey(h)) in s.inbox then 1 else 0
  }

  lemma SameKeySameHandler(cfg: Config, g: Handler, h: Handler)
    requires ValidConfig(cfg) && g in cfg.handlers && h in cfg.handlers && HandlerKey(g) == HandlerKey(h)
    ensures g == h
  {
    var i :| 0 <= i < |cfg.handlers| && cfg.handlers[i] == g;
    var j :| 0 <= j < |cfg.handlers| && cfg.handlers[j] == h;
  }

  // Steps that leave completions, lost records, the inbox and every Recording worker alone.
  ghost predicate Untouched(cfg: Config, s: State, t: State, e: EventId, h: Handler) {
    && t.inbox == s.inbox && InFlight(cfg, t, e, h) == InFlight(cfg, s, e, h)
    && (t.log == s.log || exists x: Entry :: t.log == s.log + [x] && !x.Completed? && !x.Unrecorded?)
  }

  lemma UntouchedAccounts(cfg: Config, s: State, t: State, e: EventId, h: Handler)
    requires Accounted(cfg, s, e, h) && Untouched(cfg, s, t, e, h)
    ensures Accounted(cfg, t, e, h)
  {
    if t.log != s.log {
      var x: Entry :| t.log == s.log + [x] && !x.Completed? && !x.Unrecorded?;
      AppendTally(s.log, x, Completed(e, h));
      AppendTally(s.log, x, Unrecorded(e, h));
    }
  }

  lemma ClaimAccounts(cfg: Config, s: State, w: WorkerId, claimed: EventId, event: EventId, h: Handler)
    requires Inv(cfg, s) && Accounted(cfg, s, event, h) && w in s.workers
    ensures Accounted(cfg, NextDispatch(cfg, s, w, Claim(w, claimed)), event, h)
  {
    if event in s.owner { assert OwnerOk(s, event); }
    UntouchedAccounts(cfg, s, NextDispatch(cfg, s, w, Claim(w, claimed)), event, h);
  }

  lemma CheckAccounts(cfg: Config, s: State, w: WorkerId, event: EventId, h: Handler)
    requires Inv(cfg, s) && Accounted(cfg, s, event, h) && w in s.workers
    ensures Accounted(cfg, NextDispatch(cfg, s, w, CheckInbox(w)), event, h)
  {
    UntouchedAccounts(cfg, s, NextDispatch(cfg, s, w, CheckInbox(w)), event, h);
  }

  lemma CompletesThis(cfg: Config, s: State, w: WorkerId, event: EventId, h: Handler)
    requires Inv(cfg, s) && Accounted(cfg, s, event, h) && w in s.workers && s.workers[w].phase.Handling?
    requires var p := s.workers[w].phase; p.next < |cfg.handlers| && p.event == event && cfg.handlers[p.next] == h
    ensures Accounted(cfg, NextDispatch(cfg, s, w, HandlerReturns(w)), event, h)
  {
    assert PhaseOk(cfg, s, w);
    AppendTally(s.log, Completed(event, h), Completed(event, h));
    AppendTally(s.log, Completed(event, h), Unrecorded(event, h));
  }

  // Another worker's progress is not this one's.
  lemma FlightOfOther(cfg: Config, s: State, t: State, w: WorkerId, event: EventId, h: Handler)
    requires w in s.workers && w in t.workers && t.owner == s.owner && t.workers == s.workers[w := t.workers[w]]
    requires !Counts(cfg, s.workers[w].phase, event, h) && !Counts(cfg, t.workers[w].phase, event, h)
    ensures InFlight(cfg, t, event, h) == InFlight(cfg, s, event, h)
  {
  }

  lemma CompletesOther(cfg: Config, s: State, w: WorkerId, event: EventId, h: Handler)
    requires Accounted(cfg, s, event, h) && w in s.workers && s.workers[w].phase.Handling?
    requires var p := s.workers[w].phase; p.next < |cfg.handlers| && (p.event != event || cfg.handlers[p.next] != h)
    ensures Accounted(cfg, NextDispatch(cfg, s, w, HandlerReturns(w)), event, h)
  {
    var p := s.workers[w].phase;
    var t := SetPhase(Log(s, Completed(p.event, cfg.handlers[p.next])), w, Recording(p.event, p.row, p.next));
    assert NextDispatch(cfg, s, w, HandlerReturns(w)) == t;
    FlightOfOther(cfg, s, t, w, event, h);
    AppendTally(s.log, Completed(p.event, cfg.handlers[p.next]), Completed(event, h));
    AppendTally(s.log, Completed(p.event, cfg.handlers[p.next]), Unrecorded(event, h));
  }

  lemma ReturnAccounts(cfg: Config, s: State, w: WorkerId, event: EventId, h: Handler)
    requires Inv(cfg, s) && Accounted(cfg, s, event, h) && w in s.workers
    ensures Accounted(cfg, NextDispatch(cfg, s, w, HandlerReturns(w)), event, h)
  {
    var p := s.workers[w].phase;
    if p.Handling? && p.next < |cfg.handlers| {
      if p.event == event && cfg.handlers[p.next] == h { CompletesThis(cfg, s, w, event, h); }
      else { CompletesOther(cfg, s, w, event, h); }
    }
  }

  // The inbox row of this very completion is written.
  lemma RecordsThis(cfg: Config, s: State, w: WorkerId, answered: bool, event: EventId, h: Handler)
    requires Inv(cfg, s) && Accounted(cfg, s, event, h) && w in s.workers && s.workers[w].phase.Recording?
    requires var p := s.workers[w].phase; p.next < |cfg.handlers| && p.event == event && cfg.handlers[p.next] == h
    ensures Accounted(cfg, NextDispatch(cfg, s, w, RecordInbox(w, answered)), event, h)
  {
    assert PhaseOk(cfg, s, w);
  }

  // Another event's, or another handler's.
  lemma RecordsOther(cfg: Config, s: State, w: WorkerId, answered: bool, event: EventId, h: Handler)
    requires Inv(cfg, s) && Accounted(cfg, s, event, h) && w in s.workers && s.workers[w].phase.Recording?
    requires var p := s.workers[w].phase;
      p.next < |cfg.handlers| && (p.event != event || HandlerKey(cfg.handlers[p.next]) != HandlerKey(h))
    ensures Accounted(cfg, NextDispatch(cfg, s, w, RecordInbox(w, answered)), event, h)
  {
    var t := NextDispatch(cfg, s, w, RecordInbox(w, answered));
    assert (event, HandlerKey(h)) in t.inbox <==> (event, HandlerKey(h)) in s.inbox;
    FlightOfOther(cfg, s, t, w, event, h);
  }

  lemma RecordAccounts(cfg: Config, s: State, w: WorkerId, answered: bool, event: EventId, h: Handler)
    requires Inv(cfg, s) && ValidConfig(cfg) && h in cfg.handlers && Accounted(cfg, s, event, h) && w in s.workers
    ensures Accounted(cfg, NextDispatch(cfg, s, w, RecordInbox(w, answered)), event, h)
  {
    var p := s.workers[w].phase;
    if p.Recording? && p.next < |cfg.handlers| {
      if p.event == event && HandlerKey(cfg.handlers[p.next]) == HandlerKey(h) {
        SameKeySameHandler(cfg, cfg.handlers[p.next], h);
        RecordsThis(cfg, s, w, answered, event, h);
      } else {
        RecordsOther(cfg, s, w, answered, event, h);
      }
    }
  }

  lemma ThrowAccounts(cfg: Config, s: State, w: WorkerId, event: EventId, h: Handler)
    requires Inv(cfg, s) && Accounted(cfg, s, event, h) && w in s.workers
    ensures Accounted(cfg, NextDispatch(cfg, s, w, HandlerThrows(w)), event, h)
  {
    UntouchedAccounts(cfg, s, NextDispatch(cfg, s, w, HandlerThrows(w)), event, h);
  }

  // A worker that stops before the inbox row is written leaves an unrecorded completion.
  lemma LostRecord(cfg: Config, s: State, t: State, w: WorkerId, event: EventId, h: Handler)
    requires Inv(cfg, s) && Accounted(cfg, s, event, h) && w in s.workers && s.workers[w].phase.Recording?
    requires var p := s.workers[w].phase;
      && t.log == s.log + [Unrecorded(p.event, cfg.handlers[p.next])] && t.inbox == s.inbox
      && InFlight(cfg, t, p.event, h) == 0
      && (event != p.event ==> InFlight(cfg, t, event, h) == InFlight(cfg, s, event, h))
    ensures Accounted(cfg, t, event, h)
  {
    var p := s.workers[w].phase;
    assert PhaseOk(cfg, s, w);
    AppendTally(s.log, Unrecorded(p.event, cfg.handlers[p.next]), Completed(event, h));
    AppendTally(s.log, Unrecorded(p.event, cfg.handlers[p.next]), Unrecorded(event, h));
  }

  lemma StatementFailsAccounts(cfg: Config, s: State, w: WorkerId, event: EventId, h: Handler)
    requires Inv(cfg, s) && Accounted(cfg, s, event, h) && w in s.workers
    ensures Accounted(cfg, NextDispatch(cfg, s, w, StatementFails(w)), event, h)
  {
    var t := NextDispatch(cfg, s, w, StatementFails(w));
    assert PhaseOk(cfg, s, w);
    if s.workers[w].phase.Recording? {
      LostRecord(cfg, s, t, w, event, h);
    } else {
      UntouchedAccounts(cfg, s, t, event, h);
    }
  }

  lemma CrashLoses(cfg: Config, s: State, w: WorkerId, event: EventId, h: Handler)
    requires Inv(cfg, s) && Accounted(cfg, s, event, h) && w in s.workers && s.workers[w].phase.Recording?
    ensures Accounted(cfg, NextCrash(cfg, s, w), event, h)
  {
    var t := NextCrash(cfg, s, w);
    assert PhaseOk(cfg, s, w);
    if event in s.owner { assert OwnerOk(s, event); }
    LostRecord(cfg, s, t, w, event, h);
  }

  lemma CrashAccounts(cfg: Config, s: State, w: WorkerId, event: EventId, h: Handler)
    requires Inv(cfg, s) && Accounted(cfg, s, event, h) && w in s.workers
    ensures Accounted(cfg, NextCrash(cfg, s, w), event, h)
  {
    if s.workers[w].phase.Recording? {
      CrashLoses(cfg, s, w, event, h);
    } else {
      assert PhaseOk(cfg, s, w);
      if event in s.owner { assert OwnerOk(s, event); }
      UntouchedAccounts(cfg, s, NextCrash(cfg, s, w), event, h);
    }
  }

  lemma CommitAccounts(cfg: Config, s: State, w: WorkerId, answered: bool, event: EventId, h: Handler)
    requires Inv(cfg, s) && Accounted(cfg, s, event, h) && w in s.workers
    ensures Accounted(cfg, NextCommit(cfg, s, w, answered), event, h)
  {
    assert PhaseOk(cfg, s, w);
    if event in s.owner { assert OwnerOk(s, event); }
    UntouchedAccounts(cfg, s, NextCommit(cfg, s, w, answered), event, h);
  }

  // Only worker `w` changes, and it holds no row before or after.
  lemma IdleAccounts(cfg: Config, s: State, t: State, w: WorkerId, event: EventId, h: Handler)
    requires Inv(cfg, s) && Accounted(cfg, s, event, h) && w in s.workers && !Holds(s.workers[w].phase)
    requires t.owner == s.owner && t.inbox == s.inbox && w in t.workers && t.workers == s.workers[w := t.workers[w]]
    requires !Holds(t.workers[w].phase)
    requires t.log == s.log || exists x: Entry :: t.log == s.log + [x] && !x.Completed? && !x.Unrecorded?
    ensures Accounted(cfg, t, event, h)
  {
    if event in s.owner { assert OwnerOk(s, event); }
    UntouchedAccounts(cfg, s, t, event, h);
  }

  lemma SettleFrame(cfg: Config, s: State, w: WorkerId, e: Event)
    requires w in s.workers && NextSettle(cfg, s, w, e) != s
    ensures var t := NextSettle(cfg, s, w, e);
      && t.owner == s.owner && t.inbox == s.inbox && w in t.workers && t.workers == s.workers[w := t.workers[w]]
      && !Holds(s.workers[w].phase) && !Holds(t.workers[w].phase)
      && (t.log == s.log || exists x: Entry :: t.log == s.log + [x] && !x.Completed? && !x.Unrecorded?)
  {
  }

  lemma SettleAccounts(cfg: Config, s: State, w: WorkerId, e: Event, event: EventId, h: Handler)
    requires Inv(cfg, s) && Accounted(cfg, s, event, h) && w in s.workers
    ensures Accounted(cfg, NextSettle(cfg, s, w, e), event, h)
  {
    var t := NextSettle(cfg, s, w, e);
    if t != s {
      SettleFrame(cfg, s, w, e);
      IdleAccounts(cfg, s, t, w, event, h);
    }
  }

  lemma ReplayAccounts(cfg: Config, s: State, o: OperatorId, e: Event, event: EventId, h: Handler)
    requires Inv(cfg, s) && Accounted(cfg, s, event, h) && o in s.operators
    ensures Accounted(cfg, NextReplay(s, o, e), event, h)
  {
    assert OperatorOk(s, o);
    if event in s.owner { assert OwnerOk(s, event); }
    UntouchedAccounts(cfg, s, NextReplay(s, o, e), event, h);
  }

  predicate Dispatches(e: Event) {
    e.Claim? || e.CheckInbox? || e.HandlerReturns? || e.RecordInbox? || e.HandlerThrows? || e.StatementFails?
  }

  lemma DispatchAccounts(cfg: Config, s: State, e: Event, event: EventId, h: Handler)
    requires Inv(cfg, s) && ValidConfig(cfg) && h in cfg.handlers && Accounted(cfg, s, event, h)
    requires Dispatches(e) && e.w in s.workers
    ensures Accounted(cfg, Next(cfg, s, e), event, h)
  {
    match e
    case Claim(w, claimed) => ClaimAccounts(cfg, s, w, claimed, event, h);
    case CheckInbox(w) => CheckAccounts(cfg, s, w, event, h);
    case HandlerReturns(w) => ReturnAccounts(cfg, s, w, event, h);
    case RecordInbox(w, answered) => RecordAccounts(cfg, s, w, answered, event, h);
    case HandlerThrows(w) => ThrowAccounts(cfg, s, w, event, h);
    case StatementFails(w) => StatementFailsAccounts(cfg, s, w, event, h);
  }

  lemma StepAccounts(cfg: Config, s: State, e: Event, event: EventId, h: Handler)
    requires Inv(cfg, s) && ValidConfig(cfg) && h in cfg.handlers && Accounted(cfg, s, event, h)
    ensures Accounted(cfg, Next(cfg, s, e), event, h)
  {
    if e.Arrive? {
      UntouchedAccounts(cfg, s, Next(cfg, s, e), event, h);
    } else if ByOperatorStep(e) {
      if e.o in s.operators { ReplayAccounts(cfg, s, e.o, e, event, h); }
    } else if e.w in s.workers {
      if Dispatches(e) { DispatchAccounts(cfg, s, e, event, h); }
      else if e.Commit? { CommitAccounts(cfg, s, e.w, e.answered, event, h); }
      else if e.Crash? { CrashAccounts(cfg, s, e.w, event, h); }
      else if e.StartBatch? {
        if s.workers[e.w].phase.Idle? { IdleAccounts(cfg, s, FreshBatch(s, e.w), e.w, event, h); }
      } else {
        SettleAccounts(cfg, s, e.w, e, event, h);
      }
    }
  }

  // A handler completes for an event once, plus once for every time its worker stopped before the
  // inbox row was written. Delivery repeats for no other reason.
  lemma {:induction false} CompletionsAccounted(cfg: Config, s: State, events: seq<Event>, event: EventId, h: Handler)
    requires Inv(cfg, s) && ValidConfig(cfg) && h in cfg.handlers && Accounted(cfg, s, event, h)
    ensures Accounted(cfg, Run(cfg, s, events), event, h)
    decreases |events|
  {
    if events != [] {
      StepKeeps(cfg, s, events[0]);
      StepAccounts(cfg, s, events[0], event, h);
      CompletionsAccounted(cfg, Next(cfg, s, events[0]), events[1..], event, h);
    }
  }

  lemma RunsOncePerLostRecord(cfg: Config, workers: set<WorkerId>, operators: set<OperatorId>, events: seq<Event>,
                              event: EventId, h: Handler)
    requires ValidConfig(cfg) && h in cfg.handlers
    ensures var log := Run(cfg, Init(workers, operators), events).log;
      Tally(log, Completed(event, h)) <= Tally(log, Unrecorded(event, h)) + 1
  {
    var s := Init(workers, operators);
    CompletionsAccounted(cfg, s, events, event, h);
    RunKeeps(cfg, s, events);
    var t := Run(cfg, s, events);
    if InFlight(cfg, t, event, h) == 1 {
      var w := t.owner[event].w;
      assert PhaseOk(cfg, t, w);
    }
  }

  // ---- settling a dead letter ----

  // The handler being settled has no inbox row, unless the event was replayed since it was set aside.
  lemma SettlesOnlyWhatIsOpen(cfg: Config, s: State, w: WorkerId)
    requires Inv(cfg, s) && w in s.workers && s.workers[w].phase.Calling?
    requires ReplayCount(s.log, s.workers[w].phase.event) == s.workers[w].phase.replays
    ensures var p := s.workers[w].phase;
      && p.event in s.rows && s.rows[p.event].deadLettered
      && p.next < |cfg.handlers| && (p.event, HandlerKey(cfg.handlers[p.next])) !in s.inbox
  {
    assert PhaseOk(cfg, s, w);
  }

  // No handler that is being settled has its inbox row.
  ghost predicate SettlesOpenWork(cfg: Config, s: State) {
    forall w <- s.workers :: s.workers[w].phase.Calling? ==>
      var p := s.workers[w].phase;
      p.next < |cfg.handlers| && (p.event, HandlerKey(cfg.handlers[p.next])) !in s.inbox
  }

  // ---- without operators nothing is replayed ----

  ghost predicate NoReplays(s: State) {
    s.operators == map[] && forall x <- s.log :: !x.Replayed?
  }

  lemma {:induction false} NothingReplayed(log: seq<Entry>, e: EventId)
    requires forall x <- log :: !x.Replayed?
    ensures ReplayCount(log, e) == 0
    decreases |log|
  {
    if log != [] {
      assert log[|log| - 1] in log;
      NothingReplayed(log[..|log| - 1], e);
    }
  }

  lemma StepNoReplays(cfg: Config, s: State, e: Event)
    requires NoReplays(s)
    ensures NoReplays(Next(cfg, s, e))
  {
  }

  lemma {:induction false} RunNoReplays(cfg: Config, s: State, events: seq<Event>)
    requires NoReplays(s)
    ensures NoReplays(Run(cfg, s, events))
    decreases |events|
  {
    if events != [] {
      StepNoReplays(cfg, s, events[0]);
      RunNoReplays(cfg, Next(cfg, s, events[0]), events[1..]);
    }
  }

  lemma NoOperatorSettlesOpen(cfg: Config, workers: set<WorkerId>, events: seq<Event>)
    ensures SettlesOpenWork(cfg, Run(cfg, Init(workers, {}), events))
  {
    var s := Run(cfg, Init(workers, {}), events);
    RunKeeps(cfg, Init(workers, {}), events);
    RunNoReplays(cfg, Init(workers, {}), events);
    forall w | w in s.workers && s.workers[w].phase.Calling?
      ensures var p := s.workers[w].phase;
        p.next < |cfg.handlers| && (p.event, HandlerKey(cfg.handlers[p.next])) !in s.inbox
    {
      assert PhaseOk(cfg, s, w);
      NothingReplayed(s.log, s.workers[w].phase.event);
      SettlesOnlyWhatIsOpen(cfg, s, w);
    }
  }

  // ---- a lone worker records nothing while it settles ----

  ghost predicate Alone(s: State) { forall v, w :: v in s.workers && w in s.workers ==> v == w }

  lemma LoneDispatch(cfg: Config, s: State, w: WorkerId, e: Event)
    requires Alone(s) && SettlesOpenWork(cfg, s) && w in s.workers
    ensures Alone(NextDispatch(cfg, s, w, e)) && SettlesOpenWork(cfg, NextDispatch(cfg, s, w, e))
  {
  }

  lemma LoneCommit(cfg: Config, s: State, w: WorkerId, answered: bool)
    requires Alone(s) && SettlesOpenWork(cfg, s) && w in s.workers
    ensures Alone(NextCommit(cfg, s, w, answered)) && SettlesOpenWork(cfg, NextCommit(cfg, s, w, answered))
  {
  }

  lemma LoneSettle(cfg: Config, s: State, w: WorkerId, e: Event)
    requires Alone(s) && SettlesOpenWork(cfg, s) && w in s.workers
    ensures Alone(NextSettle(cfg, s, w, e)) && SettlesOpenWork(cfg, NextSettle(cfg, s, w, e))
  {
  }

  lemma LoneReplay(cfg: Config, s: State, o: OperatorId, e: Event)
    requires Alone(s) && SettlesOpenWork(cfg, s) && o in s.operators
    ensures Alone(NextReplay(s, o, e)) && SettlesOpenWork(cfg, NextReplay(s, o, e))
  {
  }

  // The lone worker, fresh.
  lemma LoneFresh(cfg: Config, s: State, t: State, w: WorkerId)
    requires Alone(s) && w in s.workers && t.workers == s.workers[w := Worker(Idle, [], s.workers[w].batch + 1)]
    ensures Alone(t) && SettlesOpenWork(cfg, t)
  {
  }

  lemma LoneWorker(cfg: Config, s: State, e: Event)
    requires Alone(s) && SettlesOpenWork(cfg, s) && !e.Arrive? && !ByOperatorStep(e) && e.w in s.workers
    ensures Alone(Next(cfg, s, e)) && SettlesOpenWork(cfg, Next(cfg, s, e))
  {
    if e.StartBatch? { LoneFresh(cfg, s, FreshBatch(s, e.w), e.w); }
    else if e.Commit? { LoneCommit(cfg, s, e.w, e.answered); }
    else if e.CheckSettled? || e.SettleReturns? || e.SettleThrows? { LoneSettle(cfg, s, e.w, e); }
    else if e.Crash? { LoneFresh(cfg, s, NextCrash(cfg, s, e.w), e.w); }
    else { LoneDispatch(cfg, s, e.w, e); }
  }

  lemma LoneStep(cfg: Config, s: State, e: Event)
    requires Alone(s) && SettlesOpenWork(cfg, s)
    ensures Alone(Next(cfg, s, e)) && SettlesOpenWork(cfg, Next(cfg, s, e))
  {
    if e.Arrive? {
    } else if ByOperatorStep(e) {
      if e.o in s.operators { LoneReplay(cfg, s, e.o, e); }
    } else if e.w in s.workers {
      LoneWorker(cfg, s, e);
    }
  }

  lemma {:induction false} LoneRun(cfg: Config, s: State, events: seq<Event>)
    requires Alone(s) && SettlesOpenWork(cfg, s)
    ensures SettlesOpenWork(cfg, Run(cfg, s, events))
    decreases |events|
  {
    if events != [] {
      LoneStep(cfg, s, events[0]);
      LoneRun(cfg, Next(cfg, s, events[0]), events[1..]);
    }
  }
}
