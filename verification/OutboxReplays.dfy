// What a replay's skip list does: until the event's next replay, no handler on the list starts or completes for it.
// Settling an older dead letter does not know the list, and the exact condition under which it still meets it is here.
module OutboxReplays {
  import opened Outbox
  import opened OutboxSafety
  import Runs

  // The list given with the event's last replay.
  function SkipOf(log: seq<Entry>, e: EventId): set<string> {
    if log == [] then {}
    else
      var last := log[|log| - 1];
      if last.Replayed? && e in last.events then last.skip else SkipOf(log[..|log| - 1], e)
  }

  // Some attempt at the event was committed while the handler was not on its list.
  ghost predicate TriedUnskipped(log: seq<Entry>, e: EventId, name: string) {
    exists c :: 0 <= c < |log| && log[c].Committed? && log[c].event == e && name !in SkipOf(log[..c], e)
  }

  // What may be added to this history.
  ghost predicate EntryOk(log: seq<Entry>, x: Entry) {
    match x
    case Started(e, h) => h.name !in SkipOf(log, e)
    case Completed(e, h) => h.name !in SkipOf(log, e)
    case Settled(e, h) => TriedUnskipped(log, e, h.name)
    case _ => true
  }

  ghost predicate LogOk(log: seq<Entry>) {
    forall j :: 0 <= j < |log| ==> EntryOk(log[..j], log[j])
  }

  predicate Settles(p: Phase) { p.Settling? || p.Calling? }

  ghost predicate SettlerOk(cfg: Config, log: seq<Entry>, p: Phase) {
    Settles(p) ==>
      && (exists c :: 0 <= c < |log| && log[c].Committed? && log[c].event == p.event
            && SkipOf(log[..c], p.event) == p.row.skip)
      && (p.Calling? && p.next < |cfg.handlers| ==> Relevant(cfg.handlers[p.next], p.row))
  }

  ghost predicate SkipsOk(cfg: Config, s: State) {
    && (forall e :: SkipOf(s.log, e) == if e in s.rows then s.rows[e].skip else {})
    && LogOk(s.log)
    && forall w <- s.workers :: SettlerOk(cfg, s.log, s.workers[w].phase)
  }

  lemma AppendSkip(log: seq<Entry>, x: Entry, e: EventId)
    ensures SkipOf(log + [x], e) == if x.Replayed? && e in x.events then x.skip else SkipOf(log, e)
  {
    assert (log + [x])[..|log|] == log;
  }

  lemma AppendOk(log: seq<Entry>, x: Entry)
    requires LogOk(log) && EntryOk(log, x)
    ensures LogOk(log + [x])
  {
    forall j | 0 <= j < |log + [x]| ensures EntryOk((log + [x])[..j], (log + [x])[j]) {
      assert (log + [x])[..j] == log[..j];
      assert log[..|log|] == log;
    }
  }

  lemma SettlerStays(cfg: Config, log: seq<Entry>, x: Entry, p: Phase)
    requires SettlerOk(cfg, log, p)
    ensures SettlerOk(cfg, log + [x], p)
  {
    if Settles(p) {
      var c :| 0 <= c < |log| && log[c].Committed? && log[c].event == p.event
        && SkipOf(log[..c], p.event) == p.row.skip;
      assert (log + [x])[..c] == log[..c] && (log + [x])[c] == log[c];
    }
  }

  // At most one entry is added, the lists change only by a replay, and at most worker `w` starts or goes on settling.
  ghost predicate OneEntry(cfg: Config, s: State, t: State, w: WorkerId) {
    && (t.log == s.log || exists x: Entry :: t.log == s.log + [x] && !x.Replayed? && EntryOk(s.log, x))
    && (forall e :: (if e in t.rows then t.rows[e].skip else {}) == (if e in s.rows then s.rows[e].skip else {}))
    && t.workers.Keys == s.workers.Keys && forall v <- s.workers :: v != w ==> t.workers[v] == s.workers[v]
  }

  lemma OneEntryKeeps(cfg: Config, s: State, t: State, w: WorkerId)
    requires SkipsOk(cfg, s) && OneEntry(cfg, s, t, w)
    requires w in t.workers ==> SettlerOk(cfg, t.log, t.workers[w].phase)
    ensures SkipsOk(cfg, t)
  {
    if t.log != s.log {
      var x: Entry :| t.log == s.log + [x] && !x.Replayed? && EntryOk(s.log, x);
      AppendOk(s.log, x);
      forall e ensures SkipOf(t.log, e) == SkipOf(s.log, e) { AppendSkip(s.log, x, e); }
      forall v <- t.workers ensures SettlerOk(cfg, t.log, t.workers[v].phase) {
        if v != w { SettlerStays(cfg, s.log, x, s.workers[v].phase); }
      }
    }
  }

  // A step of the worker that holds an event: the row it holds is the row, so it runs nothing that is skipped.
  lemma DispatchEntry(cfg: Config, s: State, w: WorkerId, e: Event)
    requires w in s.workers && PhaseOk(cfg, s, w) && SkipsOk(cfg, s)
    ensures
      var t := NextDispatch(cfg, s, w, e);
      t.log == s.log || exists x: Entry :: t.log == s.log + [x] && !x.Replayed? && EntryOk(s.log, x)
  {
    var p := s.workers[w].phase;
    var t := NextDispatch(cfg, s, w, e);
    if t.log != s.log {
      var x := if e.CheckInbox? then Started(p.event, cfg.handlers[p.next])
        else if e.HandlerReturns? then Completed(p.event, cfg.handlers[p.next])
        else Unrecorded(p.event, cfg.handlers[p.next]);
      assert SkipOf(s.log, p.event) == p.row.skip;
      assert EntryOk(s.log, x);
      assert t.log == s.log + [x];
    }
  }

  lemma DispatchFrame(cfg: Config, s: State, w: WorkerId, e: Event)
    requires w in s.workers
    ensures
      var t := NextDispatch(cfg, s, w, e);
      && t.rows == s.rows && t.workers.Keys == s.workers.Keys
      && (forall v <- s.workers :: v != w ==> t.workers[v] == s.workers[v])
      && (Settles(t.workers[w].phase) ==> t == s)
  {
  }

  lemma DispatchSkips(cfg: Config, s: State, w: WorkerId, e: Event)
    requires w in s.workers && PhaseOk(cfg, s, w) && SkipsOk(cfg, s)
    ensures SkipsOk(cfg, NextDispatch(cfg, s, w, e))
  {
    DispatchEntry(cfg, s, w, e);
    DispatchFrame(cfg, s, w, e);
    OneEntryKeeps(cfg, s, NextDispatch(cfg, s, w, e), w);
  }

  lemma CommitFrame(cfg: Config, s: State, w: WorkerId, answered: bool)
    requires w in s.workers && PhaseOk(cfg, s, w) && NextCommit(cfg, s, w, answered) != s
    ensures OneEntry(cfg, s, NextCommit(cfg, s, w, answered), w)
    ensures
      var t := NextCommit(cfg, s, w, answered);
      var p, q := s.workers[w].phase, t.workers[w].phase;
      && t.log == s.log + [Committed(w, s.workers[w].batch, p.event)] && p.event in s.rows && s.rows[p.event] == p.row
      && !q.Calling? && (q.Settling? ==> q.event == p.event && q.row.skip == p.row.skip)
  {
    var t := NextCommit(cfg, s, w, answered);
    assert t.log == s.log + [Committed(w, s.workers[w].batch, s.workers[w].phase.event)];
  }

  // A dead letter is settled with the row it was set aside with.
  lemma CommitSkips(cfg: Config, s: State, w: WorkerId, answered: bool)
    requires w in s.workers && PhaseOk(cfg, s, w) && SkipsOk(cfg, s)
    ensures SkipsOk(cfg, NextCommit(cfg, s, w, answered))
  {
    var t := NextCommit(cfg, s, w, answered);
    if t != s {
      CommitFrame(cfg, s, w, answered);
      assert t.log[..|s.log|] == s.log && t.log[|s.log|].Committed?;
      OneEntryKeeps(cfg, s, t, w);
    }
  }

  // A settling worker that looks at the next handler.
  lemma LooksAtNext(cfg: Config, s: State, w: WorkerId) returns (q: Phase)
    requires w in s.workers && s.workers[w].phase.Settling?
    ensures NextSettle(cfg, s, w, CheckSettled(w)) == SetPhase(s, w, q)
    ensures
      var p := s.workers[w].phase;
      q.Idle? || (Settles(q) && q.event == p.event && q.row == p.row
                  && (q.Calling? && q.next < |cfg.handlers| ==> Relevant(cfg.handlers[q.next], p.row)))
  {
    q := NextSettle(cfg, s, w, CheckSettled(w)).workers[w].phase;
  }

  lemma PhaseSkips(cfg: Config, s: State, w: WorkerId, q: Phase)
    requires SkipsOk(cfg, s) && w in s.workers && SettlerOk(cfg, s.log, q)
    ensures SkipsOk(cfg, SetPhase(s, w, q))
  {
  }

  lemma CheckSettledSkips(cfg: Config, s: State, w: WorkerId)
    requires SkipsOk(cfg, s) && w in s.workers && s.workers[w].phase.Settling?
    ensures SkipsOk(cfg, NextSettle(cfg, s, w, CheckSettled(w)))
  {
    assert SettlerOk(cfg, s.log, s.workers[w].phase);
    var q := LooksAtNext(cfg, s, w);
    PhaseSkips(cfg, s, w, q);
  }

  lemma SettleReturnsSkips(cfg: Config, s: State, w: WorkerId)
    requires SkipsOk(cfg, s) && w in s.workers && s.workers[w].phase.Calling?
    requires s.workers[w].phase.next < |cfg.handlers|
    ensures SkipsOk(cfg, NextSettle(cfg, s, w, SettleReturns(w)))
  {
    var p := s.workers[w].phase;
    var x := Settled(p.event, cfg.handlers[p.next]);
    var t := SetPhase(Log(s, x), w, Settling(p.event, p.row, p.next + 1, p.replays));
    assert NextSettle(cfg, s, w, SettleReturns(w)) == t;
    assert SettlerOk(cfg, s.log, p);
    assert TriedUnskipped(s.log, p.event, cfg.handlers[p.next].name);
    SettlerStays(cfg, s.log, x, p);
    OneEntryKeeps(cfg, s, t, w);
  }

  lemma SettleSkips(cfg: Config, s: State, w: WorkerId, e: Event)
    requires SkipsOk(cfg, s) && w in s.workers
    ensures SkipsOk(cfg, NextSettle(cfg, s, w, e))
  {
    if e.SettleReturns? {
      if s.workers[w].phase.Calling? && s.workers[w].phase.next < |cfg.handlers| { SettleReturnsSkips(cfg, s, w); }
    } else if e.CheckSettled? {
      if s.workers[w].phase.Settling? { CheckSettledSkips(cfg, s, w); }
    } else if NextSettle(cfg, s, w, e) != s {
      OneEntryKeeps(cfg, s, NextSettle(cfg, s, w, e), w);
    }
  }

  lemma FreshSkips(cfg: Config, s: State, t: State, w: WorkerId)
    requires SkipsOk(cfg, s) && OneEntry(cfg, s, t, w) && w in t.workers && t.workers[w].phase.Idle?
    ensures SkipsOk(cfg, t)
  {
    OneEntryKeeps(cfg, s, t, w);
  }

  lemma ReplaySkips(cfg: Config, s: State, o: OperatorId, e: Event)
    requires Inv(cfg, s) && SkipsOk(cfg, s) && o in s.operators
    ensures SkipsOk(cfg, NextReplay(s, o, e))
  {
    var t := NextReplay(s, o, e);
    if e.CommitReplay? && s.operators[o].Replaying? {
      var x := Replayed(s.operators[o].updated, s.operators[o].skip);
      assert OperatorOk(s, o) && t.log == s.log + [x];
      AppendOk(s.log, x);
      forall k ensures SkipOf(t.log, k) == if k in t.rows then t.rows[k].skip else {} {
        AppendSkip(s.log, x, k);
        if k in x.events { assert OwnerOk(s, k); }
      }
      forall w <- t.workers ensures SettlerOk(cfg, t.log, t.workers[w].phase) {
        SettlerStays(cfg, s.log, x, s.workers[w].phase);
      }
    }
  }

  lemma CrashSkips(cfg: Config, s: State, w: WorkerId)
    requires SkipsOk(cfg, s) && w in s.workers
    ensures SkipsOk(cfg, NextCrash(cfg, s, w))
  {
    var p := s.workers[w].phase;
    var t := NextCrash(cfg, s, w);
    if p.Recording? && p.next < |cfg.handlers| {
      assert t.log == s.log + [Unrecorded(p.event, cfg.handlers[p.next])];
    } else {
      assert t.log == s.log;
    }
    FreshSkips(cfg, s, t, w);
  }

  lemma WorkerSkips(cfg: Config, s: State, e: Event)
    requires !e.Arrive? && !ByOperatorStep(e) && e.w in s.workers && PhaseOk(cfg, s, e.w) && SkipsOk(cfg, s)
    ensures SkipsOk(cfg, Next(cfg, s, e))
  {
    if e.StartBatch? {
      if s.workers[e.w].phase.Idle? { FreshSkips(cfg, s, FreshBatch(s, e.w), e.w); }
    } else if e.Crash? {
      CrashSkips(cfg, s, e.w);
    } else if e.Commit? {
      CommitSkips(cfg, s, e.w, e.answered);
    } else if e.CheckSettled? || e.SettleReturns? || e.SettleThrows? {
      SettleSkips(cfg, s, e.w, e);
    } else {
      DispatchSkips(cfg, s, e.w, e);
    }
  }

  lemma StepSkips(cfg: Config, s: State, e: Event)
    requires Inv(cfg, s) && SkipsOk(cfg, s)
    ensures SkipsOk(cfg, Next(cfg, s, e))
  {
    if e.Arrive? {
    } else if ByOperatorStep(e) {
      if e.o in s.operators { ReplaySkips(cfg, s, e.o, e); }
    } else if e.w in s.workers {
      WorkerSkips(cfg, s, e);
    }
  }

  lemma {:induction false} RunSkips(cfg: Config, s: State, events: seq<Event>)
    requires Inv(cfg, s) && SkipsOk(cfg, s)
    ensures SkipsOk(cfg, Run(cfg, s, events))
    decreases |events|
  {
    if events != [] {
      StepKeeps(cfg, s, events[0]);
      StepSkips(cfg, s, events[0]);
      RunSkips(cfg, Next(cfg, s, events[0]), events[1..]);
    }
  }

  lemma ReachableSkips(cfg: Config, s: State)
    requires Reachable(cfg, s)
    ensures SkipsOk(cfg, s)
  {
    var workers, operators :| Runs.Reachable(StepOf(cfg), Init(workers, operators), s);
    var events :| Runs.Run(StepOf(cfg), Init(workers, operators), events) == s;
    RunSkips(cfg, Init(workers, operators), events);
  }

  // ---- main results ----

  // A row carries the list its last replay gave, and while it does, no handler on the list starts or completes for
  // the event.
  lemma SkippedNeverRuns(cfg: Config, s: State, e: EventId, j: nat)
    requires Reachable(cfg, s)
    ensures SkipOf(s.log, e) == if e in s.rows then s.rows[e].skip else {}
    ensures j < |s.log| && (s.log[j].Started? || s.log[j].Completed?) ==>
      s.log[j].handler.name !in SkipOf(s.log[..j], s.log[j].event)
  {
    ReachableSkips(cfg, s);
    if j < |s.log| { assert EntryOk(s.log[..j], s.log[j]); }
  }

  // A committed replay puts its list on every row it locked, due again and with no attempt, and on no other row.
  lemma ReplayGivesItsList(cfg: Config, s: State, o: OperatorId, e: EventId)
    requires Reachable(cfg, s) && o in s.operators && s.operators[o].Replaying? && e in s.rows
    ensures
      var t := Next(cfg, s, CommitReplay(o));
      && e in t.rows
      && (e in s.operators[o].updated ==>
            && SkipOf(t.log, e) == t.rows[e].skip == s.operators[o].skip
            && Due(t.rows[e]) && t.rows[e].attempts == 0 && t.rows[e].eventType == s.rows[e].eventType)
      && (e !in s.operators[o].updated ==> t.rows[e] == s.rows[e])
  {
    ReachableInv(cfg, s);
    ReachableSkips(cfg, s);
    StepSkips(cfg, s, CommitReplay(o));
  }

  // A settled handler was not on the list when an attempt at the event was committed.
  lemma SettledWasTriedUnskipped(cfg: Config, s: State, j: nat)
    requires Reachable(cfg, s) && j < |s.log| && s.log[j].Settled?
    ensures TriedUnskipped(s.log[..j], s.log[j].event, s.log[j].handler.name)
  {
    ReachableSkips(cfg, s);
    assert EntryOk(s.log[..j], s.log[j]);
  }

  // ---- settling an older dead letter ----

  // The worker still has to come to the handler: it is calling it, or will find it open.
  predicate ComesTo(cfg: Config, inbox: set<(EventId, string)>, p: Phase, e: EventId, h: Handler) {
    Settles(p) && p.event == e &&
    exists i :: p.next <= i < |cfg.handlers| && cfg.handlers[i] == h
      && ((p.Calling? && i == p.next) || (Relevant(h, p.row) && (e, HandlerKey(h)) !in inbox))
  }

  ghost predicate SettlesLater(cfg: Config, s: State, e: EventId, h: Handler) {
    exists w :: w in s.workers && ComesTo(cfg, s.inbox, s.workers[w].phase, e, h)
  }

  // As long as nobody has to come to a skipped handler, nobody will, until the event is replayed again.
  ghost predicate Avoided(cfg: Config, s: State, e: EventId, h: Handler) {
    e in s.rows && h.name in s.rows[e].skip && !SettlesLater(cfg, s, e, h)
  }

  lemma NobodyComes(cfg: Config, s: State, t: State, w: WorkerId, e: EventId, h: Handler)
    requires !SettlesLater(cfg, s, e, h) && s.inbox <= t.inbox && t.workers.Keys == s.workers.Keys
    requires forall v <- s.workers :: v != w ==> t.workers[v].phase == s.workers[v].phase
    requires w in s.workers ==> !ComesTo(cfg, t.inbox, t.workers[w].phase, e, h)
    ensures !SettlesLater(cfg, t, e, h)
  {
    forall v | v in t.workers ensures !ComesTo(cfg, t.inbox, t.workers[v].phase, e, h) {
      if v != w { assert !ComesTo(cfg, s.inbox, s.workers[v].phase, e, h); }
    }
  }

  lemma AvoidedCommit(cfg: Config, s: State, w: WorkerId, answered: bool, e: EventId, h: Handler)
    requires Inv(cfg, s) && Avoided(cfg, s, e, h) && w in s.workers
    ensures Avoided(cfg, NextCommit(cfg, s, w, answered), e, h)
    ensures Tally(NextCommit(cfg, s, w, answered).log, Settled(e, h)) == Tally(s.log, Settled(e, h))
  {
    var t := NextCommit(cfg, s, w, answered);
    assert PhaseOk(cfg, s, w);
    if t != s {
      NobodyComes(cfg, s, t, w, e, h);
      AppendTally(s.log, Committed(w, s.workers[w].batch, s.workers[w].phase.event), Settled(e, h));
    }
  }

  lemma AvoidedSettle(cfg: Config, s: State, w: WorkerId, ev: Event, e: EventId, h: Handler)
    requires Avoided(cfg, s, e, h) && w in s.workers
    ensures Avoided(cfg, NextSettle(cfg, s, w, ev), e, h)
    ensures Tally(NextSettle(cfg, s, w, ev).log, Settled(e, h)) == Tally(s.log, Settled(e, h))
  {
    var t := NextSettle(cfg, s, w, ev);
    var p := s.workers[w].phase;
    assert !ComesTo(cfg, s.inbox, p, e, h);
    if t != s {
      if ev.SettleReturns? { AppendTally(s.log, Settled(p.event, cfg.handlers[p.next]), Settled(e, h)); }
      NobodyComes(cfg, s, t, w, e, h);
    }
  }

  lemma AvoidedDispatch(cfg: Config, s: State, w: WorkerId, ev: Event, e: EventId, h: Handler)
    requires Avoided(cfg, s, e, h) && w in s.workers
    ensures Avoided(cfg, NextDispatch(cfg, s, w, ev), e, h)
  {
    var t := NextDispatch(cfg, s, w, ev);
    assert !ComesTo(cfg, s.inbox, s.workers[w].phase, e, h);
    NobodyComes(cfg, s, t, w, e, h);
  }

  lemma NoSettledEntry(cfg: Config, s: State, ev: Event, x: Entry)
    requires x.Settled? && !ev.SettleReturns? && !ev.Commit? && !ev.CheckSettled? && !ev.SettleThrows?
    ensures Tally(Next(cfg, s, ev).log, x) == Tally(s.log, x)
  {
    var t := Next(cfg, s, ev);
    if t.log != s.log {
      var y := t.log[|t.log| - 1];
      assert t.log == s.log + [y];
      AppendTally(s.log, y, x);
    }
  }

  lemma AvoidedReplay(cfg: Config, s: State, o: OperatorId, ev: Event, e: EventId, h: Handler)
    requires Inv(cfg, s) && Avoided(cfg, s, e, h) && o in s.operators
    requires ReplayCount(NextReplay(s, o, ev).log, e) == ReplayCount(s.log, e)
    ensures Avoided(cfg, NextReplay(s, o, ev), e, h)
  {
    var t := NextReplay(s, o, ev);
    if ev.CommitReplay? && s.operators[o].Replaying? {
      Append(s.log, Replayed(s.operators[o].updated, s.operators[o].skip), e);
    }
    assert t.workers == s.workers && t.inbox == s.inbox;
    forall w | w in t.workers ensures !ComesTo(cfg, t.inbox, t.workers[w].phase, e, h) {
      assert !ComesTo(cfg, s.inbox, s.workers[w].phase, e, h);
    }
  }

  lemma AvoidedWorker(cfg: Config, s: State, ev: Event, e: EventId, h: Handler)
    requires Inv(cfg, s) && Avoided(cfg, s, e, h) && !ev.Arrive? && !ByOperatorStep(ev) && ev.w in s.workers
    ensures Avoided(cfg, Next(cfg, s, ev), e, h)
    ensures Tally(Next(cfg, s, ev).log, Settled(e, h)) == Tally(s.log, Settled(e, h))
  {
    if ev.Commit? {
      AvoidedCommit(cfg, s, ev.w, ev.answered, e, h);
    } else if ev.CheckSettled? || ev.SettleReturns? || ev.SettleThrows? {
      AvoidedSettle(cfg, s, ev.w, ev, e, h);
    } else {
      NoSettledEntry(cfg, s, ev, Settled(e, h));
      if ev.StartBatch? || ev.Crash? {
        AvoidedFresh(cfg, s, ev, e, h);
      } else {
        AvoidedDispatch(cfg, s, ev.w, ev, e, h);
      }
    }
  }

  lemma AvoidedFresh(cfg: Config, s: State, ev: Event, e: EventId, h: Handler)
    requires Avoided(cfg, s, e, h) && (ev.StartBatch? || ev.Crash?) && ev.w in s.workers
    ensures Avoided(cfg, Next(cfg, s, ev), e, h)
  {
    if Next(cfg, s, ev) != s { NobodyComes(cfg, s, Next(cfg, s, ev), ev.w, e, h); }
  }

  lemma AvoidedArrive(cfg: Config, s: State, ev: Event, e: EventId, h: Handler)
    requires Avoided(cfg, s, e, h) && ev.Arrive?
    ensures Avoided(cfg, Next(cfg, s, ev), e, h) && Next(cfg, s, ev).log == s.log
  {
    forall w | w in s.workers ensures !ComesTo(cfg, s.inbox, s.workers[w].phase, e, h) { }
  }

  lemma AvoidedStep(cfg: Config, s: State, ev: Event, e: EventId, h: Handler)
    requires Inv(cfg, s) && Avoided(cfg, s, e, h)
    requires ReplayCount(Next(cfg, s, ev).log, e) == ReplayCount(s.log, e)
    ensures Avoided(cfg, Next(cfg, s, ev), e, h)
    ensures Tally(Next(cfg, s, ev).log, Settled(e, h)) == Tally(s.log, Settled(e, h))
  {
    if ev.Arrive? {
      AvoidedArrive(cfg, s, ev, e, h);
    } else if ByOperatorStep(ev) {
      if ev.o in s.operators { AvoidedReplay(cfg, s, ev.o, ev, e, h); }
      NoSettledEntry(cfg, s, ev, Settled(e, h));
    } else if ev.w in s.workers {
      AvoidedWorker(cfg, s, ev, e, h);
    }
  }

  lemma LogGrows(cfg: Config, s: State, ev: Event)
    ensures |s.log| <= |Next(cfg, s, ev).log| <= |s.log| + 1 && Next(cfg, s, ev).log[..|s.log|] == s.log
  {
  }

  lemma CountGrows(cfg: Config, s: State, ev: Event, e: EventId)
    ensures ReplayCount(s.log, e) <= ReplayCount(Next(cfg, s, ev).log, e)
  {
    LogGrows(cfg, s, ev);
    var t := Next(cfg, s, ev);
    if t.log != s.log {
      assert t.log == s.log + [t.log[|s.log|]];
      Append(s.log, t.log[|s.log|], e);
    }
  }

  lemma {:induction false} RunCountGrows(cfg: Config, s: State, events: seq<Event>, e: EventId)
    ensures ReplayCount(s.log, e) <= ReplayCount(Run(cfg, s, events).log, e)
    decreases |events|
  {
    if events != [] {
      CountGrows(cfg, s, events[0], e);
      RunCountGrows(cfg, Next(cfg, s, events[0]), events[1..], e);
    }
  }

  lemma {:induction false} AvoidedRun(cfg: Config, s: State, events: seq<Event>, e: EventId, h: Handler)
    requires Inv(cfg, s) && Avoided(cfg, s, e, h)
    requires ReplayCount(Run(cfg, s, events).log, e) == ReplayCount(s.log, e)
    ensures Tally(Run(cfg, s, events).log, Settled(e, h)) == Tally(s.log, Settled(e, h))
    decreases |events|
  {
    if events != [] {
      CountGrows(cfg, s, events[0], e);
      RunCountGrows(cfg, Next(cfg, s, events[0]), events[1..], e);
      StepKeeps(cfg, s, events[0]);
      AvoidedStep(cfg, s, events[0], e, h);
      AvoidedRun(cfg, Next(cfg, s, events[0]), events[1..], e, h);
    }
  }

  // One step of the settling worker towards the handler.
  lemma GoesOn(cfg: Config, s: State, w: WorkerId, e: EventId, h: Handler) returns (ev: Event)
    requires w in s.workers && ComesTo(cfg, s.inbox, s.workers[w].phase, e, h)
    requires var p := s.workers[w].phase; !(p.Calling? && cfg.handlers[p.next] == h)
    ensures
      var t := Next(cfg, s, ev);
      var p := s.workers[w].phase;
      && w in t.workers && ComesTo(cfg, t.inbox, t.workers[w].phase, e, h)
      && (t.workers[w].phase.next == p.next + 1 || (t.workers[w].phase.next == p.next && p.Settling?
            && t.workers[w].phase.Calling?))
      && Tally(t.log, Settled(e, h)) == Tally(s.log, Settled(e, h)) && ReplayCount(t.log, e) == ReplayCount(s.log, e)
  {
    var p := s.workers[w].phase;
    ev := if p.Calling? then SettleReturns(w) else CheckSettled(w);
    if p.Calling? {
      AppendTally(s.log, Settled(p.event, cfg.handlers[p.next]), Settled(e, h));
      Append(s.log, Settled(p.event, cfg.handlers[p.next]), e);
    }
  }

  lemma {:induction false} ComesAndSettles(cfg: Config, s: State, w: WorkerId, e: EventId, h: Handler)
    returns (events: seq<Event>)
    requires w in s.workers && ComesTo(cfg, s.inbox, s.workers[w].phase, e, h)
    ensures Tally(Run(cfg, s, events).log, Settled(e, h)) > Tally(s.log, Settled(e, h))
    ensures ReplayCount(Run(cfg, s, events).log, e) == ReplayCount(s.log, e)
    decreases |cfg.handlers| - s.workers[w].phase.next, if s.workers[w].phase.Settling? then 1 else 0
  {
    var p := s.workers[w].phase;
    if p.Calling? && cfg.handlers[p.next] == h {
      events := [SettleReturns(w)];
      AppendTally(s.log, Settled(e, h), Settled(e, h));
      Append(s.log, Settled(e, h), e);
      assert events[1..] == [];
      assert Run(cfg, s, events) == Run(cfg, Next(cfg, s, SettleReturns(w)), []);
    } else {
      var ev := GoesOn(cfg, s, w, e, h);
      var rest := ComesAndSettles(cfg, Next(cfg, s, ev), w, e, h);
      events := [ev] + rest;
      assert events[1..] == rest;
      assert Run(cfg, s, events) == Run(cfg, Next(cfg, s, ev), rest);
    }
  }

  // A run from this state settles the handler for the event before the event is replayed again.
  ghost predicate CanSettle(cfg: Config, s: State, e: EventId, h: Handler) {
    exists events ::
      && ReplayCount(Run(cfg, s, events).log, e) == ReplayCount(s.log, e)
      && Tally(Run(cfg, s, events).log, Settled(e, h)) > Tally(s.log, Settled(e, h))
  }

  // A handler on the event's list can still be settled for it, before the next replay, exactly if some worker is
  // settling an older dead letter of it and has yet to come to that handler.
  lemma SkippedIsSettledExactly(cfg: Config, s: State, e: EventId, h: Handler)
    requires Reachable(cfg, s) && e in s.rows && h.name in s.rows[e].skip
    ensures CanSettle(cfg, s, e, h) <==> SettlesLater(cfg, s, e, h)
  {
    ReachableInv(cfg, s);
    if SettlesLater(cfg, s, e, h) {
      var w :| w in s.workers && ComesTo(cfg, s.inbox, s.workers[w].phase, e, h);
      var events := ComesAndSettles(cfg, s, w, e, h);
    } else if CanSettle(cfg, s, e, h) {
      var events :| ReplayCount(Run(cfg, s, events).log, e) == ReplayCount(s.log, e)
        && Tally(Run(cfg, s, events).log, Settled(e, h)) > Tally(s.log, Settled(e, h));
      AvoidedRun(cfg, s, events, e, h);
    }
  }

  // No handler is settled while it is on the event's list.
  ghost predicate SettlesUnskipped(s: State) {
    forall j :: 0 <= j < |s.log| && s.log[j].Settled? ==> s.log[j].handler.name !in SkipOf(s.log[..j], s.log[j].event)
  }

  lemma {:induction false} NoListWithoutReplays(log: seq<Entry>, e: EventId)
    requires forall x <- log :: !x.Replayed?
    ensures SkipOf(log, e) == {}
    decreases |log|
  {
    if log != [] {
      assert log[|log| - 1] in log;
      NoListWithoutReplays(log[..|log| - 1], e);
    }
  }

  ghost predicate NobodySettles(s: State) { s.workers == map[] && forall x <- s.log :: !x.Settled? }

  lemma {:induction false} NoWorkerSettles(cfg: Config, s: State, events: seq<Event>)
    requires NobodySettles(s)
    ensures NobodySettles(Run(cfg, s, events))
    decreases |events|
  {
    if events != [] {
      assert NobodySettles(Next(cfg, s, events[0]));
      NoWorkerSettles(cfg, Next(cfg, s, events[0]), events[1..]);
    }
  }
}
