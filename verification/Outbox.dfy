// The outbox: publisher workers, the inbox that deduplicates handlers, dead letters and replay, as
// a transition system over the database rows. A claimed row stays locked until its outcome is
// committed; a crash ends the worker's transaction and frees the row.
module Outbox {
  import Runs

  type EventId = nat
  type EventType = nat
  type WorkerId = nat
  type OperatorId = nat

  datatype Handler = Handler(name: string, version: string, accepts: set<EventType>)

  function HandlerKey(h: Handler): string { h.name + "@" + h.version }

  datatype Config = Config(handlers: seq<Handler>, maxAttempts: int, limit: int)

  ghost predicate ValidConfig(cfg: Config) {
    forall i, j :: 0 <= i < j < |cfg.handlers| ==> HandlerKey(cfg.handlers[i]) != HandlerKey(cfg.handlers[j])
  }

  datatype Row = Row(eventType: EventType, published: bool, deadLettered: bool, attempts: nat, skip: set<string>)

  predicate Due(row: Row) { !row.published && !row.deadLettered }

  predicate Relevant(h: Handler, row: Row) { row.eventType in h.accepts && h.name !in row.skip }

  // Where a worker is in publishBatch. `row` is the claimed row, `next` an index of a handler.
  datatype Phase =
    | Idle
    | Dispatching(event: EventId, row: Row, next: nat)
    | Handling(event: EventId, row: Row, next: nat)
    | Recording(event: EventId, row: Row, next: nat)
    | Delivered(event: EventId, row: Row)
    | Failing(event: EventId, row: Row)
    // onDeadLetter, after the commit: no lock is held. `replays` is how often the event had been replayed.
    | Settling(event: EventId, row: Row, next: nat, replays: nat)
    | Calling(event: EventId, row: Row, next: nat, replays: nat)

  predicate Holds(p: Phase) { p.Dispatching? || p.Handling? || p.Recording? || p.Delivered? || p.Failing? }

  // `handled` is publishBatch's own list; `batch` numbers the worker's batches.
  datatype Worker = Worker(phase: Phase, handled: seq<EventId>, batch: nat)

  // A replay transaction and the rows it has updated so far.
  datatype Operator = Waiting | Replaying(skip: set<string>, updated: set<EventId>)

  datatype Holder = ByWorker(w: WorkerId) | ByOperator(o: OperatorId)

  // History that no table keeps.
  datatype Entry =
    | Started(event: EventId, handler: Handler)
    | Completed(event: EventId, handler: Handler)
    | Unrecorded(event: EventId, handler: Handler)
    | Settled(event: EventId, handler: Handler)
    | Committed(worker: WorkerId, batch: nat, event: EventId)
    | Replayed(events: set<EventId>, skip: set<string>)

  datatype State = State(
    rows: map<EventId, Row>,
    inbox: set<(EventId, string)>,
    owner: map<EventId, Holder>,
    workers: map<WorkerId, Worker>,
    operators: map<OperatorId, Operator>,
    log: seq<Entry>)

  datatype Event =
    | Arrive(event: EventId, eventType: EventType)
    | StartBatch(w: WorkerId)
    | Claim(w: WorkerId, event: EventId)
    | CheckInbox(w: WorkerId)
    | HandlerReturns(w: WorkerId)
    | HandlerThrows(w: WorkerId)
    | RecordInbox(w: WorkerId, answered: bool)
    | StatementFails(w: WorkerId)
    | Commit(w: WorkerId, answered: bool)
    | CheckSettled(w: WorkerId)
    | SettleReturns(w: WorkerId)
    | SettleThrows(w: WorkerId)
    | Crash(w: WorkerId)
    | BeginReplay(o: OperatorId, skip: set<string>)
    | ReplayRow(o: OperatorId, event: EventId)
    | CommitReplay(o: OperatorId)
    | AbortReplay(o: OperatorId)

  // ---- history ----

  // Attempts committed since the event was last replayed.
  function AttemptsSince(log: seq<Entry>, e: EventId): nat {
    if log == [] then 0
    else
      var last := log[|log| - 1];
      if last.Replayed? && e in last.events then 0
      else AttemptsSince(log[..|log| - 1], e) + if last.Committed? && last.event == e then 1 else 0
  }

  function ReplayCount(log: seq<Entry>, e: EventId): nat {
    if log == [] then 0
    else
      var last := log[|log| - 1];
      ReplayCount(log[..|log| - 1], e) + if last.Replayed? && e in last.events then 1 else 0
  }

  function Tally(log: seq<Entry>, entry: Entry): nat {
    if log == [] then 0
    else Tally(log[..|log| - 1], entry) + if log[|log| - 1] == entry then 1 else 0
  }

  // ---- steps ----

  function SetPhase(s: State, w: WorkerId, p: Phase): State
    requires w in s.workers
  {
    s.(workers := s.workers[w := s.workers[w].(phase := p)])
  }

  function Log(s: State, entry: Entry): State { s.(log := s.log + [entry]) }

  function Release(s: State, e: EventId): State { s.(owner := s.owner - {e}) }

  // A new process or a new call of publishBatch.
  function FreshBatch(s: State, w: WorkerId): State
    requires w in s.workers
  {
    s.(workers := s.workers[w := Worker(Idle, [], s.workers[w].batch + 1)])
  }

  // What a worker loses when it is stopped between a handler's completion and its inbox row.
  function Forget(cfg: Config, s: State, p: Phase): State {
    if p.Recording? && p.next < |cfg.handlers| then Log(s, Unrecorded(p.event, cfg.handlers[p.next])) else s
  }

  function NextDispatch(cfg: Config, s: State, w: WorkerId, e: Event): State
    requires w in s.workers
  {
    var p := s.workers[w].phase;
    match e
    case Claim(_, event) =>
      if p.Idle? && |s.workers[w].handled| < cfg.limit && event !in s.workers[w].handled
         && event in s.rows && Due(s.rows[event]) && event !in s.owner
      then SetPhase(s.(owner := s.owner[event := ByWorker(w)]), w, Dispatching(event, s.rows[event], 0))
      else s
    case CheckInbox(_) =>
      if !p.Dispatching? then s
      else if p.next >= |cfg.handlers| then SetPhase(s, w, Delivered(p.event, p.row))
      else
        var h := cfg.handlers[p.next];
        if !Relevant(h, p.row) || (p.event, HandlerKey(h)) in s.inbox
        then SetPhase(s, w, Dispatching(p.event, p.row, p.next + 1))
        else SetPhase(Log(s, Started(p.event, h)), w, Handling(p.event, p.row, p.next))
    case HandlerReturns(_) =>
      if p.Handling? && p.next < |cfg.handlers|
      then SetPhase(Log(s, Completed(p.event, cfg.handlers[p.next])), w, Recording(p.event, p.row, p.next)) else s
    case HandlerThrows(_) => if p.Handling? then SetPhase(s, w, Failing(p.event, p.row)) else s
    case RecordInbox(_, answered) =>
      if p.Recording? && p.next < |cfg.handlers|
      then SetPhase(s.(inbox := s.inbox + {(p.event, HandlerKey(cfg.handlers[p.next]))}), w,
             if answered then Dispatching(p.event, p.row, p.next + 1) else Failing(p.event, p.row))
      else s
    case StatementFails(_) =>
      if p.Dispatching? || p.Recording? then SetPhase(Forget(cfg, s, p), w, Failing(p.event, p.row)) else s
    case _ => s
  }

  // The UPDATE that records the outcome of an attempt.
  function AfterAttempt(cfg: Config, row: Row, delivered: bool): Row {
    if delivered then row.(published := true, attempts := row.attempts + 1)
    else row.(attempts := row.attempts + 1, deadLettered := row.attempts + 1 >= cfg.maxAttempts)
  }

  function NextCommit(cfg: Config, s: State, w: WorkerId, answered: bool): State
    requires w in s.workers
  {
    var p := s.workers[w].phase;
    if (p.Delivered? || p.Failing?) && p.event in s.rows then
      var row := AfterAttempt(cfg, p.row, p.Delivered?);
      var t := Log(Release(s.(rows := s.rows[p.event := row]), p.event), Committed(w, s.workers[w].batch, p.event));
      if !answered then FreshBatch(t, w)
      else
        t.(workers := t.workers[w := Worker(
          if row.deadLettered then Settling(p.event, row, 0, ReplayCount(s.log, p.event)) else Idle,
          s.workers[w].handled + [p.event], s.workers[w].batch)])
    else s
  }

  function NextSettle(cfg: Config, s: State, w: WorkerId, e: Event): State
    requires w in s.workers
  {
    var p := s.workers[w].phase;
    match e
    case CheckSettled(_) =>
      if !p.Settling? then s
      else if p.next >= |cfg.handlers| then SetPhase(s, w, Idle)
      else
        var h := cfg.handlers[p.next];
        if !Relevant(h, p.row) || (p.event, HandlerKey(h)) in s.inbox
        then SetPhase(s, w, Settling(p.event, p.row, p.next + 1, p.replays))
        else SetPhase(s, w, Calling(p.event, p.row, p.next, p.replays))
    case SettleReturns(_) =>
      if p.Calling? && p.next < |cfg.handlers|
      then SetPhase(Log(s, Settled(p.event, cfg.handlers[p.next])), w,
        Settling(p.event, p.row, p.next + 1, p.replays)) else s
    case SettleThrows(_) => if p.Calling? || p.Settling? then FreshBatch(s, w) else s
    case _ => s
  }

  function NextCrash(cfg: Config, s: State, w: WorkerId): State
    requires w in s.workers
  {
    var p := s.workers[w].phase;
    FreshBatch(if Holds(p) then Release(Forget(cfg, s, p), p.event) else s, w)
  }

  function ReplayOf(row: Row, skip: set<string>): Row {
    row.(published := false, deadLettered := false, attempts := 0, skip := skip)
  }

  function NextReplay(s: State, o: OperatorId, e: Event): State
    requires o in s.operators
  {
    var op := s.operators[o];
    match e
    // The rows were selected earlier, without a lock: by now they may be in any state.
    case BeginReplay(_, skip) =>
      if op.Waiting? then s.(operators := s.operators[o := Replaying(skip, {})]) else s
    case ReplayRow(_, event) =>
      if op.Replaying? && event in s.rows && event !in s.owner
      then s.(owner := s.owner[event := ByOperator(o)],
              operators := s.operators[o := Replaying(op.skip, op.updated + {event})])
      else s
    case CommitReplay(_) =>
      if op.Replaying?
      then s.(rows := map e | e in s.rows :: if e in op.updated then ReplayOf(s.rows[e], op.skip) else s.rows[e],
              owner := s.owner - op.updated, operators := s.operators[o := Waiting],
              log := s.log + [Replayed(op.updated, op.skip)])
      else s
    case AbortReplay(_) =>
      if op.Replaying?
      then s.(owner := s.owner - op.updated, operators := s.operators[o := Waiting]) else s
    case _ => s
  }

  predicate ByOperatorStep(e: Event) { e.BeginReplay? || e.ReplayRow? || e.CommitReplay? || e.AbortReplay? }

  function Next(cfg: Config, s: State, e: Event): State {
    if e.Arrive? then
      if e.event in s.rows then s
      else s.(rows := s.rows[e.event := Row(e.eventType, false, false, 0, {})])
    else if ByOperatorStep(e) then
      if e.o in s.operators then NextReplay(s, e.o, e) else s
    else if e.w !in s.workers then s
    else if e.StartBatch? then if s.workers[e.w].phase.Idle? then FreshBatch(s, e.w) else s
    else if e.Commit? then NextCommit(cfg, s, e.w, e.answered)
    else if e.CheckSettled? || e.SettleReturns? || e.SettleThrows? then NextSettle(cfg, s, e.w, e)
    else if e.Crash? then NextCrash(cfg, s, e.w)
    else NextDispatch(cfg, s, e.w, e)
  }

  function StepOf(cfg: Config): (State, Event) -> State {
    (s, e) => Next(cfg, s, e)
  }

  ghost function Run(cfg: Config, s: State, events: seq<Event>): State {
    Runs.Run(StepOf(cfg), s, events)
  }

  function Init(workers: set<WorkerId>, operators: set<OperatorId>): State {
    State(map[], {}, map[], map w | w in workers :: Worker(Idle, [], 0), map o | o in operators :: Waiting, [])
  }
}
