// When the settlement of a dead letter can come late, and the exact conditions. While a worker settles, an operator
// replays the event: another worker then completes the handler that is being settled, or the handler is on the list of
// those the replay was to leave alone.
module OutboxLimits {
  import opened Outbox
  import opened OutboxSafety
  import opened OutboxDelivery
  import opened OutboxReplays
  import Runs

  const HANDLER := Handler("project_export", "1", {0})
  const CFG := Config([HANDLER], 1, 100)
  const DUE := Row(0, false, false, 0, {})
  const DEAD := Row(0, false, true, 1, {})

  ghost predicate Closed(reach: iset<State>) { Runs.Closed(StepOf(CFG), reach) }

  lemma Steps(reach: iset<State>, s: State, e: Event, t: State)
    requires Closed(reach) && s in reach && Next(CFG, s, e) == t
    ensures t in reach
  {
    assert StepOf(CFG)(s, e) == t;
  }

  // Worker `w` as given, everything else as in `s`.
  function With(s: State, w: WorkerId, worker: Worker): State {
    s.(workers := s.workers[w := worker])
  }

  lemma WithTwice(s: State, w: WorkerId, v: Worker, u: Worker)
    ensures With(With(s, w, v), w, u) == With(s, w, u)
  {
    assert s.workers[w := v][w := u] == s.workers[w := u];
  }

  // Event 0 claimed by `w`.
  function Owned(s: State, w: WorkerId): State { s.(owner := map[0 := ByWorker(w)]) }

  lemma Claims(reach: iset<State>, s: State, w: WorkerId)
    requires Closed(reach) && s in reach && s.owner == map[] && s.rows == map[0 := DUE]
    requires w in s.workers && s.workers[w] == Worker(Idle, [], 0)
    ensures With(Owned(s, w), w, Worker(Dispatching(0, DUE, 0), [], 0)) in reach
  {
    assert s.owner[0 := ByWorker(w)] == map[0 := ByWorker(w)];
    Steps(reach, s, Claim(w, 0), With(Owned(s, w), w, Worker(Dispatching(0, DUE, 0), [], 0)));
  }

  lemma StartsHandler(reach: iset<State>, s: State, w: WorkerId)
    requires Closed(reach) && With(s, w, Worker(Dispatching(0, DUE, 0), [], 0)) in reach && s.inbox == {}
    ensures With(Log(s, Started(0, HANDLER)), w, Worker(Handling(0, DUE, 0), [], 0)) in reach
  {
    var a := With(s, w, Worker(Dispatching(0, DUE, 0), [], 0));
    var t := Log(s, Started(0, HANDLER));
    WithTwice(t, w, a.workers[w], Worker(Handling(0, DUE, 0), [], 0));
    Steps(reach, a, CheckInbox(w), With(t, w, Worker(Handling(0, DUE, 0), [], 0)));
  }

  lemma Throws(reach: iset<State>, s: State, w: WorkerId)
    requires Closed(reach) && With(s, w, Worker(Handling(0, DUE, 0), [], 0)) in reach
    ensures With(s, w, Worker(Failing(0, DUE), [], 0)) in reach
  {
    var a := With(s, w, Worker(Handling(0, DUE, 0), [], 0));
    WithTwice(s, w, a.workers[w], Worker(Failing(0, DUE), [], 0));
    Steps(reach, a, HandlerThrows(w), With(s, w, Worker(Failing(0, DUE), [], 0)));
  }

  lemma SetsAside(reach: iset<State>, s: State, w: WorkerId)
    requires Closed(reach) && With(s, w, Worker(Failing(0, DUE), [], 0)) in reach
    requires s.rows == map[0 := DUE] && s.owner == map[0 := ByWorker(w)] && ReplayCount(s.log, 0) == 0
    ensures With(Log(s.(rows := map[0 := DEAD], owner := map[]), Committed(w, 0, 0)), w,
      Worker(Settling(0, DEAD, 0, 0), [0], 0)) in reach
  {
    var a := With(s, w, Worker(Failing(0, DUE), [], 0));
    var t := Log(s.(rows := map[0 := DEAD], owner := map[]), Committed(w, 0, 0));
    assert AfterAttempt(CFG, DUE, false) == DEAD;
    assert [] + [0] == [0] && s.owner - {0} == map[] && s.rows[0 := DEAD] == map[0 := DEAD];
    WithTwice(t, w, a.workers[w], Worker(Settling(0, DEAD, 0, 0), [0], 0));
    Steps(reach, a, Commit(w, true), With(t, w, Worker(Settling(0, DEAD, 0, 0), [0], 0)));
  }

  lemma FindsOpen(reach: iset<State>, s: State, w: WorkerId)
    requires Closed(reach) && With(s, w, Worker(Settling(0, DEAD, 0, 0), [0], 0)) in reach && s.inbox == {}
    ensures With(s, w, Worker(Calling(0, DEAD, 0, 0), [0], 0)) in reach
  {
    var a := With(s, w, Worker(Settling(0, DEAD, 0, 0), [0], 0));
    WithTwice(s, w, a.workers[w], Worker(Calling(0, DEAD, 0, 0), [0], 0));
    Steps(reach, a, CheckSettled(w), With(s, w, Worker(Calling(0, DEAD, 0, 0), [0], 0)));
  }

  // Worker `w` has found the handler of its dead letter open.
  function SettlingBy(s: State, w: WorkerId): State {
    With(s.(rows := map[0 := DEAD], log := [Started(0, HANDLER), Committed(w, 0, 0)]), w,
      Worker(Calling(0, DEAD, 0, 0), [0], 0))
  }

  lemma DiesAndSettles(reach: iset<State>, s: State, w: WorkerId)
    requires Closed(reach) && s in reach && s.owner == map[] && s.rows == map[0 := DUE] && s.inbox == {} && s.log == []
    requires w in s.workers && s.workers[w] == Worker(Idle, [], 0)
    ensures SettlingBy(s, w) in reach
  {
    Claims(reach, s, w);
    var a := Owned(s, w);
    StartsHandler(reach, a, w);
    var b := Log(a, Started(0, HANDLER));
    Throws(reach, b, w);
    NothingReplayed(b.log, 0);
    SetsAside(reach, b, w);
    var c := Log(b.(rows := map[0 := DEAD], owner := map[]), Committed(w, 0, 0));
    FindsOpen(reach, c, w);
    assert c.log == [Started(0, HANDLER), Committed(w, 0, 0)];
    assert c == s.(rows := map[0 := DEAD], log := c.log);
  }

  // Operator `o` as given, everything else as in `s`.
  function WithOperator(s: State, o: OperatorId, operator: Operator): State {
    s.(operators := s.operators[o := operator])
  }

  lemma BeginsReplay(reach: iset<State>, s: State, o: OperatorId, skip: set<string>)
    requires Closed(reach) && s in reach && o in s.operators && s.operators[o].Waiting?
    ensures WithOperator(s, o, Replaying(skip, {})) in reach
  {
    Steps(reach, s, BeginReplay(o, skip), WithOperator(s, o, Replaying(skip, {})));
  }

  lemma ReplaysRow(reach: iset<State>, s: State, o: OperatorId, skip: set<string>)
    requires Closed(reach) && WithOperator(s, o, Replaying(skip, {})) in reach && 0 in s.rows && s.owner == map[]
    ensures WithOperator(s.(owner := map[0 := ByOperator(o)]), o, Replaying(skip, {0})) in reach
  {
    var a := WithOperator(s, o, Replaying(skip, {}));
    var t := WithOperator(s.(owner := map[0 := ByOperator(o)]), o, Replaying(skip, {0}));
    assert {} + {0} == {0};
    assert a.operators[o := Replaying(skip, {0})] == t.operators;
    Steps(reach, a, ReplayRow(o, 0), t);
  }

  lemma CommitsReplay(reach: iset<State>, s: State, o: OperatorId, skip: set<string>)
    requires Closed(reach) && WithOperator(s.(owner := map[0 := ByOperator(o)]), o, Replaying(skip, {0})) in reach
    requires s.rows == map[0 := DEAD] && s.owner == map[] && o in s.operators && s.operators[o].Waiting?
    ensures Log(s.(rows := map[0 := DUE.(skip := skip)]), Replayed({0}, skip)) in reach
  {
    var a := WithOperator(s.(owner := map[0 := ByOperator(o)]), o, Replaying(skip, {0}));
    var t := Log(s.(rows := map[0 := DUE.(skip := skip)]), Replayed({0}, skip));
    assert a.owner - {0} == map[];
    assert a.operators[o := Waiting] == s.operators;
    assert NextReplay(a, o, CommitReplay(o)).rows == map[0 := DUE.(skip := skip)];
    Steps(reach, a, CommitReplay(o), t);
  }

  // The whole replay, between two steps of everybody else.
  lemma Replays(reach: iset<State>, s: State, o: OperatorId, skip: set<string>)
    requires Closed(reach) && s in reach && s.rows == map[0 := DEAD] && s.owner == map[]
    requires o in s.operators && s.operators[o].Waiting?
    ensures Log(s.(rows := map[0 := DUE.(skip := skip)]), Replayed({0}, skip)) in reach
  {
    BeginsReplay(reach, s, o, skip);
    ReplaysRow(reach, s, o, skip);
    CommitsReplay(reach, s, o, skip);
  }

  lemma Returns(reach: iset<State>, s: State, w: WorkerId)
    requires Closed(reach) && With(s, w, Worker(Handling(0, DUE, 0), [], 0)) in reach
    ensures With(Log(s, Completed(0, HANDLER)), w, Worker(Recording(0, DUE, 0), [], 0)) in reach
  {
    var a := With(s, w, Worker(Handling(0, DUE, 0), [], 0));
    var t := Log(s, Completed(0, HANDLER));
    WithTwice(t, w, a.workers[w], Worker(Recording(0, DUE, 0), [], 0));
    Steps(reach, a, HandlerReturns(w), With(t, w, Worker(Recording(0, DUE, 0), [], 0)));
  }

  lemma Records(reach: iset<State>, s: State, w: WorkerId)
    requires Closed(reach) && With(s, w, Worker(Recording(0, DUE, 0), [], 0)) in reach
    ensures With(s.(inbox := s.inbox + {(0, HandlerKey(HANDLER))}), w, Worker(Dispatching(0, DUE, 1), [], 0)) in reach
  {
    var a := With(s, w, Worker(Recording(0, DUE, 0), [], 0));
    var t := s.(inbox := s.inbox + {(0, HandlerKey(HANDLER))});
    WithTwice(t, w, a.workers[w], Worker(Dispatching(0, DUE, 1), [], 0));
    Steps(reach, a, RecordInbox(w, true), With(t, w, Worker(Dispatching(0, DUE, 1), [], 0)));
  }

  // Worker `v` sends the replayed event and completes its handler.
  lemma Completes(reach: iset<State>, s: State, v: WorkerId) returns (t: State)
    requires Closed(reach) && s in reach && s.owner == map[] && s.rows == map[0 := DUE] && s.inbox == {}
    requires v in s.workers && s.workers[v] == Worker(Idle, [], 0)
    ensures t in reach && (0, HandlerKey(HANDLER)) in t.inbox
    ensures forall w <- s.workers :: w != v ==> w in t.workers && t.workers[w] == s.workers[w]
  {
    Claims(reach, s, v);
    var a := Owned(s, v);
    StartsHandler(reach, a, v);
    var b := Log(a, Started(0, HANDLER));
    Returns(reach, b, v);
    var c := Log(b, Completed(0, HANDLER));
    Records(reach, c, v);
    t := With(c.(inbox := c.inbox + {(0, HandlerKey(HANDLER))}), v, Worker(Dispatching(0, DUE, 1), [], 0));
  }

  // With a replay in between, the old dead letter is settled after its handler completed.
  lemma CompletesWhileSettling(reach: iset<State>, s: State, w: WorkerId, v: WorkerId, o: OperatorId) returns (t: State)
    requires Closed(reach) && s in reach && s.owner == map[] && s.rows == map[0 := DUE] && s.inbox == {} && s.log == []
    requires w != v && w in s.workers && v in s.workers && s.workers[w] == s.workers[v] == Worker(Idle, [], 0)
    requires o in s.operators && s.operators[o].Waiting?
    ensures t in reach && w in t.workers && t.workers[w].phase == Calling(0, DEAD, 0, 0)
    ensures (0, HandlerKey(HANDLER)) in t.inbox
  {
    DiesAndSettles(reach, s, w);
    var a := SettlingBy(s, w);
    Replays(reach, a, o, {});
    t := Completes(reach, Log(a.(rows := map[0 := DUE]), Replayed({0}, {})), v);
  }

  lemma SettlesAfterReplay(workers: set<WorkerId>, operators: set<OperatorId>, w: WorkerId, v: WorkerId, o: OperatorId)
    returns (events: seq<Event>)
    requires w in workers && v in workers && w != v && o in operators
    ensures
      var s := Run(CFG, Init(workers, operators), events);
      w in s.workers && s.workers[w].phase == Calling(0, DEAD, 0, 0) && (0, HandlerKey(HANDLER)) in s.inbox
  {
    var init := Init(workers, operators);
    var reach := Runs.Reached(StepOf(CFG), init);
    Runs.ReachedIsClosed(StepOf(CFG), init);
    var due := init.(rows := map[0 := DUE]);
    Steps(reach, init, Arrive(0, 0), due);
    var t := CompletesWhileSettling(reach, due, w, v, o);
    assert Runs.Reachable(StepOf(CFG), init, t);
    events :| Runs.Run(StepOf(CFG), init, events) == t;
  }

  lemma TwoOf(workers: set<WorkerId>) returns (w: WorkerId, v: WorkerId)
    requires |workers| > 1
    ensures w in workers && v in workers && w != v
  {
    w :| w in workers;
    assert |workers - {w}| == |workers| - 1;
    v :| v in workers - {w};
  }

  lemma AtMostOne(workers: set<WorkerId>)
    requires |workers| <= 1
    ensures forall v, w :: v in workers && w in workers ==> v == w
  {
    forall v, w | v in workers && w in workers ensures v == w {
      if v != w { assert |{v, w}| <= |workers| by { Subset({v, w}, workers); } }
    }
  }

  lemma {:induction false} Subset(a: set<WorkerId>, b: set<WorkerId>)
    requires a <= b
    ensures |a| <= |b|
  {
    if a != {} {
      var x :| x in a;
      Subset(a - {x}, b - {x});
    }
  }

  // What a settlement finds open stays open while it is settled, in all runs, exactly without operators or with at
  // most one worker.
  lemma SettlesOpenWorkExactly(workers: set<WorkerId>, operators: set<OperatorId>)
    ensures (forall cfg: Config, events :: SettlesOpenWork(cfg, Run(cfg, Init(workers, operators), events)))
      <==> operators == {} || |workers| <= 1
  {
    if operators == {} || |workers| <= 1 {
      AtMostOneOrNoOperator(workers, operators);
    } else {
      var o :| o in operators;
      var w, v := TwoOf(workers);
      var events := SettlesAfterReplay(workers, operators, w, v, o);
      assert !SettlesOpenWork(CFG, Run(CFG, Init(workers, operators), events));
    }
  }

  lemma AtMostOneOrNoOperator(workers: set<WorkerId>, operators: set<OperatorId>)
    requires operators == {} || |workers| <= 1
    ensures forall cfg: Config, events :: SettlesOpenWork(cfg, Run(cfg, Init(workers, operators), events))
  {
    forall cfg: Config, events ensures SettlesOpenWork(cfg, Run(cfg, Init(workers, operators), events)) {
      if operators == {} {
        NoOperatorSettlesOpen(cfg, workers, events);
      } else {
        AtMostOne(workers);
        LoneRun(cfg, Init(workers, operators), events);
      }
    }
  }

  // ---- a handler that the replay was to leave alone ----

  const SKIPPING: set<string> := {"project_export"}

  function SettledAnyway(s: State, w: WorkerId): State {
    With(s.(rows := map[0 := DUE.(skip := SKIPPING)],
            log := [Started(0, HANDLER), Committed(w, 0, 0), Replayed({0}, SKIPPING), Settled(0, HANDLER)]), w,
      Worker(Settling(0, DEAD, 1, 0), [0], 0))
  }

  lemma SettlesWhatIsSkipped(reach: iset<State>, s: State, w: WorkerId, o: OperatorId)
    requires Closed(reach) && s in reach && s.owner == map[] && s.rows == map[0 := DUE] && s.inbox == {} && s.log == []
    requires w in s.workers && s.workers[w] == Worker(Idle, [], 0) && o in s.operators && s.operators[o].Waiting?
    ensures SettledAnyway(s, w) in reach
  {
    DiesAndSettles(reach, s, w);
    var a := SettlingBy(s, w);
    Replays(reach, a, o, SKIPPING);
    var b := Log(a.(rows := map[0 := DUE.(skip := SKIPPING)]), Replayed({0}, SKIPPING));
    var t := SettledAnyway(s, w);
    assert b.log + [Settled(0, HANDLER)] == t.log;
    assert b.workers[w := Worker(Settling(0, DEAD, 1, 0), [0], 0)] == t.workers;
    Steps(reach, b, SettleReturns(w), t);
  }

  // The handler is settled after a replay has put it on the event's list.
  lemma SettlesSkipped(workers: set<WorkerId>, operators: set<OperatorId>, w: WorkerId, o: OperatorId)
    returns (events: seq<Event>)
    requires w in workers && o in operators
    ensures
      var s := Run(CFG, Init(workers, operators), events);
      && s.rows == map[0 := DUE.(skip := SKIPPING)]
      && s.log == [Started(0, HANDLER), Committed(w, 0, 0), Replayed({0}, SKIPPING), Settled(0, HANDLER)]
  {
    var init := Init(workers, operators);
    var reach := Runs.Reached(StepOf(CFG), init);
    Runs.ReachedIsClosed(StepOf(CFG), init);
    var due := init.(rows := map[0 := DUE]);
    Steps(reach, init, Arrive(0, 0), due);
    SettlesWhatIsSkipped(reach, due, w, o);
    assert Runs.Reachable(StepOf(CFG), init, SettledAnyway(due, w));
    events :| Runs.Run(StepOf(CFG), init, events) == SettledAnyway(due, w);
  }

  lemma SkippedInThisLog(log: seq<Entry>, w: WorkerId)
    requires log == [Started(0, HANDLER), Committed(w, 0, 0), Replayed({0}, SKIPPING), Settled(0, HANDLER)]
    ensures log[3].Settled? && log[3].handler.name in SkipOf(log[..3], log[3].event)
  {
    assert log[..3][2] == Replayed({0}, SKIPPING);
  }

  // No handler is settled while it is on its event's list, in all runs, exactly without operators or without workers.
  lemma SettlesUnskippedExactly(workers: set<WorkerId>, operators: set<OperatorId>)
    ensures (forall cfg: Config, events :: SettlesUnskipped(Run(cfg, Init(workers, operators), events)))
      <==> operators == {} || workers == {}
  {
    if operators == {} || workers == {} {
      NobodyToSettleOrReplay(workers, operators);
    } else {
      var o :| o in operators;
      var w :| w in workers;
      var events := SettlesSkipped(workers, operators, w, o);
      SkippedInThisLog(Run(CFG, Init(workers, operators), events).log, w);
      assert !SettlesUnskipped(Run(CFG, Init(workers, operators), events));
    }
  }

  lemma NobodyToSettleOrReplay(workers: set<WorkerId>, operators: set<OperatorId>)
    requires operators == {} || workers == {}
    ensures forall cfg: Config, events :: SettlesUnskipped(Run(cfg, Init(workers, operators), events))
  {
    forall cfg: Config, events ensures SettlesUnskipped(Run(cfg, Init(workers, operators), events)) {
      var s := Run(cfg, Init(workers, operators), events);
      if operators == {} {
        RunNoReplays(cfg, Init(workers, operators), events);
        forall j | 0 <= j < |s.log| ensures SkipOf(s.log[..j], s.log[j].event) == {} || !s.log[j].Settled? {
          if s.log[j].Settled? { NoListWithoutReplays(s.log[..j], s.log[j].event); }
        }
      } else {
        NoWorkerSettles(cfg, Init(workers, operators), events);
      }
    }
  }
}
