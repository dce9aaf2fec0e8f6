/** The task store inside whole runs of the router: every step uses it through its own calls, so what its runs
    guarantee holds in every run of the router, with any retention. */
module RouterTasks {
  import opened TaskStates
  import opened TaskStoreSpec
  import opened Messages
  import opened RouterSpec
  import P = PolicySpec
  import D = DedupeSpec
  import S = TaskStoreRuns
  import Traces

  /** Calls of the store made no earlier than this lead from one state to the other. */
  ghost predicate By(s: StoreState, o: StoreState, now: int) {
    exists ops :: S.NotBefore(ops, now) && o == S.Run(s, ops)
  }

  /** What every step keeps to: the store's own calls, and no execution without an executor. */
  ghost predicate Moves(e: Engine, o: Engine, now: int) {
    && By(e.store, o.store, now)
    && o.config == e.config
    && (!e.config.hasExecutor ==> o.executed == e.executed)
  }

  ghost predicate Stays(e: Engine, o: Engine) {
    o.store == e.store && o.config == e.config && o.executed == e.executed
  }

  lemma ByNothing(s: StoreState, now: int)
    ensures By(s, s, now)
  {
    assert S.Run(s, []) == s;
  }

  lemma ByOne(s: StoreState, op: S.Op, now: int)
    requires S.ClockOf(op).Some? ==> S.ClockOf(op).value == Tick(now)
    ensures By(s, S.Apply(s, op), now)
  {
    assert S.Run(S.Apply(s, op), []) == S.Apply(s, op);
    assert S.NotBefore([op], now) && S.Run(s, [op]) == S.Apply(s, op);
  }

  lemma {:induction false} RunConcat(s: StoreState, a: seq<S.Op>, b: seq<S.Op>)
    ensures S.Run(s, a + b) == S.Run(S.Run(s, a), b)
    decreases |a|
  {
    if a == [] {
      assert a + b == b;
    } else {
      assert (a + b)[1..] == a[1..] + b;
      RunConcat(S.Apply(s, a[0]), a[1..], b);
    }
  }

  lemma ByBoth(s: StoreState, m: StoreState, o: StoreState, now: int, later: int)
    requires By(s, m, now) && By(m, o, later) && now <= later
    ensures By(s, o, now)
  {
    var a :| S.NotBefore(a, now) && m == S.Run(s, a);
    var b :| S.NotBefore(b, later) && o == S.Run(m, b);
    RunConcat(s, a, b);
    assert S.NotBefore(a + b, now);
  }

  lemma MovesBoth(e: Engine, m: Engine, o: Engine, now: int)
    requires Moves(e, m, now) && Moves(m, o, now)
    ensures Moves(e, o, now)
  {
    ByBoth(e.store, m.store, o.store, now, now);
  }

  /** A step that leaves store, configuration and executions alone, or changes the store by one call. */
  lemma MovesBy(e: Engine, o: Engine, op: S.Op, now: int)
    requires S.ClockOf(op).Some? ==> S.ClockOf(op).value == Tick(now)
    requires o.config == e.config && (!e.config.hasExecutor ==> o.executed == e.executed)
    requires o.store == e.store || o.store == S.Apply(e.store, op)
    ensures Moves(e, o, now)
  {
    ByNothing(e.store, now);
    ByOne(e.store, op, now);
  }

  /* ---------- dispatching and draining ---------- */

  lemma {:induction false} DispatchMoves(e: Engine, id: Name, lease: P.Lease, now: int)
    ensures Moves(e, DispatchLease(e, id, lease, now), now)
    decreases |e.policy.queue|, 2
  {
    var (s, t) := BeginExecution(e.store, id, Tick(now));
    var b := e.(store := s);
    MovesBy(e, e, S.BeginOp(id, Tick(now)), now);
    if e.config.hasExecutor {
      MovesBy(e, b.(executed := e.executed + [id]), S.BeginOp(id, Tick(now)), now);
      if t.None? || id !in e.inbound {
        MovesBy(e, b, S.BeginOp(id, Tick(now)), now);
        ReleaseMoves(b, id, lease, now);
        MovesBoth(e, b, ReleaseLease(b, id, lease, now), now);
      }
    }
  }

  lemma {:induction false} ReleaseMoves(e: Engine, id: Name, lease: P.Lease, now: int)
    ensures Moves(e, ReleaseLease(e, id, lease, now), now)
    decreases |e.policy.queue|, 1
  {
    ReleaseShrinks(e.policy, lease.handle);
    DrainMoves(e.(policy := P.Release(e.policy, lease.handle), leases := e.leases - {id}), now);
  }

  lemma {:induction false} DrainMoves(e: Engine, now: int)
    ensures Moves(e, DrainQueue(e, now), now)
    decreases |e.policy.queue|, 0
  {
    ByNothing(e.store, now);
    if SlotFree(e) {
      var (p, t) := P.Dequeue(e.policy, At(e, now), At(e, now));
      DequeueShrinks(e.policy, At(e, now), At(e, now));
      var d := e.(policy := p);
      if t.Some? {
        ReleaseShrinks(p, t.value.handle);
        if t.value.entry.requestId.None? || t.value.entry.requestId.value !in e.inbound {
          DrainMoves(d.(policy := P.Release(p, t.value.handle)), now);
        } else {
          var g, id := Granted(d, t.value), t.value.entry.requestId.value;
          var m := DispatchLease(g, id, P.LeaseOf(t.value), now);
          DispatchMoves(g, id, P.LeaseOf(t.value), now);
          DrainMoves(m, now);
          MovesBoth(g, m, DrainQueue(m, now), now);
        }
      }
    }
  }

  /* ---------- finishing ---------- */

  lemma VacateMoves(e: Engine, id: Name, now: int)
    ensures Moves(e, Vacate(e, id, now), now)
  {
    var f := e.(timers := e.timers - {id});
    if id in f.leases {
      ReleaseMoves(f, id, f.leases[id], now);
    } else {
      DrainMoves(f.(policy := P.CancelByRequestId(f.policy, id, At(f, now), At(f, now))), now);
    }
  }

  lemma FinishMoves(e: Engine, id: Name, t: Option<Task>, now: int)
    ensures Moves(e, FinishTask(e, id, t, now), now)
  {
    ByNothing(e.store, now);
    if t.Some? && IsTerminal(t.value.state) {
      VacateMoves(e, id, now);
      ReplyStays(Vacate(e, id, now), id, t.value, now);
    }
  }

  lemma ReplyStays(e: Engine, id: Name, t: Task, now: int)
    ensures Stays(e, FinishOutbound(SendTerminalReply(e, id, t, now), id, t))
  {
    assert Stays(e, SendTerminalReply(e, id, t, now));
  }

  /** One call of the store, and then the clean-up of what it answered. */
  lemma CallThenFinish(e: Engine, f: Engine, op: S.Op, id: Name, t: Option<Task>, now: int)
    requires S.ClockOf(op).Some? ==> S.ClockOf(op).value == Tick(now)
    requires f.config == e.config && f.executed == e.executed && f.store == S.Apply(e.store, op)
    ensures Moves(e, f, now) && Moves(e, FinishTask(f, id, t, now), now)
  {
    MovesBy(e, f, op, now);
    FinishMoves(f, id, t, now);
    MovesBoth(e, f, FinishTask(f, id, t, now), now);
  }

  lemma SettleMoves(e: Engine, id: Name, next: TaskState, u: Update, now: int)
    ensures Moves(e, Settle(e, id, next, u, now), now)
  {
    var (s, r) := TryTransition(e.store, id, None, next, u, Tick(now));
    CallThenFinish(e, e.(store := s), S.TransitionOp(id, None, next, u, Tick(now)), id,
                   if r.Changed? then Some(r.task) else None, now);
  }

  lemma CompleteMoves(e: Engine, id: Name, content: Content, valid: bool, now: int)
    ensures Moves(e, CompleteTask(e, id, content, valid, now), now)
  {
    ByNothing(e.store, now);
    SettleMoves(e, id, Completed, NO_UPDATE.(content := Some(content)), now);
  }

  lemma ExecutorReturnsMoves(e: Engine, id: Name, result: ExecutorResult, now: int)
    ensures Moves(e, ApplyExecutorResult(e, id, result, now), now)
  {
    var (s, t) := Read(e.store, id, Tick(now));
    var f := e.(store := s);
    CallThenFinish(e, f, S.ReadOp(id, Tick(now)), id, t, now);
    if t.Some? && !IsTerminal(t.value.state) && !result.Nothing? {
      match result
      case Returned(content, valid) => CompleteMoves(f, id, content, valid, now);
      case FailedWith(error) => SettleMoves(f, id, Failed, NO_UPDATE.(error := Some(error)), now);
      case RejectedWith(error) => SettleMoves(f, id, Rejected, NO_UPDATE.(error := Some(error)), now);
      MovesBoth(e, f, ApplyExecutorResult(e, id, result, now), now);
    }
  }

  lemma ExecutorThrowsMoves(e: Engine, id: Name, now: int)
    ensures Moves(e, HandleExecutorFailure(e, id, now), now)
  {
    var (s, t) := Read(e.store, id, Tick(now));
    var f := e.(store := s);
    CallThenFinish(e, f, S.ReadOp(id, Tick(now)), id, t, now);
    if t.Some? && !IsTerminal(t.value.state) {
      SettleMoves(f, id, Cancelled, Update(None, Some(CancelledError), true, None, None), now);
      SettleMoves(f, id, Failed, NO_UPDATE.(error := Some(Internal)), now);
      MovesBoth(e, f, HandleExecutorFailure(e, id, now), now);
    }
  }

  lemma RouterTimerMoves(e: Engine, id: Name, now: int)
    ensures Moves(e, RouterTimer(e, id, now), now)
  {
    var (s, t) := Read(e.store, id, Tick(now));
    var f := e.(timers := e.timers - {id}, store := s);
    MovesBy(e, f, S.ReadOp(id, Tick(now)), now);
    if t.Some? && !IsTerminal(t.value.state) {
      var (s', t') := ExpireTask(f.store, id, Tick(now));
      CallThenFinish(f, f.(store := s'), S.ExpireOp(id, Tick(now)), id, t', now);
      MovesBoth(e, f, FinishTask(f.(store := s'), id, t', now), now);
    }
  }

  lemma CancelLocallyMoves(e: Engine, id: Name, caller: Option<Name>, reason: bool, now: int)
    ensures Moves(e, CancelLocally(e, id, caller, reason, now), now)
  {
    var (s, r) := CancelTask(e.store, id, caller, None, reason, Tick(now));
    CallThenFinish(e, e.(store := s), S.CancelOp(id, caller, None, reason, Tick(now)), id,
                   if r.CancelOk? then Some(r.task) else r.current, now);
  }

  /* ---------- what arrives ---------- */

  lemma RequestMoves(e: Engine, r: Request, handle: Name, now: int)
    ensures Moves(e, ProcessRequest(e, r, handle, now).0, now)
  {
    var id := r.envelope.operationId;
    var (d, decision) := D.Inspect(e.dedupe, r.envelope, now);
    MovesBy(e, e.(dedupe := d), S.ReadOp(id, Tick(now)), now);
    if DedupeAnswer(decision).None? && |e.inbound| < MAX_TRACKED_TASKS {
      var f := e.(dedupe := d, store := ExpireIfDue(e.store, id, Tick(now)));
      MovesBy(e, f, S.ReadOp(id, Tick(now)), now);
      AdmitMoves(f, r, handle, now);
      MovesBoth(e, f, AdmitRequest(f, r, handle, now).0, now);
    }
  }

  lemma AdmitMoves(e: Engine, r: Request, handle: Name, now: int)
    ensures Moves(e, AdmitRequest(e, r, handle, now).0, now)
  {
    var (p, admission) :=
      P.Admit(e.policy, EntryFor(r, handle, SlotFree(e)), handle, SlotFree(e), At(e, now), At(e, now));
    ByNothing(e.store, now);
    RecordMoves(e.(policy := p), r, handle, e.policy.nextToken, admission, now);
  }

  lemma RecordMoves(e: Engine, r: Request, handle: Name, token: nat, admission: P.Admission, now: int)
    ensures Moves(e, RecordRequest(e, r, handle, token, admission, now).0, now)
  {
    var (d, decision) := D.Reserve(e.dedupe, r.envelope, now);
    ByNothing(e.store, now);
    if decision.Reserved? {
      TakeMoves(e.(dedupe := d), r, handle, token, admission, decision.reservation, now);
    }
  }

  lemma TakeMoves(e: Engine, r: Request, handle: Name, token: nat, admission: P.Admission, v: D.Reservation, now: int)
    ensures Moves(e, TakeRequest(e, r, handle, token, admission, v, now).0, now)
  {
    var i := CreationFor(e.config, r, admission.Admitted?);
    var (s, created) := TaskStoreSpec.CreateTask(e.store, i, Tick(now), now);
    var f := e.(store := s);
    MovesBy(e, f, S.CreateOp(i, Tick(now), now), now);
    if created.NewTask? {
      var response := Success(AdmissionResult(r.envelope.operationId, created.task.state));
      var g := f.(dedupe := D.Commit(e.dedupe, v, response, Some(r.envelope.operationId), now).0);
      StartMoves(g, r, token, admission, now);
      MovesBoth(e, g, StartRequest(g, r, token, admission, now), now);
    }
  }

  lemma StartMoves(e: Engine, r: Request, token: nat, admission: P.Admission, now: int)
    ensures Moves(e, StartRequest(e, r, token, admission, now), now)
  {
    var id := r.envelope.operationId;
    ByNothing(e.store, now);
    if admission.Admitted? {
      var f := e.(inbound := e.inbound[id := InboundRecord(r, false)], timers := e.timers + {id});
      var g := f.(leases := f.leases[id := admission.lease], grants := f.grants + [Grant(token, id)]);
      DispatchMoves(g, id, admission.lease, now);
    }
  }

  lemma CancelMoves(e: Engine, c: Envelope, id: Name, reason: bool, now: int)
    ensures Moves(e, ProcessCancel(e, c, id, reason, now).0, now)
  {
    var (s, r) := CancelTask(e.store, id, Some(c.sender), None, reason, Tick(now));
    var f := e.(dedupe := D.Reserve(e.dedupe, c, now).0, store := s);
    ByNothing(e.store, now);
    CancelCases(e, c, id, reason, now);
    CallThenFinish(e, f, S.CancelOp(id, Some(c.sender), None, reason, Tick(now)), id,
                   if r.CancelOk? then Some(r.task) else None, now);
  }

  /** A peer's cancellation does nothing to the store, or cancels, or cancels and cleans up. */
  lemma CancelCases(e: Engine, c: Envelope, id: Name, reason: bool, now: int)
    ensures var (s, r) := CancelTask(e.store, id, Some(c.sender), None, reason, Tick(now));
            var f := e.(dedupe := D.Reserve(e.dedupe, c, now).0, store := s);
            var o := ProcessCancel(e, c, id, reason, now).0;
            Stays(e, o) || Stays(f, o) || (r.CancelOk? && Stays(FinishTask(f, id, Some(r.task), now), o))
  {
    var (s, r) := CancelTask(e.store, id, Some(c.sender), None, reason, Tick(now));
    var f := e.(dedupe := D.Reserve(e.dedupe, c, now).0, store := s);
    if r.CancelOk? && D.Reserve(e.dedupe, c, now).1.Reserved? && e.config.supportsCancellation {
      var h := if r.task.state.Cancelled? then FinishTask(f, id, Some(r.task), now) else f;
      assert Stays(h, ProcessCancel(e, c, id, reason, now).0);
    }
  }

  lemma TransitionBy(s: StoreState, o: StoreState, id: Name, next: TaskState, u: Update, now: int)
    requires o == s || o == TryTransition(s, id, None, next, u, Tick(now)).0
    ensures By(s, o, now)
  {
    ByNothing(s, now);
    ByOne(s, S.TransitionOp(id, None, next, u, Tick(now)), now);
  }

  lemma ReplyEndBy(b: StoreState, m: ReplyMessage, now: int)
    ensures By(b, ReplyEnd(b, m, now).0, now)
  {
    var id, c := m.requestId, Tick(now);
    var o := ReplyEnd(b, m, now).0;
    match m.outcome
    case Completed => TransitionBy(b, o, id, Completed, NO_UPDATE.(content := m.content), now);
    case Failed => TransitionBy(b, o, id, Failed, NO_UPDATE.(error := m.error), now);
    case Rejected => TransitionBy(b, o, id, Rejected, NO_UPDATE.(error := m.error), now);
    case Cancelled =>
      var asked := NO_UPDATE.(cancellationRequested := true);
      var d := if id in b.tasks && b.tasks[id].state.Working? then TryTransition(b, id, None, Cancelling, asked, c).0
               else b;
      var error := if m.error.Some? then m.error else Some(CancelledError);
      TransitionBy(b, d, id, Cancelling, asked, now);
      TransitionBy(d, o, id, Cancelled, asked.(error := error), now);
      ByBoth(b, d, o, now, now);
    case _ => ByOne(b, S.ExpireOp(id, c), now);
  }

  lemma ApplyReplyBy(s: StoreState, m: ReplyMessage, now: int)
    ensures By(s, ApplyReply(s, m, now).0, now)
  {
    var id, c := m.requestId, Tick(now);
    var a := if id in s.tasks && s.tasks[id].state.Created? then TryTransition(s, id, None, Accepted, NO_UPDATE, c).0
             else s;
    var b := if id in a.tasks && a.tasks[id].state in {Accepted, Queued}
             then TryTransition(a, id, None, Working, NO_UPDATE, c).0 else a;
    TransitionBy(s, a, id, Accepted, NO_UPDATE, now);
    TransitionBy(a, b, id, Working, NO_UPDATE, now);
    ReplyEndBy(b, m, now);
    ByBoth(s, a, b, now, now);
    ByBoth(s, b, ApplyReply(s, m, now).0, now, now);
  }

  lemma ReplyMoves(e: Engine, m: ReplyMessage, now: int)
    ensures Moves(e, ProcessReply(e, m, now).0, now)
  {
    var (s, task) := Read(e.store, m.requestId, Tick(now));
    var f := e.(store := s);
    MovesBy(e, f, S.ReadOp(m.requestId, Tick(now)), now);
    if ReplyRefusal(f, m, task).None? {
      var applied := ApplyReply(s, m, now);
      ApplyReplyBy(s, m, now);
      ByNothing(s, now);
      AcceptMoves(f, task.value, m, applied, now);
      MovesBoth(e, f, AcceptReply(f, task.value, m, applied, now).0, now);
    }
  }

  lemma AcceptMoves(f: Engine, task: Task, m: ReplyMessage, applied: (StoreState, Option<Task>), now: int)
    requires By(f.store, f.store, now) && By(f.store, applied.0, now)
    ensures Moves(f, AcceptReply(f, task, m, applied, now).0, now)
  {
    AcceptCases(f, task, m, applied, now);
  }

  lemma AcceptCases(f: Engine, task: Task, m: ReplyMessage, applied: (StoreState, Option<Task>), now: int)
    ensures var o := AcceptReply(f, task, m, applied, now).0; Stays(f, o) || Stays(f.(store := applied.0), o)
  {
  }

  lemma AckMoves(e: Engine, id: Name, ack: Ack, now: int)
    ensures Moves(e, ApplyResponse(e, id, ack, now), now)
  {
    var a := TryTransition(e.store, id, None, Accepted, NO_UPDATE, Tick(now)).0;
    TransitionBy(e.store, a, id, Accepted, NO_UPDATE, now);
    TransitionBy(a, AckStore(e.store, id, ack, now), id, Queued, NO_UPDATE, now);
    ByBoth(e.store, a, AckStore(e.store, id, ack, now), now, now);
    ByNothing(e.store, now);
  }

  lemma SentMoves(e: Engine, id: Name, target: Name, createdAt: int, expiresAt: int, now: int)
    ensures Moves(e, SendRequest(e, id, target, createdAt, expiresAt, now), now)
  {
    var me := e.config.runtimeId;
    var i := Creation(id, me, me, Some(target), Outbound, Created, createdAt, expiresAt, false, None, None, None);
    MovesBy(e, SendRequest(e, id, target, createdAt, expiresAt, now), S.CreateOp(i, Tick(now), now), now);
  }

  /* ---------- every step and every run ---------- */

  /** The steps of executors and of the router's timers. */
  lemma WorkMoves(e: Engine, ev: RouterSpec.Event, now: int)
    requires ev.ExecutorReturns? || ev.ExecutorThrows? || ev.RouterTimerFires?
    ensures Moves(e, Step(e, ev, now), now)
  {
    match ev
    case ExecutorReturns(id, result) => ExecutorReturnsMoves(e, id, result, now);
    case ExecutorThrows(id) => ExecutorThrowsMoves(e, id, now);
    case RouterTimerFires(id) => RouterTimerMoves(e, id, now);
  }

  /** The steps of the owner of the router. */
  lemma LocalMoves(e: Engine, ev: RouterSpec.Event, now: int)
    requires ev.TaskCompleted? || ev.TaskFailed? || ev.TaskRejected? || ev.TaskCancelled? || ev.RequestSent?
    ensures Moves(e, Step(e, ev, now), now)
  {
    match ev
    case TaskCompleted(id, content, valid) => CompleteMoves(e, id, content, valid, now);
    case TaskFailed(id, error) => SettleMoves(e, id, Failed, NO_UPDATE.(error := Some(error)), now);
    case TaskRejected(id, error) => SettleMoves(e, id, Rejected, NO_UPDATE.(error := Some(error)), now);
    case TaskCancelled(id, caller, reason) => CancelLocallyMoves(e, id, caller, reason, now);
    case RequestSent(id, target, createdAt, expiresAt) => SentMoves(e, id, target, createdAt, expiresAt, now);
  }

  /** The steps of peers. */
  lemma PeerMoves(e: Engine, ev: RouterSpec.Event, now: int)
    requires ev.RequestArrives? || ev.CancelArrives? || ev.ReplyArrives? || ev.AckArrives?
    ensures Moves(e, Step(e, ev, now), now)
  {
    match ev
    case RequestArrives(r, handle) => RequestMoves(e, r, handle, now);
    case CancelArrives(c, id, reason) => CancelMoves(e, c, id, reason, now);
    case ReplyArrives(m) => ReplyMoves(e, m, now);
    case AckArrives(id, ack) => AckMoves(e, id, ack, now);
  }

  /** The steps that call the store once or not at all. */
  lemma SingleMoves(e: Engine, ev: RouterSpec.Event, now: int)
    requires ev.NotificationArrives? || ev.NotificationHandled? || ev.StatusRead? || ev.StoreTimerFires?
             || ev.PurgeTimerFires? || ev.ReplySettled?
    ensures Moves(e, Step(e, ev, now), now)
  {
    match ev
    case StatusRead(id) => MovesBy(e, Step(e, ev, now), S.ReadOp(id, Tick(now)), now);
    case StoreTimerFires(id) => MovesBy(e, Step(e, ev, now), S.ExpireOp(id, Tick(now)), now);
    case PurgeTimerFires(id) => MovesBy(e, Step(e, ev, now), S.PurgeOp(id), now);
    case _ => ByNothing(e.store, now);
  }

  lemma StepMoves(e: Engine, ev: RouterSpec.Event, now: int)
    ensures Moves(e, Step(e, ev, now), now)
  {
    if ev.ExecutorReturns? || ev.ExecutorThrows? || ev.RouterTimerFires? {
      WorkMoves(e, ev, now);
    } else if ev.TaskCompleted? || ev.TaskFailed? || ev.TaskRejected? || ev.TaskCancelled? || ev.RequestSent? {
      LocalMoves(e, ev, now);
    } else if ev.RequestArrives? || ev.CancelArrives? || ev.ReplyArrives? || ev.AckArrives? {
      PeerMoves(e, ev, now);
    } else {
      SingleMoves(e, ev, now);
    }
  }

  /** Every run of the router moves its store by a run of the store. */
  lemma RunMoves(e: Engine, steps: seq<Timed>, now: int)
    requires IsRun(e, steps, now)
    ensures Moves(e, Traces.End(e, steps), now)
  {
    var inv := (u: Engine, at: int) => Moves(e, u, now) && now <= at;
    forall u, at, t | inv(u, at) && Follows(u, at, t) ensures inv(t.after, t.now) {
      StepMoves(u, t.event, t.now);
      ByBoth(e.store, u.store, t.after.store, now, t.now);
    }
    ByNothing(e.store, now);
    Traces.RunsKeep(Follows, inv, e, steps, now);
  }

  /** In every run of a new router, with any retention: every record of the task store lives one path of the
      transition table from its birth to its present state, with at most one terminal step, and between any two
      points of the run flags, aborts and timestamps do not go back. */
  lemma TasksLiveOnceInRuns(config: Config, queueCapacity: nat, activeCapacity: nat, retention: Option<nat>,
      grace: nat, now: int, before: seq<Timed>, after: seq<Timed>)
    requires var start := Init(config, queueCapacity, activeCapacity, retention, grace, now);
             IsRun(start, before, now) && IsRun(Traces.End(start, before), after, Traces.EndTime(before, now))
    ensures var start := Init(config, queueCapacity, activeCapacity, retention, grace, now);
            var s, o := Traces.End(start, before).store, Traces.End(Traces.End(start, before), after).store;
            && S.StoreGrows(s, o)
            && (forall u: nat :: S.IsLife(S.Path(o.log, u)))
            && forall id | id in o.tasks :: S.Last(S.Path(o.log, o.tasks[id].uid)) == Some(o.tasks[id].state)
  {
    var start := Init(config, queueCapacity, activeCapacity, retention, grace, now);
    var m := Traces.End(start, before);
    RunMoves(start, before, now);
    RunMoves(m, after, Traces.EndTime(before, now));
    var a :| m.store == S.Run(start.store, a);
    var b :| Traces.End(m, after).store == S.Run(m.store, b);
    assert start.store == S.Init(retention, true, Some(config.runtimeId));
    S.EveryRunIsFaithful(retention, true, Some(config.runtimeId), a, b);
    var o := S.Run(m.store, b);
    forall id | id in o.tasks ensures S.Last(S.Path(o.log, o.tasks[id].uid)) == Some(o.tasks[id].state) {
      assert S.TaskInv(o, id, o.tasks[id]);
    }
  }

  /** In every run of a new router: once a task's deadline has come, the last event of its record is the one it
      had then or its expiry, whatever happens after, even if it is purged and its id used again. */
  lemma DeadlineWinsInRouterRuns(config: Config, queueCapacity: nat, activeCapacity: nat, retention: Option<nat>,
      grace: nat, now: int, before: seq<Timed>, after: seq<Timed>, id: Name)
    requires var start := Init(config, queueCapacity, activeCapacity, retention, grace, now);
             var s, at := Traces.End(start, before), Traces.EndTime(before, now);
             IsRun(start, before, now) && IsRun(s, after, at) && id in s.store.tasks && IsDue(s.store.tasks[id], at)
    ensures var start := Init(config, queueCapacity, activeCapacity, retention, grace, now);
            var s := Traces.End(start, before);
            var t := s.store.tasks[id];
            S.Last(S.Path(Traces.End(s, after).store.log, t.uid)) in {Some(t.state), Some(Expired)}
  {
    var start := Init(config, queueCapacity, activeCapacity, retention, grace, now);
    var s, at := Traces.End(start, before), Traces.EndTime(before, now);
    RunMoves(start, before, now);
    RunMoves(s, after, at);
    var a :| s.store == S.Run(start.store, a);
    var b :| S.NotBefore(b, at) && Traces.End(s, after).store == S.Run(s.store, b);
    assert start.store == S.Init(retention, true, Some(config.runtimeId));
    S.InitInv(retention, true, Some(config.runtimeId));
    S.RunInv(start.store, a);
    S.DeadlineWinsInRuns(s.store, b, id, at);
  }
}
