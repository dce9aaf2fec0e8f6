/** The dedupe store inside whole runs of the router: draining and finishing never touch it, and every
    other step uses it as its own theorems ask. */
module RouterDedupe {
  import opened TaskStates
  import opened TaskStoreSpec
  import opened Messages
  import opened RouterSpec
  import opened RouterFrames
  import P = PolicySpec
  import D = DedupeSpec
  import Traces

  /* ---------- what leaves the dedupe store alone ---------- */

  lemma DispatchQuiet(e: Engine, id: Name, lease: P.Lease, now: int)
    ensures DispatchLease(e, id, lease, now).dedupe == e.dedupe
  {
    DispatchFrame(e, id, lease, now);
  }

  lemma VacateQuiet(e: Engine, id: Name, now: int)
    ensures Vacate(e, id, now).dedupe == e.dedupe
  {
    VacateFrame(e, id, now);
  }

  lemma FinishQuiet(e: Engine, id: Name, t: Option<Task>, now: int)
    ensures FinishTask(e, id, t, now).dedupe == e.dedupe
  {
    VacateQuiet(e, id, now);
  }

  lemma SettleQuiet(e: Engine, id: Name, next: TaskState, u: Update, now: int)
    ensures Settle(e, id, next, u, now).dedupe == e.dedupe
  {
    var (s, r) := TryTransition(e.store, id, None, next, u, Tick(now));
    FinishQuiet(e.(store := s), id, if r.Changed? then Some(r.task) else None, now);
  }

  /** The steps of executors and timers. */
  lemma WorkQuiet(e: Engine, ev: RouterSpec.Event, now: int)
    requires ev.ExecutorReturns? || ev.ExecutorThrows? || ev.TaskCompleted? || ev.TaskFailed? || ev.TaskRejected?
        || ev.TaskCancelled? || ev.RouterTimerFires?
    ensures Step(e, ev, now).dedupe == e.dedupe
  {
    match ev
    case ExecutorReturns(id, result) => ExecutorQuiet(e, id, result, now);
    case ExecutorThrows(id) => ThrowQuiet(e, id, now);
    case TaskCompleted(id, content, valid) => SettleQuiet(e, id, Completed, NO_UPDATE.(content := Some(content)), now);
    case TaskFailed(id, error) => SettleQuiet(e, id, Failed, NO_UPDATE.(error := Some(error)), now);
    case TaskRejected(id, error) => SettleQuiet(e, id, Rejected, NO_UPDATE.(error := Some(error)), now);
    case TaskCancelled(id, caller, reason) =>
      var (s, r) := CancelTask(e.store, id, caller, None, reason, Tick(now));
      FinishQuiet(e.(store := s), id, if r.CancelOk? then Some(r.task) else r.current, now);
    case RouterTimerFires(id) => TimerQuiet(e, id, now);
  }

  lemma ThrowQuiet(e: Engine, id: Name, now: int)
    ensures HandleExecutorFailure(e, id, now).dedupe == e.dedupe
  {
    var (s, t) := Read(e.store, id, Tick(now));
    var f := e.(store := s);
    FinishQuiet(f, id, t, now);
    SettleQuiet(f, id, Cancelled, Update(None, Some(CancelledError), true, None, None), now);
    SettleQuiet(f, id, Failed, NO_UPDATE.(error := Some(Internal)), now);
  }

  lemma TimerQuiet(e: Engine, id: Name, now: int)
    ensures RouterTimer(e, id, now).dedupe == e.dedupe
  {
    var f := e.(timers := e.timers - {id}, store := Read(e.store, id, Tick(now)).0);
    var (s, t) := ExpireTask(f.store, id, Tick(now));
    FinishQuiet(f.(store := s), id, t, now);
  }

  lemma ExecutorQuiet(e: Engine, id: Name, result: ExecutorResult, now: int)
    ensures ApplyExecutorResult(e, id, result, now).dedupe == e.dedupe
  {
    var (s, t) := Read(e.store, id, Tick(now));
    var f := e.(store := s);
    FinishQuiet(f, id, t, now);
    match result
    case Nothing =>
    case Returned(content, valid) => SettleQuiet(f, id, Completed, NO_UPDATE.(content := Some(content)), now);
    case FailedWith(error) => SettleQuiet(f, id, Failed, NO_UPDATE.(error := Some(error)), now);
    case RejectedWith(error) => SettleQuiet(f, id, Rejected, NO_UPDATE.(error := Some(error)), now);
  }

  /* ---------- what uses it ---------- */

  /** What was reserved in this step is left, released, or committed with an answer that is not busy. */
  ghost predicate Reserves(s: D.DedupeState, o: D.DedupeState, v: Envelope, now: int) {
    var (d, decision) := D.Reserve(s, v, now);
    && v.expiresAt > now
    && (|| o == d
        || (decision.Reserved? && o == D.Release(d, decision.reservation, now).0)
        || (decision.Reserved? && Commits(d, o, decision.reservation, now)))
  }

  ghost predicate Commits(s: D.DedupeState, o: D.DedupeState, v: D.Reservation, now: int) {
    exists response, reference :: !D.IsBusy(response) && o == D.Commit(s, v, response, reference, now).0
  }

  /** Everything a step of the router can do with the dedupe store. */
  ghost predicate Uses(s: D.DedupeState, o: D.DedupeState, now: int) {
    || o == s
    || o == D.Prune(s, now)
    || (exists v :: Reserves(s, o, v, now))
    || (exists v :: Commits(s, o, v, now))
  }

  lemma ReservesInv(s: D.DedupeState, o: D.DedupeState, v: Envelope, now: int)
    requires D.DedupeInv(s, now) && Reserves(s, o, v, now)
    ensures D.DedupeInv(o, now)
  {
    var (d, decision) := D.Reserve(s, v, now);
    D.ReserveInv(s, now, v, now);
    if o != d {
      D.ReleaseInv(d, now, decision.reservation, now);
      if Commits(d, o, decision.reservation, now) {
        CommitsInv(d, o, decision.reservation, now);
      }
    }
  }

  lemma CommitsInv(s: D.DedupeState, o: D.DedupeState, v: D.Reservation, now: int)
    requires D.DedupeInv(s, now) && Commits(s, o, v, now)
    ensures D.DedupeInv(o, now)
  {
    var response, reference :| !D.IsBusy(response) && o == D.Commit(s, v, response, reference, now).0;
    D.CommitInv(s, now, v, response, reference, now);
  }

  lemma UsesInv(s: D.DedupeState, o: D.DedupeState, now: int)
    requires D.DedupeInv(s, now) && Uses(s, o, now)
    ensures D.DedupeInv(o, now)
  {
    D.PruneInv(s, now, now);
    if v :| Reserves(s, o, v, now) {
      ReservesInv(s, o, v, now);
    } else if v :| Commits(s, o, v, now) {
      CommitsInv(s, o, v, now);
    }
  }

  /* ---------- how each step uses it ---------- */

  lemma RequestUses(e: Engine, r: Request, handle: Name, now: int)
    requires r.envelope.expiresAt > now
    ensures Uses(e.dedupe, ProcessRequest(e, r, handle, now).0.dedupe, now)
  {
    var f := Inspected(e, r, now);
    var o := ProcessRequest(e, r, handle, now).0.dedupe;
    RequestEnds(e, r, handle, now);
    AdmitUses(f, r, handle, now);
    if Reserves(f.dedupe, o, r.envelope, now) {
      PrunedReserves(e.dedupe, o, r.envelope, now);
    }
  }

  /** The router when admission begins: the dedupe store was pruned and the task read. */
  ghost function Inspected(e: Engine, r: Request, now: int): Engine {
    e.(dedupe := D.Prune(e.dedupe, now), store := ExpireIfDue(e.store, r.envelope.operationId, Tick(now)))
  }

  lemma RequestEnds(e: Engine, r: Request, handle: Name, now: int)
    ensures var o := ProcessRequest(e, r, handle, now).0;
            o.dedupe == D.Prune(e.dedupe, now) || o == AdmitRequest(Inspected(e, r, now), r, handle, now).0
  {
  }

  lemma PrunedReserves(s: D.DedupeState, o: D.DedupeState, v: Envelope, now: int)
    requires Reserves(D.Prune(s, now), o, v, now)
    ensures Reserves(s, o, v, now)
  {
    assert D.Prune(D.Prune(s, now), now) == D.Prune(s, now);
    assert D.Reserve(D.Prune(s, now), v, now) == D.Reserve(s, v, now);
  }

  lemma AdmitUses(e: Engine, r: Request, handle: Name, now: int)
    requires r.envelope.expiresAt > now
    ensures var o := AdmitRequest(e, r, handle, now).0.dedupe;
            o == e.dedupe || Reserves(e.dedupe, o, r.envelope, now)
  {
    var (p, admission) :=
      P.Admit(e.policy, EntryFor(r, handle, SlotFree(e)), handle, SlotFree(e), At(e, now), At(e, now));
    RecordUses(e.(policy := p), r, handle, e.policy.nextToken, admission, now);
  }

  lemma RecordUses(e: Engine, r: Request, handle: Name, token: nat, admission: P.Admission, now: int)
    requires r.envelope.expiresAt > now
    ensures Reserves(e.dedupe, RecordRequest(e, r, handle, token, admission, now).0.dedupe, r.envelope, now)
  {
    var (d, decision) := D.Reserve(e.dedupe, r.envelope, now);
    if decision.Reserved? {
      TakeUses(e.(dedupe := d), r, handle, token, admission, decision.reservation, now);
    }
  }

  lemma TakeUses(e: Engine, r: Request, handle: Name, token: nat, admission: P.Admission, v: D.Reservation, now: int)
    ensures var o := TakeRequest(e, r, handle, token, admission, v, now).0.dedupe;
            o == D.Release(e.dedupe, v, now).0 || Commits(e.dedupe, o, v, now)
  {
    var (s, created) :=
      TaskStoreSpec.CreateTask(e.store, CreationFor(e.config, r, admission.Admitted?), Tick(now), now);
    if created.NewTask? {
      var response := Success(AdmissionResult(r.envelope.operationId, created.task.state));
      var d := D.Commit(e.dedupe, v, response, Some(r.envelope.operationId), now).0;
      StartQuiet(e.(store := s, dedupe := d), r, token, admission, now);
      assert !D.IsBusy(response);
    }
  }

  lemma StartQuiet(e: Engine, r: Request, token: nat, admission: P.Admission, now: int)
    ensures StartRequest(e, r, token, admission, now).dedupe == e.dedupe
  {
    var id := r.envelope.operationId;
    if admission.Admitted? {
      var f := e.(inbound := e.inbound[id := InboundRecord(r, false)], timers := e.timers + {id});
      var g := f.(leases := f.leases[id := admission.lease], grants := f.grants + [Grant(token, id)]);
      DispatchQuiet(g, id, admission.lease, now);
    }
  }

  lemma CancelUses(e: Engine, c: Envelope, id: Name, reason: bool, now: int)
    requires c.expiresAt > now
    ensures Uses(e.dedupe, ProcessCancel(e, c, id, reason, now).0.dedupe, now)
  {
    var o := ProcessCancel(e, c, id, reason, now).0.dedupe;
    if e.config.supportsCancellation {
      CancelReserves(e, c, id, reason, now);
      assert Reserves(e.dedupe, o, c, now);
    }
  }

  lemma CancelReserves(e: Engine, c: Envelope, id: Name, reason: bool, now: int)
    requires c.expiresAt > now && e.config.supportsCancellation
    ensures Reserves(e.dedupe, ProcessCancel(e, c, id, reason, now).0.dedupe, c, now)
  {
    var (d, decision) := D.Reserve(e.dedupe, c, now);
    var (s, r) := CancelTask(e.store, id, Some(c.sender), None, reason, Tick(now));
    if decision.Reserved? && r.CancelOk? {
      FinishQuiet(e.(dedupe := d, store := s), id, Some(r.task), now);
      var response := Success(SnapshotResult(r.task));
      assert !D.IsBusy(response);
      assert ProcessCancel(e, c, id, reason, now).0.dedupe
          == D.Commit(d, decision.reservation, response, Some(id), now).0;
    }
  }

  lemma ReplyUses(e: Engine, m: ReplyMessage, now: int)
    requires m.envelope.expiresAt > now
    ensures Uses(e.dedupe, ProcessReply(e, m, now).0.dedupe, now)
  {
    var (s, task) := Read(e.store, m.requestId, Tick(now));
    if ReplyRefusal(e.(store := s), m, task).None? {
      AcceptUses(e.(store := s), task.value, m, ApplyReply(s, m, now), now);
      assert Reserves(e.dedupe, ProcessReply(e, m, now).0.dedupe, m.envelope, now);
    }
  }

  lemma AcceptUses(e: Engine, task: Task, m: ReplyMessage, applied: (StoreState, Option<Task>), now: int)
    requires m.envelope.expiresAt > now
    ensures Reserves(e.dedupe, AcceptReply(e, task, m, applied, now).0.dedupe, m.envelope, now)
  {
    var (d, decision) := D.Reserve(e.dedupe, m.envelope, now);
    var response := Success(ReplyDelivered(m.requestId, m.outcome));
    assert !D.IsBusy(response);
    if decision.Reserved? {
      var v := decision.reservation;
      assert Commits(d, D.Commit(d, v, response, Some(m.requestId), now).0, v, now);
    }
  }

  lemma NotifyUses(e: Engine, n: Envelope, now: int)
    requires n.expiresAt > now
    ensures Uses(e.dedupe, NotifyStart(e, n, now).0.dedupe, now)
  {
    assert Reserves(e.dedupe, D.Reserve(e.dedupe, n, now).0, n, now);
  }

  lemma HandledUses(e: Engine, v: D.Reservation, delivered: bool, now: int)
    ensures Uses(e.dedupe, NotifyDone(e, v, delivered, now).dedupe, now)
  {
    var response := if delivered then Success(NotificationDelivered) else Failure(Internal);
    assert !D.IsBusy(response);
    assert Commits(e.dedupe, NotifyDone(e, v, delivered, now).dedupe, v, now);
  }

  /** The steps that leave it alone. */
  lemma OthersQuiet(e: Engine, ev: RouterSpec.Event, now: int)
    requires ev.StatusRead? || ev.StoreTimerFires? || ev.PurgeTimerFires? || ev.ReplySettled? || ev.RequestSent?
             || ev.AckArrives?
    ensures Step(e, ev, now).dedupe == e.dedupe
  {
  }

  lemma StepUses(e: Engine, ev: RouterSpec.Event, now: int)
    requires Enabled(e, ev, now)
    ensures Uses(e.dedupe, Step(e, ev, now).dedupe, now)
  {
    match ev
    case RequestArrives(r, handle) => RequestUses(e, r, handle, now);
    case NotificationArrives(n) => NotifyUses(e, n, now);
    case NotificationHandled(v, delivered) => HandledUses(e, v, delivered, now);
    case CancelArrives(c, id, reason) => CancelUses(e, c, id, reason, now);
    case ReplyArrives(m) => ReplyUses(e, m, now);
    case _ => StepQuiet(e, ev, now);
  }

  lemma StepQuiet(e: Engine, ev: RouterSpec.Event, now: int)
    requires !ev.RequestArrives? && !ev.NotificationArrives? && !ev.NotificationHandled? && !ev.CancelArrives?
    requires !ev.ReplyArrives?
    ensures Step(e, ev, now).dedupe == e.dedupe
  {
    if ev.StatusRead? || ev.StoreTimerFires? || ev.PurgeTimerFires? || ev.ReplySettled? || ev.RequestSent?
        || ev.AckArrives? {
      OthersQuiet(e, ev, now);
    } else {
      WorkQuiet(e, ev, now);
    }
  }

  lemma StepDedupe(e: Engine, now: int, t: Timed)
    requires D.DedupeInv(e.dedupe, now) && Follows(e, now, t)
    ensures D.DedupeInv(t.after.dedupe, t.now)
  {
    LaterDedupe(e.dedupe, now, t.now);
    StepUses(e, t.event, t.now);
    UsesInv(e.dedupe, t.after.dedupe, t.now);
  }

  lemma LaterDedupe(s: D.DedupeState, now: int, later: int)
    requires D.DedupeInv(s, now) && now <= later
    ensures D.DedupeInv(s, later)
  {
    forall c | c in s.commits ensures D.CommitmentOk(s, c, later) {
      assert D.CommitmentOk(s, c, now);
    }
  }

  ghost predicate Deduplicated(e: Engine, now: int) {
    D.DedupeInv(e.dedupe, now)
  }

  /** In every run of the router, with any retention: a request, a notification, a cancellation or a
      reply of one sender, operation id and content commits its effect at most once. */
  lemma EffectsCommitOnceInRuns(config: Config, queueCapacity: nat, activeCapacity: nat, retention: Option<nat>,
      grace: nat, now: int, steps: seq<Timed>)
    requires IsRun(Init(config, queueCapacity, activeCapacity, retention, grace, now), steps, now)
    ensures var o := Traces.End(Init(config, queueCapacity, activeCapacity, retention, grace, now), steps);
            forall i, j | 0 <= i < j < |o.dedupe.commits| :: !D.SameOperation(o.dedupe.commits[i], o.dedupe.commits[j])
  {
    var start := Init(config, queueCapacity, activeCapacity, retention, grace, now);
    forall u, at, t | Deduplicated(u, at) && Follows(u, at, t) ensures Deduplicated(t.after, t.now) {
      StepDedupe(u, at, t);
    }
    Traces.RunsKeep(Follows, Deduplicated, start, steps, now);
  }
}
