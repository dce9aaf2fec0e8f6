/** The router over its three stores, as a value: every inbound envelope, executor completion, timer and
    delivery outcome is one step, and every step reads the clock once. */
module RouterSpec {
  import opened TaskStates
  import opened TaskStoreSpec
  import opened Messages
  import P = PolicySpec
  import D = DedupeSpec
  import Traces

  const MAX_TRACKED_TASKS := 4096
  const MAX_PENDING_OPERATIONS := 4096

  /** A validated `message.request`; its request id is its operation id. */
  datatype Request = Request(envelope: Envelope, createdAt: int)

  datatype InboundRecord = InboundRecord(request: Request, terminalSent: bool)

  datatype OutboundRecord = OutboundRecord(target: Name, expiresAt: int, admissionResolved: bool,
      terminal: Option<Task>)

  /** A terminal reply handed to delivery. */
  datatype Reply = Reply(requestId: Name, recipient: Name, outcome: TaskState, content: Option<Content>,
      error: Option<ErrorCode>)

  datatype Grant = Grant(token: nat, requestId: Name)

  datatype Config = Config(runtimeId: Name, hasExecutor: bool, supportsNotifications: bool, supportsCancellation: bool)

  /** `executed` lists the requests handed to the executor, `grants` the leases handed to requests,
      `completed` the outbound completions that were resolved: all three only grow. */
  datatype Engine = Engine(
    config: Config,
    policy: P.PolicyState,
    store: StoreState,
    dedupe: D.DedupeState,
    inbound: map<Name, InboundRecord>,
    leases: map<Name, P.Lease>,
    timers: set<Name>,
    outbound: map<Name, OutboundRecord>,
    pending: set<Name>,
    executed: seq<Name>,
    grants: seq<Grant>,
    replies: seq<Reply>,
    completed: seq<Name>)

  function Tick(now: int): Clock {
    Clock(now, now)
  }

  /** What the entries' `isCancelled` callbacks see: the task store. */
  function CancelProbe(tasks: map<Name, Task>): P.Probe {
    (e: P.Entry) => e.requestId.Some? && e.requestId.value in tasks
        && tasks[e.requestId.value].state in {Cancelled, Cancelling}
  }

  function At(e: Engine, now: int): P.Reading {
    P.Reading(now, CancelProbe(e.store.tasks))
  }

  predicate SlotFree(e: Engine) {
    |e.policy.active| < e.policy.activeCapacity
  }

  /* ---------- dispatch and draining ---------- */

  /** Hands a leased request to the executor. */
  function DispatchLease(e: Engine, id: Name, lease: P.Lease, now: int): (o: Engine)
    ensures |o.policy.queue| <= |e.policy.queue|
    decreases |e.policy.queue|, 2
  {
    if !e.config.hasExecutor then e
    else
      var (s, t) := BeginExecution(e.store, id, Tick(now));
      var b := e.(store := s);
      if t.None? || id !in e.inbound then ReleaseLease(b, id, lease, now)
      else b.(executed := e.executed + [id])
  }

  function ReleaseLease(e: Engine, id: Name, lease: P.Lease, now: int): (o: Engine)
    ensures |o.policy.queue| <= |e.policy.queue|
    decreases |e.policy.queue|, 1
  {
    ReleaseShrinks(e.policy, lease.handle);
    DrainQueue(e.(policy := P.Release(e.policy, lease.handle), leases := e.leases - {id}), now)
  }

  /** One turn of the drain loop, up to the dispatch: the lease that came out, or nothing to do. */
  function DrainQueue(e: Engine, now: int): (o: Engine)
    ensures |o.policy.queue| <= |e.policy.queue|
    decreases |e.policy.queue|, 0
  {
    if !SlotFree(e) then e
    else
      var (p, t) := P.Dequeue(e.policy, At(e, now), At(e, now));
      DequeueShrinks(e.policy, At(e, now), At(e, now));
      var d := e.(policy := p);
      if t.None? then d
      else if t.value.entry.requestId.None? || t.value.entry.requestId.value !in e.inbound then
        ReleaseShrinks(p, t.value.handle);
        DrainQueue(d.(policy := P.Release(p, t.value.handle)), now)
      else
        DrainQueue(DispatchLease(Granted(d, t.value), t.value.entry.requestId.value, P.LeaseOf(t.value), now), now)
  }

  function Granted(e: Engine, t: P.Ticket): Engine
    requires t.entry.requestId.Some?
  {
    var id := t.entry.requestId.value;
    e.(leases := e.leases[id := P.LeaseOf(t)], grants := e.grants + [Grant(t.token, id)])
  }

  lemma ReleaseShrinks(p: P.PolicyState, handle: Name)
    ensures |P.Release(p, handle).queue| <= |p.queue|
  {
    if P.TokenWithHandle(p.active + p.queue, handle).Some? {
      WithoutShrinks(p.queue, P.TokenWithHandle(p.active + p.queue, handle).value);
    }
  }

  lemma {:induction false} WithoutShrinks(rs: seq<P.QueueRecord>, token: nat)
    ensures |P.Without(rs, token)| <= |rs|
  {
    if rs != [] {
      WithoutShrinks(rs[1..], token);
    }
  }

  lemma {:induction false} KeepShrinks(rs: seq<P.QueueRecord>, now: int, probe: P.Probe)
    ensures |P.Keep(rs, now, probe)| <= |rs|
  {
    if rs != [] {
      KeepShrinks(rs[1..], now, probe);
    }
  }

  lemma {:induction false} ClaimShrinks(p: P.PolicyState, at: P.Reading)
    ensures var (o, t) := P.Claim(p, at); if t.Some? then |o.queue| < |p.queue| else |o.queue| <= |p.queue|
    decreases |p.queue|
  {
    if p.queue != [] {
      var o := P.Observe(p, at.sample).(queue := p.queue[1..]);
      ClaimShrinks(o.(notices := o.notices + P.NoticeIfDue(p.queue[0], o.lastNow)), at);
    }
  }

  lemma DequeueShrinks(p: P.PolicyState, first: P.Reading, second: P.Reading)
    ensures var (o, t) := P.Dequeue(p, first, second); if t.Some? then |o.queue| < |p.queue| else |o.queue| <= |p.queue|
  {
    var e := P.Expire(p, first);
    KeepShrinks(p.queue, e.lastNow, first.probe);
    ClaimShrinks(e, second);
  }

  /* ---------- finishing a task ---------- */

  function FinishOutbound(e: Engine, id: Name, t: Task): Engine {
    if id in e.outbound && IsTerminal(t.state) && e.outbound[id].terminal.None? then
      e.(outbound := e.outbound[id := e.outbound[id].(terminal := Some(t))], completed := e.completed + [id])
    else e
  }

  /** What a terminal reply carries: content when completed, else an error with a default. */
  function TerminalReply(id: Name, recipient: Name, t: Task): Reply {
    var fallback := match t.state
                    case Failed => Internal
                    case Rejected => Malformed
                    case Cancelled => CancelledError
                    case _ => ExpiredError;
    if t.state.Completed? then Reply(id, recipient, t.state, Some(if t.content.Some? then t.content.value else 0), None)
    else Reply(id, recipient, t.state, None, Some(if t.error.Some? then t.error.value else fallback))
  }

  /** The terminal reply is sent once per record, and not after the request's own deadline. */
  function SendTerminalReply(e: Engine, id: Name, t: Task, now: int): Engine {
    if id !in e.inbound || e.inbound[id].terminalSent then e
    else
      var r := e.inbound[id].request;
      if r.envelope.expiresAt <= now then e.(inbound := e.inbound - {id})
      else
        e.(inbound := e.inbound[id := e.inbound[id].(terminalSent := true)],
           replies := e.replies + [TerminalReply(id, r.envelope.sender, t)])
  }

  /** Frees what the request holds: its lease, or its place in the queue. */
  function Vacate(e: Engine, id: Name, now: int): Engine {
    var f := e.(timers := e.timers - {id});
    if id in f.leases then ReleaseLease(f, id, f.leases[id], now)
    else DrainQueue(f.(policy := P.CancelByRequestId(f.policy, id, At(f, now), At(f, now))), now)
  }

  function FinishTask(e: Engine, id: Name, snapshot: Option<Task>, now: int): Engine {
    if snapshot.None? || !IsTerminal(snapshot.value.state) then e
    else FinishOutbound(SendTerminalReply(Vacate(e, id, now), id, snapshot.value, now), id, snapshot.value)
  }

  /** A transition of the store followed by `finishTask`, as complete, fail and reject do it. */
  function Settle(e: Engine, id: Name, next: TaskState, u: Update, now: int): Engine {
    var (s, r) := TryTransition(e.store, id, None, next, u, Tick(now));
    FinishTask(e.(store := s), id, if r.Changed? then Some(r.task) else None, now)
  }

  /** `valid` says whether the content meets the response contract. */
  function CompleteTask(e: Engine, id: Name, content: Content, valid: bool, now: int): Engine {
    if id in e.inbound && !valid then e
    else Settle(e, id, Completed, NO_UPDATE.(content := Some(content)), now)
  }

  function FailTask(e: Engine, id: Name, error: ErrorCode, now: int): Engine {
    Settle(e, id, Failed, NO_UPDATE.(error := Some(error)), now)
  }

  function RejectTask(e: Engine, id: Name, error: ErrorCode, now: int): Engine {
    Settle(e, id, Rejected, NO_UPDATE.(error := Some(error)), now)
  }

  function CancelLocally(e: Engine, id: Name, caller: Option<Name>, reason: bool, now: int): Engine {
    var (s, r) := CancelTask(e.store, id, caller, None, reason, Tick(now));
    FinishTask(e.(store := s), id, if r.CancelOk? then Some(r.task) else r.current, now)
  }

  /** What the executor's promise resolved to. */
  datatype ExecutorResult =
    | Nothing
    | Returned(content: Content, valid: bool)
    | FailedWith(error: ErrorCode)
    | RejectedWith(error: ErrorCode)

  function ApplyExecutorResult(e: Engine, id: Name, result: ExecutorResult, now: int): Engine {
    var (s, t) := Read(e.store, id, Tick(now));
    var f := e.(store := s);
    if t.None? then f
    else if IsTerminal(t.value.state) then FinishTask(f, id, t, now)
    else
      match result
      case Nothing => f
      case Returned(content, valid) => CompleteTask(f, id, content, valid, now)
      case FailedWith(error) => FailTask(f, id, error, now)
      case RejectedWith(error) => RejectTask(f, id, error, now)
  }

  function HandleExecutorFailure(e: Engine, id: Name, now: int): Engine {
    var (s, t) := Read(e.store, id, Tick(now));
    var f := e.(store := s);
    if t.None? then f
    else if IsTerminal(t.value.state) then FinishTask(f, id, t, now)
    else if t.value.state.Cancelling? then Settle(f, id, Cancelled,
        Update(None, Some(CancelledError), true, None, None), now)
    else FailTask(f, id, Internal, now)
  }

  /** The router's own deadline timer; it finishes only a task it finds still open. */
  function RouterTimer(e: Engine, id: Name, now: int): Engine {
    var (s, t) := Read(e.store, id, Tick(now));
    var f := e.(timers := e.timers - {id}, store := s);
    if t.None? || IsTerminal(t.value.state) then f
    else
      var (s', t') := ExpireTask(f.store, id, Tick(now));
      FinishTask(f.(store := s'), id, t', now)
  }

  /* ---------- inbound operations ---------- */

  function EntryFor(r: Request, handle: Name, startNow: bool): P.Entry {
    var id := r.envelope.operationId;
    P.Entry(handle, Some(id), Some(id), r.envelope.expiresAt, false, false,
        P.OfTask(if startNow then Accepted else Queued), true)
  }

  function CreationFor(config: Config, r: Request, accepted: bool): Creation {
    Creation(r.envelope.operationId, r.envelope.sender, config.runtimeId, Some(config.runtimeId), Inbound,
             if accepted then Accepted else Queued, r.createdAt, r.envelope.expiresAt, false, None, None, None)
  }

  /** Early answers of the dedupe store: a cached response, or a refusal. */
  function DedupeAnswer(d: D.Decision): Option<Response> {
    match d
    case Replay(result, _) => Some(result)
    case DuplicateKey => Some(Failure(DuplicateOperation))
    case Pending => Some(Failure(BusyError))
    case _ => None
  }

  function RefusalOf(a: P.Admission): Option<Response> {
    match a
    case Busy => Some(Failure(BusyError))
    case ExpiredEntry => Some(Failure(ExpiredError))
    case CancelledEntry => Some(Failure(CancelledError))
    case _ => None
  }

  /** `handle` comes from the name supply. */
  function ProcessRequest(e: Engine, r: Request, handle: Name, now: int): (Engine, Response) {
    var (d, decision) := D.Inspect(e.dedupe, r.envelope, now);
    var answer := DedupeAnswer(decision);
    if answer.Some? then (e.(dedupe := d), answer.value)
    else if |e.inbound| >= MAX_TRACKED_TASKS then (e.(dedupe := d), Failure(BusyError))
    else AdmitRequest(e.(dedupe := d, store := ExpireIfDue(e.store, r.envelope.operationId, Tick(now))), r, handle, now)
  }

  /** Policy first; the store was read by the entry's `isCancelled` callback. */
  function AdmitRequest(e: Engine, r: Request, handle: Name, now: int): (Engine, Response) {
    var startNow := SlotFree(e);
    var (p, admission) := P.Admit(e.policy, EntryFor(r, handle, startNow), handle, startNow, At(e, now), At(e, now));
    var f := e.(policy := p);
    var refusal := RefusalOf(admission);
    if refusal.Some? then (f, refusal.value)
    else RecordRequest(f, r, handle, e.policy.nextToken, admission, now)
  }

  /** Then the dedupe reservation; an early answer undoes the admission. */
  function RecordRequest(e: Engine, r: Request, handle: Name, token: nat, admission: P.Admission, now: int): (Engine,
      Response) {
    var (d, decision) := D.Reserve(e.dedupe, r.envelope, now);
    var undone := e.(dedupe := d, policy := P.Release(e.policy, handle));
    match decision
    case Reserved(v) => TakeRequest(e.(dedupe := d), r, handle, token, admission, v, now)
    case Replay(result, _) => (undone, result)
    case DuplicateKey => (undone, Failure(DuplicateOperation))
    case _ => (undone, Failure(BusyError))
  }

  /** Then the task and the commit; a task that cannot be created undoes reservation and admission. */
  function TakeRequest(e: Engine, r: Request, handle: Name, token: nat, admission: P.Admission, v: D.Reservation,
      now: int): (Engine, Response) {
    var (s, created) := TaskStoreSpec.CreateTask(e.store, CreationFor(e.config, r, admission.Admitted?), Tick(now),
        now);
    if !created.NewTask? then
      (e.(store := s, policy := P.Release(e.policy, handle), dedupe := D.Release(e.dedupe, v, now).0),
          Failure(Internal))
    else
      var response := Success(AdmissionResult(r.envelope.operationId, created.task.state));
      var f := e.(store := s, dedupe := D.Commit(e.dedupe, v, response, Some(r.envelope.operationId), now).0);
      (StartRequest(f, r, token, admission, now), response)
  }

  function StartRequest(e: Engine, r: Request, token: nat, admission: P.Admission, now: int): Engine {
    var id := r.envelope.operationId;
    var f := e.(inbound := e.inbound[id := InboundRecord(r, false)], timers := e.timers + {id});
    match admission
    case Admitted(lease) =>
      DispatchLease(f.(leases := f.leases[id := lease], grants := f.grants + [Grant(token, id)]), id, lease, now)
    case _ => f
  }

  /** A notification is reserved before its handler runs; the handler's outcome is another step. */
  function NotifyStart(e: Engine, n: Envelope, now: int): (Engine, D.Decision) {
    if !e.config.supportsNotifications then (e, D.Ignored)
    else
      var (d, decision) := D.Reserve(e.dedupe, n, now);
      (e.(dedupe := d), decision)
  }

  function NotifyDone(e: Engine, v: D.Reservation, delivered: bool, now: int): Engine {
    var response := if delivered then Success(NotificationDelivered) else Failure(Internal);
    e.(dedupe := D.Commit(e.dedupe, v, response, None, now).0)
  }

  function ProcessCancel(e: Engine, c: Envelope, id: Name, reason: bool, now: int): (Engine, Response) {
    if !e.config.supportsCancellation then (e, Failure(IncompatibleOperation))
    else
      var (d, decision) := D.Reserve(e.dedupe, c, now);
      var f := e.(dedupe := d);
      match decision
      case Reserved(v) =>
        var (s, r) := CancelTask(f.store, id, Some(c.sender), None, reason, Tick(now));
        var g := f.(store := s);
        if r.CancelRefused? then
          (g.(dedupe := D.Release(d, v, now).0),
           Failure(match r.reason
                   case CancelUnauthorized => Unauthorized
                   case CancelNoSuchTask => NotFoundError
                   case CancelTooLate => NotCancelableError))
        else
          var h := if r.task.state.Cancelled? then FinishTask(g, id, Some(r.task), now) else g;
          var response := Success(SnapshotResult(r.task));
          (h.(dedupe := D.Commit(h.dedupe, v, response, Some(id), now).0), response)
      case Replay(result, _) => (f, result)
      case DuplicateKey => (f, Failure(DuplicateOperation))
      case _ => (f, Failure(BusyError))
  }

  /** A terminal reply from a peer. `bindingOk` and `contentOk` are the binding and contract checks. */
  datatype ReplyMessage = ReplyMessage(envelope: Envelope, requestId: Name, outcome: TaskState,
      content: Option<Content>, error: Option<ErrorCode>, bindingOk: bool, contentOk: bool)

  /** Why a reply is turned away before any store is asked to change. */
  function ReplyRefusal(e: Engine, m: ReplyMessage, task: Option<Task>): Option<ErrorCode> {
    if task.None? || task.value.ownership != Outbound then Some(Unauthorized)
    else RefusalFor(e.config, e.outbound, m, task.value)
  }

  /** The sender must be the runtime the request was sent to, and the reply no later than the request. */
  function RefusalFor(config: Config, outbound: map<Name, OutboundRecord>, m: ReplyMessage,
      t: Task): Option<ErrorCode> {
    var known := m.requestId in outbound;
    var target := if t.target.Some? then t.target else if known then Some(outbound[m.requestId].target) else None;
    var expiry := if known then outbound[m.requestId].expiresAt else t.expiresAt;
    if target != Some(m.envelope.sender) || !m.bindingOk then Some(Unauthorized)
    else if t.localOwner != config.runtimeId || t.owner != config.runtimeId then Some(Unauthorized)
    else if m.envelope.expiresAt > expiry then Some(Malformed)
    else if m.outcome.Completed? && !m.contentOk then Some(InvalidContent)
    else None
  }

  /** Walks an open task to the reply's outcome. */
  function ApplyReply(s: StoreState, m: ReplyMessage, now: int): (StoreState, Option<Task>) {
    var id := m.requestId;
    var c := Tick(now);
    var a := if id in s.tasks && s.tasks[id].state.Created? then TryTransition(s, id, None, Accepted, NO_UPDATE, c).0
        else s;
    var b := if id in a.tasks && a.tasks[id].state in {Accepted, Queued}
        then TryTransition(a, id, None, Working, NO_UPDATE, c).0 else a;
    ReplyEnd(b, m, now)
  }

  /** The last part of the walk: into the outcome, through `cancelling` when the peer cancelled. */
  function ReplyEnd(b: StoreState, m: ReplyMessage, now: int): (StoreState, Option<Task>) {
    var id := m.requestId;
    var c := Tick(now);
    match m.outcome
    case Completed => Outcome(TryTransition(b, id, None, Completed, NO_UPDATE.(content := m.content), c))
    case Failed => Outcome(TryTransition(b, id, None, Failed, NO_UPDATE.(error := m.error), c))
    case Rejected => Outcome(TryTransition(b, id, None, Rejected, NO_UPDATE.(error := m.error), c))
    case Cancelled =>
      var asked := NO_UPDATE.(cancellationRequested := true);
      var d := if id in b.tasks && b.tasks[id].state.Working? then TryTransition(b, id, None, Cancelling, asked, c).0
          else b;
      var error := if m.error.Some? then m.error else Some(CancelledError);
      Outcome(TryTransition(d, id, None, Cancelled, asked.(error := error), c))
    case _ => ExpireTask(b, id, c)
  }

  function Outcome(r: (StoreState, Transition)): (StoreState, Option<Task>) {
    (r.0, if r.1.Changed? then Some(r.1.task) else None)
  }

  function ProcessReply(e: Engine, m: ReplyMessage, now: int): (Engine, Response) {
    var (s, task) := Read(e.store, m.requestId, Tick(now));
    var f := e.(store := s);
    var refusal := ReplyRefusal(f, m, task);
    if refusal.Some? then (f, Failure(refusal.value)) else AcceptReply(f, task.value, m, ApplyReply(s, m, now), now)
  }

  /** An authorized reply: reserved, then applied to a task that is still open. */
  function AcceptReply(e: Engine, task: Task, m: ReplyMessage, applied: (StoreState, Option<Task>), now: int): (Engine,
      Response) {
    var (d, decision) := D.Reserve(e.dedupe, m.envelope, now);
    var f := e.(dedupe := d);
    match decision
    case Reserved(v) =>
      if IsTerminal(task.state) then
        (f.(dedupe := D.Release(d, v, now).0),
         Failure(if task.state.Cancelled? then CancelledError else NotCancelableError))
      else
        var (s, t) := applied;
        if t.None? || !IsTerminal(t.value.state) then
          (f.(store := s, dedupe := D.Release(d, v, now).0), Failure(NotCancelableError))
        else
          var response := Success(ReplyDelivered(m.requestId, m.outcome));
          var g := FinishOutbound(f.(store := s), m.requestId, t.value);
          (g.(dedupe := D.Commit(d, v, response, Some(m.requestId), now).0), response)
    case Replay(result, _) => (f, result)
    case DuplicateKey => (f, Failure(DuplicateOperation))
    case _ => (f, Failure(BusyError))
  }

  /* ---------- outbound requests ---------- */

  function SendRequest(e: Engine, id: Name, target: Name, createdAt: int, expiresAt: int, now: int): Engine {
    if |e.outbound| >= MAX_TRACKED_TASKS then e
    else
      var me := e.config.runtimeId;
      var (s, created) := TaskStoreSpec.CreateTask(e.store,
          Creation(id, me, me, Some(target), Outbound, Created, createdAt, expiresAt, false, None, None, None),
          Tick(now), now);
      if !created.NewTask? then e.(store := s)
      else
        e.(store := s,
           outbound := e.outbound[id := OutboundRecord(target, expiresAt, false, None)],
           pending := if |e.pending| >= MAX_PENDING_OPERATIONS then e.pending else e.pending + {id})
  }

  /** The peer's admission acknowledgement: accepted, queued, or an error. */
  datatype Ack = AckAccepted | AckQueued | AckError

  function AckStore(s: StoreState, id: Name, ack: Ack, now: int): StoreState {
    var a := TryTransition(s, id, None, Accepted, NO_UPDATE, Tick(now)).0;
    if ack.AckQueued? then TryTransition(a, id, None, Queued, NO_UPDATE, Tick(now)).0 else a
  }

  function ApplyResponse(e: Engine, id: Name, ack: Ack, now: int): Engine {
    if id !in e.pending then e
    else
      var f := e.(pending := e.pending - {id});
      if ack.AckError? || id !in f.outbound then f
      else
        f.(store := AckStore(f.store, id, ack, now),
            outbound := f.outbound[id := f.outbound[id].(admissionResolved := true)])
  }

  /* ---------- steps and runs ---------- */

  datatype Event =
    | RequestArrives(request: Request, handle: Name)
    | NotificationArrives(envelope: Envelope)
    | NotificationHandled(reservation: D.Reservation, delivered: bool)
    | CancelArrives(envelope: Envelope, id: Name, reason: bool)
    | ReplyArrives(reply: ReplyMessage)
    | StatusRead(id: Name)
    | ExecutorReturns(id: Name, result: ExecutorResult)
    | ExecutorThrows(id: Name)
    | TaskCompleted(id: Name, content: Content, valid: bool)
    | TaskFailed(id: Name, error: ErrorCode)
    | TaskRejected(id: Name, error: ErrorCode)
    | TaskCancelled(id: Name, caller: Option<Name>, reason: bool)
    | RouterTimerFires(id: Name)
    | StoreTimerFires(id: Name)
    | PurgeTimerFires(id: Name)
    | ReplySettled(id: Name)
    | RequestSent(id: Name, target: Name, createdAt: int, expiresAt: int)
    | AckArrives(id: Name, ack: Ack)

  function Step(e: Engine, ev: Event, now: int): Engine {
    match ev
    case RequestArrives(r, handle) => ProcessRequest(e, r, handle, now).0
    case NotificationArrives(n) => NotifyStart(e, n, now).0
    case NotificationHandled(v, delivered) => NotifyDone(e, v, delivered, now)
    case CancelArrives(c, id, reason) => ProcessCancel(e, c, id, reason, now).0
    case ReplyArrives(m) => ProcessReply(e, m, now).0
    case StatusRead(id) => e.(store := ExpireIfDue(e.store, id, Tick(now)))
    case ExecutorReturns(id, result) => ApplyExecutorResult(e, id, result, now)
    case ExecutorThrows(id) => HandleExecutorFailure(e, id, now)
    case TaskCompleted(id, content, valid) => CompleteTask(e, id, content, valid, now)
    case TaskFailed(id, error) => FailTask(e, id, error, now)
    case TaskRejected(id, error) => RejectTask(e, id, error, now)
    case TaskCancelled(id, caller, reason) => CancelLocally(e, id, caller, reason, now)
    case RouterTimerFires(id) => RouterTimer(e, id, now)
    case StoreTimerFires(id) => e.(store := ExpireTask(e.store, id, Tick(now)).0)
    case PurgeTimerFires(id) => if e.store.retention.Some? then e.(store := PurgeTask(e.store, id).0) else e
    case ReplySettled(id) => e.(inbound := e.inbound - {id})
    case RequestSent(id, target, createdAt, expiresAt) => SendRequest(e, id, target, createdAt, expiresAt, now)
    case AckArrives(id, ack) => ApplyResponse(e, id, ack, now)
  }

  /** What envelope validation and the name supply promise of an arriving request. */
  predicate Arrivable(e: Engine, r: Request, handle: Name, now: int) {
    && r.envelope.operation == MessageRequest
    && r.createdAt < r.envelope.expiresAt
    && r.envelope.expiresAt > now
    && P.TokenWithHandle(e.policy.active + e.policy.queue, handle).None?
  }

  predicate Replied(replies: seq<Reply>, id: Name) {
    exists r :: r in replies && r.requestId == id
  }

  /** What the environment may do at `now`. Store timers fire no earlier than they were armed for, and
      only a reply that was sent can be delivered or fail to be. */
  predicate Enabled(e: Engine, ev: Event, now: int) {
    match ev
    case RequestArrives(r, handle) => Arrivable(e, r, handle, now)
    case NotificationArrives(n) => n.operation == MessageNotify && n.expiresAt > now
    case CancelArrives(c, _, _) => c.operation == TaskCancel && c.expiresAt > now
    case ReplyArrives(m) => m.envelope.operation == MessageReply && m.envelope.expiresAt > now && IsTerminal(m.outcome)
    case StoreTimerFires(id) => id in e.store.tasks && IsDue(e.store.tasks[id], now)
    case ReplySettled(id) => Replied(e.replies, id)
    case _ => true
  }

  type Timed = Traces.Timed<Event, Engine>

  /** A step of a run: the clock does not go back and the step is enabled. */
  ghost predicate Follows(e: Engine, now: int, t: Timed) {
    now <= t.now && Enabled(e, t.event, t.now) && t.after == Step(e, t.event, t.now)
  }

  ghost predicate IsRun(e: Engine, steps: seq<Timed>, now: int) {
    Traces.IsRun(Follows, e, steps, now)
  }

  function Init(config: Config, queueCapacity: nat, activeCapacity: nat, retention: Option<nat>, grace: nat,
      now: int): Engine {
    Engine(config,
           P.PolicyState(queueCapacity, activeCapacity, [], [], 1, now, []),
           StoreState(retention, true, Some(config.runtimeId), map[], 0, []),
           D.Init(grace),
           map[], map[], {}, map[], {}, [], [], [], [])
  }
}
