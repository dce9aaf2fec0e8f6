/** The router as the class that owns its three stores and keeps its own maps beside them. Every method
    is tied to the function of the same step in RouterSpec. */
module MessageRouters {
  import opened TaskStates
  import opened TaskStoreSpec
  import opened Messages
  import opened RouterSpec
  import opened PolicyTargets
  import P = PolicySpec
  import PS = PolicyShapes
  import RP = RoutingPolicies
  import TS = TaskStores
  import DS = DedupeStores
  import D = DedupeSpec

  /** Every lease the router keeps is the policy's own. */
  ghost predicate AllGenuine(p: P.PolicyState, leases: map<Name, P.Lease>) {
    forall id {:trigger leases[id]} :: id in leases ==> Genuine(P.Retained(p), leases[id])
  }

  lemma StillGenuine(p: P.PolicyState, o: P.PolicyState, leases: map<Name, P.Lease>)
    requires AllGenuine(p, leases) && P.Retained(o) <= P.Retained(p)
    ensures AllGenuine(o, leases)
  {
  }

  /** The drain loop, one turn at a time. */
  lemma DrainTurnUnfolds(e: Engine, p: P.PolicyState, t: Option<P.Ticket>, now: int)
    requires SlotFree(e) && (p, t) == P.Dequeue(e.policy, At(e, now), At(e, now))
    ensures RouterSpec.DrainQueue(e, now)
         == if t.None? then e.(policy := p)
            else if t.value.entry.requestId.None? || t.value.entry.requestId.value !in e.inbound then
              RouterSpec.DrainQueue(e.(policy := P.Release(p, t.value.handle)), now)
            else
              var g := Granted(e.(policy := p), t.value);
              var id := t.value.entry.requestId.value;
              RouterSpec.DrainQueue(RouterSpec.DispatchLease(g, id, P.LeaseOf(t.value), now), now)
  {
  }

  class MessageRouter {
    const config: Config
    const policy: RP.RoutingPolicy
    const taskStore: TS.TaskStore
    const dedupe: DS.DedupeStore
    var inbound: map<Name, InboundRecord>
    var leases: map<Name, P.Lease>
    var timers: set<Name>
    var outbound: map<Name, OutboundRecord>
    var pending: set<Name>
    ghost var executed: seq<Name>
    ghost var grants: seq<Grant>
    ghost var replies: seq<Reply>
    ghost var completed: seq<Name>

    ghost function View(): Engine
      reads this, policy, taskStore, dedupe
    {
      Engine(config, policy.State(), taskStore.State(), dedupe.State(), inbound, leases, timers, outbound, pending,
          executed, grants, replies, completed)
    }

    ghost predicate Valid()
      reads this, policy, taskStore, dedupe
    {
      policy.Valid() && taskStore.Valid() && AllGenuine(policy.State(), leases)
    }

    constructor (config: Config, queueCapacity: nat, activeCapacity: nat, retention: Option<nat>, grace: nat, now: int)
      ensures Valid() && View() == Init(config, queueCapacity, activeCapacity, retention, grace, now)
      ensures fresh(policy) && fresh(taskStore) && fresh(dedupe)
    {
      this.config := config;
      policy := new RP.RoutingPolicy(queueCapacity, activeCapacity, now);
      taskStore := new TS.TaskStore(retention, true, Some(config.runtimeId));
      dedupe := new DS.DedupeStore(grace);
      inbound, leases, timers, outbound, pending := map[], map[], {}, map[], {};
      executed, grants, replies, completed := [], [], [], [];
    }

    /** What the clock and the `isCancelled` callbacks answer now. */
    function Reading(now: int): (at: P.Reading)
      reads this, taskStore
    {
      P.Reading(now, CancelProbe(TS.Tasks(taskStore.records)))
    }

    /** Releases a lease through the policy's lookup. */
    method ReleaseInPolicy(lease: P.Lease)
      requires policy.Valid() && Genuine(P.Retained(policy.State()), lease)
      modifies policy
      ensures policy.Valid() && policy.State() == P.Release(old(policy.State()), lease.handle)
      ensures P.Retained(policy.State()) <= old(P.Retained(policy.State()))
    {
      ghost var s := policy.State();
      HandlesAreNames(policy.handles, s);
      var released := policy.Release(P.ByLease(lease), None);
      ReleaseByLease(s, lease, policy.State(), released);
    }

    /** Enters a lease that was handed out into the table. */
    method GrantLease(id: Name, lease: P.Lease, ghost t: P.Ticket)
      requires Valid() && Genuine(P.Retained(policy.State()), lease)
      requires t.entry.requestId == Some(id) && lease == P.LeaseOf(t)
      modifies `leases, `grants
      ensures Valid() && View() == Granted(old(View()), t)
    {
      leases := leases[id := lease];
      grants := grants + [Grant(t.token, id)];
    }

    /** Gives a lease back that is in no table. */
    method ReturnLease(lease: P.Lease)
      requires Valid() && Genuine(P.Retained(policy.State()), lease)
      modifies policy
      ensures Valid() && View() == old(View()).(policy := P.Release(old(policy.State()), lease.handle))
      ensures |policy.queue| <= |old(policy.queue)|
    {
      ghost var s := policy.State();
      ReleaseInPolicy(lease);
      ReleaseShrinks(s, lease.handle);
      StillGenuine(s, policy.State(), leases);
    }

    /** Hands a leased request to the executor, or gives the lease back. */
    method DispatchLease(id: Name, lease: P.Lease, now: int)
      requires Valid() && Genuine(P.Retained(policy.State()), lease)
      modifies this, policy, taskStore
      ensures Valid() && View() == RouterSpec.DispatchLease(old(View()), id, lease, now)
      decreases |policy.queue|, 2
    {
      if !config.hasExecutor {
        return;
      }
      var t := taskStore.BeginExecution(id, Tick(now));
      if t.None? {
        ReleaseLease(id, lease, now);
        return;
      }
      if id !in inbound {
        ReleaseLease(id, lease, now);
        return;
      }
      executed := executed + [id];
    }

    method ReleaseLease(id: Name, lease: P.Lease, now: int)
      requires Valid() && Genuine(P.Retained(policy.State()), lease)
      modifies this, policy, taskStore
      ensures Valid() && View() == RouterSpec.ReleaseLease(old(View()), id, lease, now)
      decreases |policy.queue|, 1
    {
      ghost var s := policy.State();
      ReleaseInPolicy(lease);
      StillGenuine(s, policy.State(), leases);
      leases := leases - {id};
      ReleaseShrinks(s, lease.handle);
      DrainQueue(now);
    }

    /** Takes the next lease out of the policy's queue; `t` is the ticket it was made for. */
    method TakeLease(now: int) returns (lease: Option<P.Lease>, ghost t: Option<P.Ticket>)
      requires Valid()
      modifies policy
      ensures Valid()
      ensures (policy.State(), t) == P.Dequeue(old(policy.State()), old(At(View(), now)), old(At(View(), now)))
      ensures lease == (if t.Some? then Some(P.LeaseOf(t.value)) else None)
      ensures t.Some? ==>
                |policy.queue| < |old(policy.queue)| && Genuine(P.Retained(policy.State()), P.LeaseOf(t.value))
    {
      ghost var e := View();
      ghost var at := At(e, now);
      lease := policy.Dequeue(Reading(now), Reading(now));
      t := P.Dequeue(e.policy, at, at).1;
      DequeueShrinks(e.policy, at, at);
      DequeueRetained(e.policy, at, at);
      StillGenuine(e.policy, policy.State(), leases);
      if t.Some? {
        HandleIsGenuine(t.value);
      }
    }

    /** One turn of the drain loop. */
    method DrainTurn(now: int) returns (more: bool)
      requires Valid() && |policy.active| < policy.activeCapacity
      modifies this, policy, taskStore
      ensures Valid() && RouterSpec.DrainQueue(old(View()), now) == if more then RouterSpec.DrainQueue(View(), now)
          else View()
      ensures more ==> |policy.queue| < |old(policy.queue)|
      decreases |policy.queue|, 0, 0
    {
      ghost var e := View();
      var lease;
      ghost var t;
      lease, t := TakeLease(now);
      ghost var s := policy.State();
      DrainTurnUnfolds(e, s, t, now);
      if lease == None {
        return false;
      }
      var owner := lease.value.requestId;
      if owner.None? || owner.value !in inbound {
        ReturnLease(lease.value);
        return true;
      }
      GrantLease(owner.value, lease.value, t.value);
      DispatchLease(owner.value, lease.value, now);
      more := true;
    }

    /** Hands free slots to the queue, head first, until there are none or nobody can run. */
    method DrainQueue(now: int)
      requires Valid()
      modifies this, policy, taskStore
      ensures Valid() && View() == RouterSpec.DrainQueue(old(View()), now)
      decreases |policy.queue|, 0, 1
    {
      ghost var e := View();
      var more := true;
      while more && |policy.active| < policy.activeCapacity
        invariant Valid()
        invariant (if more then RouterSpec.DrainQueue(View(), now) else View()) == RouterSpec.DrainQueue(e, now)
        invariant |policy.queue| <= |e.policy.queue| || !more
        decreases more, |policy.queue|
      {
        more := DrainTurn(now);
      }
    }

    /** The lease of a retained ticket is genuine. */
    lemma HandleIsGenuine(t: P.Ticket)
      requires policy.Valid() && t in P.Retained(policy.State())
      ensures Genuine(P.Retained(policy.State()), P.LeaseOf(t))
    {
      HandlesAreNames(policy.handles, policy.State());
      forall u | u in P.Retained(policy.State()) && u.handle == t.handle ensures u == t {
        assert PS.Homonyms(u, t);
      }
    }

    /* ---------- finishing a task ---------- */

    /** Gives up what a request holds, its lease or its place in the queue, and serves whoever is next. */
    method Vacate(id: Name, now: int)
      requires Valid()
      modifies this, policy, taskStore
      ensures Valid() && View() == RouterSpec.Vacate(old(View()), id, now)
    {
      timers := timers - {id};
      if id in leases {
        ReleaseLease(id, leases[id], now);
        return;
      }
      ghost var s := policy.State();
      ghost var at := At(View(), now);
      var outcome := policy.CancelByRequestId(id, Reading(now), Reading(now));
      CancelByRequest(s, id, at, at, policy.State(), outcome);
      CancelRetained(s, id, at, at);
      StillGenuine(s, policy.State(), leases);
      DrainQueue(now);
    }

    method SendTerminalReply(id: Name, t: Task, now: int)
      modifies `inbound, `replies
      ensures View() == RouterSpec.SendTerminalReply(old(View()), id, t, now)
    {
      if id !in inbound || inbound[id].terminalSent {
        return;
      }
      var r := inbound[id].request;
      if r.envelope.expiresAt <= now {
        inbound := inbound - {id};
        return;
      }
      inbound := inbound[id := inbound[id].(terminalSent := true)];
      replies := replies + [TerminalReply(id, r.envelope.sender, t)];
    }

    method FinishOutboundRequest(id: Name, t: Task)
      modifies `outbound, `completed
      ensures View() == FinishOutbound(old(View()), id, t)
    {
      if id in outbound && IsTerminal(t.state) && outbound[id].terminal.None? {
        outbound := outbound[id := outbound[id].(terminal := Some(t))];
        completed := completed + [id];
      }
    }

    method FinishTask(id: Name, snapshot: Option<Task>, now: int)
      requires Valid()
      modifies this, policy, taskStore
      ensures Valid() && View() == RouterSpec.FinishTask(old(View()), id, snapshot, now)
    {
      if snapshot.None? || !IsTerminal(snapshot.value.state) {
        return;
      }
      Vacate(id, now);
      SendTerminalReply(id, snapshot.value, now);
      FinishOutboundRequest(id, snapshot.value);
    }

    /** A transition and its clean-up. */
    method Settle(id: Name, next: TaskState, u: Update, now: int)
      requires Valid()
      modifies this, policy, taskStore
      ensures Valid() && View() == RouterSpec.Settle(old(View()), id, next, u, now)
    {
      var r := taskStore.TryTransition(id, None, next, u, Tick(now));
      FinishTask(id, if r.Changed? then Some(r.task) else None, now);
    }

    method CompleteTask(id: Name, content: Content, valid: bool, now: int)
      requires Valid()
      modifies this, policy, taskStore
      ensures Valid() && View() == RouterSpec.CompleteTask(old(View()), id, content, valid, now)
    {
      if id in inbound && !valid {
        return;
      }
      Settle(id, Completed, NO_UPDATE.(content := Some(content)), now);
    }

    method FailTask(id: Name, error: ErrorCode, now: int)
      requires Valid()
      modifies this, policy, taskStore
      ensures Valid() && View() == RouterSpec.FailTask(old(View()), id, error, now)
    {
      Settle(id, Failed, NO_UPDATE.(error := Some(error)), now);
    }

    method RejectTask(id: Name, error: ErrorCode, now: int)
      requires Valid()
      modifies this, policy, taskStore
      ensures Valid() && View() == RouterSpec.RejectTask(old(View()), id, error, now)
    {
      Settle(id, Rejected, NO_UPDATE.(error := Some(error)), now);
    }

    method CancelTask(id: Name, caller: Option<Name>, reason: bool, now: int)
      requires Valid()
      modifies this, policy, taskStore
      ensures Valid() && View() == CancelLocally(old(View()), id, caller, reason, now)
    {
      var r := taskStore.CancelTask(id, caller, None, reason, Tick(now));
      FinishTask(id, if r.CancelOk? then Some(r.task) else r.current, now);
    }

    method ApplyExecutorResult(id: Name, result: ExecutorResult, now: int)
      requires Valid()
      modifies this, policy, taskStore
      ensures Valid() && View() == RouterSpec.ApplyExecutorResult(old(View()), id, result, now)
    {
      var t := taskStore.GetTask(id, Tick(now));
      if t.None? {
        return;
      }
      if IsTerminal(t.value.state) {
        FinishTask(id, t, now);
        return;
      }
      match result {
        case Nothing =>
        case Returned(content, valid) => CompleteTask(id, content, valid, now);
        case FailedWith(error) => FailTask(id, error, now);
        case RejectedWith(error) => RejectTask(id, error, now);
      }
    }

    method HandleExecutorFailure(id: Name, now: int)
      requires Valid()
      modifies this, policy, taskStore
      ensures Valid() && View() == RouterSpec.HandleExecutorFailure(old(View()), id, now)
    {
      var t := taskStore.GetTask(id, Tick(now));
      if t.None? {
        return;
      }
      if IsTerminal(t.value.state) {
        FinishTask(id, t, now);
      } else if t.value.state.Cancelling? {
        Settle(id, Cancelled, Update(None, Some(CancelledError), true, None, None), now);
      } else {
        FailTask(id, Internal, now);
      }
    }

    /** The router's own deadline timer. */
    method ExpiryTimerFires(id: Name, now: int)
      requires Valid()
      modifies this, policy, taskStore
      ensures Valid() && View() == RouterTimer(old(View()), id, now)
    {
      timers := timers - {id};
      var t := taskStore.GetTask(id, Tick(now));
      if t.None? || IsTerminal(t.value.state) {
        return;
      }
      var expired := taskStore.ExpireTask(id, Tick(now));
      FinishTask(id, expired, now);
    }

    /* ---------- inbound requests ---------- */

    /** A name that neither the policy nor a kept lease uses, as the name supply gives them. */
    ghost predicate FreshHandle(handle: Name)
      reads this, policy
    {
      handle !in policy.handles && forall id | id in leases :: leases[id].handle != handle
    }

    method ProcessMessageRequest(r: Request, handle: Name, now: int) returns (response: Response)
      requires Valid() && FreshHandle(handle)
      modifies this, policy, taskStore, dedupe
      ensures Valid() && (View(), response) == ProcessRequest(old(View()), r, handle, now)
    {
      var existing := dedupe.Inspect(r.envelope, now);
      var answer := DedupeAnswer(existing);
      if answer.Some? {
        return answer.value;
      }
      if |inbound| >= MAX_TRACKED_TASKS {
        return Failure(BusyError);
      }
      taskStore.ExpireIfDue(r.envelope.operationId, Tick(now));
      response := AdmitRequest(r, handle, now);
    }

    method AdmitRequest(r: Request, handle: Name, now: int) returns (response: Response)
      requires Valid() && FreshHandle(handle)
      modifies this, policy, taskStore, dedupe
      ensures Valid() && (View(), response) == RouterSpec.AdmitRequest(old(View()), r, handle, now)
    {
      ghost var s := policy.State();
      ghost var at := At(View(), now);
      var startNow := |policy.active| < policy.activeCapacity;
      var entry := EntryFor(r, handle, startNow);
      ghost var token := policy.nextToken;
      var admission := policy.Admit(entry, handle, startNow, Reading(now), Reading(now));
      AdmitRetained(s, entry, handle, startNow, at, at);
      KeepGenuine(s, P.Ticket(token, handle, entry), policy.State(), leases);
      var refusal := RefusalOf(admission);
      if refusal.Some? {
        return refusal.value;
      }
      response := RecordRequest(r, P.Ticket(token, handle, entry), admission, now);
    }

    method ReleaseAdmission(admission: P.Admission, ghost t: P.Ticket)
      requires Valid() && Carries(t, admission)
      modifies policy
      ensures Valid() && policy.State() == P.Release(old(policy.State()), t.handle)
    {
      ghost var s := policy.State();
      if admission.Admitted? {
        HandleIsGenuine(t);
        ReleaseInPolicy(admission.lease);
      } else {
        HandlesAreNames(policy.handles, s);
        var released := policy.Release(P.ByString(admission.handle), None);
        ReleaseByHandle(s, t, policy.State(), released);
        PS.ReleaseShape(s, t);
      }
      StillGenuine(s, policy.State(), leases);
    }

    /** `t` is the ticket the admission was given for. */
    method RecordRequest(r: Request, ghost t: P.Ticket, admission: P.Admission, now: int) returns (response: Response)
      requires Valid() && Carries(t, admission)
      modifies this, policy, taskStore, dedupe
      ensures Valid()
      ensures (View(), response) == RouterSpec.RecordRequest(old(View()), r, t.handle, t.token, admission, now)
    {
      var decision := dedupe.Reserve(r.envelope, now);
      if decision.Reserved? {
        response := TakeRequest(r, t, admission, decision.reservation, now);
        return;
      }
      ReleaseAdmission(admission, t);
      response := if decision.Replay? then decision.result
          else Failure(if decision.DuplicateKey? then DuplicateOperation else BusyError);
    }

    method TakeRequest(r: Request, ghost t: P.Ticket, admission: P.Admission, v: D.Reservation,
        now: int) returns (response: Response)
      requires Valid() && Carries(t, admission)
      modifies this, policy, taskStore, dedupe
      ensures Valid()
      ensures (View(), response) == RouterSpec.TakeRequest(old(View()), r, t.handle, t.token, admission, v, now)
    {
      var created := taskStore.CreateTask(CreationFor(config, r, admission.Admitted?), Tick(now), now);
      if !created.NewTask? {
        var _ := dedupe.Release(v, now);
        ReleaseAdmission(admission, t);
        return Failure(Internal);
      }
      response := Success(AdmissionResult(r.envelope.operationId, created.task.state));
      var _ := dedupe.Commit(v, response, Some(r.envelope.operationId), now);
      HandleIsGenuine(t);
      StartRequest(r, t.token, admission, now);
    }

    ghost predicate Carries(t: P.Ticket, admission: P.Admission)
      reads policy
    {
      && t in P.Retained(policy.State())
      && (admission == P.Admitted(P.LeaseOf(t)) || (admission.Enqueued? && admission.handle == t.handle))
    }

    method StartRequest(r: Request, ghost token: nat, admission: P.Admission, now: int)
      requires Valid() && (admission.Admitted? ==> Genuine(P.Retained(policy.State()), admission.lease))
      modifies this, policy, taskStore
      ensures Valid() && View() == RouterSpec.StartRequest(old(View()), r, token, admission, now)
    {
      var id := r.envelope.operationId;
      inbound := inbound[id := InboundRecord(r, false)];
      timers := timers + {id};
      if admission.Admitted? {
        leases := leases[id := admission.lease];
        grants := grants + [Grant(token, id)];
        DispatchLease(id, admission.lease, now);
      }
    }

    /* ---------- notifications, cancellations, replies ---------- */

    /** Reserves a notification; the handler runs when this says so. */
    method StartNotification(n: Envelope, now: int) returns (d: D.Decision)
      requires Valid()
      modifies dedupe
      ensures Valid() && (View(), d) == NotifyStart(old(View()), n, now)
    {
      if !config.supportsNotifications {
        return D.Ignored;
      }
      d := dedupe.Reserve(n, now);
    }

    method FinishNotification(v: D.Reservation, delivered: bool, now: int)
      requires Valid()
      modifies dedupe
      ensures Valid() && View() == NotifyDone(old(View()), v, delivered, now)
    {
      var _ := dedupe.Commit(v, if delivered then Success(NotificationDelivered) else Failure(Internal), None, now);
    }

    method ProcessTaskCancel(c: Envelope, id: Name, reason: bool, now: int) returns (response: Response)
      requires Valid()
      modifies this, policy, taskStore, dedupe
      ensures Valid() && (View(), response) == ProcessCancel(old(View()), c, id, reason, now)
    {
      if !config.supportsCancellation {
        return Failure(IncompatibleOperation);
      }
      var decision := dedupe.Reserve(c, now);
      if !decision.Reserved? {
        return if decision.Replay? then decision.result
            else Failure(if decision.DuplicateKey? then DuplicateOperation else BusyError);
      }
      var r := taskStore.CancelTask(id, Some(c.sender), None, reason, Tick(now));
      if r.CancelRefused? {
        var _ := dedupe.Release(decision.reservation, now);
        return Failure(if r.reason.CancelUnauthorized? then Unauthorized
            else if r.reason.CancelNoSuchTask? then NotFoundError else NotCancelableError);
      }
      if r.task.state.Cancelled? {
        FinishTask(id, Some(r.task), now);
      }
      response := Success(SnapshotResult(r.task));
      var _ := dedupe.Commit(decision.reservation, response, Some(id), now);
    }

    /** Walks an open task to the outcome of a reply. */
    method WalkToOutcome(m: ReplyMessage, now: int) returns (t: Option<Task>)
      requires Valid()
      modifies taskStore
      ensures Valid() && (taskStore.State(), t) == ApplyReply(old(taskStore.State()), m, now)
    {
      var id, c := m.requestId, Tick(now);
      if id in taskStore.records && taskStore.records[id].task.state.Created? {
        var _ := taskStore.TryTransition(id, None, Accepted, NO_UPDATE, c);
      }
      if id in taskStore.records && taskStore.records[id].task.state in {Accepted, Queued} {
        var _ := taskStore.TryTransition(id, None, Working, NO_UPDATE, c);
      }
      t := EnterOutcome(m, now);
    }

    method EnterOutcome(m: ReplyMessage, now: int) returns (t: Option<Task>)
      requires Valid()
      modifies taskStore
      ensures Valid() && (taskStore.State(), t) == ReplyEnd(old(taskStore.State()), m, now)
    {
      var id, c := m.requestId, Tick(now);
      if !m.outcome.Completed? && !m.outcome.Failed? && !m.outcome.Rejected? && !m.outcome.Cancelled? {
        t := taskStore.ExpireTask(id, c);
        return;
      }
      var r;
      match m.outcome {
        case Completed => r := taskStore.TryTransition(id, None, Completed, NO_UPDATE.(content := m.content), c);
        case Failed => r := taskStore.TryTransition(id, None, Failed, NO_UPDATE.(error := m.error), c);
        case Rejected => r := taskStore.TryTransition(id, None, Rejected, NO_UPDATE.(error := m.error), c);
        case Cancelled =>
          var asked := NO_UPDATE.(cancellationRequested := true);
          if id in taskStore.records && taskStore.records[id].task.state.Working? {
            var _ := taskStore.TryTransition(id, None, Cancelling, asked, c);
          }
          r := taskStore.TryTransition(id, None, Cancelled,
              asked.(error := if m.error.Some? then m.error else Some(CancelledError)), c);
      }
      t := if r.Changed? then Some(r.task) else None;
    }

    /** Why a reply is turned away, from what the router holds. */
    function Refusal(m: ReplyMessage, task: Option<Task>): Option<ErrorCode>
      reads this
    {
      if task.None? || task.value.ownership != Outbound then Some(Unauthorized)
      else RefusalFor(config, outbound, m, task.value)
    }

    method ProcessMessageReply(m: ReplyMessage, now: int) returns (response: Response)
      requires Valid()
      modifies this, taskStore, dedupe
      ensures Valid() && (View(), response) == ProcessReply(old(View()), m, now)
    {
      var task := taskStore.GetTask(m.requestId, Tick(now));
      var refusal := Refusal(m, task);
      if refusal.Some? {
        return Failure(refusal.value);
      }
      response := AcceptReply(task.value, m, now);
    }

    method AcceptReply(task: Task, m: ReplyMessage, now: int) returns (response: Response)
      requires Valid()
      modifies this, taskStore, dedupe
      ensures Valid()
      ensures (View(), response) == RouterSpec.AcceptReply(old(View()), task, m,
          ApplyReply(old(taskStore.State()), m, now), now)
    {
      var decision := dedupe.Reserve(m.envelope, now);
      if !decision.Reserved? {
        return if decision.Replay? then decision.result
            else Failure(if decision.DuplicateKey? then DuplicateOperation else BusyError);
      }
      if IsTerminal(task.state) {
        var _ := dedupe.Release(decision.reservation, now);
        return Failure(if task.state.Cancelled? then CancelledError else NotCancelableError);
      }
      var t := WalkToOutcome(m, now);
      if t.None? || !IsTerminal(t.value.state) {
        var _ := dedupe.Release(decision.reservation, now);
        return Failure(NotCancelableError);
      }
      FinishOutboundRequest(m.requestId, t.value);
      response := Success(ReplyDelivered(m.requestId, m.outcome));
      var _ := dedupe.Commit(decision.reservation, response, Some(m.requestId), now);
    }

    /* ---------- outbound requests ---------- */

    method SendRequest(id: Name, target: Name, createdAt: int, expiresAt: int, now: int)
      requires Valid()
      modifies this, taskStore
      ensures Valid() && View() == RouterSpec.SendRequest(old(View()), id, target, createdAt, expiresAt, now)
    {
      if |outbound| >= MAX_TRACKED_TASKS {
        return;
      }
      var me := config.runtimeId;
      var created := taskStore.CreateTask(
        Creation(id, me, me, Some(target), Outbound, Created, createdAt, expiresAt, false, None, None, None),
            Tick(now), now);
      if !created.NewTask? {
        return;
      }
      outbound := outbound[id := OutboundRecord(target, expiresAt, false, None)];
      if |pending| < MAX_PENDING_OPERATIONS {
        pending := pending + {id};
      }
    }

    /** The peer's answer to a request that is still pending. */
    method ApplyResponse(id: Name, ack: Ack, now: int)
      requires Valid()
      modifies this, taskStore
      ensures Valid() && View() == RouterSpec.ApplyResponse(old(View()), id, ack, now)
    {
      if id !in pending {
        return;
      }
      pending := pending - {id};
      if ack.AckError? || id !in outbound {
        return;
      }
      var _ := taskStore.TryTransition(id, None, Accepted, NO_UPDATE, Tick(now));
      if ack.AckQueued? {
        var _ := taskStore.TryTransition(id, None, Queued, NO_UPDATE, Tick(now));
      }
      outbound := outbound[id := outbound[id].(admissionResolved := true)];
    }
  }

  /** A ticket under a fresh handle cannot be taken for one of the leases already kept. */
  lemma KeepGenuine(s: P.PolicyState, t: P.Ticket, o: P.PolicyState, leases: map<Name, P.Lease>)
    requires AllGenuine(s, leases) && P.Retained(o) <= P.Retained(s) + {t}
    requires forall id | id in leases :: leases[id].handle != t.handle
    ensures AllGenuine(o, leases)
  {
    forall id | id in leases ensures Genuine(P.Retained(o), leases[id]) {
      assert Genuine(P.Retained(s), leases[id]);
    }
  }
}
