/** Every step of the router keeps the joint invariant and leaves nobody waiting while a slot is free. */
module RouterSteps {
  import opened TaskStates
  import opened TaskStoreSpec
  import opened Messages
  import opened RouterSpec
  import opened RouterInv
  import opened RouterRuns
  import opened PolicyShapes
  import P = PolicySpec
  import R = PolicyRuns
  import D = DedupeSpec

  /** What holds between two steps. */
  ghost predicate Settled(e: Engine, now: int) {
    EngineInv(e, now, None) && Conserving(e.policy)
  }

  lemma LaterEngine(e: Engine, now: int, later: int)
    requires Settled(e, now) && now <= later
    ensures Settled(e, later)
  {
    BodyLater(e.store.tasks, e.inbound, e.leases, P.Tickets(e.policy.queue), P.Tickets(e.policy.active), now, None,
        later);
  }

  lemma ReadEngine(e: Engine, id: Name, now: int)
    requires Settled(e, now)
    ensures Settled(e.(store := ExpireIfDue(e.store, id, Tick(now))), now)
  {
    ExpireIfDueEngine(e, id, now);
  }

  /** Cleaning up after a task that was found terminal. */
  lemma FinishFound(e: Engine, id: Name, now: int)
    requires Settled(e, now) && id in e.store.tasks && IsTerminal(e.store.tasks[id].state)
    ensures Settled(FinishTask(e, id, Some(e.store.tasks[id]), now), now)
  {
    FinishTaskEngine(e, id, now, None);
  }

  /* ---------- the executor and the router's timers ---------- */

  lemma ExecutorReturnsEngine(e: Engine, id: Name, result: ExecutorResult, now: int)
    requires Settled(e, now)
    ensures Settled(ApplyExecutorResult(e, id, result, now), now)
  {
    var f := e.(store := ExpireIfDue(e.store, id, Tick(now)));
    ReadEngine(e, id, now);
    if id in f.store.tasks {
      if IsTerminal(f.store.tasks[id].state) {
        FinishFound(f, id, now);
      } else {
        match result
        case Nothing =>
        case Returned(content, valid) => SettleEngine(f, id, Completed, NO_UPDATE.(content := Some(content)), now);
        case FailedWith(error) => SettleEngine(f, id, Failed, NO_UPDATE.(error := Some(error)), now);
        case RejectedWith(error) => SettleEngine(f, id, Rejected, NO_UPDATE.(error := Some(error)), now);
      }
    }
  }

  lemma ExecutorThrowsUnfolds(e: Engine, id: Name, now: int)
    ensures var f := e.(store := ExpireIfDue(e.store, id, Tick(now)));
            HandleExecutorFailure(e, id, now)
            == if id !in f.store.tasks then f
               else if IsTerminal(f.store.tasks[id].state) then FinishTask(f, id, Some(f.store.tasks[id]), now)
               else if f.store.tasks[id].state.Cancelling?
                   then Settle(f, id, Cancelled, Update(None, Some(CancelledError), true, None, None), now)
               else Settle(f, id, Failed, NO_UPDATE.(error := Some(Internal)), now)
  {
  }

  lemma ExecutorThrowsEngine(e: Engine, id: Name, now: int)
    requires Settled(e, now)
    ensures Settled(HandleExecutorFailure(e, id, now), now)
  {
    var f := e.(store := ExpireIfDue(e.store, id, Tick(now)));
    ReadEngine(e, id, now);
    ExecutorThrowsUnfolds(e, id, now);
    if id in f.store.tasks {
      if IsTerminal(f.store.tasks[id].state) {
        FinishFound(f, id, now);
      } else if f.store.tasks[id].state.Cancelling? {
        SettleEngine(f, id, Cancelled, Update(None, Some(CancelledError), true, None, None), now);
      } else {
        SettleEngine(f, id, Failed, NO_UPDATE.(error := Some(Internal)), now);
      }
    }
  }

  /** The router's timer expires a task it finds open, whatever the time. */
  lemma RouterTimerUnfolds(e: Engine, id: Name, now: int)
    ensures var f := e.(timers := e.timers - {id}, store := ExpireIfDue(e.store, id, Tick(now)));
            RouterTimer(e, id, now)
            == if id !in f.store.tasks || IsTerminal(f.store.tasks[id].state) then f
               else
                 var o := Commit(f.store, id, Expired, EXPIRY, now);
                 FinishTask(f.(store := o), id, Some(o.tasks[id]), now)
  {
    var s := ExpireIfDue(e.store, id, Tick(now));
    if id in s.tasks && !IsTerminal(s.tasks[id].state) {
      TransitionShape(s, id, Expired, EXPIRY, now);
      TerminalIffStuck(s.tasks[id].state);
    }
  }

  lemma RouterTimerEngine(e: Engine, id: Name, now: int)
    requires Settled(e, now)
    ensures Settled(RouterTimer(e, id, now), now)
  {
    var f := e.(timers := e.timers - {id}, store := ExpireIfDue(e.store, id, Tick(now)));
    ReadEngine(e, id, now);
    RouterTimerUnfolds(e, id, now);
    if id in f.store.tasks && !IsTerminal(f.store.tasks[id].state) {
      TerminalIffStuck(f.store.tasks[id].state);
      FinishCommitted(f, id, Expired, EXPIRY, now);
    }
  }

  lemma StoreTimerShape(s: StoreState, id: Name, now: int)
    requires id in s.tasks && IsDue(s.tasks[id], now)
    ensures ExpireTask(s, id, Tick(now)).0 == ExpireIfDue(s, id, Tick(now))
  {
    TransitionShape(s, id, Expired, EXPIRY, now);
    TerminalIffStuck(s.tasks[id].state);
  }

  /* ---------- cancellation ---------- */

  /** Cancelling asks a working task to stop, ends one that is not, and leaves the rest as it was. */
  lemma CancelTaskShape(s: StoreState, id: Name, caller: Option<Name>, reason: bool, now: int)
    requires id in s.tasks
    ensures var e := ExpireIfDue(s, id, Tick(now));
            var (o, r) := CancelTask(s, id, caller, None, reason, Tick(now));
            || (o == e && (r.CancelOk? ==> r.task == e.tasks[id] && r.task.state.Cancelled?)
                       && (r.CancelRefused? ==> r.current == None || r.current == Some(e.tasks[id])))
            || exists next, u :: CancelMove(e, id, next, u, now, o, r)
  {
    var e := ExpireIfDue(s, id, Tick(now));
    var t := e.tasks[id];
    if !(caller.Some? && !MayControl(s, t, caller.value)) && !IsTerminal(t.state) {
      var next := if t.state.Working? then Cancelling else Cancelled;
      var u := Update(None, if next.Cancelled? && reason then Some(CancelledError) else None, true, Some(now), None);
      TransitionShape(e, id, next, u, now);
      var (o, r) := CancelTask(s, id, caller, None, reason, Tick(now));
      assert CanTransition(t.state, next) ==> CancelMove(e, id, next, u, now, o, r);
    }
  }

  ghost predicate CancelMove(e: StoreState, id: Name, next: TaskState, u: Update, now: int, o: StoreState,
      r: Cancellation)
    requires id in e.tasks
  {
    && next == (if e.tasks[id].state.Working? then Cancelling else Cancelled)
    && CanTransition(e.tasks[id].state, next)
    && o == Commit(e, id, next, u, now)
    && r == CancelOk(true, o.tasks[id])
  }

  /** A working task that is asked to stop keeps its lease. */
  lemma StopEngine(e: Engine, id: Name, u: Update, now: int)
    requires Settled(e, now) && id in e.store.tasks && e.store.tasks[id].state.Working?
    ensures Settled(e.(store := Commit(e.store, id, Cancelling, u, now)), now)
  {
    var q := P.Tickets(e.policy.queue);
    assert TaskOk(id, e.store.tasks[id], e.leases, q, now);
    if id in e.leases {
      LeasedNotQueued(e.store.tasks, e.inbound, e.leases, q, P.Tickets(e.policy.active), now, None, id);
    } else {
      OutboundNotQueued(e, id, now);
    }
    CommitEngine(e, id, Cancelling, u, now, None);
  }

  lemma OutboundNotQueued(e: Engine, id: Name, now: int)
    requires EngineInv(e, now, None) && id in e.store.tasks && e.store.tasks[id].ownership.Outbound?
    ensures Absent(P.Tickets(e.policy.queue), id)
  {
    forall t | t in P.Tickets(e.policy.queue) ensures !For(t, id) {
      assert QueuedOk(e.store.tasks, e.inbound, now, None, t);
    }
  }

  /** `CancelTask` and then `finishTask`: what a cancellation does once its caller is known. */
  ghost function AfterCancel(e: Engine, id: Name, o: StoreState, r: Cancellation, now: int): Engine {
    if r.CancelOk? && r.task.state.Cancelled? then FinishTask(e.(store := o), id, Some(r.task), now) else e.(store := o)
  }

  lemma CancelledEngine(e: Engine, id: Name, caller: Option<Name>, reason: bool, now: int)
    requires Settled(e, now)
    ensures var (o, r) := CancelTask(e.store, id, caller, None, reason, Tick(now));
            Settled(AfterCancel(e, id, o, r, now), now)
    ensures var (o, r) := CancelTask(e.store, id, caller, None, reason, Tick(now));
            r.CancelRefused? ==> Settled(e.(store := o), now)
                                 && (r.current.Some? ==> id in o.tasks && r.current.value == o.tasks[id])
  {
    var (o, r) := CancelTask(e.store, id, caller, None, reason, Tick(now));
    if id in e.store.tasks {
      CancelTaskShape(e.store, id, caller, reason, now);
      var s := ExpireIfDue(e.store, id, Tick(now));
      var f := e.(store := s);
      ReadEngine(e, id, now);
      if next, u :| CancelMove(s, id, next, u, now, o, r) {
        if next.Cancelling? {
          StopEngine(f, id, u, now);
        } else {
          FinishCommitted(f, id, Cancelled, u, now);
        }
      } else if r.CancelOk? {
        FinishFound(f, id, now);
      }
    }
  }

  lemma CancelLocallyEngine(e: Engine, id: Name, caller: Option<Name>, reason: bool, now: int)
    requires Settled(e, now)
    ensures Settled(CancelLocally(e, id, caller, reason, now), now)
  {
    var (o, r) := CancelTask(e.store, id, caller, None, reason, Tick(now));
    CancelledEngine(e, id, caller, reason, now);
    if r.CancelRefused? && r.current.Some? && IsTerminal(r.current.value.state) {
      FinishFound(e.(store := o), id, now);
    } else if r.CancelOk? && IsTerminal(r.task.state) {
      OkIsCancelled(e.store, id, caller, reason, now);
    }
  }

  lemma OkIsCancelled(s: StoreState, id: Name, caller: Option<Name>, reason: bool, now: int)
    ensures var r := CancelTask(s, id, caller, None, reason, Tick(now)).1;
            r.CancelOk? ==> r.task.state in {Cancelled, Cancelling}
  {
    if id in s.tasks {
      CancelTaskShape(s, id, caller, reason, now);
    }
  }

  /** A peer's cancellation does what a local one does, or touches the dedupe store only. */
  lemma ProcessCancelFrame(e: Engine, c: Envelope, id: Name, reason: bool, now: int)
    ensures var f := e.(dedupe := D.Reserve(e.dedupe, c, now).0);
            var (s, r) := CancelTask(e.store, id, Some(c.sender), None, reason, Tick(now));
            var o := ProcessCancel(e, c, id, reason, now).0;
            || o == e.(dedupe := o.dedupe)
            || (r.CancelRefused? && o == e.(store := s, dedupe := o.dedupe))
            || (r.CancelOk? && o == AfterCancel(f, id, s, r, now).(dedupe := o.dedupe))
  {
    var (d, decision) := D.Reserve(e.dedupe, c, now);
    var (s, r) := CancelTask(e.store, id, Some(c.sender), None, reason, Tick(now));
    if e.config.supportsCancellation && decision.Reserved? && r.CancelOk? {
      assert r.task.state.Cancelled? ==> FinishTask(e.(dedupe := d, store := s), id, Some(r.task), now)
                                         == AfterCancel(e.(dedupe := d), id, s, r, now);
    }
  }

  lemma ProcessCancelEngine(e: Engine, c: Envelope, id: Name, reason: bool, now: int)
    requires Settled(e, now)
    ensures Settled(ProcessCancel(e, c, id, reason, now).0, now)
  {
    ProcessCancelFrame(e, c, id, reason, now);
    CancelledEngine(e.(dedupe := D.Reserve(e.dedupe, c, now).0), id, Some(c.sender), reason, now);
  }

  /* ---------- tasks of the sender's side ---------- */

  ghost predicate OutboundTask(e: Engine, id: Name) {
    id in e.store.tasks && e.store.tasks[id].ownership.Outbound?
  }

  lemma OutboundTransition(e: Engine, id: Name, next: TaskState, u: Update, now: int)
    requires Settled(e, now) && OutboundTask(e, id)
    ensures var o := e.(store := TryTransition(e.store, id, None, next, u, Tick(now)).0);
            Settled(o, now) && OutboundTask(o, id)
  {
    var s := if next.Expired? then e.store else ExpireIfDue(e.store, id, Tick(now));
    var f := e.(store := s);
    ReadEngine(e, id, now);
    TransitionShape(e.store, id, next, u, now);
    if CanTransition(s.tasks[id].state, next) {
      OutboundNotQueued(f, id, now);
      CommitEngine(f, id, next, u, now, None);
    }
  }

  /** The walk of a reply, one transition at a time. */
  lemma ApplyReplyEngine(e: Engine, m: ReplyMessage, now: int)
    requires Settled(e, now) && OutboundTask(e, m.requestId)
    ensures Settled(e.(store := ApplyReply(e.store, m, now).0), now)
  {
    var id := m.requestId;
    var a := if e.store.tasks[id].state.Created?
        then e.(store := TryTransition(e.store, id, None, Accepted, NO_UPDATE, Tick(now)).0) else e;
    OutboundTransition(e, id, Accepted, NO_UPDATE, now);
    var b := if a.store.tasks[id].state in {Accepted, Queued}
        then a.(store := TryTransition(a.store, id, None, Working, NO_UPDATE, Tick(now)).0) else a;
    OutboundTransition(a, id, Working, NO_UPDATE, now);
    ReplyEnds(b, m, now);
  }

  lemma ReplyEnds(b: Engine, m: ReplyMessage, now: int)
    requires Settled(b, now) && OutboundTask(b, m.requestId)
    ensures Settled(b.(store := ReplyEnd(b.store, m, now).0), now)
  {
    var id := m.requestId;
    match m.outcome
    case Completed => OutboundTransition(b, id, Completed, NO_UPDATE.(content := m.content), now);
    case Failed => OutboundTransition(b, id, Failed, NO_UPDATE.(error := m.error), now);
    case Rejected => OutboundTransition(b, id, Rejected, NO_UPDATE.(error := m.error), now);
    case Cancelled =>
      var asked := NO_UPDATE.(cancellationRequested := true);
      var d := if b.store.tasks[id].state.Working?
          then b.(store := TryTransition(b.store, id, None, Cancelling, asked, Tick(now)).0) else b;
      OutboundTransition(b, id, Cancelling, asked, now);
      OutboundTransition(d, id, Cancelled, asked.(error := if m.error.Some? then m.error else Some(CancelledError)),
          now);
    case _ => OutboundTransition(b, id, Expired, EXPIRY, now);
  }

  lemma OutcomeIsStored(s: StoreState, id: Name, next: TaskState, u: Update, now: int)
    requires id in s.tasks
    ensures var (o, r) := TryTransition(s, id, None, next, u, Tick(now));
            id in o.tasks && match r case Changed(_, t) => t == o.tasks[id] case Refused(_, t) => t == Some(o.tasks[id])
  {
    TransitionShape(s, id, next, u, now);
  }

  lemma ReplyEndShape(b: StoreState, m: ReplyMessage, now: int)
    requires m.requestId in b.tasks
    ensures var (s, t) := ReplyEnd(b, m, now); m.requestId in s.tasks && (t.Some? ==> t.value == s.tasks[m.requestId])
  {
    var id := m.requestId;
    match m.outcome
    case Completed => OutcomeIsStored(b, id, Completed, NO_UPDATE.(content := m.content), now);
    case Failed => OutcomeIsStored(b, id, Failed, NO_UPDATE.(error := m.error), now);
    case Rejected => OutcomeIsStored(b, id, Rejected, NO_UPDATE.(error := m.error), now);
    case Cancelled =>
      var asked := NO_UPDATE.(cancellationRequested := true);
      OutcomeIsStored(b, id, Cancelling, asked, now);
      var d := if b.tasks[id].state.Working? then TryTransition(b, id, None, Cancelling, asked, Tick(now)).0 else b;
      OutcomeIsStored(d, id, Cancelled, asked.(error := if m.error.Some? then m.error else Some(CancelledError)), now);
    case _ => OutcomeIsStored(b, id, Expired, EXPIRY, now);
  }

  lemma ApplyReplyShape(s: StoreState, m: ReplyMessage, now: int)
    requires m.requestId in s.tasks
    ensures var (o, t) := ApplyReply(s, m, now); m.requestId in o.tasks && (t.Some? ==> t.value == o.tasks[m.requestId])
  {
    var id := m.requestId;
    var a := if s.tasks[id].state.Created? then TryTransition(s, id, None, Accepted, NO_UPDATE, Tick(now)).0 else s;
    var b := if a.tasks[id].state in {Accepted, Queued}
        then TryTransition(a, id, None, Working, NO_UPDATE, Tick(now)).0 else a;
    ReplyEndShape(b, m, now);
  }

  /** A reply that is not applied leaves everything but the dedupe store; one that is changes the task
      it names and resolves its completion. */
  lemma AcceptReplyFrame(f: Engine, task: Task, m: ReplyMessage, applied: (StoreState, Option<Task>), now: int)
    ensures var g := f.(store := applied.0);
            var o := AcceptReply(f, task, m, applied, now).0;
            || o == f.(dedupe := o.dedupe)
            || o == g.(dedupe := o.dedupe)
            || (applied.1.Some? && o == FinishOutbound(g, m.requestId, applied.1.value).(dedupe := o.dedupe))
  {
  }

  /** Only an outbound task takes replies. */
  lemma ProcessReplyUnfolds(e: Engine, m: ReplyMessage, now: int)
    ensures var f := e.(store := ExpireIfDue(e.store, m.requestId, Tick(now)));
            var o := ProcessReply(e, m, now).0;
            || o == f
            || (OutboundTask(f, m.requestId)
                && o == AcceptReply(f, f.store.tasks[m.requestId], m, ApplyReply(f.store, m, now), now).0)
  {
  }

  lemma ProcessReplyEngine(e: Engine, m: ReplyMessage, now: int)
    requires Settled(e, now)
    ensures Settled(ProcessReply(e, m, now).0, now)
  {
    var f := e.(store := ExpireIfDue(e.store, m.requestId, Tick(now)));
    ReadEngine(e, m.requestId, now);
    ProcessReplyUnfolds(e, m, now);
    if OutboundTask(f, m.requestId) {
      AcceptReplyEngine(f, m, now);
    }
  }

  lemma AcceptReplyEngine(f: Engine, m: ReplyMessage, now: int)
    requires Settled(f, now) && OutboundTask(f, m.requestId)
    ensures Settled(AcceptReply(f, f.store.tasks[m.requestId], m, ApplyReply(f.store, m, now), now).0, now)
  {
    AcceptReplyFrame(f, f.store.tasks[m.requestId], m, ApplyReply(f.store, m, now), now);
    ReplyAppliedEngine(f, m, now);
  }

  lemma ReplyAppliedEngine(f: Engine, m: ReplyMessage, now: int)
    requires Settled(f, now) && OutboundTask(f, m.requestId)
    ensures var (s, t) := ApplyReply(f.store, m, now);
            Settled(f.(store := s), now)
                && (t.Some? ==> Settled(FinishOutbound(f.(store := s), m.requestId, t.value), now))
  {
    ApplyReplyEngine(f, m, now);
    ApplyReplyShape(f.store, m, now);
    FinishOutboundEngine(f.(store := ApplyReply(f.store, m, now).0), m.requestId, now);
  }

  lemma AckEngine(e: Engine, id: Name, ack: Ack, now: int)
    requires Settled(e, now)
    ensures Settled(ApplyResponse(e, id, ack, now), now)
  {
    if id in e.pending && id in e.outbound {
      AckTransition(e, id, Accepted, now);
      var a := e.(store := TryTransition(e.store, id, None, Accepted, NO_UPDATE, Tick(now)).0);
      AckTransition(a, id, Queued, now);
      var s := if ack.AckQueued? then TryTransition(a.store, id, None, Queued, NO_UPDATE, Tick(now)).0 else a.store;
      LogsOutbound(s.tasks, e.inbound, e.outbound, e.replies, e.completed, id,
          e.outbound[id].(admissionResolved := true));
    }
  }

  /** An acknowledgement that names an inbound task can only move it from leased to queued. */
  lemma AckTransition(e: Engine, id: Name, next: TaskState, now: int)
    requires Settled(e, now) && next in {Accepted, Queued}
    ensures Settled(e.(store := TryTransition(e.store, id, None, next, NO_UPDATE, Tick(now)).0), now)
  {
    if OutboundTask(e, id) {
      OutboundTransition(e, id, next, NO_UPDATE, now);
    } else if id in e.store.tasks {
      var f := e.(store := ExpireIfDue(e.store, id, Tick(now)));
      ReadEngine(e, id, now);
      TransitionShape(e.store, id, next, NO_UPDATE, now);
      assert TaskOk(id, f.store.tasks[id], f.leases, P.Tickets(f.policy.queue), now);
      if CanTransition(f.store.tasks[id].state, next) {
        CommitEngine(f, id, next, NO_UPDATE, now, None);
      }
    }
  }

  lemma ExecutedBirth(tasks: Tasks, executed: seq<Name>, id: Name, t: Task)
    requires ExecutedOk(tasks, executed) && id !in tasks
    ensures ExecutedOk(tasks[id := t], executed) && id !in executed
  {
    forall k | k in executed ensures Handed(tasks[id := t], k) && k != id {
      assert Handed(tasks, k);
    }
  }

  lemma SentEngine(e: Engine, id: Name, target: Name, createdAt: int, expiresAt: int, now: int)
    requires Settled(e, now)
    ensures Settled(SendRequest(e, id, target, createdAt, expiresAt, now), now)
  {
    var i := Creation(id, e.config.runtimeId, e.config.runtimeId, Some(target), Outbound, Created, createdAt,
        expiresAt, false, None, None, None);
    if id !in e.store.tasks {
      var t := NewRecord(e.store.retainResponse, e.store.nextUid, i, Tick(now));
      var f := e.(store := Birth(e.store, id, t));
      BodySent(e.store.tasks, e.inbound, e.leases, P.Tickets(e.policy.queue), P.Tickets(e.policy.active), now, id, t);
      ExecutedBirth(e.store.tasks, e.executed, id, t);
      LogsTask(e.store.tasks, e.inbound, e.outbound, e.replies, e.completed, id, t);
      ReadEngine(f, id, now);
      LogsOutbound(ExpireIfDue(f.store, id, Tick(now)).tasks, e.inbound, e.outbound, e.replies, e.completed, id,
          OutboundRecord(target, expiresAt, false, None));
    }
  }

  lemma ReplySettledEngine(e: Engine, id: Name, now: int)
    requires Settled(e, now) && Replied(e.replies, id)
    ensures Settled(e.(inbound := e.inbound - {id}), now)
  {
    var q, a := P.Tickets(e.policy.queue), P.Tickets(e.policy.active);
    var r :| r in e.replies && r.requestId == id;
    assert Answered(e.store.tasks, e.inbound, r);
    if id in e.inbound {
      assert InboundOk(e.store.tasks, q, a, id, e.inbound[id]);
      BodyInbound(e.store.tasks, e.inbound, e.leases, q, a, now, id, None);
      LogsInbound(e.store.tasks, e.inbound, e.outbound, e.replies, e.completed, e.inbound - {id});
    } else {
      assert e.inbound - {id} == e.inbound;
    }
  }

  /* ---------- arriving requests ---------- */

  ghost function TicketFor(e: Engine, r: Request, handle: Name): P.Ticket {
    P.Ticket(e.policy.nextToken, handle, EntryFor(r, handle, SlotFree(e)))
  }

  /** The policy after admission looked at the clock and took a token. */
  ghost function Prepared(e: Engine, now: int): P.PolicyState {
    P.Expire(e.policy, At(e, now)).(nextToken := e.policy.nextToken + 1)
  }

  lemma PreparedPolicy(p: P.PolicyState, at: P.Reading)
    requires R.Inv(p) && p.lastNow <= at.sample
    ensures var o := P.Expire(p, at).(nextToken := p.nextToken + 1);
            && R.Inv(o) && R.Unused(o, p.nextToken) && o.lastNow == at.sample
            && |o.active| == |p.active| && P.Retained(o) <= P.Retained(p) && (p.queue == [] ==> o.queue == [])
            && forall q | q in o.queue :: q.ticket.token < p.nextToken
  {
    ExpireShape(p, at);
    R.NextTokenUnused(P.Expire(p, at));
  }

  lemma PreparedEngine(e: Engine, now: int)
    requires Settled(e, now)
    ensures Settled(e.(policy := Prepared(e, now)), now)
  {
    var x := P.Expire(e.policy, At(e, now));
    ExpireShape(e.policy, At(e, now));
    PreparedPolicy(e.policy, At(e, now));
    BodyExpire(e.store.tasks, e.inbound, e.leases, P.Tickets(e.policy.queue), P.Tickets(e.policy.active), now, None,
               P.Tickets(x.queue));
    SubsetHandles(P.Retained(e.policy), P.Retained(x));
  }

  /** The handle of an arriving request names nothing yet. */
  lemma FreshHandle(p: P.PolicyState, x: P.PolicyState, handle: Name)
    requires P.TokenWithHandle(p.active + p.queue, handle).None? && P.Retained(x) <= P.Retained(p)
    ensures forall t | t in P.Retained(x) :: t.handle != handle
  {
    TokenFound(p.active + p.queue, handle);
    forall t | t in P.Retained(x) ensures t.handle != handle {
      var r :| (r in p.queue || r in p.active) && r.ticket == t;
      assert r in p.active + p.queue;
    }
  }

  /** An admission that kept the ticket: where it put it. */
  ghost predicate Kept(x: P.PolicyState, t: P.Ticket, o: P.PolicyState, leased: bool) {
    if leased then o == P.Activate(x, t) && |x.active| < x.activeCapacity
    else o == x.(queue := x.queue + [Waits(t)]) && |x.queue| < x.queueCapacity
  }

  lemma AdmissionCases(e: Engine, r: Request, handle: Name, now: int)
    requires e.policy.lastNow <= now
    ensures var x := Prepared(e, now);
            var (p, admission) := P.Admit(e.policy, EntryFor(r, handle, SlotFree(e)), handle, SlotFree(e),
                At(e, now), At(e, now));
            if RefusalOf(admission).Some? then p == x
            else
              && Kept(x, TicketFor(e, r, handle), p, SlotFree(e))
              && admission == if SlotFree(e) then P.Admitted(P.LeaseOf(TicketFor(e, r, handle)))
                  else P.Enqueued(handle, |x.queue| + 1)
  {
    AdmitCases(e.policy, EntryFor(r, handle, SlotFree(e)), handle, At(e, now));
  }

  lemma AdmitCases(s: P.PolicyState, entry: P.Entry, handle: Name, at: P.Reading)
    requires s.lastNow <= at.sample
    ensures var free := |s.active| < s.activeCapacity;
            var t := P.Ticket(s.nextToken, handle, entry);
            var x := P.Expire(s, at).(nextToken := s.nextToken + 1);
            var (p, admission) := P.Admit(s, entry, handle, free, at, at);
            if RefusalOf(admission).Some? then p == x
            else
              && Kept(x, t, p, free)
              && admission == if free then P.Admitted(P.LeaseOf(t)) else P.Enqueued(handle, |x.queue| + 1)
  {
    AdmitShape(s, entry, handle, |s.active| < s.activeCapacity, at);
    R.MarkDueKeepsTickets(s.active, P.Max(s.lastNow, at.sample));
  }

  /** Whatever fails after the policy said yes, releasing the handle gives the policy back as it was. */
  lemma RollBack(e: Engine, r: Request, handle: Name, now: int, p: P.PolicyState)
    requires R.Inv(e.policy) && e.policy.lastNow <= now
    requires P.TokenWithHandle(e.policy.active + e.policy.queue, handle).None?
    requires Kept(Prepared(e, now), TicketFor(e, r, handle), p, SlotFree(e))
    ensures P.Release(p, handle) == Prepared(e, now)
  {
    KeptIsUndone(e.policy, At(e, now), TicketFor(e, r, handle), p, SlotFree(e));
  }

  lemma KeptIsUndone(s: P.PolicyState, at: P.Reading, t: P.Ticket, p: P.PolicyState, leased: bool)
    requires R.Inv(s) && s.lastNow <= at.sample && t.token == s.nextToken
    requires P.TokenWithHandle(s.active + s.queue, t.handle).None?
    requires Kept(P.Expire(s, at).(nextToken := s.nextToken + 1), t, p, leased)
    ensures P.Release(p, t.handle) == P.Expire(s, at).(nextToken := s.nextToken + 1)
  {
    var x := P.Expire(s, at).(nextToken := s.nextToken + 1);
    PreparedPolicy(s, at);
    FreshHandle(s, x, t.handle);
    ReleaseUndoesAdmission(x, t, p);
  }

  lemma CreateShape(e: Engine, r: Request, leased: bool, handle: Name, now: int)
    requires Arrivable(e, r, handle, now)
    ensures var id := r.envelope.operationId;
            var (s, created) := TaskStoreSpec.CreateTask(e.store, CreationFor(e.config, r, leased), Tick(now), now);
            var t := NewRecord(e.store.retainResponse, e.store.nextUid, CreationFor(e.config, r, leased), Tick(now));
            if id in e.store.tasks then s == e.store && !created.NewTask?
            else
              && s == Birth(e.store, id, t) && created == NewTask(t)
              && t.ownership.Inbound? && t.state == (if leased then Accepted else Queued)
              && t.deadline == r.envelope.expiresAt
  {
  }

  /** The state in which a new request is recorded, up to the dedupe store and the router's timers. */
  ghost function Arrived(e: Engine, r: Request, handle: Name, p: P.PolicyState, now: int): Engine {
    var id := r.envelope.operationId;
    var leased := SlotFree(e);
    var t := TicketFor(e, r, handle);
    e.(policy := p,
       store := Birth(e.store, id, NewRecord(e.store.retainResponse, e.store.nextUid,
           CreationFor(e.config, r, leased), Tick(now))),
       inbound := e.inbound[id := InboundRecord(r, false)],
       leases := if leased then e.leases[id := P.LeaseOf(t)] else e.leases,
       grants := if leased then e.grants + [Grant(t.token, id)] else e.grants)
  }

  lemma KeptPolicy(x: P.PolicyState, t: P.Ticket, p: P.PolicyState, leased: bool)
    requires R.Inv(x) && HandlesName(P.Retained(x)) && R.Unused(x, t.token) && Kept(x, t, p, leased)
    requires forall q | q in x.queue :: q.ticket.token < t.token
    requires forall u | u in P.Retained(x) :: u.handle != t.handle
    ensures R.Inv(p) && HandlesName(P.Retained(p))
    ensures P.Tickets(p.queue) == P.Tickets(x.queue) + (if leased then {} else {t})
    ensures P.Tickets(p.active) == P.Tickets(x.active) + (if leased then {t} else {})
  {
    if leased {
      R.ActivateInv(x, t);
      R.PushTickets(x.active, P.Fresh(t).(status := P.Active));
    } else {
      R.PushInv(x, t);
      R.PushTickets(x.queue, Waits(t));
    }
    OneMoreHandle(P.Retained(x), t);
    assert P.Retained(p) == P.Retained(x) + {t};
  }

  lemma OneMoreHandle(ts: set<P.Ticket>, t: P.Ticket)
    requires HandlesName(ts) && forall u | u in ts :: u.handle != t.handle
    ensures HandlesName(ts + {t})
  {
    forall a, b | a in ts + {t} && b in ts + {t} && Homonyms(a, b) ensures a == b {
    }
  }

  lemma ArrivedEngine(e: Engine, r: Request, handle: Name, p: P.PolicyState, now: int)
    requires Settled(e, now) && Arrivable(e, r, handle, now) && r.envelope.operationId !in e.store.tasks
    requires Kept(Prepared(e, now), TicketFor(e, r, handle), p, SlotFree(e))
    ensures Settled(Arrived(e, r, handle, p, now), now)
    ensures SlotFree(e) ==> ReadyToStart(Arrived(e, r, handle, p, now), r.envelope.operationId, now)
  {
    var id, t, x, leased := r.envelope.operationId, TicketFor(e, r, handle), Prepared(e, now), SlotFree(e);
    var f := e.(policy := x);
    var q, a := P.Tickets(x.queue), P.Tickets(x.active);
    PreparedEngine(e, now);
    PreparedPolicy(e.policy, At(e, now));
    FreshHandle(e.policy, x, handle);
    KeptPolicy(x, t, p, leased);
    CreateShape(e, r, leased, handle, now);
    var u := NewRecord(e.store.retainResponse, e.store.nextUid, CreationFor(e.config, r, leased), Tick(now));
    BodyArrival(e.store.tasks, e.inbound, e.leases, q, a, now, id, u, InboundRecord(r, false), t, leased);
    ExecutedBirth(e.store.tasks, e.executed, id, u);
    ArrivedGrants(e.grants, x.queue, t, id, x.nextToken, leased);
    LogsTask(e.store.tasks, e.inbound, e.outbound, e.replies, e.completed, id, u);
    LogsInbound(e.store.tasks[id := u], e.inbound, e.outbound, e.replies, e.completed,
        e.inbound[id := InboundRecord(r, false)]);
    assert leased ==> P.Tickets(p.queue) == q;
    assert !leased ==> P.Tickets(p.active) == a;
  }

  lemma ArrivedGrants(grants: seq<Grant>, queue: seq<P.QueueRecord>, t: P.Ticket, id: Name, nextToken: nat,
      leased: bool)
    requires GrantsOk(grants, P.Tickets(queue), nextToken) && t.token < nextToken
    requires forall i | 0 <= i < |grants| :: grants[i].token < t.token
    requires leased ==> queue == []
    ensures var granted := if leased then grants + [Grant(t.token, id)] else grants;
            GrantsOk(granted, P.Tickets(queue) + (if leased then {} else {t}), nextToken)
  {
  }

  /** The dispatch of a request that was given a lease on arrival; `e` is the router before it arrived. */
  ghost function Started(g: Engine, e: Engine, r: Request, handle: Name, now: int): Engine {
    if SlotFree(e) then DispatchLease(g, r.envelope.operationId, P.LeaseOf(TicketFor(e, r, handle)), now) else g
  }

  function AckOf(e: Engine, r: Request): Response {
    Success(AdmissionResult(r.envelope.operationId, if SlotFree(e) then Accepted else Queued))
  }

  /** The dedupe store after a request was reserved and its acknowledgement committed. */
  ghost function Acknowledged(e: Engine, r: Request, now: int): D.DedupeState {
    var d := D.Prune(e.dedupe, now);
    var v := D.Reservation(D.KeyOf(r.envelope), r.envelope.fingerprint, r.envelope.expiresAt + d.grace);
    D.Commit(D.Reserve(d, r.envelope, now).0, v, AckOf(e, r), Some(r.envelope.operationId), now).0
  }

  /** Between an inspection that found nothing and the reservation nothing was added; a release takes
      exactly the reservation back. */
  lemma ReserveAgain(s: D.DedupeState, v: Envelope, now: int)
    requires D.Inspect(s, v, now).1.NewOperation?
    ensures var p := D.Prune(s, now);
            var (d, decision) := D.Reserve(p, v, now);
            && decision == D.Reserved(D.Reservation(D.KeyOf(v), v.fingerprint, v.expiresAt + s.grace))
            && D.Release(d, decision.reservation, now).0 == p
  {
    var p := D.Prune(s, now);
    assert D.Prune(p, now) == p;
    var (d, decision) := D.Reserve(p, v, now);
    assert D.Prune(d, now) == d;
    assert D.Release(d, decision.reservation, now).0.records == p.records;
  }

  /** What the answers to an arriving request rest on, whatever else the router is doing. */
  ghost predicate Takes(e: Engine, r: Request, handle: Name, now: int) {
    R.Inv(e.policy) && e.policy.lastNow <= now && Arrivable(e, r, handle, now)
  }

  /** What a request leaves behind when it is not taken: entries that ran out are gone. */
  ghost function Tidied(e: Engine, id: Name, now: int): Engine {
    var f := e.(dedupe := D.Prune(e.dedupe, now), store := ExpireIfDue(e.store, id, Tick(now)));
    f.(policy := Prepared(f, now))
  }

  /** After admission: either everything is recorded and the request starts, or the policy and the
      dedupe store are back where they were. */
  lemma RecordUnfolds(e: Engine, f: Engine, r: Request, handle: Name, now: int)
    requires Takes(e, r, handle, now) && D.Inspect(e.dedupe, r.envelope, now).1.NewOperation?
    requires e.dedupe == D.Prune(e.dedupe, now)
    requires f == e.(policy := f.policy) && Kept(Prepared(e, now), TicketFor(e, r, handle), f.policy, SlotFree(e))
    ensures var id := r.envelope.operationId;
            var admission := if SlotFree(e) then P.Admitted(P.LeaseOf(TicketFor(e, r, handle)))
                else P.Enqueued(handle, |Prepared(e, now).queue| + 1);
            RecordRequest(f, r, handle, e.policy.nextToken, admission, now)
            == if id in e.store.tasks then (e.(policy := Prepared(e, now)), Failure(Internal))
               else (Started(Arrived(e, r, handle, f.policy, now).(dedupe := Acknowledged(e, r, now),
                   timers := e.timers + {id}), e, r, handle, now),
                     AckOf(e, r))
  {
    RollBack(e, r, handle, now, f.policy);
    CreateShape(e, r, SlotFree(e), handle, now);
    ReserveAgain(e.dedupe, r.envelope, now);
  }

  /** A request is answered from the dedupe store, refused, or taken. Whatever goes wrong on the way,
      nothing stays of it: a refused request leaves the stores as they were, but for entries that ran out. */
  lemma RequestOutcomes(e: Engine, r: Request, handle: Name, now: int)
    requires Takes(e, r, handle, now)
    ensures var (o, response) := ProcessRequest(e, r, handle, now);
            var f := Tidied(e, r.envelope.operationId, now).(policy := e.policy);
            || o == e.(dedupe := D.Prune(e.dedupe, now))
            || (o == Tidied(e, r.envelope.operationId, now) && response.Failure?)
            || (Taken(f, r, handle, now, o) && response == AckOf(e, r) && r.envelope.operationId !in f.store.tasks)
    ensures var (o, response) := ProcessRequest(e, r, handle, now);
            response.Failure? ==>
              o == e.(dedupe := D.Prune(e.dedupe, now)) || o == Tidied(e, r.envelope.operationId, now)
  {
    var (d, decision) := D.Inspect(e.dedupe, r.envelope, now);
    var f := Tidied(e, r.envelope.operationId, now).(policy := e.policy);
    if decision.NewOperation? && |e.inbound| < MAX_TRACKED_TASKS {
      AdmitUnfolds(f, r, handle, now);
    }
  }

  /** The request was recorded and, with a free slot, dispatched. */
  ghost predicate Taken(f: Engine, r: Request, handle: Name, now: int, o: Engine) {
    exists p ::
      && Kept(Prepared(f, now), TicketFor(f, r, handle), p, SlotFree(f))
      && o == Started(Arrived(f, r, handle, p, now).(dedupe := Acknowledged(f, r, now),
          timers := f.timers + {r.envelope.operationId}), f, r, handle, now)
  }

  lemma AdmitUnfolds(e: Engine, r: Request, handle: Name, now: int)
    requires Takes(e, r, handle, now) && D.Inspect(e.dedupe, r.envelope, now).1.NewOperation?
    requires e.dedupe == D.Prune(e.dedupe, now)
    ensures var (o, response) := AdmitRequest(e, r, handle, now);
            || (o == e.(policy := Prepared(e, now)) && response.Failure?)
            || (Taken(e, r, handle, now, o) && response == AckOf(e, r) && r.envelope.operationId !in e.store.tasks)
  {
    var (p, admission) := P.Admit(e.policy, EntryFor(r, handle, SlotFree(e)), handle, SlotFree(e), At(e, now),
        At(e, now));
    AdmissionCases(e, r, handle, now);
    if RefusalOf(admission).None? {
      RecordUnfolds(e, e.(policy := p), r, handle, now);
    }
  }

  lemma TidiedEngine(e: Engine, id: Name, now: int)
    requires Settled(e, now)
    ensures Settled(Tidied(e, id, now), now) && Settled(Tidied(e, id, now).(policy := e.policy), now)
  {
    var f := e.(dedupe := D.Prune(e.dedupe, now));
    ReadEngine(f, id, now);
    PreparedEngine(f.(store := ExpireIfDue(f.store, id, Tick(now))), now);
  }

  lemma TakenEngine(f: Engine, r: Request, handle: Name, now: int, o: Engine)
    requires Settled(f, now) && Arrivable(f, r, handle, now) && r.envelope.operationId !in f.store.tasks
    requires Taken(f, r, handle, now, o)
    ensures Settled(o, now)
  {
    var p :| Kept(Prepared(f, now), TicketFor(f, r, handle), p, SlotFree(f))
             && o == Started(Arrived(f, r, handle, p, now).(dedupe := Acknowledged(f, r, now),
                 timers := f.timers + {r.envelope.operationId}), f, r, handle, now);
    var g := Arrived(f, r, handle, p, now).(dedupe := Acknowledged(f, r, now),
        timers := f.timers + {r.envelope.operationId});
    ArrivedEngine(f, r, handle, p, now);
    if SlotFree(f) {
      DispatchEngine(g, r.envelope.operationId, P.LeaseOf(TicketFor(f, r, handle)), now);
    }
  }

  lemma RequestEngine(e: Engine, r: Request, handle: Name, now: int)
    requires Settled(e, now) && Arrivable(e, r, handle, now)
    ensures Settled(ProcessRequest(e, r, handle, now).0, now)
  {
    var o := ProcessRequest(e, r, handle, now).0;
    var id := r.envelope.operationId;
    RequestOutcomes(e, r, handle, now);
    TidiedEngine(e, id, now);
    var f := Tidied(e, id, now).(policy := e.policy);
    if Taken(f, r, handle, now, o) && id !in f.store.tasks {
      TakenEngine(f, r, handle, now, o);
    }
  }

  /* ---------- every step ---------- */

  /** Any step but the purge of a task that is no longer retained. */
  lemma StepEngine(e: Engine, ev: RouterSpec.Event, now: int, later: int)
    requires Settled(e, now) && now <= later && Enabled(e, ev, later)
    requires ev.PurgeTimerFires? ==> e.store.retention.None?
    ensures Settled(Step(e, ev, later), later)
  {
    LaterEngine(e, now, later);
    StepAt(e, ev, later);
  }

  lemma StepAt(e: Engine, ev: RouterSpec.Event, later: int)
    requires Settled(e, later) && Enabled(e, ev, later)
    requires ev.PurgeTimerFires? ==> e.store.retention.None?
    ensures Settled(Step(e, ev, later), later)
  {
    match ev
    case RequestArrives(r, handle) => RequestEngine(e, r, handle, later);
    case NotificationArrives(n) =>
    case NotificationHandled(v, delivered) =>
    case CancelArrives(c, id, reason) => ProcessCancelEngine(e, c, id, reason, later);
    case ReplyArrives(m) => ProcessReplyEngine(e, m, later);
    case StatusRead(id) => ReadEngine(e, id, later);
    case ExecutorReturns(id, result) => ExecutorReturnsEngine(e, id, result, later);
    case ExecutorThrows(id) => ExecutorThrowsEngine(e, id, later);
    case TaskCompleted(id, content, valid) => SettleEngine(e, id, Completed, NO_UPDATE.(content := Some(content)),
        later);
    case TaskFailed(id, error) => SettleEngine(e, id, Failed, NO_UPDATE.(error := Some(error)), later);
    case TaskRejected(id, error) => SettleEngine(e, id, Rejected, NO_UPDATE.(error := Some(error)), later);
    case TaskCancelled(id, caller, reason) => CancelLocallyEngine(e, id, caller, reason, later);
    case RouterTimerFires(id) => RouterTimerEngine(e, id, later);
    case StoreTimerFires(id) => StoreTimerShape(e.store, id, later); ReadEngine(e, id, later);
    case PurgeTimerFires(id) =>
    case ReplySettled(id) => ReplySettledEngine(e, id, later);
    case RequestSent(id, target, createdAt, expiresAt) => SentEngine(e, id, target, createdAt, expiresAt, later);
    case AckArrives(id, ack) => AckEngine(e, id, ack, later);
  }

  lemma InitEngine(config: Config, queueCapacity: nat, activeCapacity: nat, retention: Option<nat>, grace: nat,
      now: int)
    ensures Settled(Init(config, queueCapacity, activeCapacity, retention, grace, now), now)
  {
    var e := Init(config, queueCapacity, activeCapacity, retention, grace, now);
    forall id ensures LeaseHeld(e.leases, {}, id) {
    }
    assert P.Tickets([]) == {};
  }
}
