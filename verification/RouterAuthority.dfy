/** Who may end a request, and what everybody else is told: replies from peers and cancellations. */
module RouterAuthority {
  import opened TaskStates
  import opened TaskStoreSpec
  import opened TaskStoreLaws
  import opened Messages
  import opened RouterSpec
  import opened RouterSteps
  import opened RouterAnswers
  import opened RouterOutbound
  import opened RouterReplies
  import opened RouterTasks
  import D = DedupeSpec
  import Traces

  /* ---------- replies ---------- */

  /** The reply comes from the runtime the request was sent to. */
  ghost predicate FromTarget(e: Engine, t: Task, m: ReplyMessage) {
    if t.target.Some? then t.target.value == m.envelope.sender
    else m.requestId in e.outbound && e.outbound[m.requestId].target == m.envelope.sender
  }

  /** The reply's deadline is no later than the request's. */
  ghost predicate InTime(e: Engine, t: Task, m: ReplyMessage) {
    m.envelope.expiresAt <= (if m.requestId in e.outbound then e.outbound[m.requestId].expiresAt else t.expiresAt)
  }

  /** Why a reply is turned away, in the order in which its reasons are looked at; expiry changes none of them. */
  ghost function TurnedAway(e: Engine, m: ReplyMessage): Option<ErrorCode> {
    if m.requestId !in e.store.tasks || e.store.tasks[m.requestId].ownership != Outbound then Some(Unauthorized)
    else
      var t := e.store.tasks[m.requestId];
      if !FromTarget(e, t, m) then Some(Unauthorized)
      else if !m.bindingOk then Some(Unauthorized)
      else if t.owner != e.config.runtimeId || t.localOwner != e.config.runtimeId then Some(Unauthorized)
      else if !InTime(e, t, m) then Some(Malformed)
      else if m.outcome == Completed && !m.contentOk then Some(InvalidContent)
      else None
  }

  /** Where the reply finds the task. */
  ghost function StateAt(e: Engine, id: Name, now: int): TaskState
    requires id in e.store.tasks
  {
    if RanOut(e.store.tasks[id], Tick(now)) then Expired else e.store.tasks[id].state
  }

  /** The answer to a reply. */
  ghost function ReplyAnswer(e: Engine, m: ReplyMessage, now: int): Response
    requires TurnedAway(e, m).None? ==> m.requestId in e.store.tasks
  {
    if TurnedAway(e, m).Some? then Failure(TurnedAway(e, m).value)
    else if OnRecord(e, m.envelope, now) then RecordedAnswer(RecordOf(e, m.envelope), m.envelope)
    else
      match StateAt(e, m.requestId, now)
      case Completed => Failure(NotCancelableError)
      case Failed => Failure(NotCancelableError)
      case Rejected => Failure(NotCancelableError)
      case Expired => Failure(NotCancelableError)
      case Cancelled => Failure(CancelledError)
      case Cancelling =>
        if m.outcome == Rejected then Failure(NotCancelableError) else Success(ReplyDelivered(m.requestId, m.outcome))
      case _ => Success(ReplyDelivered(m.requestId, m.outcome))
  }

  /** The task looked at, with the expiry that was due. */
  ghost function LookedAt(e: Engine, id: Name, now: int): Engine {
    e.(store := Read(e.store, id, Tick(now)).0)
  }

  lemma RefusalIsTurnedAway(e: Engine, m: ReplyMessage, now: int)
    ensures var f := LookedAt(e, m.requestId, now);
            ReplyRefusal(f, m, Read(e.store, m.requestId, Tick(now)).1) == TurnedAway(e, m)
    ensures TurnedAway(e, m).None? ==> m.requestId in e.store.tasks
  {
    ReadingExpires(e.store, m.requestId, Tick(now));
  }

  /** A reply that is turned away changes nothing but an expiry that was due: not the dedupe store either. */
  lemma TurnedAwayLeavesNoTrace(e: Engine, m: ReplyMessage, now: int)
    requires TurnedAway(e, m).Some?
    ensures ProcessReply(e, m, now) == (LookedAt(e, m.requestId, now), Failure(TurnedAway(e, m).value))
  {
    RefusalIsTurnedAway(e, m, now);
  }

  /** Only an authorized reply has an effect: whatever changes a task beyond its expiry, an outbound record, a
      completion, the dedupe store or what it has committed came from the request's target, in time, for a task of
      this runtime, with content that keeps the contract. */
  lemma OnlyTheTargetReplies(e: Engine, m: ReplyMessage, now: int)
    requires var (o, response) := ProcessReply(e, m, now);
             || o.store != Read(e.store, m.requestId, Tick(now)).0 || o.outbound != e.outbound
             || o.completed != e.completed || o.dedupe != e.dedupe || response.Success?
    ensures m.requestId in e.store.tasks
    ensures var t := e.store.tasks[m.requestId];
            && t.ownership == Outbound
            && (t.target == Some(m.envelope.sender)
                || (t.target == None && m.requestId in e.outbound
                    && e.outbound[m.requestId].target == m.envelope.sender))
            && m.bindingOk
            && t.owner == e.config.runtimeId && t.localOwner == e.config.runtimeId
            && (m.requestId in e.outbound ==> m.envelope.expiresAt <= e.outbound[m.requestId].expiresAt)
            && (m.requestId !in e.outbound ==> m.envelope.expiresAt <= t.expiresAt)
            && (m.outcome == Completed ==> m.contentOk)
  {
    if TurnedAway(e, m).Some? {
      TurnedAwayLeavesNoTrace(e, m, now);
    }
  }

  /** From every open state the walk reaches the outcome, except that what is being cancelled is not rejected. */
  lemma WalkTable(s: StoreState, m: ReplyMessage, now: int)
    requires m.requestId in s.tasks && s.tasks[m.requestId].deadline > now && IsTerminal(m.outcome)
    requires s.tasks[m.requestId].state in {Created, Accepted, Queued, Working, Cancelling}
    ensures var (o, t) := ApplyReply(s, m, now);
            if s.tasks[m.requestId].state == Cancelling && m.outcome == Rejected then o == s && t == None
            else m.requestId in o.tasks && t == Some(o.tasks[m.requestId]) && Concluded(t.value, m, s.retainResponse)
  {
    if s.tasks[m.requestId].state == Working {
      EndsFromWorking(s, m, now);
    } else if s.tasks[m.requestId].state == Cancelling {
      WalkFromCancelling(s, m, now);
    } else {
      ConcludesFromOpen(s, m, now);
    }
  }

  lemma WalkFromCancelling(s: StoreState, m: ReplyMessage, now: int)
    requires m.requestId in s.tasks && s.tasks[m.requestId].deadline > now && IsTerminal(m.outcome)
    requires s.tasks[m.requestId].state == Cancelling
    ensures var (o, t) := ApplyReply(s, m, now);
            if m.outcome == Rejected then o == s && t == None
            else m.requestId in o.tasks && t == Some(o.tasks[m.requestId]) && Concluded(t.value, m, s.retainResponse)
  {
    var id, c := m.requestId, Tick(now);
    match m.outcome
    case Completed => MoveTable(s, id, None, Completed, NO_UPDATE.(content := m.content), c);
    case Failed => MoveTable(s, id, None, Failed, NO_UPDATE.(error := m.error), c);
    case Rejected => MoveTable(s, id, None, Rejected, NO_UPDATE.(error := m.error), c);
    case Cancelled =>
      var error := if m.error.Some? then m.error else Some(CancelledError);
      MoveTable(s, id, None, Cancelled, NO_UPDATE.(cancellationRequested := true, error := error), c);
    case Expired => MoveTable(s, id, None, Expired, EXPIRY, c);
  }

  lemma AcceptedAnswer(f: Engine, m: ReplyMessage, now: int)
    requires m.requestId in f.store.tasks && IsTerminal(m.outcome)
    requires IsTerminal(f.store.tasks[m.requestId].state) || f.store.tasks[m.requestId].deadline > now
    requires !OnRecord(f, m.envelope, now) && m.envelope.operation == MessageReply
    ensures var (o, response) := AcceptReply(f, f.store.tasks[m.requestId], m, ApplyReply(f.store, m, now), now);
            match f.store.tasks[m.requestId].state
            case Completed => response == Failure(NotCancelableError)
            case Failed => response == Failure(NotCancelableError)
            case Rejected => response == Failure(NotCancelableError)
            case Expired => response == Failure(NotCancelableError)
            case Cancelled => response == Failure(CancelledError)
            case Cancelling =>
              response == if m.outcome == Rejected then Failure(NotCancelableError)
                          else Success(ReplyDelivered(m.requestId, m.outcome))
            case _ => response == Success(ReplyDelivered(m.requestId, m.outcome))
  {
    var t := f.store.tasks[m.requestId];
    DueRanOut(t, Tick(now));
    if !IsTerminal(t.state) {
      WalkTable(f.store, m, now);
    }
  }

  /** Every reply gets the answer that the state before it names. */
  lemma ReplyIsAnswered(e: Engine, m: ReplyMessage, now: int)
    requires m.envelope.operation == MessageReply && IsTerminal(m.outcome)
    ensures TurnedAway(e, m).None? ==> m.requestId in e.store.tasks
    ensures ProcessReply(e, m, now).1 == ReplyAnswer(e, m, now)
  {
    RefusalIsTurnedAway(e, m, now);
    if TurnedAway(e, m).None? {
      var f := LookedAt(e, m.requestId, now);
      ReadingExpires(e.store, m.requestId, Tick(now));
      if !OnRecord(e, m.envelope, now) {
        DueRanOut(e.store.tasks[m.requestId], Tick(now));
        AcceptedAnswer(f, m, now);
      }
    }
  }

  /* ---------- cancellations ---------- */

  /** The answer to a peer's cancellation, given the state in which it left the router. */
  ghost predicate CancelAnswered(e: Engine, c: Envelope, id: Name, now: int, o: Engine, response: Response) {
    if !e.config.supportsCancellation then response == Failure(IncompatibleOperation) && o == e
    else if OnRecord(e, c, now) then
      response == RecordedAnswer(RecordOf(e, c), c) && o == e.(dedupe := D.Prune(e.dedupe, now))
    else if id !in e.store.tasks then response == Failure(Unauthorized)
    else if c.sender != e.store.tasks[id].owner && Some(c.sender) != e.store.localRuntime then
      response == Failure(Unauthorized) && o.store == Read(e.store, id, Tick(now)).0
    else
      && id in o.store.tasks
      && match StateAt(e, id, now)
         case Accepted => response == Success(SnapshotResult(o.store.tasks[id])) && o.store.tasks[id].state == Cancelled
         case Queued => response == Success(SnapshotResult(o.store.tasks[id])) && o.store.tasks[id].state == Cancelled
         case Working => response == Success(SnapshotResult(o.store.tasks[id])) && o.store.tasks[id].state == Cancelling
         case Cancelling =>
           response == Success(SnapshotResult(o.store.tasks[id])) && o.store.tasks[id].state == Cancelled
         case Cancelled =>
           response == Success(SnapshotResult(o.store.tasks[id])) && o.store.tasks[id] == e.store.tasks[id]
         case _ => response == Failure(NotCancelableError) && o.store == Read(e.store, id, Tick(now)).0
  }

  /** A new cancellation: what the store made of it, and then the clean-up of what was cancelled. */
  lemma NewCancelUnfolds(e: Engine, c: Envelope, id: Name, reason: bool, now: int)
    requires e.config.supportsCancellation && !OnRecord(e, c, now) && c.operation == TaskCancel
    ensures var (s, r) := CancelTask(e.store, id, Some(c.sender), None, reason, Tick(now));
            var (o, response) := ProcessCancel(e, c, id, reason, now);
            if r.CancelRefused? then
              && o.store == s
              && response == Failure(match r.reason
                                     case CancelUnauthorized => Unauthorized
                                     case CancelNoSuchTask => NotFoundError
                                     case CancelTooLate => NotCancelableError)
            else
              && response == Success(SnapshotResult(r.task))
              && var f := e.(dedupe := D.Reserve(e.dedupe, c, now).0, store := s);
                 o.store == (if r.task.state == Cancelled then FinishTask(f, id, Some(r.task), now) else f).store
  {
  }

  /** Every peer's cancellation gets the answer that the state before it names, and success carries the task as
      it is stored. */
  lemma CancelIsAnswered(e: Engine, c: Envelope, id: Name, reason: bool, now: int)
    requires c.operation == TaskCancel
    ensures var (o, response) := ProcessCancel(e, c, id, reason, now);
            CancelAnswered(e, c, id, now, o, response)
  {
    if e.config.supportsCancellation && !OnRecord(e, c, now) {
      NewCancelUnfolds(e, c, id, reason, now);
      WhoMayCancel(e.store, id, Some(c.sender), None, reason, Tick(now));
      if id in e.store.tasks {
        if Permitted(e.store, id, Some(c.sender)) {
          CancelTable(e.store, id, Some(c.sender), None, reason, Tick(now));
          CancelledIsStored(e, c, id, reason, now);
        } else {
          RefusedCancelOnlyExpires(e.store, id, Some(c.sender), None, reason, Tick(now));
        }
        ReadingExpires(e.store, id, Tick(now));
      }
    }
  }

  lemma CancelledIsStored(e: Engine, c: Envelope, id: Name, reason: bool, now: int)
    requires id in e.store.tasks && Permitted(e.store, id, Some(c.sender))
    ensures var (s, r) := CancelTask(e.store, id, Some(c.sender), None, reason, Tick(now));
            var f := e.(dedupe := D.Reserve(e.dedupe, c, now).0, store := s);
            r.CancelOk? && r.task.state == Cancelled ==>
              && id in s.tasks && r.task == s.tasks[id]
              && id in FinishTask(f, id, Some(r.task), now).store.tasks
              && FinishTask(f, id, Some(r.task), now).store.tasks[id] == r.task
  {
    CancelTable(e.store, id, Some(c.sender), None, reason, Tick(now));
    var (s, r) := CancelTask(e.store, id, Some(c.sender), None, reason, Tick(now));
    if r.CancelOk? && r.task.state == Cancelled {
      FinishReplies(e.(dedupe := D.Reserve(e.dedupe, c, now).0, store := s), id, now);
    }
  }

  /** Whoever the task of a recorded request belongs to may cancel it while it is open. */
  lemma SenderCancels(e: Engine, c: Envelope, id: Name, reason: bool, now: int)
    requires c.operation == TaskCancel && e.config.supportsCancellation && !OnRecord(e, c, now)
    requires id in e.inbound && c.sender == e.inbound[id].request.envelope.sender && Belongs(e, id)
    requires id in e.store.tasks && e.store.tasks[id].ownership == Inbound && e.store.tasks[id].deadline > now
    requires e.store.tasks[id].state in {Accepted, Queued, Working, Cancelling}
    ensures var (o, response) := ProcessCancel(e, c, id, reason, now);
            && id in o.store.tasks && response == Success(SnapshotResult(o.store.tasks[id]))
            && o.store.tasks[id].state == (if e.store.tasks[id].state == Working then Cancelling else Cancelled)
  {
    CancelIsAnswered(e, c, id, reason, now);
  }

  /** In every run of a new router that supports cancellation, with any retention: whoever sent a request that is
      known, open and not yet due may cancel it, with a cancellation that is not on record, and is told its new
      state. */
  lemma SendersMayCancel(config: Config, queueCapacity: nat, activeCapacity: nat, retention: Option<nat>, grace: nat,
      now: int, steps: seq<Timed>, e: Engine, c: Envelope, id: Name, reason: bool, later: int)
    requires IsRun(Init(config, queueCapacity, activeCapacity, retention, grace, now), steps, now)
    requires e == Traces.End(Init(config, queueCapacity, activeCapacity, retention, grace, now), steps)
    requires c.operation == TaskCancel && config.supportsCancellation && !OnRecord(e, c, later)
    requires id in e.inbound && c.sender == e.inbound[id].request.envelope.sender
    requires id in e.store.tasks && e.store.tasks[id].ownership == Inbound && e.store.tasks[id].deadline > later
    requires e.store.tasks[id].state in {Accepted, Queued, Working, Cancelling}
    ensures var (o, response) := ProcessCancel(e, c, id, reason, later);
            && id in o.store.tasks && response == Success(SnapshotResult(o.store.tasks[id]))
            && o.store.tasks[id].state == (if e.store.tasks[id].state == Working then Cancelling else Cancelled)
  {
    OwnedInRuns(config, queueCapacity, activeCapacity, retention, grace, now, steps, id);
    SenderCancels(e, c, id, reason, later);
  }

  lemma OwnedInRuns(config: Config, queueCapacity: nat, activeCapacity: nat, retention: Option<nat>, grace: nat,
      now: int, steps: seq<Timed>, id: Name)
    requires IsRun(Init(config, queueCapacity, activeCapacity, retention, grace, now), steps, now)
    ensures var e := Traces.End(Init(config, queueCapacity, activeCapacity, retention, grace, now), steps);
            Belongs(e, id) && e.config == config
  {
    RepliesAnswerRequests(config, queueCapacity, activeCapacity, retention, grace, now, steps);
    RunMoves(Init(config, queueCapacity, activeCapacity, retention, grace, now), steps, now);
  }

  /** Reading a task's status, and its store timer, expire it when it is due, and do nothing else. */
  lemma LookingExpires(e: Engine, id: Name, now: int)
    ensures Step(e, StatusRead(id), now) == LookedAt(e, id, now)
    ensures Enabled(e, StoreTimerFires(id), now) ==> Step(e, StoreTimerFires(id), now) == LookedAt(e, id, now)
  {
    if id in e.store.tasks {
      ReadingExpires(e.store, id, Tick(now));
      StoreTimerIsDue(e, id, now);
    }
  }

  lemma StoreTimerIsDue(e: Engine, id: Name, now: int)
    requires id in e.store.tasks
    ensures IsDue(e.store.tasks[id], now) ==> ExpireTask(e.store, id, Tick(now)).0 == Read(e.store, id, Tick(now)).0
  {
    if IsDue(e.store.tasks[id], now) {
      StoreTimerShape(e.store, id, now);
    }
  }
}
