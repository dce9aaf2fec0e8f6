/** The sender's side: the acknowledgement of a request and its terminal reply may arrive in either order. */
module RouterOutbound {
  import opened TaskStates
  import opened TaskStoreSpec
  import opened TaskStoreLaws
  import opened Messages
  import opened RouterSpec
  import opened RouterRuns
  import opened RouterFrames
  import D = DedupeSpec

  /** What a reply leaves of a task that was still open, whatever state it was open in. */
  ghost predicate Concluded(u: Task, m: ReplyMessage, retainResponse: bool) {
    && u.state == m.outcome
    && u.content == (if retainResponse && m.outcome.Completed? then m.content else None)
    && u.error == if !retainResponse then None
                  else match m.outcome
                       case Completed => None
                       case Cancelled => (if m.error.Some? then m.error else Some(CancelledError))
                       case Expired => Some(ExpiredError)
                       case _ => m.error
  }

  ghost predicate OpenUntil(s: StoreState, id: Name, now: int) {
    id in s.tasks && s.tasks[id].state in {Created, Accepted, Queued} && s.tasks[id].deadline > now
  }

  lemma EndsFromWorking(b: StoreState, m: ReplyMessage, now: int)
    requires m.requestId in b.tasks && b.tasks[m.requestId].state.Working? && b.tasks[m.requestId].deadline > now
    requires IsTerminal(m.outcome)
    ensures var (o, t) := ReplyEnd(b, m, now);
            && m.requestId in o.tasks && t == Some(o.tasks[m.requestId]) && Concluded(t.value, m, b.retainResponse)
  {
    var id := m.requestId;
    match m.outcome
    case Completed => TransitionShape(b, id, Completed, NO_UPDATE.(content := m.content), now);
    case Failed => TransitionShape(b, id, Failed, NO_UPDATE.(error := m.error), now);
    case Rejected => TransitionShape(b, id, Rejected, NO_UPDATE.(error := m.error), now);
    case Cancelled =>
      var asked := NO_UPDATE.(cancellationRequested := true);
      TransitionShape(b, id, Cancelling, asked, now);
      var d := Commit(b, id, Cancelling, asked, now);
      TransitionShape(d, id, Cancelled, asked.(error := if m.error.Some? then m.error else Some(CancelledError)), now);
    case Expired => TransitionShape(b, id, Expired, EXPIRY, now);
  }

  lemma ConcludesFromOpen(s: StoreState, m: ReplyMessage, now: int)
    requires OpenUntil(s, m.requestId, now) && IsTerminal(m.outcome)
    ensures var (o, t) := ApplyReply(s, m, now);
            && m.requestId in o.tasks && t == Some(o.tasks[m.requestId]) && Concluded(t.value, m, s.retainResponse)
  {
    var id := m.requestId;
    TransitionShape(s, id, Accepted, NO_UPDATE, now);
    var a := if s.tasks[id].state.Created? then Commit(s, id, Accepted, NO_UPDATE, now) else s;
    TransitionShape(a, id, Working, NO_UPDATE, now);
    EndsFromWorking(Commit(a, id, Working, NO_UPDATE, now), m, now);
  }

  /** An acknowledgement moves a created task on, and a terminal one not at all. */
  lemma AckShape(s: StoreState, id: Name, ack: Ack, now: int)
    requires id in s.tasks && (s.tasks[id].state.Created? ==> s.tasks[id].deadline > now)
    requires s.tasks[id].state.Created? || IsTerminal(s.tasks[id].state)
    ensures var o := AckStore(s, id, ack, now);
            if IsTerminal(s.tasks[id].state) then o == s
            else
              && o.retainResponse == s.retainResponse && id in o.tasks
              && o.tasks[id].state == (if ack.AckQueued? then Queued else Accepted)
              && o.tasks[id] == s.tasks[id].(state := o.tasks[id].state, updatedAt := o.tasks[id].updatedAt)
  {
    TransitionShape(s, id, Accepted, NO_UPDATE, now);
    var a := TryTransition(s, id, None, Accepted, NO_UPDATE, Tick(now)).0;
    TransitionShape(a, id, Queued, NO_UPDATE, now);
  }

  /** A sender waiting for both: its task was created, and its completion is open. */
  ghost predicate Awaiting(e: Engine, m: ReplyMessage) {
    var id := m.requestId;
    && id in e.store.tasks && e.store.tasks[id].state.Created?
    && id in e.pending && id in e.outbound && e.outbound[id].terminal.None?
    && ReplyRefusal(e, m, Some(e.store.tasks[id])).None?
    && IsTerminal(m.outcome)
  }

  /** A reply that finds its task open is delivered, stored, and resolves the completion. */
  lemma ReplyDelivers(e: Engine, m: ReplyMessage, now: int)
    requires OpenUntil(e.store, m.requestId, now) && IsTerminal(m.outcome)
    requires ReplyRefusal(e, m, Some(e.store.tasks[m.requestId])).None?
    requires D.Reserve(e.dedupe, m.envelope, now).1.Reserved?
    requires m.requestId in e.outbound && e.outbound[m.requestId].terminal.None?
    ensures var (o, response) := ProcessReply(e, m, now);
            && response == Success(ReplyDelivered(m.requestId, m.outcome))
            && m.requestId in o.store.tasks && Concluded(o.store.tasks[m.requestId], m, e.store.retainResponse)
            && o.completed == e.completed + [m.requestId] && o.pending == e.pending
            && o.outbound
               == e.outbound[m.requestId := e.outbound[m.requestId].(terminal := Some(o.store.tasks[m.requestId]))]
  {
    ConcludesFromOpen(e.store, m, now);
    assert ExpireIfDue(e.store, m.requestId, Tick(now)) == e.store;
  }

  /** The state of an open task on its way to the outcome: accepted if need be, then working. */
  ghost function OnTheWay(s: StoreState, id: Name, now: int): StoreState
    requires id in s.tasks
  {
    var a := if s.tasks[id].state.Created? then TryTransition(s, id, None, Accepted, NO_UPDATE, Tick(now)).0 else s;
    if id in a.tasks && a.tasks[id].state in {Accepted, Queued}
        then TryTransition(a, id, None, Working, NO_UPDATE, Tick(now)).0 else a
  }

  lemma StaysOpen(s: StoreState, id: Name, now: int)
    requires id in s.tasks && !IsTerminal(s.tasks[id].state) && s.tasks[id].deadline > now
    ensures var b := OnTheWay(s, id, now);
            id in b.tasks && !IsTerminal(b.tasks[id].state) && b.tasks[id].deadline > now
  {
    TransitionShape(s, id, Accepted, NO_UPDATE, now);
    var a := if s.tasks[id].state.Created? then Commit(s, id, Accepted, NO_UPDATE, now) else s;
    TransitionShape(a, id, Working, NO_UPDATE, now);
  }

  /** The last part of the walk either fails or ends in the outcome. */
  lemma EndsInOutcome(b: StoreState, m: ReplyMessage, now: int)
    requires m.requestId in b.tasks && !IsTerminal(b.tasks[m.requestId].state) && b.tasks[m.requestId].deadline > now
    requires IsTerminal(m.outcome)
    ensures var (o, t) := ReplyEnd(b, m, now);
            t.Some? ==> m.requestId in o.tasks && t.value == o.tasks[m.requestId] && t.value.state == m.outcome
  {
    var id := m.requestId;
    match m.outcome
    case Completed => TransitionShape(b, id, Completed, NO_UPDATE.(content := m.content), now);
    case Failed => TransitionShape(b, id, Failed, NO_UPDATE.(error := m.error), now);
    case Rejected => TransitionShape(b, id, Rejected, NO_UPDATE.(error := m.error), now);
    case Cancelled =>
      var asked := NO_UPDATE.(cancellationRequested := true);
      TransitionShape(b, id, Cancelling, asked, now);
      var d := if b.tasks[id].state.Working? then Commit(b, id, Cancelling, asked, now) else b;
      TransitionShape(d, id, Cancelled, asked.(error := if m.error.Some? then m.error else Some(CancelledError)), now);
    case Expired =>
      TransitionShape(b, id, Expired, EXPIRY, now);
      TerminalIffStuck(b.tasks[id].state);
  }

  /** Whatever state a reply finds its task in: when it is answered with success for the first time, the
      outcome it names is the state that is stored. */
  lemma DeliveredIsStored(e: Engine, m: ReplyMessage, now: int)
    requires IsTerminal(m.outcome) && D.Reserve(e.dedupe, m.envelope, now).1.Reserved?
    requires ProcessReply(e, m, now).1.Success?
    ensures var (o, response) := ProcessReply(e, m, now);
            && response == Success(ReplyDelivered(m.requestId, m.outcome))
            && m.requestId in o.store.tasks && o.store.tasks[m.requestId].state == m.outcome
  {
    var s := ExpireIfDue(e.store, m.requestId, Tick(now));
    if m.requestId in s.tasks && !IsTerminal(s.tasks[m.requestId].state) {
      StaysOpen(s, m.requestId, now);
      EndsInOutcome(OnTheWay(s, m.requestId, now), m, now);
      assert ApplyReply(s, m, now) == ReplyEnd(OnTheWay(s, m.requestId, now), m, now);
    }
  }

  /** How a request ends for its sender once both messages have come: everything but update times is
      fixed by the reply and by what was there before. */
  ghost predicate Ended(e: Engine, m: ReplyMessage, o: Engine) {
    var id := m.requestId;
    && id in o.store.tasks && Concluded(o.store.tasks[id], m, e.store.retainResponse)
    && o.completed == e.completed + [id] && o.pending == e.pending - {id}
    && id in o.outbound && o.outbound[id].admissionResolved && o.outbound[id].terminal == Some(o.store.tasks[id])
  }

  lemma AckThenReply(e: Engine, m: ReplyMessage, ack: Ack, ackAt: int, replyAt: int)
    requires Awaiting(e, m) && !ack.AckError?
    requires e.store.tasks[m.requestId].deadline > ackAt && e.store.tasks[m.requestId].deadline > replyAt
    requires D.Reserve(e.dedupe, m.envelope, replyAt).1.Reserved?
    ensures var (o, response) := ProcessReply(ApplyResponse(e, m.requestId, ack, ackAt), m, replyAt);
            Ended(e, m, o) && response == Success(ReplyDelivered(m.requestId, m.outcome))
  {
    AckShape(e.store, m.requestId, ack, ackAt);
    var acked := ApplyResponse(e, m.requestId, ack, ackAt);
    assert ReplyRefusal(acked, m, Some(acked.store.tasks[m.requestId])).None?;
    ReplyDelivers(acked, m, replyAt);
  }

  lemma ReplyThenAck(e: Engine, m: ReplyMessage, ack: Ack, ackAt: int, replyAt: int)
    requires Awaiting(e, m) && !ack.AckError?
    requires e.store.tasks[m.requestId].deadline > replyAt && D.Reserve(e.dedupe, m.envelope, replyAt).1.Reserved?
    ensures var (replied, response) := ProcessReply(e, m, replyAt);
            && Ended(e, m, ApplyResponse(replied, m.requestId, ack, ackAt))
            && response == Success(ReplyDelivered(m.requestId, m.outcome))
  {
    ReplyDelivers(e, m, replyAt);
    var replied := ProcessReply(e, m, replyAt).0;
    AckShape(replied.store, m.requestId, ack, ackAt);
  }

  /** Before the deadline the acknowledgement and an authorized reply commute: either way the task ends
      in the reply's outcome with the reply's content and error, the reply is answered with the state
      that is stored, and the completion is resolved once, with that task. */
  lemma AckAndReplyCommute(e: Engine, m: ReplyMessage, ack: Ack, ackAt: int, replyAt: int)
    requires Awaiting(e, m) && !ack.AckError?
    requires e.store.tasks[m.requestId].deadline > ackAt && e.store.tasks[m.requestId].deadline > replyAt
    requires D.Reserve(e.dedupe, m.envelope, replyAt).1.Reserved?
    ensures var id := m.requestId;
            var (ackFirst, r1) := ProcessReply(ApplyResponse(e, id, ack, ackAt), m, replyAt);
            var (replied, r2) := ProcessReply(e, m, replyAt);
            var replyFirst := ApplyResponse(replied, id, ack, ackAt);
            && Ended(e, m, ackFirst) && Ended(e, m, replyFirst)
            && SameOutcome(ackFirst.store.tasks[id], replyFirst.store.tasks[id])
            && r1 == r2 == Success(ReplyDelivered(id, ackFirst.store.tasks[id].state))
  {
    AckThenReply(e, m, ack, ackAt, replyAt);
    ReplyThenAck(e, m, ack, ackAt, replyAt);
  }

  /** Same state, same content, same error. */
  predicate SameOutcome(a: Task, b: Task) {
    a.state == b.state && a.content == b.content && a.error == b.error
  }

  /* ---------- sending a request, and its acknowledgement ---------- */

  /** A request that is sent gets a task of this runtime for its target and an open completion, and waits for an
      acknowledgement while there is room for one; without room for a record, or with an id that is taken or a
      deadline that is no later than its creation, nothing is sent. */
  lemma SendingTable(e: Engine, id: Name, target: Name, createdAt: int, expiresAt: int, now: int)
    ensures var o := SendRequest(e, id, target, createdAt, expiresAt, now);
            if |e.outbound| >= 4096 || id in e.store.tasks || expiresAt <= createdAt then o == e
            else
              && o == e.(store := o.store, outbound := o.outbound, pending := o.pending)
              && o.outbound == e.outbound[id := OutboundRecord(target, expiresAt, false, None)]
              && o.pending == (if |e.pending| >= 4096 then e.pending else e.pending + {id})
              && (forall k | k in e.store.tasks :: k in o.store.tasks && o.store.tasks[k] == e.store.tasks[k])
              && id in o.store.tasks
              && var t := o.store.tasks[id];
                 && t.ownership == Outbound && t.owner == e.config.runtimeId && t.localOwner == e.config.runtimeId
                 && t.target == Some(target) && t.createdAt == createdAt && t.expiresAt == expiresAt
                 && t.state == (if expiresAt <= now then Expired else Created)
  {
    var me := e.config.runtimeId;
    var i := Creation(id, me, me, Some(target), Outbound, Created, createdAt, expiresAt, false, None, None, None);
    CreationTable(e.store, i, now);
  }

  /** An acknowledgement counts once, and moves a task that waits for it to what the peer says; an error or an
      unknown completion only takes it off the list. */
  lemma AcknowledgementTable(e: Engine, id: Name, ack: Ack, now: int)
    requires id in e.store.tasks && e.store.tasks[id].state == Created && e.store.tasks[id].deadline > now
    ensures var o := ApplyResponse(e, id, ack, now);
            if id !in e.pending then o == e
            else if ack == AckError || id !in e.outbound then o == e.(pending := e.pending - {id})
            else
              && o == e.(pending := e.pending - {id}, store := o.store, outbound := o.outbound)
              && o.outbound == e.outbound[id := e.outbound[id].(admissionResolved := true)]
              && id in o.store.tasks && o.store.tasks[id].state == (if ack == AckQueued then Queued else Accepted)
  {
    AckShape(e.store, id, ack, now);
  }

  /** Whatever ends a request of this side resolves its completion, once, with the task as it is stored. */
  lemma FinishResolves(e: Engine, id: Name, now: int)
    requires id in e.store.tasks && IsTerminal(e.store.tasks[id].state)
    ensures var o := FinishTask(e, id, Some(e.store.tasks[id]), now);
            if id in e.outbound && e.outbound[id].terminal.None? then
              && o.completed == e.completed + [id]
              && o.outbound == e.outbound[id := e.outbound[id].(terminal := Some(e.store.tasks[id]))]
            else o.completed == e.completed && o.outbound == e.outbound
  {
    VacateFrame(e, id, now);
  }
}
