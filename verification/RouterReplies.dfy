/** What the terminal replies of the router say, and to whom, with any retention of terminal tasks. */
module RouterReplies {
  import opened TaskStates
  import opened TaskStoreSpec
  import opened TaskStoreLaws
  import opened Messages
  import opened RouterSpec
  import opened RouterInv
  import opened RouterRuns
  import opened RouterSteps
  import opened RouterFrames
  import opened RouterGuarantees
  import P = PolicySpec
  import R = PolicyRuns
  import D = DedupeSpec
  import Traces

  /* ---------- what a step does with replies, records and owners ---------- */

  /** One reply, in time, to the sender of a request that was recorded and not answered; it tells what is stored. */
  ghost predicate Sends(e: Engine, o: Engine, r: Reply, now: int) {
    && o.replies == e.replies + [r]
    && r.requestId in e.inbound && !e.inbound[r.requestId].terminalSent
    && r.recipient == e.inbound[r.requestId].request.envelope.sender
    && e.inbound[r.requestId].request.envelope.expiresAt > now
    && r.requestId in o.store.tasks && Tells(r, o.store.tasks[r.requestId])
  }

  /** The inbound records that are left are records of the same requests. */
  ghost predicate SameRequests(e: Engine, o: Engine) {
    forall id {:trigger SameRecord(e.inbound, o.inbound, id)} :: SameRecord(e.inbound, o.inbound, id)
  }

  ghost predicate SameRecord(inbound: Inbounds, inbound': Inbounds, id: Name) {
    id in inbound' ==> id in inbound && inbound'[id].request == inbound[id].request
  }

  /** What every step does but one that records a request or sends one. */
  ghost predicate Serves(e: Engine, o: Engine, now: int) {
    && Descends(e.store, o.store) && SameRequests(e, o)
    && (o.replies == e.replies || exists r :: Sends(e, o, r, now))
  }

  ghost predicate Untouched(e: Engine, f: Engine) {
    f.inbound == e.inbound && f.replies == e.replies
  }

  lemma SilentServes(e: Engine, f: Engine, now: int)
    requires Untouched(e, f) && Descends(e.store, f.store)
    ensures Serves(e, f, now)
  {
    forall id ensures SameRecord(e.inbound, f.inbound, id) {
    }
  }

  lemma SilentThenServes(e: Engine, f: Engine, o: Engine, now: int)
    requires Untouched(e, f) && Descends(e.store, f.store) && Serves(f, o, now)
    ensures Serves(e, o, now)
  {
    DescendsTwice(e.store, f.store, o.store);
    forall id ensures SameRecord(e.inbound, o.inbound, id) {
      assert SameRecord(f.inbound, o.inbound, id);
    }
    if r :| Sends(f, o, r, now) {
      assert Sends(e, o, r, now);
    }
  }

  lemma SameServes(e: Engine, o: Engine, p: Engine, now: int)
    requires Serves(e, o, now) && p.store == o.store && p.inbound == o.inbound && p.replies == o.replies
    ensures Serves(e, p, now)
  {
    forall id ensures SameRecord(e.inbound, p.inbound, id) {
      assert SameRecord(e.inbound, o.inbound, id);
    }
    if r :| Sends(e, o, r, now) {
      assert Sends(e, p, r, now);
    }
  }

  /* ---------- the task store ---------- */

  lemma SameDescends(s: StoreState)
    ensures Descends(s, s)
  {
    forall id ensures Inherits(s.tasks, s.tasks, id) {
    }
  }

  lemma CommitDescends(s: StoreState, id: Name, next: TaskState, u: Update, now: int)
    requires id in s.tasks
    ensures Descends(s, Commit(s, id, next, u, now))
  {
    forall k ensures Inherits(s.tasks, Commit(s, id, next, u, now).tasks, k) {
    }
  }

  lemma ReadDescends(s: StoreState, id: Name, now: int)
    ensures Descends(s, ExpireIfDue(s, id, Tick(now)))
  {
    SameDescends(s);
    if id in s.tasks {
      CommitDescends(s, id, Expired, EXPIRY, now);
    }
  }

  lemma TransitionDescends(s: StoreState, id: Name, next: TaskState, u: Update, now: int)
    ensures Descends(s, TryTransition(s, id, None, next, u, Tick(now)).0)
  {
    SameDescends(s);
    if id in s.tasks {
      var e := if next.Expired? then s else ExpireIfDue(s, id, Tick(now));
      ReadDescends(s, id, now);
      TransitionShape(s, id, next, u, now);
      CommitDescends(e, id, next, u, now);
      DescendsTwice(s, e, Commit(e, id, next, u, now));
    }
  }

  lemma CancelDescends(s: StoreState, id: Name, caller: Option<Name>, reason: bool, now: int)
    ensures Descends(s, CancelTask(s, id, caller, None, reason, Tick(now)).0)
  {
    SameDescends(s);
    if id in s.tasks {
      CancelTaskShape(s, id, caller, reason, now);
      var e := ExpireIfDue(s, id, Tick(now));
      ReadDescends(s, id, now);
      var (o, r) := CancelTask(s, id, caller, None, reason, Tick(now));
      if next, u :| CancelMove(e, id, next, u, now, o, r) {
        CommitDescends(e, id, next, u, now);
        DescendsTwice(s, e, o);
      }
    }
  }

  lemma DropDescends(s: StoreState, id: Name)
    ensures Descends(s, PurgeTask(s, id).0)
  {
    forall k ensures Inherits(s.tasks, PurgeTask(s, id).0.tasks, k) {
    }
  }

  lemma ReplyEndDescends(b: StoreState, m: ReplyMessage, now: int)
    ensures Descends(b, ReplyEnd(b, m, now).0)
  {
    var id := m.requestId;
    match m.outcome
    case Completed => TransitionDescends(b, id, Completed, NO_UPDATE.(content := m.content), now);
    case Failed => TransitionDescends(b, id, Failed, NO_UPDATE.(error := m.error), now);
    case Rejected => TransitionDescends(b, id, Rejected, NO_UPDATE.(error := m.error), now);
    case Cancelled =>
      var asked := NO_UPDATE.(cancellationRequested := true);
      var error := if m.error.Some? then m.error else Some(CancelledError);
      var d := if id in b.tasks && b.tasks[id].state.Working?
               then TryTransition(b, id, None, Cancelling, asked, Tick(now)).0 else b;
      SameDescends(b);
      TransitionDescends(b, id, Cancelling, asked, now);
      TransitionDescends(d, id, Cancelled, asked.(error := error), now);
      DescendsTwice(b, d, ReplyEnd(b, m, now).0);
    case _ => TransitionDescends(b, id, Expired, EXPIRY, now);
  }

  lemma ApplyReplyDescends(s: StoreState, m: ReplyMessage, now: int)
    ensures Descends(s, ApplyReply(s, m, now).0)
  {
    var id := m.requestId;
    var a := if id in s.tasks && s.tasks[id].state.Created?
             then TryTransition(s, id, None, Accepted, NO_UPDATE, Tick(now)).0 else s;
    var b := if id in a.tasks && a.tasks[id].state in {Accepted, Queued}
             then TryTransition(a, id, None, Working, NO_UPDATE, Tick(now)).0 else a;
    SameDescends(s);
    SameDescends(a);
    TransitionDescends(s, id, Accepted, NO_UPDATE, now);
    TransitionDescends(a, id, Working, NO_UPDATE, now);
    ReplyEndDescends(b, m, now);
    DescendsTwice(s, a, b);
    DescendsTwice(s, b, ApplyReply(s, m, now).0);
  }

  /* ---------- finishing ---------- */

  /** What finishing a terminal task does with its reply: it goes out in time, or the record is forgotten. */
  lemma FinishReplies(f: Engine, id: Name, now: int)
    requires id in f.store.tasks && IsTerminal(f.store.tasks[id].state)
    ensures var o := FinishTask(f, id, Some(f.store.tasks[id]), now);
            && Descends(f.store, o.store) && id in o.store.tasks && o.store.tasks[id] == f.store.tasks[id]
            && id !in o.timers
            && if id !in f.inbound || f.inbound[id].terminalSent then Untouched(f, o)
               else if f.inbound[id].request.envelope.expiresAt <= now then
                 o.replies == f.replies && o.inbound == f.inbound - {id}
               else
                 && o.inbound == f.inbound[id := f.inbound[id].(terminalSent := true)]
                 && exists r :: Sends(f, o, r, now) && r.requestId == id
  {
    var t := f.store.tasks[id];
    var v := Vacate(f, id, now);
    VacateFrame(f, id, now);
    assert KeptTask(f.store.tasks, v.store.tasks, id);
    if id in f.inbound && !f.inbound[id].terminalSent && f.inbound[id].request.envelope.expiresAt > now {
      var r := TerminalReply(id, f.inbound[id].request.envelope.sender, t);
      TerminalReplyTells(id, f.inbound[id].request.envelope.sender, t);
      assert Sends(f, FinishTask(f, id, Some(t), now), r, now);
    }
  }

  lemma FinishServes(f: Engine, id: Name, now: int)
    requires id in f.store.tasks
    ensures Serves(f, FinishTask(f, id, Some(f.store.tasks[id]), now), now)
  {
    var o := FinishTask(f, id, Some(f.store.tasks[id]), now);
    if IsTerminal(f.store.tasks[id].state) {
      FinishReplies(f, id, now);
      forall k ensures SameRecord(f.inbound, o.inbound, k) {
      }
    } else {
      SameDescends(f.store);
      SilentServes(f, f, now);
    }
  }

  /** A change of the store, and the clean-up of a task it found or made terminal. */
  lemma StoreThenFinish(e: Engine, f: Engine, id: Name, now: int)
    requires Untouched(e, f) && Descends(e.store, f.store) && id in f.store.tasks
    ensures Serves(e, f, now) && Serves(e, FinishTask(f, id, Some(f.store.tasks[id]), now), now)
  {
    SilentServes(e, f, now);
    FinishServes(f, id, now);
    SilentThenServes(e, f, FinishTask(f, id, Some(f.store.tasks[id]), now), now);
  }

  lemma SettleServes(e: Engine, id: Name, next: TaskState, u: Update, now: int)
    requires IsTerminal(next)
    ensures Serves(e, Settle(e, id, next, u, now), now)
  {
    SameDescends(e.store);
    SilentServes(e, e, now);
    if id in e.store.tasks {
      var s := if next.Expired? then e.store else ExpireIfDue(e.store, id, Tick(now));
      ReadDescends(e.store, id, now);
      SilentServes(e, e.(store := s), now);
      SettleUnfolds(e, id, next, u, now);
      if CanTransition(s.tasks[id].state, next) {
        CommitDescends(s, id, next, u, now);
        DescendsTwice(e.store, s, Commit(s, id, next, u, now));
        StoreThenFinish(e, e.(store := Commit(s, id, next, u, now)), id, now);
      }
    }
  }

  /* ---------- the steps ---------- */

  lemma ExecutorReturnsServes(e: Engine, id: Name, result: ExecutorResult, now: int)
    ensures Serves(e, ApplyExecutorResult(e, id, result, now), now)
  {
    var f := e.(store := ExpireIfDue(e.store, id, Tick(now)));
    ReadDescends(e.store, id, now);
    SilentServes(e, f, now);
    if id in f.store.tasks {
      StoreThenFinish(e, f, id, now);
      var o := ApplyExecutorResult(e, id, result, now);
      if !IsTerminal(f.store.tasks[id].state) && !result.Nothing? {
        match result
        case Returned(content, valid) =>
          SettleServes(f, id, Completed, NO_UPDATE.(content := Some(content)), now);
          SameDescends(f.store);
          SilentServes(f, f, now);
        case FailedWith(error) => SettleServes(f, id, Failed, NO_UPDATE.(error := Some(error)), now);
        case RejectedWith(error) => SettleServes(f, id, Rejected, NO_UPDATE.(error := Some(error)), now);
        SilentThenServes(e, f, o, now);
      }
    }
  }

  lemma ExecutorThrowsServes(e: Engine, id: Name, now: int)
    ensures Serves(e, HandleExecutorFailure(e, id, now), now)
  {
    var f := e.(store := ExpireIfDue(e.store, id, Tick(now)));
    ReadDescends(e.store, id, now);
    SilentServes(e, f, now);
    ExecutorThrowsUnfolds(e, id, now);
    if id in f.store.tasks {
      StoreThenFinish(e, f, id, now);
      if !IsTerminal(f.store.tasks[id].state) {
        SettleServes(f, id, Cancelled, Update(None, Some(CancelledError), true, None, None), now);
        SettleServes(f, id, Failed, NO_UPDATE.(error := Some(Internal)), now);
        SilentThenServes(e, f, HandleExecutorFailure(e, id, now), now);
      }
    }
  }

  lemma RouterTimerServes(e: Engine, id: Name, now: int)
    ensures Serves(e, RouterTimer(e, id, now), now)
  {
    var f := e.(timers := e.timers - {id}, store := ExpireIfDue(e.store, id, Tick(now)));
    ReadDescends(e.store, id, now);
    SilentServes(e, f, now);
    RouterTimerUnfolds(e, id, now);
    if id in f.store.tasks {
      var s := Commit(f.store, id, Expired, EXPIRY, now);
      CommitDescends(f.store, id, Expired, EXPIRY, now);
      DescendsTwice(e.store, f.store, s);
      StoreThenFinish(e, f.(store := s), id, now);
    }
  }

  lemma CancelServes(e: Engine, id: Name, caller: Option<Name>, reason: bool, now: int)
    ensures var (o, r) := CancelTask(e.store, id, caller, None, reason, Tick(now));
            Serves(e, e.(store := o), now) && Serves(e, AfterCancel(e, id, o, r, now), now)
    ensures Serves(e, CancelLocally(e, id, caller, reason, now), now)
  {
    var (o, r) := CancelTask(e.store, id, caller, None, reason, Tick(now));
    CancelDescends(e.store, id, caller, reason, now);
    SilentServes(e, e.(store := o), now);
    if id in e.store.tasks {
      CancelTaskShape(e.store, id, caller, reason, now);
      StoreThenFinish(e, e.(store := o), id, now);
    }
  }

  lemma ProcessCancelServes(e: Engine, c: Envelope, id: Name, reason: bool, now: int)
    ensures Serves(e, ProcessCancel(e, c, id, reason, now).0, now)
  {
    var f := e.(dedupe := D.Reserve(e.dedupe, c, now).0);
    var o := ProcessCancel(e, c, id, reason, now).0;
    var (s, r) := CancelTask(f.store, id, Some(c.sender), None, reason, Tick(now));
    ProcessCancelFrame(e, c, id, reason, now);
    SameDescends(e.store);
    SilentServes(e, e.(dedupe := o.dedupe), now);
    CancelServes(f, id, Some(c.sender), reason, now);
    SilentThenServes(e, f, f.(store := s), now);
    SameServes(e, f.(store := s), e.(store := s, dedupe := o.dedupe), now);
    SilentThenServes(e, f, AfterCancel(f, id, s, r, now), now);
    SameServes(e, AfterCancel(f, id, s, r, now), AfterCancel(f, id, s, r, now).(dedupe := o.dedupe), now);
  }

  lemma ProcessReplyServes(e: Engine, m: ReplyMessage, now: int)
    ensures Serves(e, ProcessReply(e, m, now).0, now)
  {
    var f := e.(store := ExpireIfDue(e.store, m.requestId, Tick(now)));
    ReadDescends(e.store, m.requestId, now);
    SilentServes(e, f, now);
    ProcessReplyUnfolds(e, m, now);
    if OutboundTask(f, m.requestId) {
      var applied := ApplyReply(f.store, m, now);
      ApplyReplyDescends(f.store, m, now);
      AcceptReplyFrame(f, f.store.tasks[m.requestId], m, applied, now);
      DescendsTwice(e.store, f.store, applied.0);
      SilentServes(e, ProcessReply(e, m, now).0, now);
    }
  }

  lemma AckServes(e: Engine, id: Name, ack: Ack, now: int)
    ensures Serves(e, ApplyResponse(e, id, ack, now), now)
  {
    var a := TryTransition(e.store, id, None, Accepted, NO_UPDATE, Tick(now)).0;
    SameDescends(e.store);
    TransitionDescends(e.store, id, Accepted, NO_UPDATE, now);
    TransitionDescends(a, id, Queued, NO_UPDATE, now);
    DescendsTwice(e.store, a, TryTransition(a, id, None, Queued, NO_UPDATE, Tick(now)).0);
    SilentServes(e, ApplyResponse(e, id, ack, now), now);
  }

  /** The steps of executors and timers. */
  lemma WorkServes(e: Engine, ev: RouterSpec.Event, now: int)
    requires ev.ExecutorReturns? || ev.ExecutorThrows? || ev.RouterTimerFires?
    ensures Serves(e, Step(e, ev, now), now)
  {
    match ev
    case ExecutorReturns(id, result) => ExecutorReturnsServes(e, id, result, now);
    case ExecutorThrows(id) => ExecutorThrowsServes(e, id, now);
    case RouterTimerFires(id) => RouterTimerServes(e, id, now);
  }

  /** The steps of the owner of the router. */
  lemma LocalServes(e: Engine, ev: RouterSpec.Event, now: int)
    requires ev.TaskCompleted? || ev.TaskFailed? || ev.TaskRejected? || ev.TaskCancelled?
    ensures Serves(e, Step(e, ev, now), now)
  {
    match ev
    case TaskCompleted(id, content, valid) =>
      SameDescends(e.store);
      SilentServes(e, e, now);
      SettleServes(e, id, Completed, NO_UPDATE.(content := Some(content)), now);
    case TaskFailed(id, error) => SettleServes(e, id, Failed, NO_UPDATE.(error := Some(error)), now);
    case TaskRejected(id, error) => SettleServes(e, id, Rejected, NO_UPDATE.(error := Some(error)), now);
    case TaskCancelled(id, caller, reason) => CancelServes(e, id, caller, reason, now);
  }

  /** The steps that change the store by one call, or forget a record. */
  lemma SingleServes(e: Engine, ev: RouterSpec.Event, now: int)
    requires ev.NotificationArrives? || ev.NotificationHandled? || ev.StatusRead? || ev.StoreTimerFires?
             || ev.PurgeTimerFires? || ev.ReplySettled?
    ensures Serves(e, Step(e, ev, now), now)
  {
    SameDescends(e.store);
    match ev
    case StatusRead(id) => ReadDescends(e.store, id, now); SilentServes(e, Step(e, ev, now), now);
    case StoreTimerFires(id) =>
      TransitionDescends(e.store, id, Expired, EXPIRY, now);
      SilentServes(e, Step(e, ev, now), now);
    case PurgeTimerFires(id) => DropDescends(e.store, id); SilentServes(e, Step(e, ev, now), now);
    case ReplySettled(id) =>
      forall k ensures SameRecord(e.inbound, (e.inbound - {id}), k) {
      }
    case _ => SilentServes(e, Step(e, ev, now), now);
  }

  lemma StepServes(e: Engine, ev: RouterSpec.Event, now: int)
    requires !ev.RequestArrives? && !ev.RequestSent?
    ensures Serves(e, Step(e, ev, now), now)
  {
    if ev.CancelArrives? {
      ProcessCancelServes(e, ev.envelope, ev.id, ev.reason, now);
    } else if ev.ReplyArrives? {
      ProcessReplyServes(e, ev.reply, now);
    } else if ev.AckArrives? {
      AckServes(e, ev.id, ev.ack, now);
    } else if ev.NotificationArrives? || ev.NotificationHandled? || ev.StatusRead? || ev.StoreTimerFires?
        || ev.PurgeTimerFires? || ev.ReplySettled? {
      SingleServes(e, ev, now);
    } else if ev.ExecutorReturns? || ev.ExecutorThrows? || ev.RouterTimerFires? {
      WorkServes(e, ev, now);
    } else {
      LocalServes(e, ev, now);
    }
  }

  /* ---------- arriving and sent requests ---------- */

  /** The request is new, and now it is recorded with a task that belongs to its sender. */
  ghost predicate Records(e: Engine, o: Engine, r: Request) {
    var id := r.envelope.operationId;
    && o.replies == e.replies && o.inbound == e.inbound[id := InboundRecord(r, false)]
    && o.store.retainResponse == e.store.retainResponse && o.store.localRuntime == e.store.localRuntime
    && id !in e.store.tasks && id in o.store.tasks
    && o.store.tasks[id].ownership == Inbound && o.store.tasks[id].owner == r.envelope.sender
    && o.store.tasks[id].localOwner == e.config.runtimeId && o.store.tasks[id].expiresAt == r.envelope.expiresAt
    && forall k {:trigger Inherits(e.store.tasks, o.store.tasks, k)} ::
         k != id ==> Inherits(e.store.tasks, o.store.tasks, k)
  }

  lemma TakenRecords(f: Engine, r: Request, handle: Name, now: int, o: Engine)
    requires Taken(f, r, handle, now, o) && r.envelope.operationId !in f.store.tasks
    ensures Records(f, o, r)
  {
    var id := r.envelope.operationId;
    var d := Acknowledged(f, r, now);
    var p :| Kept(Prepared(f, now), TicketFor(f, r, handle), p, SlotFree(f))
             && o == Started(Arrived(f, r, handle, p, now).(dedupe := d, timers := f.timers + {id}), f, r, handle, now);
    var g := Arrived(f, r, handle, p, now).(dedupe := d, timers := f.timers + {id});
    DispatchFrame(g, id, P.LeaseOf(TicketFor(f, r, handle)), now);
    SameDescends(g.store);
    assert Descends(g.store, o.store);
    BornStays(f, g, o, r, now, handle);
  }

  lemma BornStays(f: Engine, g: Engine, o: Engine, r: Request, now: int, handle: Name)
    requires r.envelope.operationId !in f.store.tasks && Descends(g.store, o.store)
    requires var i := CreationFor(f.config, r, SlotFree(f));
             g.store == Birth(f.store, r.envelope.operationId,
                              NewRecord(f.store.retainResponse, f.store.nextUid, i, Tick(now)))
    requires r.envelope.operationId in o.store.tasks
    requires o.replies == f.replies && o.inbound == f.inbound[r.envelope.operationId := InboundRecord(r, false)]
    ensures Records(f, o, r)
  {
    var id := r.envelope.operationId;
    assert Inherits(g.store.tasks, o.store.tasks, id);
    forall k | k != id ensures Inherits(f.store.tasks, o.store.tasks, k) {
      assert Inherits(g.store.tasks, o.store.tasks, k);
    }
  }

  lemma RequestServes(e: Engine, r: Request, handle: Name, now: int)
    requires Takes(e, r, handle, now)
    ensures var o := ProcessRequest(e, r, handle, now).0;
            Records(e, o, r) || (Serves(e, o, now) && o.replies == e.replies)
  {
    var id := r.envelope.operationId;
    var o := ProcessRequest(e, r, handle, now).0;
    var f := Tidied(e, id, now).(policy := e.policy);
    RequestOutcomes(e, r, handle, now);
    ReadDescends(e.store, id, now);
    SameDescends(e.store);
    if Taken(f, r, handle, now, o) && id !in f.store.tasks {
      TakenRecords(f, r, handle, now, o);
      forall k | k != id ensures Inherits(e.store.tasks, o.store.tasks, k) {
        assert Inherits(f.store.tasks, o.store.tasks, k) && Inherits(e.store.tasks, f.store.tasks, k);
      }
    } else {
      SilentServes(e, o, now);
    }
  }

  /** Sending a request makes a task of this side and touches no record and no reply. */
  lemma SentServes(e: Engine, id: Name, target: Name, createdAt: int, expiresAt: int, now: int)
    ensures var o := SendRequest(e, id, target, createdAt, expiresAt, now);
            && Untouched(e, o)
            && o.store.retainResponse == e.store.retainResponse && o.store.localRuntime == e.store.localRuntime
            && forall k | k in o.store.tasks && o.store.tasks[k].ownership.Inbound? ::
                 k in e.store.tasks && o.store.tasks[k] == e.store.tasks[k]
  {
    var me := e.config.runtimeId;
    var i := Creation(id, me, me, Some(target), Outbound, Created, createdAt, expiresAt, false, None, None, None);
    SentTask(e.store, i, now);
  }

  lemma SentTask(s: StoreState, i: Creation, now: int)
    requires i.ownership == Outbound
    ensures var o := TaskStoreSpec.CreateTask(s, i, Tick(now), now).0;
            && o.retainResponse == s.retainResponse && o.localRuntime == s.localRuntime
            && forall k | k in o.tasks && o.tasks[k].ownership.Inbound? :: k in s.tasks && o.tasks[k] == s.tasks[k]
  {
    if i.id !in s.tasks {
      var b := Birth(s, i.id, NewRecord(s.retainResponse, s.nextUid, i, Tick(now)));
      assert b.tasks[i.id].ownership == Outbound;
      assert ExpireIfDue(b, i.id, Tick(now)).tasks[i.id].ownership == Outbound;
    }
  }

  /* ---------- whole runs ---------- */

  function Before(start: Engine, steps: seq<Timed>, i: nat): Engine
    requires i < |steps|
  {
    if i == 0 then start else steps[i - 1].after
  }

  /** At this step a request of this sender came under an id that had no task, and was given one. */
  ghost predicate TakenAt(start: Engine, steps: seq<Timed>, i: nat, id: Name, sender: Name) {
    && i < |steps| && steps[i].event.RequestArrives?
    && steps[i].event.request.envelope.operationId == id && steps[i].event.request.envelope.sender == sender
    && id !in Before(start, steps, i).store.tasks && id in steps[i].after.store.tasks
  }

  ghost predicate WasTaken(start: Engine, steps: seq<Timed>, id: Name, sender: Name) {
    exists i :: TakenAt(start, steps, i, id, sender)
  }

  /** At this step the reply went out, saying what the store then holds. */
  ghost predicate SentAt(start: Engine, steps: seq<Timed>, i: nat, r: Reply) {
    && i < |steps| && steps[i].after.replies == Before(start, steps, i).replies + [r]
    && r.requestId in steps[i].after.store.tasks && Tells(r, steps[i].after.store.tasks[r.requestId])
  }

  /** The reply answers a request taken earlier in the run, and goes to its sender. */
  ghost predicate Answers(start: Engine, steps: seq<Timed>, r: Reply) {
    exists i, j :: i < j && TakenAt(start, steps, i, r.requestId, r.recipient) && SentAt(start, steps, j, r)
  }

  lemma TakenStays(start: Engine, steps: seq<Timed>, more: seq<Timed>, id: Name, sender: Name)
    requires WasTaken(start, steps, id, sender)
    ensures WasTaken(start, steps + more, id, sender)
  {
    var i :| TakenAt(start, steps, i, id, sender);
    assert TakenAt(start, steps + more, i, id, sender);
  }

  lemma AnswersStays(start: Engine, steps: seq<Timed>, more: seq<Timed>, r: Reply)
    requires Answers(start, steps, r)
    ensures Answers(start, steps + more, r)
  {
    var i, j :| i < j && TakenAt(start, steps, i, r.requestId, r.recipient) && SentAt(start, steps, j, r);
    assert TakenAt(start, steps + more, i, r.requestId, r.recipient) && SentAt(start, steps + more, j, r);
  }

  /** The task of a recorded request belongs to the request's sender. */
  ghost predicate Belongs(o: Engine, id: Name) {
    id in o.inbound && id in o.store.tasks && o.store.tasks[id].ownership.Inbound? ==>
      o.store.tasks[id].owner == o.inbound[id].request.envelope.sender
  }

  /** Every record is of a request that was taken, every inbound task belongs to the sender of one, and every
      reply answers one. */
  ghost predicate Accounted(start: Engine, steps: seq<Timed>, o: Engine) {
    && (forall id | id in o.inbound :: WasTaken(start, steps, id, o.inbound[id].request.envelope.sender))
    && (forall id | id in o.store.tasks && o.store.tasks[id].ownership.Inbound? ::
          WasTaken(start, steps, id, o.store.tasks[id].owner))
    && (forall r | r in o.replies :: Answers(start, steps, r))
    && (forall id {:trigger Belongs(o, id)} :: Belongs(o, id))
    && o.store.retainResponse == start.store.retainResponse && o.store.localRuntime == start.store.localRuntime
  }

  lemma ServesAccounts(start: Engine, before: seq<Timed>, t: Timed)
    requires var e := Traces.End(start, before); Accounted(start, before, e) && Serves(e, t.after, t.now)
    ensures Accounted(start, before + [t], t.after)
  {
    var e, o, steps := Traces.End(start, before), t.after, before + [t];
    forall id | id in o.inbound ensures WasTaken(start, steps, id, o.inbound[id].request.envelope.sender) {
      assert SameRecord(e.inbound, o.inbound, id);
      TakenStays(start, before, [t], id, o.inbound[id].request.envelope.sender);
    }
    forall id | id in o.store.tasks && o.store.tasks[id].ownership.Inbound?
      ensures WasTaken(start, steps, id, o.store.tasks[id].owner)
    {
      assert Inherits(e.store.tasks, o.store.tasks, id);
      TakenStays(start, before, [t], id, o.store.tasks[id].owner);
    }
    forall id ensures Belongs(o, id) {
      assert Belongs(e, id) && SameRecord(e.inbound, o.inbound, id) && Inherits(e.store.tasks, o.store.tasks, id);
    }
    forall r | r in o.replies ensures Answers(start, steps, r) {
      if r in e.replies {
        AnswersStays(start, before, [t], r);
      } else {
        assert Sends(e, o, r, t.now);
        assert SentAt(start, steps, |before|, r);
        var i :| TakenAt(start, before, i, r.requestId, r.recipient);
        assert TakenAt(start, steps, i, r.requestId, r.recipient);
      }
    }
  }

  lemma RecordsAccounts(start: Engine, before: seq<Timed>, t: Timed)
    requires var e := Traces.End(start, before);
             Accounted(start, before, e) && t.event.RequestArrives? && Records(e, t.after, t.event.request)
    ensures Accounted(start, before + [t], t.after)
  {
    var e, o, steps := Traces.End(start, before), t.after, before + [t];
    var v := t.event.request.envelope;
    assert TakenAt(start, steps, |before|, v.operationId, v.sender);
    forall id | id in o.inbound ensures WasTaken(start, steps, id, o.inbound[id].request.envelope.sender) {
      if id != v.operationId {
        TakenStays(start, before, [t], id, o.inbound[id].request.envelope.sender);
      }
    }
    forall id | id in o.store.tasks && o.store.tasks[id].ownership.Inbound?
      ensures WasTaken(start, steps, id, o.store.tasks[id].owner)
    {
      if id != v.operationId {
        assert Inherits(e.store.tasks, o.store.tasks, id);
        TakenStays(start, before, [t], id, o.store.tasks[id].owner);
      }
    }
    forall id ensures Belongs(o, id) {
      assert Belongs(e, id);
      if id != v.operationId {
        assert Inherits(e.store.tasks, o.store.tasks, id);
      }
    }
    forall r | r in o.replies ensures Answers(start, steps, r) {
      AnswersStays(start, before, [t], r);
    }
  }

  lemma SentAccounts(start: Engine, before: seq<Timed>, t: Timed)
    requires var e := Traces.End(start, before);
             && Accounted(start, before, e) && Untouched(e, t.after)
             && t.after.store.retainResponse == e.store.retainResponse
             && t.after.store.localRuntime == e.store.localRuntime
             && forall k | k in t.after.store.tasks && t.after.store.tasks[k].ownership.Inbound? ::
                  k in e.store.tasks && t.after.store.tasks[k] == e.store.tasks[k]
    ensures Accounted(start, before + [t], t.after)
  {
    var e, o, steps := Traces.End(start, before), t.after, before + [t];
    forall id | id in o.inbound ensures WasTaken(start, steps, id, o.inbound[id].request.envelope.sender) {
      TakenStays(start, before, [t], id, o.inbound[id].request.envelope.sender);
    }
    forall id | id in o.store.tasks && o.store.tasks[id].ownership.Inbound?
      ensures WasTaken(start, steps, id, o.store.tasks[id].owner)
    {
      TakenStays(start, before, [t], id, o.store.tasks[id].owner);
    }
    forall id ensures Belongs(o, id) {
      assert Belongs(e, id);
    }
    forall r | r in o.replies ensures Answers(start, steps, r) {
      AnswersStays(start, before, [t], r);
    }
  }

  lemma StepAccounts(start: Engine, before: seq<Timed>, t: Timed, at: int)
    requires var e := Traces.End(start, before);
             && Accounted(start, before, e) && Traces.Holds(Follows, e, at, t)
             && R.Inv(e.policy) && e.policy.lastNow <= at
    ensures Accounted(start, before + [t], t.after)
  {
    var e := Traces.End(start, before);
    assert Follows(e, at, t);
    match t.event
    case RequestArrives(r, handle) =>
      RequestServes(e, r, handle, t.now);
      if Records(e, t.after, r) {
        RecordsAccounts(start, before, t);
      } else {
        ServesAccounts(start, before, t);
      }
    case RequestSent(id, target, createdAt, expiresAt) =>
      SentServes(e, id, target, createdAt, expiresAt, t.now);
      SentAccounts(start, before, t);
    case _ =>
      StepServes(e, t.event, t.now);
      ServesAccounts(start, before, t);
  }

  lemma RunAccounts(start: Engine, steps: seq<Timed>, now: int)
    requires IsInitial(start, now) && IsRun(start, steps, now)
    ensures Accounted(start, steps, Traces.End(start, steps))
  {
    var inv := (before: seq<Timed>, e: Engine) => Accounted(start, before, e);
    InitAccounts(start, now);
    forall before, t |
      IsRun(start, before, now) && inv(before, Traces.End(start, before))
      && Traces.Holds(Follows, Traces.End(start, before), Traces.EndTime(before, now), t)
      ensures inv(before + [t], t.after)
    {
      LastAccounts(start, before, t, now);
    }
    Traces.RunsKeepHistory(Follows, inv, start, steps, now);
  }

  lemma InitAccounts(start: Engine, now: int)
    requires IsInitial(start, now)
    ensures Accounted(start, [], start)
  {
    var config, queueCapacity: nat, activeCapacity: nat, retention, grace: nat :|
      start == Init(config, queueCapacity, activeCapacity, retention, grace, now);
  }

  lemma LastAccounts(start: Engine, before: seq<Timed>, last: Timed, now: int)
    requires IsInitial(start, now) && IsRun(start, before, now)
    requires Traces.Holds(Follows, Traces.End(start, before), Traces.EndTime(before, now), last)
    requires Accounted(start, before, Traces.End(start, before))
    ensures Accounted(start, before + [last], last.after)
  {
    ReachedPolicy(start, before, now);
    StepAccounts(start, before, last, Traces.EndTime(before, now));
  }

  lemma ReachedPolicy(start: Engine, steps: seq<Timed>, now: int)
    requires IsInitial(start, now) && IsRun(start, steps, now)
    ensures R.Inv(Traces.End(start, steps).policy)
    ensures Traces.End(start, steps).policy.lastNow <= Traces.EndTime(steps, now)
  {
    ReachedIsInService(Traces.End(start, steps), start, steps, now);
  }

  /** In every run of a new router, with any retention: every reply answers a request that was taken earlier, goes
      to the sender of that request, and says of its task what the store held when it went out: the content of a
      completed one, the error of any other. Every inbound task belongs to the sender of a request taken under its
      id. */
  lemma RepliesAnswerRequests(config: Config, queueCapacity: nat, activeCapacity: nat, retention: Option<nat>,
      grace: nat, now: int, steps: seq<Timed>)
    requires IsRun(Init(config, queueCapacity, activeCapacity, retention, grace, now), steps, now)
    ensures var start := Init(config, queueCapacity, activeCapacity, retention, grace, now);
            var o := Traces.End(start, steps);
            && (forall r | r in o.replies :: Answers(start, steps, r))
            && (forall id | id in o.store.tasks && o.store.tasks[id].ownership.Inbound? ::
                  WasTaken(start, steps, id, o.store.tasks[id].owner))
            && (forall id {:trigger Belongs(o, id)} :: Belongs(o, id))
            && o.store.retainResponse && o.store.localRuntime == Some(config.runtimeId)
  {
    var start := Init(config, queueCapacity, activeCapacity, retention, grace, now);
    assert IsInitial(start, now);
    RunAccounts(start, steps, now);
  }

  /* ---------- what an executor's outcome becomes ---------- */

  /** A request that can still be answered: its task has not run out, and nothing was sent for it. */
  ghost predicate Unanswered(e: Engine, id: Name, now: int) {
    && id in e.store.tasks && e.store.tasks[id].deadline > now && e.store.retainResponse
    && id in e.inbound && !e.inbound[id].terminalSent && e.inbound[id].request.envelope.expiresAt > now
  }

  /** The task ends like this, and its sender is told so. */
  ghost predicate Ends(e: Engine, o: Engine, id: Name, state: TaskState, content: Option<Content>,
      error: Option<ErrorCode>)
    requires id in e.inbound
  {
    && id in o.store.tasks && o.store.tasks[id].state == state
    && o.store.tasks[id].content == content && o.store.tasks[id].error == error
    && o.replies == e.replies + [Reply(id, e.inbound[id].request.envelope.sender, state, content, error)]
    && o.inbound == e.inbound[id := e.inbound[id].(terminalSent := true)] && id !in o.timers
  }

  lemma SettleEnds(e: Engine, id: Name, next: TaskState, content: Option<Content>, error: Option<ErrorCode>,
      asked: bool, now: int)
    requires Unanswered(e, id, now) && CanTransition(e.store.tasks[id].state, next)
    requires IsTerminal(next)
    requires if next.Completed? then content.Some? && error.None? else content.None? && error.Some?
    ensures Ends(e, Settle(e, id, next, Update(content, error, asked, None, None), now), id, next, content, error)
  {
    var u := Update(content, error, asked, None, None);
    var f := e.(store := Commit(e.store, id, next, u, now));
    SettleUnfolds(e, id, next, u, now);
    TerminalIffStuck(e.store.tasks[id].state);
    FinishReplies(f, id, now);
    var o := FinishTask(f, id, Some(f.store.tasks[id]), now);
    var r :| Sends(f, o, r, now) && r.requestId == id;
    assert r == Reply(id, e.inbound[id].request.envelope.sender, next, content, error);
  }

  /** Before its deadline a request that is being worked on ends as its executor says: completed with the content,
      failed or rejected with the error; content that breaks the contract, or no result, changes nothing. */
  lemma ExecutorEnds(e: Engine, id: Name, result: ExecutorResult, now: int)
    requires Unanswered(e, id, now) && e.store.tasks[id].state == Working
    ensures var o := ApplyExecutorResult(e, id, result, now);
            match result
            case Nothing => o == e
            case Returned(c, valid) => if valid then Ends(e, o, id, Completed, Some(c), None) else o == e
            case FailedWith(x) => Ends(e, o, id, Failed, None, Some(x))
            case RejectedWith(x) => Ends(e, o, id, Rejected, None, Some(x))
  {
    assert ExpireIfDue(e.store, id, Tick(now)) == e.store;
    match result
    case Nothing =>
    case Returned(c, valid) => SettleEnds(e, id, Completed, Some(c), None, false, now);
    case FailedWith(x) => SettleEnds(e, id, Failed, None, Some(x), false, now);
    case RejectedWith(x) => SettleEnds(e, id, Rejected, None, Some(x), false, now);
  }

  /** While it is being cancelled it can still complete or fail; a rejection comes too late and changes nothing. */
  lemma ExecutorEndsCancelling(e: Engine, id: Name, result: ExecutorResult, now: int)
    requires Unanswered(e, id, now) && e.store.tasks[id].state == Cancelling
    ensures var o := ApplyExecutorResult(e, id, result, now);
            match result
            case Nothing => o == e
            case Returned(c, valid) => if valid then Ends(e, o, id, Completed, Some(c), None) else o == e
            case FailedWith(x) => Ends(e, o, id, Failed, None, Some(x))
            case RejectedWith(x) => o == e
  {
    assert ExpireIfDue(e.store, id, Tick(now)) == e.store;
    match result
    case Nothing =>
    case Returned(c, valid) => SettleEnds(e, id, Completed, Some(c), None, false, now);
    case FailedWith(x) => SettleEnds(e, id, Failed, None, Some(x), false, now);
    case RejectedWith(x) =>
  }

  /** An executor that throws fails the task, or ends its cancellation. */
  lemma ThrowEnds(e: Engine, id: Name, now: int)
    requires Unanswered(e, id, now)
    ensures var o := HandleExecutorFailure(e, id, now);
            && (e.store.tasks[id].state == Working ==> Ends(e, o, id, Failed, None, Some(Internal)))
            && (e.store.tasks[id].state == Cancelling ==> Ends(e, o, id, Cancelled, None, Some(CancelledError)))
  {
    assert ExpireIfDue(e.store, id, Tick(now)) == e.store;
    ExecutorThrowsUnfolds(e, id, now);
    if e.store.tasks[id].state.Cancelling? {
      SettleEnds(e, id, Cancelled, None, Some(CancelledError), true, now);
    } else if e.store.tasks[id].state.Working? {
      SettleEnds(e, id, Failed, None, Some(Internal), false, now);
    }
  }

  /** The router's timer tells the sender when it fires before the request's deadline, and forgets the record
      after it. */
  lemma TimerEnds(e: Engine, id: Name, now: int)
    requires Unanswered(e, id, now) && !IsTerminal(e.store.tasks[id].state)
    ensures Ends(e, RouterTimer(e, id, now), id, Expired, None, Some(ExpiredError))
  {
    var f := e.(timers := e.timers - {id});
    RouterTimerUnfolds(e, id, now);
    var g := f.(store := Commit(e.store, id, Expired, EXPIRY, now));
    FinishReplies(g, id, now);
    var o := FinishTask(g, id, Some(g.store.tasks[id]), now);
    var r :| Sends(g, o, r, now) && r.requestId == id;
    assert r == Reply(id, e.inbound[id].request.envelope.sender, Expired, None, Some(ExpiredError));
  }

  /** Past the request's own deadline nothing is sent, whatever became of its task. */
  lemma LateIsSilent(e: Engine, id: Name, now: int)
    requires id in e.store.tasks && IsTerminal(e.store.tasks[id].state)
    requires id in e.inbound && !e.inbound[id].terminalSent && e.inbound[id].request.envelope.expiresAt <= now
    ensures var o := FinishTask(e, id, Some(e.store.tasks[id]), now);
            o.replies == e.replies && o.inbound == e.inbound - {id}
  {
    FinishReplies(e, id, now);
  }

  /** A cancellation that takes effect at once tells the sender, with the cancellation's own error. */
  lemma CancelEnds(e: Engine, id: Name, caller: Option<Name>, reason: bool, now: int)
    requires Unanswered(e, id, now) && e.store.tasks[id].state in {Accepted, Queued, Cancelling}
    requires caller == None || caller == Some(e.store.tasks[id].owner) || caller == e.store.localRuntime
    ensures var o := CancelLocally(e, id, caller, reason, now);
            && id in o.store.tasks && o.store.tasks[id].state == Cancelled && id !in o.timers
            && o.replies == e.replies
                            + [Reply(id, e.inbound[id].request.envelope.sender, Cancelled, None, Some(CancelledError))]
            && o.inbound == e.inbound[id := e.inbound[id].(terminalSent := true)]
  {
    var (s, r) := CancelTask(e.store, id, caller, None, reason, Tick(now));
    CancelTable(e.store, id, caller, None, reason, Tick(now));
    var f := e.(store := s);
    FinishReplies(f, id, now);
    var o := FinishTask(f, id, Some(f.store.tasks[id]), now);
    var q :| Sends(f, o, q, now) && q.requestId == id;
    assert q == Reply(id, e.inbound[id].request.envelope.sender, Cancelled, None, Some(CancelledError));
  }

  /** Asking a request that is worked on to stop tells its sender nothing yet and takes nothing from it. */
  lemma CancelWaits(e: Engine, id: Name, caller: Option<Name>, reason: bool, now: int)
    requires Unanswered(e, id, now) && e.store.tasks[id].state == Working
    requires caller == None || caller == Some(e.store.tasks[id].owner) || caller == e.store.localRuntime
    ensures var o := CancelLocally(e, id, caller, reason, now);
            && o == e.(store := o.store) && id in o.store.tasks && o.store.tasks[id].state == Cancelling
            && o.store.tasks[id].aborted && o.store.tasks[id].cancellationRequested
  {
    CancelTable(e.store, id, caller, None, reason, Tick(now));
  }
}
