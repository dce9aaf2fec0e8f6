/** Which answer an arriving request gets, read off the state before it arrives. */
module RouterAnswers {
  import opened TaskStates
  import opened TaskStoreSpec
  import opened TaskStoreLaws
  import opened Messages
  import opened RouterSpec
  import opened RouterSteps
  import opened RouterReuse
  import opened RouterDedupe
  import opened PolicyShapes
  import P = PolicySpec
  import R = PolicyRuns
  import D = DedupeSpec

  /* ---------- what is visible before the call ---------- */

  /** The record under the request's key, while it is retained. */
  ghost predicate OnRecord(e: Engine, v: Envelope, now: int) {
    D.Key(v.sender, v.operationId) in e.dedupe.records
    && e.dedupe.records[D.Key(v.sender, v.operationId)].retainedUntil > now
  }

  ghost function RecordOf(e: Engine, v: Envelope): D.Record
    requires D.Key(v.sender, v.operationId) in e.dedupe.records
  {
    e.dedupe.records[D.Key(v.sender, v.operationId)]
  }

  /** Other content under the key is a duplicate; the same content gets what was committed, and nothing yet if
      nothing was. */
  ghost function RecordedAnswer(r: D.Record, v: Envelope): Response {
    if r.fingerprint != v.fingerprint then Failure(DuplicateOperation)
    else if r.pending || r.result.None? then Failure(BusyError)
    else r.result.value
  }

  /** The request's task was cancelled or is being cancelled; one that ran out while cancelling has expired. */
  ghost predicate IsCancelledTask(tasks: map<Name, Task>, id: Name, now: int) {
    id in tasks && (tasks[id].state == Cancelled || (tasks[id].state == Cancelling && now < tasks[id].deadline))
  }

  /** A queued entry that can still run: in time, runnable, and cancelled by nobody. */
  ghost predicate CanStillRun(tasks: map<Name, Task>, t: P.Ticket, arriving: Name, now: int) {
    && t.entry.expiresAt > now && t.entry.runnable && !t.entry.cancelled && !t.entry.aborted
    && (t.entry.state == P.Unspecified || t.entry.state == P.OfTask(Accepted) || t.entry.state == P.OfTask(Queued))
    && (t.entry.requestId.Some? ==>
          var id := t.entry.requestId.value;
          && (id == arriving ==> !IsCancelledTask(tasks, id, now))
          && (id != arriving && id in tasks ==> tasks[id].state != Cancelled && tasks[id].state != Cancelling))
  }

  /** The queued entries that can still run when this request arrives. */
  ghost function Waiting(e: Engine, arriving: Name, now: int): set<P.Ticket> {
    set r | r in e.policy.queue && CanStillRun(e.store.tasks, r.ticket, arriving, now) :: r.ticket
  }

  /** The answer, in the order in which its reasons are looked at. */
  ghost function Answer(e: Engine, r: Request, now: int): Response {
    var v, id := r.envelope, r.envelope.operationId;
    if OnRecord(e, v, now) then RecordedAnswer(RecordOf(e, v), v)
    else if |e.inbound| >= 4096 then Failure(BusyError)
    else if IsCancelledTask(e.store.tasks, id, now) then Failure(CancelledError)
    else if |e.policy.active| >= e.policy.activeCapacity && |Waiting(e, id, now)| >= e.policy.queueCapacity then
      Failure(BusyError)
    else if id in e.store.tasks then Failure(Internal)
    else Success(AdmissionResult(id, if |e.policy.active| < e.policy.activeCapacity then Accepted else Queued))
  }

  /* ---------- the policy's part ---------- */

  lemma {:induction false} DistinctTickets(rs: seq<P.QueueRecord>)
    requires R.Increasing(rs)
    ensures |P.Tickets(rs)| == |rs|
  {
    if rs != [] {
      DistinctTickets(rs[1..]);
      assert rs == [rs[0]] + rs[1..];
      assert P.Tickets(rs) == P.Tickets(rs[1..]) + {rs[0].ticket};
      forall t | t in P.Tickets(rs[1..]) ensures t != rs[0].ticket {
        var r :| r in rs[1..] && r.ticket == t;
      }
    }
  }

  /** What stays in the queue when entries that ran out are dropped is what can still run. */
  lemma KeptAreWaiting(e: Engine, id: Name, now: int)
    requires R.Inv(e.policy) && e.policy.lastNow <= now
    ensures var f := e.(store := ExpireIfDue(e.store, id, Tick(now)));
            |P.Keep(e.policy.queue, now, CancelProbe(f.store.tasks))| == |Waiting(e, id, now)|
  {
    var tasks := ExpireIfDue(e.store, id, Tick(now)).tasks;
    var kept := P.Keep(e.policy.queue, now, CancelProbe(tasks));
    R.KeepFilters(e.policy.queue, now, CancelProbe(tasks));
    DistinctTickets(kept);
    forall r | r in e.policy.queue
      ensures P.Runnable(r, now, CancelProbe(tasks)) <==> CanStillRun(e.store.tasks, r.ticket, id, now)
    {
      assert R.WaitingRecord(e.policy, r);
      SameProbe(e.store, id, r.ticket.entry, now);
    }
    assert P.Tickets(kept) == Waiting(e, id, now);
  }

  lemma SameProbe(s: StoreState, id: Name, entry: P.Entry, now: int)
    ensures CancelProbe(ExpireIfDue(s, id, Tick(now)).tasks)(entry) <==>
              && entry.requestId.Some?
              && var k := entry.requestId.value;
                 if k == id then IsCancelledTask(s.tasks, id, now)
                 else k in s.tasks && (s.tasks[k].state == Cancelled || s.tasks[k].state == Cancelling)
  {
  }

  /** Why admission turns a request away, if it does. */
  lemma AdmissionRefusal(e: Engine, r: Request, handle: Name, now: int)
    requires Takes(e, r, handle, now)
    ensures var id := r.envelope.operationId;
            var f := e.(store := ExpireIfDue(e.store, id, Tick(now)));
            var free := |e.policy.active| < e.policy.activeCapacity;
            var admission := P.Admit(f.policy, EntryFor(r, handle, free), handle, free, At(f, now), At(f, now)).1;
            RefusalOf(admission)
            == if IsCancelledTask(e.store.tasks, id, now) then Some(Failure(CancelledError))
               else if !free && |Waiting(e, id, now)| >= e.policy.queueCapacity then Some(Failure(BusyError))
               else None
  {
    var id := r.envelope.operationId;
    var f := e.(store := ExpireIfDue(e.store, id, Tick(now)));
    var free := |e.policy.active| < e.policy.activeCapacity;
    var entry := EntryFor(r, handle, free);
    AdmitShape(f.policy, entry, handle, free, At(f, now));
    KeptAreWaiting(e, id, now);
    SameProbe(e.store, id, entry, now);
  }

  /* ---------- the whole answer ---------- */

  lemma RecordAnswers(e: Engine, r: Request, handle: Name, now: int)
    requires Takes(e, r, handle, now) && OnRecord(e, r.envelope, now)
    ensures ProcessRequest(e, r, handle, now).1 == Answer(e, r, now)
  {
  }

  lemma AdmissionAnswers(f: Engine, r: Request, handle: Name, now: int)
    requires Takes(f, r, handle, now) && f.dedupe == D.Prune(f.dedupe, now)
    requires D.Inspect(f.dedupe, r.envelope, now).1.NewOperation?
    ensures var id := r.envelope.operationId;
            var free := |f.policy.active| < f.policy.activeCapacity;
            var admission := P.Admit(f.policy, EntryFor(r, handle, free), handle, free, At(f, now), At(f, now)).1;
            AdmitRequest(f, r, handle, now).1
            == if RefusalOf(admission).Some? then RefusalOf(admission).value
               else if id in f.store.tasks then Failure(Internal)
               else Success(AdmissionResult(id, if free then Accepted else Queued))
  {
    var free := SlotFree(f);
    var (p, admission) := P.Admit(f.policy, EntryFor(r, handle, free), handle, free, At(f, now), At(f, now));
    AdmissionCases(f, r, handle, now);
    if RefusalOf(admission).None? {
      RecordUnfolds(f, f.(policy := p), r, handle, now);
    }
  }

  /** The state in which admission begins, when the request is not on record. */
  lemma NewIsAdmitted(e: Engine, r: Request, handle: Name, now: int)
    requires Takes(e, r, handle, now) && !OnRecord(e, r.envelope, now)
    ensures var f := Inspected(e, r, now);
            && f.dedupe == D.Prune(f.dedupe, now) && D.Inspect(f.dedupe, r.envelope, now).1.NewOperation?
            && ProcessRequest(e, r, handle, now).1
               == if |e.inbound| >= 4096 then Failure(BusyError) else AdmitRequest(f, r, handle, now).1
  {
  }

  /** Every arriving request gets the answer that the state before it names: what is on record, busy when too much
      is tracked, cancelled when its task is, busy when no slot is free and the queue is full of entries that can
      still run, an internal error when its id is taken, and otherwise success. */
  lemma RequestAnswer(e: Engine, r: Request, handle: Name, now: int)
    requires Takes(e, r, handle, now)
    ensures ProcessRequest(e, r, handle, now).1 == Answer(e, r, now)
  {
    if OnRecord(e, r.envelope, now) {
      RecordAnswers(e, r, handle, now);
    } else {
      var f := Inspected(e, r, now);
      NewIsAdmitted(e, r, handle, now);
      AdmissionRefusal(e, r, handle, now);
      AdmissionAnswers(f, r, handle, now);
    }
  }

  /* ---------- what a request that is taken leaves ---------- */

  /** The task of a request that was taken: it belongs to the sender and runs out when the request does. */
  ghost predicate TaskFor(t: Task, r: Request, config: Config, free: bool) {
    && t.ownership == Inbound && t.owner == r.envelope.sender && t.localOwner == config.runtimeId
    && t.target == Some(config.runtimeId) && t.createdAt == r.createdAt
    && t.expiresAt == r.envelope.expiresAt && t.deadline == r.envelope.expiresAt
    && t.state == (if !free then Queued else if config.hasExecutor then Working else Accepted)
  }

  /** What a ticket or a lease says of the request it was made for. */
  ghost predicate TicketOf(t: P.Ticket, r: Request, handle: Name) {
    && t.handle == handle && t.entry.id == Some(r.envelope.operationId)
    && t.entry.requestId == Some(r.envelope.operationId) && t.entry.expiresAt == r.envelope.expiresAt
  }

  /** The request is recorded with its task and its timer. With a free slot it has a lease and went to the executor,
      if there is one; otherwise it stands at the end of the queue. */
  ghost predicate IsTaken(e: Engine, o: Engine, r: Request, handle: Name) {
    var id, free := r.envelope.operationId, |e.policy.active| < e.policy.activeCapacity;
    && o.inbound == e.inbound[id := InboundRecord(r, false)] && o.timers == e.timers + {id}
    && id in o.store.tasks && TaskFor(o.store.tasks[id], r, e.config, free)
    && o.replies == e.replies && o.outbound == e.outbound
    && if free then
         && o.leases.Keys == e.leases.Keys + {id} && o.leases[id].handle == handle
         && o.leases[id].requestId == Some(id) && o.leases[id].expiresAt == r.envelope.expiresAt
         && (forall k | k in e.leases && k != id :: o.leases[k] == e.leases[k])
         && |o.policy.active| == |e.policy.active| + 1
         && TicketOf(o.policy.active[|e.policy.active|].ticket, r, handle)
         && o.executed == e.executed + (if e.config.hasExecutor then [id] else [])
       else
         && o.leases == e.leases && o.executed == e.executed && |o.policy.active| == |e.policy.active|
         && o.policy.queue != [] && TicketOf(o.policy.queue[|o.policy.queue| - 1].ticket, r, handle)
  }

  lemma RequestIsTaken(e: Engine, r: Request, handle: Name, now: int)
    requires Takes(e, r, handle, now) && !OnRecord(e, r.envelope, now) && Answer(e, r, now).Success?
    ensures IsTaken(e, ProcessRequest(e, r, handle, now).0, r, handle)
  {
    var f := Inspected(e, r, now);
    var o := ProcessRequest(e, r, handle, now).0;
    SuccessIsTaken(e, r, handle, now);
    TakenLeaves(f, r, handle, now, o);
    SameBefore(e, f, o, r, handle);
  }

  lemma SameBefore(e: Engine, f: Engine, o: Engine, r: Request, handle: Name)
    requires f == e.(dedupe := f.dedupe, store := f.store) && IsTaken(f, o, r, handle)
    ensures IsTaken(e, o, r, handle)
  {
  }

  /** What is written on the ticket and on the lease made for it. */
  lemma TicketSays(f: Engine, r: Request, handle: Name)
    ensures var t := TicketFor(f, r, handle);
            && TicketOf(t, r, handle) && P.LeaseOf(t).handle == handle
            && P.LeaseOf(t).requestId == Some(r.envelope.operationId) && P.LeaseOf(t).expiresAt == r.envelope.expiresAt
  {
  }

  lemma SuccessIsTaken(e: Engine, r: Request, handle: Name, now: int)
    requires Takes(e, r, handle, now) && !OnRecord(e, r.envelope, now) && Answer(e, r, now).Success?
    ensures var f := Inspected(e, r, now);
            && Takes(f, r, handle, now) && Taken(f, r, handle, now, ProcessRequest(e, r, handle, now).0)
            && r.envelope.operationId !in f.store.tasks
  {
    var f := Inspected(e, r, now);
    RequestAnswer(e, r, handle, now);
    NewStateIsAdmitted(e, r, handle, now);
    AdmitUnfolds(f, r, handle, now);
  }

  lemma NewStateIsAdmitted(e: Engine, r: Request, handle: Name, now: int)
    requires Takes(e, r, handle, now) && !OnRecord(e, r.envelope, now) && |e.inbound| < 4096
    ensures var f := Inspected(e, r, now);
            && f.dedupe == D.Prune(f.dedupe, now) && D.Inspect(f.dedupe, r.envelope, now).1.NewOperation?
            && ProcessRequest(e, r, handle, now) == AdmitRequest(f, r, handle, now)
  {
    PrunedStaysPruned(e.dedupe, r.envelope, now);
  }

  lemma PrunedStaysPruned(d: D.DedupeState, v: Envelope, now: int)
    ensures D.Prune(D.Prune(d, now), now) == D.Prune(d, now)
    ensures D.Inspect(D.Prune(d, now), v, now).1 == D.Inspect(d, v, now).1
  {
    assert D.Prune(D.Prune(d, now), now) == D.Prune(d, now);
  }

  lemma TakenLeaves(f: Engine, r: Request, handle: Name, now: int, o: Engine)
    requires Takes(f, r, handle, now) && Taken(f, r, handle, now, o) && r.envelope.operationId !in f.store.tasks
    ensures IsTaken(f, o, r, handle)
  {
    var p :| Kept(Prepared(f, now), TicketFor(f, r, handle), p, SlotFree(f))
             && o == Started(Recorded(f, r, handle, p, now), f, r, handle, now);
    var g := Recorded(f, r, handle, p, now);
    RecordedFacts(f, r, handle, p, now);
    TicketSays(f, r, handle);
    PlaceTaken(f, r, handle, p, now);
    TaskIsMade(f, r, handle, p, now);
    if SlotFree(f) {
      StartedFresh(g, f, r, handle, now);
      StartedState(g, f, r, handle, now);
    }
    RecordedIsTaken(f, g, o, r, handle, p, now);
  }

  /** Where the ticket stands in the policy. */
  ghost predicate HasPlace(f: Engine, p: P.PolicyState, r: Request, handle: Name) {
    && |p.active| == |f.policy.active| + (if SlotFree(f) then 1 else 0)
    && (SlotFree(f) ==> p.active[|f.policy.active|].ticket == TicketFor(f, r, handle))
    && (!SlotFree(f) ==> p.queue != [] && p.queue[|p.queue| - 1].ticket == TicketFor(f, r, handle))
  }

  lemma PlaceTaken(f: Engine, r: Request, handle: Name, p: P.PolicyState, now: int)
    requires Kept(Prepared(f, now), TicketFor(f, r, handle), p, SlotFree(f))
    ensures HasPlace(f, p, r, handle)
  {
    R.MarkDueKeepsTickets(f.policy.active, P.Max(f.policy.lastNow, now));
  }

  lemma RecordedIsTaken(f: Engine, g: Engine, o: Engine, r: Request, handle: Name, p: P.PolicyState, now: int)
    requires g == Recorded(f, r, handle, p, now) && HasPlace(f, p, r, handle)
    requires o == g.(store := o.store, executed := o.executed)
    requires o.executed == f.executed + if SlotFree(f) && f.config.hasExecutor then [r.envelope.operationId] else []
    requires r.envelope.operationId in o.store.tasks
    requires TaskFor(o.store.tasks[r.envelope.operationId], r, f.config, SlotFree(f))
    ensures IsTaken(f, o, r, handle)
  {
    TicketSays(f, r, handle);
  }

  lemma TaskIsMade(f: Engine, r: Request, handle: Name, p: P.PolicyState, now: int)
    requires Arrivable(f, r, handle, now) && r.envelope.operationId !in f.store.tasks
    ensures var t := Recorded(f, r, handle, p, now).store.tasks[r.envelope.operationId];
            && t.ownership == Inbound && t.owner == r.envelope.sender && t.localOwner == f.config.runtimeId
            && t.target == Some(f.config.runtimeId) && t.createdAt == r.createdAt
            && t.expiresAt == r.envelope.expiresAt && t.deadline == r.envelope.expiresAt
            && t.state == (if SlotFree(f) then Accepted else Queued)
  {
  }

  lemma StartedState(g: Engine, e: Engine, r: Request, handle: Name, now: int)
    requires var id := r.envelope.operationId;
             && id in g.inbound && id in g.store.tasks
             && g.store.tasks[id].state.Accepted? && g.store.tasks[id].deadline > now
    requires SlotFree(e)
    ensures var id := r.envelope.operationId;
            var o := Started(g, e, r, handle, now);
            && id in o.store.tasks && SameTask(g.store.tasks[id], o.store.tasks[id])
            && o.store.tasks[id].state == (if g.config.hasExecutor then Working else Accepted)
            && o.executed == g.executed + (if g.config.hasExecutor then [id] else []) && o.policy == g.policy
  {
    if g.config.hasExecutor {
      BeginTable(g.store, r.envelope.operationId, Tick(now));
    }
  }
}
