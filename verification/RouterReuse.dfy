/** What happens to a request whose id is used again: arrivals, rejections and timers as they change a
    router of which everything that matters is known. */
module RouterReuse {
  import opened TaskStates
  import opened TaskStoreSpec
  import opened Messages
  import opened RouterSpec
  import opened RouterInv
  import opened RouterRuns
  import opened RouterSteps
  import opened RouterService
  import opened PolicyShapes
  import P = PolicySpec
  import R = PolicyRuns
  import D = DedupeSpec
  import Traces

  function RequestFrom(sender: Name, id: Name, now: int, until: int): Request {
    Request(Envelope(MessageRequest, sender, id, 0, until), now)
  }

  /** No handle and no sender is `m` or beyond. */
  ghost predicate Unheard(e: Engine, m: Name) {
    && (forall t | t in P.Retained(e.policy) :: t.handle < m)
    && (forall k | k in e.dedupe.records :: k.sender < m)
  }

  lemma UnheardHandle(e: Engine, m: Name)
    requires Unheard(e, m)
    ensures P.TokenWithHandle(e.policy.active + e.policy.queue, m).None?
  {
    TokenFound(e.policy.active + e.policy.queue, m);
    forall r | r in e.policy.active + e.policy.queue ensures r.ticket.handle != m {
      assert r.ticket in P.Retained(e.policy);
    }
  }

  /* ---------- arriving ---------- */

  /** Nothing stands in the way of this request. */
  ghost predicate Welcome(e: Engine, r: Request, now: int) {
    && r == RequestFrom(r.envelope.sender, r.envelope.operationId, now, r.envelope.expiresAt)
    && r.envelope.expiresAt > now
    && Unheard(e, r.envelope.sender)
    && |e.inbound| < MAX_TRACKED_TASKS && r.envelope.operationId !in e.store.tasks
    && e.policy.queue == [] && (SlotFree(e) || e.policy.queueCapacity > 0)
  }

  /** The policy has the new ticket, active or alone in the queue. */
  ghost predicate TakesIn(p: P.PolicyState, x: P.PolicyState, t: P.Ticket, leased: bool) {
    && P.Tickets(p.active) == P.Tickets(x.active) + (if leased then {t} else {})
    && |p.active| == |x.active| + (if leased then 1 else 0)
    && p.queue == (if leased then [] else [Waits(t)])
    && p.queueCapacity == x.queueCapacity && p.activeCapacity == x.activeCapacity
  }

  /** The request holds a new lease, or it is the only one that waits. */
  ghost predicate Joined(o: Engine, e: Engine, r: Request, t: P.Ticket, leased: bool) {
    var id := r.envelope.operationId;
    && o == e.(policy := o.policy, store := o.store, dedupe := o.dedupe, timers := o.timers, grants := o.grants,
               inbound := e.inbound[id := InboundRecord(r, false)],
               leases := if leased then e.leases[id := P.LeaseOf(t)] else e.leases,
               executed := e.executed + if leased && e.config.hasExecutor then [id] else [])
    && For(t, id) && t.handle == r.envelope.sender
    && TakesIn(o.policy, e.policy, t, leased)
    && id in o.store.tasks && o.store.tasks == e.store.tasks[id := o.store.tasks[id]]
    && Startable(o.store.tasks[id], leased) && o.store.tasks[id].deadline == r.envelope.expiresAt
    && o.dedupe.records.Keys <= e.dedupe.records.Keys + {D.KeyOf(r.envelope)}
  }

  ghost predicate Startable(t: Task, leased: bool) {
    t.ownership.Inbound? && t.state in (if leased then {Accepted, Working} else {Queued})
  }

  /** A welcome request is admitted; its handle is the name of its sender, which is new too. */
  lemma WelcomeIsTaken(e: Engine, r: Request, now: int, retention: Option<nat>)
    requires InService(e, now, retention) && Welcome(e, r, now)
    ensures var f := e.(dedupe := D.Prune(e.dedupe, now));
            Arrivable(e, r, r.envelope.sender, now)
                && Taken(f, r, r.envelope.sender, now, ProcessRequest(e, r, r.envelope.sender, now).0)
  {
    var handle := r.envelope.sender;
    UnheardHandle(e, handle);
    var f := e.(dedupe := D.Prune(e.dedupe, now));
    assert D.Prune(f.dedupe, now) == f.dedupe;
    assert D.KeyOf(r.envelope) !in e.dedupe.records;
    AdmitShape(f.policy, EntryFor(r, handle, SlotFree(f)), handle, SlotFree(f), At(f, now));
    AdmissionCases(f, r, handle, now);
    var p := P.Admit(f.policy, EntryFor(r, handle, SlotFree(f)), handle, SlotFree(f), At(f, now), At(f, now)).0;
    RecordUnfolds(f, f.(policy := p), r, handle, now);
  }

  /** A request that starts on arrival is executed at once, when there is an executor. */
  lemma StartedFresh(g: Engine, e: Engine, r: Request, handle: Name, now: int)
    requires var id := r.envelope.operationId;
             id in g.inbound && id in g.store.tasks && g.store.tasks[id].state.Accepted?
                 && g.store.tasks[id].deadline > now
    requires SlotFree(e)
    ensures var id := r.envelope.operationId;
            var o := Started(g, e, r, handle, now);
            && o == g.(store := o.store, executed := g.executed + if g.config.hasExecutor then [id] else [])
            && id in o.store.tasks && o.store.tasks == g.store.tasks[id := o.store.tasks[id]]
            && o.store.retention == g.store.retention
            && o.store.tasks[id].ownership == g.store.tasks[id].ownership
            && o.store.tasks[id].deadline == g.store.tasks[id].deadline
            && o.store.tasks[id].state in {Accepted, Working}
  {
    if g.config.hasExecutor {
      BeginShape(g.store, r.envelope.operationId, now);
    }
  }

  /** The router once the request is recorded, and before it starts. */
  ghost function Recorded(f: Engine, r: Request, handle: Name, p: P.PolicyState, now: int): Engine {
    Arrived(f, r, handle, p, now).(dedupe := Acknowledged(f, r, now), timers := f.timers + {r.envelope.operationId})
  }

  lemma RecordedFacts(f: Engine, r: Request, handle: Name, p: P.PolicyState, now: int)
    requires Arrivable(f, r, handle, now) && r.envelope.operationId !in f.store.tasks
    ensures var g, id := Recorded(f, r, handle, p, now), r.envelope.operationId;
            && g.policy == p && g.store.retention == f.store.retention && g.config == f.config
            && g.executed == f.executed
            && id in g.inbound && id in g.store.tasks && g.store.tasks == f.store.tasks[id := g.store.tasks[id]]
            && g.store.tasks[id].ownership.Inbound? && g.store.tasks[id].deadline == r.envelope.expiresAt
            && g.store.tasks[id].state == (if SlotFree(f) then Accepted else Queued)
  {
    CreateShape(f, r, SlotFree(f), handle, now);
  }

  lemma KeptAlone(e: Engine, r: Request, handle: Name, p: P.PolicyState, now: int)
    requires R.Inv(e.policy) && e.policy.lastNow <= now && e.policy.queue == []
    requires Kept(Prepared(e, now), TicketFor(e, r, handle), p, SlotFree(e))
    ensures TakesIn(p, e.policy, TicketFor(e, r, handle), SlotFree(e))
  {
    var x := Prepared(e, now);
    ExpireShape(e.policy, At(e, now));
    R.PushTickets(x.active, P.Fresh(TicketFor(e, r, handle)).(status := P.Active));
  }

  lemma ArrivedJoins(f: Engine, r: Request, handle: Name, p: P.PolicyState, now: int)
    requires Arrivable(f, r, handle, now) && R.Inv(f.policy) && f.policy.lastNow <= now && f.policy.queue == []
    requires Kept(Prepared(f, now), TicketFor(f, r, handle), p, SlotFree(f)) && handle == r.envelope.sender
    requires r.envelope.operationId !in f.store.tasks
    ensures Joined(Started(Recorded(f, r, handle, p, now), f, r, handle, now), f, r, TicketFor(f, r, handle),
        SlotFree(f))
  {
    KeptAlone(f, r, handle, p, now);
    if SlotFree(f) {
      JoinedLeased(f, r, handle, p, now);
    } else {
      JoinedQueued(f, r, handle, p, now);
    }
  }

  lemma JoinedLeased(f: Engine, r: Request, handle: Name, p: P.PolicyState, now: int)
    requires Arrivable(f, r, handle, now) && handle == r.envelope.sender && r.envelope.operationId !in f.store.tasks
    requires SlotFree(f) && TakesIn(p, f.policy, TicketFor(f, r, handle), true)
    ensures Joined(Started(Recorded(f, r, handle, p, now), f, r, handle, now), f, r, TicketFor(f, r, handle), true)
  {
    RecordedFacts(f, r, handle, p, now);
    AcknowledgedKeys(f, r, now);
    StartedFresh(Recorded(f, r, handle, p, now), f, r, handle, now);
  }

  lemma JoinedQueued(f: Engine, r: Request, handle: Name, p: P.PolicyState, now: int)
    requires Arrivable(f, r, handle, now) && handle == r.envelope.sender && r.envelope.operationId !in f.store.tasks
    requires !SlotFree(f) && TakesIn(p, f.policy, TicketFor(f, r, handle), false)
    ensures Joined(Recorded(f, r, handle, p, now), f, r, TicketFor(f, r, handle), false)
  {
    RecordedFacts(f, r, handle, p, now);
    AcknowledgedKeys(f, r, now);
  }

  lemma AcknowledgedKeys(f: Engine, r: Request, now: int)
    ensures Acknowledged(f, r, now).records.Keys <= f.dedupe.records.Keys + {D.KeyOf(r.envelope)}
  {
    var d := D.Prune(f.dedupe, now);
    assert d.records.Keys <= f.dedupe.records.Keys;
    var e := D.Reserve(d, r.envelope, now).0;
    assert e.records.Keys <= d.records.Keys + {D.KeyOf(r.envelope)};
    var v := D.Reservation(D.KeyOf(r.envelope), r.envelope.fingerprint, r.envelope.expiresAt + d.grace);
    CommitKeys(e, v, AckOf(f, r), Some(r.envelope.operationId), now);
  }

  lemma CommitKeys(s: D.DedupeState, v: D.Reservation, response: Response, reference: Option<Name>, now: int)
    ensures D.Commit(s, v, response, reference, now).0.records.Keys <= s.records.Keys
  {
  }

  lemma Joins(e: Engine, r: Request, now: int, retention: Option<nat>) returns (o: Engine, t: P.Ticket)
    requires InService(e, now, retention) && Welcome(e, r, now)
    ensures Happens(e, now, RequestArrives(r, r.envelope.sender), now, o)
    ensures Joined(o, e, r, t, SlotFree(e)) && InService(o, now, retention) && Unheard(o, r.envelope.sender + 1)
  {
    var handle, id := r.envelope.sender, r.envelope.operationId;
    var f := e.(dedupe := D.Prune(e.dedupe, now));
    o, t := ProcessRequest(e, r, handle, now).0, TicketFor(f, r, handle);
    WelcomeIsTaken(e, r, now, retention);
    ArrivalHappens(e, r, handle, now);
    RequestServes(e, r, handle, now, retention);
    var p :| Kept(Prepared(f, now), t, p, SlotFree(f))
             && o == Started(Recorded(f, r, handle, p, now), f, r, handle, now);
    ArrivedJoins(f, r, handle, p, now);
    JoinedUnheard(o, e, r, t, SlotFree(e));
  }

  /** What a run can do next; the step stays folded. */
  ghost predicate Happens(e: Engine, at: int, ev: RouterSpec.Event, later: int, o: Engine) {
    Traces.Holds(Follows, e, at, Traces.Timed(ev, later, o))
  }

  lemma ArrivalHappens(e: Engine, r: Request, handle: Name, now: int)
    requires Arrivable(e, r, handle, now)
    ensures Happens(e, now, RequestArrives(r, handle), now, ProcessRequest(e, r, handle, now).0)
  {
    assert Follows(e, now, Traces.Timed(RequestArrives(r, handle), now, ProcessRequest(e, r, handle, now).0));
  }

  lemma RejectHappens(e: Engine, id: Name, now: int)
    ensures Happens(e, now, TaskRejected(id, Malformed), now, RejectTask(e, id, Malformed, now))
  {
    assert Follows(e, now, Traces.Timed(TaskRejected(id, Malformed), now, RejectTask(e, id, Malformed, now)));
  }

  lemma JoinedUnheard(o: Engine, e: Engine, r: Request, t: P.Ticket, leased: bool)
    requires Unheard(e, r.envelope.sender) && Joined(o, e, r, t, leased) && e.policy.queue == []
    ensures Unheard(o, r.envelope.sender + 1)
  {
    assert P.Retained(o.policy) <= P.Retained(e.policy) + {t};
  }

  /* ---------- rejecting ---------- */

  /** The request can still be rejected, and answered in time. */
  ghost predicate Answerable(e: Engine, id: Name, now: int) {
    && id in e.store.tasks && e.store.tasks[id].state in {Accepted, Queued, Working} && e.store.tasks[id].deadline > now
    && id in e.inbound && !e.inbound[id].terminalSent && e.inbound[id].request.envelope.expiresAt > now
  }

  /** The task is terminal and its sender was told. */
  ghost predicate Told(o: Engine, e: Engine, id: Name) {
    && id in e.inbound && id in o.store.tasks && IsTerminal(o.store.tasks[id].state)
    && o.store == e.store.(tasks := e.store.tasks[id := o.store.tasks[id]], log := o.store.log)
    && o == e.(policy := o.policy, store := o.store, leases := o.leases, timers := o.timers, outbound := o.outbound,
               completed := o.completed, replies := o.replies,
                   inbound := e.inbound[id := e.inbound[id].(terminalSent := true)])
    && |o.replies| == |e.replies| + 1 && o.replies[..|e.replies|] == e.replies && o.replies[|e.replies|].requestId == id
    && P.Retained(o.policy) <= P.Retained(e.policy)
    && o.policy.queueCapacity == e.policy.queueCapacity && o.policy.activeCapacity == e.policy.activeCapacity
  }

  const REFUSED := NO_UPDATE.(error := Some(Malformed))

  /** The store once the task is rejected. */
  function Refused(e: Engine, id: Name, now: int): Engine
    requires id in e.store.tasks
  {
    e.(store := TaskStoreSpec.Commit(e.store, id, Rejected, REFUSED, now))
  }

  lemma RejectUnfolds(e: Engine, id: Name, now: int)
    requires Answerable(e, id, now)
    ensures var g := Refused(e, id, now);
            var v := Vacate(g, id, now);
            v == g.(policy := v.policy, leases := v.leases, timers := v.timers)
                && P.Retained(v.policy) <= P.Retained(e.policy)
            && v.policy.queueCapacity == e.policy.queueCapacity
                && v.policy.activeCapacity == e.policy.activeCapacity ==>
              var o := RejectTask(e, id, Malformed, now);
              Told(o, e, id) && o.policy == v.policy && o.leases == v.leases
  {
    SettleUnfolds(e, id, Rejected, REFUSED, now);
  }

  lemma RejectServes(e: Engine, id: Name, now: int, retention: Option<nat>)
    requires InService(e, now, retention) && Answerable(e, id, now)
    ensures InService(RejectTask(e, id, Malformed, now), now, retention)
    ensures InService(Refused(e, id, now), now, retention)
  {
    SettleServes(e, id, Rejected, REFUSED, now, retention);
    CommitCalm(e.store, id, Rejected, REFUSED, now);
    CalmServes(e, Refused(e, id, now).store, now, retention);
  }

  /** Nobody in the queue is known any more. */
  ghost predicate Strangers(e: Engine) {
    forall t | t in P.Tickets(e.policy.queue) :: t.entry.requestId.None? || t.entry.requestId.value !in e.inbound
  }

  lemma NoTickets(rs: seq<P.QueueRecord>)
    ensures P.Tickets(rs) == {} ==> rs == []
  {
    assert rs != [] ==> rs[0].ticket in P.Tickets(rs);
  }

  /** The same slots are taken, and nobody new waits. */
  ghost predicate SameSlots(o: P.PolicyState, p: P.PolicyState) {
    && P.Tickets(o.active) == P.Tickets(p.active) && |o.active| == |p.active|
    && P.Tickets(o.queue) <= P.Tickets(p.queue)
    && o.queueCapacity == p.queueCapacity && o.activeCapacity == p.activeCapacity
  }

  /** One turn of the drain loop gives the slot to a stranger and takes it back. */
  lemma StrangerLeaves(e: Engine, x: P.PolicyState, now: int, retention: Option<nat>)
    requires Serving(e, now, retention) && SlotFree(e) && Strangers(e)
    requires x == P.Expire(e.policy, At(e, now)) && x.queue != []
    ensures var m := e.(policy := P.Release(Claimed(x), x.queue[0].ticket.handle));
            && Serving(m, now, retention) && SameSlots(m.policy, e.policy) && |m.policy.queue| < |e.policy.queue|
            && DrainQueue(e, now) == DrainQueue(m, now)
  {
    var t, p := x.queue[0].ticket, Claimed(x);
    ExpireShape(e.policy, At(e, now));
    DrainUnfolds(e, x, now);
    HeadSound(e, x, now, retention);
    assert x.queue[0] in x.queue && t in P.Tickets(x.queue);
    ReleasedServes(e.(policy := p), t, e.leases, now, retention);
    StrangerGivesBack(e, x, now, retention);
  }

  /** The slot that was taken and given back leaves the policy with the same slots and a shorter queue. */
  lemma StrangerGivesBack(e: Engine, x: P.PolicyState, now: int, retention: Option<nat>)
    requires Serving(e, now, retention) && SlotFree(e) && x == P.Expire(e.policy, At(e, now)) && x.queue != []
    ensures var p := P.Release(Claimed(x), x.queue[0].ticket.handle);
            SameSlots(p, e.policy) && |p.queue| < |e.policy.queue|
  {
    var t, p := x.queue[0].ticket, Claimed(x);
    HeadSound(e, x, now, retention);
    ExpireShape(e.policy, At(e, now));
    ReleaseShrinks(p, t.handle);
    TailTickets(x.queue);
    ReleaseShape(p, t);
  }

  lemma TailTickets(rs: seq<P.QueueRecord>)
    requires rs != []
    ensures P.Tickets(rs[1..]) <= P.Tickets(rs)
  {
    assert forall r :: r in rs[1..] ==> r in rs;
  }

  /** Draining a queue of strangers forgets them all. */
  lemma {:induction false} DropsStrangers(e: Engine, now: int, retention: Option<nat>)
    requires Serving(e, now, retention) && SlotFree(e) && Strangers(e)
    ensures var o := DrainQueue(e, now);
            o == e.(policy := o.policy) && o.policy.queue == [] && SameSlots(o.policy, e.policy)
    decreases |e.policy.queue|
  {
    var x := P.Expire(e.policy, At(e, now));
    if x.queue == [] {
      DrainUnfolds(e, x, now);
      ExpireShape(e.policy, At(e, now));
    } else {
      StrangerLeaves(e, x, now, retention);
      DropsStrangers(e.(policy := P.Release(Claimed(x), x.queue[0].ticket.handle)), now, retention);
    }
  }

  ghost predicate HoldsSlot(e: Engine, id: Name, t: P.Ticket) {
    t in P.Tickets(e.policy.active) && For(t, id) && id in e.leases && e.leases[id] == P.LeaseOf(t)
  }

  ghost predicate WaitsAlone(e: Engine, id: Name, t: P.Ticket) {
    e.policy.queue == [Waits(t)] && For(t, id) && id !in e.leases && Absent(P.Tickets(e.policy.active), id)
  }

  /** Rejecting a request that holds a slot, while nobody who is known waits. */
  lemma RejectsLeased(e: Engine, id: Name, t: P.Ticket, now: int, retention: Option<nat>) returns (o: Engine)
    requires InService(e, now, retention) && Answerable(e, id, now) && Strangers(e)
    requires HoldsSlot(e, id, t)
    ensures Happens(e, now, TaskRejected(id, Malformed), now, o)
    ensures Told(o, e, id) && InService(o, now, retention)
    ensures o.leases == e.leases - {id}
    ensures o.policy.queue == [] && P.Tickets(o.policy.active) == P.Tickets(e.policy.active) - {t}
    ensures |o.policy.active| == |e.policy.active| - 1
  {
    o := RejectTask(e, id, Malformed, now);
    RejectHappens(e, id, now);
    RejectServes(e, id, now, retention);
    var g := Refused(e, id, now);
    var f := g.(timers := g.timers - {id});
    HeldApart(f.store.tasks, f.leases, P.Tickets(f.policy.active), t, id);
    ReleasedServes(f, t, f.leases - {id}, now, retention);
    ReleaseShape(f.policy, t);
    DropsStrangers(f.(policy := P.Release(f.policy, t.handle), leases := f.leases - {id}), now, retention);
    RejectUnfolds(e, id, now);
  }

  /** Rejecting the only request that waits. */
  lemma RejectsQueued(e: Engine, id: Name, t: P.Ticket, now: int, retention: Option<nat>) returns (o: Engine)
    requires InService(e, now, retention) && Answerable(e, id, now) && !SlotFree(e) && WaitsAlone(e, id, t)
    ensures Happens(e, now, TaskRejected(id, Malformed), now, o)
    ensures Told(o, e, id) && InService(o, now, retention)
    ensures o.leases == e.leases
    ensures o.policy.queue == [] && o.policy.active == e.policy.active
  {
    o := RejectTask(e, id, Malformed, now);
    RejectHappens(e, id, now);
    RejectServes(e, id, now, retention);
    VacatesQueue(e, id, t, now);
    RejectUnfolds(e, id, now);
  }

  /** Vacating the only request that waits takes it out of the queue, and no slot is free for anybody else. */
  lemma VacatesQueue(e: Engine, id: Name, t: P.Ticket, now: int)
    requires R.Inv(e.policy) && e.policy.lastNow <= now
    requires Answerable(e, id, now) && !SlotFree(e) && WaitsAlone(e, id, t)
    ensures var g := Refused(e, id, now);
            var v := Vacate(g, id, now);
            && v == g.(policy := v.policy, timers := v.timers)
            && v.policy.queue == [] && v.policy.active == e.policy.active
            && P.Retained(v.policy) <= P.Retained(e.policy)
            && v.policy.queueCapacity == e.policy.queueCapacity && v.policy.activeCapacity == e.policy.activeCapacity
  {
    var g := Refused(e, id, now);
    var f := g.(timers := g.timers - {id});
    var p := P.CancelByRequestId(f.policy, id, At(f, now), At(f, now));
    assert P.Tickets(e.policy.queue) == {t};
    forall u | u in P.Tickets(f.policy.active) ensures u.entry.requestId != Some(id) {
      assert !For(u, id);
    }
    CancelShape(f.policy, id, At(f, now));
    NoTickets(p.queue);
    assert DrainQueue(f.(policy := p), now) == f.(policy := p);
  }

  /* ---------- timers and deliveries ---------- */

  lemma StoreTimerHappens(e: Engine, id: Name, now: int, later: int)
    requires now <= later && id in e.store.tasks && IsDue(e.store.tasks[id], later)
    ensures Happens(e, now, StoreTimerFires(id), later, e.(store := ExpireIfDue(e.store, id, Tick(later))))
  {
    StoreTimerShape(e.store, id, later);
    assert Follows(e, now, Traces.Timed(StoreTimerFires(id), later,
        e.(store := ExpireIfDue(e.store, id, Tick(later)))));
  }

  lemma PurgeHappens(e: Engine, id: Name, now: int, later: int)
    requires e.store.retention.Some? && now <= later && id in e.store.tasks && IsTerminal(e.store.tasks[id].state)
    ensures Happens(e, now, PurgeTimerFires(id), later, e.(store := Drop(e.store, id)))
  {
    assert Follows(e, now, Traces.Timed(PurgeTimerFires(id), later, e.(store := Drop(e.store, id))));
  }

  lemma DeliveryHappens(e: Engine, id: Name, now: int)
    requires Replied(e.replies, id)
    ensures Happens(e, now, ReplySettled(id), now, e.(inbound := e.inbound - {id}))
  {
    assert Follows(e, now, Traces.Timed(ReplySettled(id), now, e.(inbound := e.inbound - {id})));
  }
}
