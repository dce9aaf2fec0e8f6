/** Which promises of the router need terminal tasks to stay known. With any finite retention a sender
    can use the id of a purged task again, and four guarantees are lost, each by a run given here. */
module RouterRetention {
  import opened TaskStates
  import opened TaskStoreSpec
  import opened RouterSpec
  import opened RouterInv
  import opened RouterService
  import opened RouterGuarantees
  import opened RouterReuse
  import opened RouterTasks
  import P = PolicySpec
  import Traces

  /** Where runs can lead: closed under every step that can follow, and always in service. */
  type Places = (Engine, int) -> bool

  ghost predicate Closed(leads: Places, n: nat) {
    && (forall e, at {:trigger Visited(e, at)} :: Visited(e, at) && leads(e, at) ==> InService(e, at, Some(n)))
    && (forall e, at, ev, later, o {:trigger Happens(e, at, ev, later, o)} ::
          leads(e, at) && Happens(e, at, ev, later, o) ==> leads(o, later))
  }

  /** Asserted where a place's service is asked for. */
  ghost predicate Visited(e: Engine, at: int) { true }

  lemma LedInService(leads: Places, n: nat, e: Engine, at: int)
    requires Closed(leads, n) && leads(e, at)
    ensures InService(e, at, Some(n))
  {
    assert Visited(e, at);
  }

  lemma LedRetention(leads: Places, n: nat, e: Engine, at: int)
    requires Closed(leads, n) && leads(e, at)
    ensures e.store.retention == Some(n)
  {
    LedInService(leads, n, e, at);
  }

  /* ---------- one more step ---------- */

  lemma Arrives(leads: Places, n: nat, e: Engine, at: int, r: Request) returns (o: Engine, t: P.Ticket)
    requires Closed(leads, n) && leads(e, at) && Welcome(e, r, at)
    ensures leads(o, at) && Joined(o, e, r, t, SlotFree(e)) && Unheard(o, r.envelope.sender + 1)
  {
    LedInService(leads, n, e, at);
    o, t := Joins(e, r, at, Some(n));
  }

  lemma LeavesSlot(leads: Places, n: nat, e: Engine, at: int, id: Name, t: P.Ticket) returns (o: Engine)
    requires Closed(leads, n) && leads(e, at) && Answerable(e, id, at) && Strangers(e) && HoldsSlot(e, id, t)
    ensures leads(o, at) && Told(o, e, id) && o.leases == e.leases - {id}
    ensures o.policy.queue == [] && P.Tickets(o.policy.active) == P.Tickets(e.policy.active) - {t}
    ensures |o.policy.active| == |e.policy.active| - 1
  {
    LedInService(leads, n, e, at);
    o := RejectsLeased(e, id, t, at, Some(n));
  }

  lemma LeavesQueue(leads: Places, n: nat, e: Engine, at: int, id: Name, t: P.Ticket) returns (o: Engine)
    requires Closed(leads, n) && leads(e, at) && Answerable(e, id, at) && !SlotFree(e) && WaitsAlone(e, id, t)
    ensures leads(o, at) && Told(o, e, id) && o.leases == e.leases
    ensures o.policy.queue == [] && o.policy.active == e.policy.active
  {
    LedInService(leads, n, e, at);
    o := RejectsQueued(e, id, t, at, Some(n));
  }

  lemma Delivered(leads: Places, n: nat, e: Engine, at: int, id: Name) returns (o: Engine)
    requires Closed(leads, n) && leads(e, at) && Replied(e.replies, id)
    ensures leads(o, at) && o == e.(inbound := e.inbound - {id})
  {
    o := e.(inbound := e.inbound - {id});
    DeliveryHappens(e, id, at);
  }

  lemma Expired(leads: Places, n: nat, e: Engine, at: int, id: Name, later: int) returns (o: Engine)
    requires Closed(leads, n) && leads(e, at) && at <= later
    requires id in e.store.tasks && !IsTerminal(e.store.tasks[id].state) && e.store.tasks[id].deadline == later
    ensures leads(o, later) && o == e.(store := o.store)
    ensures id in o.store.tasks && IsTerminal(o.store.tasks[id].state)
    ensures o.store.tasks == e.store.tasks[id := o.store.tasks[id]]
  {
    o := e.(store := ExpireIfDue(e.store, id, Tick(later)));
    StoreTimerHappens(e, id, at, later);
  }

  lemma Purged(leads: Places, n: nat, e: Engine, at: int, id: Name) returns (o: Engine)
    requires Closed(leads, n) && leads(e, at) && id in e.store.tasks && IsTerminal(e.store.tasks[id].state)
    ensures leads(o, at + n) && o == e.(store := e.store.(tasks := e.store.tasks - {id}))
  {
    o := e.(store := Drop(e.store, id));
    LedRetention(leads, n, e, at);
    PurgeHappens(e, id, at, at + n);
  }

  /* ---------- served twice ---------- */

  /** A router that holds nothing. */
  ghost predicate Blank(e: Engine, m: Name) {
    && Unheard(e, m) && e.policy.activeCapacity > 0
    && e.policy.queue == [] && e.policy.active == [] && e.leases == map[] && e.inbound == map[]
    && e.store.tasks == map[]
  }

  /** Request 1 arrives, is rejected and answered, and its task is purged when its retention is over. */
  lemma ServedOnce(leads: Places, n: nat, e: Engine, m: Name, at: int) returns (o: Engine)
    requires Closed(leads, n) && leads(e, at) && Blank(e, m)
    ensures leads(o, at + n) && Blank(o, m + 1) && o.config == e.config
    ensures o.executed == e.executed + (if e.config.hasExecutor then [1] else [])
    ensures |o.replies| == |e.replies| + 1 && o.replies[..|e.replies|] == e.replies
    ensures o.replies[|e.replies|].requestId == 1
  {
    var a, t := Arrives(leads, n, e, at, RequestFrom(m, 1, at, at + 1));
    var b := Answers(leads, n, e, a, m, t, at);
    var c := Delivered(leads, n, b, at, 1);
    o := Purged(leads, n, c, at, 1);
    SpentIsBlank(b, o, m + 1);
  }

  lemma SpentIsBlank(b: Engine, o: Engine, m: Name)
    requires Spent(b, m)
    requires o == b.(inbound := b.inbound - {1}, store := o.store) && o.store.tasks == b.store.tasks - {1}
    ensures Blank(o, m)
  {
  }

  /** The state after the rejection: only the answered task and its record are left. */
  ghost predicate Spent(b: Engine, m: Name) {
    && Unheard(b, m) && b.policy.activeCapacity > 0 && b.policy.queue == [] && b.policy.active == []
    && b.leases == map[]
    && b.inbound.Keys == {1} && b.store.tasks.Keys == {1} && IsTerminal(b.store.tasks[1].state) && Replied(b.replies, 1)
  }

  lemma Answers(leads: Places, n: nat, e: Engine, a: Engine, m: Name, t: P.Ticket, at: int) returns (b: Engine)
    requires Closed(leads, n) && leads(a, at) && Blank(e, m) && Unheard(a, m + 1)
    requires Joined(a, e, RequestFrom(m, 1, at, at + 1), t, true)
    ensures leads(b, at) && Spent(b, m + 1) && b.config == a.config && b.executed == a.executed
    ensures |b.replies| == |a.replies| + 1 && b.replies[..|a.replies|] == a.replies
    ensures b.replies[|a.replies|].requestId == 1
  {
    b := LeavesSlot(leads, n, a, at, 1, t);
    assert b.replies[|e.replies|] in b.replies;
    NoTickets(b.policy.active);
  }

  /** The same request id is executed twice and answered twice. */
  lemma ServedTwice(leads: Places, n: nat, start: Engine, now: int) returns (o: Engine, at: int)
    requires Closed(leads, n) && leads(start, now) && Blank(start, 0) && start.replies == [] && start.executed == []
    ensures leads(o, at) && !AnsweredOnce(o) && (start.config.hasExecutor ==> !NoRepeat(o.executed))
  {
    var m := ServedOnce(leads, n, start, 0, now);
    o := ServedOnce(leads, n, m, 1, now + n);
    at := now + n + n;
    Twice(start, m, o);
  }

  lemma Twice(start: Engine, m: Engine, o: Engine)
    requires start.replies == [] && start.executed == [] && m.config == start.config
    requires m.executed == start.executed + (if start.config.hasExecutor then [1] else [])
    requires o.executed == m.executed + (if m.config.hasExecutor then [1] else [])
    requires |m.replies| == 1 && m.replies[0].requestId == 1
    requires |o.replies| == 2 && o.replies[..1] == m.replies && o.replies[1].requestId == 1
    ensures (start.config.hasExecutor ==> !NoRepeat(o.executed)) && !AnsweredOnce(o)
  {
    assert o.replies[0] == o.replies[..1][0];
    if start.config.hasExecutor {
      assert o.executed[0] == o.executed[1];
    }
  }

  /* ---------- slots that are lost ---------- */

  /** `k` slots are taken by records of request 1, whose task is gone. */
  ghost predicate Stranded(e: Engine, k: nat) {
    && Unheard(e, k)
    && e.policy.queue == [] && |e.policy.active| == k && AllFor(e.policy.active, 1)
    && e.leases.Keys <= {1} && e.inbound.Keys <= {1} && e.store.tasks == map[]
  }

  ghost predicate AllFor(rs: seq<P.QueueRecord>, id: Name) {
    forall t | t in P.Tickets(rs) :: For(t, id)
  }

  lemma FewInbound(e: Engine, ids: set<Name>)
    requires e.inbound.Keys <= ids && |ids| <= 2
    ensures |e.inbound| < MAX_TRACKED_TASKS
  {
    SubsetSize(e.inbound.Keys, ids);
  }

  /** `m` slots are taken by request 1, the last one by its living task. */
  ghost predicate Revived(e: Engine, m: nat, t: P.Ticket, until: int) {
    && Unheard(e, m)
    && e.policy.queue == [] && |e.policy.active| == m && AllFor(e.policy.active, 1) && HoldsSlot(e, 1, t)
    && e.leases.Keys == {1} && e.inbound.Keys == {1} && e.store.tasks.Keys == {1}
    && Answerable(e, 1, until - 1) && e.store.tasks[1].deadline == until
  }

  ghost predicate SameCapacities(o: Engine, e: Engine) {
    o.policy.activeCapacity == e.policy.activeCapacity && o.policy.queueCapacity == e.policy.queueCapacity
  }

  lemma Revives(leads: Places, n: nat, e: Engine, k: nat, at: int, until: int) returns (a: Engine, t: P.Ticket)
    requires Closed(leads, n) && leads(e, at) && Stranded(e, k) && SlotFree(e) && at < until
    ensures leads(a, at) && Revived(a, k + 1, t, until) && SameCapacities(a, e)
  {
    FewInbound(e, {1});
    a, t := Arrives(leads, n, e, at, RequestFrom(k, 1, at, until));
    JoinedIsRevived(a, e, RequestFrom(k, 1, at, until), t, k);
  }

  lemma JoinedIsRevived(a: Engine, e: Engine, r: Request, t: P.Ticket, k: nat)
    requires Stranded(e, k) && Joined(a, e, r, t, true) && Unheard(a, k + 1) && r.envelope.operationId == 1
    ensures Revived(a, k + 1, t, r.envelope.expiresAt) && SameCapacities(a, e)
  {
  }

  /** Request 1 arrives, expires by the store's own timer and is purged; its slot is never freed. */
  lemma StrandOne(leads: Places, n: nat, e: Engine, k: nat, at: int) returns (o: Engine)
    requires Closed(leads, n) && leads(e, at) && Stranded(e, k) && k < e.policy.activeCapacity
    ensures leads(o, at + 1 + n) && Stranded(o, k + 1) && SameCapacities(o, e)
  {
    var a, t := Revives(leads, n, e, k, at, at + 1);
    var b := Expired(leads, n, a, at, 1, at + 1);
    o := Purged(leads, n, b, at + 1, 1);
  }

  lemma {:induction false} StrandMany(leads: Places, n: nat, start: Engine, now: int, k: nat)
      returns (o: Engine, at: int)
    requires Closed(leads, n) && leads(start, now) && Stranded(start, 0) && k <= start.policy.activeCapacity
    ensures leads(o, at) && Stranded(o, k) && SameCapacities(o, start)
    decreases k
  {
    if k == 0 {
      o, at := start, now;
    } else {
      var e, before := StrandMany(leads, n, start, now, k - 1);
      o := StrandOne(leads, n, e, k - 1, before);
      at := before + 1 + n;
    }
  }

  /** With one slot lost, the same id takes another slot, or waits beside its own lost record. */
  lemma LeaseLost(leads: Places, n: nat, start: Engine, now: int) returns (o: Engine, at: int)
    requires Closed(leads, n) && leads(start, now) && Stranded(start, 0)
    requires start.policy.queueCapacity > 0 && start.policy.activeCapacity > 0
    ensures leads(o, at) && !OneLeaseEach(o)
  {
    var e;
    e, at := StrandMany(leads, n, start, now, 1);
    FewInbound(e, {1});
    var t;
    o, t := Arrives(leads, n, e, at, RequestFrom(1, 1, at, at + 1));
    TwoRecords(o, e, t);
  }

  lemma TwoRecords(o: Engine, e: Engine, t: P.Ticket)
    requires |e.policy.active| == 1 && AllFor(e.policy.active, 1) && Unheard(e, 1)
    requires TakesIn(o.policy, e.policy, t, SlotFree(e)) && For(t, 1) && t.handle == 1
    requires o.leases.Keys <= {1}
    ensures !OneLeaseEach(o)
  {
    if SlotFree(e) {
      SubsetSize(o.leases.Keys, {1});
    } else {
      var b := o.policy.active[0];
      assert b.ticket in P.Tickets(o.policy.active);
      assert b.ticket in P.Retained(e.policy);
      var all := o.policy.queue + o.policy.active;
      assert o.policy.queue[0] in all && b in all;
    }
  }

  /* ---------- a request that is forgotten ---------- */

  /** Every slot is taken by request 1, the last one by its living task. */
  ghost predicate Full(e: Engine, m: Name, t: P.Ticket, at: int, known: set<Name>) {
    && Unheard(e, m) && !SlotFree(e) && e.policy.queueCapacity > 0 && AllFor(e.policy.active, 1) && HoldsSlot(e, 1, t)
    && e.leases.Keys == {1} && e.inbound.Keys == known && Answerable(e, 1, at)
  }

  /** Request 2 was rejected while it waited and its task is purged, but the delivery of its answer is
      still under way. */
  ghost predicate Crowded(e: Engine, k: nat, t: P.Ticket, at: int) {
    Full(e, k + 2, t, at, {1, 2}) && e.policy.queue == [] && Replied(e.replies, 2) && e.store.tasks.Keys == {1}
  }

  lemma Queues(leads: Places, n: nat, a: Engine, m: Name, t: P.Ticket, at: int, until: int)
    returns (b: Engine, u: P.Ticket)
    requires Closed(leads, n) && leads(a, at) && Full(a, m, t, until - 1, a.inbound.Keys) && a.inbound.Keys <= {1, 2}
    requires at < until
    requires a.policy.queue == [] && a.store.tasks.Keys == {1}
    ensures leads(b, at) && Full(b, m + 1, t, until - 1, {1, 2}) && WaitsAlone(b, 2, u)
    ensures b.store.tasks.Keys == {1, 2} && Answerable(b, 2, until - 1) && b.store.tasks[2].ownership.Inbound?
    ensures b.store.tasks[2].state.Queued? && b.replies == a.replies
  {
    FewInbound(a, {1, 2});
    b, u := Arrives(leads, n, a, at, RequestFrom(m, 2, at, until));
    JoinedIsWaiting(b, a, RequestFrom(m, 2, at, until), u, t, m);
  }

  lemma JoinedIsWaiting(b: Engine, a: Engine, r: Request, u: P.Ticket, t: P.Ticket, m: Name)
    requires Joined(b, a, r, u, false) && r.envelope.operationId == 2 && Unheard(b, m + 1)
    requires Full(a, m, t, r.envelope.expiresAt - 1, a.inbound.Keys) && 1 in a.inbound && a.inbound.Keys <= {1, 2}
    requires a.store.tasks.Keys == {1}
    ensures Full(b, m + 1, t, r.envelope.expiresAt - 1, {1, 2}) && WaitsAlone(b, 2, u)
    ensures b.store.tasks.Keys == {1, 2} && Answerable(b, 2, r.envelope.expiresAt - 1)
  {
    NotForTwo(a.policy.active);
  }

  lemma NotForTwo(rs: seq<P.QueueRecord>)
    requires AllFor(rs, 1)
    ensures Absent(P.Tickets(rs), 2)
  {
    forall t | t in P.Tickets(rs) ensures !For(t, 2) {
      assert For(t, 1);
    }
  }

  lemma Crowds(leads: Places, n: nat, e: Engine, k: nat, at: int) returns (o: Engine, t: P.Ticket)
    requires Closed(leads, n) && leads(e, at) && Stranded(e, k) && e.policy.activeCapacity == k + 1
    requires e.policy.queueCapacity > 0
    ensures leads(o, at + n) && Crowded(o, k, t, at + n)
  {
    var a;
    a, t := Revives(leads, n, e, k, at, at + n + 1);
    var b, u := Queues(leads, n, a, k + 1, t, at, at + n + 1);
    var c := Refuses(leads, n, b, k + 2, t, u, at, at + n);
    o := Leaves(leads, n, c, k, t, at);
  }

  lemma Leaves(leads: Places, n: nat, c: Engine, k: nat, t: P.Ticket, at: int) returns (o: Engine)
    requires Closed(leads, n) && leads(c, at) && Full(c, k + 2, t, at + n, {1, 2}) && c.policy.queue == []
    requires Replied(c.replies, 2) && c.store.tasks.Keys == {1, 2} && IsTerminal(c.store.tasks[2].state)
    ensures leads(o, at + n) && Crowded(o, k, t, at + n)
  {
    o := Purged(leads, n, c, at, 2);
  }

  lemma Refuses(leads: Places, n: nat, b: Engine, m: Name, t: P.Ticket, u: P.Ticket, at: int, later: int)
    returns (c: Engine)
    requires Closed(leads, n) && leads(b, at) && Full(b, m, t, later, {1, 2}) && WaitsAlone(b, 2, u) && at <= later
    requires b.store.tasks.Keys == {1, 2} && Answerable(b, 2, later)
    ensures leads(c, at) && Full(c, m, t, later, {1, 2}) && c.policy.queue == [] && Replied(c.replies, 2)
    ensures c.store.tasks.Keys == {1, 2} && IsTerminal(c.store.tasks[2].state)
  {
    c := LeavesQueue(leads, n, b, at, 2, u);
    assert c.replies[|b.replies|] in c.replies;
  }

  /** Request 2 is taken again and waits; the old answer's delivery removes its record, and when the slot
      is free the queue throws it out. */
  lemma Forgets(leads: Places, n: nat, e: Engine, k: nat, t: P.Ticket, at: int) returns (o: Engine)
    requires Closed(leads, n) && leads(e, at) && Crowded(e, k, t, at)
    ensures leads(o, at) && !NobodyForgotten(o, at)
  {
    var a, u := Queues(leads, n, e, k + 2, t, at, at + 1);
    var b := Delivered(leads, n, a, at, 2);
    o := Abandons(leads, n, b, t, u, at);
  }

  lemma Abandons(leads: Places, n: nat, b: Engine, t: P.Ticket, u: P.Ticket, at: int) returns (o: Engine)
    requires Closed(leads, n) && leads(b, at) && Answerable(b, 1, at) && HoldsSlot(b, 1, t) && WaitsAlone(b, 2, u)
    requires 2 !in b.inbound
    requires 2 in b.store.tasks && b.store.tasks[2].ownership.Inbound? && b.store.tasks[2].state.Queued?
    requires b.store.tasks[2].deadline > at
    ensures leads(o, at) && !NobodyForgotten(o, at)
  {
    assert P.Tickets(b.policy.queue) == {u};
    o := LeavesSlot(leads, n, b, at, 1, t);
    assert Open(o, at, 2) && !Cared(o, 2);
  }

  lemma RequestForgotten(leads: Places, n: nat, start: Engine, now: int) returns (o: Engine, at: int)
    requires Closed(leads, n) && leads(start, now) && Stranded(start, 0)
    requires start.policy.queueCapacity > 0 && start.policy.activeCapacity > 0
    ensures leads(o, at) && !NobodyForgotten(o, at)
  {
    var k := start.policy.activeCapacity - 1;
    var e, t;
    e, at := StrandMany(leads, n, start, now, k);
    e, t := Crowds(leads, n, e, k, at);
    at := at + n;
    o := Forgets(leads, n, e, k, t, at);
  }

  /* ---------- exactly when ---------- */

  /** A run of a new router leads to this state and time. */
  ghost predicate Leads(start: Engine, now: int, e: Engine, at: int) {
    exists steps :: IsRun(start, steps, now) && Traces.End(start, steps) == e && Traces.EndTime(steps, now) == at
  }

  lemma LeadsOn(start: Engine, now: int, e: Engine, at: int, ev: RouterSpec.Event, later: int, o: Engine)
    requires Leads(start, now, e, at) && Happens(e, at, ev, later, o)
    ensures Leads(start, now, o, later)
  {
    var steps :| IsRun(start, steps, now) && Traces.End(start, steps) == e && Traces.EndTime(steps, now) == at;
    Traces.RunAppend(Follows, start, steps, Traces.Timed(ev, later, o), now);
  }

  /** The places runs of a new router lead to; it starts as a blank one. */
  lemma NewRouter(config: Config, queueCapacity: nat, activeCapacity: nat, n: nat, grace: nat, now: int)
    returns (start: Engine, leads: Places)
    ensures start == Init(config, queueCapacity, activeCapacity, Some(n), grace, now)
    ensures forall e, at :: leads(e, at) <==> Leads(start, now, e, at)
    ensures Closed(leads, n) && leads(start, now)
    ensures Stranded(start, 0) && (activeCapacity > 0 ==> Blank(start, 0))
  {
    start := Init(config, queueCapacity, activeCapacity, Some(n), grace, now);
    leads := (e: Engine, at: int) => Leads(start, now, e, at);
    var none: seq<Timed> := [];
    assert IsRun(start, none, now) && Traces.End(start, none) == start && Traces.EndTime(none, now) == now;
    forall e, at | Leads(start, now, e, at) ensures InService(e, at, Some(n)) {
      var steps :| IsRun(start, steps, now) && Traces.End(start, steps) == e && Traces.EndTime(steps, now) == at;
      ReachedIsInService(e, start, steps, now);
    }
    forall e, at, ev, later, o | Leads(start, now, e, at) && Happens(e, at, ev, later, o)
      ensures Leads(start, now, o, later)
    {
      LeadsOn(start, now, e, at, ev, later, o);
    }
  }

  /** Exactly when terminal tasks are retained without limit, or there is no executor at all, is every request
      executed at most once. */
  lemma AtMostOnceIffRetained(config: Config, queueCapacity: nat, activeCapacity: nat, retention: Option<nat>,
      grace: nat, now: int)
    requires activeCapacity > 0
    ensures var start := Init(config, queueCapacity, activeCapacity, retention, grace, now);
            (forall steps :: IsRun(start, steps, now) ==> NoRepeat(Traces.End(start, steps).executed))
            <==> retention.None? || !config.hasExecutor
  {
    var start := Init(config, queueCapacity, activeCapacity, retention, grace, now);
    if retention.None? || !config.hasExecutor {
      forall steps | IsRun(start, steps, now) ensures NoRepeat(Traces.End(start, steps).executed) {
        if retention.None? {
          ExecutedAtMostOnce(Traces.End(start, steps), start, steps, now);
        } else {
          RunMoves(start, steps, now);
        }
      }
    } else {
      var router, leads := NewRouter(config, queueCapacity, activeCapacity, retention.value, grace, now);
      var o, at := ServedTwice(leads, retention.value, router, now);
      var steps :| IsRun(start, steps, now) && Traces.End(start, steps) == o && Traces.EndTime(steps, now) == at;
      assert !NoRepeat(Traces.End(start, steps).executed);
    }
  }

  /** Exactly with that retention is every request answered at most once, with what the store holds. */
  lemma AnsweredOnceIffRetained(config: Config, queueCapacity: nat, activeCapacity: nat, retention: Option<nat>,
      grace: nat, now: int)
    requires activeCapacity > 0
    ensures var start := Init(config, queueCapacity, activeCapacity, retention, grace, now);
            (forall steps :: IsRun(start, steps, now) ==> AnsweredOnce(Traces.End(start, steps))) <==> retention.None?
  {
    var start := Init(config, queueCapacity, activeCapacity, retention, grace, now);
    if retention.None? {
      forall steps | IsRun(start, steps, now) ensures AnsweredOnce(Traces.End(start, steps)) {
        AnsweredAtMostOnce(Traces.End(start, steps), start, steps, now);
      }
    } else {
      var router, leads := NewRouter(config, queueCapacity, activeCapacity, retention.value, grace, now);
      var o, at := ServedTwice(leads, retention.value, router, now);
      var steps :| IsRun(start, steps, now) && Traces.End(start, steps) == o && Traces.EndTime(steps, now) == at;
      assert !AnsweredOnce(Traces.End(start, steps));
    }
  }

  /** Exactly with that retention are the leases the active set, one for one, and no request has two records. */
  lemma OneLeaseEachIffRetained(config: Config, queueCapacity: nat, activeCapacity: nat, retention: Option<nat>,
      grace: nat, now: int)
    requires queueCapacity > 0 && activeCapacity > 0
    ensures var start := Init(config, queueCapacity, activeCapacity, retention, grace, now);
            (forall steps :: IsRun(start, steps, now) ==> OneLeaseEach(Traces.End(start, steps))) <==> retention.None?
  {
    var start := Init(config, queueCapacity, activeCapacity, retention, grace, now);
    if retention.None? {
      forall steps | IsRun(start, steps, now) ensures OneLeaseEach(Traces.End(start, steps)) {
        LeasesAreTheActiveSet(Traces.End(start, steps), start, steps, now);
      }
    } else {
      var router, leads := NewRouter(config, queueCapacity, activeCapacity, retention.value, grace, now);
      var o, at := LeaseLost(leads, retention.value, router, now);
      var steps :| IsRun(start, steps, now) && Traces.End(start, steps) == o && Traces.EndTime(steps, now) == at;
      assert !OneLeaseEach(Traces.End(start, steps));
    }
  }

  /** Exactly with that retention is every open request leased or queued until its deadline. */
  lemma NobodyForgottenIffRetained(config: Config, queueCapacity: nat, activeCapacity: nat, retention: Option<nat>,
      grace: nat, now: int)
    requires queueCapacity > 0 && activeCapacity > 0
    ensures var start := Init(config, queueCapacity, activeCapacity, retention, grace, now);
            (forall steps :: IsRun(start, steps, now) ==>
               NobodyForgotten(Traces.End(start, steps), Traces.EndTime(steps, now)))
            <==> retention.None?
  {
    var start := Init(config, queueCapacity, activeCapacity, retention, grace, now);
    if retention.None? {
      forall steps | IsRun(start, steps, now)
        ensures NobodyForgotten(Traces.End(start, steps), Traces.EndTime(steps, now))
      {
        NobodyIsForgotten(Traces.End(start, steps), start, steps, now);
      }
    } else {
      var router, leads := NewRouter(config, queueCapacity, activeCapacity, retention.value, grace, now);
      var o, at := RequestForgotten(leads, retention.value, router, now);
      var steps :| IsRun(start, steps, now) && Traces.End(start, steps) == o && Traces.EndTime(steps, now) == at;
      assert !NobodyForgotten(Traces.End(start, steps), Traces.EndTime(steps, now));
    }
  }
}
