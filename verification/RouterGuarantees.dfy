/** What every run of the router guarantees, from its creation on. */
module RouterGuarantees {
  import opened TaskStates
  import opened TaskStoreSpec
  import opened RouterSpec
  import opened RouterInv
  import opened RouterSteps
  import opened RouterService
  import opened PolicyShapes
  import P = PolicySpec
  import R = PolicyRuns
  import D = DedupeSpec
  import Traces

  /** A router as it is created, with any capacities and any retention of terminal tasks, and a run of it. */
  ghost predicate Reaches(o: Engine, start: Engine, steps: seq<Timed>, now: int) {
    && IsInitial(start, now)
    && IsRun(start, steps, now)
    && o == Traces.End(start, steps)
  }

  ghost predicate IsInitial(start: Engine, now: int) {
    exists config, queueCapacity: nat, activeCapacity: nat, retention, grace: nat ::
      start == Init(config, queueCapacity, activeCapacity, retention, grace, now)
  }

  /** With no retention limit, terminal tasks stay known. */
  ghost predicate Retains(start: Engine) {
    start.store.retention.None?
  }

  lemma ReachedIsInService(o: Engine, start: Engine, steps: seq<Timed>, now: int)
    requires Reaches(o, start, steps, now)
    ensures InService(o, Traces.EndTime(steps, now), start.store.retention)
  {
    var config, queueCapacity: nat, activeCapacity: nat, retention, grace: nat :|
      start == Init(config, queueCapacity, activeCapacity, retention, grace, now);
    InitServes(config, queueCapacity, activeCapacity, retention, grace, now);
    RunServes(start, steps, now, retention);
  }

  ghost predicate SettledForGood(e: Engine, now: int) {
    Settled(e, now) && InService(e, now, None)
  }

  lemma ReachedIsSettled(o: Engine, start: Engine, steps: seq<Timed>, now: int)
    requires Reaches(o, start, steps, now) && Retains(start)
    ensures Settled(o, Traces.EndTime(steps, now))
  {
    var config, queueCapacity: nat, activeCapacity: nat, retention, grace: nat :|
      start == Init(config, queueCapacity, activeCapacity, retention, grace, now);
    InitEngine(config, queueCapacity, activeCapacity, retention, grace, now);
    InitServes(config, queueCapacity, activeCapacity, retention, grace, now);
    forall u, at, t | SettledForGood(u, at) && Follows(u, at, t) ensures SettledForGood(t.after, t.now) {
      StepEngine(u, t.event, at, t.now);
      StepServes(u, t.event, t.now, None);
    }
    Traces.RunsKeep(Follows, SettledForGood, start, steps, now);
  }

  ghost predicate NoRepeat<T>(s: seq<T>) {
    forall i, j | 0 <= i < j < |s| :: s[i] != s[j]
  }

  /** Whatever arrives again, from whomever, in whatever order: no request is executed twice, and the
      task of one that was executed has moved past waiting for good. */
  lemma ExecutedAtMostOnce(o: Engine, start: Engine, steps: seq<Timed>, now: int)
    requires Reaches(o, start, steps, now) && Retains(start)
    ensures NoRepeat(o.executed)
    ensures forall id | id in o.executed ::
              id in o.store.tasks && o.store.tasks[id].state !in {Created, Accepted, Queued}
  {
    ReachedIsSettled(o, start, steps, now);
    forall id | id in o.executed
      ensures id in o.store.tasks && o.store.tasks[id].state !in {Created, Accepted, Queued}
    {
      assert Handed(o.store.tasks, id);
    }
  }

  /** Leases were granted in the order their requests arrived, and whoever still waits arrived after
      everyone who was granted one; nobody waits while a slot is free. */
  lemma FirstComeFirstServed(o: Engine, start: Engine, steps: seq<Timed>, now: int)
    requires Reaches(o, start, steps, now)
    ensures forall i, j | 0 <= i < j < |o.grants| :: o.grants[i].token < o.grants[j].token
    ensures forall i, r | 0 <= i < |o.grants| && r in o.policy.queue :: o.grants[i].token < r.ticket.token
    ensures o.policy.queue != [] ==> |o.policy.active| == o.policy.activeCapacity
  {
    ReachedIsInService(o, start, steps, now);
    forall i, r | 0 <= i < |o.grants| && r in o.policy.queue ensures o.grants[i].token < r.ticket.token {
      assert r.ticket in P.Tickets(o.policy.queue);
    }
  }

  /** The request ids of some records. */
  function IdsOf(rs: seq<P.QueueRecord>): set<Name> {
    if rs == [] then {}
    else IdsOf(rs[1..]) + (match rs[0].ticket.entry.requestId case Some(id) => {id} case None => {})
  }

  lemma {:induction false} IdsAreRequests(rs: seq<P.QueueRecord>)
    ensures forall id :: id in IdsOf(rs) <==> exists r :: r in rs && For(r.ticket, id)
    ensures |IdsOf(rs)| <= |rs|
  {
    if rs != [] {
      IdsAreRequests(rs[1..]);
      forall id ensures id in IdsOf(rs) <==> exists r :: r in rs && For(r.ticket, id) {
        if r :| r in rs && For(r.ticket, id) {
          assert r == rs[0] || r in rs[1..];
        }
        if id in IdsOf(rs[1..]) {
          var r :| r in rs[1..] && For(r.ticket, id);
          assert r in rs;
        }
        if For(rs[0].ticket, id) {
          assert rs[0] in rs;
        }
      }
    }
  }

  lemma {:induction false} AsManyIdsAsRecords(rs: seq<P.QueueRecord>)
    requires forall r | r in rs :: r.ticket.entry.requestId.Some?
    requires forall i, j | 0 <= i < j < |rs| :: rs[i].ticket.entry.requestId != rs[j].ticket.entry.requestId
    ensures |IdsOf(rs)| == |rs|
  {
    if rs != [] {
      var id := rs[0].ticket.entry.requestId.value;
      AsManyIdsAsRecords(rs[1..]);
      IdsAreRequests(rs[1..]);
      forall r | r in rs[1..] ensures !For(r.ticket, id) {
        var j :| 0 <= j < |rs[1..]| && rs[1..][j] == r;
        assert rs[j + 1] == r;
      }
      assert id !in IdsOf(rs[1..]);
    }
  }

  /** The leases of the router are the active set of its policy, one for one; every lease belongs to a
      known request; no request has two records, in the queue or among the active. */
  ghost predicate OneLeaseEach(o: Engine) {
    var all := o.policy.queue + o.policy.active;
    && o.leases.Keys == IdsOf(o.policy.active) && |o.leases| == |o.policy.active| <= o.policy.activeCapacity
    && (forall r | r in o.policy.active ::
          r.ticket.entry.requestId.Some? && r.ticket.entry.requestId.value in o.leases
          && o.leases[r.ticket.entry.requestId.value] == P.LeaseOf(r.ticket))
    && o.leases.Keys <= o.inbound.Keys
    && (forall a, b | a in all && b in all && a.ticket.entry.requestId == b.ticket.entry.requestId :: a == b)
  }

  lemma LeasesAreTheActiveSet(o: Engine, start: Engine, steps: seq<Timed>, now: int)
    requires Reaches(o, start, steps, now) && Retains(start)
    ensures OneLeaseEach(o)
  {
    ReachedIsSettled(o, start, steps, now);
    LeasesMatch(o, Traces.EndTime(steps, now));
    OneRecordEach(o, Traces.EndTime(steps, now));
  }

  lemma LeasesMatch(o: Engine, now: int)
    requires Settled(o, now)
    ensures o.leases.Keys == IdsOf(o.policy.active) && o.leases.Keys <= o.inbound.Keys
    ensures forall r | r in o.policy.active ::
              r.ticket.entry.requestId.Some? && r.ticket.entry.requestId.value in o.leases
                  && o.leases[r.ticket.entry.requestId.value] == P.LeaseOf(r.ticket)
  {
    var a := P.Tickets(o.policy.active);
    IdsAreRequests(o.policy.active);
    forall r | r in o.policy.active ensures LeasedOk(o.store.tasks, o.inbound, o.leases, r.ticket) {
      assert r.ticket in a;
    }
    forall id | id in o.leases ensures id in IdsOf(o.policy.active) && id in o.inbound {
      assert LeaseHeld(o.leases, a, id);
      var t :| t in a && For(t, id);
      var r :| r in o.policy.active && r.ticket == t;
      assert LeasedOk(o.store.tasks, o.inbound, o.leases, t);
    }
    forall id | id in IdsOf(o.policy.active) ensures id in o.leases {
      var r :| r in o.policy.active && For(r.ticket, id);
    }
  }

  lemma OneRecordEach(o: Engine, now: int)
    requires Settled(o, now)
    ensures |IdsOf(o.policy.active)| == |o.policy.active| <= o.policy.activeCapacity
    ensures forall a, b | a in o.policy.queue + o.policy.active && b in o.policy.queue + o.policy.active
        && a.ticket.entry.requestId == b.ticket.entry.requestId :: a == b
  {
    var all := o.policy.queue + o.policy.active;
    forall a, b | a in all && b in all && a.ticket.entry.requestId == b.ticket.entry.requestId ensures a == b {
      assert a.ticket in P.Retained(o.policy) && b.ticket in P.Retained(o.policy);
      assert SameRequest(a.ticket, b.ticket);
      SameTicketSameRecord(o.policy, a, b);
    }
    forall r | r in o.policy.active ensures r.ticket.entry.requestId.Some? {
      assert r.ticket in P.Tickets(o.policy.active);
      assert LeasedOk(o.store.tasks, o.inbound, o.leases, r.ticket);
    }
    var rs := o.policy.active;
    forall i, j | 0 <= i < j < |rs| ensures rs[i].ticket.entry.requestId != rs[j].ticket.entry.requestId {
      assert rs[i] in all && rs[j] in all;
      assert R.Distinct(rs);
      R.DistinctAt(rs, i, j);
    }
    AsManyIdsAsRecords(rs);
  }

  lemma SameTicketSameRecord(p: P.PolicyState, a: P.QueueRecord, b: P.QueueRecord)
    requires R.Inv(p) && a in p.queue + p.active && b in p.queue + p.active && a.ticket == b.ticket
    ensures a == b
  {
    R.InvFacts(p);
    if a in p.queue {
      R.SameToken(p.queue, a);
    } else {
      R.SameTokenDistinct(p.active, a);
    }
  }

  /** No more requests are being worked on than the policy has slots. */
  lemma RunningWithinCapacity(o: Engine, start: Engine, steps: seq<Timed>, now: int)
    requires Reaches(o, start, steps, now)
    ensures |Running(o.store.tasks)| <= o.policy.activeCapacity
  {
    ReachedIsInService(o, start, steps, now);
    IdsAreRequests(o.policy.active);
    forall id | id in Running(o.store.tasks) ensures id in IdsOf(o.policy.active) {
      var t :| t in P.Tickets(o.policy.active) && For(t, id);
      var r :| r in o.policy.active && r.ticket == t;
    }
    SubsetSize(Running(o.store.tasks), IdsOf(o.policy.active));
  }

  lemma {:induction false} SubsetSize<T>(a: set<T>, b: set<T>)
    requires a <= b
    ensures |a| <= |b|
    decreases a
  {
    if x :| x in a {
      SubsetSize(a - {x}, b - {x});
    }
  }

  /** The request has a lease, or its task is queued and so is one of its records. */
  ghost predicate Cared(o: Engine, id: Name) {
    id in o.leases
    || (id in o.store.tasks && o.store.tasks[id].state.Queued? && exists r :: r in o.policy.queue && For(r.ticket, id))
  }

  /** A request that was taken and whose time has not run out. */
  ghost predicate Open(o: Engine, now: int, id: Name) {
    && id in o.store.tasks && o.store.tasks[id].ownership.Inbound?
    && !IsTerminal(o.store.tasks[id].state) && o.store.tasks[id].deadline > now
  }

  ghost predicate NobodyForgotten(o: Engine, now: int) {
    forall id {:trigger Open(o, now, id)} :: Open(o, now, id) ==> Cared(o, id)
  }

  /** Every open request is held by a lease or waits in the queue. */
  lemma NobodyIsForgotten(o: Engine, start: Engine, steps: seq<Timed>, now: int)
    requires Reaches(o, start, steps, now) && Retains(start)
    ensures NobodyForgotten(o, Traces.EndTime(steps, now))
  {
    var at := Traces.EndTime(steps, now);
    ReachedIsSettled(o, start, steps, now);
    forall id | Open(o, at, id) ensures Cared(o, id) {
      OpenIsHeld(o.store.tasks, o.inbound, o.leases, P.Tickets(o.policy.queue), P.Tickets(o.policy.active), at, id);
      if id !in o.leases {
        TicketInQueue(o.policy.queue, id);
      }
    }
  }

  lemma OpenIsHeld(tasks: Tasks, inbound: Inbounds, leases: Leases, q: set<P.Ticket>, a: set<P.Ticket>, now: int,
      id: Name)
    requires Body(tasks, inbound, leases, q, a, now, None)
    requires id in tasks && tasks[id].ownership.Inbound? && !IsTerminal(tasks[id].state) && tasks[id].deadline > now
    ensures id in leases || (tasks[id].state.Queued? && !Absent(q, id))
  {
    assert TaskOk(id, tasks[id], leases, q, now);
  }

  lemma TicketInQueue(rs: seq<P.QueueRecord>, id: Name)
    requires !Absent(P.Tickets(rs), id)
    ensures exists r :: r in rs && For(r.ticket, id)
  {
    var t :| t in P.Tickets(rs) && For(t, id);
    var r :| r in rs && r.ticket == t;
  }

  /** What a reply says of a finished task: its state, and with it the content of a completed task, the empty
      text (content 0) when none is stored, or the error of any other, the one its state stands for when none
      is stored. */
  ghost predicate Tells(r: Reply, t: Task) {
    && IsTerminal(t.state) && r.outcome == t.state
    && (t.state == Completed ==>
          && r.error == None
          && (t.content.Some? ==> r.content == t.content)
          && (t.content.None? ==> r.content == Some(0)))
    && (t.state != Completed ==>
          && r.content == None
          && (t.error.Some? ==> r.error == t.error)
          && (t.error.None? && t.state == Failed ==> r.error == Some(Internal))
          && (t.error.None? && t.state == Rejected ==> r.error == Some(Malformed))
          && (t.error.None? && t.state == Cancelled ==> r.error == Some(CancelledError))
          && (t.error.None? && t.state == Expired ==> r.error == Some(ExpiredError)))
  }

  lemma TerminalReplyTells(id: Name, recipient: Name, t: Task)
    requires IsTerminal(t.state)
    ensures var r := TerminalReply(id, recipient, t);
            r.requestId == id && r.recipient == recipient && Tells(r, t)
  {
  }

  /** No request is answered twice and no completion resolved twice; what is sent and what is resolved
      is the terminal state the store holds. */
  ghost predicate AnsweredOnce(o: Engine) {
    && (forall i, j | 0 <= i < j < |o.replies| :: o.replies[i].requestId != o.replies[j].requestId)
    && (forall r | r in o.replies :: r.requestId in o.store.tasks && Tells(r, o.store.tasks[r.requestId]))
    && NoRepeat(o.completed)
    && (forall id | id in o.completed ::
          id in o.store.tasks && id in o.outbound && o.outbound[id].terminal == Some(o.store.tasks[id]))
  }

  lemma AnsweredAtMostOnce(o: Engine, start: Engine, steps: seq<Timed>, now: int)
    requires Reaches(o, start, steps, now) && Retains(start)
    ensures AnsweredOnce(o)
  {
    ReachedIsSettled(o, start, steps, now);
    forall r | r in o.replies ensures r.requestId in o.store.tasks && Tells(r, o.store.tasks[r.requestId]) {
      assert Answered(o.store.tasks, o.inbound, r);
      TerminalReplyTells(r.requestId, r.recipient, o.store.tasks[r.requestId]);
    }
    forall id | id in o.completed
      ensures id in o.store.tasks && id in o.outbound && o.outbound[id].terminal == Some(o.store.tasks[id])
    {
      assert Resolved(o.store.tasks, o.outbound, id);
    }
  }

  /** Every error answer to a request leaves tasks, leases, inbound records and logs as they were, the
      dedupe store merely pruned, and the queue and the active set without what ran out meanwhile. */
  lemma FailedAdmissionLeavesNoTrace(o: Engine, start: Engine, steps: seq<Timed>, now: int, r: Request, handle: Name,
      later: int)
    requires Reaches(o, start, steps, now) && Traces.EndTime(steps, now) <= later && Arrivable(o, r, handle, later)
    requires ProcessRequest(o, r, handle, later).1.Failure?
    ensures var id := r.envelope.operationId;
            var f := ProcessRequest(o, r, handle, later).0;
            && f == o.(dedupe := D.Prune(o.dedupe, later), store := f.store, policy := f.policy)
            && (f.store == o.store || f.store == ExpireIfDue(o.store, id, Tick(later)))
            && (f.policy.queue == o.policy.queue
                || f.policy.queue == P.Keep(o.policy.queue, later, CancelProbe(f.store.tasks)))
            && P.Tickets(f.policy.active) == P.Tickets(o.policy.active) && |f.policy.active| == |o.policy.active|
  {
    var id := r.envelope.operationId;
    ReachedIsInService(o, start, steps, now);
    RequestOutcomes(o, r, handle, later);
    var g := o.(dedupe := D.Prune(o.dedupe, later), store := ExpireIfDue(o.store, id, Tick(later)));
    ExpireShape(g.policy, At(g, later));
  }
}
