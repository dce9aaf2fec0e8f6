/** The joint invariant of the router's stores: what a queue entry, a lease, an inbound record and a task
    say about each other. Stated over the four maps and the two ticket sets, so that a step that
    leaves a part alone has nothing to show for it. */
module RouterInv {
  import opened TaskStates
  import opened TaskStoreSpec
  import opened RouterSpec
  import opened PolicyShapes
  import P = PolicySpec
  import R = PolicyRuns

  type Tasks = map<Name, Task>
  type Inbounds = map<Name, InboundRecord>
  type Leases = map<Name, P.Lease>
  type Outbounds = map<Name, OutboundRecord>

  ghost predicate For(t: P.Ticket, id: Name) {
    t.entry.requestId == Some(id)
  }

  ghost predicate Absent(ts: set<P.Ticket>, id: Name) {
    forall t | t in ts :: !For(t, id)
  }

  /** A retained ticket stands for an inbound request whose task runs out when the entry does. */
  ghost predicate TicketOk(tasks: Tasks, inbound: Inbounds, t: P.Ticket) {
    && t.entry.requestId.Some?
    && t.entry.runnable && !t.entry.cancelled && !t.entry.aborted
    && t.entry.state in {P.OfTask(Accepted), P.OfTask(Queued)}
    && var id := t.entry.requestId.value;
       && id in inbound && id in tasks && tasks[id].ownership.Inbound? && tasks[id].deadline == t.entry.expiresAt
  }

  /** A queued ticket's task is queued, or ran out unnoticed; `hole` is a request being finished. */
  ghost predicate QueuedOk(tasks: Tasks, inbound: Inbounds, now: int, hole: Option<Name>, t: P.Ticket) {
    && TicketOk(tasks, inbound, t)
    && var id := t.entry.requestId.value;
       hole == Some(id) || tasks[id].state.Queued? || (tasks[id].state.Expired? && tasks[id].deadline <= now)
  }

  ghost predicate LeasedOk(tasks: Tasks, inbound: Inbounds, leases: Leases, t: P.Ticket) {
    && TicketOk(tasks, inbound, t)
    && var id := t.entry.requestId.value;
       id in leases && leases[id] == P.LeaseOf(t)
  }

  ghost predicate LeaseHeld(leases: Leases, a: set<P.Ticket>, id: Name) {
    id in leases ==> exists t :: t in a && For(t, id) && leases[id] == P.LeaseOf(t)
  }

  ghost predicate InboundOk(tasks: Tasks, q: set<P.Ticket>, a: set<P.Ticket>, id: Name, r: InboundRecord) {
    && id in tasks && tasks[id].ownership.Inbound?
    && (r.terminalSent ==> Absent(q, id) && Absent(a, id))
  }

  /** Whoever may be executing holds a lease; whoever waits is queued, leased or out of time. */
  ghost predicate TaskOk(id: Name, t: Task, leases: Leases, q: set<P.Ticket>, now: int) {
    t.ownership.Inbound? ==>
      && !t.state.Created?
      && (t.state in {Accepted, Working, Cancelling} ==> id in leases)
      && (t.state.Queued? ==> id in leases || !Absent(q, id) || t.deadline <= now)
  }

  ghost predicate RequestsName(ts: set<P.Ticket>) {
    forall a, b {:trigger SameRequest(a, b)} :: a in ts && b in ts && SameRequest(a, b) ==> a == b
  }

  ghost predicate SameRequest(a: P.Ticket, b: P.Ticket) {
    a.entry.requestId == b.entry.requestId
  }

  ghost predicate Body(tasks: Tasks, inbound: Inbounds, leases: Leases, q: set<P.Ticket>, a: set<P.Ticket>, now: int,
      hole: Option<Name>) {
    && (forall t {:trigger QueuedOk(tasks, inbound, now, hole, t)} :: t in q ==> QueuedOk(tasks, inbound, now, hole, t))
    && (forall t {:trigger LeasedOk(tasks, inbound, leases, t)} :: t in a ==> LeasedOk(tasks, inbound, leases, t))
    && (forall id {:trigger LeaseHeld(leases, a, id)} :: LeaseHeld(leases, a, id))
    && (forall id {:trigger InboundOk(tasks, q, a, id, inbound[id])} ::
          id in inbound ==> InboundOk(tasks, q, a, id, inbound[id]))
    && (forall id {:trigger TaskOk(id, tasks[id], leases, q, now)} ::
          id in tasks ==> TaskOk(id, tasks[id], leases, q, now))
    && RequestsName(q + a) && q !! a
    && (hole.Some? ==> hole.value in tasks && IsTerminal(tasks[hole.value].state))
  }

  /** Each request was handed over once, and its task has moved past waiting for good. */
  ghost predicate Handed(tasks: Tasks, id: Name) {
    id in tasks && tasks[id].ownership.Inbound? && tasks[id].state !in {Created, Accepted, Queued}
  }

  ghost predicate ExecutedOk(tasks: Tasks, executed: seq<Name>) {
    && (forall i, j | 0 <= i < j < |executed| :: executed[i] != executed[j])
    && (forall id {:trigger Handed(tasks, id)} :: id in executed ==> Handed(tasks, id))
  }

  /** Leases were granted in arrival order, and everyone granted arrived before everyone waiting. */
  ghost predicate GrantsOk(grants: seq<Grant>, q: set<P.Ticket>, nextToken: nat) {
    && (forall i, j | 0 <= i < j < |grants| :: grants[i].token < grants[j].token)
    && (forall i, t | 0 <= i < |grants| && t in q :: grants[i].token < t.token)
    && (forall i | 0 <= i < |grants| :: grants[i].token < nextToken)
  }

  /** The reply says what the store says, and nothing is left to send. */
  ghost predicate Answered(tasks: Tasks, inbound: Inbounds, r: Reply) {
    && r.requestId in tasks && IsTerminal(tasks[r.requestId].state)
    && r == TerminalReply(r.requestId, r.recipient, tasks[r.requestId])
    && (r.requestId in inbound ==> inbound[r.requestId].terminalSent)
  }

  /** The outbound completion that was resolved carries the stored task. */
  ghost predicate Resolved(tasks: Tasks, outbound: Outbounds, id: Name) {
    && id in tasks && IsTerminal(tasks[id].state)
    && id in outbound && outbound[id].terminal == Some(tasks[id])
  }

  /** One reply for each request, one completion for each outbound request. */
  ghost predicate LogsOk(tasks: Tasks, inbound: Inbounds, outbound: Outbounds, replies: seq<Reply>,
      completed: seq<Name>) {
    && (forall i, j | 0 <= i < j < |replies| :: replies[i].requestId != replies[j].requestId)
    && (forall r {:trigger Answered(tasks, inbound, r)} :: r in replies ==> Answered(tasks, inbound, r))
    && (forall i, j | 0 <= i < j < |completed| :: completed[i] != completed[j])
    && (forall id {:trigger Resolved(tasks, outbound, id)} :: id in completed ==> Resolved(tasks, outbound, id))
  }

  ghost predicate PolicyOk(p: P.PolicyState, now: int) {
    R.Inv(p) && p.lastNow <= now && HandlesName(P.Retained(p))
  }

  ghost predicate EngineInv(e: Engine, now: int, hole: Option<Name>) {
    && PolicyOk(e.policy, now)
    && Body(e.store.tasks, e.inbound, e.leases, P.Tickets(e.policy.queue), P.Tickets(e.policy.active), now, hole)
    && ExecutedOk(e.store.tasks, e.executed)
    && GrantsOk(e.grants, P.Tickets(e.policy.queue), e.policy.nextToken)
    && LogsOk(e.store.tasks, e.inbound, e.outbound, e.replies, e.completed)
  }

  /** Terminal tasks stay as they are. */
  ghost predicate TerminalsKept(tasks: Tasks, tasks': Tasks) {
    forall id {:trigger KeptTask(tasks, tasks', id)} :: id in tasks ==> KeptTask(tasks, tasks', id)
  }

  ghost predicate KeptTask(tasks: Tasks, tasks': Tasks, id: Name) {
    id in tasks && IsTerminal(tasks[id].state) ==> id in tasks' && tasks'[id] == tasks[id]
  }

  /** Work conservation: nobody waits while a slot is free. */
  ghost predicate Conserving(p: P.PolicyState) {
    p.queue != [] ==> |p.active| >= p.activeCapacity
  }

  /* ---------- changes to the body ---------- */

  lemma BodyLater(tasks: Tasks, inbound: Inbounds, leases: Leases, q: set<P.Ticket>, a: set<P.Ticket>, now: int,
      hole: Option<Name>, later: int)
    requires Body(tasks, inbound, leases, q, a, now, hole) && now <= later
    ensures Body(tasks, inbound, leases, q, a, later, hole)
  {
    forall t | t in q ensures QueuedOk(tasks, inbound, later, hole, t) {
      assert QueuedOk(tasks, inbound, now, hole, t);
    }
    forall id | id in tasks ensures TaskOk(id, tasks[id], leases, q, later) {
      assert TaskOk(id, tasks[id], leases, q, now);
    }
  }

  /** Dropping from the queue what can no longer run. */
  lemma BodyExpire(tasks: Tasks, inbound: Inbounds, leases: Leases, q: set<P.Ticket>, a: set<P.Ticket>, now: int,
      hole: Option<Name>, q': set<P.Ticket>)
    requires Body(tasks, inbound, leases, q, a, now, hole)
    requires q' == set t | t in q && Runs(t, P.Reading(now, CancelProbe(tasks)))
    ensures Body(tasks, inbound, leases, q', a, now, hole)
  {
    forall t | t in q' ensures QueuedOk(tasks, inbound, now, hole, t) {
    }
    forall id | id in inbound ensures InboundOk(tasks, q', a, id, inbound[id]) {
      assert InboundOk(tasks, q, a, id, inbound[id]);
    }
    forall id | id in tasks ensures TaskOk(id, tasks[id], leases, q', now) {
      assert TaskOk(id, tasks[id], leases, q, now);
      if tasks[id].ownership.Inbound? && tasks[id].state.Queued? && id !in leases && !Absent(q, id) {
        var t :| t in q && For(t, id);
        assert QueuedOk(tasks, inbound, now, hole, t);
        assert t in q' || tasks[id].deadline <= now;
      }
    }
    forall x, y | x in q' + a && y in q' + a && SameRequest(x, y) ensures x == y {
      assert x in q + a && y in q + a;
    }
  }

  /** Handing a queued ticket a lease. */
  lemma BodyGrant(tasks: Tasks, inbound: Inbounds, leases: Leases, q: set<P.Ticket>, a: set<P.Ticket>, now: int,
      hole: Option<Name>, t: P.Ticket, id: Name)
    requires Body(tasks, inbound, leases, q, a, now, hole)
    requires t in q && For(t, id)
    ensures Body(tasks, inbound, leases[id := P.LeaseOf(t)], q - {t}, a + {t}, now, hole)
  {
    var leases', q', a' := leases[id := P.LeaseOf(t)], q - {t}, a + {t};
    assert q' + a' == q + a;
    assert QueuedOk(tasks, inbound, now, hole, t);
    forall u | u in q' ensures QueuedOk(tasks, inbound, now, hole, u) {
    }
    forall u | u in a' ensures LeasedOk(tasks, inbound, leases', u) {
      if u != t {
        assert LeasedOk(tasks, inbound, leases, u);
        assert SameRequest(u, t) ==> u == t;
      }
    }
    forall k ensures LeaseHeld(leases', a', k) {
      assert LeaseHeld(leases, a, k);
      if k == id {
        assert t in a' && For(t, id);
      } else if k in leases {
        var u :| u in a && For(u, k) && leases[k] == P.LeaseOf(u);
        assert u in a';
      }
    }
    forall k | k in inbound ensures InboundOk(tasks, q', a', k, inbound[k]) {
      assert InboundOk(tasks, q, a, k, inbound[k]);
    }
    forall k | k in tasks ensures TaskOk(k, tasks[k], leases', q', now) {
      assert TaskOk(k, tasks[k], leases, q, now);
      if k != id && !Absent(q, k) {
        var u :| u in q && For(u, k);
        assert u in q';
      }
    }
  }

  /** Taking every ticket of a finished request away, lease and queue place alike. */
  lemma BodyVacate(tasks: Tasks, inbound: Inbounds, leases: Leases, q: set<P.Ticket>, a: set<P.Ticket>, now: int,
      hole: Option<Name>, id: Name,
                   q': set<P.Ticket>, a': set<P.Ticket>)
    requires Body(tasks, inbound, leases, q, a, now, hole)
    requires hole == None || hole == Some(id)
    requires id in tasks && IsTerminal(tasks[id].state)
    requires q' == set t | t in q && !For(t, id)
    requires a' == set t | t in a && !For(t, id)
    ensures Body(tasks, inbound, leases - {id}, q', a', now, None)
    ensures Absent(q', id) && Absent(a', id)
  {
    var leases' := leases - {id};
    forall t | t in q' ensures QueuedOk(tasks, inbound, now, None, t) {
      assert QueuedOk(tasks, inbound, now, hole, t);
    }
    forall t | t in a' ensures LeasedOk(tasks, inbound, leases', t) {
      assert LeasedOk(tasks, inbound, leases, t);
    }
    forall k ensures LeaseHeld(leases', a', k) {
      assert LeaseHeld(leases, a, k);
      if k in leases' {
        var t :| t in a && For(t, k) && leases[k] == P.LeaseOf(t);
        assert t in a';
      }
    }
    forall k | k in inbound ensures InboundOk(tasks, q', a', k, inbound[k]) {
      assert InboundOk(tasks, q, a, k, inbound[k]);
    }
    forall k | k in tasks ensures TaskOk(k, tasks[k], leases', q', now) {
      assert TaskOk(k, tasks[k], leases, q, now);
      if k != id && !Absent(q, k) {
        var t :| t in q && For(t, k);
        assert t in q';
      }
    }
    forall x, y | x in q' + a' && y in q' + a' && SameRequest(x, y) ensures x == y {
      assert x in q + a && y in q + a;
    }
  }

  /** What a change to one task must respect. */
  ghost predicate TaskChangeOk(id: Name, t: Task, u: Task, leases: Leases, q: set<P.Ticket>, now: int,
      hole: Option<Name>) {
    && u.ownership == t.ownership && u.deadline == t.deadline
    && TaskOk(id, u, leases, q, now)
    && (Absent(q, id) || hole == Some(id) || u.state.Queued? || (u.state.Expired? && u.deadline <= now))
  }

  lemma BodyTask(tasks: Tasks, inbound: Inbounds, leases: Leases, q: set<P.Ticket>, a: set<P.Ticket>, now: int,
      id: Name, u: Task, hole: Option<Name>)
    requires Body(tasks, inbound, leases, q, a, now, None)
    requires id in tasks && TaskChangeOk(id, tasks[id], u, leases, q, now, hole)
    requires hole == None || (hole == Some(id) && IsTerminal(u.state))
    ensures Body(tasks[id := u], inbound, leases, q, a, now, hole)
  {
    var tasks' := tasks[id := u];
    forall t | t in q ensures QueuedOk(tasks', inbound, now, hole, t) {
      assert QueuedOk(tasks, inbound, now, None, t);
    }
    forall t | t in a ensures LeasedOk(tasks', inbound, leases, t) {
      assert LeasedOk(tasks, inbound, leases, t);
    }
    forall k | k in inbound ensures InboundOk(tasks', q, a, k, inbound[k]) {
      assert InboundOk(tasks, q, a, k, inbound[k]);
    }
    forall k | k in tasks' ensures TaskOk(k, tasks'[k], leases, q, now) {
      assert k != id ==> TaskOk(k, tasks[k], leases, q, now);
    }
  }

  /** A request nobody has seen: its task, its record, and a ticket that is queued or leased. */
  lemma BodyArrival(tasks: Tasks, inbound: Inbounds, leases: Leases, q: set<P.Ticket>, a: set<P.Ticket>, now: int,
                    id: Name, u: Task, r: InboundRecord, t: P.Ticket, leased: bool)
    requires Body(tasks, inbound, leases, q, a, now, None)
    requires id !in tasks && !r.terminalSent && u.ownership.Inbound?
    requires u.state == (if leased then Accepted else Queued)
    requires For(t, id) && u.deadline == t.entry.expiresAt
    requires t.entry.runnable && !t.entry.cancelled && !t.entry.aborted
    requires t.entry.state in {P.OfTask(Accepted), P.OfTask(Queued)}
    ensures if leased then Body(tasks[id := u], inbound[id := r], leases[id := P.LeaseOf(t)], q, a + {t}, now, None)
            else Body(tasks[id := u], inbound[id := r], leases, q + {t}, a, now, None)
  {
    var tasks', inbound' := tasks[id := u], inbound[id := r];
    var leases' := if leased then leases[id := P.LeaseOf(t)] else leases;
    var q', a' := if leased then q else q + {t}, if leased then a + {t} else a;
    NoTicketFor(tasks, inbound, leases, q, a, now, id);
    forall x | x in q' ensures QueuedOk(tasks', inbound', now, None, x) {
      assert x != t ==> QueuedOk(tasks, inbound, now, None, x);
    }
    forall x | x in a' ensures LeasedOk(tasks', inbound', leases', x) {
      assert x != t ==> LeasedOk(tasks, inbound, leases, x);
    }
    forall k ensures LeaseHeld(leases', a', k) {
      assert LeaseHeld(leases, a, k);
      if leased && k == id {
        assert t in a';
      } else if k in leases' {
        var x :| x in a && For(x, k) && leases[k] == P.LeaseOf(x);
        assert x in a';
      }
    }
    forall k | k in inbound' ensures InboundOk(tasks', q', a', k, inbound'[k]) {
      assert k != id ==> InboundOk(tasks, q, a, k, inbound[k]);
    }
    forall k | k in tasks' ensures TaskOk(k, tasks'[k], leases', q', now) {
      if k == id {
        assert !leased ==> t in q';
      } else {
        assert TaskOk(k, tasks[k], leases, q, now);
        if !Absent(q, k) {
          var x :| x in q && For(x, k);
          assert x in q';
        }
      }
    }
    forall x, y | x in q' + a' && y in q' + a' && SameRequest(x, y) ensures x == y {
      assert x in q + a && y in q + a ==> x == y;
      assert x in q + a ==> !For(x, id);
      assert y in q + a ==> !For(y, id);
    }
  }

  /** A task of the sender's side, under an id nobody has used. */
  lemma BodySent(tasks: Tasks, inbound: Inbounds, leases: Leases, q: set<P.Ticket>, a: set<P.Ticket>, now: int,
      id: Name, u: Task)
    requires Body(tasks, inbound, leases, q, a, now, None)
    requires id !in tasks && u.ownership.Outbound?
    ensures Body(tasks[id := u], inbound, leases, q, a, now, None)
  {
    var tasks' := tasks[id := u];
    forall t | t in q ensures QueuedOk(tasks', inbound, now, None, t) {
      assert QueuedOk(tasks, inbound, now, None, t);
    }
    forall t | t in a ensures LeasedOk(tasks', inbound, leases, t) {
      assert LeasedOk(tasks, inbound, leases, t);
    }
    forall k | k in inbound ensures InboundOk(tasks', q, a, k, inbound[k]) {
      assert InboundOk(tasks, q, a, k, inbound[k]);
    }
    forall k | k in tasks' ensures TaskOk(k, tasks'[k], leases, q, now) {
      assert k != id ==> TaskOk(k, tasks[k], leases, q, now);
    }
  }

  /** An id without a task has no ticket and no lease. */
  lemma NoTicketFor(tasks: Tasks, inbound: Inbounds, leases: Leases, q: set<P.Ticket>, a: set<P.Ticket>, now: int,
      id: Name)
    requires Body(tasks, inbound, leases, q, a, now, None) && id !in tasks
    ensures Absent(q, id) && Absent(a, id) && id !in leases && id !in inbound
  {
    forall t | t in q ensures !For(t, id) {
      assert QueuedOk(tasks, inbound, now, None, t);
    }
    forall t | t in a ensures !For(t, id) {
      assert LeasedOk(tasks, inbound, leases, t);
    }
    assert LeaseHeld(leases, a, id);
    assert id in inbound ==> InboundOk(tasks, q, a, id, inbound[id]);
  }

  /** A leased request is not also queued. */
  lemma LeasedNotQueued(tasks: Tasks, inbound: Inbounds, leases: Leases, q: set<P.Ticket>, a: set<P.Ticket>, now: int,
      hole: Option<Name>, id: Name)
    requires Body(tasks, inbound, leases, q, a, now, hole) && id in leases
    ensures Absent(q, id)
    ensures exists t :: t in a && For(t, id) && leases[id] == P.LeaseOf(t) && forall u | u in a && For(u, id) :: u == t
  {
    assert LeaseHeld(leases, a, id);
    var t :| t in a && For(t, id) && leases[id] == P.LeaseOf(t);
    forall x | x in q + a && For(x, id) ensures x == t {
      assert SameRequest(x, t);
    }
  }

  /** Forgetting or marking the record of a request that has no ticket left. */
  lemma BodyInbound(tasks: Tasks, inbound: Inbounds, leases: Leases, q: set<P.Ticket>, a: set<P.Ticket>, now: int,
      id: Name, r: Option<InboundRecord>)
    requires Body(tasks, inbound, leases, q, a, now, None)
    requires id in inbound && Absent(q, id) && Absent(a, id)
    ensures Body(tasks, if r.Some? then inbound[id := r.value] else inbound - {id}, leases, q, a, now, None)
  {
    var inbound' := if r.Some? then inbound[id := r.value] else inbound - {id};
    assert InboundOk(tasks, q, a, id, inbound[id]);
    forall t | t in q ensures QueuedOk(tasks, inbound', now, None, t) {
      assert QueuedOk(tasks, inbound, now, None, t) && !For(t, id);
    }
    forall t | t in a ensures LeasedOk(tasks, inbound', leases, t) {
      assert LeasedOk(tasks, inbound, leases, t) && !For(t, id);
    }
    forall k | k in inbound' ensures InboundOk(tasks, q, a, k, inbound'[k]) {
      assert k != id ==> InboundOk(tasks, q, a, k, inbound[k]);
    }
  }

  /* ---------- changes to the logs ---------- */

  /** A task that moves was not terminal, so no log speaks of it; neither does one that is new. */
  lemma LogsTask(tasks: Tasks, inbound: Inbounds, outbound: Outbounds, replies: seq<Reply>, completed: seq<Name>,
      id: Name, u: Task)
    requires LogsOk(tasks, inbound, outbound, replies, completed)
    requires id in tasks ==> !IsTerminal(tasks[id].state)
    ensures LogsOk(tasks[id := u], inbound, outbound, replies, completed)
    ensures (forall r | r in replies :: r.requestId != id) && id !in completed
  {
    forall r | r in replies ensures Answered(tasks[id := u], inbound, r) && r.requestId != id {
      assert Answered(tasks, inbound, r);
    }
    forall k | k in completed ensures Resolved(tasks[id := u], outbound, k) && k != id {
      assert Resolved(tasks, outbound, k);
    }
  }

  /** A record is forgotten, or a new one replaces nothing that was answered. */
  lemma LogsInbound(tasks: Tasks, inbound: Inbounds, outbound: Outbounds, replies: seq<Reply>, completed: seq<Name>,
      inbound': Inbounds)
    requires LogsOk(tasks, inbound, outbound, replies, completed)
    requires forall r | r in replies && r.requestId in inbound' ::
               r.requestId in inbound && inbound'[r.requestId] == inbound[r.requestId]
    ensures LogsOk(tasks, inbound', outbound, replies, completed)
  {
    forall r | r in replies ensures Answered(tasks, inbound', r) {
      assert Answered(tasks, inbound, r);
    }
  }

  /** Sending the terminal reply of a request that has not been answered. */
  lemma LogsReply(tasks: Tasks, inbound: Inbounds, outbound: Outbounds, replies: seq<Reply>, completed: seq<Name>,
      id: Name, recipient: Name)
    requires LogsOk(tasks, inbound, outbound, replies, completed)
    requires id in inbound && !inbound[id].terminalSent && id in tasks && IsTerminal(tasks[id].state)
    ensures LogsOk(tasks, inbound[id := inbound[id].(terminalSent := true)], outbound,
        replies + [TerminalReply(id, recipient, tasks[id])], completed)
  {
    var inbound' := inbound[id := inbound[id].(terminalSent := true)];
    var replies' := replies + [TerminalReply(id, recipient, tasks[id])];
    forall r | r in replies' ensures Answered(tasks, inbound', r) {
      assert r in replies ==> Answered(tasks, inbound, r);
    }
    forall i | 0 <= i < |replies| ensures replies[i].requestId != id {
      assert Answered(tasks, inbound, replies[i]);
    }
  }

  /** Resolving an outbound completion that was open. */
  lemma LogsCompletion(tasks: Tasks, inbound: Inbounds, outbound: Outbounds, replies: seq<Reply>, completed: seq<Name>,
      id: Name)
    requires LogsOk(tasks, inbound, outbound, replies, completed)
    requires id in outbound && outbound[id].terminal.None? && id in tasks && IsTerminal(tasks[id].state)
    ensures LogsOk(tasks, inbound, outbound[id := outbound[id].(terminal := Some(tasks[id]))], replies,
        completed + [id])
  {
    var outbound' := outbound[id := outbound[id].(terminal := Some(tasks[id]))];
    forall k | k in completed + [id] ensures Resolved(tasks, outbound', k) {
      assert k in completed ==> Resolved(tasks, outbound, k);
    }
    forall i | 0 <= i < |completed| ensures completed[i] != id {
      assert Resolved(tasks, outbound, completed[i]);
    }
  }

  /** Changing an outbound record that has not been resolved, or its admission alone. */
  lemma LogsOutbound(tasks: Tasks, inbound: Inbounds, outbound: Outbounds, replies: seq<Reply>, completed: seq<Name>,
      id: Name, r: OutboundRecord)
    requires LogsOk(tasks, inbound, outbound, replies, completed)
    requires id in completed ==> id in outbound && r.terminal == outbound[id].terminal
    ensures LogsOk(tasks, inbound, outbound[id := r], replies, completed)
  {
    forall k | k in completed ensures Resolved(tasks, outbound[id := r], k) {
      assert Resolved(tasks, outbound, k);
    }
  }
}
