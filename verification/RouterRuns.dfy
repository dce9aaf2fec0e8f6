/** Whole runs of the router: at most one execution, work conservation, first come first served. */
module RouterRuns {
  import opened TaskStates
  import opened TaskStoreSpec
  import opened RouterSpec
  import opened RouterInv
  import opened PolicyShapes
  import P = PolicySpec
  import R = PolicyRuns

  /* ---------- store changes ---------- */

  lemma CommitEngine(e: Engine, id: Name, next: TaskState, u: Update, now: int, hole: Option<Name>)
    requires EngineInv(e, now, None) && id in e.store.tasks && CanTransition(e.store.tasks[id].state, next)
    requires TaskChangeOk(id, e.store.tasks[id], Committed(e.store.retainResponse, e.store.tasks[id], next, u, now),
                          e.leases, P.Tickets(e.policy.queue), now, hole)
    requires hole == None || (hole == Some(id) && IsTerminal(next))
    ensures EngineInv(e.(store := Commit(e.store, id, next, u, now)), now, hole)
  {
    var t := Committed(e.store.retainResponse, e.store.tasks[id], next, u, now);
    BodyTask(e.store.tasks, e.inbound, e.leases, P.Tickets(e.policy.queue), P.Tickets(e.policy.active), now, id, t,
        hole);
    ExecutedTask(e.store.tasks, e.executed, id, t);
    TerminalIffStuck(e.store.tasks[id].state);
    LogsTask(e.store.tasks, e.inbound, e.outbound, e.replies, e.completed, id, t);
  }

  lemma ExecutedTask(tasks: Tasks, executed: seq<Name>, id: Name, t: Task)
    requires ExecutedOk(tasks, executed) && id in tasks
    requires t.ownership == tasks[id].ownership && CanTransition(tasks[id].state, t.state)
    ensures ExecutedOk(tasks[id := t], executed)
  {
    forall k | k in executed ensures Handed(tasks[id := t], k) {
      assert Handed(tasks, k);
    }
  }

  lemma ExpireIfDueEngine(e: Engine, id: Name, now: int)
    requires EngineInv(e, now, None)
    ensures EngineInv(e.(store := ExpireIfDue(e.store, id, Tick(now))), now, None)
  {
    if id in e.store.tasks && IsDue(e.store.tasks[id], now) {
      TerminalIffStuck(e.store.tasks[id].state);
      CommitEngine(e, id, Expired, EXPIRY, now, None);
    }
  }

  /* ---------- dispatch and draining ---------- */

  ghost predicate ReadyToStart(e: Engine, id: Name, now: int) {
    && id in e.inbound && id in e.leases && id in e.store.tasks
    && e.store.tasks[id].ownership.Inbound? && e.store.tasks[id].state in {Accepted, Queued}
    && e.store.tasks[id].deadline > now
  }

  lemma BeginShape(s: StoreState, id: Name, now: int)
    requires id in s.tasks && s.tasks[id].state in {Accepted, Queued} && s.tasks[id].deadline > now
    ensures BeginExecution(s, id, Tick(now)).0 == Commit(s, id, Working, NO_UPDATE, now)
    ensures BeginExecution(s, id, Tick(now)).1.Some?
  {
  }

  /** Dispatching a request that is ready always reaches the executor, when there is one. */
  lemma DispatchEngine(e: Engine, id: Name, lease: P.Lease, now: int)
    requires EngineInv(e, now, None) && ReadyToStart(e, id, now)
    ensures var o := DispatchLease(e, id, lease, now);
            && EngineInv(o, now, None) && o.policy == e.policy && o.grants == e.grants && o.inbound == e.inbound
            && o.executed == e.executed + (if e.config.hasExecutor then [id] else [])
            && o.config == e.config && o.leases == e.leases && o.outbound == e.outbound
            && o.replies == e.replies && o.completed == e.completed && TerminalsKept(e.store.tasks, o.store.tasks)
  {
    if e.config.hasExecutor {
      BeginShape(e.store, id, now);
      LeasedNotQueued(e.store.tasks, e.inbound, e.leases, P.Tickets(e.policy.queue), P.Tickets(e.policy.active), now,
          None, id);
      CommitEngine(e, id, Working, NO_UPDATE, now, None);
      assert Handed(e.store.tasks, id) ==> id !in e.executed by {
        assert !Handed(e.store.tasks, id);
      }
      var o := DispatchLease(e, id, lease, now);
      forall i | 0 <= i < |e.executed| ensures e.executed[i] != id {
        assert e.executed[i] in e.executed;
      }
      assert Handed(o.store.tasks, id);
    }
  }

  lemma ExpireEngine(e: Engine, now: int)
    requires EngineInv(e, now, None)
    ensures EngineInv(e.(policy := P.Expire(e.policy, At(e, now))), now, None)
    ensures Conserving(e.policy) ==> Conserving(P.Expire(e.policy, At(e, now)))
  {
    ExpireShape(e.policy, At(e, now));
    BodyExpire(e.store.tasks, e.inbound, e.leases, P.Tickets(e.policy.queue), P.Tickets(e.policy.active), now, None,
               P.Tickets(P.Expire(e.policy, At(e, now)).queue));
    SubsetHandles(P.Retained(e.policy), P.Retained(P.Expire(e.policy, At(e, now))));
  }

  lemma SubsetHandles(ts: set<P.Ticket>, us: set<P.Ticket>)
    requires HandlesName(ts) && us <= ts
    ensures HandlesName(us)
  {
  }

  /** One turn of the drain loop: the head of the expired queue takes the free slot. */
  lemma GrantEngine(e: Engine, now: int)
    requires EngineInv(e, now, None) && SlotFree(e) && e.policy.queue != [] && e.policy.lastNow == now
    requires Runs(e.policy.queue[0].ticket, At(e, now))
    ensures var t := e.policy.queue[0].ticket;
            var p := P.Activate(e.policy.(queue := e.policy.queue[1..]), t);
            && t.entry.requestId.Some?
            && var id := t.entry.requestId.value;
               var o := Granted(e.(policy := p), t);
               EngineInv(o, now, None) && ReadyToStart(o, id, now)
  {
    var h := e.policy.queue[0];
    var t := h.ticket;
    var q, a := P.Tickets(e.policy.queue), P.Tickets(e.policy.active);
    var p := P.Activate(e.policy.(queue := e.policy.queue[1..]), t);
    assert h in e.policy.queue && t in q;
    assert QueuedOk(e.store.tasks, e.inbound, now, None, t);
    var id := t.entry.requestId.value;
    HeadLeaves(e.policy, now);
    BodyGrant(e.store.tasks, e.inbound, e.leases, q, a, now, None, t, id);
    var o := Granted(e.(policy := p), t);
    assert P.Retained(p) == P.Retained(e.policy);
    GrantOrder(e.grants, e.policy, id);
  }

  lemma HeadLeaves(p: P.PolicyState, now: int)
    requires R.Inv(p) && p.queue != [] && |p.active| < p.activeCapacity && p.lastNow <= now
    ensures var t := p.queue[0].ticket;
            var o := P.Activate(p.(queue := p.queue[1..]), t);
            && R.Inv(o) && P.Tickets(o.queue) == P.Tickets(p.queue) - {t}
            && P.Tickets(o.active) == P.Tickets(p.active) + {t}
            && t in P.Tickets(p.queue)
  {
    var t := p.queue[0].ticket;
    var rest := p.(queue := p.queue[1..]);
    R.TailInv(p, p.lastNow);
    assert P.Observe(p, p.lastNow).(queue := p.queue[1..]) == rest;
    R.ActivateInv(rest, t);
    var o := P.Activate(rest, t);
    assert p.queue == [p.queue[0]] + p.queue[1..];
    forall u | u in P.Tickets(p.queue[1..]) ensures u != t {
      var r :| r in p.queue[1..] && r.ticket == u;
      assert p.queue[0].ticket.token < r.ticket.token;
    }
    forall u | u in P.Tickets(p.queue) - {t} ensures u in P.Tickets(o.queue) {
      var r :| r in p.queue && r.ticket == u;
      assert r in p.queue[1..];
    }
    var mine := P.Fresh(t).(status := P.Active);
    assert mine in o.active;
    forall u | u in P.Tickets(p.active) ensures u in P.Tickets(o.active) {
      var r :| r in p.active && r.ticket == u;
      assert r in o.active;
    }
  }

  /** The head of the queue arrived after everyone granted so far and before everyone left behind. */
  lemma GrantOrder(grants: seq<Grant>, p: P.PolicyState, id: Name)
    requires R.Inv(p) && p.queue != [] && GrantsOk(grants, P.Tickets(p.queue), p.nextToken)
    ensures GrantsOk(grants + [Grant(p.queue[0].ticket.token, id)], P.Tickets(p.queue[1..]), p.nextToken)
  {
    var t := p.queue[0].ticket;
    assert p.queue[0] in p.queue && R.WaitingRecord(p, p.queue[0]);
    assert t in P.Tickets(p.queue);
    forall u | u in P.Tickets(p.queue[1..]) ensures t.token < u.token && u in P.Tickets(p.queue) {
      var r :| r in p.queue[1..] && r.ticket == u;
      assert r in p.queue;
    }
  }

  /** The state after one turn of the drain loop, before the dispatch. */
  ghost function Turn(e: Engine, x: P.PolicyState): Engine
    requires x.queue != [] && x.queue[0].ticket.entry.requestId.Some?
  {
    var t := x.queue[0].ticket;
    Granted(e.(policy := P.Activate(x.(queue := x.queue[1..]), t)), t)
  }

  lemma DrainUnfolds(e: Engine, x: P.PolicyState, now: int)
    requires R.Inv(e.policy) && e.policy.lastNow <= now && SlotFree(e) && x == P.Expire(e.policy, At(e, now))
    ensures x.queue == [] ==> DrainQueue(e, now) == e.(policy := x)
    ensures x.queue != [] ==>
              var t := x.queue[0].ticket;
              var p := P.Activate(x.(queue := x.queue[1..]), t);
              DrainQueue(e, now)
              == if t.entry.requestId.Some? && t.entry.requestId.value in e.inbound
                 then DrainQueue(DispatchLease(Turn(e, x), t.entry.requestId.value, P.LeaseOf(t), now), now)
                 else DrainQueue(e.(policy := P.Release(p, t.handle)), now)
  {
    DequeueShape(e.policy, At(e, now));
  }

  /** Expiring, then granting the head. */
  lemma TurnEngine(e: Engine, x: P.PolicyState, now: int)
    requires EngineInv(e, now, None) && SlotFree(e) && x == P.Expire(e.policy, At(e, now)) && x.queue != []
    ensures var t := x.queue[0].ticket;
            && t.entry.requestId.Some? && t.entry.requestId.value in e.inbound
            && EngineInv(Turn(e, x), now, None) && ReadyToStart(Turn(e, x), t.entry.requestId.value, now)
  {
    var t := x.queue[0].ticket;
    var f := e.(policy := x);
    ExpireEngine(e, now);
    ExpireShape(e.policy, At(e, now));
    assert x.queue[0] in x.queue && t in P.Tickets(x.queue);
    GrantEngine(f, now);
    assert Turn(e, x) == Granted(f.(policy := P.Activate(x.(queue := x.queue[1..]), t)), t);
  }

  lemma TurnShrinks(e: Engine, x: P.PolicyState, now: int)
    requires R.Inv(e.policy) && e.policy.lastNow <= now && SlotFree(e) && x == P.Expire(e.policy, At(e, now))
    requires x.queue != [] && x.queue[0].ticket.entry.requestId.Some?
    ensures |Turn(e, x).policy.queue| < |e.policy.queue|
    ensures P.Retained(Turn(e, x).policy) <= P.Retained(e.policy)
  {
    ExpireShape(e.policy, At(e, now));
    KeepShrinks(e.policy.queue, now, At(e, now).probe);
    HeadLeaves(x, now);
  }

  lemma {:induction false} DrainEngine(e: Engine, now: int)
    requires EngineInv(e, now, None)
    ensures var o := DrainQueue(e, now);
            && EngineInv(o, now, None) && Conserving(o.policy)
            && o.inbound == e.inbound && o.config == e.config && o.outbound == e.outbound
            && o.replies == e.replies && o.completed == e.completed && TerminalsKept(e.store.tasks, o.store.tasks)
            && P.Retained(o.policy) <= P.Retained(e.policy)
    decreases |e.policy.queue|
  {
    if SlotFree(e) {
      var x := P.Expire(e.policy, At(e, now));
      DrainUnfolds(e, x, now);
      if x.queue == [] {
        ExpireEngine(e, now);
        ExpireShape(e.policy, At(e, now));
      } else {
        TurnEngine(e, x, now);
        TurnShrinks(e, x, now);
        var t := x.queue[0].ticket;
        var id := t.entry.requestId.value;
        var m := DispatchLease(Turn(e, x), id, P.LeaseOf(t), now);
        DispatchEngine(Turn(e, x), id, P.LeaseOf(t), now);
        DrainEngine(m, now);
        KeptTwice(e.store.tasks, m.store.tasks, DrainQueue(m, now).store.tasks);
      }
    }
  }

  lemma KeptTwice(a: Tasks, b: Tasks, c: Tasks)
    requires TerminalsKept(a, b) && TerminalsKept(b, c)
    ensures TerminalsKept(a, c)
  {
    forall id | id in a ensures KeptTask(a, c, id) {
      assert KeptTask(a, b, id);
      assert id in b ==> KeptTask(b, c, id);
    }
  }

  /* ---------- finishing ---------- */

  lemma ReleaseEngine(e: Engine, id: Name, now: int, hole: Option<Name>)
    requires EngineInv(e, now, hole) && (hole == None || hole == Some(id))
    requires id in e.leases && id in e.store.tasks && IsTerminal(e.store.tasks[id].state)
    ensures var p := P.Release(e.policy, e.leases[id].handle);
            && EngineInv(e.(policy := p, leases := e.leases - {id}), now, None)
            && Absent(P.Tickets(p.queue), id) && Absent(P.Tickets(p.active), id)
  {
    var q, a := P.Tickets(e.policy.queue), P.Tickets(e.policy.active);
    LeasedNotQueued(e.store.tasks, e.inbound, e.leases, q, a, now, hole, id);
    var t :| t in a && For(t, id) && e.leases[id] == P.LeaseOf(t) && forall u | u in a && For(u, id) :: u == t;
    var p := P.Release(e.policy, t.handle);
    ReleaseShape(e.policy, t);
    SubsetHandles(P.Retained(e.policy), P.Retained(p));
    BodyVacate(e.store.tasks, e.inbound, e.leases, q, a, now, hole, id, P.Tickets(p.queue), P.Tickets(p.active));
  }

  lemma CancelEngine(e: Engine, id: Name, now: int, hole: Option<Name>)
    requires EngineInv(e, now, hole) && (hole == None || hole == Some(id))
    requires id !in e.leases && id in e.store.tasks && IsTerminal(e.store.tasks[id].state)
    ensures var p := P.CancelByRequestId(e.policy, id, At(e, now), At(e, now));
            && EngineInv(e.(policy := p), now, None)
            && Absent(P.Tickets(p.queue), id) && Absent(P.Tickets(p.active), id)
  {
    var q, a := P.Tickets(e.policy.queue), P.Tickets(e.policy.active);
    forall t | t in a ensures !For(t, id) {
      assert LeasedOk(e.store.tasks, e.inbound, e.leases, t);
    }
    forall x, y | x in q && y in q && x.entry.requestId == y.entry.requestId == Some(id) ensures x == y {
      assert SameRequest(x, y);
    }
    CancelShape(e.policy, id, At(e, now));
    var p := P.CancelByRequestId(e.policy, id, At(e, now), At(e, now));
    SubsetHandles(P.Retained(e.policy), P.Retained(p));
    BodyVacate(e.store.tasks, e.inbound, e.leases, q, a, now, hole, id, P.Tickets(p.queue), P.Tickets(p.active));
    assert e.leases - {id} == e.leases;
  }

  /** A finished request gives up whatever it holds, and the slot goes to whoever is next. */
  lemma VacateEngine(e: Engine, id: Name, now: int, hole: Option<Name>)
    requires EngineInv(e, now, hole) && (hole == None || hole == Some(id))
    requires id in e.store.tasks && IsTerminal(e.store.tasks[id].state)
    ensures var o := Vacate(e, id, now);
            && EngineInv(o, now, None) && Conserving(o.policy) && o.inbound == e.inbound
            && Absent(P.Tickets(o.policy.queue), id) && Absent(P.Tickets(o.policy.active), id)
            && id in o.store.tasks && o.store.tasks[id] == e.store.tasks[id]
  {
    var f := e.(timers := e.timers - {id});
    if id in f.leases {
      VacateLeased(f, id, now, hole);
    } else {
      VacateQueued(f, id, now, hole);
    }
    assert KeptTask(f.store.tasks, Vacate(e, id, now).store.tasks, id);
  }

  lemma VacateLeased(f: Engine, id: Name, now: int, hole: Option<Name>)
    requires EngineInv(f, now, hole) && (hole == None || hole == Some(id))
    requires id in f.leases && id in f.store.tasks && IsTerminal(f.store.tasks[id].state)
    ensures var o := ReleaseLease(f, id, f.leases[id], now);
            && EngineInv(o, now, None) && Conserving(o.policy) && o.inbound == f.inbound
            && Absent(P.Tickets(o.policy.queue), id) && Absent(P.Tickets(o.policy.active), id)
            && TerminalsKept(f.store.tasks, o.store.tasks)
  {
    var p := P.Release(f.policy, f.leases[id].handle);
    var g := f.(policy := p, leases := f.leases - {id});
    ReleaseEngine(f, id, now, hole);
    DrainEngine(g, now);
    StillAbsent(p, DrainQueue(g, now).policy, id);
  }

  lemma VacateQueued(f: Engine, id: Name, now: int, hole: Option<Name>)
    requires EngineInv(f, now, hole) && (hole == None || hole == Some(id))
    requires id !in f.leases && id in f.store.tasks && IsTerminal(f.store.tasks[id].state)
    ensures var p := P.CancelByRequestId(f.policy, id, At(f, now), At(f, now));
            var o := DrainQueue(f.(policy := p), now);
            && EngineInv(o, now, None) && Conserving(o.policy) && o.inbound == f.inbound
            && Absent(P.Tickets(o.policy.queue), id) && Absent(P.Tickets(o.policy.active), id)
            && TerminalsKept(f.store.tasks, o.store.tasks)
  {
    var p := P.CancelByRequestId(f.policy, id, At(f, now), At(f, now));
    CancelEngine(f, id, now, hole);
    DrainEngine(f.(policy := p), now);
    StillAbsent(p, DrainQueue(f.(policy := p), now).policy, id);
  }

  lemma StillAbsent(p: P.PolicyState, o: P.PolicyState, id: Name)
    requires P.Retained(o) <= P.Retained(p) && Absent(P.Tickets(p.queue), id) && Absent(P.Tickets(p.active), id)
    ensures Absent(P.Tickets(o.queue), id) && Absent(P.Tickets(o.active), id)
  {
    forall t | t in P.Retained(o) ensures !For(t, id) {
      assert t in P.Retained(p);
    }
  }

  /** What is left of a finished request once it holds nothing. */
  ghost predicate Vacated(e: Engine, id: Name) {
    && Absent(P.Tickets(e.policy.queue), id) && Absent(P.Tickets(e.policy.active), id)
    && id in e.store.tasks && IsTerminal(e.store.tasks[id].state)
  }

  lemma SendReplyEngine(e: Engine, id: Name, now: int)
    requires EngineInv(e, now, None) && Vacated(e, id)
    ensures var o := SendTerminalReply(e, id, e.store.tasks[id], now);
            && EngineInv(o, now, None) && o.policy == e.policy && o.store == e.store
  {
    if id in e.inbound && !e.inbound[id].terminalSent {
      var q, a := P.Tickets(e.policy.queue), P.Tickets(e.policy.active);
      var r := e.inbound[id].request.envelope;
      if r.expiresAt <= now {
        BodyInbound(e.store.tasks, e.inbound, e.leases, q, a, now, id, None);
        LogsInbound(e.store.tasks, e.inbound, e.outbound, e.replies, e.completed, e.inbound - {id});
      } else {
        BodyInbound(e.store.tasks, e.inbound, e.leases, q, a, now, id, Some(e.inbound[id].(terminalSent := true)));
        LogsReply(e.store.tasks, e.inbound, e.outbound, e.replies, e.completed, id, r.sender);
      }
    }
  }

  lemma FinishOutboundEngine(e: Engine, id: Name, now: int)
    requires EngineInv(e, now, None) && id in e.store.tasks
    ensures var o := FinishOutbound(e, id, e.store.tasks[id]); EngineInv(o, now, None) && o.policy == e.policy
  {
    var t := e.store.tasks[id];
    if id in e.outbound && IsTerminal(t.state) && e.outbound[id].terminal.None? {
      LogsCompletion(e.store.tasks, e.inbound, e.outbound, e.replies, e.completed, id);
    }
  }

  lemma FinishTaskEngine(e: Engine, id: Name, now: int, hole: Option<Name>)
    requires EngineInv(e, now, hole) && (hole == None || hole == Some(id))
    requires id in e.store.tasks && IsTerminal(e.store.tasks[id].state)
    ensures var o := FinishTask(e, id, Some(e.store.tasks[id]), now); EngineInv(o, now, None) && Conserving(o.policy)
  {
    var v := Vacate(e, id, now);
    VacateEngine(e, id, now, hole);
    SendReplyEngine(v, id, now);
    FinishOutboundEngine(SendTerminalReply(v, id, v.store.tasks[id], now), id, now);
  }

  /** A terminal transition either commits and cleans up, or only lets the task expire. */
  lemma SettleUnfolds(e: Engine, id: Name, next: TaskState, u: Update, now: int)
    requires id in e.store.tasks && IsTerminal(next)
    ensures var s := if next.Expired? then e.store else ExpireIfDue(e.store, id, Tick(now));
            var o := Commit(s, id, next, u, now);
            Settle(e, id, next, u, now)
            == if CanTransition(s.tasks[id].state, next) then FinishTask(e.(store := o), id, Some(o.tasks[id]), now)
                else e.(store := s)
  {
    var s := if next.Expired? then e.store else ExpireIfDue(e.store, id, Tick(now));
    TransitionShape(e.store, id, next, u, now);
  }

  lemma TransitionShape(s: StoreState, id: Name, next: TaskState, u: Update, now: int)
    requires id in s.tasks
    ensures var e := if next.Expired? then s else ExpireIfDue(s, id, Tick(now));
            var (o, r) := TryTransition(s, id, None, next, u, Tick(now));
            if CanTransition(e.tasks[id].state, next) then o == Commit(e, id, next, u, now)
                && r == Changed(e.tasks[id].state, o.tasks[id])
            else o == e && r.Refused?
  {
    TerminalIffStuck((if next.Expired? then s else ExpireIfDue(s, id, Tick(now))).tasks[id].state);
  }

  lemma FinishCommitted(e: Engine, id: Name, next: TaskState, u: Update, now: int)
    requires EngineInv(e, now, None) && id in e.store.tasks && IsTerminal(next)
    requires CanTransition(e.store.tasks[id].state, next)
    ensures var s := Commit(e.store, id, next, u, now);
            var o := FinishTask(e.(store := s), id, Some(s.tasks[id]), now);
            EngineInv(o, now, None) && Conserving(o.policy)
  {
    var s := Commit(e.store, id, next, u, now);
    CommitEngine(e, id, next, u, now, Some(id));
    FinishTaskEngine(e.(store := s), id, now, Some(id));
  }

  /** Any terminal transition followed by its clean-up. */
  lemma SettleEngine(e: Engine, id: Name, next: TaskState, u: Update, now: int)
    requires EngineInv(e, now, None) && Conserving(e.policy) && IsTerminal(next)
    ensures var o := Settle(e, id, next, u, now); EngineInv(o, now, None) && Conserving(o.policy)
  {
    if id in e.store.tasks {
      var s := if next.Expired? then e.store else ExpireIfDue(e.store, id, Tick(now));
      ExpireIfDueEngine(e, id, now);
      SettleUnfolds(e, id, next, u, now);
      if CanTransition(s.tasks[id].state, next) {
        FinishCommitted(e.(store := s), id, next, u, now);
      }
    } else {
      assert Settle(e, id, next, u, now) == e;
    }
  }
}
