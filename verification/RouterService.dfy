/** What the router keeps whatever the retention of terminal tasks, even when a purged request id is used
    again: leases go out in arrival order, and whatever is worked on holds a slot. */
module RouterService {
  import opened TaskStates
  import opened TaskStoreSpec
  import opened RouterSpec
  import opened RouterInv
  import opened RouterRuns
  import opened RouterSteps
  import opened PolicyShapes
  import P = PolicySpec
  import R = PolicyRuns
  import D = DedupeSpec
  import Traces

  /** The requests someone may be working on. */
  ghost function Running(tasks: Tasks): set<Name> {
    set id | id in tasks && tasks[id].ownership.Inbound? && tasks[id].state in {Working, Cancelling}
  }

  /** The requests these tickets stand for. */
  ghost function Requests(ts: set<P.Ticket>): set<Name> {
    set t | t in ts && t.entry.requestId.Some? :: t.entry.requestId.value
  }

  /** Every running request and every entry in the table of leases has one of these tickets. */
  ghost predicate HeldBy(tasks: Tasks, leases: Leases, a: set<P.Ticket>) {
    && Running(tasks) <= Requests(a)
    && (forall id {:trigger LeaseHeld(leases, a, id)} :: LeaseHeld(leases, a, id))
  }

  ghost predicate Sound(e: Engine, now: int, retention: Option<nat>) {
    && PolicyOk(e.policy, now)
    && GrantsOk(e.grants, P.Tickets(e.policy.queue), e.policy.nextToken)
    && e.store.retention == retention
  }

  /** `Sound`, and the active tickets hold what they must. */
  ghost predicate Serving(e: Engine, now: int, retention: Option<nat>) {
    Sound(e, now, retention) && HeldBy(e.store.tasks, e.leases, P.Tickets(e.policy.active))
  }

  /** What holds between two steps with this retention. */
  ghost predicate InService(e: Engine, now: int, retention: Option<nat>) {
    Serving(e, now, retention) && Conserving(e.policy)
  }

  lemma FewerQueued(grants: seq<Grant>, q: set<P.Ticket>, nextToken: nat, q': set<P.Ticket>, nextToken': nat)
    requires GrantsOk(grants, q, nextToken) && q' <= q && nextToken <= nextToken'
    ensures GrantsOk(grants, q', nextToken')
  {
  }

  /** A change of the store that starts no work. */
  ghost predicate Calm(s: StoreState, o: StoreState) {
    Running(o.tasks) <= Running(s.tasks) && o.retention == s.retention
  }

  lemma CalmServes(e: Engine, s: StoreState, now: int, retention: Option<nat>)
    requires InService(e, now, retention) && Calm(e.store, s)
    ensures InService(e.(store := s), now, retention)
  {
  }

  lemma HeldApart(tasks: Tasks, leases: Leases, a: set<P.Ticket>, t: P.Ticket, id: Name)
    requires HeldBy(tasks, leases, a) && For(t, id) && id !in Running(tasks)
    ensures HeldBy(tasks, leases - {id}, a - {t})
  {
    forall k | k in Running(tasks) ensures k in Requests(a - {t}) {
      var u :| u in a && For(u, k);
      assert For(u, k);
      assert u in a - {t};
    }
    forall k ensures LeaseHeld(leases - {id}, a - {t}, k) {
      assert LeaseHeld(leases, a, k);
      if k in leases && k != id {
        var u :| u in a && For(u, k) && leases[k] == P.LeaseOf(u);
        assert u in a - {t};
      }
    }
  }

  lemma HeldWith(tasks: Tasks, tasks': Tasks, leases: Leases, a: set<P.Ticket>, t: P.Ticket, id: Name)
    requires HeldBy(tasks, leases - {id}, a - {t}) && t in a && For(t, id)
    requires Running(tasks') <= Running(tasks) + {id}
    requires id in leases && leases[id] == P.LeaseOf(t)
    ensures HeldBy(tasks', leases, a)
  {
    forall k | k in Running(tasks') ensures k in Requests(a) {
      if k == id {
        assert t in a;
      } else {
        var u :| u in a - {t} && For(u, k);
        assert u in a;
      }
    }
    forall k ensures LeaseHeld(leases, a, k) {
      assert LeaseHeld(leases - {id}, a - {t}, k);
      if k in leases && k != id {
        var u :| u in a - {t} && For(u, k) && leases[k] == P.LeaseOf(u);
        assert u in a;
      }
    }
  }

  lemma LeasesLess(leases: Leases, a: set<P.Ticket>, id: Name)
    requires forall k {:trigger LeaseHeld(leases, a, k)} :: LeaseHeld(leases, a, k)
    ensures forall k {:trigger LeaseHeld(leases - {id}, a, k)} :: LeaseHeld(leases - {id}, a, k)
  {
    forall k ensures LeaseHeld(leases - {id}, a, k) {
      assert LeaseHeld(leases, a, k);
    }
  }

  /* ---------- dispatching and draining ---------- */

  /** Only a request whose execution begins is running afterwards that was not before. */
  lemma BeginRuns(s: StoreState, id: Name, now: int)
    ensures var (o, t) := BeginExecution(s, id, Tick(now));
            && o.retention == s.retention
            && Running(o.tasks) <= Running(s.tasks) + (if t.Some? then {id} else {})
  {
    var e := ExpireIfDue(s, id, Tick(now));
    if id in e.tasks && !e.tasks[id].state.Working? {
      TransitionShape(e, id, Working, NO_UPDATE, now);
    }
  }

  /** The ticket `t` just took its slot, and nothing else rests on it. */
  ghost predicate JustGranted(e: Engine, t: P.Ticket, id: Name, now: int, retention: Option<nat>) {
    && Sound(e, now, retention)
    && t in P.Tickets(e.policy.active) && For(t, id) && id in e.inbound && id in e.leases
    && e.leases[id] == P.LeaseOf(t)
    && HeldBy(e.store.tasks, e.leases - {id}, P.Tickets(e.policy.active) - {t})
  }

  lemma ReleasedServes(e: Engine, t: P.Ticket, leases: Leases, now: int, retention: Option<nat>)
    requires Sound(e, now, retention) && t in P.Tickets(e.policy.active)
    requires HeldBy(e.store.tasks, leases, P.Tickets(e.policy.active) - {t})
    ensures Serving(e.(policy := P.Release(e.policy, t.handle), leases := leases), now, retention)
  {
    var p := P.Release(e.policy, t.handle);
    ReleaseShape(e.policy, t);
    SubsetHandles(P.Retained(e.policy), P.Retained(p));
    FewerQueued(e.grants, P.Tickets(e.policy.queue), e.policy.nextToken, P.Tickets(p.queue), p.nextToken);
  }

  lemma {:induction false} DispatchServes(e: Engine, id: Name, t: P.Ticket, now: int, retention: Option<nat>)
    requires JustGranted(e, t, id, now, retention)
    ensures Serving(DispatchLease(e, id, P.LeaseOf(t), now), now, retention)
    decreases |e.policy.queue|, 2
  {
    var (s, begun) := BeginExecution(e.store, id, Tick(now));
    BeginRuns(e.store, id, now);
    if !e.config.hasExecutor {
      HeldWith(e.store.tasks, e.store.tasks, e.leases, P.Tickets(e.policy.active), t, id);
    } else if begun.Some? {
      HeldWith(e.store.tasks, s.tasks, e.leases, P.Tickets(e.policy.active), t, id);
    } else {
      GiveUpServes(e.(store := s), id, t, now, retention);
    }
  }

  lemma {:induction false} GiveUpServes(e: Engine, id: Name, t: P.Ticket, now: int, retention: Option<nat>)
    requires JustGranted(e, t, id, now, retention)
    ensures InService(ReleaseLease(e, id, P.LeaseOf(t), now), now, retention)
    decreases |e.policy.queue|, 1
  {
    ReleaseShrinks(e.policy, t.handle);
    ReleasedServes(e, t, e.leases - {id}, now, retention);
    DrainServes(e.(policy := P.Release(e.policy, t.handle), leases := e.leases - {id}), now, retention);
  }

  lemma ExpireServes(e: Engine, now: int, retention: Option<nat>)
    requires Serving(e, now, retention)
    ensures Serving(e.(policy := P.Expire(e.policy, At(e, now))), now, retention)
    ensures Conserving(e.policy) ==> Conserving(P.Expire(e.policy, At(e, now)))
  {
    var x := P.Expire(e.policy, At(e, now));
    ExpireShape(e.policy, At(e, now));
    SubsetHandles(P.Retained(e.policy), P.Retained(x));
    FewerQueued(e.grants, P.Tickets(e.policy.queue), e.policy.nextToken, P.Tickets(x.queue), x.nextToken);
  }

  /** The policy once the head of the expired queue has moved to the active set. */
  ghost function Claimed(x: P.PolicyState): P.PolicyState
    requires x.queue != []
  {
    P.Activate(x.(queue := x.queue[1..]), x.queue[0].ticket)
  }

  lemma ClaimedPolicy(x: P.PolicyState, now: int)
    requires PolicyOk(x, now) && x.queue != [] && |x.active| < x.activeCapacity
    ensures var t := x.queue[0].ticket;
            && PolicyOk(Claimed(x), now) && Claimed(x).nextToken == x.nextToken
            && P.Tickets(Claimed(x).queue) == P.Tickets(x.queue[1..]) <= P.Tickets(x.queue)
            && t in P.Tickets(Claimed(x).active) && P.Tickets(Claimed(x).active) - {t} == P.Tickets(x.active)
  {
    HeadLeaves(x, now);
    HeadIsNew(x);
    assert P.Retained(Claimed(x)) == P.Retained(x);
  }

  lemma HeadSound(e: Engine, x: P.PolicyState, now: int, retention: Option<nat>)
    requires Serving(e, now, retention) && SlotFree(e) && x == P.Expire(e.policy, At(e, now)) && x.queue != []
    ensures var d := e.(policy := Claimed(x));
            && Sound(d, now, retention) && |d.policy.queue| < |e.policy.queue|
            && x.queue[0].ticket in P.Tickets(d.policy.active)
            && P.Tickets(d.policy.active) - {x.queue[0].ticket} == P.Tickets(e.policy.active)
            && R.Inv(x) && GrantsOk(e.grants, P.Tickets(x.queue), x.nextToken)
            && P.Tickets(d.policy.queue) == P.Tickets(x.queue[1..]) && d.policy.nextToken == x.nextToken
  {
    ExpireServes(e, now, retention);
    ExpireShape(e.policy, At(e, now));
    KeepShrinks(e.policy.queue, now, At(e, now).probe);
    ClaimedPolicy(x, now);
    FewerQueued(e.grants, P.Tickets(x.queue), x.nextToken, P.Tickets(Claimed(x).queue), x.nextToken);
  }

  /** The head of the expired queue takes the free slot. */
  lemma HeadServes(e: Engine, x: P.PolicyState, now: int, retention: Option<nat>)
    requires Serving(e, now, retention) && SlotFree(e) && x == P.Expire(e.policy, At(e, now)) && x.queue != []
    requires x.queue[0].ticket.entry.requestId.Some? && x.queue[0].ticket.entry.requestId.value in e.inbound
    ensures JustGranted(Turn(e, x), x.queue[0].ticket, x.queue[0].ticket.entry.requestId.value, now, retention)
  {
    var id := x.queue[0].ticket.entry.requestId.value;
    HeadSound(e, x, now, retention);
    GrantOrder(e.grants, x, id);
    LeasesLess(e.leases, P.Tickets(e.policy.active), id);
    assert Turn(e, x).leases - {id} == e.leases - {id};
  }

  lemma HeadIsNew(x: P.PolicyState)
    requires R.Inv(x) && x.queue != []
    ensures x.queue[0].ticket !in P.Tickets(x.active)
  {
    R.InvFacts(x);
    assert x.queue[0] in x.queue;
  }

  lemma {:induction false} DrainServes(e: Engine, now: int, retention: Option<nat>)
    requires Serving(e, now, retention)
    ensures InService(DrainQueue(e, now), now, retention)
    decreases |e.policy.queue|, 0
  {
    if SlotFree(e) {
      var x := P.Expire(e.policy, At(e, now));
      DrainUnfolds(e, x, now);
      if x.queue == [] {
        ExpireServes(e, now, retention);
      } else {
        var t := x.queue[0].ticket;
        HeadSound(e, x, now, retention);
        if t.entry.requestId.Some? && t.entry.requestId.value in e.inbound {
          HeadServes(e, x, now, retention);
          var m := DispatchLease(Turn(e, x), t.entry.requestId.value, P.LeaseOf(t), now);
          DispatchServes(Turn(e, x), t.entry.requestId.value, t, now, retention);
          DrainServes(m, now, retention);
        } else {
          var p := Claimed(x);
          ReleasedServes(e.(policy := p), t, e.leases, now, retention);
          ReleaseShrinks(p, t.handle);
          DrainServes(e.(policy := P.Release(p, t.handle)), now, retention);
        }
      }
    }
  }

  /* ---------- finishing ---------- */

  lemma VacateServes(e: Engine, id: Name, now: int, retention: Option<nat>)
    requires InService(e, now, retention) && id !in Running(e.store.tasks)
    ensures InService(Vacate(e, id, now), now, retention)
  {
    var f := e.(timers := e.timers - {id});
    if id in f.leases {
      var a := P.Tickets(f.policy.active);
      assert LeaseHeld(f.leases, a, id);
      var t :| t in a && For(t, id) && f.leases[id] == P.LeaseOf(t);
      HeldApart(f.store.tasks, f.leases, a, t, id);
      ReleasedServes(f, t, f.leases - {id}, now, retention);
      DrainServes(f.(policy := P.Release(f.policy, t.handle), leases := f.leases - {id}), now, retention);
    } else {
      var p := P.CancelByRequestId(f.policy, id, At(f, now), At(f, now));
      CancelKeepsSlots(f.policy, id, At(f, now));
      SubsetHandles(P.Retained(f.policy), P.Retained(p));
      FewerQueued(f.grants, P.Tickets(f.policy.queue), f.policy.nextToken, P.Tickets(p.queue), p.nextToken);
      DrainServes(f.(policy := p), now, retention);
    }
  }

  lemma FinishServes(e: Engine, id: Name, now: int, retention: Option<nat>)
    requires InService(e, now, retention) && id in e.store.tasks
    ensures InService(FinishTask(e, id, Some(e.store.tasks[id]), now), now, retention)
  {
    if IsTerminal(e.store.tasks[id].state) {
      VacateServes(e, id, now, retention);
      ReplyServes(Vacate(e, id, now), id, e.store.tasks[id], now, retention);
    }
  }

  lemma ReplyServes(e: Engine, id: Name, t: Task, now: int, retention: Option<nat>)
    requires InService(e, now, retention)
    ensures InService(FinishOutbound(SendTerminalReply(e, id, t, now), id, t), now, retention)
  {
    var f := SendTerminalReply(e, id, t, now);
    var o := FinishOutbound(f, id, t);
    assert f == e.(inbound := f.inbound, replies := f.replies);
    assert o == f.(outbound := o.outbound, completed := o.completed);
  }

  /* ---------- the store ---------- */

  /** Where a task may go without work beginning on it. */
  ghost predicate Idles(t: Task, next: TaskState) {
    next !in {Working, Cancelling} || t.state in {Working, Cancelling} || t.ownership.Outbound?
  }

  lemma CommitCalm(s: StoreState, id: Name, next: TaskState, u: Update, now: int)
    requires id in s.tasks && Idles(s.tasks[id], next)
    ensures Calm(s, Commit(s, id, next, u, now))
  {
  }

  lemma ReadCalm(s: StoreState, id: Name, now: int)
    ensures Calm(s, ExpireIfDue(s, id, Tick(now)))
  {
  }

  lemma TransitionCalm(s: StoreState, id: Name, next: TaskState, u: Update, now: int)
    requires id in s.tasks ==> next !in {Working, Cancelling} || s.tasks[id].ownership.Outbound?
    ensures Calm(s, TryTransition(s, id, None, next, u, Tick(now)).0)
  {
    if id in s.tasks {
      TransitionShape(s, id, next, u, now);
      ReadCalm(s, id, now);
    }
  }

  lemma CancelCalm(s: StoreState, id: Name, caller: Option<Name>, reason: bool, now: int)
    ensures Calm(s, CancelTask(s, id, caller, None, reason, Tick(now)).0)
  {
    if id in s.tasks {
      CancelTaskShape(s, id, caller, reason, now);
      var e := ExpireIfDue(s, id, Tick(now));
      ReadCalm(s, id, now);
      var (o, r) := CancelTask(s, id, caller, None, reason, Tick(now));
      if next, u :| CancelMove(e, id, next, u, now, o, r) {
        CommitCalm(e, id, next, u, now);
      }
    }
  }

  /** A terminal transition of the store followed by its clean-up. */
  lemma SettleServes(e: Engine, id: Name, next: TaskState, u: Update, now: int, retention: Option<nat>)
    requires InService(e, now, retention) && IsTerminal(next)
    ensures InService(Settle(e, id, next, u, now), now, retention)
  {
    if id in e.store.tasks {
      var s := if next.Expired? then e.store else ExpireIfDue(e.store, id, Tick(now));
      SettleUnfolds(e, id, next, u, now);
      ReadCalm(e.store, id, now);
      CalmServes(e, s, now, retention);
      if CanTransition(s.tasks[id].state, next) {
        CommittedServes(e.(store := s), id, next, u, now, retention);
      }
    }
  }

  lemma CommittedServes(e: Engine, id: Name, next: TaskState, u: Update, now: int, retention: Option<nat>)
    requires InService(e, now, retention) && id in e.store.tasks && IsTerminal(next)
    ensures var o := Commit(e.store, id, next, u, now);
            InService(FinishTask(e.(store := o), id, Some(o.tasks[id]), now), now, retention)
  {
    var o := Commit(e.store, id, next, u, now);
    CommitCalm(e.store, id, next, u, now);
    CalmServes(e, o, now, retention);
    FinishServes(e.(store := o), id, now, retention);
  }

  /* ---------- the steps ---------- */

  lemma ExecutorReturnsServes(e: Engine, id: Name, result: ExecutorResult, now: int, retention: Option<nat>)
    requires InService(e, now, retention)
    ensures InService(ApplyExecutorResult(e, id, result, now), now, retention)
  {
    var f := e.(store := ExpireIfDue(e.store, id, Tick(now)));
    ReadCalm(e.store, id, now);
    CalmServes(e, f.store, now, retention);
    if id in f.store.tasks {
      FinishServes(f, id, now, retention);
      match result
      case Nothing =>
      case Returned(content, valid) => SettleServes(f, id, Completed, NO_UPDATE.(content := Some(content)), now,
          retention);
      case FailedWith(error) => SettleServes(f, id, Failed, NO_UPDATE.(error := Some(error)), now, retention);
      case RejectedWith(error) => SettleServes(f, id, Rejected, NO_UPDATE.(error := Some(error)), now, retention);
    }
  }

  lemma ExecutorThrowsServes(e: Engine, id: Name, now: int, retention: Option<nat>)
    requires InService(e, now, retention)
    ensures InService(HandleExecutorFailure(e, id, now), now, retention)
  {
    var f := e.(store := ExpireIfDue(e.store, id, Tick(now)));
    ReadCalm(e.store, id, now);
    CalmServes(e, f.store, now, retention);
    ExecutorThrowsUnfolds(e, id, now);
    if id in f.store.tasks {
      FinishServes(f, id, now, retention);
      SettleServes(f, id, Cancelled, Update(None, Some(CancelledError), true, None, None), now, retention);
      SettleServes(f, id, Failed, NO_UPDATE.(error := Some(Internal)), now, retention);
    }
  }

  lemma RouterTimerServes(e: Engine, id: Name, now: int, retention: Option<nat>)
    requires InService(e, now, retention)
    ensures InService(RouterTimer(e, id, now), now, retention)
  {
    var f := e.(timers := e.timers - {id}, store := ExpireIfDue(e.store, id, Tick(now)));
    ReadCalm(e.store, id, now);
    CalmServes(e, f.store, now, retention);
    RouterTimerUnfolds(e, id, now);
    if id in f.store.tasks {
      var s := Commit(f.store, id, Expired, EXPIRY, now);
      CommitCalm(f.store, id, Expired, EXPIRY, now);
      CalmServes(f, s, now, retention);
      FinishServes(f.(store := s), id, now, retention);
    }
  }

  lemma AfterCancelServes(e: Engine, id: Name, caller: Option<Name>, reason: bool, now: int, retention: Option<nat>)
    requires InService(e, now, retention)
    ensures var (o, r) := CancelTask(e.store, id, caller, None, reason, Tick(now));
            InService(e.(store := o), now, retention) && InService(AfterCancel(e, id, o, r, now), now, retention)
    ensures InService(CancelLocally(e, id, caller, reason, now), now, retention)
  {
    var (o, r) := CancelTask(e.store, id, caller, None, reason, Tick(now));
    CancelCalm(e.store, id, caller, reason, now);
    CalmServes(e, o, now, retention);
    if id in e.store.tasks {
      CancelTaskShape(e.store, id, caller, reason, now);
      FinishServes(e.(store := o), id, now, retention);
    }
  }

  lemma ApplyReplyCalm(s: StoreState, m: ReplyMessage, now: int)
    requires m.requestId in s.tasks && s.tasks[m.requestId].ownership.Outbound?
    ensures Calm(s, ApplyReply(s, m, now).0)
  {
    var id := m.requestId;
    var a := if s.tasks[id].state.Created? then TryTransition(s, id, None, Accepted, NO_UPDATE, Tick(now)).0 else s;
    TransitionCalm(s, id, Accepted, NO_UPDATE, now);
    TransitionShape(s, id, Accepted, NO_UPDATE, now);
    var b := if a.tasks[id].state in {Accepted, Queued}
        then TryTransition(a, id, None, Working, NO_UPDATE, Tick(now)).0 else a;
    TransitionCalm(a, id, Working, NO_UPDATE, now);
    TransitionShape(a, id, Working, NO_UPDATE, now);
    ReplyEndCalm(b, m, now);
  }

  lemma ReplyEndCalm(b: StoreState, m: ReplyMessage, now: int)
    requires m.requestId in b.tasks && b.tasks[m.requestId].ownership.Outbound?
    ensures Calm(b, ReplyEnd(b, m, now).0)
  {
    var id := m.requestId;
    match m.outcome
    case Completed => TransitionCalm(b, id, Completed, NO_UPDATE.(content := m.content), now);
    case Failed => TransitionCalm(b, id, Failed, NO_UPDATE.(error := m.error), now);
    case Rejected => TransitionCalm(b, id, Rejected, NO_UPDATE.(error := m.error), now);
    case Cancelled =>
      var asked := NO_UPDATE.(cancellationRequested := true);
      var d := if b.tasks[id].state.Working? then TryTransition(b, id, None, Cancelling, asked, Tick(now)).0 else b;
      TransitionCalm(b, id, Cancelling, asked, now);
      TransitionCalm(d, id, Cancelled, asked.(error := if m.error.Some? then m.error else Some(CancelledError)), now);
    case _ => TransitionCalm(b, id, Expired, EXPIRY, now);
  }

  lemma ProcessReplyServes(e: Engine, m: ReplyMessage, now: int, retention: Option<nat>)
    requires InService(e, now, retention)
    ensures InService(ProcessReply(e, m, now).0, now, retention)
  {
    var f := e.(store := ExpireIfDue(e.store, m.requestId, Tick(now)));
    ReadCalm(e.store, m.requestId, now);
    CalmServes(e, f.store, now, retention);
    ProcessReplyUnfolds(e, m, now);
    if OutboundTask(f, m.requestId) {
      var applied := ApplyReply(f.store, m, now);
      ApplyReplyCalm(f.store, m, now);
      CalmServes(f, applied.0, now, retention);
      AcceptReplyFrame(f, f.store.tasks[m.requestId], m, applied, now);
    }
  }

  lemma AckServes(e: Engine, id: Name, ack: Ack, now: int, retention: Option<nat>)
    requires InService(e, now, retention)
    ensures InService(ApplyResponse(e, id, ack, now), now, retention)
  {
    AckCalm(e.store, id, ack, now);
    var f := e.(pending := e.pending - {id});
    CalmServes(f, AckStore(e.store, id, ack, now), now, retention);
  }

  lemma AckCalm(s: StoreState, id: Name, ack: Ack, now: int)
    ensures Calm(s, AckStore(s, id, ack, now))
  {
    TransitionCalm(s, id, Accepted, NO_UPDATE, now);
    TransitionCalm(TryTransition(s, id, None, Accepted, NO_UPDATE, Tick(now)).0, id, Queued, NO_UPDATE, now);
  }

  lemma SentServes(e: Engine, id: Name, target: Name, createdAt: int, expiresAt: int, now: int, retention: Option<nat>)
    requires InService(e, now, retention)
    ensures InService(SendRequest(e, id, target, createdAt, expiresAt, now), now, retention)
  {
    var i := Creation(id, e.config.runtimeId, e.config.runtimeId, Some(target), Outbound, Created, createdAt,
        expiresAt, false, None, None, None);
    var s := TaskStoreSpec.CreateTask(e.store, i, Tick(now), now).0;
    if id !in e.store.tasks {
      var t := NewRecord(e.store.retainResponse, e.store.nextUid, i, Tick(now));
      var b := Birth(e.store, id, t);
      assert Calm(e.store, b);
      ReadCalm(b, id, now);
    }
    CalmServes(e, s, now, retention);
  }

  /* ---------- arriving requests ---------- */

  lemma TidiedServes(e: Engine, id: Name, now: int, retention: Option<nat>)
    requires InService(e, now, retention)
    ensures InService(Tidied(e, id, now), now, retention)
    ensures InService(Tidied(e, id, now).(policy := e.policy), now, retention)
  {
    var f := e.(dedupe := D.Prune(e.dedupe, now), store := ExpireIfDue(e.store, id, Tick(now)));
    ReadCalm(e.store, id, now);
    CalmServes(e.(dedupe := f.dedupe), f.store, now, retention);
    PreparedServes(f, now, retention);
  }

  lemma PreparedServes(f: Engine, now: int, retention: Option<nat>)
    requires InService(f, now, retention)
    ensures InService(f.(policy := Prepared(f, now)), now, retention)
  {
    var x := P.Expire(f.policy, At(f, now));
    ExpireServes(f, now, retention);
    PreparedPolicy(f.policy, At(f, now));
    FewerQueued(f.grants, P.Tickets(x.queue), x.nextToken, P.Tickets(x.queue), x.nextToken + 1);
  }

  /** A request that is recorded takes a slot of its own, or the end of the queue. */
  lemma ArrivedServes(f: Engine, r: Request, handle: Name, p: P.PolicyState, now: int, retention: Option<nat>)
    requires InService(f, now, retention) && Arrivable(f, r, handle, now) && r.envelope.operationId !in f.store.tasks
    requires Kept(Prepared(f, now), TicketFor(f, r, handle), p, SlotFree(f))
    ensures var g := Arrived(f, r, handle, p, now);
            if SlotFree(f) then JustGranted(g, TicketFor(f, r, handle), r.envelope.operationId, now, retention)
                && g.policy.queue == []
            else InService(g, now, retention)
  {
    var id, t, x, leased := r.envelope.operationId, TicketFor(f, r, handle), Prepared(f, now), SlotFree(f);
    var g := Arrived(f, r, handle, p, now);
    ArrivedSound(f, r, handle, p, now, retention);
    ArrivedCalm(f, r, handle, p, now);
    if leased {
      LeasesLess(f.leases, P.Tickets(f.policy.active), id);
      assert g.leases - {id} == f.leases - {id};
    }
  }

  lemma ArrivedCalm(f: Engine, r: Request, handle: Name, p: P.PolicyState, now: int)
    requires Arrivable(f, r, handle, now) && r.envelope.operationId !in f.store.tasks
    ensures Calm(f.store, Arrived(f, r, handle, p, now).store)
  {
    CreateShape(f, r, SlotFree(f), handle, now);
  }

  lemma ArrivedSound(f: Engine, r: Request, handle: Name, p: P.PolicyState, now: int, retention: Option<nat>)
    requires InService(f, now, retention) && Arrivable(f, r, handle, now)
    requires Kept(Prepared(f, now), TicketFor(f, r, handle), p, SlotFree(f))
    ensures Sound(Arrived(f, r, handle, p, now), now, retention)
    ensures var t, a := TicketFor(f, r, handle), P.Tickets(p.active);
            if SlotFree(f) then p.queue == [] && t in a && a - {t} == P.Tickets(f.policy.active)
            else Conserving(p) && a == P.Tickets(f.policy.active)
  {
    var id, t, x, leased := r.envelope.operationId, TicketFor(f, r, handle), Prepared(f, now), SlotFree(f);
    PreparedServes(f, now, retention);
    PreparedPolicy(f.policy, At(f, now));
    ExpireShape(f.policy, At(f, now));
    FreshHandle(f.policy, x, handle);
    KeptPolicy(x, t, p, leased);
    ArrivedGrants(f.grants, x.queue, t, id, x.nextToken, leased);
    assert t !in P.Tickets(x.active);
  }

  lemma TakenServes(f: Engine, r: Request, handle: Name, now: int, o: Engine, retention: Option<nat>)
    requires InService(f, now, retention) && Arrivable(f, r, handle, now) && r.envelope.operationId !in f.store.tasks
    requires Taken(f, r, handle, now, o)
    ensures InService(o, now, retention)
  {
    var p :| Kept(Prepared(f, now), TicketFor(f, r, handle), p, SlotFree(f))
             && o == Started(Arrived(f, r, handle, p, now).(dedupe := Acknowledged(f, r, now),
                 timers := f.timers + {r.envelope.operationId}), f, r, handle, now);
    var g := Arrived(f, r, handle, p, now).(dedupe := Acknowledged(f, r, now),
        timers := f.timers + {r.envelope.operationId});
    ArrivedServes(f, r, handle, p, now, retention);
    if SlotFree(f) {
      DispatchServes(g, r.envelope.operationId, TicketFor(f, r, handle), now, retention);
    }
  }

  lemma RequestServes(e: Engine, r: Request, handle: Name, now: int, retention: Option<nat>)
    requires InService(e, now, retention) && Arrivable(e, r, handle, now)
    ensures InService(ProcessRequest(e, r, handle, now).0, now, retention)
  {
    var o := ProcessRequest(e, r, handle, now).0;
    var id := r.envelope.operationId;
    RequestOutcomes(e, r, handle, now);
    TidiedServes(e, id, now, retention);
    var f := Tidied(e, id, now).(policy := e.policy);
    if Taken(f, r, handle, now, o) && id !in f.store.tasks {
      TakenServes(f, r, handle, now, o, retention);
    }
  }

  /* ---------- every step and every run ---------- */

  lemma StepServes(e: Engine, ev: RouterSpec.Event, now: int, retention: Option<nat>)
    requires InService(e, now, retention) && Enabled(e, ev, now)
    ensures InService(Step(e, ev, now), now, retention)
  {
    match ev
    case RequestArrives(r, handle) => RequestServes(e, r, handle, now, retention);
    case NotificationArrives(n) =>
    case NotificationHandled(v, delivered) =>
    case CancelArrives(c, id, reason) =>
      ProcessCancelFrame(e, c, id, reason, now);
      AfterCancelServes(e.(dedupe := D.Reserve(e.dedupe, c, now).0), id, Some(c.sender), reason, now, retention);
    case ReplyArrives(m) => ProcessReplyServes(e, m, now, retention);
    case StatusRead(id) =>
      ReadCalm(e.store, id, now);
      CalmServes(e, ExpireIfDue(e.store, id, Tick(now)), now, retention);
    case ExecutorReturns(id, result) => ExecutorReturnsServes(e, id, result, now, retention);
    case ExecutorThrows(id) => ExecutorThrowsServes(e, id, now, retention);
    case TaskCompleted(id, content, valid) => SettleServes(e, id, Completed, NO_UPDATE.(content := Some(content)),
        now, retention);
    case TaskFailed(id, error) => SettleServes(e, id, Failed, NO_UPDATE.(error := Some(error)), now, retention);
    case TaskRejected(id, error) => SettleServes(e, id, Rejected, NO_UPDATE.(error := Some(error)), now, retention);
    case TaskCancelled(id, caller, reason) => AfterCancelServes(e, id, caller, reason, now, retention);
    case RouterTimerFires(id) => RouterTimerServes(e, id, now, retention);
    case StoreTimerFires(id) =>
      TransitionCalm(e.store, id, Expired, EXPIRY, now);
      CalmServes(e, ExpireTask(e.store, id, Tick(now)).0, now, retention);
    case PurgeTimerFires(id) =>
      assert Calm(e.store, PurgeTask(e.store, id).0);
      CalmServes(e, PurgeTask(e.store, id).0, now, retention);
    case ReplySettled(id) =>
    case RequestSent(id, target, createdAt, expiresAt) => SentServes(e, id, target, createdAt, expiresAt, now,
        retention);
    case AckArrives(id, ack) => AckServes(e, id, ack, now, retention);
  }

  lemma RunServes(e: Engine, steps: seq<Timed>, now: int, retention: Option<nat>)
    requires InService(e, now, retention) && IsRun(e, steps, now)
    ensures InService(Traces.End(e, steps), Traces.EndTime(steps, now), retention)
  {
    var inv := (u: Engine, at: int) => InService(u, at, retention);
    forall u, at, t | inv(u, at) && Follows(u, at, t) ensures inv(t.after, t.now) {
      StepServes(u, t.event, t.now, retention);
    }
    Traces.RunsKeep(Follows, inv, e, steps, now);
  }

  lemma InitServes(config: Config, queueCapacity: nat, activeCapacity: nat, retention: Option<nat>, grace: nat,
      now: int)
    ensures InService(Init(config, queueCapacity, activeCapacity, retention, grace, now), now, retention)
  {
    var e := Init(config, queueCapacity, activeCapacity, retention, grace, now);
    forall id ensures LeaseHeld(e.leases, {}, id) {
    }
    assert P.Tickets([]) == {};
  }
}
