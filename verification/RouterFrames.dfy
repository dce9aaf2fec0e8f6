/** What dispatching, draining and finishing leave alone, in any state of the router. */
module RouterFrames {
  import opened TaskStates
  import opened TaskStoreSpec
  import opened RouterSpec
  import opened RouterInv
  import opened RouterRuns
  import P = PolicySpec

  /** Only the policy, open tasks and who holds what may differ; what is finished stays as it is. */
  ghost predicate OnlyDrains(e: Engine, o: Engine) {
    && o == e.(policy := o.policy, store := o.store, leases := o.leases, executed := o.executed, grants := o.grants)
    && Descends(e.store, o.store) && TerminalsKept(e.store.tasks, o.store.tasks)
    && o.store.tasks.Keys == e.store.tasks.Keys
  }

  /** No task is born, and whom a task belongs to does not change. */
  ghost predicate Descends(s: StoreState, o: StoreState) {
    && o.retainResponse == s.retainResponse && o.localRuntime == s.localRuntime
    && forall id {:trigger Inherits(s.tasks, o.tasks, id)} :: Inherits(s.tasks, o.tasks, id)
  }

  ghost predicate Inherits(tasks: Tasks, tasks': Tasks, id: Name) {
    id in tasks' ==>
      && id in tasks && tasks'[id].uid == tasks[id].uid && tasks'[id].ownership == tasks[id].ownership
      && tasks'[id].owner == tasks[id].owner && tasks'[id].localOwner == tasks[id].localOwner
      && tasks'[id].target == tasks[id].target && tasks'[id].expiresAt == tasks[id].expiresAt
  }

  lemma DescendsTwice(s: StoreState, m: StoreState, o: StoreState)
    requires Descends(s, m) && Descends(m, o)
    ensures Descends(s, o)
  {
    forall id ensures Inherits(s.tasks, o.tasks, id) {
      assert Inherits(s.tasks, m.tasks, id) && Inherits(m.tasks, o.tasks, id);
    }
  }

  lemma DrainsTwice(e: Engine, m: Engine, o: Engine)
    requires OnlyDrains(e, m) && OnlyDrains(m, o)
    ensures OnlyDrains(e, o)
  {
    KeptTwice(e.store.tasks, m.store.tasks, o.store.tasks);
    DescendsTwice(e.store, m.store, o.store);
  }

  lemma SameTasks(e: Engine, o: Engine)
    requires o == e.(policy := o.policy, leases := o.leases, executed := o.executed, grants := o.grants)
    ensures OnlyDrains(e, o)
  {
    forall id | id in e.store.tasks ensures KeptTask(e.store.tasks, o.store.tasks, id) {
    }
  }

  lemma BeginKeeps(s: StoreState, id: Name, now: int)
    ensures var o := BeginExecution(s, id, Tick(now)).0;
            Descends(s, o) && TerminalsKept(s.tasks, o.tasks) && o.tasks.Keys == s.tasks.Keys
  {
    var o := BeginExecution(s, id, Tick(now)).0;
    forall k | k in s.tasks ensures KeptTask(s.tasks, o.tasks, k) {
    }
  }

  lemma {:induction false} DispatchFrame(e: Engine, id: Name, lease: P.Lease, now: int)
    ensures OnlyDrains(e, DispatchLease(e, id, lease, now))
    decreases |e.policy.queue|, 2
  {
    var (s, t) := BeginExecution(e.store, id, Tick(now));
    var b := e.(store := s);
    BeginKeeps(e.store, id, now);
    SameTasks(e, e);
    if e.config.hasExecutor && (t.None? || id !in e.inbound) {
      ReleaseFrame(b, id, lease, now);
      DrainsTwice(e, b, ReleaseLease(b, id, lease, now));
    }
  }

  lemma {:induction false} ReleaseFrame(e: Engine, id: Name, lease: P.Lease, now: int)
    ensures OnlyDrains(e, ReleaseLease(e, id, lease, now))
    decreases |e.policy.queue|, 1
  {
    var f := e.(policy := P.Release(e.policy, lease.handle), leases := e.leases - {id});
    ReleaseShrinks(e.policy, lease.handle);
    SameTasks(e, f);
    DrainFrame(f, now);
    DrainsTwice(e, f, DrainQueue(f, now));
  }

  lemma {:induction false} DrainFrame(e: Engine, now: int)
    ensures OnlyDrains(e, DrainQueue(e, now))
    decreases |e.policy.queue|, 0
  {
    SameTasks(e, e);
    if SlotFree(e) {
      var (p, t) := P.Dequeue(e.policy, At(e, now), At(e, now));
      DequeueShrinks(e.policy, At(e, now), At(e, now));
      var d := e.(policy := p);
      SameTasks(e, d);
      if t.Some? {
        ReleaseShrinks(p, t.value.handle);
        if t.value.entry.requestId.None? || t.value.entry.requestId.value !in e.inbound {
          var f := d.(policy := P.Release(p, t.value.handle));
          SameTasks(e, f);
          DrainFrame(f, now);
          DrainsTwice(e, f, DrainQueue(f, now));
        } else {
          var g, id := Granted(d, t.value), t.value.entry.requestId.value;
          var m := DispatchLease(g, id, P.LeaseOf(t.value), now);
          SameTasks(e, g);
          DispatchFrame(g, id, P.LeaseOf(t.value), now);
          DrainsTwice(e, g, m);
          DrainFrame(m, now);
          DrainsTwice(e, m, DrainQueue(m, now));
        }
      }
    }
  }

  /** Giving up what a request holds, up to its timer. */
  lemma VacateFrame(e: Engine, id: Name, now: int)
    ensures OnlyDrains(e.(timers := e.timers - {id}), Vacate(e, id, now))
  {
    var f := e.(timers := e.timers - {id});
    if id in f.leases {
      ReleaseFrame(f, id, f.leases[id], now);
    } else {
      var g := f.(policy := P.CancelByRequestId(f.policy, id, At(f, now), At(f, now)));
      SameTasks(f, g);
      DrainFrame(g, now);
      DrainsTwice(f, g, DrainQueue(g, now));
    }
  }
}
