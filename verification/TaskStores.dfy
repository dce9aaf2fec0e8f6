/** The task store as the class the router owns: a record map, a queued set beside it, and the timers
    it has armed. A timer callback holds on to the record it was armed for. */
module TaskStores {
  import opened TaskStates
  import opened TaskStoreSpec

  datatype StoredTask = StoredTask(task: Task, expiryTimer: Option<nat>, purgeTimer: Option<nat>)

  datatype Armed = ExpiryOf(id: Name, uid: nat) | PurgeOf(id: Name, uid: nat)

  /** An expiry timer exactly while the task can expire, a purge timer exactly when a retention
      period is configured and the task is terminal, and both really armed for this record. */
  ghost predicate TimersOk(retains: bool, armed: map<nat, Armed>, id: Name, r: StoredTask) {
    && (r.expiryTimer.Some? <==> !IsTerminal(r.task.state))
    && (r.purgeTimer.Some? <==> IsTerminal(r.task.state) && retains)
    && (r.expiryTimer.Some? ==> r.expiryTimer.value in armed && armed[r.expiryTimer.value] == ExpiryOf(id, r.task.uid))
    && (r.purgeTimer.Some? ==> r.purgeTimer.value in armed && armed[r.purgeTimer.value] == PurgeOf(id, r.task.uid))
  }

  /** An armed timer belongs to the record now stored under its id, never to one that is gone. */
  ghost predicate ArmedOk(records: map<Name, StoredTask>, nextTimer: nat, h: nat, a: Armed) {
    && h < nextTimer
    && a.id in records && records[a.id].task.uid == a.uid
    && (if a.ExpiryOf? then records[a.id].expiryTimer else records[a.id].purgeTimer) == Some(h)
  }

  ghost predicate Timed(records: map<Name, StoredTask>, armed: map<nat, Armed>, nextTimer: nat, retains: bool) {
    && (forall id {:trigger TimersOk(retains, armed, id, records[id])} ::
          id in records ==> TimersOk(retains, armed, id, records[id]))
    && (forall h {:trigger ArmedOk(records, nextTimer, h, armed[h])} ::
          h in armed ==> ArmedOk(records, nextTimer, h, armed[h]))
  }

  ghost predicate QueuedExactly(queued: set<Name>, records: map<Name, StoredTask>) {
    forall id {:trigger id in queued} :: id in queued <==> id in records && records[id].task.state.Queued?
  }

  function Tasks(records: map<Name, StoredTask>): map<Name, Task> {
    map id | id in records :: records[id].task
  }

  /** The armed timers once the record's own ones are cancelled. */
  function Disarmed(armed: map<nat, Armed>, r: StoredTask): map<nat, Armed> {
    armed
    - (if r.expiryTimer.Some? then {r.expiryTimer.value} else {})
    - (if r.purgeTimer.Some? then {r.purgeTimer.value} else {})
  }

  /** Whatever replaces one record, the timers of all others are untouched. */
  lemma OthersKeepTimers(records: map<Name, StoredTask>, armed: map<nat, Armed>, nextTimer: nat, retains: bool,
      id: Name, armed': map<nat, Armed>, k: Name)
    requires Timed(records, armed, nextTimer, retains) && id in records && k in records && k != id
    requires forall h | h in Disarmed(armed, records[id]) :: h in armed' && armed'[h] == armed[h]
    ensures TimersOk(retains, armed', k, records[k])
  {
    assert TimersOk(retains, armed, k, records[k]) && TimersOk(retains, armed, id, records[id]);
  }

  /** Replacing a record that keeps its timers. */
  lemma SameTimers(records: map<Name, StoredTask>, armed: map<nat, Armed>, nextTimer: nat, retains: bool, id: Name,
      t: Task)
    requires Timed(records, armed, nextTimer, retains) && id in records
    requires t.uid == records[id].task.uid && IsTerminal(t.state) == IsTerminal(records[id].task.state)
    ensures Timed(records[id := records[id].(task := t)], armed, nextTimer, retains)
  {
    var o := records[id := records[id].(task := t)];
    forall k | k in o ensures TimersOk(retains, armed, k, o[k]) {
      assert TimersOk(retains, armed, k, records[k]);
    }
    forall h | h in armed ensures ArmedOk(o, nextTimer, h, armed[h]) {
      assert ArmedOk(records, nextTimer, h, armed[h]);
    }
  }

  /** Taking a record away with its timers. */
  lemma DroppedTimers(records: map<Name, StoredTask>, armed: map<nat, Armed>, nextTimer: nat, retains: bool, id: Name)
    requires Timed(records, armed, nextTimer, retains) && id in records
    ensures Timed(records - {id}, Disarmed(armed, records[id]), nextTimer, retains)
  {
    var o, a := records - {id}, Disarmed(armed, records[id]);
    forall k | k in o ensures TimersOk(retains, a, k, o[k]) {
      OthersKeepTimers(records, armed, nextTimer, retains, id, a, k);
    }
    forall h | h in a ensures ArmedOk(o, nextTimer, h, a[h]) {
      assert ArmedOk(records, nextTimer, h, armed[h]) && TimersOk(retains, armed, id, records[id]);
    }
  }

  /** Storing a record with the one timer its state calls for. */
  lemma NewTimer(records: map<Name, StoredTask>, armed: map<nat, Armed>, nextTimer: nat, retains: bool, id: Name,
      t: Task)
    requires Timed(records, armed, nextTimer, retains) && id !in records
    ensures !IsTerminal(t.state) ==>
              Timed(records[id := StoredTask(t, Some(nextTimer), None)], armed[nextTimer := ExpiryOf(id, t.uid)],
                  nextTimer + 1, retains)
    ensures IsTerminal(t.state) && retains ==>
              Timed(records[id := StoredTask(t, None, Some(nextTimer))], armed[nextTimer := PurgeOf(id, t.uid)],
                  nextTimer + 1, retains)
    ensures IsTerminal(t.state) && !retains ==>
              Timed(records[id := StoredTask(t, None, None)], armed, nextTimer, retains)
  {
    forall h | h in armed ensures h < nextTimer {
      assert ArmedOk(records, nextTimer, h, armed[h]);
    }
    forall k | k in records ensures TimersOk(retains, armed, k, records[k]) {
    }
    forall h | h in armed ensures ArmedOk(records, nextTimer, h, armed[h]) && armed[h].id != id {
    }
  }

  class TaskStore {
    const retention: Option<nat>
    const retainResponse: bool
    const localRuntime: Option<Name>
    var records: map<Name, StoredTask>
    var queued: set<Name>
    var armed: map<nat, Armed>
    var nextTimer: nat
    var nextUid: nat
    ghost var log: seq<Event>

    ghost function State(): StoreState
      reads this
    {
      StoreState(retention, retainResponse, localRuntime, Tasks(records), nextUid, log)
    }

    ghost predicate Valid()
      reads this
    {
      QueuedExactly(queued, records) && Timed(records, armed, nextTimer, retention.Some?)
    }

    constructor (retention: Option<nat>, retainResponse: bool, localRuntime: Option<Name>)
      ensures Valid() && State() == StoreState(retention, retainResponse, localRuntime, map[], 0, []) && armed == map[]
    {
      this.retention, this.retainResponse, this.localRuntime := retention, retainResponse, localRuntime;
      records, queued, armed, nextTimer, nextUid := map[], {}, map[], 0, 0;
      log := [];
    }

    method ScheduleTimer(a: Armed) returns (h: nat)
      modifies `armed, `nextTimer
      ensures h == old(nextTimer) && armed == old(armed)[h := a] && nextTimer == old(nextTimer) + 1
    {
      h := nextTimer;
      armed := armed[h := a];
      nextTimer := nextTimer + 1;
    }

    /** Stores a record under a free id with the one timer its state calls for. */
    method StoreRecord(id: Name, t: Task)
      requires Timed(records, armed, nextTimer, retention.Some?) && id !in records
      modifies `records, `armed, `nextTimer
      ensures Timed(records, armed, nextTimer, retention.Some?) && Tasks(records) == Tasks(old(records))[id := t]
      ensures forall h | h < old(nextTimer) && h !in old(armed) :: h !in armed
    {
      NewTimer(records, armed, nextTimer, retention.Some?, id, t);
      var r := StoredTask(t, None, None);
      if !IsTerminal(t.state) {
        var h := ScheduleTimer(ExpiryOf(id, t.uid));
        r := StoredTask(t, Some(h), None);
      } else if retention.Some? {
        var h := ScheduleTimer(PurgeOf(id, t.uid));
        r := StoredTask(t, None, Some(h));
      }
      records := records[id := r];
    }

    method RemoveRecord(id: Name)
      requires Timed(records, armed, nextTimer, retention.Some?) && id in records
      modifies `records, `armed
      ensures Timed(records, armed, nextTimer, retention.Some?) && records == old(records) - {id}
      ensures armed == Disarmed(old(armed), old(records)[id])
    {
      DroppedTimers(records, armed, nextTimer, retention.Some?, id);
      armed := Disarmed(armed, records[id]);
      records := records - {id};
    }

    /** Replaces a record in place; a terminal state trades the expiry timer for a purge timer. */
    method ReplaceRecord(id: Name, t: Task)
      requires Timed(records, armed, nextTimer, retention.Some?) && id in records
      requires t.uid == records[id].task.uid && !IsTerminal(records[id].task.state)
      modifies `records, `armed, `nextTimer
      ensures Timed(records, armed, nextTimer, retention.Some?) && Tasks(records) == Tasks(old(records))[id := t]
      ensures IsTerminal(t.state) ==>
                forall h | Some(h) == old(records)[id].expiryTimer && h < old(nextTimer) :: h !in armed
    {
      ghost var before := records;
      if IsTerminal(t.state) {
        RemoveRecord(id);
        StoreRecord(id, t);
        assert Tasks(before - {id})[id := t] == Tasks(before)[id := t];
      } else {
        SameTimers(records, armed, nextTimer, retention.Some?, id, t);
        records := records[id := records[id].(task := t)];
      }
    }

    /** The commit point of every transition: state, queued set, timers and log move together. */
    method CommitRecord(id: Name, next: TaskState, u: Update, wall: int)
      requires Valid() && id in records && CanTransition(records[id].task.state, next)
      modifies this
      ensures Valid() && State() == Commit(old(State()), id, next, u, wall)
      ensures IsTerminal(next) ==>
                forall h | Some(h) == old(records)[id].expiryTimer && h < old(nextTimer) :: h !in armed
    {
      var t := records[id].task;
      var n := Committed(retainResponse, t, next, u, wall);
      ghost var before := records;
      ReplaceRecord(id, n);
      SameKeys(before, records, id, n);
      queued := if next.Queued? then queued + {id} else queued - {id};
      log := log + [Moved(t.uid, id, t.state, next)];
    }

    method ExpireIfDue(id: Name, c: Clock)
      requires Valid()
      modifies this
      ensures Valid() && State() == TaskStoreSpec.ExpireIfDue(old(State()), id, c)
    {
      if id in records && IsDue(records[id].task, c.mono) {
        TerminalIffStuck(records[id].task.state);
        CommitRecord(id, Expired, EXPIRY, c.wall);
      }
    }

    method GetTask(id: Name, c: Clock) returns (t: Option<Task>)
      requires Valid()
      modifies this
      ensures Valid() && (State(), t) == Read(old(State()), id, c)
    {
      ExpireIfDue(id, c);
      t := if id in records then Some(records[id].task) else None;
    }

    method TryTransition(id: Name, expected: Option<TaskState>, next: TaskState, u: Update,
        c: Clock) returns (r: Transition)
      requires Valid()
      modifies this
      ensures Valid() && (State(), r) == TaskStoreSpec.TryTransition(old(State()), id, expected, next, u, c)
    {
      if id !in records {
        return Refused(NoSuchTask, None);
      }
      if !next.Expired? {
        ExpireIfDue(id, c);
      }
      ghost var e := State();
      assert id in e.tasks;
      var current := records[id].task;
      if expected.Some? && current.state != expected.value {
        return Refused(WrongState, Some(current));
      }
      if IsTerminal(current.state) {
        return Refused(AlreadyTerminal, Some(current));
      }
      if !CanTransition(current.state, next) {
        return Refused(WrongState, Some(current));
      }
      CommitRecord(id, next, u, c.wall);
      assert id in State().tasks;
      return Changed(current.state, records[id].task);
    }

    method BeginExecution(id: Name, c: Clock) returns (t: Option<Task>)
      requires Valid()
      modifies this
      ensures Valid() && (State(), t) == TaskStoreSpec.BeginExecution(old(State()), id, c)
    {
      t := GetTask(id, c);
      if t.None? || t.value.state.Working? {
        return;
      }
      var r := TryTransition(id, None, Working, NO_UPDATE, c);
      t := if r.Changed? then Some(r.task) else None;
    }

    method CancelTask(id: Name, caller: Option<Name>, requestedAt: Option<int>, reason: bool,
        c: Clock) returns (r: Cancellation)
      requires Valid()
      modifies this
      ensures Valid() && (State(), r) == TaskStoreSpec.CancelTask(old(State()), id, caller, requestedAt, reason, c)
    {
      if id !in records {
        return CancelRefused(if caller.None? then CancelNoSuchTask else CancelUnauthorized, None);
      }
      ExpireIfDue(id, c);
      assert id in State().tasks;
      var t := records[id].task;
      if caller.Some? && !(caller.value == t.owner || caller == localRuntime) {
        return CancelRefused(CancelUnauthorized, None);
      }
      if t.state.Cancelled? {
        return CancelOk(false, t);
      }
      if IsTerminal(t.state) {
        return CancelRefused(CancelTooLate, Some(t));
      }
      var at := if requestedAt.Some? then requestedAt else Some(c.wall);
      var next := if t.state.Working? then Cancelling else Cancelled;
      var error := if next.Cancelled? && reason then Some(CancelledError) else None;
      var moved := TryTransition(id, None, next, Update(None, error, true, at, None), c);
      r := if moved.Changed? then CancelOk(true, moved.task) else CancelRefused(CancelTooLate, moved.current);
    }

    method ExpireTask(id: Name, c: Clock) returns (t: Option<Task>)
      requires Valid()
      modifies this
      ensures Valid() && (State(), t) == TaskStoreSpec.ExpireTask(old(State()), id, c)
    {
      var r := TryTransition(id, None, Expired, EXPIRY, c);
      match r
      case Changed(_, u) => t := Some(u);
      case Refused(_, u) => t := u;
    }

    method DropRecord(id: Name)
      requires Valid() && id in records
      modifies this
      ensures Valid() && State() == Drop(old(State()), id) && armed == Disarmed(old(armed), old(records)[id])
    {
      ghost var before := records;
      RemoveRecord(id);
      assert Tasks(before) - {id} == Tasks(records);
      queued := queued - {id};
    }

    method PurgeTask(id: Name) returns (purged: bool)
      requires Valid()
      modifies this
      ensures Valid() && (State(), purged) == TaskStoreSpec.PurgeTask(old(State()), id)
    {
      if id !in records || !IsTerminal(records[id].task.state) {
        return false;
      }
      DropRecord(id);
      purged := true;
    }

    method CreateTask(i: Creation, c: Clock, later: int) returns (r: CreateResult)
      requires Valid()
      modifies this
      ensures Valid() && (State(), r) == TaskStoreSpec.CreateTask(old(State()), i, c, later)
    {
      if i.id in records {
        return DuplicateTask;
      }
      if i.state.Cancelling? {
        return BadInitialState;
      }
      if i.expiresAt <= i.createdAt {
        return BadDeadline;
      }
      var t := NewRecord(retainResponse, nextUid, i, c);
      AddRecord(i.id, t);
      ExpireIfDue(i.id, Clock(c.wall, later));
      r := NewTask(t);
    }

    method AddRecord(id: Name, t: Task)
      requires Valid() && id !in records
      modifies this
      ensures Valid() && State() == Birth(old(State()), id, t)
    {
      ghost var before := records;
      StoreRecord(id, t);
      SameKeys(before, records, id, t);
      if t.state.Queued? {
        queued := queued + {id};
      }
      nextUid := nextUid + 1;
      log := log + [Born(t.uid, id, t.state)];
    }

    /** The environment fires an armed timer. It finds the very record it was armed for, in the state
        it was armed for, so an expiry timer always expires its task and a purge timer always
        removes its own. */
    method Fire(h: nat, c: Clock)
      requires Valid() && h in armed
      modifies this
      ensures Valid()
      ensures var a := old(armed)[h];
              && a.id in old(State()).tasks && old(State()).tasks[a.id].uid == a.uid
              && State() == if a.ExpiryOf? then Commit(old(State()), a.id, Expired, EXPIRY, c.wall)
                  else Drop(old(State()), a.id)
      ensures h !in armed
    {
      var a := armed[h];
      assert ArmedOk(records, nextTimer, h, a);
      assert TimersOk(retention.Some?, armed, a.id, records[a.id]);
      if a.ExpiryOf? {
        TerminalIffStuck(records[a.id].task.state);
        CommitRecord(a.id, Expired, EXPIRY, c.wall);
      } else {
        DropRecord(a.id);
      }
    }
  }

  lemma SameKeys(before: map<Name, StoredTask>, after: map<Name, StoredTask>, id: Name, t: Task)
    requires Tasks(after) == Tasks(before)[id := t]
    ensures forall k :: k in after <==> k in before || k == id
    ensures forall k | k in after :: after[k].task == if k == id then t else before[k].task
  {
    forall k ensures k in after <==> k in before || k == id {
      assert k in Tasks(after) <==> k in Tasks(before)[id := t];
    }
    forall k | k in after ensures after[k].task == if k == id then t else before[k].task {
      assert Tasks(after)[k] == Tasks(before)[id := t][k];
    }
  }
}
