/** What the calls of the task store do with one task, case by case, in the terms of the task before the call. */
module TaskStoreLaws {
  import opened TaskStates
  import opened TaskStoreSpec

  /** The task has run out by this clock. */
  predicate RanOut(t: Task, c: Clock) {
    t.state in {Created, Accepted, Queued, Working, Cancelling} && t.deadline <= c.mono
  }

  lemma DueRanOut(t: Task, c: Clock)
    ensures RanOut(t, c) <==> IsDue(t, c.mono)
    ensures IsTerminal(t.state) <==> t.state in {Completed, Failed, Rejected, Cancelled, Expired}
    ensures IsTerminal(t.state) <==> t.state !in {Created, Accepted, Queued, Working, Cancelling}
  {
    match t.state
    case Created =>
    case Accepted =>
    case Queued =>
    case Working =>
    case Cancelling =>
    case Completed =>
    case Failed =>
    case Rejected =>
    case Cancelled =>
    case Expired =>
  }

  /** Everything about the store but this task and the log. */
  ghost predicate OnlyTask(s: StoreState, o: StoreState, id: Name)
    requires id in s.tasks
  {
    id in o.tasks && o == s.(tasks := s.tasks[id := o.tasks[id]], log := o.log)
  }

  /** What never changes about a task. */
  ghost predicate SameTask(t: Task, u: Task) {
    && u.uid == t.uid && u.owner == t.owner && u.localOwner == t.localOwner && u.target == t.target
    && u.ownership == t.ownership && u.createdAt == t.createdAt && u.expiresAt == t.expiresAt
    && u.deadline == t.deadline
  }

  /* ---------- expiry ---------- */

  /** A task that ran out expires with its error when it is next looked at; any other stays as it is. */
  lemma ReadingExpires(s: StoreState, id: Name, c: Clock)
    ensures var (o, t) := Read(s, id, c);
            if id !in s.tasks then o == s && t == None
            else if !RanOut(s.tasks[id], c) then o == s && t == Some(s.tasks[id])
            else
              && OnlyTask(s, o, id) && t == Some(o.tasks[id]) && SameTask(s.tasks[id], t.value)
              && t.value.state == Expired && t.value.aborted && t.value.content == None
              && t.value.error == (if s.retainResponse then Some(ExpiredError) else None)
  {
    if id in s.tasks {
      DueRanOut(s.tasks[id], c);
    }
  }

  /* ---------- creation ---------- */

  /** A task is created once per id, before its deadline, and not in the middle of a cancellation; one that comes
      too late is born expired. */
  lemma CreationTable(s: StoreState, i: Creation, now: int)
    requires i.state in {Created, Accepted, Queued}
    ensures var (o, r) := CreateTask(s, i, Clock(now, now), now);
            if i.id in s.tasks then o == s && r == DuplicateTask
            else if i.expiresAt <= i.createdAt then o == s && r == BadDeadline
            else
              && r.NewTask? && i.id in o.tasks && o.tasks.Keys == s.tasks.Keys + {i.id}
              && (forall k | k in s.tasks :: o.tasks[k] == s.tasks[k])
              && var t := o.tasks[i.id];
                 && r.task == t && t.uid == s.nextUid && o.nextUid == s.nextUid + 1
                 && t.owner == i.owner && t.localOwner == i.localOwner && t.target == i.target
                 && t.ownership == i.ownership && t.createdAt == i.createdAt && t.expiresAt == i.expiresAt
                 && t.state == (if i.expiresAt <= now then Expired else i.state)
                 && t.deadline == (if i.expiresAt <= now then now else i.expiresAt)
                 && t.aborted == (i.expiresAt <= now) && t.updatedAt == i.createdAt
                 && t.cancellationRequested == i.cancellationRequested
                 && (i.cancellationRequested && i.requestedAt.Some? ==> t.requestedAt == i.requestedAt)
                 && (i.cancellationRequested && i.requestedAt.None? ==> t.requestedAt == Some(now))
                 && (!i.cancellationRequested ==> t.requestedAt == None)
                 && (i.expiresAt > now || s.retainResponse ==> t.content == i.content)
                 && (i.expiresAt > now ==> t.error == i.error)
                 && (i.expiresAt <= now && !s.retainResponse ==> t.content == None && t.error == None)
                 && (i.expiresAt <= now && s.retainResponse && i.error.None? ==> t.error == Some(ExpiredError))
  {
  }

  lemma NoBirthWhileCancelling(s: StoreState, i: Creation, c: Clock, later: int)
    requires i.state == Cancelling && i.id !in s.tasks
    ensures CreateTask(s, i, c, later) == (s, BadInitialState)
  {
  }

  /* ---------- transitions ---------- */

  /** A transition is refused for a task that is unknown, not where it was expected, finished, or has no such
      successor, and then changes nothing but an expiry that was due; otherwise the task moves. */
  lemma TransitionTable(s: StoreState, id: Name, expected: Option<TaskState>, next: TaskState, u: Update, c: Clock)
    ensures var (o, r) := TryTransition(s, id, expected, next, u, c);
            if id !in s.tasks then o == s && r == Refused(NoSuchTask, None)
            else
              var t := s.tasks[id];
              var late := next != Expired && RanOut(t, c);
              var from := if late then Expired else t.state;
              && OnlyTask(s, o, id) && SameTask(t, o.tasks[id])
              && if expected.Some? && expected.value != from then
                   r == Refused(WrongState, Some(o.tasks[id])) && o.tasks[id].state == from && (!late ==> o == s)
                 else if from in {Completed, Failed, Rejected, Cancelled, Expired} then
                   r == Refused(AlreadyTerminal, Some(o.tasks[id])) && o.tasks[id].state == from && (!late ==> o == s)
                 else if next !in Successors(from) then r == Refused(WrongState, Some(t)) && o == s
                 else r == Changed(t.state, o.tasks[id]) && o.tasks[id].state == next
  {
    if id in s.tasks {
      ReadingExpires(s, id, c);
      var e := if next == Expired then s else Read(s, id, c).0;
      MoveTable(e, id, expected, next, u, c);
    }
  }

  /** The same for a task that has been looked at. */
  lemma MoveTable(e: StoreState, id: Name, expected: Option<TaskState>, next: TaskState, u: Update, c: Clock)
    requires id in e.tasks && (next == Expired || !RanOut(e.tasks[id], c))
    ensures var t := e.tasks[id];
            var (o, r) := TryTransition(e, id, expected, next, u, c);
            if expected.Some? && expected.value != t.state then (o, r) == (e, Refused(WrongState, Some(t)))
            else if t.state in {Completed, Failed, Rejected, Cancelled, Expired} then
              (o, r) == (e, Refused(AlreadyTerminal, Some(t)))
            else if next !in Successors(t.state) then (o, r) == (e, Refused(WrongState, Some(t)))
            else o == Commit(e, id, next, u, c.wall) && r == Changed(t.state, o.tasks[id]) && o.tasks[id].state == next
  {
    DueRanOut(e.tasks[id], c);
  }

  /** What a committed transition stores: a finished task keeps the content and the error it was finished with, when
      responses are retained at all; an open one keeps what it had unless it is given something. The first request
      for cancellation is dated; update times do not go back; a cancelled or expired task is aborted. */
  lemma CommitStores(s: StoreState, id: Name, next: TaskState, u: Update, wall: int)
    requires id in s.tasks
    ensures var t := s.tasks[id];
            var o := Commit(s, id, next, u, wall);
            && OnlyTask(s, o, id) && SameTask(t, o.tasks[id])
            && var n := o.tasks[id];
               && n.state == next
               && (IsTerminal(next) && s.retainResponse ==> n.content == u.content && n.error == u.error)
               && (IsTerminal(next) && !s.retainResponse ==> n.content == None && n.error == None)
               && (!IsTerminal(next) && u.content.Some? ==> n.content == u.content)
               && (!IsTerminal(next) && u.content.None? ==> n.content == t.content)
               && (!IsTerminal(next) && u.error.Some? ==> n.error == u.error)
               && (!IsTerminal(next) && u.error.None? ==> n.error == t.error)
               && (n.cancellationRequested <==>
                     t.cancellationRequested || u.cancellationRequested || next == Cancelling)
               && (n.cancellationRequested && !t.cancellationRequested && u.requestedAt.Some? ==>
                     n.requestedAt == u.requestedAt)
               && (n.cancellationRequested && !t.cancellationRequested && u.requestedAt.None? ==>
                     n.requestedAt == Some(wall))
               && (n.aborted <==> t.aborted || next == Cancelling || next == Cancelled || next == Expired)
               && n.updatedAt >= t.updatedAt && (u.updatedAt.None? ==> n.updatedAt >= wall)
               && (n.updatedAt == t.updatedAt || n.updatedAt == wall || u.updatedAt == Some(n.updatedAt))
  {
  }

  /* ---------- execution ---------- */

  /** Execution begins on a task that was accepted or queued, or goes on; on any other there is nothing to begin. */
  lemma BeginTable(s: StoreState, id: Name, c: Clock)
    ensures var (o, t) := BeginExecution(s, id, c);
            if id !in s.tasks then o == s && t == None
            else
              && OnlyTask(s, o, id) && SameTask(s.tasks[id], o.tasks[id])
              && if RanOut(s.tasks[id], c) then t == None && o.tasks[id].state == Expired
                 else if s.tasks[id].state == Accepted || s.tasks[id].state == Queued then
                   t == Some(o.tasks[id]) && o.tasks[id].state == Working
                 else if s.tasks[id].state == Working then o == s && t == Some(s.tasks[id])
                 else o == s && t == None
  {
  }

  /** Forced expiry ends every open task and no other. */
  lemma ExpiryTable(s: StoreState, id: Name, c: Clock)
    ensures var (o, t) := ExpireTask(s, id, c);
            if id !in s.tasks then o == s && t == None
            else if IsTerminal(s.tasks[id].state) then o == s && t == Some(s.tasks[id])
            else
              && OnlyTask(s, o, id) && t == Some(o.tasks[id]) && SameTask(s.tasks[id], t.value)
              && t.value.state == Expired && t.value.aborted && t.value.content == None
              && t.value.error == (if s.retainResponse then Some(ExpiredError) else None)
  {
    if id in s.tasks {
      TerminalIffStuck(s.tasks[id].state);
    }
  }

  /* ---------- cancellation ---------- */

  /** A caller may cancel its own task, and the local runtime any task; whoever names no caller may cancel all. */
  ghost predicate Permitted(s: StoreState, id: Name, caller: Option<Name>)
    requires id in s.tasks
  {
    caller == None || caller == Some(s.tasks[id].owner) || caller == s.localRuntime
  }

  /** A cancellation is refused as unauthorized exactly when a caller names a task that is unknown or that belongs
      neither to it nor to the runtime it speaks for. */
  lemma WhoMayCancel(s: StoreState, id: Name, caller: Option<Name>, requestedAt: Option<int>, reason: bool, c: Clock)
    ensures var r := CancelTask(s, id, caller, requestedAt, reason, c).1;
            && (r.CancelRefused? && r.reason == CancelUnauthorized <==>
                  caller.Some?
                  && (id !in s.tasks || (caller.value != s.tasks[id].owner && Some(caller.value) != s.localRuntime)))
            && (r.CancelRefused? && r.reason == CancelNoSuchTask <==> caller.None? && id !in s.tasks)
            && (r.CancelRefused? && r.reason == CancelUnauthorized ==> r.current == None)
  {
  }

  lemma RefusedCancelOnlyExpires(s: StoreState, id: Name, caller: Option<Name>, requestedAt: Option<int>,
      reason: bool, c: Clock)
    requires id in s.tasks && !Permitted(s, id, caller)
    ensures CancelTask(s, id, caller, requestedAt, reason, c)
         == (Read(s, id, c).0, CancelRefused(CancelUnauthorized, None))
  {
  }

  /** What a permitted cancellation makes of each state. A task that waits is cancelled at once, one that is worked
      on is asked to stop, one that was asked is cancelled, and what is finished stays as it is. */
  lemma CancelTable(s: StoreState, id: Name, caller: Option<Name>, requestedAt: Option<int>, reason: bool, c: Clock)
    requires id in s.tasks && Permitted(s, id, caller)
    ensures var t := s.tasks[id];
            var (o, r) := CancelTask(s, id, caller, requestedAt, reason, c);
            && OnlyTask(s, o, id) && SameTask(t, o.tasks[id])
            && if RanOut(t, c) then r == CancelRefused(CancelTooLate, Some(o.tasks[id])) && o.tasks[id].state == Expired
               else match t.state
                    case Accepted => r == CancelOk(true, o.tasks[id]) && o.tasks[id].state == Cancelled
                    case Queued => r == CancelOk(true, o.tasks[id]) && o.tasks[id].state == Cancelled
                    case Working => r == CancelOk(true, o.tasks[id]) && o.tasks[id].state == Cancelling
                    case Cancelling => r == CancelOk(true, o.tasks[id]) && o.tasks[id].state == Cancelled
                    case Cancelled => r == CancelOk(false, t) && o == s
                    case _ => r == CancelRefused(CancelTooLate, Some(t)) && o == s
    ensures var t := s.tasks[id];
            var (o, r) := CancelTask(s, id, caller, requestedAt, reason, c);
            var n := o.tasks[id];
            r.CancelOk? && r.changed ==>
              && n.cancellationRequested && n.aborted
              && (!t.cancellationRequested ==>
                    n.requestedAt == (if requestedAt.Some? then requestedAt else Some(c.wall)))
              && (n.state == Cancelled ==>
                    n.content == None && n.error == (if reason && s.retainResponse then Some(CancelledError) else None))
  {
    var e := Read(s, id, c).0;
    ReadingExpires(s, id, c);
    var at := if requestedAt.Some? then requestedAt else Some(c.wall);
    var next := if e.tasks[id].state.Working? then Cancelling else Cancelled;
    var u := Update(None, if next.Cancelled? && reason then Some(CancelledError) else None, true, at, None);
    CancelMoves(s, e, id, caller, requestedAt, reason, c);
    MoveTable(e, id, None, next, u, c);
  }

  /** Past its authorization a cancellation is one transition. */
  lemma CancelMoves(s: StoreState, e: StoreState, id: Name, caller: Option<Name>, requestedAt: Option<int>,
      reason: bool, c: Clock)
    requires id in s.tasks && Permitted(s, id, caller) && e == Read(s, id, c).0 && id in e.tasks
    requires e.tasks[id].owner == s.tasks[id].owner && e.localRuntime == s.localRuntime
    ensures var t := e.tasks[id];
            var at := if requestedAt.Some? then requestedAt else Some(c.wall);
            var next := if t.state.Working? then Cancelling else Cancelled;
            var u := Update(None, if next.Cancelled? && reason then Some(CancelledError) else None, true, at, None);
            var (o, r) := TryTransition(e, id, None, next, u, c);
            CancelTask(s, id, caller, requestedAt, reason, c)
            == if t.state == Cancelled then (e, CancelOk(false, t))
               else if t.state in {Completed, Failed, Rejected, Expired} then (e, CancelRefused(CancelTooLate, Some(t)))
               else (o, if r.Changed? then CancelOk(true, r.task) else CancelRefused(CancelTooLate, r.current))
  {
    DueRanOut(e.tasks[id], c);
  }

  /** Only a finished task is purged, and nothing else goes with it. */
  lemma PurgeTable(s: StoreState, id: Name)
    ensures var (o, purged) := PurgeTask(s, id);
            && (purged <==> id in s.tasks && s.tasks[id].state in {Completed, Failed, Rejected, Cancelled, Expired})
            && (!purged ==> o == s)
            && (purged ==> id !in o.tasks && o == s.(tasks := o.tasks)
                           && forall k | k != id :: k in s.tasks <==> k in o.tasks)
            && (forall k | k in o.tasks :: o.tasks[k] == s.tasks[k])
  {
  }
}
