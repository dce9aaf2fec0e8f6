/** The task store as a value: tasks by request id and the log of what became of them. Queued sets and
    timers are the business of the class in TaskStores. */
module TaskStoreSpec {
  import opened TaskStates

  type Content = nat

  datatype ErrorCode =
    | Internal | Malformed | Unauthorized | CrossRoom | IncompatibleOperation | DuplicateOperation
    | InvalidContent | BusyError | ExpiredError | CancelledError | NotCancelableError | NotFoundError

  datatype Ownership = Inbound | Outbound

  /** `uid` is the identity of the stored record, so a request id used again names another task. */
  datatype Task = Task(
    uid: nat,
    owner: Name,
    localOwner: Name,
    target: Option<Name>,
    ownership: Ownership,
    state: TaskState,
    createdAt: int,
    updatedAt: int,
    expiresAt: int,
    deadline: int,
    cancellationRequested: bool,
    requestedAt: Option<int>,
    aborted: bool,
    content: Option<Content>,
    error: Option<ErrorCode>)

  datatype Event =
    | Born(uid: nat, id: Name, state: TaskState)
    | Moved(uid: nat, id: Name, from: TaskState, to: TaskState)

  /** Wall clock and monotonic clock, read once for a call. */
  datatype Clock = Clock(wall: int, mono: int)

  datatype StoreState = StoreState(
    retention: Option<nat>,
    retainResponse: bool,
    localRuntime: Option<Name>,
    tasks: map<Name, Task>,
    nextUid: nat,
    log: seq<Event>)

  datatype Update = Update(
    content: Option<Content>,
    error: Option<ErrorCode>,
    cancellationRequested: bool,
    requestedAt: Option<int>,
    updatedAt: Option<int>)

  const NO_UPDATE := Update(None, None, false, None, None)
  const EXPIRY := Update(None, Some(ExpiredError), false, None, None)

  datatype Creation = Creation(
    id: Name,
    owner: Name,
    localOwner: Name,
    target: Option<Name>,
    ownership: Ownership,
    state: TaskState,
    createdAt: int,
    expiresAt: int,
    cancellationRequested: bool,
    requestedAt: Option<int>,
    content: Option<Content>,
    error: Option<ErrorCode>)

  datatype CreateResult = NewTask(task: Task) | DuplicateTask | BadInitialState | BadDeadline

  datatype Refusal = NoSuchTask | WrongState | AlreadyTerminal

  datatype Transition = Changed(previous: TaskState, task: Task) | Refused(code: Refusal, current: Option<Task>)

  datatype CancelRefusal = CancelNoSuchTask | CancelUnauthorized | CancelTooLate

  datatype Cancellation =
    | CancelOk(changed: bool, task: Task)
    | CancelRefused(reason: CancelRefusal, current: Option<Task>)

  function Max(a: int, b: int): int { if a < b then b else a }

  predicate IsDue(t: Task, mono: int) {
    !IsTerminal(t.state) && mono >= t.deadline
  }

  /** The record after a committed transition. */
  function Committed(retainResponse: bool, t: Task, next: TaskState, u: Update, wall: int): Task {
    var requested := t.cancellationRequested || u.cancellationRequested || next.Cancelling?;
    var requestedAt :=
      if requested && !t.cancellationRequested then (if u.requestedAt.Some? then u.requestedAt else Some(wall))
      else if requested && u.requestedAt.Some? then u.requestedAt
      else t.requestedAt;
    var stamp := Max(t.updatedAt, if u.updatedAt.Some? then u.updatedAt.value else wall);
    var kept := IsTerminal(next) && !retainResponse;
    t.(state := next,
       updatedAt := stamp,
       cancellationRequested := requested,
       requestedAt := requestedAt,
       aborted := t.aborted || next in {Cancelling, Cancelled, Expired},
       content := if kept then None else if IsTerminal(next) || u.content.Some? then u.content else t.content,
       error := if kept then None else if IsTerminal(next) || u.error.Some? then u.error else t.error)
  }

  function Commit(s: StoreState, id: Name, next: TaskState, u: Update, wall: int): StoreState
    requires id in s.tasks
  {
    var t := s.tasks[id];
    s.(tasks := s.tasks[id := Committed(s.retainResponse, t, next, u, wall)],
        log := s.log + [Moved(t.uid, id, t.state, next)])
  }

  function ExpireIfDue(s: StoreState, id: Name, c: Clock): StoreState {
    if id in s.tasks && IsDue(s.tasks[id], c.mono) then Commit(s, id, Expired, EXPIRY, c.wall) else s
  }

  function Read(s: StoreState, id: Name, c: Clock): (StoreState, Option<Task>) {
    var e := ExpireIfDue(s, id, c);
    (e, if id in e.tasks then Some(e.tasks[id]) else None)
  }

  function TryTransition(s: StoreState, id: Name, expected: Option<TaskState>, next: TaskState, u: Update,
      c: Clock): (StoreState, Transition) {
    if id !in s.tasks then (s, Refused(NoSuchTask, None))
    else
      var e := if next.Expired? then s else ExpireIfDue(s, id, c);
      var t := e.tasks[id];
      if expected.Some? && t.state != expected.value then (e, Refused(WrongState, Some(t)))
      else if IsTerminal(t.state) then (e, Refused(AlreadyTerminal, Some(t)))
      else if !CanTransition(t.state, next) then (e, Refused(WrongState, Some(t)))
      else
        var o := Commit(e, id, next, u, c.wall);
        (o, Changed(t.state, o.tasks[id]))
  }

  /** `later` is the second reading of the monotonic clock, when the expiry timer is armed. */
  function CreateTask(s: StoreState, i: Creation, c: Clock, later: int): (StoreState, CreateResult) {
    if i.id in s.tasks then (s, DuplicateTask)
    else if i.state.Cancelling? then (s, BadInitialState)
    else if i.expiresAt <= i.createdAt then (s, BadDeadline)
    else
      var t := NewRecord(s.retainResponse, s.nextUid, i, c);
      (ExpireIfDue(Birth(s, i.id, t), i.id, Clock(c.wall, later)), NewTask(t))
  }

  function Birth(s: StoreState, id: Name, t: Task): StoreState {
    s.(tasks := s.tasks[id := t], nextUid := s.nextUid + 1, log := s.log + [Born(t.uid, id, t.state)])
  }

  function NewRecord(retainResponse: bool, uid: nat, i: Creation, c: Clock): Task {
    var late := !IsTerminal(i.state) && i.expiresAt <= c.wall;
    var state := if late then Expired else i.state;
    var kept := IsTerminal(state) && !retainResponse;
    Task(uid, i.owner, i.localOwner, i.target, i.ownership, state, i.createdAt, i.createdAt, i.expiresAt,
         c.mono + Max(0, i.expiresAt - c.wall),
         i.cancellationRequested,
         if !i.cancellationRequested then None else if i.requestedAt.Some? then i.requestedAt else Some(c.wall),
         state.Expired?,
         if kept then None else i.content,
         if kept then None else if late && i.error.None? then Some(ExpiredError) else i.error)
  }

  function BeginExecution(s: StoreState, id: Name, c: Clock): (StoreState, Option<Task>) {
    var (e, t) := Read(s, id, c);
    if t.None? then (e, None)
    else if t.value.state.Working? then (e, t)
    else
      var (o, r) := TryTransition(e, id, None, Working, NO_UPDATE, c);
      (o, if r.Changed? then Some(r.task) else None)
  }

  predicate MayControl(s: StoreState, t: Task, caller: Name) {
    caller == t.owner || Some(caller) == s.localRuntime
  }

  function CancelTask(s: StoreState, id: Name, caller: Option<Name>, requestedAt: Option<int>, reason: bool,
      c: Clock): (StoreState, Cancellation) {
    if id !in s.tasks then (s, CancelRefused(if caller.None? then CancelNoSuchTask else CancelUnauthorized, None))
    else
      var e := ExpireIfDue(s, id, c);
      var t := e.tasks[id];
      if caller.Some? && !MayControl(s, t, caller.value) then (e, CancelRefused(CancelUnauthorized, None))
      else if t.state.Cancelled? then (e, CancelOk(false, t))
      else if IsTerminal(t.state) then (e, CancelRefused(CancelTooLate, Some(t)))
      else
        var at := if requestedAt.Some? then requestedAt else Some(c.wall);
        var next := if t.state.Working? then Cancelling else Cancelled;
        var error := if next.Cancelled? && reason then Some(CancelledError) else None;
        var (o, r) := TryTransition(e, id, None, next, Update(None, error, true, at, None), c);
        (o, if r.Changed? then CancelOk(true, r.task) else CancelRefused(CancelTooLate, r.current))
  }

  function ExpireTask(s: StoreState, id: Name, c: Clock): (StoreState, Option<Task>) {
    var (o, r) := TryTransition(s, id, None, Expired, EXPIRY, c);
    (o, match r case Changed(_, t) => Some(t) case Refused(_, t) => t)
  }

  function Drop(s: StoreState, id: Name): StoreState {
    s.(tasks := s.tasks - {id})
  }

  function PurgeTask(s: StoreState, id: Name): (StoreState, bool) {
    if id in s.tasks && IsTerminal(s.tasks[id].state) then (Drop(s, id), true) else (s, false)
  }
}
