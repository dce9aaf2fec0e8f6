/** The life of every task over whole runs of the store. */
module TaskStoreRuns {
  import opened TaskStates
  import opened TaskStoreSpec

  /* ---------- histories ---------- */

  /** The states the record `uid` went through, read off the log. */
  ghost function Path(log: seq<Event>, uid: nat): seq<TaskState> {
    if log == [] then []
    else
      var before := Path(log[..|log| - 1], uid);
      match log[|log| - 1]
      case Born(u, _, state) => if u == uid then before + [state] else before
      case Moved(u, _, _, to) => if u == uid then before + [to] else before
  }

  /** The request id the record `uid` was stored under. */
  ghost function BornAs(log: seq<Event>, uid: nat): Option<Name> {
    if log == [] then None
    else
      match log[|log| - 1]
      case Born(u, id, _) => if u == uid then Some(id) else BornAs(log[..|log| - 1], uid)
      case _ => BornAs(log[..|log| - 1], uid)
  }

  ghost function Last(path: seq<TaskState>): Option<TaskState> {
    if path == [] then None else Some(path[|path| - 1])
  }

  /** Every event fits the history before it: a record is born once and moves from where it is. */
  ghost predicate Faithful(log: seq<Event>) {
    log != [] ==>
      var init := log[..|log| - 1];
      && Faithful(init)
      && match log[|log| - 1]
         case Born(u, _, _) => Path(init, u) == []
         case Moved(u, _, from, to) => Last(Path(init, u)) == Some(from) && CanTransition(from, to)
  }

  lemma {:induction false} FaithfulPaths(log: seq<Event>, uid: nat)
    requires Faithful(log)
    ensures IsPath(Path(log, uid))
  {
    if log != [] {
      var init := log[..|log| - 1];
      FaithfulPaths(init, uid);
      var p, q := Path(init, uid), Path(log, uid);
      forall i | 0 <= i < |q| - 1 ensures CanTransition(q[i], q[i + 1]) {
        if i < |p| - 1 {
          assert CanTransition(p[i], p[i + 1]);
        }
      }
    }
  }

  lemma PathOf(log: seq<Event>, e: Event, uid: nat)
    ensures Path(log + [e], uid)
         == Path(log, uid) + match e
                             case Born(u, _, state) => (if u == uid then [state] else [])
                             case Moved(u, _, _, to) => (if u == uid then [to] else [])
    ensures BornAs(log + [e], uid) == if e.Born? && e.uid == uid then Some(e.id) else BornAs(log, uid)
    ensures Faithful(log + [e])
        <==> Faithful(log)
             && match e
                case Born(u, _, _) => Path(log, u) == []
                case Moved(u, _, from, to) => Last(Path(log, u)) == Some(from) && CanTransition(from, to)
  {
    assert (log + [e])[..|log + [e]| - 1] == log;
  }

  /* ---------- the invariant ---------- */

  ghost predicate TaskInv(s: StoreState, id: Name, t: Task) {
    && t.uid < s.nextUid
    && BornAs(s.log, t.uid) == Some(id)
    && Last(Path(s.log, t.uid)) == Some(t.state)
    && (t.state.Cancelling? ==> t.cancellationRequested && t.aborted)
    && (t.state in {Created, Accepted, Queued, Working} ==> !t.aborted)
    && (t.state.Expired? ==> t.aborted)
  }

  ghost predicate StoreInv(s: StoreState) {
    && Faithful(s.log)
    && (forall id {:trigger TaskInv(s, id, s.tasks[id])} :: id in s.tasks ==> TaskInv(s, id, s.tasks[id]))
    && (forall u: nat {:trigger Path(s.log, u)} :: u >= s.nextUid ==> Path(s.log, u) == [])
  }

  function Init(retention: Option<nat>, retainResponse: bool, localRuntime: Option<Name>): StoreState {
    StoreState(retention, retainResponse, localRuntime, map[], 0, [])
  }

  /* ---------- one commit, one creation, one removal ---------- */

  lemma CommitInv(s: StoreState, id: Name, next: TaskState, u: Update, wall: int)
    requires StoreInv(s) && id in s.tasks && CanTransition(s.tasks[id].state, next)
    ensures StoreInv(Commit(s, id, next, u, wall))
  {
    var t := s.tasks[id];
    var o := Commit(s, id, next, u, wall);
    assert TaskInv(s, id, t);
    forall v: nat
      ensures Path(o.log, v) == Path(s.log, v) + if v == t.uid then [next] else []
      ensures BornAs(o.log, v) == BornAs(s.log, v)
    {
      PathOf(s.log, Moved(t.uid, id, t.state, next), v);
    }
    PathOf(s.log, Moved(t.uid, id, t.state, next), t.uid);
    forall k | k in o.tasks ensures TaskInv(o, k, o.tasks[k]) {
      assert TaskInv(s, k, s.tasks[k]);
    }
  }

  lemma BirthInv(s: StoreState, id: Name, t: Task)
    requires StoreInv(s) && id !in s.tasks
    requires t.uid == s.nextUid && !t.state.Cancelling? && t.aborted == t.state.Expired?
    ensures StoreInv(Birth(s, id, t))
  {
    var o := Birth(s, id, t);
    forall v: nat
      ensures Path(o.log, v) == Path(s.log, v) + if v == t.uid then [t.state] else []
      ensures BornAs(o.log, v) == if v == t.uid then Some(id) else BornAs(s.log, v)
    {
      PathOf(s.log, Born(t.uid, id, t.state), v);
    }
    PathOf(s.log, Born(t.uid, id, t.state), t.uid);
    assert Path(s.log, t.uid) == [];
    forall k | k in o.tasks ensures TaskInv(o, k, o.tasks[k]) {
      if k != id {
        assert TaskInv(s, k, s.tasks[k]);
      }
    }
  }

  lemma DropInv(s: StoreState, id: Name)
    requires StoreInv(s)
    ensures StoreInv(Drop(s, id))
  {
    var o := Drop(s, id);
    forall k | k in o.tasks ensures TaskInv(o, k, o.tasks[k]) {
      assert TaskInv(s, k, s.tasks[k]);
    }
  }

  lemma ExpireIfDueInv(s: StoreState, id: Name, c: Clock)
    requires StoreInv(s)
    ensures StoreInv(ExpireIfDue(s, id, c))
  {
    if id in s.tasks && IsDue(s.tasks[id], c.mono) {
      TerminalIffStuck(s.tasks[id].state);
      CommitInv(s, id, Expired, EXPIRY, c.wall);
    }
  }

  lemma TryTransitionInv(s: StoreState, id: Name, expected: Option<TaskState>, next: TaskState, u: Update, c: Clock)
    requires StoreInv(s)
    ensures StoreInv(TryTransition(s, id, expected, next, u, c).0)
  {
    if id in s.tasks {
      ExpireIfDueInv(s, id, c);
      var e := if next.Expired? then s else ExpireIfDue(s, id, c);
      if CanTransition(e.tasks[id].state, next) {
        CommitInv(e, id, next, u, c.wall);
      }
    }
  }

  lemma CreateTaskInv(s: StoreState, i: Creation, c: Clock, later: int)
    requires StoreInv(s)
    ensures StoreInv(CreateTask(s, i, c, later).0)
  {
    if i.id !in s.tasks && !i.state.Cancelling? {
      BirthInv(s, i.id, NewRecord(s.retainResponse, s.nextUid, i, c));
      ExpireIfDueInv(Birth(s, i.id, NewRecord(s.retainResponse, s.nextUid, i, c)), i.id, Clock(c.wall, later));
    }
  }

  lemma BeginExecutionInv(s: StoreState, id: Name, c: Clock)
    requires StoreInv(s)
    ensures StoreInv(BeginExecution(s, id, c).0)
  {
    if id in s.tasks {
      ExpireIfDueInv(s, id, c);
      var e := ExpireIfDue(s, id, c);
      if !e.tasks[id].state.Working? {
        TryTransitionInv(e, id, None, Working, NO_UPDATE, c);
      }
    }
  }

  lemma CancelTaskInv(s: StoreState, id: Name, caller: Option<Name>, requestedAt: Option<int>, reason: bool, c: Clock)
    requires StoreInv(s)
    ensures StoreInv(CancelTask(s, id, caller, requestedAt, reason, c).0)
  {
    if id in s.tasks {
      ExpireIfDueInv(s, id, c);
      var e := ExpireIfDue(s, id, c);
      var at := if requestedAt.Some? then requestedAt else Some(c.wall);
      var next := if e.tasks[id].state.Working? then Cancelling else Cancelled;
      var error := if next.Cancelled? && reason then Some(CancelledError) else None;
      TryTransitionInv(e, id, None, next, Update(None, error, true, at, None), c);
    }
  }

  /* ---------- whole runs ---------- */

  datatype Op =
    | CreateOp(creation: Creation, clock: Clock, later: int)
    | TransitionOp(id: Name, expected: Option<TaskState>, next: TaskState, update: Update, clock: Clock)
    | BeginOp(id: Name, clock: Clock)
    | CancelOp(id: Name, caller: Option<Name>, requestedAt: Option<int>, reason: bool, clock: Clock)
    | ReadOp(id: Name, clock: Clock)
    | ExpireOp(id: Name, clock: Clock)
    | PurgeOp(id: Name)

  function Apply(s: StoreState, op: Op): StoreState {
    match op
    case CreateOp(creation, c, later) => CreateTask(s, creation, c, later).0
    case TransitionOp(id, expected, next, update, c) => TryTransition(s, id, expected, next, update, c).0
    case BeginOp(id, c) => BeginExecution(s, id, c).0
    case CancelOp(id, caller, requestedAt, reason, c) => CancelTask(s, id, caller, requestedAt, reason, c).0
    case ReadOp(id, c) => Read(s, id, c).0
    case ExpireOp(id, c) => ExpireTask(s, id, c).0
    case PurgeOp(id) => PurgeTask(s, id).0
  }

  function Run(s: StoreState, ops: seq<Op>): StoreState
    decreases |ops|
  {
    if ops == [] then s else Run(Apply(s, ops[0]), ops[1..])
  }

  lemma StepInv(s: StoreState, op: Op)
    requires StoreInv(s)
    ensures StoreInv(Apply(s, op))
  {
    match op
    case CreateOp(creation, c, later) => CreateTaskInv(s, creation, c, later);
    case TransitionOp(id, expected, next, update, c) => TryTransitionInv(s, id, expected, next, update, c);
    case BeginOp(id, c) => BeginExecutionInv(s, id, c);
    case CancelOp(id, caller, requestedAt, reason, c) => CancelTaskInv(s, id, caller, requestedAt, reason, c);
    case ReadOp(id, c) => ExpireIfDueInv(s, id, c);
    case ExpireOp(id, c) => TryTransitionInv(s, id, None, Expired, EXPIRY, c);
    case PurgeOp(id) => DropInv(s, id);
  }

  /** What no call undoes on one record. */
  ghost predicate TaskGrows(t: Task, u: Task) {
    && t.uid == u.uid && t.owner == u.owner && t.localOwner == u.localOwner && t.target == u.target
    && t.ownership == u.ownership
    && t.deadline == u.deadline && t.expiresAt == u.expiresAt && t.createdAt == u.createdAt
    && (t.cancellationRequested ==> u.cancellationRequested)
    && (t.aborted ==> u.aborted)
    && t.updatedAt <= u.updatedAt
    && (IsTerminal(t.state) ==> t == u)
  }

  /** A record is kept and has grown, or was not there before. */
  ghost predicate StoreGrows(s: StoreState, o: StoreState) {
    && s.nextUid <= o.nextUid && s.log <= o.log
    && forall id {:trigger o.tasks[id]} :: id in o.tasks ==>
         if id in s.tasks && s.tasks[id].uid == o.tasks[id].uid then TaskGrows(s.tasks[id], o.tasks[id])
         else o.tasks[id].uid >= s.nextUid
  }

  lemma CommitGrows(s: StoreState, id: Name, next: TaskState, u: Update, wall: int)
    requires id in s.tasks && !IsTerminal(s.tasks[id].state)
    ensures StoreGrows(s, Commit(s, id, next, u, wall))
  {
  }

  lemma ExpireIfDueGrows(s: StoreState, id: Name, c: Clock)
    ensures StoreGrows(s, ExpireIfDue(s, id, c))
  {
  }

  lemma TryTransitionGrows(s: StoreState, id: Name, expected: Option<TaskState>, next: TaskState, u: Update, c: Clock)
    requires StoreInv(s)
    ensures StoreGrows(s, TryTransition(s, id, expected, next, u, c).0)
  {
    if id in s.tasks {
      var e := if next.Expired? then s else ExpireIfDue(s, id, c);
      ExpireIfDueGrows(s, id, c);
      if !IsTerminal(e.tasks[id].state) {
        CommitGrows(e, id, next, u, c.wall);
        GrowsTransitive(s, e, Commit(e, id, next, u, c.wall));
      }
    }
  }

  lemma CancelTaskGrows(s: StoreState, id: Name, caller: Option<Name>, requestedAt: Option<int>, reason: bool, c: Clock)
    requires StoreInv(s)
    ensures StoreGrows(s, CancelTask(s, id, caller, requestedAt, reason, c).0)
  {
    if id in s.tasks {
      var e := ExpireIfDue(s, id, c);
      ExpireIfDueInv(s, id, c);
      ExpireIfDueGrows(s, id, c);
      var at := if requestedAt.Some? then requestedAt else Some(c.wall);
      var next := if e.tasks[id].state.Working? then Cancelling else Cancelled;
      var u := Update(None, if next.Cancelled? && reason then Some(CancelledError) else None, true, at, None);
      TryTransitionGrows(e, id, None, next, u, c);
      GrowsTransitive(s, e, TryTransition(e, id, None, next, u, c).0);
    }
  }

  lemma CreateTaskGrows(s: StoreState, i: Creation, c: Clock, later: int)
    requires StoreInv(s)
    ensures StoreGrows(s, CreateTask(s, i, c, later).0)
  {
    if i.id !in s.tasks && !i.state.Cancelling? {
      var o := Birth(s, i.id, NewRecord(s.retainResponse, s.nextUid, i, c));
      assert StoreGrows(s, o);
      ExpireIfDueGrows(o, i.id, Clock(c.wall, later));
      GrowsTransitive(s, o, ExpireIfDue(o, i.id, Clock(c.wall, later)));
    }
  }

  lemma StepGrows(s: StoreState, op: Op)
    requires StoreInv(s)
    ensures StoreGrows(s, Apply(s, op))
  {
    match op
    case CreateOp(creation, c, later) => CreateTaskGrows(s, creation, c, later);
    case TransitionOp(id, expected, next, update, c) => TryTransitionGrows(s, id, expected, next, update, c);
    case BeginOp(id, c) =>
      var e := ExpireIfDue(s, id, c);
      ExpireIfDueInv(s, id, c);
      ExpireIfDueGrows(s, id, c);
      TryTransitionGrows(e, id, None, Working, NO_UPDATE, c);
      GrowsTransitive(s, e, TryTransition(e, id, None, Working, NO_UPDATE, c).0);
    case CancelOp(id, caller, requestedAt, reason, c) => CancelTaskGrows(s, id, caller, requestedAt, reason, c);
    case ReadOp(id, c) => ExpireIfDueGrows(s, id, c);
    case ExpireOp(id, c) => TryTransitionGrows(s, id, None, Expired, EXPIRY, c);
    case PurgeOp(id) =>
  }

  lemma GrowsTransitive(a: StoreState, b: StoreState, c: StoreState)
    requires StoreInv(a) && StoreGrows(a, b) && StoreGrows(b, c)
    ensures StoreGrows(a, c)
  {
    forall id | id in c.tasks
      ensures if id in a.tasks && a.tasks[id].uid == c.tasks[id].uid then TaskGrows(a.tasks[id], c.tasks[id])
          else c.tasks[id].uid >= a.nextUid
    {
      if id in b.tasks && b.tasks[id].uid == c.tasks[id].uid {
        assert b.tasks[id] == b.tasks[id];
      } else if id in a.tasks {
        assert TaskInv(a, id, a.tasks[id]);
      }
    }
  }

  /** A life: a path of the transition table on which only the last state can be terminal. */
  ghost predicate IsLife(path: seq<TaskState>) {
    IsPath(path) && forall i | 0 <= i < |path| - 1 :: !IsTerminal(path[i])
  }

  lemma PathsAreLives(log: seq<Event>, uid: nat)
    requires Faithful(log)
    ensures IsLife(Path(log, uid))
  {
    FaithfulPaths(log, uid);
    var path := Path(log, uid);
    forall i | 0 <= i < |path| - 1 ensures !IsTerminal(path[i]) {
      PathsClimb(path, i, i + 1);
    }
  }

  lemma {:induction false} RunInv(s: StoreState, ops: seq<Op>)
    requires StoreInv(s)
    ensures StoreInv(Run(s, ops)) && StoreGrows(s, Run(s, ops))
    decreases |ops|
  {
    if ops != [] {
      var m := Apply(s, ops[0]);
      StepInv(s, ops[0]);
      StepGrows(s, ops[0]);
      RunInv(m, ops[1..]);
      GrowsTransitive(s, m, Run(m, ops[1..]));
    }
  }

  lemma InitInv(retention: Option<nat>, retainResponse: bool, localRuntime: Option<Name>)
    ensures StoreInv(Init(retention, retainResponse, localRuntime))
  {
    assert forall u: nat :: Path([], u) == [];
  }

  /** In every run of a new store: each record's events form a path of the transition table starting
      where the record was born and ending in its present state, with at most one terminal step;
      `cancelling` has its flag and its abort, and a task that may still be worked on is not aborted.
      Between any two points of the run flags and timestamps do not go back. */
  lemma EveryRunIsFaithful(retention: Option<nat>, retainResponse: bool, localRuntime: Option<Name>,
      before: seq<Op>, after: seq<Op>)
    ensures var s := Run(Init(retention, retainResponse, localRuntime), before);
            var o := Run(s, after);
            StoreInv(o) && StoreGrows(s, o) && forall u: nat :: IsLife(Path(o.log, u))
  {
    var s := Run(Init(retention, retainResponse, localRuntime), before);
    var o := Run(s, after);
    InitInv(retention, retainResponse, localRuntime);
    RunInv(Init(retention, retainResponse, localRuntime), before);
    RunInv(s, after);
    forall u: nat ensures IsLife(Path(o.log, u)) {
      PathsAreLives(o.log, u);
    }
  }

  function ClockOf(op: Op): Option<Clock> {
    match op
    case PurgeOp(_) => None
    case _ => Some(op.clock)
  }

  lemma DueTransition(s: StoreState, id: Name, k: Name, expected: Option<TaskState>, next: TaskState, u: Update,
      c: Clock)
    requires id in s.tasks && IsDue(s.tasks[id], c.mono)
    ensures var o := TryTransition(s, k, expected, next, u, c).0;
            && id in o.tasks && o.tasks[id].uid == s.tasks[id].uid
            && (o.tasks[id] == s.tasks[id] || o.tasks[id].state.Expired?)
            && (k == id && expected.None? ==> o.tasks[id].state.Expired?)
  {
    TerminalIffStuck(s.tasks[id].state);
  }

  lemma DueCancel(s: StoreState, id: Name, k: Name, caller: Option<Name>, requestedAt: Option<int>, reason: bool,
      c: Clock)
    requires id in s.tasks && IsDue(s.tasks[id], c.mono)
    ensures var o := CancelTask(s, k, caller, requestedAt, reason, c).0;
            && id in o.tasks && o.tasks[id].uid == s.tasks[id].uid
            && (o.tasks[id] == s.tasks[id] || o.tasks[id].state.Expired?)
            && (k == id ==> o.tasks[id].state.Expired?)
  {
    var e := ExpireIfDue(s, k, c);
    if k in s.tasks && k != id {
      var at := if requestedAt.Some? then requestedAt else Some(c.wall);
      var next := if e.tasks[k].state.Working? then Cancelling else Cancelled;
      var u := Update(None, if next.Cancelled? && reason then Some(CancelledError) else None, true, at, None);
      DueTransition(e, id, k, None, next, u, c);
    }
  }

  /** Whether a call looks at the task whatever its state is. */
  predicate LooksAt(op: Op, id: Name) {
    && (op.BeginOp? || op.CancelOp? || op.ReadOp? || op.ExpireOp? || (op.TransitionOp? && op.expected.None?))
    && op.id == id
  }

  /** From its monotonic deadline on, a task can only become expired, whatever is asked of it;
      and any call that looks at it makes it so. */
  lemma DeadlineWins(s: StoreState, op: Op, id: Name)
    requires ClockOf(op).Some? && id in s.tasks && IsDue(s.tasks[id], ClockOf(op).value.mono)
    ensures var o := Apply(s, op);
            && id in o.tasks && o.tasks[id].uid == s.tasks[id].uid
            && (o.tasks[id] == s.tasks[id] || o.tasks[id].state.Expired?)
    ensures LooksAt(op, id) ==> Apply(s, op).tasks[id].state.Expired?
  {
    match op
    case TransitionOp(k, expected, next, u, c) => DueTransition(s, id, k, expected, next, u, c);
    case ExpireOp(k, c) => DueTransition(s, id, k, None, Expired, EXPIRY, c);
    case BeginOp(k, c) =>
      if k != id {
        DueTransition(ExpireIfDue(s, k, c), id, k, None, Working, NO_UPDATE, c);
      }
    case CancelOp(k, caller, requestedAt, reason, c) => DueCancel(s, id, k, caller, requestedAt, reason, c);
    case _ =>
  }

  ghost predicate NotBefore(ops: seq<Op>, mono: int) {
    forall i | 0 <= i < |ops| && ClockOf(ops[i]).Some? :: ClockOf(ops[i]).value.mono >= mono
  }

  lemma {:induction false} PathGrows(a: seq<Event>, b: seq<Event>, uid: nat)
    requires a <= b
    ensures Path(a, uid) <= Path(b, uid)
    decreases |b|
  {
    if |a| < |b| {
      var e := b[|b| - 1];
      PathOf(b[..|b| - 1], e, uid);
      assert b[..|b| - 1] + [e] == b;
      PathGrows(a, b[..|b| - 1], uid);
    } else {
      assert a == b;
    }
  }

  /** A record that has expired has no later event, whatever becomes of its id. */
  lemma ExpiredForGood(s: StoreState, o: StoreState, uid: nat)
    requires StoreInv(o) && s.log <= o.log && Last(Path(s.log, uid)) == Some(Expired)
    ensures Last(Path(o.log, uid)) == Some(Expired)
  {
    PathGrows(s.log, o.log, uid);
    PathsAreLives(o.log, uid);
    LivesEnd(Path(s.log, uid), Path(o.log, uid));
  }

  lemma LivesEnd(p: seq<TaskState>, q: seq<TaskState>)
    requires IsLife(q) && p <= q && p != [] && IsTerminal(p[|p| - 1])
    ensures p == q
  {
    assert p[|p| - 1] == q[|p| - 1];
  }

  /** From its deadline on, whatever is called in whatever order, a record's last event is the one it had or its
      expiry, even if it is purged and its id used again; once a call has looked at it, it is the expiry. */
  lemma {:induction false} DeadlineWinsInRuns(s: StoreState, ops: seq<Op>, id: Name, mono: int)
    requires StoreInv(s) && id in s.tasks && IsDue(s.tasks[id], mono) && NotBefore(ops, mono)
    ensures var last := Last(Path(Run(s, ops).log, s.tasks[id].uid));
            && (last == Some(s.tasks[id].state) || last == Some(Expired))
            && ((exists i :: 0 <= i < |ops| && LooksAt(ops[i], id)) ==> last == Some(Expired))
    decreases |ops|
  {
    var t := s.tasks[id];
    assert TaskInv(s, id, t);
    if ops != [] {
      var m := Apply(s, ops[0]);
      StepInv(s, ops[0]);
      if ClockOf(ops[0]).Some? {
        assert ClockOf(ops[0]).value.mono >= mono;
        DeadlineWins(s, ops[0], id);
      }
      if m.tasks[id].state.Expired? {
        assert TaskInv(m, id, m.tasks[id]);
        RunInv(m, ops[1..]);
        ExpiredForGood(m, Run(m, ops[1..]), t.uid);
      } else {
        DeadlineWinsInRuns(m, ops[1..], id, mono);
        if i :| 0 <= i < |ops| && LooksAt(ops[i], id) {
          assert ops[1..][i - 1] == ops[i];
        }
      }
    }
  }
}
