/** The routing policy as a value: the queue, the active leases and nothing else.
    The class in RoutingPolicies keeps five indexes beside these; here every lookup is a scan. */
module PolicySpec {
  import opened TaskStates

  /** What an entry says about the task it stands for. `AbortedMark` and `UnknownName` are
      strings outside the state table. */
  datatype EntryState = Unspecified | AbortedMark | UnknownName | OfTask(state: TaskState)

  /** A queue entry; `ref` stands for the identity of the caller's object. */
  datatype Entry = Entry(
    ref: Name,
    id: Option<Name>,
    requestId: Option<Name>,
    expiresAt: int,
    cancelled: bool,
    aborted: bool,
    state: EntryState,
    runnable: bool)

  /** What the entry's `isCancelled` callback and abort signal answer during one step. */
  type Probe = Entry -> bool

  /** What the clock and the callbacks answer at one point of an operation. */
  datatype Reading = Reading(sample: int, probe: Probe)

  datatype Status = Candidate | Waiting | Active

  /** The fields of a record that never change. */
  datatype Ticket = Ticket(token: nat, handle: Name, entry: Entry)

  datatype QueueRecord = QueueRecord(
    ticket: Ticket,
    status: Status,
    expired: bool,
    expiryNotified: bool,
    cancellationRequested: bool)

  datatype Lease = Lease(handle: Name, requestId: Option<Name>, entry: Entry, expiresAt: int)

  /** One call of the expiry observer. */
  datatype Notice = Notice(token: nat, entry: Entry)

  datatype PolicyState = PolicyState(
    queueCapacity: nat,
    activeCapacity: nat,
    queue: seq<QueueRecord>,
    active: seq<QueueRecord>,
    nextToken: nat,
    lastNow: int,
    notices: seq<Notice>)

  datatype Admission =
    | Admitted(lease: Lease)
    | Enqueued(handle: Name, position: nat)
    | Busy
    | ExpiredEntry
    | CancelledEntry

  datatype Target =
    | ByString(name: Name)
    | ByLease(lease: Lease)
    | ByEntry(entry: Entry)
    | ByReference(handle: Name, owner: Option<Name>)

  datatype Lookup = Found(ticket: Ticket) | NotFound | Ambiguous

  datatype CancelOutcome =
    | CancelCommitted(ticket: Ticket)
    | CancelRequestedOn(ticket: Ticket)
    | CancelExpired(ticket: Ticket)
    | NotCancelable(ticket: Ticket)
    | CancelNotFound
    | CancelAmbiguous

  /* ---------- guards ---------- */

  predicate RunnableState(state: EntryState) {
    match state
    case Unspecified => true
    case OfTask(s) => s.Accepted? || s.Queued?
    case _ => false
  }

  predicate CancellationRequested(entry: Entry, probe: Probe) {
    entry.cancelled || entry.aborted || entry.state in {OfTask(Cancelled), OfTask(Cancelling)} || probe(entry)
  }

  predicate TerminalOrAborted(state: EntryState) {
    match state
    case AbortedMark => true
    case OfTask(s) => IsTerminal(s)
    case _ => false
  }

  predicate Runnable(r: QueueRecord, now: int, probe: Probe) {
    && (r.status.Candidate? || r.status.Waiting?)
    && !r.expired
    && !r.cancellationRequested
    && r.ticket.entry.runnable
    && r.ticket.entry.expiresAt > now
    && RunnableState(r.ticket.entry.state)
    && !CancellationRequested(r.ticket.entry, probe)
  }

  predicate Due(r: QueueRecord, now: int) {
    r.ticket.entry.expiresAt <= now
  }

  function Fresh(ticket: Ticket): QueueRecord {
    QueueRecord(ticket, Candidate, false, false, false)
  }

  function LeaseOf(ticket: Ticket): Lease {
    Lease(ticket.handle, ticket.entry.requestId, ticket.entry, ticket.entry.expiresAt)
  }

  /* ---------- sequences of records ---------- */

  function Tickets(rs: seq<QueueRecord>): set<Ticket> {
    set r | r in rs :: r.ticket
  }

  function Retained(s: PolicyState): set<Ticket> {
    Tickets(s.queue) + Tickets(s.active)
  }

  /** The records that stay in the queue at `now`, in their order. */
  function Keep(rs: seq<QueueRecord>, now: int, probe: Probe): seq<QueueRecord> {
    if rs == [] then []
    else if Runnable(rs[0], now, probe) then [rs[0]] + Keep(rs[1..], now, probe)
    else Keep(rs[1..], now, probe)
  }

  /** Notices for the records that are due, the last one first: the scan runs backward. */
  function NoticesBackward(rs: seq<QueueRecord>, now: int): seq<Notice> {
    if rs == [] then []
    else NoticesBackward(rs[1..], now) + NoticeIfDue(rs[0], now)
  }

  function NoticeIfDue(r: QueueRecord, now: int): seq<Notice> {
    if Due(r, now) then [Notice(r.ticket.token, r.ticket.entry)] else []
  }

  /** Marks every active record that is due; marking is idempotent. */
  function MarkDue(rs: seq<QueueRecord>, now: int): seq<QueueRecord> {
    if rs == [] then [] else [Marked(rs[0], now)] + MarkDue(rs[1..], now)
  }

  function Marked(r: QueueRecord, now: int): QueueRecord {
    if Due(r, now) && !r.expired then r.(expired := true, expiryNotified := true) else r
  }

  function NoticesForward(rs: seq<QueueRecord>, now: int): seq<Notice> {
    if rs == [] then []
    else
      (if Due(rs[0], now) && !rs[0].expired && !rs[0].expiryNotified
          then [Notice(rs[0].ticket.token, rs[0].ticket.entry)] else [])
      + NoticesForward(rs[1..], now)
  }

  function Without(rs: seq<QueueRecord>, token: nat): seq<QueueRecord> {
    if rs == [] then []
    else if rs[0].ticket.token == token then Without(rs[1..], token)
    else [rs[0]] + Without(rs[1..], token)
  }

  /** Replaces the record with this token. */
  function Replace(rs: seq<QueueRecord>, updated: QueueRecord): seq<QueueRecord> {
    if rs == [] then []
    else [if rs[0].ticket.token == updated.ticket.token then updated else rs[0]] + Replace(rs[1..], updated)
  }

  function Max(a: int, b: int): int { if a < b then b else a }

  /* ---------- operations ---------- */

  /** A clock sample never moves the observed time back. */
  function Observe(s: PolicyState, sample: int): PolicyState {
    s.(lastNow := Max(s.lastNow, sample))
  }

  function Expire(s: PolicyState, at: Reading): PolicyState {
    var now := Max(s.lastNow, at.sample);
    s.(lastNow := now,
       queue := Keep(s.queue, now, at.probe),
       active := MarkDue(s.active, now),
       notices := s.notices + NoticesBackward(s.queue, now) + NoticesForward(s.active, now))
  }

  function Remove(s: PolicyState, token: nat): PolicyState {
    s.(queue := Without(s.queue, token), active := Without(s.active, token))
  }

  function Activate(s: PolicyState, ticket: Ticket): PolicyState {
    s.(active := s.active + [Fresh(ticket).(status := Active)])
  }

  function Refusal(ticket: Ticket, now: int): Admission {
    if ticket.entry.expiresAt <= now then ExpiredEntry else CancelledEntry
  }

  /** Direct admission, once the candidate passed the first guard: the second reading decides. */
  function Start(s: PolicyState, ticket: Ticket, at: Reading): (PolicyState, Admission) {
    if |s.active| >= s.activeCapacity then (s, Busy)
    else
      var o := Observe(s, at.sample);
      if Runnable(Fresh(ticket), o.lastNow, at.probe) then (Activate(o, ticket), Admitted(LeaseOf(ticket)))
      else (o, Refusal(ticket, o.lastNow))
  }

  /** Queued admission, once the candidate passed the first guard. */
  function Enqueue(s: PolicyState, ticket: Ticket, at: Reading): (PolicyState, Admission) {
    var e := Expire(s, at);
    if !Runnable(Fresh(ticket), e.lastNow, at.probe) then (e, Refusal(ticket, e.lastNow))
    else if |e.queue| >= e.queueCapacity then (e, Busy)
    else (e.(queue := e.queue + [Fresh(ticket).(status := Waiting)]), Enqueued(ticket.handle, |e.queue| + 1))
  }

  function Decide(s: PolicyState, ticket: Ticket, startNow: bool, first: Reading, second: Reading): (PolicyState,
      Admission) {
    if !Runnable(Fresh(ticket), s.lastNow, first.probe) then (s, Refusal(ticket, s.lastNow))
    else if startNow then Start(s, ticket, second)
    else Enqueue(s, ticket, second)
  }

  function Admit(s: PolicyState, entry: Entry, handle: Name, startNow: bool, first: Reading,
      second: Reading): (PolicyState, Admission) {
    var e := Expire(s, first);
    Decide(e.(nextToken := e.nextToken + 1), Ticket(e.nextToken, handle, entry), startNow, first, second)
  }

  /** Drops records from the head until one can run; that one becomes active. */
  function Claim(s: PolicyState, at: Reading): (PolicyState, Option<Ticket>)
    decreases |s.queue|
  {
    if s.queue == [] then (s, None)
    else
      var o := Observe(s, at.sample).(queue := s.queue[1..]);
      var r := s.queue[0];
      if Runnable(r, o.lastNow, at.probe) then (Activate(o, r.ticket), Some(r.ticket))
      else
        Claim(o.(notices := o.notices + NoticeIfDue(r, o.lastNow)), at)
  }

  function Dequeue(s: PolicyState, first: Reading, second: Reading): (PolicyState, Option<Ticket>) {
    var e := Expire(s, first);
    if |e.active| >= e.activeCapacity then (e, None) else Claim(e, second)
  }

  function MarkExpired(s: PolicyState, r: QueueRecord): PolicyState {
    s.(active := Replace(s.active, r.(expired := true, expiryNotified := true)),
       notices := if r.expiryNotified then s.notices else s.notices + [Notice(r.ticket.token, r.ticket.entry)])
  }

  /** Cancelling an active lease only asks for a stop; the slot stays taken. */
  function CancelActive(s: PolicyState, r: QueueRecord, at: Reading): (PolicyState, CancelOutcome) {
    var o := Observe(s, at.sample);
    if Due(r, o.lastNow) then (MarkExpired(o, r), CancelExpired(r.ticket))
    else if !r.cancellationRequested && !CancellationRequested(r.ticket.entry, at.probe)
        && TerminalOrAborted(r.ticket.entry.state) then
      (o, NotCancelable(r.ticket))
    else (o.(active := Replace(o.active, r.(cancellationRequested := true))), CancelRequestedOn(r.ticket))
  }

  /** Cancelling a queued record always removes it; the outcome says why. */
  function CancelWaiting(s: PolicyState, r: QueueRecord, at: Reading): (PolicyState, CancelOutcome) {
    if CancellationRequested(r.ticket.entry, at.probe) then (Remove(s, r.ticket.token), CancelCommitted(r.ticket))
    else
      var o := Remove(Observe(s, at.sample), r.ticket.token);
      if Due(r, o.lastNow) then (MarkExpired(o, r), CancelExpired(r.ticket))
      else if Runnable(r, o.lastNow, at.probe) then (o, CancelCommitted(r.ticket))
      else (o, NotCancelable(r.ticket))
  }

  function CancelRecord(s: PolicyState, r: QueueRecord, first: Reading, second: Reading): (PolicyState, CancelOutcome) {
    var o := Observe(s, first.sample);
    if r.expired || Due(r, o.lastNow) then
      (MarkExpired(if r.status.Active? then o else Remove(o, r.ticket.token), r), CancelExpired(r.ticket))
    else if r.status.Active? then CancelActive(o, r, second)
    else CancelWaiting(o, r, second)
  }

  /* ---------- records named by a handle or a request id ---------- */

  function TokenWithHandle(rs: seq<QueueRecord>, handle: Name): Option<nat> {
    if rs == [] then None
    else if rs[0].ticket.handle == handle then Some(rs[0].ticket.token)
    else TokenWithHandle(rs[1..], handle)
  }

  /** Releasing a lease or a queued handle. */
  function Release(s: PolicyState, handle: Name): PolicyState {
    match TokenWithHandle(s.active + s.queue, handle)
    case Some(token) => Remove(s, token)
    case None => s
  }

  function WithRequest(rs: seq<QueueRecord>, requestId: Name): seq<QueueRecord> {
    if rs == [] then []
    else (if rs[0].ticket.entry.requestId == Some(requestId) then [rs[0]] else []) + WithRequest(rs[1..], requestId)
  }

  /** Cancellation by request id acts only when one record has it. */
  function CancelByRequestId(s: PolicyState, requestId: Name, first: Reading, second: Reading): PolicyState {
    var rs := WithRequest(s.queue + s.active, requestId);
    if |rs| == 1 then CancelRecord(s, rs[0], first, second).0 else s
  }

  /* ---------- lookup by scanning ---------- */

  predicate Owned(t: Ticket, requestId: Option<Name>) {
    requestId.Some? ==> t.entry.requestId == requestId
  }

  /** The retained records a target names, as a scan of queue and active leases finds them:
      a handle first, then a caller id, then a request id. */
  ghost function Candidates(retained: set<Ticket>, leased: set<Ticket>, target: Target,
      requestId: Option<Name>): set<Ticket> {
    match target
    case ByString(name) =>
      var byHandle := set t | t in retained && t.handle == name;
      var byId := set t | t in retained && t.entry.id == Some(name);
      var byRequest := set t | t in retained && t.entry.requestId == Some(name);
      if byHandle != {} then byHandle else if byId != {} then byId else byRequest
    case ByLease(lease) =>
      var byLease := set t | t in leased && LeaseOf(t) == lease;
      if byLease != {} then byLease
      else set t | t in retained && t.handle == lease.handle && Owned(t, lease.requestId)
    case ByEntry(entry) => set t | t in retained && t.entry.ref == entry.ref
    case ByReference(handle, owner) => set t | t in retained && t.handle == handle && Owned(t, owner)
  }

  ghost function Named(retained: set<Ticket>, leased: set<Ticket>, target: Target,
      requestId: Option<Name>): set<Ticket> {
    set t | t in Candidates(retained, leased, target, requestId) && Owned(t, requestId)
  }

  /** Found with one match, ambiguous with several. */
  ghost predicate Resolves(lookup: Lookup, matches: set<Ticket>) {
    match lookup
    case Found(t) => matches == {t}
    case NotFound => matches == {}
    case Ambiguous => exists a, b :: a in matches && b in matches && a != b
  }
}
