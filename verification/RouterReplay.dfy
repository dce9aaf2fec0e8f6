/** Deliveries that come again, in whole runs of the router: a key stays known until its retention ends, a
    request gets the same answer and changes nothing, and a notification is not handled twice. */
module RouterReplay {
  import opened TaskStates
  import opened TaskStoreSpec
  import opened Messages
  import opened RouterSpec
  import opened RouterSteps
  import opened RouterGuarantees
  import opened RouterDedupe
  import P = PolicySpec
  import opened DedupeLaws
  import D = DedupeSpec
  import Traces

  /* ---------- what no step takes away ---------- */

  /** The same record, later: a pending one may be committed since, a committed one is as it was. */
  ghost predicate Aged(r: D.Record, q: D.Record) {
    && q.fingerprint == r.fingerprint && q.expiresAt == r.expiresAt && q.retainedUntil == r.retainedUntil
    && (!r.pending ==> q == r)
  }

  ghost predicate Survives(s: D.DedupeState, o: D.DedupeState, k: D.Key, now: int) {
    k in s.records && now < s.records[k].retainedUntil ==> k in o.records && Aged(s.records[k], o.records[k])
  }

  lemma CommitSurvives(s: D.DedupeState, o: D.DedupeState, v: D.Reservation, k: D.Key, now: int)
    requires Commits(s, o, v, now)
    ensures Survives(s, o, k, now)
  {
  }

  /** A step releases only what it reserved itself, so it drops no key it found. */
  lemma ReservesSurvives(s: D.DedupeState, o: D.DedupeState, v: Envelope, k: D.Key, now: int)
    requires Reserves(s, o, v, now)
    ensures Survives(s, o, k, now)
  {
    var (d, decision) := D.Reserve(s, v, now);
    assert Survives(s, d, k, now);
    if k in s.records && now < s.records[k].retainedUntil && decision.Reserved? {
      assert k != decision.reservation.key;
      if Commits(d, o, decision.reservation, now) {
        CommitSurvives(d, o, decision.reservation, k, now);
      }
    }
  }

  lemma UsesSurvives(s: D.DedupeState, o: D.DedupeState, k: D.Key, now: int)
    requires Uses(s, o, now)
    ensures Survives(s, o, k, now)
  {
    if v :| Reserves(s, o, v, now) {
      ReservesSurvives(s, o, v, k, now);
    } else if v :| Commits(s, o, v, now) {
      CommitSurvives(s, o, v, k, now);
    }
  }

  /** In every run of the router a key that is known between two steps stays known until its retention ends, with
      its content and its deadline; once committed its record is fixed. */
  lemma KeysLiveOut(e: Engine, steps: seq<Timed>, now: int, k: D.Key)
    requires IsRun(e, steps, now)
    requires k in e.dedupe.records && Traces.EndTime(steps, now) < e.dedupe.records[k].retainedUntil
    ensures k in Traces.End(e, steps).dedupe.records
    ensures Aged(e.dedupe.records[k], Traces.End(e, steps).dedupe.records[k])
  {
    var r := e.dedupe.records[k];
    var inv := (u: Engine, at: int) => Known(u, at, k, r);
    forall u, at, t | inv(u, at) && Follows(u, at, t) ensures inv(t.after, t.now) {
      KnownStep(u, at, t, k, r);
    }
    assert inv(e, now);
    Traces.RunsKeep(Follows, inv, e, steps, now);
  }

  ghost predicate Known(u: Engine, at: int, k: D.Key, r: D.Record) {
    at < r.retainedUntil ==> k in u.dedupe.records && Aged(r, u.dedupe.records[k])
  }

  lemma KnownStep(u: Engine, at: int, t: Timed, k: D.Key, r: D.Record)
    requires Known(u, at, k, r) && Follows(u, at, t)
    ensures Known(t.after, t.now, k, r)
  {
    StepUses(u, t.event, t.now);
    UsesSurvives(u.dedupe, t.after.dedupe, k, t.now);
  }

  /* ---------- requests ---------- */

  /** The answer is on record under the request's key. */
  ghost predicate Recorded(d: D.DedupeState, v: Envelope, response: Response) {
    && D.KeyOf(v) in d.records && !d.records[D.KeyOf(v)].pending
    && d.records[D.KeyOf(v)].fingerprint == v.fingerprint && d.records[D.KeyOf(v)].result == Some(response)
  }

  lemma AcknowledgedIsRecorded(f: Engine, r: Request, now: int)
    requires r.envelope.expiresAt > now && D.Inspect(f.dedupe, r.envelope, now).1.NewOperation?
    ensures Recorded(Acknowledged(f, r, now), r.envelope, AckOf(f, r))
    ensures Acknowledged(f, r, now).records[D.KeyOf(r.envelope)].retainedUntil == r.envelope.expiresAt + f.dedupe.grace
  {
    ReserveAgain(f.dedupe, r.envelope, now);
    var d := D.Prune(f.dedupe, now);
    var m := D.Reserve(d, r.envelope, now).0;
    assert D.Prune(d, now) == d && D.Prune(m, now) == m;
  }

  lemma TakenIsRecorded(f: Engine, r: Request, handle: Name, now: int, o: Engine)
    requires Taken(f, r, handle, now, o) && r.envelope.expiresAt > now
    requires D.Inspect(f.dedupe, r.envelope, now).1.NewOperation?
    ensures Recorded(o.dedupe, r.envelope, AckOf(f, r))
    ensures o.dedupe.records[D.KeyOf(r.envelope)].retainedUntil == r.envelope.expiresAt + f.dedupe.grace
  {
    var id := r.envelope.operationId;
    var d := Acknowledged(f, r, now);
    var p :| Kept(Prepared(f, now), TicketFor(f, r, handle), p, SlotFree(f))
             && o == Started(Arrived(f, r, handle, p, now).(dedupe := d, timers := f.timers + {id}), f, r, handle, now);
    var g := Arrived(f, r, handle, p, now).(dedupe := d, timers := f.timers + {id});
    DispatchQuiet(g, id, P.LeaseOf(TicketFor(f, r, handle)), now);
    AcknowledgedIsRecorded(f, r, now);
  }

  lemma AnswerIsRecorded(e: Engine, r: Request, handle: Name, now: int)
    requires Takes(e, r, handle, now) && ProcessRequest(e, r, handle, now).1.Success?
    ensures var (m, response) := ProcessRequest(e, r, handle, now);
            && Recorded(m.dedupe, r.envelope, response)
            && (D.Inspect(e.dedupe, r.envelope, now).1.NewOperation? ==>
                  m.dedupe.records[D.KeyOf(r.envelope)].retainedUntil == r.envelope.expiresAt + e.dedupe.grace)
  {
    if D.Inspect(e.dedupe, r.envelope, now).1.NewOperation? {
      NewAnswerIsRecorded(e, r, handle, now);
    }
  }

  lemma NewAnswerIsRecorded(e: Engine, r: Request, handle: Name, now: int)
    requires Takes(e, r, handle, now) && ProcessRequest(e, r, handle, now).1.Success?
    requires D.Inspect(e.dedupe, r.envelope, now).1.NewOperation?
    ensures var (m, response) := ProcessRequest(e, r, handle, now);
            && Recorded(m.dedupe, r.envelope, response)
            && m.dedupe.records[D.KeyOf(r.envelope)].retainedUntil == r.envelope.expiresAt + e.dedupe.grace
  {
    var f := Inspected(e, r, now);
    RequestIsAdmitted(e, r, handle, now);
    PrunedIsNew(e.dedupe, r.envelope, now);
    AdmitUnfolds(f, r, handle, now);
    TakenIsRecorded(f, r, handle, now, ProcessRequest(e, r, handle, now).0);
  }

  lemma RequestIsAdmitted(e: Engine, r: Request, handle: Name, now: int)
    requires ProcessRequest(e, r, handle, now).1.Success? && D.Inspect(e.dedupe, r.envelope, now).1.NewOperation?
    ensures var f := Inspected(e, r, now);
            ProcessRequest(e, r, handle, now) == AdmitRequest(f, r, handle, now)
  {
  }

  lemma PrunedIsNew(d: D.DedupeState, v: Envelope, now: int)
    requires D.Inspect(d, v, now).1.NewOperation?
    ensures var p := D.Prune(d, now);
            D.Prune(p, now) == p && D.Inspect(p, v, now).1.NewOperation? && p.grace == d.grace
  {
  }

  /** What is on record is what the same delivery is answered with, and nothing else happens. */
  lemma RecordIsReplayed(e: Engine, r: Request, handle: Name, now: int, response: Response)
    requires Recorded(e.dedupe, r.envelope, response) && r.envelope.operation == MessageRequest
    requires now < e.dedupe.records[D.KeyOf(r.envelope)].retainedUntil
    ensures ProcessRequest(e, r, handle, now) == (e.(dedupe := D.Prune(e.dedupe, now)), response)
  {
  }

  /** In every run of a new router, with any retention of tasks: once a request was taken or replayed, every
      delivery of it before its record's retention ends gets the same answer and leaves every map and log as it
      was, whatever happened in between. A request that was new stays on record until its deadline plus grace. */
  lemma RetransmissionIsReplayed(config: Config, queueCapacity: nat, activeCapacity: nat, retention: Option<nat>,
      grace: nat, now: int, before: seq<Timed>, r: Request, handle: Name, at: int, after: seq<Timed>,
      handle': Name, later: int)
    requires var start := Init(config, queueCapacity, activeCapacity, retention, grace, now);
             var e := Traces.End(start, before);
             var (m, response) := ProcessRequest(e, r, handle, at);
             && IsRun(start, before, now) && Traces.EndTime(before, now) <= at && Arrivable(e, r, handle, at)
             && response.Success? && IsRun(m, after, at) && Traces.EndTime(after, at) <= later
    ensures var e := Traces.End(Init(config, queueCapacity, activeCapacity, retention, grace, now), before);
            var (m, response) := ProcessRequest(e, r, handle, at);
            var o := Traces.End(m, after);
            && D.KeyOf(r.envelope) in m.dedupe.records
            && var until := m.dedupe.records[D.KeyOf(r.envelope)].retainedUntil;
               && (later < until ==>
                     ProcessRequest(o, r, handle', later) == (o.(dedupe := D.Prune(o.dedupe, later)), response))
               && (D.Inspect(e.dedupe, r.envelope, at).1.NewOperation? ==>
                     until == r.envelope.expiresAt + e.dedupe.grace)
  {
    var start := Init(config, queueCapacity, activeCapacity, retention, grace, now);
    var e := Traces.End(start, before);
    assert Reaches(e, start, before, now);
    ReachedIsInService(e, start, before, now);
    var (m, response) := ProcessRequest(e, r, handle, at);
    AnswerIsRecorded(e, r, handle, at);
    var k := D.KeyOf(r.envelope);
    if later < m.dedupe.records[k].retainedUntil {
      KeysLiveOut(m, after, at, k);
      RecordIsReplayed(Traces.End(m, after), r, handle', later, response);
    }
  }

  /* ---------- notifications ---------- */

  /** The notification is handed to its handler. */
  predicate Handles(e: Engine, n: Envelope, now: int) {
    NotifyStart(e, n, now).1.Reserved?
  }

  lemma HandledIsKnown(e: Engine, n: Envelope, now: int)
    requires Handles(e, n, now) && n.expiresAt > now
    ensures var d, k := NotifyStart(e, n, now).0.dedupe, D.KeyOf(n);
            k in d.records && d.records[k].retainedUntil == n.expiresAt + e.dedupe.grace
  {
  }

  /** In every run of the router, from any state: a notification that was handed to its handler is not handed to
      it again while it can arrive, whether or not the handler has finished or failed since. */
  lemma NotifiedOnce(e: Engine, n: Envelope, now: int, after: seq<Timed>, n': Envelope, later: int)
    requires Handles(e, n, now) && n.expiresAt > now
    requires IsRun(NotifyStart(e, n, now).0, after, now) && Traces.EndTime(after, now) <= later
    requires D.KeyOf(n') == D.KeyOf(n) && n'.expiresAt <= n.expiresAt
    requires Enabled(Traces.End(NotifyStart(e, n, now).0, after), NotificationArrives(n'), later)
    ensures !Handles(Traces.End(NotifyStart(e, n, now).0, after), n', later)
  {
    var m := NotifyStart(e, n, now).0;
    HandledIsKnown(e, n, now);
    KeysLiveOut(m, after, now, D.KeyOf(n));
  }

  /** What a notification's handler came to is what every later delivery is told: delivered, or an internal error. */
  lemma HandlerOutcomeIsReplayed(e: Engine, n: Envelope, now: int, delivered: bool, done: int, later: int)
    requires Handles(e, n, now) && now <= done <= later < n.expiresAt + e.dedupe.grace && n.expiresAt > now
    ensures var v := NotifyStart(e, n, now).1.reservation;
            var o := NotifyDone(NotifyStart(e, n, now).0, v, delivered, done);
            && o == e.(dedupe := o.dedupe)
            && NotifyStart(o, n, later).1
               == D.Replay(if delivered then Success(NotificationDelivered) else Failure(Internal), None)
            && |o.dedupe.commits| == |e.dedupe.commits| + 1
  {
    var (m, decision) := NotifyStart(e, n, now);
    var v := decision.reservation;
    CommitTable(m.dedupe, v, if delivered then Success(NotificationDelivered) else Failure(Internal), None, done);
    ReservationTable(e.dedupe, n, now);
    var o := NotifyDone(m, v, delivered, done);
    InspectionTable(o.dedupe, n, later);
    ReservationTable(o.dedupe, n, later);
  }

  /** A router without a handler takes no notification. */
  lemma NoHandlerNoNotification(e: Engine, n: Envelope, now: int)
    requires !e.config.supportsNotifications
    ensures NotifyStart(e, n, now) == (e, D.Ignored)
  {
  }
}
