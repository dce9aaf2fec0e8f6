/** The dedupe store as a value, and what it guarantees over whole runs. */
module DedupeSpec {
  import opened TaskStates
  import opened TaskStoreSpec
  import opened Messages

  datatype Key = Key(sender: Name, operationId: Name)

  datatype Record = Record(fingerprint: Name, expiresAt: int, retainedUntil: int, pending: bool,
      result: Option<Response>, reference: Option<Name>)

  datatype Reservation = Reservation(key: Key, fingerprint: Name, retainedUntil: int)

  /** One effect made permanent. */
  datatype Commitment = Commitment(key: Key, fingerprint: Name, expiresAt: int, result: Response)

  datatype DedupeState = DedupeState(grace: nat, records: map<Key, Record>, commits: seq<Commitment>)

  datatype Decision =
    | NewOperation
    | Reserved(reservation: Reservation)
    | Replay(result: Response, reference: Option<Name>)
    | DuplicateKey
    | Pending
    | Stored
    | BusyDecision
    | ExpiredReservation
    | Ignored

  predicate IsDeduplicated(op: Operation) {
    op in {MessageRequest, MessageNotify, MessageReply, TaskCancel}
  }

  function KeyOf(e: Envelope): Key {
    Key(e.sender, e.operationId)
  }

  predicate IsBusy(r: Response) {
    r == Failure(BusyError)
  }

  function Prune(s: DedupeState, now: int): DedupeState {
    s.(records := map k | k in s.records && s.records[k].retainedUntil > now :: s.records[k])
  }

  function Existing(r: Record, fingerprint: Name): Decision {
    if r.fingerprint != fingerprint then DuplicateKey
    else if r.pending || r.result.None? then Pending
    else Replay(r.result.value, r.reference)
  }

  function Inspect(s: DedupeState, e: Envelope, now: int): (DedupeState, Decision) {
    var p := Prune(s, now);
    if !IsDeduplicated(e.operation) then (p, Ignored)
    else if KeyOf(e) in p.records then (p, Existing(p.records[KeyOf(e)], e.fingerprint))
    else (p, NewOperation)
  }

  function Reserve(s: DedupeState, e: Envelope, now: int): (DedupeState, Decision) {
    var (p, d) := Inspect(s, e, now);
    if d.NewOperation? then
      var until := e.expiresAt + s.grace;
      var r := Record(e.fingerprint, e.expiresAt, until, true, None, None);
      (if until <= now then p else p.(records := p.records[KeyOf(e) := r]),
          Reserved(Reservation(KeyOf(e), e.fingerprint, until)))
    else (p, d)
  }

  function Release(s: DedupeState, v: Reservation, now: int): (DedupeState, bool) {
    var p := Prune(s, now);
    if v.key in p.records && p.records[v.key].pending && p.records[v.key].fingerprint == v.fingerprint
    then (p.(records := p.records - {v.key}), true)
    else (p, false)
  }

  function Commit(s: DedupeState, v: Reservation, response: Response, reference: Option<Name>, now: int): (DedupeState,
      Decision) {
    var p := Prune(s, now);
    if IsBusy(response) then (Release(p, v, now).0, BusyDecision)
    else if v.key !in p.records then (p, ExpiredReservation)
    else if p.records[v.key].fingerprint != v.fingerprint then (p, DuplicateKey)
    else if !p.records[v.key].pending then (p, Existing(p.records[v.key], v.fingerprint))
    else
      var r := p.records[v.key];
      (p.(records := p.records[v.key := r.(pending := false, result := Some(response), reference := reference)],
          commits := p.commits + [Commitment(v.key, r.fingerprint, r.expiresAt, response)]),
       Stored)
  }

  function Init(grace: nat): DedupeState {
    DedupeState(grace, map[], [])
  }

  /* ---------- the invariant ---------- */

  ghost predicate Means(c: Commitment, k: Key, r: Record) {
    c.key == k && c.fingerprint == r.fingerprint && c.expiresAt == r.expiresAt
  }

  ghost predicate RecordOk(s: DedupeState, k: Key, r: Record) {
    && r.retainedUntil == r.expiresAt + s.grace
    && (r.pending <==> r.result.None?)
    && (r.pending ==> forall c {:trigger Means(c, k, r)} :: c in s.commits ==> !Means(c, k, r))
  }

  /** A commitment is still replayed, unless its operation can no longer be admitted. */
  ghost predicate CommitmentOk(s: DedupeState, c: Commitment, now: int) {
    now >= c.expiresAt
    || (c.key in s.records && Means(c, c.key, s.records[c.key]) && s.records[c.key].result == Some(c.result))
  }

  ghost predicate DedupeInv(s: DedupeState, now: int) {
    && (forall k {:trigger RecordOk(s, k, s.records[k])} :: k in s.records ==> RecordOk(s, k, s.records[k]))
    && (forall c {:trigger CommitmentOk(s, c, now)} :: c in s.commits ==> CommitmentOk(s, c, now))
    && (forall i, j | 0 <= i < j < |s.commits| :: !SameOperation(s.commits[i], s.commits[j]))
  }

  ghost predicate SameOperation(c: Commitment, d: Commitment) {
    c.key == d.key && c.fingerprint == d.fingerprint && c.expiresAt == d.expiresAt
  }

  /* ---------- calls and runs ---------- */

  datatype Call =
    | InspectCall(envelope: Envelope, now: int)
    | ReserveCall(envelope: Envelope, now: int)
    | CommitCall(reservation: Reservation, response: Response, reference: Option<Name>, now: int)
    | ReleaseCall(reservation: Reservation, now: int)
    | PruneCall(now: int)

  function Apply(s: DedupeState, c: Call): DedupeState {
    match c
    case InspectCall(e, now) => Inspect(s, e, now).0
    case ReserveCall(e, now) => Reserve(s, e, now).0
    case CommitCall(v, response, reference, now) => Commit(s, v, response, reference, now).0
    case ReleaseCall(v, now) => Release(s, v, now).0
    case PruneCall(now) => Prune(s, now)
  }

  function Run(s: DedupeState, calls: seq<Call>): DedupeState
    decreases |calls|
  {
    if calls == [] then s else Run(Apply(s, calls[0]), calls[1..])
  }

  /** The clock does not go back, and only envelopes that are still valid are reserved: that is what
      envelope validation checks before the router asks. */
  ghost predicate Admissible(calls: seq<Call>, now: int) {
    calls != [] ==>
      && calls[0].now >= now
      && (calls[0].ReserveCall? ==> calls[0].envelope.expiresAt > calls[0].now)
      && Admissible(calls[1..], calls[0].now)
  }

  lemma PruneInv(s: DedupeState, now: int, later: int)
    requires DedupeInv(s, now) && now <= later
    ensures DedupeInv(Prune(s, later), later)
    ensures forall k | k in Prune(s, later).records :: k in s.records && Prune(s, later).records[k] == s.records[k]
  {
    var p := Prune(s, later);
    forall k | k in p.records ensures RecordOk(p, k, p.records[k]) {
      assert RecordOk(s, k, s.records[k]);
    }
    forall c | c in p.commits ensures CommitmentOk(p, c, later) {
      assert CommitmentOk(s, c, now);
      if later < c.expiresAt {
        assert RecordOk(s, c.key, s.records[c.key]);
      }
    }
  }

  lemma ReserveInv(s: DedupeState, now: int, e: Envelope, later: int)
    requires DedupeInv(s, now) && now <= later < e.expiresAt
    ensures DedupeInv(Reserve(s, e, later).0, later)
  {
    PruneInv(s, now, later);
    var p := Prune(s, later);
    var (o, d) := Reserve(s, e, later);
    if d.Reserved? {
      forall c | c in o.commits ensures CommitmentOk(o, c, later) {
        assert CommitmentOk(p, c, later);
      }
      forall k | k in o.records ensures RecordOk(o, k, o.records[k]) {
        if k != KeyOf(e) {
          assert RecordOk(p, k, p.records[k]);
        } else {
          forall c | c in o.commits ensures !Means(c, k, o.records[k]) {
            assert CommitmentOk(p, c, later);
          }
        }
      }
    }
  }

  lemma ReleaseInv(s: DedupeState, now: int, v: Reservation, later: int)
    requires DedupeInv(s, now) && now <= later
    ensures DedupeInv(Release(s, v, later).0, later)
  {
    PruneInv(s, now, later);
    var p := Prune(s, later);
    var o := Release(s, v, later).0;
    forall k | k in o.records ensures RecordOk(o, k, o.records[k]) {
      assert RecordOk(p, k, p.records[k]);
    }
    forall c | c in o.commits ensures CommitmentOk(o, c, later) {
      assert CommitmentOk(p, c, later);
      if v.key in p.records {
        assert RecordOk(p, v.key, p.records[v.key]);
      }
    }
  }

  lemma CommitInv(s: DedupeState, now: int, v: Reservation, response: Response, reference: Option<Name>, later: int)
    requires DedupeInv(s, now) && now <= later
    ensures DedupeInv(Commit(s, v, response, reference, later).0, later)
  {
    PruneInv(s, now, later);
    var p := Prune(s, later);
    var (o, d) := Commit(s, v, response, reference, later);
    if IsBusy(response) {
      ReleaseInv(p, later, v, later);
    } else if d.Stored? {
      var r := p.records[v.key];
      assert RecordOk(p, v.key, r);
      var added := Commitment(v.key, r.fingerprint, r.expiresAt, response);
      forall i | 0 <= i < |p.commits| ensures !SameOperation(p.commits[i], added) {
        assert p.commits[i] in p.commits && !Means(p.commits[i], v.key, r);
      }
      forall k | k in o.records ensures RecordOk(o, k, o.records[k]) {
        assert RecordOk(p, k, p.records[k]);
        if o.records[k].pending {
          forall c | c in o.commits ensures !Means(c, k, o.records[k]) {
            assert c in p.commits ==> !Means(c, k, p.records[k]);
          }
        }
      }
      forall c | c in o.commits ensures CommitmentOk(o, c, later) {
        if c != added {
          assert CommitmentOk(p, c, later);
        }
      }
    }
  }

  lemma StepInv(s: DedupeState, now: int, c: Call)
    requires DedupeInv(s, now) && Admissible([c], now)
    ensures DedupeInv(Apply(s, c), c.now)
  {
    match c
    case InspectCall(e, later) => PruneInv(s, now, later);
    case ReserveCall(e, later) => ReserveInv(s, now, e, later);
    case CommitCall(v, response, reference, later) => CommitInv(s, now, v, response, reference, later);
    case ReleaseCall(v, later) => ReleaseInv(s, now, v, later);
    case PruneCall(later) => PruneInv(s, now, later);
  }

  function EndOf(calls: seq<Call>, now: int): int {
    if calls == [] then now else calls[|calls| - 1].now
  }

  lemma {:induction false} RunInv(s: DedupeState, now: int, calls: seq<Call>)
    requires DedupeInv(s, now) && Admissible(calls, now)
    ensures DedupeInv(Run(s, calls), EndOf(calls, now))
    decreases |calls|
  {
    if calls != [] {
      StepInv(s, now, calls[0]);
      RunInv(Apply(s, calls[0]), calls[0].now, calls[1..]);
    }
  }

  /** In every run of a new store, one operation (sender, id and content) commits an effect at most once. */
  lemma EffectsCommitOnce(grace: nat, now: int, calls: seq<Call>)
    requires Admissible(calls, now)
    ensures var o := Run(Init(grace), calls);
            forall i, j | 0 <= i < j < |o.commits| :: !SameOperation(o.commits[i], o.commits[j])
  {
    RunInv(Init(grace), now, calls);
  }

  ghost predicate AllBefore(calls: seq<Call>, until: int) {
    forall i | 0 <= i < |calls| :: calls[i].now < until
  }

  /** While its retention lasts a committed record outlives every sequence of calls as it is, so every
      later delivery of the same content gets the outcome that was committed, the same one each time, and
      any other content under the key is a duplicate. */
  lemma {:induction false} CommittedRecordsAreFixed(s: DedupeState, calls: seq<Call>, k: Key, e: Envelope, now: int)
    requires k in s.records && s.records[k].result.Some? && !s.records[k].pending
    requires AllBefore(calls, s.records[k].retainedUntil) && now < s.records[k].retainedUntil
    requires IsDeduplicated(e.operation) && KeyOf(e) == k
    ensures var o, r := Run(s, calls), s.records[k];
            && k in o.records && o.records[k] == r
            && Reserve(o, e, now) == (Prune(o, now), if e.fingerprint == r.fingerprint
                then Replay(r.result.value, r.reference) else DuplicateKey)
            && Inspect(o, e, now) == Reserve(o, e, now)
    decreases |calls|
  {
    if calls != [] {
      var m := Apply(s, calls[0]);
      assert calls[0].now < s.records[k].retainedUntil;
      assert k in m.records && m.records[k] == s.records[k];
      CommittedRecordsAreFixed(m, calls[1..], k, e, now);
    }
  }

  /** A live key keeps its fingerprint until its reservation is released. */
  lemma LiveKeysKeepTheirFingerprint(s: DedupeState, c: Call, k: Key)
    requires k in s.records && c.now < s.records[k].retainedUntil
    ensures k in Apply(s, c).records ==> Apply(s, c).records[k].fingerprint == s.records[k].fingerprint
    ensures k !in Apply(s, c).records ==>
              s.records[k].pending && (c.ReleaseCall? || (c.CommitCall? && IsBusy(c.response)))
              && c.reservation.key == k && c.reservation.fingerprint == s.records[k].fingerprint
  {
  }
}
