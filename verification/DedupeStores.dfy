/** The dedupe store as the class the router owns. */
module DedupeStores {
  import opened TaskStates
  import opened Messages
  import opened DedupeSpec

  class DedupeStore {
    const grace: nat
    var records: map<Key, Record>
    ghost var commits: seq<Commitment>

    ghost function State(): DedupeState
      reads this
    {
      DedupeState(grace, records, commits)
    }

    constructor (grace: nat)
      ensures State() == DedupeSpec.Init(grace)
    {
      this.grace := grace;
      records := map[];
      commits := [];
    }

    /** Deletes, one by one, the records whose retention has run out. */
    method Prune(now: int) returns (removed: nat)
      modifies `records
      ensures State() == DedupeSpec.Prune(old(State()), now)
      ensures removed == |old(records)| - |records|
    {
      removed := 0;
      var todo := records.Keys;
      while todo != {}
        invariant todo <= records.Keys <= old(records).Keys
        invariant forall k | k in records :: records[k] == old(records)[k]
        invariant forall k | k in old(records) :: k in records <==> k in todo || old(records)[k].retainedUntil > now
        invariant removed == |old(records)| - |records|
        decreases todo
      {
        var k :| k in todo;
        todo := todo - {k};
        if records[k].retainedUntil <= now {
          assert records.Keys - {k} == (records - {k}).Keys;
          records := records - {k};
          removed := removed + 1;
        }
      }
    }

    method Inspect(e: Envelope, now: int) returns (d: Decision)
      modifies `records
      ensures (State(), d) == DedupeSpec.Inspect(old(State()), e, now)
    {
      var _ := Prune(now);
      if !IsDeduplicated(e.operation) {
        return Ignored;
      }
      if KeyOf(e) !in records {
        return NewOperation;
      }
      return Existing(records[KeyOf(e)], e.fingerprint);
    }

    method Reserve(e: Envelope, now: int) returns (d: Decision)
      modifies `records
      ensures (State(), d) == DedupeSpec.Reserve(old(State()), e, now)
    {
      var _ := Prune(now);
      if !IsDeduplicated(e.operation) {
        return Ignored;
      }
      if KeyOf(e) in records {
        return Existing(records[KeyOf(e)], e.fingerprint);
      }
      var until := e.expiresAt + grace;
      var r := Record(e.fingerprint, e.expiresAt, until, true, None, None);
      ghost var pruned := records;
      records := records[KeyOf(e) := r];
      if until <= now {
        records := records - {KeyOf(e)};
        assert records == pruned;
      }
      return Reserved(Reservation(KeyOf(e), e.fingerprint, until));
    }

    method Release(v: Reservation, now: int) returns (released: bool)
      modifies `records
      ensures (State(), released) == DedupeSpec.Release(old(State()), v, now)
    {
      var _ := Prune(now);
      if v.key !in records || !records[v.key].pending || records[v.key].fingerprint != v.fingerprint {
        return false;
      }
      records := records - {v.key};
      return true;
    }

    method Commit(v: Reservation, response: Response, reference: Option<Name>, now: int) returns (d: Decision)
      modifies this
      ensures (State(), d) == DedupeSpec.Commit(old(State()), v, response, reference, now)
    {
      var _ := Prune(now);
      if IsBusy(response) {
        var _ := Release(v, now);
        return BusyDecision;
      }
      if v.key !in records {
        return ExpiredReservation;
      }
      var r := records[v.key];
      if r.fingerprint != v.fingerprint {
        return DuplicateKey;
      }
      if !r.pending {
        return Existing(r, v.fingerprint);
      }
      records := records[v.key := r.(pending := false, result := Some(response), reference := reference)];
      commits := commits + [Commitment(v.key, r.fingerprint, r.expiresAt, response)];
      return Stored;
    }
  }
}
