/** What the dedupe store answers and keeps, in the terms of the record under the key before the call. */
module DedupeLaws {
  import opened TaskStates
  import T = TaskStoreSpec
  import opened Messages
  import opened DedupeSpec

  /** The record under a key, while it is retained. */
  ghost predicate Live(s: DedupeState, k: Key, now: int) {
    k in s.records && s.records[k].retainedUntil > now
  }

  /** Only what is retained stays, whatever the call; other keys are not touched. */
  ghost predicate OthersKept(s: DedupeState, o: DedupeState, k: Key, now: int) {
    && o.grace == s.grace
    && forall x | x != k :: (x in o.records <==> Live(s, x, now)) && (x in o.records ==> o.records[x] == s.records[x])
  }

  /** A key with other content is a duplicate, whether its operation is finished or not; one with the same content
      is pending until an outcome is committed and then replays it; an unknown key is new. */
  lemma InspectionTable(s: DedupeState, e: Envelope, now: int)
    ensures var k := Key(e.sender, e.operationId);
            var (o, d) := Inspect(s, e, now);
            && OthersKept(s, o, k, now) && o.commits == s.commits
            && (k in o.records <==> Live(s, k, now)) && (k in o.records ==> o.records[k] == s.records[k])
            && d == (
                 if e.operation == PeerDescribe || e.operation == TaskStatus then Ignored
                 else if !Live(s, k, now) then NewOperation
                 else if s.records[k].fingerprint != e.fingerprint then DuplicateKey
                 else if s.records[k].pending || s.records[k].result.None? then Pending
                 else Replay(s.records[k].result.value, s.records[k].reference))
  {
  }

  /** A new operation is reserved until its deadline plus grace; anything else is answered as inspection answers. */
  lemma ReservationTable(s: DedupeState, e: Envelope, now: int)
    requires e.operation != PeerDescribe && e.operation != TaskStatus && e.expiresAt + s.grace > now
    ensures var k := Key(e.sender, e.operationId);
            var (o, d) := Reserve(s, e, now);
            && OthersKept(s, o, k, now) && o.commits == s.commits
            && if Live(s, k, now) then (o, d) == Inspect(s, e, now)
               else
                 && d == Reserved(Reservation(k, e.fingerprint, e.expiresAt + s.grace)) && k in o.records
                 && o.records[k].pending && o.records[k].result == None && o.records[k].fingerprint == e.fingerprint
                 && o.records[k].expiresAt == e.expiresAt && o.records[k].retainedUntil == e.expiresAt + s.grace
  {
  }

  /** A release takes back a pending reservation of the same content, and nothing else. */
  lemma ReleaseTable(s: DedupeState, v: Reservation, now: int)
    ensures var (o, released) := Release(s, v, now);
            && OthersKept(s, o, v.key, now) && o.commits == s.commits
            && (released <==>
                  Live(s, v.key, now) && s.records[v.key].pending && s.records[v.key].fingerprint == v.fingerprint)
            && (released ==> v.key !in o.records)
            && (!released ==>
                  && (v.key in o.records <==> Live(s, v.key, now))
                  && (v.key in o.records ==> o.records[v.key] == s.records[v.key]))
  {
  }

  /** A commit makes an outcome permanent for a pending reservation of the same content. A busy outcome gives the
      reservation back instead; a reservation that is gone, of other content or already committed is refused. */
  lemma CommitTable(s: DedupeState, v: Reservation, response: Response, reference: Option<Name>, now: int)
    ensures var (o, d) := Commit(s, v, response, reference, now);
            && OthersKept(s, o, v.key, now)
            && if response == Failure(T.BusyError) then d == BusyDecision && o == Release(s, v, now).0
               else if !Live(s, v.key, now) then
                 d == ExpiredReservation && v.key !in o.records && o.commits == s.commits
               else
                 && v.key in o.records
                 && if s.records[v.key].fingerprint != v.fingerprint then
                      d == DuplicateKey && o.records[v.key] == s.records[v.key] && o.commits == s.commits
                    else if !s.records[v.key].pending then
                      && o.records[v.key] == s.records[v.key] && o.commits == s.commits
                      && (s.records[v.key].result.Some? ==>
                            d == Replay(s.records[v.key].result.value, s.records[v.key].reference))
                    else
                      && d == Stored && !o.records[v.key].pending && o.records[v.key].result == Some(response)
                      && o.records[v.key].reference == reference && o.records[v.key].fingerprint == v.fingerprint
                      && o.records[v.key].retainedUntil == s.records[v.key].retainedUntil
                      && o.commits == s.commits
                                      + [Commitment(v.key, v.fingerprint, s.records[v.key].expiresAt, response)]
  {
  }
}
