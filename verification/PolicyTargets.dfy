/** How the targets the router uses name records: a lease it was given, a handle, a request id. */
module PolicyTargets {
  import opened TaskStates
  import opened PolicySpec
  import opened PolicyRuns
  import opened PolicyShapes
  import opened RoutingPolicies
  import opened TicketIndexes

  /** Whoever carries the handle of the lease is the ticket it was made for. */
  ghost predicate Genuine(ts: set<Ticket>, lease: Lease) {
    forall t | t in ts && t.handle == lease.handle :: LeaseOf(t) == lease
  }

  lemma HandlesAreNames(handles: map<Name, nat>, s: PolicyState)
    requires NamesHandles(handles, Retained(s)) && Inv(s)
    ensures HandlesName(Retained(s))
  {
    InvIsSound(s);
    TokensNameTickets(s.queue, s.active);
    forall a, b | a in Retained(s) && b in Retained(s) && Homonyms(a, b) ensures a == b {
      HandleIsScan(handles, Retained(s), a.handle);
      assert SharesToken(a, b);
    }
  }

  lemma ReleaseNothing(s: PolicyState, handle: Name)
    requires forall t | t in Retained(s) :: t.handle != handle
    ensures Release(s, handle) == s
  {
    TokenFound(s.active + s.queue, handle);
    forall r | r in s.active + s.queue ensures r.ticket.handle != handle {
      assert r.ticket in Retained(s);
    }
  }

  /** Releasing a lease that is genuine is releasing its handle. */
  lemma ReleaseByLease(s: PolicyState, lease: Lease, o: PolicyState, released: bool)
    requires Inv(s) && HandlesName(Retained(s)) && Genuine(Retained(s), lease)
    requires var matches := Named(Retained(s), Tickets(s.active), ByLease(lease), None);
             if released then exists t :: matches == {t} && o == Remove(s, t.token)
             else o == s && forall t :: matches != {t}
    ensures o == Release(s, lease.handle) && Retained(o) <= Retained(s)
  {
    var matches := Named(Retained(s), Tickets(s.active), ByLease(lease), None);
    if t :| t in Retained(s) && t.handle == lease.handle {
      LeaseMatches(s, lease, t);
      assert matches == {t};
      ReleaseShape(s, t);
    } else {
      ReleaseNothing(s, lease.handle);
      NamedByLease(Retained(s), Tickets(s.active), lease, None);
      assert matches == {};
      forall t ensures matches != {t} {
        assert t in {t};
      }
    }
  }

  lemma LeaseMatches(s: PolicyState, lease: Lease, t: Ticket)
    requires HandlesName(Retained(s)) && Genuine(Retained(s), lease) && t in Retained(s) && t.handle == lease.handle
    ensures Named(Retained(s), Tickets(s.active), ByLease(lease), None) == {t}
  {
    NamedByLease(Retained(s), Tickets(s.active), lease, None);
    forall u | u in Retained(s) && u.handle == lease.handle ensures u == t {
      assert Homonyms(u, t);
    }
    var matches := Named(Retained(s), Tickets(s.active), ByLease(lease), None);
    forall u | u in matches ensures u == t {
      assert u in Retained(s) && u.handle == lease.handle;
    }
    if exists u :: u in Tickets(s.active) && LeaseOf(u) == lease {
      var u :| u in Tickets(s.active) && LeaseOf(u) == lease;
      assert u in matches;
    } else {
      assert t in matches;
    }
  }

  /** Releasing a retained handle given as a string. */
  lemma ReleaseByHandle(s: PolicyState, t: Ticket, o: PolicyState, released: bool)
    requires Inv(s) && HandlesName(Retained(s)) && t in Retained(s)
    requires var matches := Named(Retained(s), Tickets(s.active), ByString(t.handle), None);
             if released then exists u :: matches == {u} && o == Remove(s, u.token)
             else o == s && forall u :: matches != {u}
    ensures o == Release(s, t.handle)
  {
    NamedByString(Retained(s), Tickets(s.active), t.handle, None);
    forall u | u in Retained(s) && u.handle == t.handle ensures u == t {
      assert Homonyms(u, t);
    }
    assert Named(Retained(s), Tickets(s.active), ByString(t.handle), None) == {t};
    ReleaseShape(s, t);
  }

  /* ---------- cancelling by request id ---------- */

  lemma {:induction false} WithRequestDistinct(rs: seq<QueueRecord>, id: Name)
    requires Distinct(rs)
    ensures Distinct(WithRequest(rs, id))
  {
    if rs != [] {
      WithRequestDistinct(rs[1..], id);
      WithRequestFilters(rs[1..], id);
      var rest := WithRequest(rs[1..], id);
      if rs[0].ticket.entry.requestId == Some(id) {
        assert ([rs[0]] + rest)[1..] == rest;
        forall r | r in rest ensures r.ticket.token != rs[0].ticket.token {
          assert r in rs[1..];
        }
      } else {
        assert [] + rest == rest;
      }
    }
  }

  lemma {:induction false} DistinctConcat(a: seq<QueueRecord>, b: seq<QueueRecord>)
    requires Distinct(a) && Distinct(b) && forall r, q | r in a && q in b :: r.ticket.token != q.ticket.token
    ensures Distinct(a + b)
  {
    if a == [] {
      assert a + b == b;
    } else {
      DistinctConcat(a[1..], b);
      assert (a + b)[1..] == a[1..] + b;
      assert a[0] in a;
    }
  }

  /** One ticket found under the request id is one record found by the scan. */
  lemma CancelByRequest(s: PolicyState, id: Name, first: Reading, second: Reading, o: PolicyState,
      outcome: CancelOutcome)
    requires Inv(s)
    requires var matches := With(Retained(s), RequestField, id);
             match outcome
             case CancelNotFound => matches == {} && o == s
             case CancelAmbiguous => (exists a, b :: a in matches && b in matches && a != b) && o == s
             case _ => matches == {outcome.ticket} && Cancels(s, outcome.ticket, first, second, o, outcome)
    ensures o == CancelByRequestId(s, id, first, second)
  {
    var all := s.queue + s.active;
    var rs := WithRequest(all, id);
    WithRequestFilters(all, id);
    if rs != [] {
      assert rs[0] in rs;
      assert rs[0].ticket in With(Retained(s), RequestField, id);
    }
    match outcome
    case CancelNotFound =>
    case CancelAmbiguous =>
      var a, b :| a in With(Retained(s), RequestField, id) && b in With(Retained(s), RequestField, id) && a != b;
      SeveralMatches(s, id, a, b);
    case _ => CancelTheMatch(s, id, outcome.ticket, first, second, o, outcome);
  }

  lemma SeveralMatches(s: PolicyState, id: Name, a: Ticket, b: Ticket)
    requires a in Retained(s) && b in Retained(s) && a != b && a.entry.requestId == b.entry.requestId == Some(id)
    ensures |WithRequest(s.queue + s.active, id)| != 1
  {
    var all := s.queue + s.active;
    WithRequestFilters(all, id);
    var r :| r in all && r.ticket == a;
    var q :| q in all && q.ticket == b;
    assert r in WithRequest(all, id) && q in WithRequest(all, id);
  }

  lemma CancelTheMatch(s: PolicyState, id: Name, t: Ticket, first: Reading, second: Reading, o: PolicyState,
      outcome: CancelOutcome)
    requires Inv(s) && With(Retained(s), RequestField, id) == {t} && Cancels(s, t, first, second, o, outcome)
    ensures o == CancelByRequestId(s, id, first, second)
  {
    var r :| (r in s.queue || r in s.active) && r.ticket == t && (o, outcome) == CancelRecord(s, r, first, second);
    WithRequestFilters(s.queue + s.active, id);
    assert t in With(Retained(s), RequestField, id);
    assert r in s.queue + s.active;
    OneMatch(s, id, r);
  }

  lemma TwoTokens(rs: seq<QueueRecord>)
    requires Distinct(rs)
    ensures |rs| > 1 ==> exists q, r :: q in rs && r in rs && q.ticket.token != r.ticket.token
  {
    if |rs| > 1 {
      assert rs[1] in rs[1..] && rs[0] in rs;
    }
  }

  lemma OneMatch(s: PolicyState, id: Name, r: QueueRecord)
    requires Inv(s) && r in WithRequest(s.queue + s.active, id)
    requires With(Retained(s), RequestField, id) == {r.ticket}
    ensures WithRequest(s.queue + s.active, id) == [r]
  {
    var rs := WithRequest(s.queue + s.active, id);
    WithRequestFilters(s.queue + s.active, id);
    InvIsSound(s);
    InvFacts(s);
    DistinctConcat(s.queue, s.active);
    WithRequestDistinct(s.queue + s.active, id);
    forall q | q in rs ensures q.ticket == r.ticket {
      assert q.ticket in With(Retained(s), RequestField, id);
    }
    TwoTokens(rs);
  }

  /* ---------- what stays retained ---------- */

  lemma ExpireRetained(s: PolicyState, at: Reading)
    ensures Retained(Expire(s, at)) <= Retained(s)
  {
    var now := Max(s.lastNow, at.sample);
    KeepFilters(s.queue, now, at.probe);
    MarkDueTickets(s.active, now);
  }

  lemma {:induction false} ClaimRetained(s: PolicyState, at: Reading)
    ensures var (o, t) := Claim(s, at); Retained(o) <= Retained(s) && (t.Some? ==> t.value in Retained(o))
    decreases |s.queue|
  {
    if s.queue != [] {
      var o := Observe(s, at.sample).(queue := s.queue[1..]);
      var r := s.queue[0];
      assert s.queue == [r] + s.queue[1..];
      assert r.ticket in Retained(s);
      ClaimRetained(o.(notices := o.notices + NoticeIfDue(r, o.lastNow)), at);
      PushTickets(o.active, Fresh(r.ticket).(status := Active));
    }
  }

  lemma DequeueRetained(s: PolicyState, first: Reading, second: Reading)
    ensures var (o, t) := Dequeue(s, first, second); Retained(o) <= Retained(s) && (t.Some? ==> t.value in Retained(o))
  {
    ExpireRetained(s, first);
    ClaimRetained(Expire(s, first), second);
  }

  lemma RemoveRetained(s: PolicyState, token: nat)
    ensures Retained(Remove(s, token)) <= Retained(s)
  {
    WithoutFilters(s.queue, token);
    WithoutFilters(s.active, token);
  }

  lemma ReplaceRetained(s: PolicyState, r: QueueRecord, u: QueueRecord)
    requires u.ticket == r.ticket && r.ticket in Retained(s)
    ensures Tickets(Replace(s.active, u)) <= Retained(s)
  {
    ReplaceKeepsTickets(s.active, u);
    forall t | t in Tickets(Replace(s.active, u)) ensures t in Retained(s) {
      var i :| 0 <= i < |s.active| && Replace(s.active, u)[i].ticket == t;
      assert s.active[i] in s.active;
    }
  }

  lemma CancelRetained(s: PolicyState, id: Name, first: Reading, second: Reading)
    requires Inv(s)
    ensures Retained(CancelByRequestId(s, id, first, second)) <= Retained(s)
  {
    var rs := WithRequest(s.queue + s.active, id);
    if |rs| == 1 {
      WithRequestFilters(s.queue + s.active, id);
      assert rs[0] in rs;
      CancelRecordRetained(s, rs[0], first, second);
    }
  }

  lemma CancelRecordRetained(s: PolicyState, r: QueueRecord, first: Reading, second: Reading)
    requires Inv(s) && (r in s.queue || r in s.active)
    ensures Retained(CancelRecord(s, r, first, second).0) <= Retained(s)
  {
    assert r.ticket in Retained(s);
    if r in s.queue {
      assert WaitingRecord(s, r);
      InvIsSound(s);
      RemovedIsGone(s.queue, s.active, r);
      RemoveRetained(s, r.ticket.token);
    } else {
      assert ActiveRecord(s, r);
      ReplaceRetained(s, r, r.(expired := true, expiryNotified := true));
      ReplaceRetained(s, r, r.(cancellationRequested := true));
    }
  }

  /** Admission retains at most one ticket more: the one it answers with. */
  ghost predicate RetainsNew(s: PolicyState, t: Ticket, o: PolicyState, d: Admission) {
    && Retained(o) <= Retained(s) + {t}
    && (d.Admitted? ==> d.lease == LeaseOf(t) && t in Retained(o))
    && (d.Enqueued? ==> d.handle == t.handle && t in Retained(o))
  }

  lemma StartRetained(s: PolicyState, t: Ticket, at: Reading)
    ensures var (o, d) := Start(s, t, at); RetainsNew(s, t, o, d)
  {
    PushTickets(s.active, Fresh(t).(status := Active));
  }

  lemma EnqueueRetained(s: PolicyState, t: Ticket, at: Reading)
    ensures var (o, d) := Enqueue(s, t, at); RetainsNew(s, t, o, d)
  {
    ExpireRetained(s, at);
    PushTickets(Expire(s, at).queue, Fresh(t).(status := Waiting));
  }

  lemma AdmitRetained(s: PolicyState, entry: Entry, handle: Name, startNow: bool, first: Reading, second: Reading)
    ensures var (o, d) := Admit(s, entry, handle, startNow, first, second);
            RetainsNew(s, Ticket(s.nextToken, handle, entry), o, d)
  {
    var e := Expire(s, first).(nextToken := s.nextToken + 1);
    var t := Ticket(s.nextToken, handle, entry);
    AdmitDecides(s, Expire(s, first), entry, handle, startNow, first, second);
    ExpireRetained(s, first);
    StartRetained(e, t, second);
    EnqueueRetained(e, t, second);
  }
}
