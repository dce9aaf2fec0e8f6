/** What the policy's operations do to the sets of queued and active tickets when one reading of the
    clock and of the callbacks serves the whole operation, as it does inside a router step. */
module PolicyShapes {
  import opened TaskStates
  import opened PolicySpec
  import opened PolicyRuns

  function Waits(t: Ticket): QueueRecord {
    Fresh(t).(status := Waiting)
  }

  predicate Runs(t: Ticket, at: Reading) {
    Runnable(Waits(t), at.sample, at.probe)
  }

  lemma WaitingIsPlain(s: PolicyState, r: QueueRecord)
    requires Inv(s) && r in s.queue
    ensures r == Waits(r.ticket)
  {
    assert WaitingRecord(s, r);
  }

  lemma ExpireShape(s: PolicyState, at: Reading)
    requires Inv(s) && s.lastNow <= at.sample
    ensures var e := Expire(s, at);
            && Inv(e) && e.lastNow == at.sample && |e.active| == |s.active|
            && Tickets(e.active) == Tickets(s.active)
            && Tickets(e.queue) == set t | t in Tickets(s.queue) && Runs(t, at)
            && (s.queue == [] ==> e.queue == [])
  {
    var e := Expire(s, at);
    ExpireInv(s, at);
    KeepFilters(s.queue, at.sample, at.probe);
    MarkDueKeepsTickets(s.active, at.sample);
    forall i | 0 <= i < |s.active| ensures e.active[i].ticket == s.active[i].ticket {
    }
    TicketsPointwise(s.active, e.active);
    forall t | t in Tickets(s.queue) && Runs(t, at) ensures t in Tickets(e.queue) {
      var r :| r in s.queue && r.ticket == t;
      WaitingIsPlain(s, r);
      assert r in e.queue;
    }
    forall t | t in Tickets(e.queue) ensures t in Tickets(s.queue) && Runs(t, at) {
      var r :| r in e.queue && r.ticket == t;
      WaitingIsPlain(s, r);
    }
  }

  lemma {:induction false} KeepTwice(rs: seq<QueueRecord>, now: int, probe: Probe)
    ensures Keep(Keep(rs, now, probe), now, probe) == Keep(rs, now, probe)
    ensures NoticesBackward(Keep(rs, now, probe), now) == []
  {
    if rs != [] {
      KeepTwice(rs[1..], now, probe);
      var k := Keep(rs, now, probe);
      if Runnable(rs[0], now, probe) {
        assert k[1..] == Keep(rs[1..], now, probe);
      }
    }
  }

  lemma {:induction false} MarkTwice(rs: seq<QueueRecord>, now: int)
    ensures MarkDue(MarkDue(rs, now), now) == MarkDue(rs, now)
    ensures NoticesForward(MarkDue(rs, now), now) == []
  {
    if rs != [] {
      MarkTwice(rs[1..], now);
      assert MarkDue(rs, now)[1..] == MarkDue(rs[1..], now);
    }
  }

  /** Expiring again at the same instant changes nothing. */
  lemma ExpireTwice(s: PolicyState, at: Reading)
    ensures Expire(Expire(s, at), at) == Expire(s, at)
    ensures forall n: nat :: Expire(Expire(s, at).(nextToken := n), at) == Expire(s, at).(nextToken := n)
  {
    var now := Max(s.lastNow, at.sample);
    KeepTwice(s.queue, now, at.probe);
    MarkTwice(s.active, now);
    var ns := Expire(s, at).notices;
    assert ns + [] + [] == ns;
  }

  /** Admission with one reading: expire, take a token, then one of four answers. */
  lemma AdmitShape(s: PolicyState, entry: Entry, handle: Name, startNow: bool, at: Reading)
    requires s.lastNow <= at.sample
    ensures var t := Ticket(s.nextToken, handle, entry);
            var e := Expire(s, at).(nextToken := s.nextToken + 1);
            Admit(s, entry, handle, startNow, at, at)
            == if !Runnable(Fresh(t), at.sample, at.probe) then (e, Refusal(t, at.sample))
               else if startNow then (if |s.active| >= s.activeCapacity then (e, Busy)
                   else (Activate(e, t), Admitted(LeaseOf(t))))
               else if |e.queue| >= e.queueCapacity then (e, Busy)
               else (e.(queue := e.queue + [Waits(t)]), Enqueued(handle, |e.queue| + 1))
  {
    var e := Expire(s, at);
    AdmitDecides(s, e, entry, handle, startNow, at, at);
    ExpireTwice(s, at);
    MarkDueKeepsTickets(s.active, e.lastNow);
    assert Observe(e.(nextToken := e.nextToken + 1), at.sample) == e.(nextToken := e.nextToken + 1);
  }

  /** Dequeueing with one reading: expire, then hand over the head. */
  lemma DequeueShape(s: PolicyState, at: Reading)
    requires Inv(s) && s.lastNow <= at.sample
    ensures var e := Expire(s, at);
            Dequeue(s, at, at)
            == if |s.active| >= s.activeCapacity || e.queue == [] then (e, None)
               else (Activate(e.(queue := e.queue[1..]), e.queue[0].ticket), Some(e.queue[0].ticket))
  {
    var e := Expire(s, at);
    DequeueClaims(s, e, at, at);
    MarkDueKeepsTickets(s.active, e.lastNow);
    KeepFilters(s.queue, e.lastNow, at.probe);
    if |s.active| < s.activeCapacity && e.queue != [] {
      assert Runnable(e.queue[0], e.lastNow, at.probe);
      assert Observe(e, at.sample) == e;
    }
  }

  lemma {:induction false} TokenFound(rs: seq<QueueRecord>, handle: Name)
    ensures match TokenWithHandle(rs, handle)
            case Some(token) => exists r :: r in rs && r.ticket.handle == handle && r.ticket.token == token
            case None => forall r | r in rs :: r.ticket.handle != handle
  {
    if rs != [] {
      TokenFound(rs[1..], handle);
      assert rs == [rs[0]] + rs[1..];
    }
  }

  /** Handles name one retained ticket each. */
  ghost predicate HandlesName(ts: set<Ticket>) {
    forall a, b {:trigger Homonyms(a, b)} :: a in ts && b in ts && Homonyms(a, b) ==> a == b
  }

  ghost predicate Homonyms(a: Ticket, b: Ticket) {
    a.handle == b.handle
  }

  /** Releasing a retained ticket by its handle removes that ticket. */
  lemma ReleaseShape(s: PolicyState, t: Ticket)
    requires Inv(s) && t in Retained(s) && HandlesName(Retained(s))
    ensures Release(s, t.handle) == Remove(s, t.token) && Inv(Release(s, t.handle))
    ensures Tickets(Release(s, t.handle).queue) == Tickets(s.queue) - {t}
    ensures Tickets(Release(s, t.handle).active) == Tickets(s.active) - {t}
    ensures t in Tickets(s.active) ==>
              |Release(s, t.handle).active| == |s.active| - 1 && Release(s, t.handle).queue == s.queue
    ensures |Release(s, t.handle).active| <= |s.active|
  {
    var all := s.active + s.queue;
    TokenFound(all, t.handle);
    var r0 :| (r0 in s.queue || r0 in s.active) && r0.ticket == t;
    assert r0 in all;
    var r :| r in all && r.ticket.handle == t.handle && Some(r.ticket.token) == TokenWithHandle(all, t.handle);
    assert Homonyms(r.ticket, t);
    assert r.ticket in Retained(s);
    RemoveInv(s, t.token);
    RemoveTickets(s, t);
  }

  lemma RemoveTickets(s: PolicyState, t: Ticket)
    requires Inv(s) && t in Retained(s)
    ensures Tickets(Remove(s, t.token).queue) == Tickets(s.queue) - {t}
    ensures Tickets(Remove(s, t.token).active) == Tickets(s.active) - {t}
    ensures t in Tickets(s.active) ==>
              |Remove(s, t.token).active| == |s.active| - 1 && Remove(s, t.token).queue == s.queue
    ensures t in Tickets(s.queue) ==> Remove(s, t.token).active == s.active
    ensures |Remove(s, t.token).active| <= |s.active|
  {
    InvFacts(s);
    WithoutFilters(s.queue, t.token);
    WithoutFilters(s.active, t.token);
    SameTokenSameTicket(s, t);
    WithoutTickets(s.queue, t);
    WithoutTickets(s.active, t);
    if t in Tickets(s.active) {
      var r :| r in s.active && r.ticket == t;
      WithoutPresent(s.active, t.token);
      WithoutAbsent(s.queue, t.token);
    } else {
      var r :| r in s.queue && r.ticket == t;
      WithoutAbsent(s.active, t.token);
    }
  }

  lemma SameTokenSameTicket(s: PolicyState, t: Ticket)
    requires Inv(s) && t in Retained(s)
    ensures forall r | r in s.queue && r.ticket.token == t.token :: r.ticket == t
    ensures forall r | r in s.active && r.ticket.token == t.token :: r.ticket == t
  {
    InvFacts(s);
    if q :| q in s.queue && q.ticket == t {
      SameToken(s.queue, q);
    } else {
      var a :| a in s.active && a.ticket == t;
      SameTokenDistinct(s.active, a);
    }
  }

  lemma WithoutTickets(rs: seq<QueueRecord>, t: Ticket)
    requires forall r | r in rs && r.ticket.token == t.token :: r.ticket == t
    ensures Tickets(Without(rs, t.token)) == Tickets(rs) - {t}
  {
    WithoutFilters(rs, t.token);
    forall u | u in Tickets(rs) - {t} ensures u in Tickets(Without(rs, t.token)) {
      var r :| r in rs && r.ticket == u;
      assert r in Without(rs, t.token);
    }
  }

  /** A failed admission is undone exactly. */
  lemma ReleaseUndoesAdmission(s: PolicyState, t: Ticket, o: PolicyState)
    requires Inv(s) && Unused(s, t.token)
    requires forall u | u in Retained(s) :: u.handle != t.handle
    requires o == Activate(s, t) || o == s.(queue := s.queue + [Waits(t)])
    ensures Release(o, t.handle) == s
  {
    var all := o.active + o.queue;
    TokenFound(all, t.handle);
    var mine := if o == Activate(s, t) then Fresh(t).(status := Active) else Waits(t);
    assert mine in all;
    forall r | r in s.queue + s.active ensures r.ticket.handle != t.handle {
      assert r.ticket in Retained(s);
    }
    assert forall r :: r in all ==> r == mine || r in s.queue + s.active;
    assert TokenWithHandle(all, t.handle) == Some(t.token);
    WithoutAbsent(s.queue, t.token);
    WithoutAbsent(s.active, t.token);
    WithoutPushed(s.queue, Waits(t));
    WithoutPushed(s.active, Fresh(t).(status := Active));
  }

  lemma {:induction false} WithoutPushed(rs: seq<QueueRecord>, r: QueueRecord)
    ensures Without(rs + [r], r.ticket.token) == Without(rs, r.ticket.token)
  {
    if rs != [] {
      WithoutPushed(rs[1..], r);
      assert (rs + [r])[1..] == rs[1..] + [r];
    }
  }

  lemma {:induction false} WithRequestFilters(rs: seq<QueueRecord>, id: Name)
    ensures forall r :: r in WithRequest(rs, id) <==> r in rs && r.ticket.entry.requestId == Some(id)
  {
    if rs != [] {
      WithRequestFilters(rs[1..], id);
      assert rs == [rs[0]] + rs[1..];
    }
  }

  lemma {:induction false} WithRequestConcat(a: seq<QueueRecord>, b: seq<QueueRecord>, id: Name)
    ensures WithRequest(a + b, id) == WithRequest(a, id) + WithRequest(b, id)
  {
    if a == [] {
      assert a + b == b;
    } else {
      var head := if a[0].ticket.entry.requestId == Some(id) then [a[0]] else [];
      WithRequestConcat(a[1..], b, id);
      assert (a + b)[1..] == a[1..] + b && (a + b)[0] == a[0];
      assert WithRequest(a + b, id) == head + WithRequest(a[1..] + b, id);
      assert head + (WithRequest(a[1..], id) + WithRequest(b, id)) == head + WithRequest(a[1..], id)
          + WithRequest(b, id);
    }
  }

  lemma {:induction false} WithRequestNone(rs: seq<QueueRecord>, id: Name)
    requires forall r | r in rs :: r.ticket.entry.requestId != Some(id)
    ensures WithRequest(rs, id) == []
  {
    WithRequestFilters(rs, id);
    if WithRequest(rs, id) != [] {
      assert WithRequest(rs, id)[0] in WithRequest(rs, id);
    }
  }

  lemma {:induction false} WithRequestOne(rs: seq<QueueRecord>, r: QueueRecord, id: Name)
    requires Increasing(rs) && r in rs && r.ticket.entry.requestId == Some(id)
    requires forall q | q in rs && q.ticket.entry.requestId == Some(id) :: q == r
    ensures WithRequest(rs, id) == [r]
  {
    assert rs == [rs[0]] + rs[1..];
    if rs[0] == r {
      assert r !in rs[1..];
      WithRequestNone(rs[1..], id);
    } else {
      WithRequestOne(rs[1..], r, id);
    }
  }

  /** Cancelling a request that holds no lease takes it out of the queue, whatever the outcome is called. */
  lemma CancelShape(s: PolicyState, id: Name, at: Reading)
    requires Inv(s) && s.lastNow <= at.sample
    requires forall t | t in Tickets(s.active) :: t.entry.requestId != Some(id)
    requires forall a, b | a in Tickets(s.queue) && b in Tickets(s.queue)
        && a.entry.requestId == b.entry.requestId == Some(id) :: a == b
    ensures var o := CancelByRequestId(s, id, at, at);
            && Inv(o) && o.active == s.active && s.lastNow <= o.lastNow <= at.sample
            && o.nextToken == s.nextToken && o.queueCapacity == s.queueCapacity && o.activeCapacity == s.activeCapacity
            && Tickets(o.queue) == set t | t in Tickets(s.queue) && t.entry.requestId != Some(id)
  {
    WithRequestConcat(s.queue, s.active, id);
    forall r | r in s.active ensures r.ticket.entry.requestId != Some(id) {
      assert r.ticket in Tickets(s.active);
    }
    WithRequestNone(s.active, id);
    if r :| r in s.queue && r.ticket.entry.requestId == Some(id) {
      forall q | q in s.queue && q.ticket.entry.requestId == Some(id) ensures q == r {
        assert q.ticket in Tickets(s.queue) && r.ticket in Tickets(s.queue);
        WaitingIsPlain(s, q);
        WaitingIsPlain(s, r);
      }
      WithRequestOne(s.queue, r, id);
      CancelRecordInv(s, r, at, at);
      CancelWaitingShape(s, r, at);
    } else {
      WithRequestNone(s.queue, id);
      forall t | t in Tickets(s.queue) ensures t.entry.requestId != Some(id) {
        var q :| q in s.queue && q.ticket == t;
      }
    }
  }

  lemma CancelWaitingShape(s: PolicyState, r: QueueRecord, at: Reading)
    requires Inv(s) && s.lastNow <= at.sample && r in s.queue
    ensures var o := CancelRecord(s, r, at, at).0;
            && o.active == s.active && s.lastNow <= o.lastNow <= at.sample && o.nextToken == s.nextToken
            && o.queueCapacity == s.queueCapacity && o.activeCapacity == s.activeCapacity
            && o.queue == Without(s.queue, r.ticket.token)
            && Tickets(o.queue) == Tickets(s.queue) - {r.ticket}
  {
    assert WaitingRecord(s, r);
    assert !Has(s.active, r.ticket.token);
    WithoutAbsent(s.active, r.ticket.token);
    ReplaceKeepsTickets(s.active, r.(expired := true, expiryNotified := true));
    assert r.ticket in Retained(s);
    RemoveTickets(s, r.ticket);
  }

  lemma ReplaceTickets(rs: seq<QueueRecord>, r: QueueRecord, u: QueueRecord)
    requires Distinct(rs) && r in rs && u.ticket == r.ticket
    ensures |Replace(rs, u)| == |rs| && Tickets(Replace(rs, u)) == Tickets(rs)
  {
    SameTokenDistinct(rs, r);
    ReplaceKeepsTickets(rs, u);
    TicketsPointwise(rs, Replace(rs, u));
  }

  lemma CancelActiveShape(s: PolicyState, r: QueueRecord, at: Reading)
    requires Inv(s) && s.lastNow <= at.sample && r in s.active
    ensures var o := CancelRecord(s, r, at, at).0;
            && o.queue == s.queue && s.lastNow <= o.lastNow <= at.sample && o.nextToken == s.nextToken
            && o.activeCapacity == s.activeCapacity && |o.active| == |s.active|
            && Tickets(o.active) == Tickets(s.active)
  {
    assert r.status.Active? by {
      assert ActiveRecord(s, r);
    }
    ReplaceTickets(s.active, r, r.(expired := true, expiryNotified := true));
    ReplaceTickets(s.active, r, r.(cancellationRequested := true));
  }

  /** Cancelling by request id never frees a slot and never queues anything, however many records have it. */
  lemma CancelKeepsSlots(s: PolicyState, id: Name, at: Reading)
    requires Inv(s) && s.lastNow <= at.sample
    ensures var o := CancelByRequestId(s, id, at, at);
            && Inv(o) && s.lastNow <= o.lastNow <= at.sample && o.nextToken == s.nextToken
            && o.activeCapacity == s.activeCapacity && |o.active| == |s.active|
            && Tickets(o.active) == Tickets(s.active) && Tickets(o.queue) <= Tickets(s.queue)
  {
    var rs := WithRequest(s.queue + s.active, id);
    WithRequestFilters(s.queue + s.active, id);
    if |rs| == 1 {
      assert rs[0] in rs;
      CancelRecordInv(s, rs[0], at, at);
      if rs[0] in s.queue {
        CancelWaitingShape(s, rs[0], at);
      } else {
        CancelActiveShape(s, rs[0], at);
      }
    }
  }
}
