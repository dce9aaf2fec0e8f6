/** What the policy decides, in the terms of the entries: who is admitted, who is handed over, what a
    cancellation is told. */
module PolicyLaws {
  import opened TaskStates
  import opened PolicySpec
  import opened PolicyRuns
  import opened PolicyShapes

  /** An entry that can run: in time, runnable, not cancelled or aborted by anybody, and waiting by its own state. */
  ghost predicate Able(e: Entry, now: int, probe: Probe) {
    && e.expiresAt > now && e.runnable && !e.cancelled && !e.aborted && !probe(e)
    && (e.state == Unspecified || e.state == OfTask(Accepted) || e.state == OfTask(Queued))
  }

  /** The queued tickets that can run at one reading, or at both. */
  ghost function AbleAt(s: PolicyState, now: int, probe: Probe): set<Ticket> {
    set r | r in s.queue && Able(r.ticket.entry, now, probe) :: r.ticket
  }

  ghost function Later(s: PolicyState, at: Reading): int {
    if at.sample > s.lastNow then at.sample else s.lastNow
  }

  lemma AbleIsRunnable(s: PolicyState, r: QueueRecord, now: int, probe: Probe)
    requires (Inv(s) && r in s.queue) || r == Fresh(r.ticket)
    ensures Runnable(r, now, probe) <==> Able(r.ticket.entry, now, probe)
  {
    if r in s.queue && Inv(s) {
      assert WaitingRecord(s, r);
    }
  }

  lemma {:induction false} AsManyTickets(rs: seq<QueueRecord>)
    requires Increasing(rs)
    ensures |Tickets(rs)| == |rs|
  {
    if rs != [] {
      AsManyTickets(rs[1..]);
      assert rs == [rs[0]] + rs[1..];
      assert Tickets(rs) == Tickets(rs[1..]) + {rs[0].ticket};
      forall t | t in Tickets(rs[1..]) ensures t != rs[0].ticket {
        var r :| r in rs[1..] && r.ticket == t;
      }
    }
  }

  /** Expiry keeps exactly the queued entries that can run, in their order, and every active one. */
  lemma ExpiryKeepsTheAble(s: PolicyState, at: Reading)
    requires Inv(s)
    ensures var o := Expire(s, at);
            && Inv(o) && o.lastNow == Later(s, at) && o.nextToken == s.nextToken && |o.active| == |s.active|
            && o.queueCapacity == s.queueCapacity && o.activeCapacity == s.activeCapacity
            && Tickets(o.queue) == AbleAt(s, Later(s, at), at.probe) && |o.queue| == |AbleAt(s, Later(s, at), at.probe)|
            && (forall i | 0 <= i < |s.active| ::
                  && o.active[i].ticket == s.active[i].ticket
                  && (o.active[i].expired <==>
                        s.active[i].expired || s.active[i].ticket.entry.expiresAt <= Later(s, at)))
  {
    var o := Expire(s, at);
    var now := Later(s, at);
    ExpireInv(s, at);
    KeepFilters(s.queue, now, at.probe);
    MarkDueKeepsTickets(s.active, now);
    AsManyTickets(o.queue);
    forall r | r in s.queue ensures Runnable(r, now, at.probe) <==> Able(r.ticket.entry, now, at.probe) {
      AbleIsRunnable(s, r, now, at.probe);
    }
  }

  /* ---------- admission ---------- */

  /** Why an entry that cannot run is turned away: it ran out, or it was cancelled. */
  ghost predicate TurnedAway(d: Admission, e: Entry, now: int) {
    d == if e.expiresAt <= now then ExpiredEntry else CancelledEntry
  }

  /** Who is admitted. A candidate that cannot run is told why, at the reading that found it so. With a slot asked
      for, it gets a lease or is told that none is free; otherwise it is queued behind those that can run, or told
      that the queue is full of them. */
  lemma AdmissionTable(s: PolicyState, e: Entry, handle: Name, startNow: bool, first: Reading, second: Reading)
    requires Inv(s)
    ensures var now := Later(s, first);
            var after := if second.sample > now then second.sample else now;
            var waiting := set t | t in AbleAt(s, now, first.probe) && Able(t.entry, after, second.probe);
            var (o, d) := Admit(s, e, handle, startNow, first, second);
            && o.nextToken == s.nextToken + 1
            && if !Able(e, now, first.probe) then TurnedAway(d, e, now)
               else if startNow && |s.active| >= s.activeCapacity then d == Busy
               else if !Able(e, after, second.probe) then TurnedAway(d, e, after)
               else if startNow then
                 && d == Admitted(Lease(handle, e.requestId, e, e.expiresAt)) && |o.active| == |s.active| + 1
                 && o.active[|s.active|].ticket == Ticket(s.nextToken, handle, e)
                 && o.active[|s.active|].status == Active
               else if |waiting| >= s.queueCapacity then d == Busy
               else
                 && d == Enqueued(handle, |waiting| + 1) && |o.queue| == |waiting| + 1
                 && o.queue[|waiting|].ticket == Ticket(s.nextToken, handle, e) && o.queue[|waiting|].status == Waiting
                 && Tickets(o.queue[..|waiting|]) == waiting
  {
    var m := Expire(s, first);
    var t := Ticket(s.nextToken, handle, e);
    var n := m.(nextToken := s.nextToken + 1);
    AdmitDecides(s, m, e, handle, startNow, first, second);
    ExpiryKeepsTheAble(s, first);
    AbleIsRunnable(s, Fresh(t), m.lastNow, first.probe);
    if startNow {
      StartTable(n, t, second);
    } else {
      NextTokenUnused(m);
      QueuedTable(n, t, second);
      AbleTwice(s, first, second);
    }
  }

  lemma AbleTwice(s: PolicyState, first: Reading, second: Reading)
    requires Inv(s)
    ensures var m := Expire(s, first);
            var n := m.(nextToken := s.nextToken + 1);
            AbleAt(n, Later(n, second), second.probe)
            == set u | u in AbleAt(s, Later(s, first), first.probe) && Able(u.entry, Later(n, second), second.probe)
  {
    ExpiryKeepsTheAble(s, first);
    InQueue(Expire(s, first));
  }

  lemma StartTable(n: PolicyState, t: Ticket, second: Reading)
    ensures var after := Later(n, second);
            var (o, d) := Start(n, t, second);
            && o.nextToken == n.nextToken
            && if |n.active| >= n.activeCapacity then d == Busy
               else if !Able(t.entry, after, second.probe) then TurnedAway(d, t.entry, after)
               else
                 && d == Admitted(Lease(t.handle, t.entry.requestId, t.entry, t.entry.expiresAt))
                 && |o.active| == |n.active| + 1
                 && o.active[|n.active|].ticket == t && o.active[|n.active|].status == Active
  {
    AbleIsRunnable(n, Fresh(t), Later(n, second), second.probe);
  }

  lemma InQueue(n: PolicyState)
    ensures forall u :: u in Tickets(n.queue) <==> exists r :: r in n.queue && r.ticket == u
  {
  }

  lemma QueuedTable(n: PolicyState, t: Ticket, second: Reading)
    requires Inv(n)
    ensures var after := Later(n, second);
            var waiting := AbleAt(n, after, second.probe);
            var (o, d) := Enqueue(n, t, second);
            && o.nextToken == n.nextToken
            && if !Able(t.entry, after, second.probe) then TurnedAway(d, t.entry, after)
               else if |waiting| >= n.queueCapacity then d == Busy
               else
                 && d == Enqueued(t.handle, |waiting| + 1) && |o.queue| == |waiting| + 1
                 && o.queue[|waiting|].ticket == t && o.queue[|waiting|].status == Waiting
                 && Tickets(o.queue[..|waiting|]) == waiting
  {
    var x := Expire(n, second);
    ExpiryKeepsTheAble(n, second);
    AbleIsRunnable(n, Fresh(t), x.lastNow, second.probe);
    var o := Enqueue(n, t, second).0;
    if Able(t.entry, x.lastNow, second.probe) && |x.queue| < n.queueCapacity {
      assert o.queue[..|x.queue|] == x.queue;
    }
  }

  /* ---------- handing over ---------- */

  /** What is handed over can run, and everything that can run and came earlier was handed over before. */
  lemma HandOverTable(s: PolicyState, first: Reading, second: Reading)
    requires Inv(s)
    ensures var now := Later(s, first);
            var after := if second.sample > now then second.sample else now;
            var waiting := set t | t in AbleAt(s, now, first.probe) && Able(t.entry, after, second.probe);
            var (o, t) := Dequeue(s, first, second);
            match t
            case Some(t) =>
              && |s.active| < s.activeCapacity && t in waiting && forall u | u in waiting :: t.token <= u.token
            case None => |s.active| >= s.activeCapacity || waiting == {}
  {
    DequeueIsFirstComeFirstServed(s, first, second);
    var now := Later(s, first);
    var after := if second.sample > now then second.sample else now;
    forall r | r in s.queue
      ensures CanRun(s, r, first, second) <==>
                Able(r.ticket.entry, now, first.probe) && Able(r.ticket.entry, after, second.probe)
    {
      AbleIsRunnable(s, r, now, first.probe);
      AbleIsRunnable(s, r, after, second.probe);
    }
    MarkDueKeepsTickets(s.active, now);
    assert |Expire(s, first).active| == |s.active|;
  }

  /* ---------- cancellation ---------- */

  /** Somebody asked for this entry to be cancelled. */
  ghost predicate Asked(e: Entry, probe: Probe) {
    e.cancelled || e.aborted || e.state == OfTask(Cancelled) || e.state == OfTask(Cancelling) || probe(e)
  }

  /** A queued record is removed whatever is said: expired when its time is over, cancelled when somebody asked or
      when it could still run, and not cancelable when it could not have run anyway. */
  lemma QueuedCancelTable(s: PolicyState, r: QueueRecord, first: Reading, second: Reading)
    requires Inv(s) && r in s.queue
    ensures var now := Later(s, first);
            var after := if second.sample > now then second.sample else now;
            var e := r.ticket.entry;
            var (o, outcome) := CancelRecord(s, r, first, second);
            && Tickets(o.queue) == Tickets(s.queue) - {r.ticket} && o.active == s.active
            && outcome == (
                 if e.expiresAt <= now then CancelExpired(r.ticket)
                 else if Asked(e, second.probe) then CancelCommitted(r.ticket)
                 else if e.expiresAt <= after then CancelExpired(r.ticket)
                 else if Able(e, after, second.probe) then CancelCommitted(r.ticket)
                 else NotCancelable(r.ticket))
            && o.notices == (if outcome.CancelExpired? then s.notices + [Notice(r.ticket.token, e)] else s.notices)
  {
    var after := if second.sample > Later(s, first) then second.sample else Later(s, first);
    assert WaitingRecord(s, r);
    QueuedCancelState(s, r, first, second);
    AbleIsRunnable(s, r, after, second.probe);
  }

  lemma QueuedCancelState(s: PolicyState, r: QueueRecord, first: Reading, second: Reading)
    requires Inv(s) && r in s.queue
    ensures var (o, outcome) := CancelRecord(s, r, first, second);
            && Tickets(o.queue) == Tickets(s.queue) - {r.ticket} && o.active == s.active
            && o.notices == (if outcome.CancelExpired? then s.notices + [Notice(r.ticket.token, r.ticket.entry)]
                             else s.notices)
  {
    assert WaitingRecord(s, r);
    assert !Has(s.active, r.ticket.token);
    WithoutAbsent(s.active, r.ticket.token);
    ReplaceKeepsTickets(s.active, r.(expired := true, expiryNotified := true));
    assert r.ticket in Retained(s);
    RemoveTickets(s, r.ticket);
  }

  /** An active record keeps its slot: it is marked expired when its time is over, left alone when its own task is
      finished and nobody asked, and otherwise asked to stop. */
  lemma ActiveCancelTable(s: PolicyState, r: QueueRecord, first: Reading, second: Reading)
    requires Inv(s) && r in s.active
    ensures var now := Later(s, first);
            var after := if second.sample > now then second.sample else now;
            var e := r.ticket.entry;
            var (o, outcome) := CancelRecord(s, r, first, second);
            && o.queue == s.queue && Tickets(o.active) == Tickets(s.active) && |o.active| == |s.active|
            && outcome == (
                 if r.expired || e.expiresAt <= after then CancelExpired(r.ticket)
                 else if r.cancellationRequested || Asked(e, second.probe) then CancelRequestedOn(r.ticket)
                 else if e.state == AbortedMark || (e.state.OfTask? && IsTerminal(e.state.state)) then
                   NotCancelable(r.ticket)
                 else CancelRequestedOn(r.ticket))
            && (forall q | q in s.active && q != r :: q in o.active)
            && (outcome.CancelExpired? ==> r.(expired := true, expiryNotified := true) in o.active)
            && (outcome.CancelRequestedOn? ==> r.(cancellationRequested := true) in o.active)
            && (outcome.NotCancelable? ==> o.active == s.active)
  {
    assert ActiveRecord(s, r);
    var u, v := r.(expired := true, expiryNotified := true), r.(cancellationRequested := true);
    ReplaceTickets(s.active, r, u);
    ReplaceTickets(s.active, r, v);
    ReplacesOne(s.active, r, u);
    ReplacesOne(s.active, r, v);
  }

  lemma ReplacesOne(rs: seq<QueueRecord>, r: QueueRecord, u: QueueRecord)
    requires Distinct(rs) && r in rs && u.ticket == r.ticket
    ensures u in Replace(rs, u) && forall q | q in rs && q != r :: q in Replace(rs, u)
  {
    SameTokenDistinct(rs, r);
    ReplaceKeepsTickets(rs, u);
    var i :| 0 <= i < |rs| && rs[i] == r;
    assert Replace(rs, u)[i] == u;
    forall q | q in rs && q != r ensures q in Replace(rs, u) {
      var j :| 0 <= j < |rs| && rs[j] == q;
      assert Replace(rs, u)[j] == q;
    }
  }
}
