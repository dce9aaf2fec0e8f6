/** What holds of the routing policy in every reachable state, whatever is called in whatever order. */
module PolicyRuns {
  import opened TaskStates
  import opened PolicySpec

  /** How often the expiry observer was called for a token. */
  ghost function Times(notices: seq<Notice>, token: nat): nat {
    if notices == [] then 0 else (if notices[0].token == token then 1 else 0) + Times(notices[1..], token)
  }

  ghost predicate WaitingRecord(s: PolicyState, r: QueueRecord) {
    r.status.Waiting? && !r.expired && !r.expiryNotified && !r.cancellationRequested
    && r.ticket.token < s.nextToken && Times(s.notices, r.ticket.token) == 0
  }

  ghost predicate ActiveRecord(s: PolicyState, r: QueueRecord) {
    r.status.Active? && r.expired == r.expiryNotified
    && r.ticket.token < s.nextToken && Times(s.notices, r.ticket.token) == if r.expired then 1 else 0
  }

  ghost predicate Has(rs: seq<QueueRecord>, token: nat) {
    exists r :: r in rs && r.ticket.token == token
  }

  ghost predicate Increasing(rs: seq<QueueRecord>) {
    rs != [] ==> (forall r | r in rs[1..] :: rs[0].ticket.token < r.ticket.token) && Increasing(rs[1..])
  }

  ghost predicate Distinct(rs: seq<QueueRecord>) {
    rs != [] ==> !Has(rs[1..], rs[0].ticket.token) && Distinct(rs[1..])
  }

  ghost predicate NoticedOnce(s: PolicyState) {
    forall t: nat :: Times(s.notices, t) <= if t < s.nextToken then 1 else 0
  }

  ghost predicate Inv(s: PolicyState) {
    && |s.queue| <= s.queueCapacity
    && |s.active| <= s.activeCapacity
    && (forall r {:trigger WaitingRecord(s, r)} :: r in s.queue ==> WaitingRecord(s, r))
    && (forall r {:trigger ActiveRecord(s, r)} :: r in s.active ==> ActiveRecord(s, r))
    && Increasing(s.queue)
    && Distinct(s.active)
    && (forall q {:trigger Has(s.active, q.ticket.token)} :: q in s.queue ==> !Has(s.active, q.ticket.token))
    && NoticedOnce(s)
  }

  /** The invariant's facts about single records, for every record in sight. */
  lemma InvFacts(s: PolicyState)
    requires Inv(s)
    ensures forall r | r in s.queue :: WaitingRecord(s, r)
    ensures forall r | r in s.active :: ActiveRecord(s, r)
    ensures forall q, a | q in s.queue && a in s.active :: q.ticket.token != a.ticket.token
  {
    forall q, a | q in s.queue && a in s.active ensures q.ticket.token != a.ticket.token {
      assert !Has(s.active, q.ticket.token);
    }
  }

  function Init(queueCapacity: nat, activeCapacity: nat, sample: int): PolicyState {
    PolicyState(queueCapacity, activeCapacity, [], [], 1, sample, [])
  }

  /* ---------- the sequence operations ---------- */

  /** Keeping is filtering: the survivors are the runnable records, in their old order. */
  lemma {:induction false} KeepFilters(rs: seq<QueueRecord>, now: int, probe: Probe)
    ensures |Keep(rs, now, probe)| <= |rs|
    ensures forall r :: r in Keep(rs, now, probe) <==> r in rs && Runnable(r, now, probe)
    ensures Increasing(rs) ==> Increasing(Keep(rs, now, probe))
  {
    if rs != [] {
      KeepFilters(rs[1..], now, probe);
      assert rs == [rs[0]] + rs[1..];
    }
  }

  lemma {:induction false} WithoutFilters(rs: seq<QueueRecord>, token: nat)
    ensures |Without(rs, token)| <= |rs|
    ensures forall r :: r in Without(rs, token) <==> r in rs && r.ticket.token != token
    ensures Increasing(rs) ==> Increasing(Without(rs, token))
    ensures Distinct(rs) ==> Distinct(Without(rs, token))
  {
    if rs != [] {
      WithoutFilters(rs[1..], token);
      assert rs == [rs[0]] + rs[1..];
    }
  }

  lemma {:induction false} WithoutAbsent(rs: seq<QueueRecord>, token: nat)
    requires !Has(rs, token)
    ensures Without(rs, token) == rs
  {
    if rs != [] {
      assert rs[0] in rs;
      assert forall r :: r in rs[1..] ==> r in rs;
      WithoutAbsent(rs[1..], token);
    }
  }

  /** Removing a present token from distinct records drops exactly one. */
  lemma {:induction false} WithoutPresent(rs: seq<QueueRecord>, token: nat)
    requires Distinct(rs) && Has(rs, token)
    ensures |Without(rs, token)| == |rs| - 1
  {
    if rs[0].ticket.token == token {
      WithoutAbsent(rs[1..], token);
    } else {
      var r :| r in rs && r.ticket.token == token;
      assert r in rs[1..];
      WithoutPresent(rs[1..], token);
    }
  }

  lemma {:induction false} MarkDueKeepsTickets(rs: seq<QueueRecord>, now: int)
    ensures |MarkDue(rs, now)| == |rs|
    ensures forall i | 0 <= i < |rs| :: MarkDue(rs, now)[i] == Marked(rs[i], now)
    ensures forall token :: Has(MarkDue(rs, now), token) <==> Has(rs, token)
    ensures Distinct(rs) ==> Distinct(MarkDue(rs, now))
  {
    if rs != [] {
      MarkDueKeepsTickets(rs[1..], now);
      HeadOrTail(rs);
      HeadOrTail(MarkDue(rs, now));
      assert MarkDue(rs, now)[1..] == MarkDue(rs[1..], now);
    }
  }

  lemma HeadOrTail(rs: seq<QueueRecord>)
    requires rs != []
    ensures forall token :: Has(rs, token) <==> rs[0].ticket.token == token || Has(rs[1..], token)
  {
    assert rs == [rs[0]] + rs[1..];
    assert rs[0] in rs;
  }

  lemma {:induction false} ReplaceKeepsTickets(rs: seq<QueueRecord>, u: QueueRecord)
    ensures |Replace(rs, u)| == |rs|
    ensures forall i | 0 <= i < |rs| :: Replace(rs, u)[i] == if rs[i].ticket.token == u.ticket.token then u else rs[i]
    ensures forall token :: Has(Replace(rs, u), token) <==> Has(rs, token)
    ensures Distinct(rs) ==> Distinct(Replace(rs, u))
    ensures !Has(rs, u.ticket.token) ==> Replace(rs, u) == rs
  {
    if rs != [] {
      ReplaceKeepsTickets(rs[1..], u);
      HeadOrTail(rs);
      HeadOrTail(Replace(rs, u));
      assert Replace(rs, u)[1..] == Replace(rs[1..], u);
    }
  }

  lemma {:induction false} PushIncreasing(rs: seq<QueueRecord>, r: QueueRecord)
    requires Increasing(rs) && forall q | q in rs :: q.ticket.token < r.ticket.token
    ensures Increasing(rs + [r])
  {
    if rs != [] {
      PushIncreasing(rs[1..], r);
      assert (rs + [r])[1..] == rs[1..] + [r];
    }
  }

  lemma {:induction false} PushDistinct(rs: seq<QueueRecord>, r: QueueRecord)
    requires Distinct(rs) && !Has(rs, r.ticket.token)
    ensures Distinct(rs + [r])
  {
    if rs != [] {
      assert rs[0] in rs;
      PushDistinct(rs[1..], r);
      assert (rs + [r])[1..] == rs[1..] + [r];
    }
  }

  lemma {:induction false} TimesConcat(a: seq<Notice>, b: seq<Notice>, token: nat)
    ensures Times(a + b, token) == Times(a, token) + Times(b, token)
  {
    if a == [] {
      assert a + b == b;
    } else {
      TimesConcat(a[1..], b, token);
      assert (a + b)[1..] == a[1..] + b;
    }
  }

  /** A backward scan notices the due records of the queue, each once. */
  lemma {:induction false} BackwardTimes(rs: seq<QueueRecord>, now: int, token: nat)
    requires Increasing(rs)
    ensures Times(NoticesBackward(rs, now), token)
         == if exists r :: r in rs && r.ticket.token == token && Due(r, now) then 1 else 0
  {
    if rs != [] {
      BackwardTimes(rs[1..], now, token);
      TimesConcat(NoticesBackward(rs[1..], now), NoticesBackward(rs, now)[|NoticesBackward(rs[1..], now)|..], token);
      assert rs == [rs[0]] + rs[1..];
    }
  }

  /** The forward scan notices the active records that became due, each once. */
  lemma {:induction false} ForwardTimes(rs: seq<QueueRecord>, now: int, token: nat)
    requires Distinct(rs)
    ensures Times(NoticesForward(rs, now), token)
         == if exists r :: r in rs && r.ticket.token == token && Due(r, now) && !r.expired && !r.expiryNotified
            then 1 else 0
  {
    if rs != [] {
      ForwardTimes(rs[1..], now, token);
      TimesConcat(NoticesForward(rs, now)[..|NoticesForward(rs, now)| - |NoticesForward(rs[1..], now)|],
          NoticesForward(rs[1..], now), token);
      assert rs == [rs[0]] + rs[1..];
    }
  }

  lemma {:induction false} SameToken(rs: seq<QueueRecord>, r: QueueRecord)
    requires Increasing(rs) && r in rs
    ensures forall q :: q in rs && q.ticket.token == r.ticket.token ==> q == r
  {
    assert rs == [rs[0]] + rs[1..];
    if r in rs[1..] {
      SameToken(rs[1..], r);
    }
  }

  lemma {:induction false} SameTokenDistinct(rs: seq<QueueRecord>, r: QueueRecord)
    requires Distinct(rs) && r in rs
    ensures forall q :: q in rs && q.ticket.token == r.ticket.token ==> q == r
  {
    assert rs == [rs[0]] + rs[1..];
    if r in rs[1..] {
      SameTokenDistinct(rs[1..], r);
    }
  }

  /* ---------- every operation keeps the invariant ---------- */

  lemma {:induction false} DistinctAt(rs: seq<QueueRecord>, i: nat, j: nat)
    requires Distinct(rs) && i < j < |rs|
    ensures rs[i].ticket.token != rs[j].ticket.token
  {
    if i == 0 {
      assert rs[j] == rs[1..][j - 1];
      assert rs[1..][j - 1] in rs[1..];
    } else {
      DistinctAt(rs[1..], i - 1, j - 1);
    }
  }

  lemma TicketsPointwise(a: seq<QueueRecord>, b: seq<QueueRecord>)
    requires |a| == |b| && forall i | 0 <= i < |a| :: b[i].ticket == a[i].ticket
    ensures Tickets(a) == Tickets(b)
  {
    forall t | t in Tickets(a) ensures t in Tickets(b) {
      var i :| 0 <= i < |a| && a[i].ticket == t;
      assert b[i] in b;
    }
    forall t | t in Tickets(b) ensures t in Tickets(a) {
      var i :| 0 <= i < |b| && b[i].ticket == t;
      assert a[i] in a;
    }
  }

  lemma PushTickets(rs: seq<QueueRecord>, r: QueueRecord)
    ensures Tickets(rs + [r]) == Tickets(rs) + {r.ticket}
  {
    assert r in rs + [r];
    forall t | t in Tickets(rs) ensures t in Tickets(rs + [r]) {
      var u :| u in rs && u.ticket == t;
      assert u in rs + [r];
    }
  }

  lemma ExpireTimes(s: PolicyState, at: Reading, token: nat)
    requires Inv(s)
    ensures var now := Max(s.lastNow, at.sample);
            Times(Expire(s, at).notices, token)
            == Times(s.notices, token)
               + (if exists r :: r in s.queue && r.ticket.token == token && Due(r, now) then 1 else 0)
               + (if exists r ::
                    r in s.active && r.ticket.token == token && Due(r, now) && !r.expired && !r.expiryNotified
                  then 1 else 0)
  {
    var now := Max(s.lastNow, at.sample);
    var b, f := NoticesBackward(s.queue, now), NoticesForward(s.active, now);
    TimesConcat(s.notices + b, f, token);
    TimesConcat(s.notices, b, token);
    BackwardTimes(s.queue, now, token);
    ForwardTimes(s.active, now, token);
  }

  lemma ExpireQueue(s: PolicyState, at: Reading)
    requires Inv(s)
    ensures forall r | r in Expire(s, at).queue :: WaitingRecord(Expire(s, at), r) && r in s.queue
  {
    InvFacts(s);
    KeepFilters(s.queue, Max(s.lastNow, at.sample), at.probe);
    forall r | r in Expire(s, at).queue ensures WaitingRecord(Expire(s, at), r) {
      ExpireTimes(s, at, r.ticket.token);
      assert WaitingRecord(s, r);
      SameToken(s.queue, r);
    }
  }

  lemma ExpireActive(s: PolicyState, at: Reading)
    requires Inv(s)
    ensures forall r | r in Expire(s, at).active :: ActiveRecord(Expire(s, at), r)
    ensures forall token :: Has(Expire(s, at).active, token) <==> Has(s.active, token)
  {
    InvFacts(s);
    var e := Expire(s, at);
    MarkDueKeepsTickets(s.active, Max(s.lastNow, at.sample));
    forall i | 0 <= i < |e.active| ensures ActiveRecord(e, e.active[i]) {
      var r := s.active[i];
      assert r in s.active && ActiveRecord(s, r);
      ExpireTimes(s, at, r.ticket.token);
      SameTokenDistinct(s.active, r);
    }
  }

  lemma ExpireInv(s: PolicyState, at: Reading)
    requires Inv(s)
    ensures Inv(Expire(s, at))
  {
    InvFacts(s);
    var now := Max(s.lastNow, at.sample);
    var e := Expire(s, at);
    KeepFilters(s.queue, now, at.probe);
    MarkDueKeepsTickets(s.active, now);
    ExpireQueue(s, at);
    ExpireActive(s, at);
    forall token: nat ensures Times(e.notices, token) <= if token < e.nextToken then 1 else 0 {
      ExpireTimes(s, at, token);
    }
  }

  lemma RemoveInv(s: PolicyState, token: nat)
    requires Inv(s)
    ensures Inv(Remove(s, token))
  {
    InvFacts(s);
    WithoutFilters(s.queue, token);
    WithoutFilters(s.active, token);
  }

  lemma ObserveInv(s: PolicyState, sample: int)
    requires Inv(s)
    ensures Inv(Observe(s, sample))
  {
    var o := Observe(s, sample);
    forall r | r in s.queue ensures WaitingRecord(o, r) {
      assert WaitingRecord(s, r);
    }
    forall r | r in s.active ensures ActiveRecord(o, r) {
      assert ActiveRecord(s, r);
    }
  }

  /** A token handed out that no record carries and that was never noticed. */
  ghost predicate Unused(s: PolicyState, token: nat) {
    token < s.nextToken && Times(s.notices, token) == 0 && !Has(s.queue, token) && !Has(s.active, token)
  }

  lemma ActivateInv(s: PolicyState, t: Ticket)
    requires Inv(s) && Unused(s, t.token) && |s.active| < s.activeCapacity
    ensures Inv(Activate(s, t))
  {
    var r := Fresh(t).(status := Active);
    var o := Activate(s, t);
    PushDistinct(s.active, r);
    forall q | q in o.active ensures ActiveRecord(o, q) {
      assert q == r || ActiveRecord(s, q);
    }
    forall q | q in o.queue ensures WaitingRecord(o, q) && !Has(o.active, q.ticket.token) {
      assert WaitingRecord(s, q) && !Has(s.active, q.ticket.token);
      assert forall a :: a in o.active ==> a == r || a in s.active;
    }
    assert NoticedOnce(s);
  }

  lemma PushInv(s: PolicyState, t: Ticket)
    requires Inv(s) && Unused(s, t.token) && |s.queue| < s.queueCapacity
    requires forall q | q in s.queue :: q.ticket.token < t.token
    ensures Inv(s.(queue := s.queue + [Fresh(t).(status := Waiting)]))
  {
    var r := Fresh(t).(status := Waiting);
    var o := s.(queue := s.queue + [r]);
    PushIncreasing(s.queue, r);
    forall q | q in o.queue ensures WaitingRecord(o, q) && !Has(o.active, q.ticket.token) {
      assert q == r || (WaitingRecord(s, q) && q in s.queue);
    }
    forall q | q in o.active ensures ActiveRecord(o, q) {
      assert ActiveRecord(s, q);
    }
    assert NoticedOnce(s);
  }

  lemma NextTokenUnused(s: PolicyState)
    requires Inv(s)
    ensures var o := s.(nextToken := s.nextToken + 1);
            Inv(o) && Unused(o, s.nextToken) && forall q | q in o.queue :: q.ticket.token < s.nextToken
  {
    var o := s.(nextToken := s.nextToken + 1);
    forall r | r in s.queue ensures WaitingRecord(o, r) && r.ticket.token < s.nextToken {
      assert WaitingRecord(s, r);
    }
    forall r | r in s.active ensures ActiveRecord(o, r) && r.ticket.token < s.nextToken {
      assert ActiveRecord(s, r);
    }
    assert Times(s.notices, s.nextToken) == 0;
  }

  lemma StartInv(s: PolicyState, t: Ticket, at: Reading)
    requires Inv(s) && Unused(s, t.token)
    ensures Inv(Start(s, t, at).0)
  {
    ObserveInv(s, at.sample);
    var o := Observe(s, at.sample);
    if |s.active| < s.activeCapacity && Runnable(Fresh(t), o.lastNow, at.probe) {
      ActivateInv(o, t);
    }
  }

  lemma EnqueueInv(s: PolicyState, t: Ticket, at: Reading)
    requires Inv(s) && Unused(s, t.token)
    requires forall q | q in s.queue :: q.ticket.token < t.token
    ensures Inv(Enqueue(s, t, at).0)
  {
    var e := Expire(s, at);
    ExpireInv(s, at);
    ExpireTimes(s, at, t.token);
    ExpireActive(s, at);
    ExpireQueue(s, at);
    if Runnable(Fresh(t), e.lastNow, at.probe) && |e.queue| < e.queueCapacity {
      PushInv(e, t);
    }
  }

  lemma DecideInv(s: PolicyState, t: Ticket, startNow: bool, first: Reading, second: Reading)
    requires Inv(s) && Unused(s, t.token)
    requires forall q | q in s.queue :: q.ticket.token < t.token
    ensures Inv(Decide(s, t, startNow, first, second).0)
  {
    if startNow {
      StartInv(s, t, second);
    } else {
      EnqueueInv(s, t, second);
    }
  }

  lemma TicketInv(e: PolicyState, entry: Entry, handle: Name, startNow: bool, first: Reading, second: Reading)
    requires Inv(e)
    ensures Inv(Decide(e.(nextToken := e.nextToken + 1), Ticket(e.nextToken, handle, entry), startNow, first, second).0)
  {
    NextTokenUnused(e);
    DecideInv(e.(nextToken := e.nextToken + 1), Ticket(e.nextToken, handle, entry), startNow, first, second);
  }

  lemma AdmitDecides(s: PolicyState, e: PolicyState, entry: Entry, handle: Name, startNow: bool, first: Reading,
      second: Reading)
    requires e == Expire(s, first)
    ensures Admit(s, entry, handle, startNow, first, second)
         == Decide(e.(nextToken := e.nextToken + 1), Ticket(e.nextToken, handle, entry), startNow, first, second)
  {
  }

  lemma AdmitInv(s: PolicyState, entry: Entry, handle: Name, startNow: bool, first: Reading, second: Reading)
    requires Inv(s)
    ensures Inv(Admit(s, entry, handle, startNow, first, second).0)
  {
    var e := Expire(s, first);
    ExpireInv(s, first);
    AdmitDecides(s, e, entry, handle, startNow, first, second);
    TicketInv(e, entry, handle, startNow, first, second);
  }

  lemma TailInv(s: PolicyState, sample: int)
    requires Inv(s) && s.queue != []
    ensures var o := Observe(s, sample).(queue := s.queue[1..]); Inv(o) && Unused(o, s.queue[0].ticket.token)
  {
    InvFacts(s);
    var o := Observe(s, sample).(queue := s.queue[1..]);
    ObserveInv(s, sample);
    assert WaitingRecord(s, s.queue[0]);
    forall r | r in o.queue ensures WaitingRecord(o, r) {
      assert r in s.queue && WaitingRecord(s, r);
    }
  }

  /** Logging one notice for a token that has none and that no record carries. */
  lemma NoticeInv(s: PolicyState, t: Ticket)
    requires Inv(s) && Unused(s, t.token)
    ensures Inv(s.(notices := s.notices + [Notice(t.token, t.entry)]))
  {
    var o := s.(notices := s.notices + [Notice(t.token, t.entry)]);
    forall token: nat ensures Times(o.notices, token) == Times(s.notices, token) + if token == t.token then 1 else 0 {
      TimesConcat(s.notices, [Notice(t.token, t.entry)], token);
    }
    forall r | r in s.queue ensures WaitingRecord(o, r) {
      assert WaitingRecord(s, r);
    }
    forall r | r in s.active ensures ActiveRecord(o, r) {
      assert ActiveRecord(s, r);
    }
  }

  lemma {:induction false} ClaimInv(s: PolicyState, at: Reading)
    requires Inv(s) && |s.active| < s.activeCapacity
    ensures Inv(Claim(s, at).0)
    decreases |s.queue|
  {
    if s.queue != [] {
      TailInv(s, at.sample);
      var o := Observe(s, at.sample).(queue := s.queue[1..]);
      var r := s.queue[0];
      if Runnable(r, o.lastNow, at.probe) {
        ActivateInv(o, r.ticket);
      } else if Due(r, o.lastNow) {
        NoticeInv(o, r.ticket);
        ClaimInv(o.(notices := o.notices + [Notice(r.ticket.token, r.ticket.entry)]), at);
      } else {
        assert o.notices + [] == o.notices;
        ClaimInv(o, at);
      }
    }
  }

  lemma DequeueClaims(s: PolicyState, e: PolicyState, first: Reading, second: Reading)
    requires e == Expire(s, first)
    ensures Dequeue(s, first, second) == if |e.active| >= e.activeCapacity then (e, None) else Claim(e, second)
  {
  }

  lemma DequeueInv(s: PolicyState, first: Reading, second: Reading)
    requires Inv(s)
    ensures Inv(Dequeue(s, first, second).0)
  {
    var e := Expire(s, first);
    ExpireInv(s, first);
    DequeueClaims(s, e, first, second);
    if |e.active| < e.activeCapacity {
      ClaimInv(e, second);
    }
  }

  /** Rewriting the flags of one active record, logging its notice when it turns expired. */
  ghost predicate Flags(s: PolicyState, r: QueueRecord, u: QueueRecord, o: PolicyState) {
    && r in s.active && u.ticket == r.ticket && u.status == r.status && u.expired == u.expiryNotified
    && (r.expired ==> u.expired)
    && o == s.(active := Replace(s.active, u),
               notices := if u.expired == r.expired then s.notices
                   else s.notices + [Notice(r.ticket.token, r.ticket.entry)])
  }

  lemma FlagActive(s: PolicyState, r: QueueRecord, u: QueueRecord, o: PolicyState)
    requires Inv(s) && Flags(s, r, u, o)
    ensures forall q | q in o.active :: ActiveRecord(o, q)
  {
    ReplaceKeepsTickets(s.active, u);
    assert ActiveRecord(s, r);
    FlagTimes(s, r, u, o);
    forall i | 0 <= i < |o.active| ensures ActiveRecord(o, o.active[i]) {
      var q := s.active[i];
      assert q in s.active && ActiveRecord(s, q);
      if q.ticket.token == r.ticket.token {
        SameTokenDistinct(s.active, r);
      }
    }
  }

  lemma FlagInv(s: PolicyState, r: QueueRecord, u: QueueRecord, o: PolicyState)
    requires Inv(s) && Flags(s, r, u, o)
    ensures Inv(o)
  {
    FlagActive(s, r, u, o);
    ReplaceKeepsTickets(s.active, u);
    FlagTimes(s, r, u, o);
    assert ActiveRecord(s, r);
    forall q | q in o.queue ensures WaitingRecord(o, q) && !Has(o.active, q.ticket.token) {
      assert WaitingRecord(s, q) && !Has(s.active, q.ticket.token);
    }
  }

  lemma FlagTimes(s: PolicyState, r: QueueRecord, u: QueueRecord, o: PolicyState)
    requires o.notices == if u.expired == r.expired then s.notices
        else s.notices + [Notice(r.ticket.token, r.ticket.entry)]
    ensures forall token: nat ::
              Times(o.notices, token) == Times(s.notices, token) + if u.expired != r.expired
                  && token == r.ticket.token then 1 else 0
  {
    forall token: nat
      ensures Times(o.notices, token) == Times(s.notices, token) + if u.expired != r.expired
          && token == r.ticket.token then 1 else 0
    {
      TimesConcat(s.notices, [Notice(r.ticket.token, r.ticket.entry)], token);
    }
  }

  /** Taking a queued record out and telling the observer. */
  lemma DropExpiredInv(s: PolicyState, r: QueueRecord)
    requires Inv(s) && r in s.queue
    ensures Inv(MarkExpired(Remove(s, r.ticket.token), r))
  {
    var o := Remove(s, r.ticket.token);
    RemoveInv(s, r.ticket.token);
    assert WaitingRecord(s, r);
    WithoutFilters(s.queue, r.ticket.token);
    WithoutFilters(s.active, r.ticket.token);
    ReplaceKeepsTickets(o.active, r.(expired := true, expiryNotified := true));
    NoticeInv(o, r.ticket);
  }

  lemma CancelWaitingInv(s: PolicyState, r: QueueRecord, at: Reading)
    requires Inv(s) && r in s.queue
    ensures Inv(CancelWaiting(s, r, at).0)
  {
    ObserveInv(s, at.sample);
    if CancellationRequested(r.ticket.entry, at.probe) {
      RemoveInv(s, r.ticket.token);
    } else if Due(r, Observe(s, at.sample).lastNow) {
      DropExpiredInv(Observe(s, at.sample), r);
    } else {
      RemoveInv(Observe(s, at.sample), r.ticket.token);
    }
  }

  lemma MarkExpiredInv(s: PolicyState, r: QueueRecord)
    requires Inv(s) && r in s.active
    ensures Inv(MarkExpired(s, r))
  {
    assert ActiveRecord(s, r);
    FlagInv(s, r, r.(expired := true, expiryNotified := true), MarkExpired(s, r));
  }

  lemma CancelActiveInv(s: PolicyState, r: QueueRecord, at: Reading)
    requires Inv(s) && r in s.active
    ensures Inv(CancelActive(s, r, at).0)
  {
    var o := Observe(s, at.sample);
    ObserveInv(s, at.sample);
    MarkExpiredInv(o, r);
    assert ActiveRecord(s, r);
    FlagInv(o, r, r.(cancellationRequested := true),
        o.(active := Replace(o.active, r.(cancellationRequested := true))));
  }

  lemma CancelRecordInv(s: PolicyState, r: QueueRecord, first: Reading, second: Reading)
    requires Inv(s) && (r in s.queue || r in s.active)
    ensures Inv(CancelRecord(s, r, first, second).0)
  {
    var o := Observe(s, first.sample);
    ObserveInv(s, first.sample);
    if r in s.active {
      assert ActiveRecord(s, r);
      if r.expired || Due(r, o.lastNow) {
        MarkExpiredInv(o, r);
      } else {
        CancelActiveInv(o, r, second);
      }
    } else {
      assert WaitingRecord(s, r);
      if Due(r, o.lastNow) {
        DropExpiredInv(o, r);
      } else {
        CancelWaitingInv(o, r, second);
      }
    }
  }

  /* ---------- whole runs ---------- */

  /** A call of the policy. A release or a cancellation names the record its target resolved to. */
  datatype Call =
    | AdmitCall(entry: Entry, handle: Name, startNow: bool, first: Reading, second: Reading)
    | DequeueCall(first: Reading, second: Reading)
    | ReleaseCall(token: nat)
    | CancelCall(record: QueueRecord, first: Reading, second: Reading)
    | ExpireCall(at: Reading)

  function Apply(s: PolicyState, c: Call): PolicyState {
    match c
    case AdmitCall(entry, handle, startNow, first, second) => Admit(s, entry, handle, startNow, first, second).0
    case DequeueCall(first, second) => Dequeue(s, first, second).0
    case ReleaseCall(token) => Remove(s, token)
    case CancelCall(r, first, second) => if r in s.queue || r in s.active then CancelRecord(s, r, first, second).0
        else s
    case ExpireCall(at) => Expire(s, at)
  }

  function Run(s: PolicyState, calls: seq<Call>): PolicyState
    decreases |calls|
  {
    if calls == [] then s else Run(Apply(s, calls[0]), calls[1..])
  }

  lemma StepInv(s: PolicyState, c: Call)
    requires Inv(s)
    ensures Inv(Apply(s, c))
  {
    match c
    case AdmitCall(entry, handle, startNow, first, second) => AdmitInv(s, entry, handle, startNow, first, second);
    case DequeueCall(first, second) => DequeueInv(s, first, second);
    case ReleaseCall(token) => RemoveInv(s, token);
    case CancelCall(r, first, second) =>
      if r in s.queue || r in s.active {
        CancelRecordInv(s, r, first, second);
      }
    case ExpireCall(at) => ExpireInv(s, at);
  }

  /** Time observed, notices and tokens only grow. */
  ghost predicate Grows(s: PolicyState, o: PolicyState) {
    && s.lastNow <= o.lastNow && s.notices <= o.notices && s.nextToken <= o.nextToken
    && s.queueCapacity == o.queueCapacity && s.activeCapacity == o.activeCapacity
  }

  lemma {:induction false} ClaimGrows(s: PolicyState, at: Reading)
    ensures Grows(s, Claim(s, at).0)
    ensures forall token | Has(s.active, token) :: Has(Claim(s, at).0.active, token)
    decreases |s.queue|
  {
    if s.queue != [] {
      var o := Observe(s, at.sample).(queue := s.queue[1..]);
      var r := s.queue[0];
      if Runnable(r, o.lastNow, at.probe) {
        assert forall q :: q in s.active ==> q in Activate(o, r.ticket).active;
      } else {
        var notice := NoticeIfDue(r, o.lastNow);
        ClaimGrows(o.(notices := o.notices + notice), at);
      }
    }
  }

  /** `o` has every active token that `s` has, and grew from it. */
  ghost predicate KeepsSlots(s: PolicyState, o: PolicyState) {
    Grows(s, o) && forall token | Has(s.active, token) :: Has(o.active, token)
  }

  lemma ExpireKeepsSlots(s: PolicyState, at: Reading)
    ensures KeepsSlots(s, Expire(s, at))
  {
    MarkDueKeepsTickets(s.active, Max(s.lastNow, at.sample));
  }

  lemma DecideKeepsSlots(s: PolicyState, t: Ticket, startNow: bool, first: Reading, second: Reading)
    ensures KeepsSlots(s, Decide(s, t, startNow, first, second).0)
  {
    ExpireKeepsSlots(s, second);
    assert forall q :: q in s.active ==> q in Activate(Observe(s, second.sample), t).active;
  }

  lemma AdmitKeepsSlots(s: PolicyState, entry: Entry, handle: Name, startNow: bool, first: Reading, second: Reading)
    ensures KeepsSlots(s, Admit(s, entry, handle, startNow, first, second).0)
  {
    var e := Expire(s, first);
    ExpireKeepsSlots(s, first);
    AdmitDecides(s, e, entry, handle, startNow, first, second);
    DecideKeepsSlots(e.(nextToken := e.nextToken + 1), Ticket(e.nextToken, handle, entry), startNow, first, second);
  }

  lemma DequeueKeepsSlots(s: PolicyState, first: Reading, second: Reading)
    ensures KeepsSlots(s, Dequeue(s, first, second).0)
  {
    var e := Expire(s, first);
    ExpireKeepsSlots(s, first);
    DequeueClaims(s, e, first, second);
    ClaimGrows(e, second);
  }

  lemma MarkExpiredKeepsSlots(s: PolicyState, r: QueueRecord)
    ensures KeepsSlots(s, MarkExpired(s, r))
  {
    ReplaceKeepsTickets(s.active, r.(expired := true, expiryNotified := true));
  }

  lemma RemoveKeepsSlots(s: PolicyState, token: nat)
    requires !Has(s.active, token)
    ensures KeepsSlots(s, Remove(s, token))
  {
    WithoutAbsent(s.active, token);
  }

  lemma CancelActiveKeepsSlots(s: PolicyState, r: QueueRecord, at: Reading)
    ensures KeepsSlots(s, CancelActive(s, r, at).0)
  {
    MarkExpiredKeepsSlots(Observe(s, at.sample), r);
    ReplaceKeepsTickets(s.active, r.(cancellationRequested := true));
  }

  lemma CancelWaitingKeepsSlots(s: PolicyState, r: QueueRecord, at: Reading)
    requires !Has(s.active, r.ticket.token)
    ensures KeepsSlots(s, CancelWaiting(s, r, at).0)
  {
    RemoveKeepsSlots(s, r.ticket.token);
    RemoveKeepsSlots(Observe(s, at.sample), r.ticket.token);
    MarkExpiredKeepsSlots(Remove(Observe(s, at.sample), r.ticket.token), r);
  }

  lemma CancelKeepsSlots(s: PolicyState, r: QueueRecord, first: Reading, second: Reading)
    requires Inv(s) && (r in s.queue || r in s.active)
    ensures KeepsSlots(s, CancelRecord(s, r, first, second).0)
  {
    var o := Observe(s, first.sample);
    if r in s.active {
      assert ActiveRecord(s, r);
      MarkExpiredKeepsSlots(o, r);
      CancelActiveKeepsSlots(o, r, second);
    } else {
      assert WaitingRecord(s, r);
      RemoveKeepsSlots(o, r.ticket.token);
      MarkExpiredKeepsSlots(Remove(o, r.ticket.token), r);
      CancelWaitingKeepsSlots(o, r, second);
    }
  }

  /** No call but a release frees an active slot: an expired or cancelled lease keeps its place. */
  lemma StepGrows(s: PolicyState, c: Call)
    requires Inv(s)
    ensures Grows(s, Apply(s, c))
    ensures !c.ReleaseCall? ==> KeepsSlots(s, Apply(s, c))
  {
    match c
    case AdmitCall(entry, handle, startNow, first, second) => AdmitKeepsSlots(s, entry, handle, startNow, first,
        second);
    case DequeueCall(first, second) => DequeueKeepsSlots(s, first, second);
    case ReleaseCall(token) =>
    case CancelCall(r, first, second) =>
      if r in s.queue || r in s.active {
        CancelKeepsSlots(s, r, first, second);
      }
    case ExpireCall(at) => ExpireKeepsSlots(s, at);
  }

  lemma {:induction false} RunInv(s: PolicyState, calls: seq<Call>)
    requires Inv(s)
    ensures Inv(Run(s, calls)) && Grows(s, Run(s, calls))
    decreases |calls|
  {
    if calls != [] {
      StepInv(s, calls[0]);
      StepGrows(s, calls[0]);
      RunInv(Apply(s, calls[0]), calls[1..]);
    }
  }

  /** In every run of a new policy the invariant holds and no record's expiry is notified twice; between any
      two points of the run observed time does not go back, whatever the clock does. */
  lemma RunsKeepInvariant(queueCapacity: nat, activeCapacity: nat, sample: int, before: seq<Call>, after: seq<Call>)
    ensures var s := Run(Init(queueCapacity, activeCapacity, sample), before);
            var o := Run(s, after);
            && Inv(o) && Grows(s, o) && o.queueCapacity == queueCapacity && o.activeCapacity == activeCapacity
            && forall token: nat :: Times(o.notices, token) <= 1
  {
    var s := Run(Init(queueCapacity, activeCapacity, sample), before);
    RunInv(Init(queueCapacity, activeCapacity, sample), before);
    RunInv(s, after);
    assert NoticedOnce(Run(s, after));
  }

  /** Claiming hands out the first record that can run and drops the ones before it. */
  lemma {:induction false} ClaimTakesFirst(s: PolicyState, at: Reading)
    ensures var (o, t) := Claim(s, at);
            var now := Max(s.lastNow, at.sample);
            match t
            case None => o.queue == [] && forall r | r in s.queue :: !Runnable(r, now, at.probe)
            case Some(t) =>
              && t.entry.expiresAt > o.lastNow == now
              && exists k :: 0 <= k < |s.queue| && s.queue[k].ticket == t && Runnable(s.queue[k], now, at.probe)
                             && o.queue == s.queue[k + 1..]
                                 && forall j | 0 <= j < k :: !Runnable(s.queue[j], now, at.probe)
    ensures Claim(s, at).1.Some? ==> Has(Claim(s, at).0.active, Claim(s, at).1.value.token)
    decreases |s.queue|
  {
    if s.queue != [] {
      var now := Max(s.lastNow, at.sample);
      var o := Observe(s, at.sample).(queue := s.queue[1..]);
      var r := s.queue[0];
      if Runnable(r, now, at.probe) {
        var a := Activate(o, r.ticket);
        assert a.active[|a.active| - 1].ticket == r.ticket;
        assert s.queue[0].ticket == r.ticket && a.queue == s.queue[0 + 1..];
      } else {
        var notice := NoticeIfDue(r, o.lastNow);
        var rest := o.(notices := o.notices + notice);
        ClaimTakesFirst(rest, at);
        var (p, t) := Claim(rest, at);
        assert s.queue == [r] + s.queue[1..];
        if t.Some? {
          var k :| 0 <= k < |rest.queue| && rest.queue[k].ticket == t.value && Runnable(rest.queue[k], now, at.probe)
                   && p.queue == rest.queue[k + 1..] && forall j | 0 <= j < k
                       :: !Runnable(rest.queue[j], now, at.probe);
          assert s.queue[k + 1] == rest.queue[k];
          forall j | 0 <= j < k + 1 ensures !Runnable(s.queue[j], now, at.probe) {
            assert j == 0 || s.queue[j] == rest.queue[j - 1];
          }
          assert p.queue == s.queue[k + 2..];
        }
      }
    }
  }

  /** A queued record that passes the guard at both readings of a dequeue. */
  ghost predicate CanRun(s: PolicyState, r: QueueRecord, first: Reading, second: Reading) {
    var now := Max(s.lastNow, first.sample);
    r in s.queue && Runnable(r, now, first.probe) && Runnable(r, Max(now, second.sample), second.probe)
  }

  /** `dequeue` hands over the lowest token among the records that can run at both readings;
      the lease it hands over is not yet expired; an empty answer means a full house or nobody
      able to run, and in the second case nothing is left in the queue. */
  lemma DequeueIsFirstComeFirstServed(s: PolicyState, first: Reading, second: Reading)
    requires Inv(s)
    ensures var (o, t) := Dequeue(s, first, second);
            match t
            case Some(t) =>
              && t.entry.expiresAt > o.lastNow && Has(o.active, t.token)
              && (exists r :: CanRun(s, r, first, second) && r.ticket == t)
              && (forall r | CanRun(s, r, first, second) :: t.token <= r.ticket.token)
            case None => |s.active| >= s.activeCapacity || (o.queue == [] && forall r :: !CanRun(s, r, first, second))
  {
    var e := Expire(s, first);
    DequeueClaims(s, e, first, second);
    ExpireInv(s, first);
    MarkDueKeepsTickets(s.active, e.lastNow);
    KeepFilters(s.queue, e.lastNow, first.probe);
    if |e.active| < e.activeCapacity {
      ClaimTakesFirst(e, second);
      if Claim(e, second).1.Some? {
        FirstIsLowest(e, Max(e.lastNow, second.sample), second.probe);
      }
    }
  }

  /** In an increasing queue the first record passing a guard has the lowest token of all that pass. */
  lemma FirstIsLowest(s: PolicyState, now: int, probe: Probe)
    requires Increasing(s.queue)
    ensures forall k | 0 <= k < |s.queue| && forall j | 0 <= j < k :: !Runnable(s.queue[j], now, probe) ::
              forall r | r in s.queue && Runnable(r, now, probe) :: s.queue[k].ticket.token <= r.ticket.token
  {
    forall k, i | 0 <= k < i < |s.queue| ensures s.queue[k].ticket.token < s.queue[i].ticket.token {
      IncreasingAt(s.queue, k, i);
    }
  }

  lemma {:induction false} IncreasingAt(rs: seq<QueueRecord>, i: nat, j: nat)
    requires Increasing(rs) && i < j < |rs|
    ensures rs[i].ticket.token < rs[j].ticket.token
  {
    if i == 0 {
      assert rs[j] == rs[1..][j - 1];
    } else {
      IncreasingAt(rs[1..], i - 1, j - 1);
    }
  }

  /** A lease handed over on direct admission is not yet expired either, and it holds a slot. */
  lemma AdmittedLeaseIsLive(s: PolicyState, entry: Entry, handle: Name, startNow: bool, first: Reading, second: Reading)
    ensures var (o, d) := Admit(s, entry, handle, startNow, first, second);
            var t := Ticket(s.nextToken, handle, entry);
            match d
            case Admitted(lease) => startNow && lease == LeaseOf(t) && lease.expiresAt > o.lastNow
                && Has(o.active, t.token) && |o.active| <= o.activeCapacity
            case Enqueued(h, position) => !startNow && h == handle && 0 < |o.queue| == position <= o.queueCapacity
                && o.queue[position - 1].ticket == t
            case Busy => if startNow then |o.active| >= o.activeCapacity else |o.queue| >= o.queueCapacity
            case ExpiredEntry => entry.expiresAt <= o.lastNow
            case CancelledEntry => entry.expiresAt > o.lastNow
  {
    var e := Expire(s, first);
    AdmitDecides(s, e, entry, handle, startNow, first, second);
    var t := Ticket(e.nextToken, handle, entry);
    var o := Decide(e.(nextToken := e.nextToken + 1), t, startNow, first, second);
    if o.1.Admitted? {
      assert o.0.active[|o.0.active| - 1].ticket == t;
    }
  }
}
