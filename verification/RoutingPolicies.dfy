/** The routing policy as the class the router owns: an array queue, the active leases, and five
    indexes that are updated in place beside them. Records are referred to by their token. */
module RoutingPolicies {
  import opened TaskStates
  import opened PolicySpec
  import opened PolicyRuns
  import opened TicketIndexes

  lemma {:induction false} IncreasingIsDistinct(rs: seq<QueueRecord>)
    requires Increasing(rs)
    ensures Distinct(rs)
  {
    if rs != [] {
      IncreasingIsDistinct(rs[1..]);
    }
  }

  /** Splicing a record out of distinct records is removing its token. */
  lemma {:induction false} SpliceIsWithout(rs: seq<QueueRecord>, i: nat)
    requires Distinct(rs) && i < |rs|
    ensures Without(rs, rs[i].ticket.token) == rs[..i] + rs[i + 1..]
  {
    if i == 0 {
      WithoutAbsent(rs[1..], rs[0].ticket.token);
    } else {
      DistinctAt(rs, 0, i);
      SpliceIsWithout(rs[1..], i - 1);
      assert rs[..i] + rs[i + 1..] == [rs[0]] + (rs[1..][..i - 1] + rs[1..][i..]);
    }
  }

  /** What the queue and the active leases must satisfy for a token to name one record. */
  ghost predicate OneRecordPerToken(queue: seq<QueueRecord>, active: seq<QueueRecord>) {
    && Distinct(queue) && Distinct(active)
    && forall q {:trigger Has(active, q.ticket.token)} :: q in queue ==> !Has(active, q.ticket.token)
  }

  lemma TokensNameTickets(queue: seq<QueueRecord>, active: seq<QueueRecord>)
    requires OneRecordPerToken(queue, active)
    ensures TokensName(Tickets(queue) + Tickets(active))
  {
    forall a, b | a in Tickets(queue) + Tickets(active) && b in Tickets(queue) + Tickets(active) && a.token == b.token
      ensures a == b
    {
      var r :| r in queue + active && r.ticket == a;
      var q :| q in queue + active && q.ticket == b;
      assert r in queue ==> !Has(active, r.ticket.token);
      assert q in queue ==> !Has(active, q.ticket.token);
      if r in queue && q in queue {
        SameTokenDistinct(queue, r);
      } else if r in active && q in active {
        SameTokenDistinct(active, r);
      }
    }
  }

  lemma TicketsWithout(rs: seq<QueueRecord>, token: nat)
    ensures Tickets(Without(rs, token)) == set t | t in Tickets(rs) && t.token != token
  {
    WithoutFilters(rs, token);
    forall t | t in Tickets(rs) && t.token != token ensures t in Tickets(Without(rs, token)) {
      var r :| r in rs && r.ticket == t;
      assert r in Without(rs, token);
    }
  }

  /** Where a token sits in a sequence of records, or -1. */
  method IndexOf(rs: seq<QueueRecord>, token: nat) returns (index: int)
    ensures -1 <= index < |rs|
    ensures index == -1 <==> !Has(rs, token)
    ensures 0 <= index ==> rs[index].ticket.token == token
  {
    index := 0;
    while index < |rs|
      invariant 0 <= index <= |rs|
      invariant forall j | 0 <= j < index :: rs[j].ticket.token != token
    {
      if rs[index].ticket.token == token {
        assert rs[index] in rs;
        return;
      }
      index := index + 1;
    }
    index := -1;
  }

  /** The five indexes are exactly the inverse images of `ts`, the leases those of `leased`. */
  ghost predicate Covered(h: map<Name, nat>, e: Buckets, i: Buckets, r: Buckets, l: map<Lease, nat>, ts: set<Ticket>,
      leased: set<Ticket>) {
    Indexed(h, e, i, r, ts) && NamesLeases(l, leased)
  }

  class RoutingPolicy {
    const queueCapacity: nat
    const activeCapacity: nat
    var queue: seq<QueueRecord>
    var active: seq<QueueRecord>
    var handles: map<Name, nat>
    var entries: Buckets
    var entryIds: Buckets
    var requestIds: Buckets
    var leases: map<Lease, nat>
    var nextToken: nat
    var lastObservedNow: int
    ghost var notices: seq<Notice>

    ghost function State(): PolicyState
      reads this
    {
      PolicyState(queueCapacity, activeCapacity, queue, active, nextToken, lastObservedNow, notices)
    }

    ghost predicate Covers(ts: set<Ticket>)
      reads this
    {
      Covered(handles, entries, entryIds, requestIds, leases, ts, Tickets(active))
    }

    ghost predicate Valid()
      reads this
    {
      && Inv(State())
      && Covers(Retained(State()))
    }

    constructor (queueCapacity: nat, activeCapacity: nat, sample: int)
      ensures Valid() && State() == Init(queueCapacity, activeCapacity, sample)
    {
      this.queueCapacity, this.activeCapacity := queueCapacity, activeCapacity;
      queue, active := [], [];
      handles, entries, entryIds, requestIds, leases := map[], map[], map[], map[], map[];
      nextToken, lastObservedNow := 1, sample;
      notices := [];
    }

    method ReadMonotonicNow(sample: int) returns (now: int)
      modifies `lastObservedNow
      ensures State() == Observe(old(State()), sample) && now == lastObservedNow
    {
      if sample < lastObservedNow {
        return lastObservedNow;
      }
      lastObservedNow := sample;
      now := sample;
    }

    method IndexTicket(t: Ticket)
      modifies `handles, `entries, `entryIds, `requestIds
      ensures handles == old(handles)[t.handle := t.token] && entries == Added(old(entries), Some(t.entry.ref), t.token)
      ensures entryIds == Added(old(entryIds), t.entry.id, t.token)
      ensures requestIds == Added(old(requestIds), t.entry.requestId, t.token)
    {
      handles := handles[t.handle := t.token];
      entries := Added(entries, Some(t.entry.ref), t.token);
      entryIds := Added(entryIds, t.entry.id, t.token);
      requestIds := Added(requestIds, t.entry.requestId, t.token);
    }

    method DeindexTicket(t: Ticket)
      modifies `handles, `entries, `entryIds, `requestIds
      ensures handles == old(handles) - {t.handle} && entries == Dropped(old(entries), Some(t.entry.ref), t.token)
      ensures entryIds == Dropped(old(entryIds), t.entry.id, t.token)
      ensures requestIds == Dropped(old(requestIds), t.entry.requestId, t.token)
    {
      handles := handles - {t.handle};
      entries := Dropped(entries, Some(t.entry.ref), t.token);
      entryIds := Dropped(entryIds, t.entry.id, t.token);
      requestIds := Dropped(requestIds, t.entry.requestId, t.token);
    }

    method RegisterRecord(t: Ticket, ghost ts: set<Ticket>)
      requires Covers(ts) && t.handle !in handles
      modifies `handles, `entries, `entryIds, `requestIds
      ensures Covers(ts + {t})
    {
      IndexedAdd(handles, entries, entryIds, requestIds, ts, t);
      IndexTicket(t);
    }

    /** Frees the active slot, or splices the record out of the queue. */
    method Unlink(token: nat)
      requires OneRecordPerToken(queue, active)
      modifies `queue, `active
      ensures queue == Without(old(queue), token) && active == Without(old(active), token)
    {
      var slot := IndexOf(active, token);
      if 0 <= slot {
        SpliceIsWithout(active, slot);
        WithoutAbsent(queue, token);
        active := active[..slot] + active[slot + 1..];
      } else {
        WithoutAbsent(active, token);
        var index := IndexOf(queue, token);
        if 0 <= index {
          SpliceIsWithout(queue, index);
          queue := queue[..index] + queue[index + 1..];
        } else {
          WithoutAbsent(queue, token);
        }
      }
    }

    /** Takes a record out of the queue or the active leases and out of every index. */
    method RemoveRecord(t: Ticket, ghost ts: set<Ticket>)
      requires OneRecordPerToken(queue, active)
      requires TokensName(ts) && t in ts && Tickets(queue) + Tickets(active) <= ts && Covers(ts)
      modifies `queue, `active, `handles, `entries, `entryIds, `requestIds, `leases
      ensures queue == Without(old(queue), t.token) && active == Without(old(active), t.token)
      ensures Covers(ts - {t})
    {
      RemovalCovers(handles, entries, entryIds, requestIds, leases, ts, t, active);
      Unlink(t.token);
      DeindexTicket(t);
      leases := leases - {LeaseOf(t)};
    }

    /** What the loops keep while records come and go. */
    ghost predicate Sound()
      reads this
    {
      OneRecordPerToken(queue, active) && Covers(Tickets(queue) + Tickets(active))
    }

    method DropQueued(index: nat)
      requires Sound() && index < |queue|
      modifies `queue, `active, `handles, `entries, `entryIds, `requestIds, `leases
      ensures Sound() && queue == old(queue[..index] + queue[index + 1..]) && active == old(active)
    {
      var r := queue[index];
      assert r in queue;
      SpliceIsWithout(queue, index);
      TokensNameTickets(queue, active);
      RemovalTickets(queue, active, r.ticket);
      RemovalKeepsOneRecord(queue, active, r.ticket.token);
      RemoveRecord(r.ticket, Tickets(queue) + Tickets(active));
    }

    /** One turn of the backward loop. */
    method ExpireAt(index: nat, now: int, probe: Probe)
      requires Sound() && index < |queue|
      modifies `queue, `active, `handles, `entries, `entryIds, `requestIds, `leases, `notices
      ensures Sound() && active == old(active)
      ensures queue == if Runnable(old(queue)[index], now, probe) then old(queue)
          else old(queue)[..index] + old(queue)[index + 1..]
      ensures notices == old(notices) + NoticeIfDue(old(queue)[index], now)
    {
      var r := queue[index];
      if Due(r, now) {
        DropQueued(index);
        notices := notices + [Notice(r.ticket.token, r.ticket.entry)];
      } else if !Runnable(r, now, probe) {
        DropQueued(index);
      }
    }

    /** The backward splice loop over the queue. */
    method ExpireQueued(now: int, probe: Probe)
      requires Sound()
      modifies `queue, `active, `handles, `entries, `entryIds, `requestIds, `leases, `notices
      ensures queue == Keep(old(queue), now, probe) && active == old(active)
      ensures notices == old(notices) + NoticesBackward(old(queue), now)
      ensures Sound()
    {
      ghost var q0, kept, told := queue, [], [];
      var index := |queue| - 1;
      while index >= 0
        invariant -1 <= index < |q0|
        invariant queue == q0[..index + 1] + kept && kept == Keep(q0[index + 1..], now, probe)
        invariant notices == old(notices) + told && told == NoticesBackward(q0[index + 1..], now)
        invariant Sound() && active == old(active)
      {
        BackwardStep(q0, index, queue, kept, now, probe);
        ExpireAt(index, now, probe);
        kept := Keep(q0[index..], now, probe);
        told := told + NoticeIfDue(q0[index], now);
        index := index - 1;
      }
      assert q0[..0] + kept == kept && q0[0..] == q0;
    }

    /** The loop over active leases: they are marked, and stay. */
    method ExpireActive(now: int)
      requires forall r | r in active :: r.expired == r.expiryNotified
      modifies `active, `notices
      ensures active == MarkDue(old(active), now) && notices == old(notices) + NoticesForward(old(active), now)
    {
      var rest, done := active, [];
      ghost var told := [];
      while rest != []
        invariant done + MarkDue(rest, now) == MarkDue(active, now)
        invariant told + NoticesForward(rest, now) == NoticesForward(active, now)
        invariant forall r | r in rest :: r.expired == r.expiryNotified
      {
        var r := rest[0];
        if Due(r, now) && !r.expired {
          told := told + [Notice(r.ticket.token, r.ticket.entry)];
        }
        done := done + [Marked(r, now)];
        rest := rest[1..];
      }
      active, notices := done, notices + told;
    }

    method ExpireAll(at: Reading)
      requires Sound() && forall r | r in active :: r.expired == r.expiryNotified
      modifies this
      ensures Sound() && State() == PolicySpec.Expire(old(State()), at)
    {
      MarkDueKeepsTickets(active, Max(lastObservedNow, at.sample));
      MarkDueTickets(active, Max(lastObservedNow, at.sample));
      var now := ReadMonotonicNow(at.sample);
      ExpireQueued(now, at.probe);
      ExpireActive(now);
    }

    method Expire(at: Reading)
      requires Valid()
      modifies this
      ensures Valid() && State() == PolicySpec.Expire(old(State()), at)
    {
      ExpireInv(State(), at);
      InvIsSound(State());
      ExpireAll(at);
    }

    /** A ticket that is indexed but in neither the queue nor the active leases becomes active. */
    method CreateLease(t: Ticket, ghost ts: set<Ticket>) returns (lease: Lease)
      requires Covers(ts) && LeaseOf(t) !in leases
      modifies `active, `leases
      ensures active == old(active) + [Fresh(t).(status := Active)] && lease == LeaseOf(t)
      ensures Covers(ts)
    {
      LeaseAdded(leases, Tickets(active), t);
      PushTickets(active, Fresh(t).(status := Active));
      active := active + [Fresh(t).(status := Active)];
      lease := LeaseOf(t);
      leases := leases[lease := t.token];
    }

    method StartHead() returns (lease: Lease)
      requires Valid() && queue != []
      modifies `queue, `active, `leases
      ensures queue == old(queue)[1..] && active == old(active) + [Fresh(old(queue)[0].ticket).(status := Active)]
      ensures lease == LeaseOf(old(queue)[0].ticket)
      ensures Covers(Tickets(queue) + Tickets(active))
    {
      var t := queue[0].ticket;
      HeadHasNoLease(State(), leases, handles);
      HeadMoves(queue, active);
      ghost var ts := Tickets(queue) + Tickets(active);
      queue := queue[1..];
      lease := CreateLease(t, ts);
    }

    method DropHead(now: int)
      requires Valid() && queue != []
      modifies `queue, `active, `handles, `entries, `entryIds, `requestIds, `leases, `notices
      ensures queue == old(queue)[1..] && active == old(active)
      ensures notices == old(notices) + NoticeIfDue(old(queue)[0], now)
      ensures Covers(Tickets(queue) + Tickets(active))
    {
      var r := queue[0];
      InvIsSound(State());
      DropQueued(0);
      assert old(queue)[..0] + old(queue)[0 + 1..] == old(queue)[1..];
      if Due(r, now) {
        notices := notices + [Notice(r.ticket.token, r.ticket.entry)];
      }
    }

    /** One turn of the dequeue loop: the head becomes active, or is dropped for good. */
    method ClaimHead(at: Reading) returns (lease: Option<Lease>)
      requires Valid() && queue != [] && |active| < activeCapacity
      modifies this
      ensures Valid()
      ensures var r := old(queue)[0];
              var o := Observe(old(State()), at.sample).(queue := old(queue)[1..]);
              if Runnable(r, o.lastNow, at.probe) then State() == Activate(o, r.ticket)
                  && lease == Some(LeaseOf(r.ticket))
              else State() == o.(notices := o.notices + NoticeIfDue(r, o.lastNow)) && lease == None
    {
      var r := queue[0];
      HeadInv(State(), at);
      ObserveInv(State(), at.sample);
      var now := ReadMonotonicNow(at.sample);
      if Runnable(r, now, at.probe) {
        var l := StartHead();
        lease := Some(l);
      } else {
        DropHead(now);
        lease := None;
      }
    }

    method Dequeue(first: Reading, second: Reading) returns (lease: Option<Lease>)
      requires Valid()
      modifies this
      ensures Valid()
      ensures var (s, t) := PolicySpec.Dequeue(old(State()), first, second);
              State() == s && lease == if t.Some? then Some(LeaseOf(t.value)) else None
    {
      ghost var s := State();
      Expire(first);
      ghost var e := State();
      DequeueClaims(s, e, first, second);
      lease := None;
      if |active| >= activeCapacity {
        return;
      }
      while |queue| > 0 && lease == None
        invariant Valid() && |active| <= activeCapacity
        invariant lease == None ==> |active| < activeCapacity && Claim(State(), second) == Claim(e, second)
        invariant lease.Some? ==> exists t :: lease == Some(LeaseOf(t)) && (State(), Some(t)) == Claim(e, second)
        decreases |queue|
      {
        lease := ClaimHead(second);
      }
    }

    /** Indexes a fresh ticket and makes it active. */
    method Lend(t: Ticket) returns (lease: Lease)
      requires Covers(Retained(State())) && t.handle !in handles && LeaseOf(t) !in leases
      modifies `active, `handles, `entries, `entryIds, `requestIds, `leases
      ensures active == old(active) + [Fresh(t).(status := Active)] && lease == LeaseOf(t)
      ensures Covers(Retained(State()))
    {
      ghost var ts := Retained(State());
      RegisterRecord(t, ts);
      PushTickets(active, Fresh(t).(status := Active));
      lease := CreateLease(t, ts + {t});
      assert Retained(State()) == ts + {t};
    }

    /** Indexes a fresh ticket and, the claim having failed, takes it out again. */
    method LendNot(t: Ticket)
      requires Sound() && t.handle !in handles && t !in Retained(State()) && TokensName(Retained(State()) + {t})
      requires Without(queue, t.token) == queue && Without(active, t.token) == active
      modifies `queue, `active, `handles, `entries, `entryIds, `requestIds, `leases
      ensures queue == old(queue) && active == old(active)
      ensures Covers(Retained(State()))
    {
      ghost var ts := Retained(State());
      RegisterRecord(t, ts);
      RemoveRecord(t, ts + {t});
      assert ts + {t} - {t} == ts;
    }

    /** Direct admission of a fresh ticket: it is indexed first, then claimed or taken out again. */
    method StartTicket(t: Ticket, at: Reading) returns (d: Admission)
      requires Valid() && Unused(State(), t.token) && t.handle !in handles
      modifies this
      ensures Covers(Retained(State())) && (State(), d) == Start(old(State()), t, at)
    {
      if |active| >= activeCapacity {
        return Busy;
      }
      InvIsSound(State());
      FreshTicket(State(), t, handles, leases);
      var now := ReadMonotonicNow(at.sample);
      if Runnable(Fresh(t), now, at.probe) {
        var lease := Lend(t);
        d := Admitted(lease);
      } else {
        LendNot(t);
        d := Refusal(t, now);
      }
    }

    method PushWaiting(t: Ticket)
      requires Covers(Retained(State())) && t.handle !in handles
      modifies `queue, `handles, `entries, `entryIds, `requestIds
      ensures queue == old(queue) + [Fresh(t).(status := Waiting)]
      ensures Covers(Retained(State()))
    {
      ghost var ts := Retained(State());
      RegisterRecord(t, ts);
      PushTickets(queue, Fresh(t).(status := Waiting));
      queue := queue + [Fresh(t).(status := Waiting)];
      assert Retained(State()) == ts + {t};
    }

    method EnqueueTicket(t: Ticket, at: Reading) returns (d: Admission)
      requires Valid() && Unused(State(), t.token) && t.handle !in handles
      modifies this
      ensures Covers(Retained(State())) && (State(), d) == Enqueue(old(State()), t, at)
    {
      ghost var s, m := State(), handles;
      Expire(at);
      StaysFree(s, State(), m, handles, t.handle, at);
      if !Runnable(Fresh(t), lastObservedNow, at.probe) {
        return Refusal(t, lastObservedNow);
      }
      if |queue| >= queueCapacity {
        return Busy;
      }
      PushWaiting(t);
      d := Enqueued(t.handle, |queue|);
    }

    /** `handle` is what the name supply gives: no retained record has it. */
    method Admit(entry: Entry, handle: Name, startNow: bool, first: Reading, second: Reading) returns (d: Admission)
      requires Valid() && handle !in handles
      modifies this
      ensures Valid() && (State(), d) == PolicySpec.Admit(old(State()), entry, handle, startNow, first, second)
    {
      ghost var s := State();
      ghost var m := handles;
      AdmitInv(s, entry, handle, startNow, first, second);
      Expire(first);
      ghost var e := State();
      AdmitDecides(s, e, entry, handle, startNow, first, second);
      StaysFree(s, e, m, handles, handle, first);
      NextTokenUnused(e);
      var t := Ticket(nextToken, handle, entry);
      nextToken := nextToken + 1;
      if !Runnable(Fresh(t), lastObservedNow, first.probe) {
        return Refusal(t, lastObservedNow);
      }
      if startNow {
        d := StartTicket(t, second);
      } else {
        d := EnqueueTicket(t, second);
      }
    }

    /** The ticket behind a token in an index. */
    method Deref(token: nat) returns (t: Ticket)
      requires exists u :: u in Retained(State()) && u.token == token
      ensures t in Retained(State()) && t.token == token
    {
      var slot := IndexOf(active, token);
      if 0 <= slot {
        assert active[slot] in active;
        return active[slot].ticket;
      }
      var index := IndexOf(queue, token);
      assert queue[index] in queue;
      return queue[index].ticket;
    }

    /** Picks among the records of one bucket: none, exactly one, or several. */
    method LookupEntryRecords(bucket: set<nat>, requestId: Option<Name>,
        ghost matches: set<Ticket>) returns (lookup: Lookup)
      requires Sound() && matches <= Retained(State()) && bucket == TokensOf(matches)
      ensures Resolves(lookup, set t | t in matches && Owned(t, requestId))
    {
      TokensNameTickets(queue, active);
      var rest, candidates := bucket, [];
      while rest != {}
        invariant rest <= bucket
        invariant forall t | t in candidates :: t in matches && Owned(t, requestId) && t.token !in rest
        invariant forall t | t in matches && Owned(t, requestId) :: t in candidates || t.token in rest
        invariant forall i, j | 0 <= i < j < |candidates| :: candidates[i] != candidates[j]
        decreases rest
      {
        var n :| n in rest;
        ghost var u :| u in matches && u.token == n;
        var t := Deref(n);
        assert SharesToken(t, u);
        assert forall v | v in matches && v.token == n :: SharesToken(v, u);
        if requestId.None? || t.entry.requestId == requestId {
          candidates := candidates + [t];
        }
        rest := rest - {n};
      }
      if |candidates| == 0 {
        return NotFound;
      }
      assert candidates[0] in candidates;
      if |candidates| != 1 {
        assert candidates[1] in candidates;
        ghost var owned := set t | t in matches && Owned(t, requestId);
        assert candidates[0] in owned && candidates[1] in owned && candidates[0] != candidates[1];
        return Ambiguous;
      }
      return Found(candidates[0]);
    }

    /** Looks a handle up and applies both identity filters. */
    method FindHandle(handle: Name, owner: Option<Name>, requestId: Option<Name>) returns (lookup: Lookup)
      requires Sound()
      ensures Resolves(lookup, set t | t in Retained(State()) && t.handle == handle && Owned(t, owner)
          && Owned(t, requestId))
    {
      ghost var ts := Retained(State());
      HandleIsScan(handles, ts, handle);
      TokensNameTickets(queue, active);
      if handle !in handles {
        return NotFound;
      }
      var t := Deref(handles[handle]);
      assert forall u | u in ts && u.token == t.token :: SharesToken(u, t);
      if (owner.Some? && t.entry.requestId != owner) || (requestId.Some? && t.entry.requestId != requestId) {
        return NotFound;
      }
      return Found(t);
    }

    method FindLease(lease: Lease, requestId: Option<Name>) returns (lookup: Lookup)
      requires Sound() && lease in leases
      ensures Resolves(lookup, set t | t in Tickets(active) && LeaseOf(t) == lease && Owned(t, requestId))
      ensures exists t :: t in Tickets(active) && LeaseOf(t) == lease
    {
      LeaseIsScan(leases, Tickets(active), lease);
      TokensNameTickets(queue, active);
      var t := Deref(leases[lease]);
      assert forall u | u in Retained(State()) && u.token == t.token :: SharesToken(u, t);
      if requestId.Some? && t.entry.requestId != requestId {
        return NotFound;
      }
      return Found(t);
    }

    /** A name is a handle first, then a caller id, then a request id. */
    method FindName(name: Name, requestId: Option<Name>) returns (lookup: Lookup)
      requires Sound()
      ensures Resolves(lookup, Named(Retained(State()), Tickets(active), ByString(name), requestId))
    {
      ghost var ts := Retained(State());
      HandleIsScan(handles, ts, name);
      BucketIsScan(entryIds, ts, IdField, name);
      BucketIsScan(requestIds, ts, RequestField, name);
      NamedByString(ts, Tickets(active), name, requestId);
      if name in handles {
        lookup := FindHandle(name, None, requestId);
      } else if name in entryIds {
        lookup := LookupEntryRecords(entryIds[name], requestId, With(ts, IdField, name));
      } else if name in requestIds {
        lookup := LookupEntryRecords(requestIds[name], requestId, With(ts, RequestField, name));
      } else {
        lookup := NotFound;
      }
    }

    /** The index walk finds what a scan of every retained record would find. */
    method FindRecord(target: Target, requestId: Option<Name>) returns (lookup: Lookup)
      requires Sound()
      ensures Resolves(lookup, Named(Retained(State()), Tickets(active), target, requestId))
    {
      ghost var ts := Retained(State());
      match target
      case ByString(name) =>
        lookup := FindName(name, requestId);
      case ByLease(lease) =>
        LeaseIsScan(leases, Tickets(active), lease);
        NamedByLease(ts, Tickets(active), lease, requestId);
        if lease in leases {
          lookup := FindLease(lease, requestId);
        } else {
          lookup := FindHandle(lease.handle, lease.requestId, requestId);
        }
      case ByEntry(entry) =>
        BucketIsScan(entries, ts, ObjectField, entry.ref);
        assert Named(ts, Tickets(active), target, requestId) == set t | t in With(ts, ObjectField, entry.ref)
            && Owned(t, requestId);
        if entry.ref in entries {
          lookup := LookupEntryRecords(entries[entry.ref], requestId, With(ts, ObjectField, entry.ref));
        } else {
          lookup := NotFound;
        }
      case ByReference(handle, owner) =>
        assert Named(ts, Tickets(active), target, requestId)
            == set t | t in ts && t.handle == handle && Owned(t, owner) && Owned(t, requestId);
        lookup := FindHandle(handle, owner, requestId);
    }

    /** Releases the record a target resolves to, and nothing when it is missing or ambiguous. */
    method Release(target: Target, requestId: Option<Name>) returns (released: bool)
      requires Valid()
      modifies this
      ensures Valid()
      ensures var matches := Named(old(Retained(State())), old(Tickets(active)), target, requestId);
              if released then exists t :: matches == {t} && State() == Remove(old(State()), t.token)
              else State() == old(State()) && forall t :: matches != {t}
    {
      InvIsSound(State());
      var lookup := FindRecord(target, requestId);
      if !lookup.Found? {
        return false;
      }
      FoundIsRetained(State(), target, requestId, lookup.ticket);
      RemoveInv(State(), lookup.ticket.token);
      RemoveFound(lookup.ticket);
      released := true;
    }

    method RemoveFound(t: Ticket)
      requires Sound() && t in Retained(State())
      modifies `queue, `active, `handles, `entries, `entryIds, `requestIds, `leases
      ensures State() == Remove(old(State()), t.token) && Sound()
    {
      TokensNameTickets(queue, active);
      RemovalTickets(queue, active, t);
      RemovalKeepsOneRecord(queue, active, t.token);
      RemoveRecord(t, Tickets(queue) + Tickets(active));
    }

    /** Cancels the record a target resolves to. */
    method Cancel(target: Target, requestId: Option<Name>, first: Reading, second: Reading)
        returns (outcome: CancelOutcome)
      requires Valid()
      modifies this
      ensures Valid()
      ensures var matches := Named(old(Retained(State())), old(Tickets(active)), target, requestId);
              match outcome
              case CancelNotFound => matches == {} && State() == old(State())
              case CancelAmbiguous => (exists a, b :: a in matches && b in matches && a != b) && State() == old(State())
              case _ =>
                matches == {outcome.ticket} && Cancels(old(State()), outcome.ticket, first, second, State(), outcome)
    {
      InvIsSound(State());
      var lookup := FindRecord(target, requestId);
      match lookup
      case NotFound => outcome := CancelNotFound;
      case Ambiguous => outcome := CancelAmbiguous;
      case Found(t) =>
        FoundIsRetained(State(), target, requestId, t);
        outcome := CancelTicket(t, first, second);
    }

    /** Cancellation by request id: only when one record has it. */
    method CancelByRequestId(requestId: Name, first: Reading, second: Reading) returns (outcome: CancelOutcome)
      requires Valid()
      modifies this
      ensures Valid()
      ensures var matches := With(old(Retained(State())), RequestField, requestId);
              match outcome
              case CancelNotFound => matches == {} && State() == old(State())
              case CancelAmbiguous => (exists a, b :: a in matches && b in matches && a != b) && State() == old(State())
              case _ =>
                matches == {outcome.ticket} && Cancels(old(State()), outcome.ticket, first, second, State(), outcome)
    {
      InvIsSound(State());
      BucketIsScan(requestIds, Retained(State()), RequestField, requestId);
      if requestId !in requestIds {
        return CancelNotFound;
      }
      var lookup := LookupEntryRecords(requestIds[requestId], None, With(Retained(State()), RequestField, requestId));
      AllOwned(With(Retained(State()), RequestField, requestId));
      if !lookup.Found? {
        return CancelAmbiguous;
      }
      outcome := CancelTicket(lookup.ticket, first, second);
    }

    method CancelTicket(t: Ticket, first: Reading, second: Reading) returns (outcome: CancelOutcome)
      requires Valid() && t in Retained(State())
      modifies this
      ensures Valid()
      ensures Cancels(old(State()), t, first, second, State(), outcome)
      ensures outcome == CancelExpired(t) || outcome == CancelRequestedOn(t) || outcome == NotCancelable(t)
          || outcome == CancelCommitted(t)
    {
      var slot := IndexOf(active, t.token);
      var r: QueueRecord;
      InvIsSound(State());
      TokensNameTickets(queue, active);
      if 0 <= slot {
        r := active[slot];
        assert r in active;
      } else {
        var index := IndexOf(queue, t.token);
        r := queue[index];
        assert r in queue;
      }
      assert SharesToken(r.ticket, t);
      CancelRecordInv(State(), r, first, second);
      outcome := CancelFound(r, first, second);
    }

    method CancelFound(r: QueueRecord, first: Reading, second: Reading) returns (outcome: CancelOutcome)
      requires Valid() && (r in queue || r in active)
      modifies this
      ensures Sound() && (State(), outcome) == CancelRecord(old(State()), r, first, second)
    {
      InvIsSound(State());
      InvFacts(State());
      TokensNameTickets(queue, active);
      TwinsOf(queue, active, r);
      var now := ReadMonotonicNow(first.sample);
      if r.status.Active? {
        if r.expired || Due(r, now) {
          MarkExpired(r);
          return CancelExpired(r.ticket);
        }
        outcome := CancelActiveLease(r, second);
      } else {
        if Due(r, now) {
          ExpireFound(r);
          return CancelExpired(r.ticket);
        }
        outcome := CancelQueued(r, second);
      }
    }

    method CancelActiveLease(r: QueueRecord, at: Reading) returns (outcome: CancelOutcome)
      requires Sound() && OnlyTwins(active, r.ticket)
      modifies this
      ensures Sound() && (State(), outcome) == CancelActive(old(State()), r, at)
    {
      var now := ReadMonotonicNow(at.sample);
      if Due(r, now) {
        MarkExpired(r);
        return CancelExpired(r.ticket);
      }
      if !r.cancellationRequested && !CancellationRequested(r.ticket.entry, at.probe)
          && TerminalOrAborted(r.ticket.entry.state) {
        return NotCancelable(r.ticket);
      }
      Rewrite(r.(cancellationRequested := true));
      return CancelRequestedOn(r.ticket);
    }

    method CancelQueued(r: QueueRecord, at: Reading) returns (outcome: CancelOutcome)
      requires Sound() && r in queue
      modifies this
      ensures Sound() && (State(), outcome) == CancelWaiting(old(State()), r, at)
    {
      if CancellationRequested(r.ticket.entry, at.probe) {
        RemoveFound(r.ticket);
        return CancelCommitted(r.ticket);
      }
      var now := ReadMonotonicNow(at.sample);
      if Due(r, now) {
        ExpireFound(r);
        return CancelExpired(r.ticket);
      }
      RemoveFound(r.ticket);
      return if Runnable(r, now, at.probe) then CancelCommitted(r.ticket) else NotCancelable(r.ticket);
    }

    /** Removes a queued record, then tells the observer. */
    method ExpireFound(r: QueueRecord)
      requires Sound() && r in queue
      modifies `queue, `active, `handles, `entries, `entryIds, `requestIds, `leases, `notices
      ensures Sound() && State() == PolicySpec.MarkExpired(Remove(old(State()), r.ticket.token), r)
    {
      RemovedIsGone(queue, active, r);
      RemoveFound(r.ticket);
      if !r.expiryNotified {
        notices := notices + [Notice(r.ticket.token, r.ticket.entry)];
      }
    }

    /** Marks an active record; the observer hears of a record once. */
    method MarkExpired(r: QueueRecord)
      requires Sound() && OnlyTwins(active, r.ticket)
      modifies `active, `notices
      ensures Sound() && State() == PolicySpec.MarkExpired(old(State()), r)
    {
      Rewrite(r.(expired := true, expiryNotified := true));
      if !r.expiryNotified {
        notices := notices + [Notice(r.ticket.token, r.ticket.entry)];
      }
    }

    /** Updates the flags of an active record. */
    method Rewrite(u: QueueRecord)
      requires Sound() && OnlyTwins(active, u.ticket)
      modifies `active
      ensures Sound() && active == Replace(old(active), u)
    {
      ReplaceSound(queue, active, u);
      ReplaceKeepsTickets(active, u);
      var slot := IndexOf(active, u.ticket.token);
      if 0 <= slot {
        ReplaceAt(active, slot, u);
        active := active[slot := u];
      }
    }
  }

  /** Cancelling the retained record with this ticket took `s` to `o`. */
  ghost predicate Cancels(s: PolicyState, t: Ticket, first: Reading, second: Reading, o: PolicyState,
      outcome: CancelOutcome) {
    exists r :: (r in s.queue || r in s.active) && r.ticket == t && (o, outcome) == CancelRecord(s, r, first, second)
  }

  /** Whoever shares the token is the ticket itself. */
  ghost predicate OnlyTwins(rs: seq<QueueRecord>, t: Ticket) {
    forall r | r in rs && r.ticket.token == t.token :: r.ticket == t
  }

  lemma TwinsOf(queue: seq<QueueRecord>, active: seq<QueueRecord>, r: QueueRecord)
    requires TokensName(Tickets(queue) + Tickets(active)) && (r in queue || r in active)
    ensures OnlyTwins(active, r.ticket)
  {
    forall q | q in active && q.ticket.token == r.ticket.token ensures q.ticket == r.ticket {
      assert SharesToken(q.ticket, r.ticket);
    }
  }

  lemma RemovedIsGone(queue: seq<QueueRecord>, active: seq<QueueRecord>, r: QueueRecord)
    requires OneRecordPerToken(queue, active) && r in queue
    ensures r.ticket in Tickets(queue)
    ensures Replace(Without(active, r.ticket.token), r.(expired := true, expiryNotified := true))
        == Without(active, r.ticket.token)
  {
    assert !Has(active, r.ticket.token);
    WithoutAbsent(active, r.ticket.token);
    ReplaceKeepsTickets(active, r.(expired := true, expiryNotified := true));
  }

  lemma ReplaceSound(queue: seq<QueueRecord>, active: seq<QueueRecord>, u: QueueRecord)
    requires OneRecordPerToken(queue, active) && OnlyTwins(active, u.ticket)
    ensures OneRecordPerToken(queue, Replace(active, u)) && Tickets(Replace(active, u)) == Tickets(active)
  {
    ReplaceKeepsTickets(active, u);
    forall q | q in queue ensures !Has(Replace(active, u), q.ticket.token) {
      assert !Has(active, q.ticket.token);
    }
    forall i | 0 <= i < |active| ensures Replace(active, u)[i].ticket == active[i].ticket {
      assert active[i] in active;
    }
    TicketsPointwise(active, Replace(active, u));
  }

  lemma FoundIsRetained(s: PolicyState, target: Target, requestId: Option<Name>, t: Ticket)
    requires Named(Retained(s), Tickets(s.active), target, requestId) == {t}
    ensures t in Retained(s)
  {
    assert t in Named(Retained(s), Tickets(s.active), target, requestId);
  }

  lemma AllOwned(ts: set<Ticket>)
    ensures (set t | t in ts && Owned(t, None)) == ts
  {
  }

  lemma NamedByString(ts: set<Ticket>, leased: set<Ticket>, name: Name, requestId: Option<Name>)
    ensures Named(ts, leased, ByString(name), requestId)
         == if exists t :: t in ts && t.handle == name then set t | t in ts && t.handle == name && Owned(t, None)
             && Owned(t, requestId)
            else if With(ts, IdField, name) != {} then set t | t in With(ts, IdField, name) && Owned(t, requestId)
            else set t | t in With(ts, RequestField, name) && Owned(t, requestId)
  {
    var byHandle := set t | t in ts && t.handle == name;
    assert byHandle != {} <==> exists t :: t in ts && t.handle == name by {
      if t :| t in ts && t.handle == name {
        assert t in byHandle;
      }
    }
    assert With(ts, IdField, name) == set t | t in ts && t.entry.id == Some(name);
    assert With(ts, RequestField, name) == set t | t in ts && t.entry.requestId == Some(name);
  }

  lemma NamedByLease(ts: set<Ticket>, leased: set<Ticket>, lease: Lease, requestId: Option<Name>)
    ensures Named(ts, leased, ByLease(lease), requestId)
         == if exists t :: t in leased && LeaseOf(t) == lease then set t | t in leased && LeaseOf(t) == lease
             && Owned(t, requestId)
            else set t | t in ts && t.handle == lease.handle && Owned(t, lease.requestId) && Owned(t, requestId)
  {
    var byLease := set t | t in leased && LeaseOf(t) == lease;
    assert byLease != {} <==> exists t :: t in leased && LeaseOf(t) == lease by {
      if t :| t in leased && LeaseOf(t) == lease {
        assert t in byLease;
      }
    }
  }

  /** An unused token under a free handle: its ticket clashes with nothing that is retained or leased. */
  lemma FreshTicket(s: PolicyState, t: Ticket, handles: map<Name, nat>, leases: map<Lease, nat>)
    requires Inv(s) && Unused(s, t.token) && t.handle !in handles
    requires NamesHandles(handles, Retained(s)) && NamesLeases(leases, Tickets(s.active))
    ensures t !in Retained(s) && TokensName(Retained(s) + {t}) && LeaseOf(t) !in leases
    ensures Without(s.queue, t.token) == s.queue && Without(s.active, t.token) == s.active
  {
    InvIsSound(s);
    TokensNameTickets(s.queue, s.active);
    WithoutAbsent(s.queue, t.token);
    WithoutAbsent(s.active, t.token);
    forall u | u in Retained(s) ensures u.token != t.token && u.handle != t.handle {
      assert u.token in Holders(Retained(s), u.handle);
    }
    forall a, b | a in Retained(s) + {t} && b in Retained(s) + {t} && SharesToken(a, b) ensures a == b {
    }
    assert Lessees(Tickets(s.active), LeaseOf(t)) == {};
  }

  /** Expiry only takes records away, so a free handle stays free. */
  lemma StaysFree(s: PolicyState, e: PolicyState, m: map<Name, nat>, m': map<Name, nat>, handle: Name, at: Reading)
    requires e == PolicySpec.Expire(s, at) && handle !in m
    requires NamesHandles(m, Retained(s)) && NamesHandles(m', Retained(e))
    ensures handle !in m'
  {
    KeepFilters(s.queue, e.lastNow, at.probe);
    MarkDueTickets(s.active, e.lastNow);
    assert Holders(Retained(s), handle) == {};
    forall t | t in Retained(e) ensures t.handle != handle {
      assert t in Retained(s);
      assert t.token in Holders(Retained(s), t.handle);
    }
    assert Holders(Retained(e), handle) == {};
  }

  /** Whichever way the head goes, the invariant holds afterwards. */
  lemma HeadInv(s: PolicyState, at: Reading)
    requires Inv(s) && s.queue != [] && |s.active| < s.activeCapacity
    ensures var r := s.queue[0];
            var o := Observe(s, at.sample).(queue := s.queue[1..]);
            if Runnable(r, o.lastNow, at.probe) then Inv(Activate(o, r.ticket))
            else Inv(o.(notices := o.notices + NoticeIfDue(r, o.lastNow)))
  {
    var r := s.queue[0];
    var o := Observe(s, at.sample).(queue := s.queue[1..]);
    TailInv(s, at.sample);
    if Runnable(r, o.lastNow, at.probe) {
      ActivateInv(o, r.ticket);
    } else if Due(r, o.lastNow) {
      NoticeInv(o, r.ticket);
    } else {
      assert o.notices + [] == o.notices;
    }
  }

  /** The head of the queue holds no lease. */
  lemma HeadHasNoLease(s: PolicyState, leases: map<Lease, nat>, handles: map<Name, nat>)
    requires Inv(s) && s.queue != []
    requires NamesLeases(leases, Tickets(s.active)) && NamesHandles(handles, Retained(s))
    ensures LeaseOf(s.queue[0].ticket) !in leases
  {
    var t := s.queue[0].ticket;
    assert s.queue[0] in s.queue && !Has(s.active, t.token);
    assert t.token in Holders(Retained(s), t.handle);
    forall u | u in Tickets(s.active) ensures u.handle != t.handle {
      assert u.token != t.token;
      assert u.token in Holders(Retained(s), u.handle);
    }
    assert Lessees(Tickets(s.active), LeaseOf(t)) == {};
  }

  /** Moving the head to the active leases changes no retained ticket. */
  lemma HeadMoves(queue: seq<QueueRecord>, active: seq<QueueRecord>)
    requires queue != []
    ensures Tickets(queue[1..]) + Tickets(active + [Fresh(queue[0].ticket).(status := Active)]) == Tickets(queue)
        + Tickets(active)
  {
    PushTickets(active, Fresh(queue[0].ticket).(status := Active));
    assert queue == [queue[0]] + queue[1..];
  }

  lemma InvIsSound(s: PolicyState)
    requires Inv(s)
    ensures OneRecordPerToken(s.queue, s.active)
    ensures forall r | r in s.active :: r.expired == r.expiryNotified
  {
    IncreasingIsDistinct(s.queue);
    forall r | r in s.active ensures r.expired == r.expiryNotified {
      assert ActiveRecord(s, r);
    }
  }

  lemma MarkDueTickets(rs: seq<QueueRecord>, now: int)
    ensures Tickets(MarkDue(rs, now)) == Tickets(rs)
  {
    MarkDueKeepsTickets(rs, now);
    forall t | t in Tickets(rs) ensures t in Tickets(MarkDue(rs, now)) {
      var i :| 0 <= i < |rs| && rs[i].ticket == t;
      assert MarkDue(rs, now)[i] in MarkDue(rs, now);
    }
  }

  /** One step of the backward scan. */
  lemma BackwardStep(q: seq<QueueRecord>, index: nat, queue: seq<QueueRecord>, kept: seq<QueueRecord>, now: int,
      probe: Probe)
    requires index < |q| && queue == q[..index + 1] + kept && kept == Keep(q[index + 1..], now, probe)
    ensures queue[index] == q[index]
    ensures queue[..index] + queue[index + 1..] == q[..index] + kept
    ensures queue == q[..index] + ([q[index]] + kept)
    ensures Keep(q[index..], now, probe) == if Runnable(q[index], now, probe) then [q[index]] + kept else kept
    ensures NoticesBackward(q[index..], now) == NoticesBackward(q[index + 1..], now)
            + NoticeIfDue(q[index], now)
  {
    assert q[index..][1..] == q[index + 1..];
  }

  lemma {:induction false} ReplaceAt(rs: seq<QueueRecord>, i: nat, u: QueueRecord)
    requires Distinct(rs) && i < |rs| && rs[i].ticket.token == u.ticket.token
    ensures Replace(rs, u) == rs[i := u]
  {
    ReplaceKeepsTickets(rs, u);
    forall j | 0 <= j < |rs| && j != i ensures rs[j].ticket.token != u.ticket.token {
      if j < i {
        DistinctAt(rs, j, i);
      } else {
        DistinctAt(rs, i, j);
      }
    }
  }

  lemma RemovalTickets(queue: seq<QueueRecord>, active: seq<QueueRecord>, t: Ticket)
    requires OneRecordPerToken(queue, active) && t in Tickets(queue) + Tickets(active)
    ensures Tickets(Without(queue, t.token)) + Tickets(Without(active, t.token)) == Tickets(queue)
        + Tickets(active) - {t}
  {
    TokensNameTickets(queue, active);
    TicketsWithout(queue, t.token);
    TicketsWithout(active, t.token);
    forall u | u in Tickets(queue) + Tickets(active) ensures u.token == t.token <==> u == t {
      assert SharesToken(u, t) <==> u.token == t.token;
    }
  }

  lemma RemovalKeepsOneRecord(queue: seq<QueueRecord>, active: seq<QueueRecord>, token: nat)
    requires OneRecordPerToken(queue, active)
    ensures OneRecordPerToken(Without(queue, token), Without(active, token))
    ensures Has(queue, token) ==> Without(active, token) == active
  {
    WithoutFilters(queue, token);
    WithoutFilters(active, token);
    if q :| q in queue && q.ticket.token == token {
      assert !Has(active, q.ticket.token);
      WithoutAbsent(active, token);
    }
    forall q | q in Without(queue, token) ensures !Has(Without(active, token), q.ticket.token) {
      assert !Has(active, q.ticket.token);
    }
  }

  lemma RemovalCovers(h: map<Name, nat>, e: Buckets, i: Buckets, r: Buckets, l: map<Lease, nat>, ts: set<Ticket>,
      t: Ticket, active: seq<QueueRecord>)
    requires Covered(h, e, i, r, l, ts, Tickets(active))
    requires TokensName(ts) && t in ts && Tickets(active) <= ts
    ensures Covered(h - {t.handle}, Dropped(e, Some(t.entry.ref), t.token), Dropped(i, t.entry.id, t.token),
                    Dropped(r, t.entry.requestId, t.token), l - {LeaseOf(t)}, ts - {t},
                        Tickets(Without(active, t.token)))
  {
    IndexedDrop(h, e, i, r, ts, t);
    forall u | u in ts && u.handle == t.handle ensures u == t {
      assert u.token in Holders(ts, t.handle) && t.token in Holders(ts, t.handle);
      assert SharesToken(u, t);
    }
    TicketsWithout(active, t.token);
    forall u | u in Tickets(active) && u.token == t.token ensures u == t {
      assert SharesToken(u, t);
    }
    LeaseDropped(l, Tickets(active), t, Tickets(Without(active, t.token)));
  }
}
