/** Inverse indexes over retained tickets: a map from a name to the tokens of the tickets that carry it. */
module TicketIndexes {
  import opened TaskStates
  import opened PolicySpec

  /** What an index is keyed by. */
  datatype Field = ObjectField | IdField | RequestField

  function Key(t: Ticket, f: Field): Option<Name> {
    match f
    case ObjectField => Some(t.entry.ref)
    case IdField => t.entry.id
    case RequestField => t.entry.requestId
  }

  type Buckets = map<Name, set<nat>>

  /** The tokens a scan finds under a key. */
  ghost function Bucket(ts: set<Ticket>, f: Field, k: Name): set<nat> {
    set t | t in ts && Key(t, f) == Some(k) :: t.token
  }

  /** The index answers as the scan would, and has no empty bucket. */
  ghost predicate Exact(m: Buckets, ts: set<Ticket>, f: Field) {
    forall k: Name {:trigger Bucket(ts, f, k)} ::
      if k in m then m[k] == Bucket(ts, f, k) != {} else Bucket(ts, f, k) == {}
  }

  function Added(m: Buckets, key: Option<Name>, token: nat): Buckets {
    match key
    case None => m
    case Some(k) => if k in m then m[k := m[k] + {token}] else m[k := {token}]
  }

  function Dropped(m: Buckets, key: Option<Name>, token: nat): Buckets {
    match key
    case None => m
    case Some(k) =>
      if k !in m then m
      else if m[k] - {token} == {} then m - {k}
      else m[k := m[k] - {token}]
  }

  ghost predicate SharesToken(a: Ticket, b: Ticket) {
    a.token == b.token
  }

  ghost predicate TokensName(ts: set<Ticket>) {
    forall a, b {:trigger SharesToken(a, b)} :: a in ts && b in ts && SharesToken(a, b) ==> a == b
  }

  lemma BucketAdd(ts: set<Ticket>, f: Field, t: Ticket, k: Name)
    ensures Bucket(ts + {t}, f, k) == Bucket(ts, f, k) + if Key(t, f) == Some(k) then {t.token} else {}
  {
    forall n | n in Bucket(ts, f, k) ensures n in Bucket(ts + {t}, f, k) {
      var u :| u in ts && Key(u, f) == Some(k) && u.token == n;
      assert u in ts + {t};
    }
    if Key(t, f) == Some(k) {
      assert t in ts + {t};
    }
  }

  lemma BucketDrop(ts: set<Ticket>, f: Field, t: Ticket, k: Name)
    requires TokensName(ts) && t in ts
    ensures Bucket(ts - {t}, f, k) == Bucket(ts, f, k) - if Key(t, f) == Some(k) then {t.token} else {}
  {
    var rest := ts - {t};
    assert ts == rest + {t};
    BucketAdd(rest, f, t, k);
    forall u | u in rest && Key(u, f) == Some(k) ensures u.token != t.token {
      assert !SharesToken(u, t);
    }
  }

  lemma AddedExact(m: Buckets, ts: set<Ticket>, f: Field, t: Ticket)
    requires Exact(m, ts, f)
    ensures Exact(Added(m, Key(t, f), t.token), ts + {t}, f)
  {
    forall k: Name ensures Bucket(ts + {t}, f, k) == Bucket(ts, f, k) + if Key(t, f) == Some(k) then {t.token} else {} {
      BucketAdd(ts, f, t, k);
    }
  }

  lemma DroppedExact(m: Buckets, ts: set<Ticket>, f: Field, t: Ticket)
    requires Exact(m, ts, f) && TokensName(ts) && t in ts
    ensures Exact(Dropped(m, Key(t, f), t.token), ts - {t}, f)
  {
    forall k: Name ensures Bucket(ts - {t}, f, k) == Bucket(ts, f, k) - if Key(t, f) == Some(k) then {t.token} else {} {
      BucketDrop(ts, f, t, k);
    }
  }

  /** The tokens a scan finds under a handle; `m` answers as that scan. */
  ghost function Holders(ts: set<Ticket>, handle: Name): set<nat> {
    set t | t in ts && t.handle == handle :: t.token
  }

  ghost predicate NamesHandles(m: map<Name, nat>, ts: set<Ticket>) {
    forall h: Name {:trigger Holders(ts, h)} :: Holders(ts, h) == if h in m then {m[h]} else {}
  }

  lemma HandleAdded(m: map<Name, nat>, ts: set<Ticket>, t: Ticket)
    requires NamesHandles(m, ts) && t.handle !in m
    ensures NamesHandles(m[t.handle := t.token], ts + {t})
  {
    forall h: Name ensures Holders(ts + {t}, h) == Holders(ts, h) + if t.handle == h then {t.token} else {} {
      forall n | n in Holders(ts, h) ensures n in Holders(ts + {t}, h) {
        var u :| u in ts && u.handle == h && u.token == n;
        assert u in ts + {t};
      }
      assert t in ts + {t};
    }
  }

  lemma HandleDropped(m: map<Name, nat>, ts: set<Ticket>, t: Ticket)
    requires NamesHandles(m, ts) && TokensName(ts) && t in ts
    ensures NamesHandles(m - {t.handle}, ts - {t})
  {
    var rest := ts - {t};
    assert t.token in Holders(ts, t.handle);
    forall h: Name ensures Holders(rest, h) == if h in m - {t.handle} then {m[h]} else {} {
      assert Holders(ts, h) == if h in m then {m[h]} else {};
      forall n | n in Holders(ts, h) && h != t.handle ensures n in Holders(rest, h) {
        var u :| u in ts && u.handle == h && u.token == n;
        assert u in rest;
      }
      forall u | u in rest ensures u.handle != t.handle {
        assert !SharesToken(u, t);
        assert u.token in Holders(ts, u.handle);
      }
    }
  }

  /** The same for leases. */
  ghost function Lessees(ts: set<Ticket>, l: Lease): set<nat> {
    set t | t in ts && LeaseOf(t) == l :: t.token
  }

  ghost predicate NamesLeases(m: map<Lease, nat>, ts: set<Ticket>) {
    forall l: Lease {:trigger Lessees(ts, l)} :: Lessees(ts, l) == if l in m then {m[l]} else {}
  }

  lemma LeaseAdded(m: map<Lease, nat>, ts: set<Ticket>, t: Ticket)
    requires NamesLeases(m, ts) && LeaseOf(t) !in m
    ensures NamesLeases(m[LeaseOf(t) := t.token], ts + {t})
  {
    forall l: Lease ensures Lessees(ts + {t}, l) == Lessees(ts, l) + if LeaseOf(t) == l then {t.token} else {} {
      forall n | n in Lessees(ts, l) ensures n in Lessees(ts + {t}, l) {
        var u :| u in ts && LeaseOf(u) == l && u.token == n;
        assert u in ts + {t};
      }
      assert t in ts + {t};
    }
  }

  /** Dropping a lease: `rest` is what is left of `ts` once the holder of the handle is gone. */
  lemma LeaseDropped(m: map<Lease, nat>, ts: set<Ticket>, t: Ticket, rest: set<Ticket>)
    requires NamesLeases(m, ts)
    requires forall u | u in ts && u.handle == t.handle :: u == t
    requires rest == ts - {t}
    ensures NamesLeases(m - {LeaseOf(t)}, rest)
  {
    forall l: Lease ensures Lessees(rest, l) == if l in m - {LeaseOf(t)} then {m[l]} else {} {
      assert Lessees(ts, l) == if l in m then {m[l]} else {};
      forall n | n in Lessees(ts, l) && l != LeaseOf(t) ensures n in Lessees(rest, l) {
        var u :| u in ts && LeaseOf(u) == l && u.token == n;
        assert u in rest;
      }
      forall u | u in rest ensures LeaseOf(u) != LeaseOf(t) {
        assert u.handle != t.handle;
      }
    }
  }

  /** The four indexes every retained record is in. */
  ghost predicate Indexed(h: map<Name, nat>, e: Buckets, i: Buckets, r: Buckets, ts: set<Ticket>) {
    NamesHandles(h, ts) && Exact(e, ts, ObjectField) && Exact(i, ts, IdField) && Exact(r, ts, RequestField)
  }

  lemma IndexedAdd(h: map<Name, nat>, e: Buckets, i: Buckets, r: Buckets, ts: set<Ticket>, t: Ticket)
    requires Indexed(h, e, i, r, ts) && t.handle !in h
    ensures Indexed(h[t.handle := t.token], Added(e, Some(t.entry.ref), t.token), Added(i, t.entry.id, t.token),
                    Added(r, t.entry.requestId, t.token), ts + {t})
  {
    HandleAdded(h, ts, t);
    AddedExact(e, ts, ObjectField, t);
    AddedExact(i, ts, IdField, t);
    AddedExact(r, ts, RequestField, t);
  }

  lemma IndexedDrop(h: map<Name, nat>, e: Buckets, i: Buckets, r: Buckets, ts: set<Ticket>, t: Ticket)
    requires Indexed(h, e, i, r, ts) && TokensName(ts) && t in ts
    ensures Indexed(h - {t.handle}, Dropped(e, Some(t.entry.ref), t.token), Dropped(i, t.entry.id, t.token),
                    Dropped(r, t.entry.requestId, t.token), ts - {t})
  {
    HandleDropped(h, ts, t);
    DroppedExact(e, ts, ObjectField, t);
    DroppedExact(i, ts, IdField, t);
    DroppedExact(r, ts, RequestField, t);
  }

  /* ---------- an index answers as a scan ---------- */

  ghost function TokensOf(ts: set<Ticket>): set<nat> {
    set t | t in ts :: t.token
  }

  ghost function With(ts: set<Ticket>, f: Field, k: Name): set<Ticket> {
    set t | t in ts && Key(t, f) == Some(k)
  }

  lemma BucketIsScan(m: Buckets, ts: set<Ticket>, f: Field, k: Name)
    requires Exact(m, ts, f)
    ensures if k in m then m[k] == TokensOf(With(ts, f, k)) && With(ts, f, k) != {} else With(ts, f, k) == {}
  {
    assert Bucket(ts, f, k) == TokensOf(With(ts, f, k));
    if t :| t in With(ts, f, k) {
      assert t.token in Bucket(ts, f, k);
    }
  }

  lemma HandleIsScan(m: map<Name, nat>, ts: set<Ticket>, h: Name)
    requires NamesHandles(m, ts)
    ensures h in m <==> exists t :: t in ts && t.handle == h
    ensures h in m ==>
              && (exists t :: t in ts && t.handle == h && t.token == m[h])
              && forall t | t in ts && t.handle == h :: t.token == m[h]
  {
    assert Holders(ts, h) == if h in m then {m[h]} else {};
    forall t | t in ts && t.handle == h ensures t.token in Holders(ts, h) {
    }
  }

  lemma LeaseIsScan(m: map<Lease, nat>, ts: set<Ticket>, l: Lease)
    requires NamesLeases(m, ts)
    ensures l in m <==> exists t :: t in ts && LeaseOf(t) == l
    ensures l in m ==>
              && (exists t :: t in ts && LeaseOf(t) == l && t.token == m[l])
              && forall t | t in ts && LeaseOf(t) == l :: t.token == m[l]
  {
    assert Lessees(ts, l) == if l in m then {m[l]} else {};
    forall t | t in ts && LeaseOf(t) == l ensures t.token in Lessees(ts, l) {
    }
  }
}
