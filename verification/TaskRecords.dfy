/** Task metadata on an append-only session tree: what a branch folds to, which records the helpers agree
    to append, and the cache that saves folding the branch again. */
module TaskRecords {
  import opened TaskStates

  datatype RecordState = AcceptedRecord | CompletedRecord | FailedRecord | ExpiredRecord | SupersededRecord

  /** `origin` is the session that accepted the request, `owner` the one that wrote this record. */
  datatype Metadata = Metadata(
    requestId: Name,
    origin: Name,
    owner: Name,
    runtimeId: Name,
    peer: Option<Name>,
    state: RecordState,
    updatedAt: int,
    expiresAt: Option<int>,
    reason: Option<Name>)

  /** Absent options are `None`; a given one may still be null. */
  datatype Options = Options(
    requestId: Name,
    runtimeId: Name,
    state: RecordState,
    peer: Option<Option<Name>>,
    updatedAt: Option<int>,
    expiresAt: Option<Option<int>>,
    reason: Option<Name>,
    now: int)

  datatype RecordError =
    | UnknownTask | ReasonNotAllowed | InconsistentOwner | AlreadyTerminal | TimeMovedBack | PeerChanged | ExpiryChanged
    | AcceptedTwice | NotOwned | HasExpired | NotYetExpired | NotByLifecycle | NotInherited | ReasonMissing

  datatype Outcome = Appended(record: Metadata) | Refused(error: RecordError)

  type Latest = map<Name, Metadata>

  predicate Terminal(state: RecordState) {
    !state.AcceptedRecord?
  }

  predicate HasRunOut(m: Metadata, now: int) {
    m.expiresAt.Some? && m.expiresAt.value <= now
  }

  /* ---------- the tree ---------- */

  /** An entry of the session; anything that is not a well-formed task record is foreign. */
  datatype Entry = Entry(parent: Option<nat>, record: Option<Metadata>)

  /** Entries are numbered as they are appended, so a parent comes before its children. */
  ghost predicate TreeOk(tree: seq<Entry>) {
    forall i | 0 <= i < |tree| && tree[i].parent.Some? :: tree[i].parent.value < i
  }

  /** The records on the way from the root to a leaf, oldest first. */
  function Branch(tree: seq<Entry>, leaf: Option<nat>): seq<Metadata>
    requires TreeOk(tree) && (leaf.Some? ==> leaf.value < |tree|)
    decreases if leaf.Some? then leaf.value + 1 else 0
  {
    if leaf.None? then []
    else
      var e := tree[leaf.value];
      Branch(tree, e.parent) + (if e.record.Some? then [e.record.value] else [])
  }

  /** Later records replace earlier ones for the same request. */
  function Fold(rs: seq<Metadata>): Latest {
    if rs == [] then map[] else Fold(rs[..|rs| - 1])[rs[|rs| - 1].requestId := rs[|rs| - 1]]
  }

  lemma FoldPush(rs: seq<Metadata>, m: Metadata)
    ensures Fold(rs + [m]) == Fold(rs)[m.requestId := m]
  {
    assert (rs + [m])[..|rs|] == rs;
  }

  /** Appending anywhere changes no branch there was. */
  lemma {:induction false} BranchesStay(tree: seq<Entry>, e: Entry, leaf: Option<nat>)
    requires TreeOk(tree) && TreeOk(tree + [e]) && (leaf.Some? ==> leaf.value < |tree|)
    ensures Branch(tree + [e], leaf) == Branch(tree, leaf)
    decreases if leaf.Some? then leaf.value + 1 else 0
  {
    if leaf.Some? {
      BranchesStay(tree, e, tree[leaf.value].parent);
    }
  }

  /* ---------- what may be appended ---------- */

  /** The record to append for a request whose latest record on the branch is `previous`. */
  function Decide(previous: Option<Metadata>, o: Options, session: Name, inheritedToo: bool): Outcome {
    var updatedAt := if o.updatedAt.Some? then o.updatedAt.value else o.now;
    match previous
    case None =>
      if !o.state.AcceptedRecord? then Refused(UnknownTask)
      else if o.reason.Some? then Refused(ReasonNotAllowed)
      else
        var peer := if o.peer.Some? then o.peer.value else None;
        var expiresAt := if o.expiresAt.Some? then o.expiresAt.value else None;
        Appended(Metadata(o.requestId, session, session, o.runtimeId, peer, o.state, updatedAt, expiresAt, None))
    case Some(p) =>
      var refusal := Objection(p, o, session, inheritedToo, updatedAt);
      if refusal.Some? then Refused(refusal.value)
      else Appended(p.(owner := session, runtimeId := o.runtimeId, state := o.state, updatedAt := updatedAt,
                       reason := if o.state.SupersededRecord? then o.reason else None))
  }

  /** Why a request that has a record takes no other, in the order the checks are made. */
  function Objection(p: Metadata, o: Options, session: Name, inheritedToo: bool, updatedAt: int): Option<RecordError> {
    if p.origin == session && p.owner != session then Some(InconsistentOwner)
    else if Terminal(p.state) then Some(AlreadyTerminal)
    else if updatedAt < p.updatedAt then Some(TimeMovedBack)
    else if o.peer.Some? && o.peer.value != p.peer then Some(PeerChanged)
    else if o.expiresAt.Some? && o.expiresAt.value != p.expiresAt then Some(ExpiryChanged)
    else if !o.state.SupersededRecord? && o.reason.Some? then Some(ReasonNotAllowed)
    else
      match o.state
      case AcceptedRecord => Some(AcceptedTwice)
      case SupersededRecord =>
        if !inheritedToo then Some(NotByLifecycle)
        else if p.origin == session || p.owner == session then Some(NotInherited)
        else if HasRunOut(p, o.now) then Some(HasExpired)
        else if o.reason.None? then Some(ReasonMissing)
        else None
      case ExpiredRecord =>
        if p.origin != session || p.owner != session then Some(NotOwned)
        else if !HasRunOut(p, o.now) then Some(NotYetExpired)
        else None
      case _ =>
        if p.origin != session || p.owner != session then Some(NotOwned)
        else if HasRunOut(p, o.now) then Some(HasExpired)
        else None
  }

  function Previous(latest: Latest, id: Name): Option<Metadata> {
    if id in latest then Some(latest[id]) else None
  }

  /* ---------- branches the helpers wrote ---------- */

  /** Every record was agreed to, given the records before it on the branch. */
  ghost predicate HelperBranch(rs: seq<Metadata>) {
    rs != [] ==>
      var init := rs[..|rs| - 1];
      var m := rs[|rs| - 1];
      && HelperBranch(init)
      && exists o: Options, session: Name, inheritedToo: bool ::
           o.requestId == m.requestId
           && Decide(Previous(Fold(init), m.requestId), o, session, inheritedToo) == Appended(m)
  }

  /** The records of one request along a branch. */
  function Of(rs: seq<Metadata>, id: Name): seq<Metadata> {
    if rs == [] then []
    else Of(rs[..|rs| - 1], id) + (if rs[|rs| - 1].requestId == id then [rs[|rs| - 1]] else [])
  }

  /** A request's life on a branch: accepted, then at most one terminal record of the same origin, peer
      and expiry, not earlier. */
  ghost predicate RequestLife(ms: seq<Metadata>) {
    || ms == []
    || (|ms| == 1 && ms[0].state.AcceptedRecord? && ms[0].owner == ms[0].origin)
    || (|ms| == 2 && ms[0].state.AcceptedRecord? && ms[0].owner == ms[0].origin && Terminal(ms[1].state)
        && ms[1].origin == ms[0].origin && ms[1].peer == ms[0].peer && ms[1].expiresAt == ms[0].expiresAt
        && ms[0].updatedAt <= ms[1].updatedAt
        && (ms[1].state.SupersededRecord? <==> ms[1].owner != ms[0].owner)
        && (ms[1].reason.Some? <==> ms[1].state.SupersededRecord?))
  }

  lemma {:induction false} FoldIsLast(rs: seq<Metadata>, id: Name)
    ensures Previous(Fold(rs), id) == if Of(rs, id) == [] then None else Some(Of(rs, id)[|Of(rs, id)| - 1])
  {
    if rs != [] {
      FoldIsLast(rs[..|rs| - 1], id);
    }
  }

  /** Along any branch that only the helpers wrote, each request is accepted once and ends at most once. */
  lemma {:induction false} OneLifePerRequest(rs: seq<Metadata>, id: Name)
    requires HelperBranch(rs)
    ensures RequestLife(Of(rs, id))
  {
    if rs != [] {
      var init, m := rs[..|rs| - 1], rs[|rs| - 1];
      OneLifePerRequest(init, id);
      FoldIsLast(init, id);
    }
  }

  /* ---------- the session and its cache ---------- */

  datatype Cache = Cache(session: Name, leaf: Option<nat>, latest: Latest)

  class TaskSession {
    var session: Name
    var tree: seq<Entry>
    var leaf: Option<nat>
    var cache: Option<Cache>

    ghost predicate Valid()
      reads this
    {
      && TreeOk(tree) && (leaf.Some? ==> leaf.value < |tree|)
      && (cache.Some? ==> (cache.value.leaf.Some? ==> cache.value.leaf.value < |tree|)
                          && cache.value.latest == Fold(Branch(tree, cache.value.leaf)))
    }

    /** The records of the current branch. */
    ghost function Current(): seq<Metadata>
      requires Valid()
      reads this
    {
      Branch(tree, leaf)
    }

    constructor (session: Name)
      ensures Valid() && this.session == session && Current() == []
    {
      this.session := session;
      tree, leaf, cache := [], None, None;
    }

    /** The fold, in one pass over the branch. */
    method FoldLatest() returns (latest: Latest)
      requires Valid()
      ensures latest == Fold(Current())
    {
      var branch := Branch(tree, leaf);
      latest := map[];
      for i := 0 to |branch|
        invariant latest == Fold(branch[..i])
      {
        FoldPush(branch[..i], branch[i]);
        assert branch[..i + 1] == branch[..i] + [branch[i]];
        latest := latest[branch[i].requestId := branch[i]];
      }
      assert branch[..|branch|] == branch;
    }

    /** The cached map when it is for this session and leaf, else the fold; either way the fold. */
    method CacheForAppend() returns (latest: Latest)
      requires Valid()
      modifies `cache
      ensures Valid() && latest == Fold(Current()) && cache == Some(Cache(session, leaf, latest))
    {
      if cache.Some? && cache.value.session == session && cache.value.leaf == leaf {
        return cache.value.latest;
      }
      latest := FoldLatest();
      cache := Some(Cache(session, leaf, latest));
    }

    /** Any append under the current leaf: other extensions' entries, records nobody checked. */
    method AppendEntry(record: Option<Metadata>)
      requires Valid()
      modifies `tree, `leaf
      ensures Valid() && Current() == old(Current()) + (if record.Some? then [record.value] else [])
      ensures leaf == Some(|old(tree)|) && tree == old(tree) + [Entry(old(leaf), record)]
    {
      var e := Entry(leaf, record);
      BranchesStay(tree, e, leaf);
      if cache.Some? {
        BranchesStay(tree, e, cache.value.leaf);
      }
      tree := tree + [e];
      leaf := Some(|tree| - 1);
    }

    method Navigate(to: Option<nat>)
      requires Valid() && (to.Some? ==> to.value < |tree|)
      modifies `leaf
      ensures Valid() && leaf == to
    {
      leaf := to;
    }

    method SwitchSession(session: Name)
      requires Valid()
      modifies `session
      ensures Valid() && this.session == session
    {
      this.session := session;
    }

    /** Appends one record when the latest one of its request allows it, and carries the cache along. */
    method AppendTaskMetadata(o: Options, inheritedToo: bool) returns (r: Outcome)
      requires Valid()
      modifies this
      ensures Valid() && session == old(session)
      ensures r == Decide(Previous(Fold(old(Current())), o.requestId), o, session, inheritedToo)
      ensures Current() == old(Current()) + (if r.Appended? then [r.record] else [])
      ensures cache == Some(Cache(session, leaf, Fold(Current())))
      ensures HelperBranch(old(Current())) ==> HelperBranch(Current())
    {
      var latest := CacheForAppend();
      ghost var branch := Current();
      r := Decide(Previous(latest, o.requestId), o, session, inheritedToo);
      if r.Refused? {
        return;
      }
      AppendEntry(Some(r.record));
      FoldPush(branch, r.record);
      assert r.record.requestId == o.requestId by {
        FoldKeys(branch, o.requestId);
      }
      cache := Some(Cache(session, leaf, latest[o.requestId := r.record]));
      assert (branch + [r.record])[..|branch|] == branch;
    }

    /** Supersedes one live record of another session. */
    method SupersedeOne(m: Metadata, runtimeId: Name, reason: Name, updatedAt: Option<int>,
        now: int) returns (refused: Option<RecordError>)
      requires Valid() && Previous(Fold(Current()), m.requestId) == Some(m) && Inherited(m, session, now)
      modifies this
      ensures Valid() && session == old(session) && (HelperBranch(old(Current())) ==> HelperBranch(Current()))
      ensures refused == None || refused == Some(TimeMovedBack)
      ensures refused == None ==>
                var superseded := Superseded(Some(m), session, runtimeId, reason, updatedAt, now).value;
                Fold(Current()) == old(Fold(Current()))[m.requestId := superseded]
    {
      ghost var branch := Current();
      var o := Options(m.requestId, runtimeId, SupersededRecord, None, updatedAt, Some(m.expiresAt), Some(reason), now);
      var r := AppendTaskMetadata(o, true);
      if r.Refused? {
        return Some(r.error);
      }
      FoldPush(branch, r.record);
      refused := None;
    }

    /** One turn of the loop: of the records still to be superseded, this one is done. */
    method SupersedeNext(latest: Latest, ghost todo: set<Name>, id: Name, runtimeId: Name, reason: Name,
        updatedAt: Option<int>, now: int) returns (refused: Option<RecordError>)
      requires Valid() && Waiting(latest, todo, session, now) && id in todo
      requires Fold(Current()) == SupersededAll(latest, todo, session, runtimeId, reason, updatedAt, now)
      modifies this
      ensures Valid() && session == old(session) && (HelperBranch(old(Current())) ==> HelperBranch(Current()))
      ensures refused == None || refused == Some(TimeMovedBack)
      ensures refused == None ==>
                && Waiting(latest, todo - {id}, session, now)
                && Fold(Current()) == SupersededAll(latest, todo - {id}, session, runtimeId, reason, updatedAt, now)
    {
      StillWaiting(latest, todo, id, session, runtimeId, reason, updatedAt, now);
      refused := SupersedeOne(latest[id], runtimeId, reason, updatedAt, now);
      OneMoreSuperseded(latest, todo, id, session, runtimeId, reason, updatedAt, now);
    }

    /** Supersedes every live record of another session, in any order; stops at the first refusal. */
    method SupersedeInherited(runtimeId: Name, reason: Name, updatedAt: Option<int>, now: int)
        returns (refused: Option<RecordError>)
      requires Valid()
      modifies this
      ensures Valid() && session == old(session)
      ensures HelperBranch(old(Current())) ==> HelperBranch(Current())
      ensures refused == None ==>
                Fold(Current()) == SupersededAll(Fold(old(Current())), {}, session, runtimeId, reason, updatedAt, now)
      ensures refused.Some? ==> refused == Some(TimeMovedBack)
    {
      var latest := CacheForAppend();
      FoldKeysAll(Current());
      var todo := set id | id in latest && Inherited(latest[id], session, now);
      NoneSuperseded(latest, todo, session, runtimeId, reason, updatedAt, now);
      while todo != {}
        invariant Valid() && session == old(session) && (HelperBranch(old(Current())) ==> HelperBranch(Current()))
        invariant Waiting(latest, todo, session, now)
        invariant Fold(Current()) == SupersededAll(latest, todo, session, runtimeId, reason, updatedAt, now)
        decreases |todo|
      {
        var id :| id in todo;
        refused := SupersedeNext(latest, todo, id, runtimeId, reason, updatedAt, now);
        if refused.Some? {
          return;
        }
        todo := todo - {id};
      }
      refused := None;
    }
  }

  /** The latest records once all inherited ones but those in `todo` were superseded. */
  function SupersededAll(latest: Latest, todo: set<Name>, session: Name, runtimeId: Name, reason: Name,
      updatedAt: Option<int>, now: int): Latest
  {
    map id | id in latest ::
      if id in todo then latest[id] else Superseded(Some(latest[id]), session, runtimeId, reason, updatedAt, now).value
  }

  /** The records still to be superseded. */
  ghost predicate Waiting(latest: Latest, todo: set<Name>, session: Name, now: int) {
    && todo <= latest.Keys
    && forall id | id in todo :: latest[id].requestId == id && Inherited(latest[id], session, now)
  }

  lemma StillWaiting(latest: Latest, todo: set<Name>, id: Name, session: Name, runtimeId: Name, reason: Name,
      updatedAt: Option<int>, now: int)
    requires Waiting(latest, todo, session, now) && id in todo
    ensures Previous(SupersededAll(latest, todo, session, runtimeId, reason, updatedAt, now), id) == Some(latest[id])
    ensures latest[id].requestId == id && Inherited(latest[id], session, now)
    ensures Waiting(latest, todo - {id}, session, now)
  {
  }

  lemma NoneSuperseded(latest: Latest, todo: set<Name>, session: Name, runtimeId: Name, reason: Name,
      updatedAt: Option<int>, now: int)
    requires todo == set id | id in latest && Inherited(latest[id], session, now)
    ensures SupersededAll(latest, todo, session, runtimeId, reason, updatedAt, now) == latest
  {
  }

  lemma OneMoreSuperseded(latest: Latest, todo: set<Name>, id: Name, session: Name, runtimeId: Name, reason: Name,
      updatedAt: Option<int>, now: int)
    requires id in todo && id in latest
    ensures SupersededAll(latest, todo - {id}, session, runtimeId, reason, updatedAt, now)
         == SupersededAll(latest, todo, session, runtimeId, reason, updatedAt, now)
              [id := Superseded(Some(latest[id]), session, runtimeId, reason, updatedAt, now).value]
  {
  }

  /** A live record of another session. */
  predicate Inherited(m: Metadata, session: Name, now: int) {
    m.origin != session && m.owner != session && !Terminal(m.state) && !HasRunOut(m, now)
  }

  /** What superseding makes of the latest record of a request. */
  function Superseded(m: Option<Metadata>, session: Name, runtimeId: Name, reason: Name, updatedAt: Option<int>,
      now: int): (r: Option<Metadata>)
    ensures m.Some? ==> r.Some?
  {
    if m.Some? && Inherited(m.value, session, now) then
      Some(m.value.(owner := session, runtimeId := runtimeId, state := SupersededRecord,
                    updatedAt := if updatedAt.Some? then updatedAt.value else now, reason := Some(reason)))
    else m
  }

  lemma {:induction false} FoldKeys(rs: seq<Metadata>, id: Name)
    ensures id in Fold(rs) ==> Fold(rs)[id].requestId == id
  {
    if rs != [] {
      FoldKeys(rs[..|rs| - 1], id);
    }
  }

  lemma FoldKeysAll(rs: seq<Metadata>)
    ensures forall id | id in Fold(rs) :: Fold(rs)[id].requestId == id
  {
    forall id | id in Fold(rs) ensures Fold(rs)[id].requestId == id {
      FoldKeys(rs, id);
    }
  }

  /** What a session recovers when it starts: its own live records. */
  predicate Recovers(latest: Latest, session: Name, now: int, id: Name) {
    id in latest && latest[id].origin == session && latest[id].owner == session && !Terminal(latest[id].state)
        && !HasRunOut(latest[id], now)
  }

  /** Superseding takes nothing from what any session recovers at that time or later, except the live
      records it was asked to end, and what it ends nobody recovers again. */
  lemma SupersedingSparesTheOwn(m: Metadata, session: Name, runtimeId: Name, reason: Name, updatedAt: Option<int>,
      now: int, id: Name, later: int)
    requires now <= later
    ensures var o := Superseded(Some(m), session, runtimeId, reason, updatedAt, now).value;
            && (forall s :: Recovers(map[id := o], s, later, id) ==> Recovers(map[id := m], s, later, id))
            && (Recovers(map[id := m], session, later, id) ==> o == m)
            && (o != m ==> forall s :: !Recovers(map[id := o], s, later, id))
            && o.origin == m.origin && o.requestId == m.requestId
  {
  }

  /* ---------- which records are accepted ---------- */

  ghost predicate RanOut(m: Metadata, now: int) {
    exists until: int :: m.expiresAt == Some(until) && until <= now
  }

  /** The first record of a request is its acceptance by the session itself. */
  lemma FirstRecordTable(o: Options, session: Name, inheritedToo: bool)
    ensures var d := Decide(None, o, session, inheritedToo);
            && (o.state != AcceptedRecord ==> d == Refused(UnknownTask))
            && (o.state == AcceptedRecord && o.reason.Some? ==> d == Refused(ReasonNotAllowed))
            && (o.state == AcceptedRecord && o.reason.None? ==>
                  && d.Appended? && d.record.requestId == o.requestId && d.record.state == AcceptedRecord
                  && d.record.origin == session && d.record.owner == session && d.record.runtimeId == o.runtimeId
                  && d.record.updatedAt == (if o.updatedAt.Some? then o.updatedAt.value else o.now)
                  && (o.peer.Some? ==> d.record.peer == o.peer.value) && (o.peer.None? ==> d.record.peer == None)
                  && (o.expiresAt.Some? ==> d.record.expiresAt == o.expiresAt.value)
                  && (o.expiresAt.None? ==> d.record.expiresAt == None) && d.record.reason == None)
  {
  }

  /** A later record is accepted exactly when the request is live, its peer and expiry stay, time does not go back,
      and the writer may say this: the owner that its own request is done, or expired once it has run out, and
      anybody else, when superseding is asked for, that a request that has not run out is superseded, with a reason. */
  lemma NextRecordTable(p: Metadata, o: Options, session: Name, inheritedToo: bool)
    ensures var d := Decide(Some(p), o, session, inheritedToo);
            var at := if o.updatedAt.Some? then o.updatedAt.value else o.now;
            var own := p.origin == session && p.owner == session;
            var stranger := p.origin != session && p.owner != session;
            (d.Appended? <==>
               && (p.origin == session ==> p.owner == session) && p.state == AcceptedRecord && p.updatedAt <= at
               && (o.peer.Some? ==> o.peer.value == p.peer) && (o.expiresAt.Some? ==> o.expiresAt.value == p.expiresAt)
               && (o.reason.Some? ==> o.state == SupersededRecord)
               && match o.state
                  case AcceptedRecord => false
                  case CompletedRecord => own && !RanOut(p, o.now)
                  case FailedRecord => own && !RanOut(p, o.now)
                  case ExpiredRecord => own && RanOut(p, o.now)
                  case SupersededRecord => inheritedToo && stranger && !RanOut(p, o.now) && o.reason.Some?)
    ensures var d := Decide(Some(p), o, session, inheritedToo);
            d.Appended? ==>
              && d.record.requestId == p.requestId && d.record.origin == p.origin && d.record.owner == session
              && d.record.runtimeId == o.runtimeId && d.record.state == o.state && d.record.peer == p.peer
              && d.record.expiresAt == p.expiresAt && d.record.reason == o.reason
              && d.record.updatedAt == (if o.updatedAt.Some? then o.updatedAt.value else o.now)
  {
    assert RanOut(p, o.now) <==> HasRunOut(p, o.now) by {
      if HasRunOut(p, o.now) {
        assert p.expiresAt == Some(p.expiresAt.value);
      }
    }
  }
}
