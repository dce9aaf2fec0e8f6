/** Publication of one runtime's card: lease renewals and metadata updates queued behind each other on two
    promise chains, and a shutdown that waits for both. Every stretch of code between two awaits is a step. */
module Publications {
  import opened TaskStates
  import Traces

  type Metadata = nat

  datatype Card = Card(metadata: Metadata)

  datatype Kind = Renewal | Update(patch: Metadata -> Metadata, ownEndpoint: bool)

  /** A publication: `previous` is what an update rolls back to; `writing` says the write has begun. */
  datatype Status = InLine | Flying(card: Card, previous: Option<Metadata>, writing: bool) | Settled

  datatype Publication = Publication(kind: Kind, status: Status)

  /** A renewal waits on the lease's chain, then for the publication it asked for. */
  datatype RenewalStatus = Waiting | Renewing(publication: nat) | Renewed

  /** How far shutdown has come; the numbers are the chain ends it waits for. */
  datatype Shutdown = NotAsked | AwaitsLease(renewals: nat) | AwaitsPublication(publications: nat) | Removing | Removed

  datatype Registry = Registry(
    metadata: Metadata,
    current: Option<Card>,
    publications: seq<Publication>,
    renewals: seq<RenewalStatus>,
    stopped: bool,
    shutdown: Shutdown,
    writes: nat,
    begun: nat)

  datatype Event =
    | RenewCalled
    | RenewBegins(i: nat)
    | RenewEnds(i: nat)
    | UpdateCalled(patch: Metadata -> Metadata, ownEndpoint: bool)
    | PublicationBegins(i: nat, buildable: bool)
    | WriteBegins(i: nat)
    | WriteEnds(i: nat, written: bool)
    | LeaseStopped
    | ShutdownCalled
    | LeaseDrained
    | PublicationsDrained
    | CardRemoved

  /** A link of a chain runs once the link before it is settled. */
  ghost predicate Reached(s: Registry, i: nat) {
    i < |s.publications| && s.publications[i].status.InLine? && (i > 0 ==> s.publications[i - 1].status.Settled?)
  }

  ghost predicate RenewalReached(s: Registry, i: nat) {
    i < |s.renewals| && s.renewals[i].Waiting? && (i > 0 ==> s.renewals[i - 1].Renewed?)
  }

  ghost predicate Enabled(s: Registry, e: Event) {
    match e
    case RenewBegins(i) => RenewalReached(s, i)
    case RenewEnds(i) =>
      i < |s.renewals| && s.renewals[i].Renewing? && s.renewals[i].publication < |s.publications|
      && s.publications[s.renewals[i].publication].status.Settled?
    case PublicationBegins(i, _) => Reached(s, i)
    case WriteBegins(i) => i < |s.publications| && s.publications[i].status.Flying? && !s.publications[i].status.writing
    case WriteEnds(i, written) => i < |s.publications| && s.publications[i].status.Flying?
        && (written ==> s.publications[i].status.writing)
    case LeaseDrained =>
      s.shutdown.AwaitsLease?
      && (s.shutdown.renewals > 0 ==>
            s.shutdown.renewals <= |s.renewals| && s.renewals[s.shutdown.renewals - 1].Renewed?)
    case PublicationsDrained =>
      s.shutdown.AwaitsPublication?
      && (s.shutdown.publications > 0 ==>
            s.shutdown.publications <= |s.publications| && s.publications[s.shutdown.publications - 1].status.Settled?)
    case CardRemoved => s.shutdown.Removing?
    case _ => true
  }

  function SetStatus(s: Registry, i: nat, status: Status): Registry
    requires i < |s.publications|
  {
    s.(publications := s.publications[i := s.publications[i].(status := status)])
  }

  predicate Closed(s: Registry) {
    s.stopped || !s.shutdown.NotAsked?
  }

  /** A publication whose turn has come: refused when closed; an update is applied first, and an
      unbuildable card undoes it at once. */
  function Begin(s: Registry, i: nat, buildable: bool): Registry
    requires i < |s.publications|
  {
    match s.publications[i].kind
    case Renewal =>
      if Closed(s) || !buildable then SetStatus(s, i, Settled)
      else SetStatus(s, i, Flying(Card(s.metadata), None, false))
    case Update(patch, ownEndpoint) =>
      if Closed(s) || !ownEndpoint || !buildable then SetStatus(s, i, Settled)
      else SetStatus(s.(metadata := patch(s.metadata)), i, Flying(Card(patch(s.metadata)), Some(s.metadata), false))
  }

  /** The write came back: its card is current now, or an update is rolled back. */
  function Finish(s: Registry, i: nat, written: bool): Registry
    requires i < |s.publications| && s.publications[i].status.Flying?
  {
    var f := s.publications[i].status;
    var o := SetStatus(s, i, Settled);
    if written then o.(current := Some(f.card))
    else if f.previous.Some? then o.(metadata := f.previous.value)
    else o
  }

  function Enqueue(s: Registry, kind: Kind): Registry {
    s.(publications := s.publications + [Publication(kind, InLine)])
  }

  ghost function Step(s: Registry, e: Event): Registry
    requires Enabled(s, e)
  {
    match e
    case RenewCalled => s.(renewals := s.renewals + [Waiting])
    case RenewBegins(i) =>
      if s.stopped then s.(renewals := s.renewals[i := Renewed])
      else Enqueue(s, Renewal).(renewals := s.renewals[i := Renewing(|s.publications|)], begun := s.begun + 1)
    case RenewEnds(i) => s.(renewals := s.renewals[i := Renewed])
    case UpdateCalled(patch, ownEndpoint) => Enqueue(s, Update(patch, ownEndpoint))
    case PublicationBegins(i, buildable) => Begin(s, i, buildable)
    case WriteBegins(i) => SetStatus(s, i, s.publications[i].status.(writing := true)).(writes := s.writes + 1)
    case WriteEnds(i, written) => Finish(s, i, written)
    case LeaseStopped => s.(stopped := true)
    case ShutdownCalled => if s.shutdown.NotAsked? then s.(stopped := true, shutdown := AwaitsLease(|s.renewals|))
        else s
    case LeaseDrained => s.(shutdown := AwaitsPublication(|s.publications|))
    case PublicationsDrained => s.(shutdown := Removing)
    case CardRemoved => s.(current := None, shutdown := Removed)
  }

  function Init(metadata: Metadata): Registry {
    Registry(metadata, None, [], [], false, NotAsked, 0, 0)
  }

  /* ---------- the invariant ---------- */

  /** A chain: settled links, then at most one that runs, then queued ones. */
  ghost predicate ChainOk(ps: seq<Publication>) {
    forall i, j {:trigger ps[i], ps[j]} | 0 <= i < j < |ps| :: ps[i].status.Settled? || ps[j].status.InLine?
  }

  ghost predicate RenewalChainOk(rs: seq<RenewalStatus>) {
    forall i, j {:trigger rs[i], rs[j]} | 0 <= i < j < |rs| :: rs[i].Renewed? || rs[j].Waiting?
  }

  ghost predicate FlightOk(metadata: Metadata, current: Option<Card>, p: Publication) {
    p.status.Flying? ==>
      && p.status.card == Card(metadata)
      && (current.Some? ==> current.value == Card(if p.status.previous.Some? then p.status.previous.value
          else metadata))
  }

  ghost predicate Idle(s: Registry) {
    forall i | 0 <= i < |s.publications| :: !s.publications[i].status.Flying?
  }

  ghost predicate ShutdownOk(s: Registry) {
    && (!s.shutdown.NotAsked? ==> s.stopped)
    && (s.shutdown.AwaitsLease? ==> s.shutdown.renewals <= |s.renewals|)
    && (s.shutdown.AwaitsPublication? || s.shutdown.Removing? || s.shutdown.Removed? ==>
          forall i | 0 <= i < |s.renewals| :: !s.renewals[i].Renewing?)
    && (s.shutdown.AwaitsPublication? ==>
          s.shutdown.publications <= |s.publications|
          && forall i | s.shutdown.publications <= i < |s.publications| :: !s.publications[i].status.Flying?)
    && (s.shutdown.Removing? || s.shutdown.Removed? ==> Idle(s))
    && (s.shutdown.Removed? ==> s.current == None)
    && (s.shutdown.AwaitsLease? ==> forall i | s.shutdown.renewals <= i < |s.renewals| :: !s.renewals[i].Renewing?)
  }

  ghost predicate Inv(s: Registry) {
    && ChainOk(s.publications) && RenewalChainOk(s.renewals)
    && (forall i | 0 <= i < |s.publications| :: FlightOk(s.metadata, s.current, s.publications[i]))
    && (Idle(s) && s.current.Some? ==> s.current.value == Card(s.metadata))
    && ShutdownOk(s)
    && (forall i | 0 <= i < |s.renewals| && s.renewals[i].Renewing? :: s.renewals[i].publication < |s.publications|)
  }

  /** Two publications never run at the same time, let alone two writes. */
  lemma OneAtATime(s: Registry, i: nat, j: nat)
    requires Inv(s) && i < |s.publications| && j < |s.publications|
    requires s.publications[i].status.Flying? && s.publications[j].status.Flying?
    ensures i == j
  {
    Linked(s, i, j);
  }

  /** Of two links, the later one is still in line unless the earlier one is settled. */
  lemma Linked(s: Registry, i: nat, j: nat)
    requires Inv(s) && i < |s.publications| && j < |s.publications|
    ensures i < j ==> s.publications[i].status.Settled? || s.publications[j].status.InLine?
    ensures j < i ==> s.publications[j].status.Settled? || s.publications[i].status.InLine?
  {
  }

  lemma RenewalsLinked(s: Registry, i: nat, j: nat)
    requires Inv(s) && i < |s.renewals| && j < |s.renewals|
    ensures i < j ==> s.renewals[i].Renewed? || s.renewals[j].Waiting?
  {
  }

  /* ---------- every step keeps it ---------- */

  lemma EnqueueInv(s: Registry, kind: Kind)
    requires Inv(s)
    ensures Inv(Enqueue(s, kind))
  {
    var o := Enqueue(s, kind);
    assert forall i :: 0 <= i < |s.publications| ==> o.publications[i] == s.publications[i];
    if Idle(o) && o.current.Some? {
      forall i | 0 <= i < |s.publications| ensures !s.publications[i].status.Flying? {
        assert !o.publications[i].status.Flying?;
      }
    }
  }

  /** When a link's turn comes nothing is in flight. */
  lemma ReachedIsIdle(s: Registry, i: nat)
    requires Inv(s) && Reached(s, i)
    ensures Idle(s) && forall j | 0 <= j < i :: s.publications[j].status.Settled?
  {
    forall j | 0 <= j < |s.publications|
      ensures !s.publications[j].status.Flying? && (j < i ==> s.publications[j].status.Settled?)
    {
      if j + 1 < i {
        Linked(s, j, i - 1);
      } else if j > i {
        Linked(s, i, j);
      }
    }
  }

  lemma BeginInv(s: Registry, i: nat, buildable: bool)
    requires Inv(s) && Reached(s, i)
    ensures Inv(Begin(s, i, buildable))
  {
    ReachedIsIdle(s, i);
    var o := Begin(s, i, buildable);
    assert forall j :: 0 <= j < |s.publications| && j != i ==> o.publications[j] == s.publications[j];
    assert o.publications[i].status.Flying? ==> !Idle(o);
    forall j, k | 0 <= j < k < |o.publications|
      ensures o.publications[j].status.Settled? || o.publications[k].status.InLine?
    {
      assert s.publications[j].status.Settled? || s.publications[k].status.InLine?;
    }
  }

  lemma FinishInv(s: Registry, i: nat, written: bool)
    requires Inv(s) && i < |s.publications| && s.publications[i].status.Flying?
    ensures Inv(Finish(s, i, written))
  {
    var o := Finish(s, i, written);
    assert FlightOk(s.metadata, s.current, s.publications[i]);
    forall j | 0 <= j < |o.publications| ensures !o.publications[j].status.Flying? {
      if j != i && s.publications[j].status.Flying? {
        OneAtATime(s, i, j);
      }
    }
    forall j, k | 0 <= j < k < |o.publications|
      ensures o.publications[j].status.Settled? || o.publications[k].status.InLine?
    {
      assert s.publications[j].status.Settled? || s.publications[k].status.InLine?;
    }
  }

  lemma WriteBeginsInv(s: Registry, i: nat)
    requires Inv(s) && i < |s.publications| && s.publications[i].status.Flying?
    ensures Inv(SetStatus(s, i, s.publications[i].status.(writing := true)).(writes := s.writes + 1))
  {
    var o := SetStatus(s, i, s.publications[i].status.(writing := true)).(writes := s.writes + 1);
    assert FlightOk(s.metadata, s.current, s.publications[i]);
    assert o.publications[i].status.Flying?;
    assert forall j :: 0 <= j < |s.publications| && j != i ==> o.publications[j] == s.publications[j];
    forall j, k | 0 <= j < k < |o.publications|
      ensures o.publications[j].status.Settled? || o.publications[k].status.InLine?
    {
      assert s.publications[j].status.Settled? || s.publications[k].status.InLine?;
    }
  }

  lemma RenewBeginsInv(s: Registry, i: nat)
    requires Inv(s) && RenewalReached(s, i)
    ensures Inv(Step(s, RenewBegins(i)))
  {
    EnqueueInv(s, Renewal);
    var o := Step(s, RenewBegins(i));
    forall j, k | 0 <= j < k < |o.renewals| ensures o.renewals[j].Renewed? || o.renewals[k].Waiting? {
      assert s.renewals[j].Renewed? || s.renewals[k].Waiting?;
      if k == i && j + 1 < i {
        RenewalsLinked(s, j, i - 1);
      }
    }
  }

  lemma RenewEndsInv(s: Registry, i: nat)
    requires Inv(s) && i < |s.renewals| && s.renewals[i].Renewing?
    ensures Inv(s.(renewals := s.renewals[i := Renewed]))
  {
    var o := s.(renewals := s.renewals[i := Renewed]);
    forall j, k | 0 <= j < k < |o.renewals| ensures o.renewals[j].Renewed? || o.renewals[k].Waiting? {
      assert s.renewals[j].Renewed? || s.renewals[k].Waiting?;
    }
  }

  lemma LeaseDrainedInv(s: Registry)
    requires Inv(s) && Enabled(s, LeaseDrained)
    ensures Inv(Step(s, LeaseDrained))
  {
    var n: int := s.shutdown.renewals;
    forall j | 0 <= j < |s.renewals| ensures !s.renewals[j].Renewing? {
      if j < n - 1 {
        RenewalsLinked(s, j, n - 1);
      }
    }
  }

  lemma PublicationsDrainedInv(s: Registry)
    requires Inv(s) && Enabled(s, PublicationsDrained)
    ensures Inv(Step(s, PublicationsDrained))
  {
    var n: int := s.shutdown.publications;
    forall j | 0 <= j < |s.publications| ensures !s.publications[j].status.Flying? {
      if j < n - 1 {
        Linked(s, j, n - 1);
      }
    }
  }

  lemma StepInv(s: Registry, e: Event)
    requires Inv(s) && Enabled(s, e)
    ensures Inv(Step(s, e))
  {
    match e
    case RenewBegins(i) => RenewBeginsInv(s, i);
    case RenewEnds(i) => RenewEndsInv(s, i);
    case UpdateCalled(patch, ownEndpoint) => EnqueueInv(s, Update(patch, ownEndpoint));
    case PublicationBegins(i, buildable) => BeginInv(s, i, buildable);
    case WriteBegins(i) => WriteBeginsInv(s, i);
    case WriteEnds(i, written) => FinishInv(s, i, written);
    case LeaseDrained => LeaseDrainedInv(s);
    case PublicationsDrained => PublicationsDrainedInv(s);
    case RenewCalled => RenewCalledInv(s);
    case LeaseStopped =>
    case ShutdownCalled =>
    case CardRemoved =>
  }

  lemma RenewCalledInv(s: Registry)
    requires Inv(s)
    ensures Inv(s.(renewals := s.renewals + [Waiting]))
  {
    var o := s.(renewals := s.renewals + [Waiting]);
    forall j, k | 0 <= j < k < |o.renewals| ensures o.renewals[j].Renewed? || o.renewals[k].Waiting? {
      if k < |s.renewals| {
        assert s.renewals[j].Renewed? || s.renewals[k].Waiting?;
      }
    }
  }

  /* ---------- whole runs ---------- */

  type Timed = Traces.Timed<Event, Registry>

  ghost predicate Follows(s: Registry, now: int, t: Timed) {
    Enabled(s, t.event) && t.after == Step(s, t.event)
  }

  /** What no interleaving undoes. */
  ghost predicate Since(s: Registry, o: Registry) {
    && (s.stopped ==> o.stopped && o.begun == s.begun)
    && (s.shutdown.Removing? || s.shutdown.Removed? ==>
          (o.shutdown.Removing? || o.shutdown.Removed?) && o.writes == s.writes)
    && (s.shutdown.Removed? ==> o.shutdown.Removed? && o.current == None)
  }

  lemma StepSince(s: Registry, e: Event)
    requires Inv(s) && Enabled(s, e)
    ensures Since(s, Step(s, e))
  {
    match e
    case WriteBegins(i) =>
    case WriteEnds(i, written) =>
    case PublicationBegins(i, buildable) =>
    case _ =>
  }

  ghost predicate Reachable(s: Registry, now: int) {
    Inv(s)
  }

  /** In every interleaving of renewals, updates and shutdown: no two publications are in flight at once,
      and whenever none is, the current card carries the current metadata, failed updates included. */
  lemma CardsFollowMetadata(metadata: Metadata, steps: seq<Timed>, now: int)
    requires Traces.IsRun(Follows, Init(metadata), steps, now)
    ensures var o := Traces.End(Init(metadata), steps);
            && (forall i, j | 0 <= i < |o.publications| && 0 <= j < |o.publications|
                              && o.publications[i].status.Flying? && o.publications[j].status.Flying? :: i == j)
            && (Idle(o) && o.current.Some? ==> o.current.value.metadata == o.metadata)
  {
    RunInv(Init(metadata), steps, now);
    var o := Traces.End(Init(metadata), steps);
    forall i, j | 0 <= i < |o.publications| && 0 <= j < |o.publications|
                  && o.publications[i].status.Flying? && o.publications[j].status.Flying?
      ensures i == j
    {
      OneAtATime(o, i, j);
    }
  }

  lemma RunInv(s: Registry, steps: seq<Timed>, now: int)
    requires Inv(s) && Traces.IsRun(Follows, s, steps, now)
    ensures Inv(Traces.End(s, steps))
  {
    forall u, at, t | Reachable(u, at) && Follows(u, at, t) ensures Reachable(t.after, t.now) {
      StepInv(u, t.event);
    }
    Traces.RunsKeep(Follows, Reachable, s, steps, now);
  }

  /** Once the lease is stopped no renewal begins; once shutdown has passed both waits no write begins;
      once the card is removed it stays removed: whatever is called and in whatever order it runs. */
  lemma {:induction false} NothingAfterShutdown(s: Registry, steps: seq<Timed>, now: int)
    requires Inv(s) && Traces.IsRun(Follows, s, steps, now)
    ensures Since(s, Traces.End(s, steps))
    decreases |steps|
  {
    if steps != [] {
      var m := steps[0].after;
      StepInv(s, steps[0].event);
      StepSince(s, steps[0].event);
      NothingAfterShutdown(m, steps[1..], steps[0].now);
    }
  }

  /* ---------- what the metadata are ---------- */

  /** What a step adds to the updates that took effect: a write that came back for an update. */
  ghost function Effect(s: Registry, e: Event, m: Metadata): Metadata {
    match e
    case WriteEnds(i, written) =>
      if written && i < |s.publications| && s.publications[i].kind.Update? then s.publications[i].kind.patch(m) else m
    case _ => m
  }

  /** The metadata after every update whose card was written, in the order of the writes. */
  ghost function Written(s: Registry, steps: seq<Timed>, m: Metadata): Metadata
    decreases |steps|
  {
    if steps == [] then m else Written(steps[0].after, steps[1..], Effect(s, steps[0].event, m))
  }

  /** Between publications the metadata are what was written; while one is in flight, what was written with its
      patch applied, if it is an update, and what it would roll back to. */
  ghost predicate CarriesOn(s: Registry, m: Metadata) {
    && (Idle(s) ==> s.metadata == m)
    && (forall i {:trigger s.publications[i]} | 0 <= i < |s.publications| && s.publications[i].status.Flying? ::
          match s.publications[i].kind
          case Renewal => s.publications[i].status.previous == None && s.metadata == m
          case Update(patch, own) => own && s.publications[i].status.previous == Some(m) && s.metadata == patch(m))
  }

  lemma StepFollows(s: Registry, e: Event, m: Metadata)
    requires Inv(s) && Enabled(s, e) && CarriesOn(s, m)
    ensures CarriesOn(Step(s, e), Effect(s, e, m))
  {
    var o := Step(s, e);
    match e
    case PublicationBegins(i, buildable) =>
      ReachedIsIdle(s, i);
      BeginFollows(s, i, buildable, m);
    case WriteEnds(i, written) => FinishFollows(s, i, written, m);
    case WriteBegins(i) =>
      assert forall j :: 0 <= j < |s.publications| ==>
                         o.publications[j].status.Flying? == s.publications[j].status.Flying?;
    case RenewBegins(i) =>
      assert forall j :: 0 <= j < |s.publications| ==> o.publications[j] == s.publications[j];
    case UpdateCalled(patch, own) =>
      assert forall j :: 0 <= j < |s.publications| ==> o.publications[j] == s.publications[j];
    case _ =>
  }

  lemma BeginFollows(s: Registry, i: nat, buildable: bool, m: Metadata)
    requires Inv(s) && Reached(s, i) && Idle(s) && s.metadata == m
    ensures CarriesOn(Begin(s, i, buildable), m)
  {
    var o := Begin(s, i, buildable);
    assert forall j :: 0 <= j < |s.publications| && j != i ==> o.publications[j] == s.publications[j];
    if o.publications[i].status.Flying? {
      assert !Idle(o);
    }
  }

  lemma FinishFollows(s: Registry, i: nat, written: bool, m: Metadata)
    requires Inv(s) && Enabled(s, WriteEnds(i, written)) && CarriesOn(s, m)
    ensures CarriesOn(Finish(s, i, written), Effect(s, WriteEnds(i, written), m))
  {
    var o := Finish(s, i, written);
    forall j | 0 <= j < |o.publications| ensures !o.publications[j].status.Flying? {
      if j != i && s.publications[j].status.Flying? {
        OneAtATime(s, i, j);
      }
    }
  }

  lemma {:induction false} RunFollows(s: Registry, steps: seq<Timed>, now: int, m: Metadata)
    requires Inv(s) && CarriesOn(s, m) && Traces.IsRun(Follows, s, steps, now)
    ensures CarriesOn(Traces.End(s, steps), Written(s, steps, m))
    decreases |steps|
  {
    if steps != [] {
      StepInv(s, steps[0].event);
      StepFollows(s, steps[0].event, m);
      RunFollows(steps[0].after, steps[1..], steps[0].now, Effect(s, steps[0].event, m));
    }
  }

  /** In every interleaving: whenever no publication is in flight, the metadata are those the registry began with
      and every update whose card was written, each applied to the result of the one before, and the current card
      carries them; failed and refused updates leave nothing. */
  lemma MetadataAreWhatWasWritten(metadata: Metadata, steps: seq<Timed>, now: int)
    requires Traces.IsRun(Follows, Init(metadata), steps, now)
    ensures var o := Traces.End(Init(metadata), steps);
            var m := Written(Init(metadata), steps, metadata);
            Idle(o) ==> o.metadata == m && (o.current.Some? ==> o.current.value == Card(m))
  {
    RunFollows(Init(metadata), steps, now, metadata);
    CardsFollowMetadata(metadata, steps, now);
  }

  /** A call of `updateMetadata` queues its own patch, and a renewal whose turn has come a publication without one,
      at the end of the chain. */
  lemma CallsAreQueued(s: Registry, patch: Metadata -> Metadata, ownEndpoint: bool, i: nat)
    ensures var o := Step(s, UpdateCalled(patch, ownEndpoint));
            && |o.publications| == |s.publications| + 1 && o.publications[..|s.publications|] == s.publications
            && o.publications[|s.publications|].status == InLine && o.metadata == s.metadata
            && o.publications[|s.publications|].kind == Update(patch, ownEndpoint)
    ensures RenewalReached(s, i) ==>
              var o := Step(s, RenewBegins(i));
              if s.stopped then o.publications == s.publications && o.renewals[i] == Renewed && o.begun == s.begun
              else
                && |o.publications| == |s.publications| + 1 && o.publications[..|s.publications|] == s.publications
                && o.publications[|s.publications|].kind == Renewal
                && o.renewals[i] == Renewing(|s.publications|) && o.begun == s.begun + 1
  {
  }
}
