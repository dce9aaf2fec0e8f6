/** The registry and its lease as the classes that own the two promise chains. Each method is the code
    between two awaits, tied to the step of the same name in Publications. */
module AgentCardRegistries {
  import opened TaskStates
  import opened Publications

  lemma EarlierAndLater(rs: seq<RenewalStatus>, i: nat, j: nat)
    requires RenewalChainOk(rs) && i < j < |rs|
    ensures rs[i].Renewed? || rs[j].Waiting?
  {
  }

  /** When a renewal's turn comes all before it are over and all behind it wait. */
  lemma TurnComes(rs: seq<RenewalStatus>, i: nat)
    requires RenewalChainOk(rs) && i < |rs| && rs[i].Waiting? && (i > 0 ==> rs[i - 1].Renewed?)
    ensures forall j | 0 <= j < |rs| && j != i :: if j < i then rs[j].Renewed? else rs[j].Waiting?
  {
    forall j | 0 <= j < |rs| && j != i ensures if j < i then rs[j].Renewed? else rs[j].Waiting? {
      if i < j {
        EarlierAndLater(rs, i, j);
      } else if j < i - 1 {
        EarlierAndLater(rs, j, i - 1);
      }
    }
  }

  /** While a renewal runs all before it are over and all behind it wait. */
  lemma TurnEnds(rs: seq<RenewalStatus>, i: nat)
    requires RenewalChainOk(rs) && i < |rs| && rs[i].Renewing?
    ensures forall j | 0 <= j < |rs| && j != i :: if j < i then rs[j].Renewed? else rs[j].Waiting?
  {
    forall j | 0 <= j < |rs| && j != i ensures if j < i then rs[j].Renewed? else rs[j].Waiting? {
      if i < j {
        EarlierAndLater(rs, i, j);
      } else {
        EarlierAndLater(rs, j, i);
      }
    }
  }

  /** The lease: its chain of renewals and whether it was stopped. */
  class SerializedLease {
    var pending: seq<RenewalStatus>
    var stopped: bool

    /** Renewals that are over, then at most one that runs, then those that wait. */
    ghost predicate Valid()
      reads this
    {
      RenewalChainOk(pending)
    }

    constructor ()
      ensures Valid() && pending == [] && !stopped
    {
      pending, stopped := [], false;
    }

    /** Queues one renewal behind all earlier ones. */
    method Renew()
      requires Valid()
      modifies this
      ensures Valid() && pending == old(pending) + [Waiting] && stopped == old(stopped)
    {
      pending := pending + [Waiting];
    }

    /** Whether the renewal whose turn has come may call back; a stopped lease settles it at once.
        Whatever the answer, no other renewal runs beside it. */
    method BeginRenewal(i: nat, publication: nat) returns (renewing: bool)
      requires Valid() && i < |pending| && pending[i].Waiting? && (i > 0 ==> pending[i - 1].Renewed?)
      modifies this
      ensures Valid() && forall j | 0 <= j < |pending| && pending[j].Renewing? :: j == i && renewing
      ensures renewing == !old(stopped) && stopped == old(stopped)
      ensures pending == old(pending)[i := if renewing then Renewing(publication) else Renewed]
    {
      renewing := !stopped;
      pending := pending[i := if stopped then Renewed else Renewing(publication)];
      TurnComes(old(pending), i);
    }

    /** The renewal that ran is over, and so none runs. */
    method SettleRenewal(i: nat)
      requires Valid() && i < |pending| && pending[i].Renewing?
      modifies this
      ensures Valid() && forall j | 0 <= j < |pending| :: !pending[j].Renewing?
      ensures pending == old(pending)[i := Renewed] && stopped == old(stopped)
    {
      pending := pending[i := Renewed];
      TurnEnds(old(pending), i);
    }

    /** Stops the lease; the caller then waits for the chain as long as it is now. */
    method Stop() returns (tail: nat)
      requires Valid()
      modifies this
      ensures Valid() && stopped && pending == old(pending) && tail == |pending|
    {
      stopped := true;
      tail := |pending|;
    }
  }

  class AgentCardRegistry {
    const lease: SerializedLease
    var metadata: Metadata
    var currentCard: Option<Card>
    var pendingPublication: seq<Publication>
    var shutdown: Shutdown
    ghost var writes: nat
    ghost var begun: nat

    ghost function State(): Registry
      reads this, lease
    {
      Registry(metadata, currentCard, pendingPublication, lease.pending, lease.stopped, shutdown, writes, begun)
    }

    ghost predicate Valid()
      reads this, lease
    {
      Inv(State())
    }

    /** Nothing is in flight, and the current card carries the current metadata. */
    ghost predicate UpToDate()
      reads this, lease
    {
      Idle(State()) && (currentCard.Some? ==> currentCard.value.metadata == metadata)
    }

    constructor (metadata: Metadata)
      ensures Valid() && UpToDate() && State() == Init(metadata) && fresh(lease)
    {
      lease := new SerializedLease();
      this.metadata := metadata;
      currentCard, pendingPublication, shutdown := None, [], NotAsked;
      writes, begun := 0, 0;
    }

    method EnqueuePublication(kind: Kind)
      requires Valid()
      modifies `pendingPublication
      ensures Valid() && State() == Enqueue(old(State()), kind)
    {
      EnqueueInv(State(), kind);
      pendingPublication := pendingPublication + [Publication(kind, InLine)];
    }

    method SetPublication(i: nat, status: Status)
      requires i < |pendingPublication|
      modifies `pendingPublication
      ensures State() == SetStatus(old(State()), i, status)
    {
      pendingPublication := pendingPublication[i := pendingPublication[i].(status := status)];
    }

    method Renew()
      requires Valid()
      modifies lease
      ensures Valid() && State() == Step(old(State()), RenewCalled)
    {
      StepInv(State(), RenewCalled);
      lease.Renew();
    }

    /** A renewal whose turn has come asks for a publication, unless the lease is stopped; no other
        renewal runs beside it. */
    method RenewalTurn(i: nat)
      requires Valid() && Enabled(State(), RenewBegins(i))
      modifies this, lease
      ensures Valid() && State() == Step(old(State()), RenewBegins(i))
      ensures forall j | 0 <= j < |lease.pending| && lease.pending[j].Renewing? :: j == i && !lease.stopped
    {
      ghost var before := State();
      StepInv(before, RenewBegins(i));
      var renewing := lease.BeginRenewal(i, |pendingPublication|);
      if renewing {
        pendingPublication := pendingPublication + [Publication(Renewal, InLine)];
        begun := begun + 1;
      }
      assert State() == Step(before, RenewBegins(i));
    }

    method RenewalSettles(i: nat)
      requires Valid() && Enabled(State(), RenewEnds(i))
      modifies lease
      ensures Valid() && State() == Step(old(State()), RenewEnds(i))
      ensures forall j | 0 <= j < |lease.pending| :: !lease.pending[j].Renewing?
    {
      StepInv(State(), RenewEnds(i));
      lease.SettleRenewal(i);
    }

    method UpdateMetadata(patch: Metadata -> Metadata, ownEndpoint: bool)
      requires Valid()
      modifies `pendingPublication
      ensures Valid() && State() == Step(old(State()), UpdateCalled(patch, ownEndpoint))
    {
      EnqueuePublication(Update(patch, ownEndpoint));
    }

    /** Runs a publication up to its first await; an update sets the metadata and undoes it when no card
        can be built. It is the only one in flight, with a card of the metadata as they are now; one that
        is refused leaves the registry up to date as it was. */
    method PublicationTurn(i: nat, buildable: bool)
      requires Valid() && Enabled(State(), PublicationBegins(i, buildable))
      modifies this
      ensures Valid() && State() == Step(old(State()), PublicationBegins(i, buildable))
      ensures forall j | 0 <= j < |pendingPublication| && pendingPublication[j].status.Flying? ::
                j == i && pendingPublication[j].status.card.metadata == metadata && !old(Closed(State()))
      ensures pendingPublication[i].status.Settled? ==> UpToDate() && metadata == old(metadata)
      ensures currentCard == old(currentCard)
      ensures pendingPublication[i].status.Flying? ==>
                match old(pendingPublication)[i].kind
                case Renewal => metadata == old(metadata)
                case Update(patch, ownEndpoint) => ownEndpoint && metadata == patch(old(metadata))
    {
      ghost var before := State();
      StepInv(before, PublicationBegins(i, buildable));
      ReachedIsIdle(before, i);
      if !shutdown.NotAsked? || lease.stopped {
        SetPublication(i, Settled);
        return;
      }
      var previous: Option<Metadata> := None;
      match pendingPublication[i].kind {
        case Renewal =>
        case Update(patch, ownEndpoint) =>
          if !ownEndpoint {
            SetPublication(i, Settled);
            return;
          }
          previous := Some(metadata);
          metadata := patch(metadata);
      }
      if buildable {
        SetPublication(i, Flying(Card(metadata), previous, false));
      } else {
        if previous.Some? {
          metadata := previous.value;
        }
        SetPublication(i, Settled);
      }
    }

    method WriteStarts(i: nat)
      requires Valid() && Enabled(State(), WriteBegins(i))
      modifies this
      ensures Valid() && State() == Step(old(State()), WriteBegins(i))
    {
      StepInv(State(), WriteBegins(i));
      SetPublication(i, pendingPublication[i].status.(writing := true));
      writes := writes + 1;
    }

    /** The write came back, or the directory never did: the registry is up to date again. A written card
        is the current one, of the metadata that were set for it; a failed write leaves the card that was
        current, and the metadata go back to what it carries. */
    method WriteReturns(i: nat, written: bool)
      requires Valid() && Enabled(State(), WriteEnds(i, written))
      modifies this
      ensures Valid() && State() == Step(old(State()), WriteEnds(i, written))
      ensures UpToDate()
      ensures written ==> currentCard == Some(Card(old(metadata))) && metadata == old(metadata)
      ensures !written ==> currentCard == old(currentCard)
    {
      ghost var before := State();
      StepInv(before, WriteEnds(i, written));
      NoOtherFlies(before, i, written);
      var flight := pendingPublication[i].status;
      if written {
        currentCard := Some(flight.card);
      } else if flight.previous.Some? {
        metadata := flight.previous.value;
      }
      SetPublication(i, Settled);
    }

    method StopLease()
      requires Valid()
      modifies lease
      ensures Valid() && State() == Step(old(State()), LeaseStopped)
    {
      StepInv(State(), LeaseStopped);
      var _ := lease.Stop();
    }

    /** Asks for shutdown once; it then waits for the lease. */
    method ShutDown()
      requires Valid()
      modifies this, lease
      ensures Valid() && State() == Step(old(State()), ShutdownCalled)
    {
      StepInv(State(), ShutdownCalled);
      if shutdown.NotAsked? {
        var tail := lease.Stop();
        shutdown := AwaitsLease(tail);
      }
    }

    /** After the lease, shutdown waits for the publications queued by now; no renewal runs, and none will. */
    method AwaitPublications()
      requires Valid() && Enabled(State(), LeaseDrained)
      modifies this
      ensures Valid() && State() == Step(old(State()), LeaseDrained)
      ensures lease.stopped && forall i | 0 <= i < |lease.pending| :: !lease.pending[i].Renewing?
    {
      StepInv(State(), LeaseDrained);
      shutdown := AwaitsPublication(|pendingPublication|);
    }

    /** Both waits are over: nothing is in flight when the card's file is removed. */
    method BeginRemoval()
      requires Valid() && Enabled(State(), PublicationsDrained)
      modifies this
      ensures Valid() && State() == Step(old(State()), PublicationsDrained)
      ensures UpToDate() && lease.stopped && forall i | 0 <= i < |lease.pending| :: !lease.pending[i].Renewing?
    {
      StepInv(State(), PublicationsDrained);
      shutdown := Removing;
    }

    /** No card is current and nothing is in flight that could write one. */
    method FinishRemoval()
      requires Valid() && Enabled(State(), CardRemoved)
      modifies this
      ensures Valid() && State() == Step(old(State()), CardRemoved)
      ensures currentCard == None && UpToDate() && Closed(State()) && writes == old(writes)
    {
      StepInv(State(), CardRemoved);
      currentCard := None;
      shutdown := Removed;
    }
  }

  /** When the one publication in flight is over, none is. */
  lemma NoOtherFlies(s: Registry, i: nat, written: bool)
    requires Inv(s) && Enabled(s, WriteEnds(i, written))
    ensures Idle(Finish(s, i, written)) && s.publications[i].status.card == Card(s.metadata)
    ensures Inv(Finish(s, i, written))
  {
    FinishInv(s, i, written);
    assert FlightOk(s.metadata, s.current, s.publications[i]);
    var o := Finish(s, i, written);
    forall j | 0 <= j < |o.publications| ensures !o.publications[j].status.Flying? {
      if j != i && s.publications[j].status.Flying? {
        OneAtATime(s, i, j);
      }
    }
  }
}
