/** Task states, their legal transitions, and the option type the other modules share. */
module TaskStates {

  datatype Option<+T> = None | Some(value: T)

  /** An identifier: a request id, a runtime id, a queue handle, the identity of an object. The
      modelled code only ever compares them, so a number stands for one. */
  type Name = nat

  datatype TaskState =
    | Created | Accepted | Queued | Working | Cancelling
    | Completed | Failed | Rejected | Cancelled | Expired

  /** The only legal transitions, row by row. */
  function Successors(from: TaskState): set<TaskState> {
    match from
    case Created => {Accepted, Rejected, Expired}
    case Accepted => {Queued, Working, Rejected, Cancelling, Cancelled, Expired}
    case Queued => {Working, Rejected, Cancelling, Cancelled, Expired}
    case Working => {Completed, Failed, Rejected, Cancelling, Expired}
    case Cancelling => {Cancelled, Completed, Failed, Expired}
    case _ => {}
  }

  predicate CanTransition(from: TaskState, to: TaskState) {
    to in Successors(from)
  }

  predicate IsTerminal(state: TaskState) {
    state in {Completed, Failed, Rejected, Cancelled, Expired}
  }

  /** A path of the transition table. */
  ghost predicate IsPath(states: seq<TaskState>) {
    forall i | 0 <= i < |states| - 1 :: CanTransition(states[i], states[i + 1])
  }

  /** How far a state is from its start; every legal transition climbs. */
  function Rank(state: TaskState): nat {
    match state
    case Created => 0
    case Accepted => 1
    case Queued => 2
    case Working => 3
    case Cancelling => 4
    case _ => 5
  }

  /** Along any path ranks climb, so no state repeats, only the last one can be terminal,
      and five transitions are the most a task can make. */
  lemma {:induction false} PathsClimb(states: seq<TaskState>, i: nat, j: nat)
    requires IsPath(states) && i < j < |states|
    ensures Rank(states[i]) + (j - i) <= Rank(states[j])
    ensures !IsTerminal(states[i])
    ensures j - i <= 5
    decreases j - i
  {
    assert CanTransition(states[i], states[i + 1]);
    if i + 1 < j {
      PathsClimb(states, i + 1, j);
    }
  }

  /** Every state that is not terminal can still expire, and terminal is exactly having no successor. */
  lemma TerminalIffStuck(state: TaskState)
    ensures IsTerminal(state) <==> Successors(state) == {}
    ensures !IsTerminal(state) ==> CanTransition(state, Expired)
  {
    if !IsTerminal(state) {
      assert Expired in Successors(state);
    }
  }
}
