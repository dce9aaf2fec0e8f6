/** Runs of any system whose steps happen at a time and leave it in a new state. */
module Traces {

  datatype Timed<Event, State> = Timed(event: Event, now: int, after: State)

  /** Whether a step can follow a state last seen at a time. */
  type Following<!Event, !State> = (State, int, Timed<Event, State>) -> bool

  /** A step the system may take. */
  ghost predicate Holds<Event, State>(follows: Following<Event, State>, s: State, now: int, t: Timed<Event, State>) {
    follows(s, now, t)
  }

  ghost predicate IsRun<Event(!new), State(!new)>(follows: Following<Event, State>, s: State,
      steps: seq<Timed<Event, State>>, now: int)
    decreases |steps|
  {
    steps != [] ==> follows(s, now, steps[0]) && IsRun(follows, steps[0].after, steps[1..], steps[0].now)
  }

  function End<Event, State>(s: State, steps: seq<Timed<Event, State>>): State {
    if steps == [] then s else steps[|steps| - 1].after
  }

  function EndTime<Event, State>(steps: seq<Timed<Event, State>>, now: int): int {
    if steps == [] then now else steps[|steps| - 1].now
  }

  /** A run goes on with any step that can follow its end. */
  lemma {:induction false} RunAppend<Event(!new), State(!new)>(
    follows: Following<Event, State>, s: State, steps: seq<Timed<Event, State>>, t: Timed<Event, State>, now: int)
    requires IsRun(follows, s, steps, now) && Holds(follows, End(s, steps), EndTime(steps, now), t)
    ensures IsRun(follows, s, steps + [t], now)
    ensures End(s, steps + [t]) == t.after && EndTime(steps + [t], now) == t.now
    decreases |steps|
  {
    if steps == [] {
      assert steps + [t] == [t] && [t][1..] == [];
      assert IsRun(follows, t.after, [], t.now);
    } else {
      RunAppend(follows, steps[0].after, steps[1..], t, steps[0].now);
      assert (steps + [t])[1..] == steps[1..] + [t];
    }
  }

  /** A run without its last step is a run that the last step follows. */
  lemma {:induction false} RunInit<Event(!new), State(!new)>(
    follows: Following<Event, State>, s: State, steps: seq<Timed<Event, State>>, now: int)
    requires IsRun(follows, s, steps, now) && steps != []
    ensures var before, last := steps[..|steps| - 1], steps[|steps| - 1];
            IsRun(follows, s, before, now) && Holds(follows, End(s, before), EndTime(before, now), last)
    decreases |steps|
  {
    var before := steps[..|steps| - 1];
    if |steps| > 1 {
      RunInit(follows, steps[0].after, steps[1..], steps[0].now);
      assert steps[1..][..|steps| - 2] == before[1..];
    }
  }

  /** An invariant that every step keeps holds at the end of every run. */
  lemma {:induction false} RunsKeep<Event(!new), State(!new)>(
    follows: Following<Event, State>, inv: (State, int) -> bool, s: State, steps: seq<Timed<Event, State>>, now: int)
    requires inv(s, now) && IsRun(follows, s, steps, now)
    requires forall u, at, t :: inv(u, at) && follows(u, at, t) ==> inv(t.after, t.now)
    ensures inv(End(s, steps), EndTime(steps, now))
    decreases |steps|
  {
    if steps != [] {
      RunsKeep(follows, inv, steps[0].after, steps[1..], steps[0].now);
    }
  }

  /** So does a property of a run and its end that every further step keeps. */
  lemma {:induction false} RunsKeepHistory<Event(!new), State(!new)>(
    follows: Following<Event, State>, inv: (seq<Timed<Event, State>>, State) -> bool, s: State,
    steps: seq<Timed<Event, State>>, now: int)
    requires IsRun(follows, s, steps, now) && inv([], s)
    requires forall before, t | IsRun(follows, s, before, now) && inv(before, End(s, before)) ::
               Holds(follows, End(s, before), EndTime(before, now), t) ==> inv(before + [t], t.after)
    ensures inv(steps, End(s, steps))
    decreases |steps|
  {
    if steps != [] {
      var before, last := steps[..|steps| - 1], steps[|steps| - 1];
      RunInit(follows, s, steps, now);
      RunsKeepHistory(follows, inv, s, before, now);
      assert before + [last] == steps;
    } else {
      assert steps == [];
    }
  }
}
