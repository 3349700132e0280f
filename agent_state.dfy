/**
 * The life-cycle states of an agent and the pair (current, previous) that the
 * state queries read.
 */
module AgentStates {
  import opened Wrappers

  datatype State = SET | STARTED | RUNNING | STOPPED | ERROR

  /** The two state fields: the previous state is null until the first change of state. */
  datatype Lifecycle = Lifecycle(current: State, previous: Option<State>)

  /** A freshly constructed agent: `setState(SET)` over a null state. */
  const INITIAL: Lifecycle := Lifecycle(SET, None)

  /** `setState(s)`: the old current state becomes the previous one. */
  function SetState(l: Lifecycle, s: State): (r: Lifecycle)
    ensures r.current == s && r.previous == Some(l.current)
  {
    Lifecycle(s, Some(l.current))
  }

  /** `isStarted()`: the timer is armed, also while a task started from STARTED is running. */
  predicate IsStarted(l: Lifecycle)
  {
    l.current == STARTED || (l.current == RUNNING && l.previous == Some(STARTED))
  }

  predicate IsRunning(l: Lifecycle)
  {
    l.current == RUNNING
  }

  predicate IsStopped(l: Lifecycle)
  {
    l.current == STOPPED
  }

  /** A stopped agent is neither started nor running; a started one that runs came from STARTED. */
  lemma StateQueriesAgree(l: Lifecycle)
    ensures IsStopped(l) ==> !IsStarted(l) && !IsRunning(l)
    ensures IsStarted(l) && IsRunning(l) ==> l.previous == Some(STARTED)
    ensures IsStarted(l) ==> l.current == STARTED || IsRunning(l)
  {
  }

  /** Two changes of state remember only the last one. */
  lemma SetStateRemembersOneStep(l: Lifecycle, s: State, t: State)
    ensures SetState(SetState(l, s), t) == Lifecycle(t, Some(s))
  {
  }

  /** The start of `run`: `setState(RUNNING)`. */
  function EnterRun(l: Lifecycle): (r: Lifecycle)
    ensures IsRunning(r) && r.previous == Some(l.current)
  {
    SetState(l, RUNNING)
  }

  /** The `finally` of `run` as written: `setState(previousState)`, whatever happened meanwhile. */
  function ExitRunAsWritten(l: Lifecycle): (r: Lifecycle)
    requires l.previous.Some?
    ensures r.current == l.previous.value && r.previous == Some(l.current)
  {
    SetState(l, l.previous.value)
  }

  /**
   * The `finally` of `run`, corrected: back to the state found on entry, unless
   * another change of state (a concurrent `stop()`) has replaced RUNNING meanwhile.
   */
  function ExitRun(l: Lifecycle, before: State): (r: Lifecycle)
    ensures IsRunning(l) ==> r.current == before
    ensures !IsRunning(l) ==> r == l
  {
    if l.current == RUNNING then SetState(l, before) else l
  }

  /** While a task runs, the agent counts as started exactly when it was started before the run. */
  lemma RunningFromStartedIsStarted(l: Lifecycle)
    ensures IsRunning(EnterRun(l))
    ensures IsStarted(EnterRun(l)) <==> l.current == STARTED
  {
  }

  /** With nothing in between, both exits restore the state found on entry and agree. */
  lemma RunBracketRestoresState(l: Lifecycle)
    ensures ExitRun(EnterRun(l), l.current).current == l.current
    ensures ExitRun(EnterRun(l), l.current) == ExitRunAsWritten(EnterRun(l))
    ensures IsStarted(ExitRun(EnterRun(l), l.current)) <==> l.current == STARTED
  {
  }

  /**
   * A `stop()` that lands while a started agent's task runs: as written, the
   * `finally` puts back RUNNING, the state `stop()` left as previous, so the agent
   * is reported running and not stopped for good.
   */
  lemma StopDuringRunAsWritten()
    ensures var running := EnterRun(Lifecycle(STARTED, Some(SET)));
      var after := ExitRunAsWritten(SetState(running, STOPPED));
      IsRunning(after) && !IsStopped(after)
  {
  }

  /** The corrected exit keeps any state another change of state has set during the run. */
  lemma StopDuringRunCorrected(l: Lifecycle, s: State)
    requires s != RUNNING
    ensures ExitRun(SetState(EnterRun(l), s), l.current).current == s
    ensures IsStopped(ExitRun(SetState(EnterRun(l), STOPPED), l.current))
  {
  }
}
