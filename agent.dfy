/**
 * A managed agent: a task with a life cycle (start, stop, run) run by a
 * single-threaded scheduled executor, either at a fixed rate (a timer agent) or
 * at the times of a Cron expression (a Cron agent), keeping a bounded history
 * of run durations.
 *
 * Each operation is specified by a function from the agent's observable state
 * (an `AgentView`) to the outcome and the new state; the `Agent` class carries
 * that state in fields and its methods are proved to follow those functions.
 */
module Agents {
  import opened Wrappers
  import opened Numerals
  import opened TimeUnits
  import opened TimeIntervals
  import opened DateUtils
  import opened AgentTypes
  import opened AgentConfigurations
  import opened AgentStates
  import opened AgentThreadFactories

  const MSG_AGENT_ALREADY_STARTED: string := "Agent already started"
  const MSG_AGENT_ALREADY_STOPPED: string := "Agent already stopped"
  const MSG_AGENT_ALREADY_RUNNING: string := "Agent task already in execution"
  const MSG_AGENT_WAS_STOPPED: string := "Agent was stopped. Please reset this agent before restarting"

  /** A parsed Cron expression: its text, and the time (ms) from an instant to the next execution, if any. */
  datatype Cron = Cron(expression: string, timeToNextExecution: Instant -> Option<nat>)

  /** What drives the agent's executions. */
  datatype Kind = TimerKind(interval: TimeInterval) | CronKind(cron: Cron)

  /** A request handed to the executor: periodic, or once after a delay (both in milliseconds). */
  datatype Task = FixedRate(initialDelay: int, period: int) | OneShot(delay: int)

  /** How the agent's own task ended: normally, after some time and at some instant, or with an exception. */
  datatype TaskOutcome = Completed(elapsed: nat, finishedAt: Instant) | Threw

  /** What an agent is fixed with at construction. */
  datatype Profile = Profile(configuration: AgentConfiguration, kind: Kind, historyCapacity: nat)

  /** What it may change afterwards. */
  datatype AgentView = AgentView(
    lifecycle: Lifecycle,
    startDate: Option<Instant>,
    lastRun: Option<Instant>,
    lastRunDuration: Option<nat>,
    history: seq<nat>,
    stopRequested: bool,
    nextExecutionDate: Option<Instant>,
    executorShutdown: bool,
    scheduled: seq<Task>)

  const NEW_VIEW: AgentView := AgentView(INITIAL, None, None, None, [], false, None, false, [])

  /** `getMaxHistorySize()`: the global maximum, never negative, or zero without statistics. */
  function MaxHistorySize(configuration: AgentConfiguration, maxAgentHistorySize: Int32): (r: nat)
    ensures !configuration.enableStatistics ==> r == 0
    ensures configuration.enableStatistics && maxAgentHistorySize >= 0 ==> r == maxAgentHistorySize
    ensures configuration.enableStatistics && maxAgentHistorySize < 0 ==> r == 0
  {
    if configuration.enableStatistics && maxAgentHistorySize > 0 then maxAgentHistorySize else 0
  }

  // ---------------------------------------------------------------------------
  // The history of run durations (an evicting queue)
  // ---------------------------------------------------------------------------

  /** The last `n` elements of `s` (all of them when there are fewer). */
  function Latest(s: seq<nat>, n: nat): (r: seq<nat>)
    ensures |r| == if |s| <= n then |s| else n
  {
    if |s| <= n then s else s[|s| - n..]
  }

  /** `EvictingQueue.offer`: with no room at all nothing is kept; when full the oldest is dropped. */
  function Offer(history: seq<nat>, capacity: nat, d: nat): (r: seq<nat>)
    ensures capacity == 0 ==> r == history
    ensures capacity > 0 ==> |r| > 0 && r[|r| - 1] == d
  {
    if capacity == 0 then history
    else if |history| >= capacity then history[1..] + [d]
    else history + [d]
  }

  /** A queue within its capacity keeps the latest durations, the new one last. */
  lemma OfferKeepsLatest(history: seq<nat>, capacity: nat, d: nat)
    requires |history| <= capacity
    ensures Offer(history, capacity, d) == Latest(history + [d], capacity)
    ensures |Offer(history, capacity, d)| <= capacity
    ensures capacity > 0 ==> Offer(history, capacity, d)[|Offer(history, capacity, d)| - 1] == d
  {
  }

  /** Offering a series of durations, one per run. */
  function OfferAll(history: seq<nat>, capacity: nat, ds: seq<nat>): seq<nat>
    decreases |ds|
  {
    if ds == [] then history else OfferAll(Offer(history, capacity, ds[0]), capacity, ds[1..])
  }

  /** Whatever the runs, the history holds the latest `capacity` of their durations, in order. */
  lemma {:induction false} HistoryKeepsLatestRuns(history: seq<nat>, capacity: nat, ds: seq<nat>)
    requires |history| <= capacity
    ensures OfferAll(history, capacity, ds) == Latest(history + ds, capacity)
    decreases |ds|
  {
    if ds != [] {
      var d, rest := ds[0], ds[1..];
      var next := Offer(history, capacity, d);
      OfferKeepsLatest(history, capacity, d);
      calc {
        OfferAll(history, capacity, ds);
        OfferAll(next, capacity, rest);
        { HistoryKeepsLatestRuns(next, capacity, rest); }
        Latest(next + rest, capacity);
        Latest(Latest(history + [d], capacity) + rest, capacity);
        { LatestOfLatest(history + [d], rest, capacity); }
        Latest((history + [d]) + rest, capacity);
        { assert (history + [d]) + rest == history + ds; }
        Latest(history + ds, capacity);
      }
    }
  }

  /** Trimming before appending more does not change what the trim after keeps. */
  lemma LatestOfLatest(s: seq<nat>, t: seq<nat>, n: nat)
    ensures Latest(Latest(s, n) + t, n) == Latest(s + t, n)
  {
    if |s| > n {
      var m := |s| - n;
      assert s + t == s[..m] + (s[m..] + t);
      LatestDropsPrefix(s[..m], s[m..] + t, n);
    }
  }

  lemma LatestDropsPrefix(x: seq<nat>, y: seq<nat>, n: nat)
    requires |y| >= n
    ensures Latest(x + y, n) == Latest(y, n)
  {
    assert (x + y)[|x| + |y| - n..] == y[|y| - n..];
  }

  function Sum(s: seq<nat>): nat
  {
    if s == [] then 0 else Sum(s[..|s| - 1]) + s[|s| - 1]
  }

  /** `getAverageRunDuration()`: the mean of the history, truncated; zero for an empty history. */
  function AverageRunDuration(history: seq<nat>): (r: nat)
    ensures history == [] ==> r == 0
  {
    if history == [] then 0 else Sum(history) / |history|
  }

  lemma {:induction false} SumBounds(s: seq<nat>, low: nat, high: nat)
    requires forall i :: 0 <= i < |s| ==> low <= s[i] <= high
    ensures |s| * low <= Sum(s) <= |s| * high
  {
    if s != [] {
      var m := |s| - 1;
      SumBounds(s[..m], low, high);
      assert forall i :: 0 <= i < m ==> s[..m][i] == s[i];
      assert Sum(s) == Sum(s[..m]) + s[m] && |s[..m]| == m;
      ProductOfSuccessor(m, |s|, low);
      ProductOfSuccessor(m, |s|, high);
    }
  }

  /** The average of a non-empty history lies between its shortest and its longest run. */
  lemma AverageIsWithinBounds(history: seq<nat>, low: nat, high: nat)
    requires history != []
    requires forall i :: 0 <= i < |history| ==> low <= history[i] <= high
    ensures low <= AverageRunDuration(history) <= high
  {
    SumBounds(history, low, high);
    QuotientBounds(Sum(history), |history|, low, high);
  }

  /** A total between n times two bounds has its quotient by n between them. */
  lemma QuotientBounds(total: nat, n: nat, low: nat, high: nat)
    requires n > 0 && n * low <= total <= n * high
    ensures low <= total / n <= high
  {
    var a, r := total / n, total % n;
    assert total == a * n + r && 0 <= r < n;
    assert (a - high) * n == a * n - n * high;
    assert (low - a) * n == n * low - a * n;
    MultipleAtLeastDivisor(a - high, n);
    MultipleAtLeastDivisor(low - a, n);
  }

  /** The average of runs that all took the same time is that time. */
  lemma AverageOfEqualRuns(history: seq<nat>, d: nat)
    requires history != []
    requires forall i :: 0 <= i < |history| ==> history[i] == d
    ensures AverageRunDuration(history) == d
  {
    AverageIsWithinBounds(history, d, d);
  }

  /** The text reported for the average: disabled, or a duration (zero before the first run). */
  datatype AverageReport = NotEnabled | Mean(value: nat)

  /** `formatAverageRunDuration()`. */
  function FormatAverageRunDuration(p: Profile, v: AgentView): (r: AverageReport)
    ensures r.NotEnabled? <==> !p.configuration.enableStatistics
    ensures r.Mean? ==> r.value == AverageRunDuration(v.history)
    ensures r.Mean? && v.history == [] ==> r.value == 0
  {
    if !p.configuration.enableStatistics then NotEnabled
    else Mean(AverageRunDuration(v.history))
  }

  // ---------------------------------------------------------------------------
  // The executor
  // ---------------------------------------------------------------------------

  /** Handing a task to the executor: refused once it has been shut down. */
  function Arm(v: AgentView, task: Task): (r: Result<AgentView>)
    ensures r.Err? <==> v.executorShutdown
    ensures r.Err? ==> r.error.RejectedExecution?
    ensures r.Ok? ==> r.value == v.(scheduled := v.scheduled + [task])
  {
    if v.executorShutdown then Err(RejectedExecution("")) else Ok(v.(scheduled := v.scheduled + [task]))
  }

  /** `scheduleAtFixedRate(this, delay, period, MILLISECONDS)`: a period must be positive. */
  function ArmAtFixedRate(v: AgentView, delay: int, period: int): (r: (Outcome, AgentView))
    ensures r.0.Fail? ==> r.1 == v
    ensures period <= 0 ==> r.0 == Fail(IllegalArgument(""))
    ensures r.0.Pass? <==> period > 0 && !v.executorShutdown
    ensures r.0.Pass? ==> r.1 == v.(scheduled := v.scheduled + [FixedRate(delay, period)])
  {
    if period <= 0 then (Fail(IllegalArgument("")), v)
    else match Arm(v, FixedRate(delay, period))
      case Err(e) => (Fail(e), v)
      case Ok(v1) => (Pass, v1)
  }

  // ---------------------------------------------------------------------------
  // Timer agents
  // ---------------------------------------------------------------------------

  /**
   * `getInitialDelay()`: without modulation, none; with it, the next instant
   * aligned to the interval in a calendar read at `calendarNow`, less the clock
   * read again at `clockNow`.
   */
  function InitialDelay(modulate: bool, interval: TimeInterval, calendarNow: Instant, clockNow: Instant): (r: Result<int>)
    ensures r.Err? <==> modulate && interval.duration == 0
    ensures !modulate ==> r == Ok(0)
  {
    if !modulate then Ok(0)
    else if interval.duration == 0 then Err(Arithmetic("/ by zero"))
    else Ok(NextExactDate(interval.duration, interval.timeUnit, calendarNow) - clockNow)
  }

  /**
   * A modulated timer's first run is at most one interval away, and it is in
   * the future exactly when the second reading of the clock comes before the
   * aligned instant; with both readings at the same instant it always is.
   */
  lemma InitialDelayIsWithinOneInterval(modulate: bool, interval: TimeInterval, calendarNow: Instant, clockNow: Instant)
    requires interval.duration > 0
    requires calendarNow <= clockNow
    ensures InitialDelay(modulate, interval, calendarNow, clockNow).Ok?
    ensures modulate ==> InitialDelay(modulate, interval, calendarNow, clockNow).value <= TimeIntervals.ToMillis(interval)
    ensures modulate ==> (0 < InitialDelay(modulate, interval, calendarNow, clockNow).value <==>
                          clockNow < NextExactDate(interval.duration, interval.timeUnit, calendarNow))
    ensures modulate && calendarNow == clockNow ==> 0 < InitialDelay(modulate, interval, calendarNow, clockNow).value
  {
    NextExactDateIsWithinOneInterval(interval.duration, interval.timeUnit, calendarNow);
  }

  // ---------------------------------------------------------------------------
  // Cron agents
  // ---------------------------------------------------------------------------

  /**
   * `scheduleNextExecution(first)`: forgets the next date; for the first
   * execution, or while started with no stop requested, arms a one-shot run
   * for the next time the expression names and records that time.
   */
  function ScheduleNextExecutionStep(cron: Cron, v: AgentView, first: bool, now: Instant): (r: (Outcome, AgentView))
    ensures r.1.lifecycle == v.lifecycle && r.1.startDate == v.startDate && r.1.stopRequested == v.stopRequested
    ensures r.1.executorShutdown == v.executorShutdown && r.1.history == v.history
  {
    var v0 := v.(nextExecutionDate := None);
    if first || (IsStarted(v.lifecycle) && !v.stopRequested) then
      match cron.timeToNextExecution(now)
      case None => (Pass, v0)
      case Some(d) =>
        match Arm(v0, OneShot(d))
        case Err(e) => (Fail(e), v0)
        case Ok(v1) => (Pass, v1.(nextExecutionDate := Some(now + d)))
    else (Pass, v0)
  }

  /** The next date is set exactly when a run was armed, and then it is that run's time. */
  lemma ScheduleNextExecutionArmsOnce(cron: Cron, v: AgentView, first: bool, now: Instant)
    ensures var (o, w) := ScheduleNextExecutionStep(cron, v, first, now);
      w.lifecycle == v.lifecycle && w.history == v.history && w.stopRequested == v.stopRequested &&
      (w.nextExecutionDate.Some? <==> w.scheduled != v.scheduled) &&
      (w.nextExecutionDate.Some? <==>
        (first || (IsStarted(v.lifecycle) && !v.stopRequested)) && cron.timeToNextExecution(now).Some? && !v.executorShutdown) &&
      (w.nextExecutionDate.Some? ==>
        var d := cron.timeToNextExecution(now).value;
        w.nextExecutionDate == Some(now + d) && w.scheduled == v.scheduled + [OneShot(d)]) &&
      (o.Fail? <==> (first || (IsStarted(v.lifecycle) && !v.stopRequested)) && cron.timeToNextExecution(now).Some? && v.executorShutdown)
  {
  }

  // ---------------------------------------------------------------------------
  // The life cycle
  // ---------------------------------------------------------------------------

  /** `onStart()`: a timer arms its periodic run; a Cron agent schedules its first execution. */
  function OnStartStep(p: Profile, v: AgentView, now: Instant): (r: (Outcome, AgentView))
    ensures r.1.lifecycle == v.lifecycle && r.1.stopRequested == v.stopRequested
    ensures r.1.executorShutdown == v.executorShutdown && r.1.history == v.history
    ensures r.0.Fail? && p.kind.TimerKind? ==> r.1 == v
  {
    match p.kind
    case TimerKind(interval) =>
      (match InitialDelay(p.configuration.modulate, interval, now, now)
       case Err(e) => (Fail(e), v)
       case Ok(delay) => ArmAtFixedRate(v, delay, TimeIntervals.ToMillis(interval)))
    case CronKind(cron) => ScheduleNextExecutionStep(cron, v, true, now)
  }

  /** `start()`: refused when started or stopped; otherwise `onStart()`, then STARTED from now. */
  function StartStep(p: Profile, v: AgentView, now: Instant): (r: (Outcome, AgentView))
    ensures v.lifecycle.current in {STARTED, STOPPED} ==> r.0.Fail? && r.1 == v
    ensures r.0.Fail? ==> r.1.lifecycle == v.lifecycle && r.1.startDate == v.startDate
    ensures r.0.Pass? ==> r.1.lifecycle == Lifecycle(STARTED, Some(v.lifecycle.current)) && r.1.startDate == Some(now)
  {
    if v.lifecycle.current == STARTED then (Fail(IllegalState(MSG_AGENT_ALREADY_STARTED)), v)
    else if v.lifecycle.current == STOPPED then (Fail(IllegalState(MSG_AGENT_WAS_STOPPED)), v)
    else if IsStarted(v.lifecycle) then (Fail(IllegalState(MSG_AGENT_ALREADY_STARTED)), v)
    else
      var (o, v1) := OnStartStep(p, v, now);
      if o.Fail? then (o, v1)
      else (Pass, v1.(lifecycle := SetState(v1.lifecycle, STARTED), startDate := Some(now)))
  }

  /** `onStop()`: the executor is shut down; a Cron agent also forgets its next date. */
  function OnStopStep(p: Profile, v: AgentView): (r: AgentView)
    ensures r.executorShutdown && r.lifecycle == v.lifecycle && r.history == v.history
    ensures p.kind.CronKind? ==> r.nextExecutionDate.None?
  {
    match p.kind
    case TimerKind(_) => v.(executorShutdown := true)
    case CronKind(_) => v.(executorShutdown := true, nextExecutionDate := None)
  }

  /** `stop()`: the request is recorded first; refused when already stopped; otherwise STOPPED. */
  function StopStep(p: Profile, v: AgentView): (r: (Outcome, AgentView))
    ensures r.1.stopRequested
    ensures r.0.Fail? <==> IsStopped(v.lifecycle)
    ensures r.0.Fail? ==> r.0.error == IllegalState(MSG_AGENT_ALREADY_STOPPED) && r.1 == v.(stopRequested := true)
    ensures r.0.Pass? ==> IsStopped(r.1.lifecycle) && r.1.executorShutdown && r.1.startDate.None?
  {
    var v0 := v.(stopRequested := true);
    if IsStopped(v.lifecycle) then (Fail(IllegalState(MSG_AGENT_ALREADY_STOPPED)), v0)
    else
      var v1 := OnStopStep(p, v0);
      (Pass, v1.(lifecycle := SetState(v1.lifecycle, STOPPED), startDate := None))
  }

  /** `updateStatistics(duration)`: the last duration, and the history when statistics are enabled. */
  function UpdateStatisticsStep(p: Profile, v: AgentView, elapsed: nat): (r: AgentView)
    ensures r.lastRunDuration == Some(elapsed) && r.lifecycle == v.lifecycle && r.scheduled == v.scheduled
    ensures !p.configuration.enableStatistics ==> r.history == v.history
  {
    v.(lastRunDuration := Some(elapsed),
       history := if p.configuration.enableStatistics then Offer(v.history, p.historyCapacity, elapsed) else v.history)
  }

  /** `afterRun()`: nothing for a timer; a Cron agent schedules its next execution (a failure is swallowed). */
  function AfterRunStep(p: Profile, v: AgentView, now: Instant): (r: AgentView)
    ensures p.kind.TimerKind? ==> r == v
    ensures r.lifecycle == v.lifecycle && r.lastRunDuration == v.lastRunDuration && r.history == v.history
  {
    match p.kind
    case TimerKind(_) => v
    case CronKind(cron) => ScheduleNextExecutionStep(cron, v, false, now).1
  }

  /**
   * `run(manual)`: a scheduled run after a stop request does nothing; a run
   * while RUNNING does nothing, or fails when manual; otherwise the agent's task runs
   * in state RUNNING, its statistics and `afterRun()` follow when it completes,
   * and the state found on entry comes back.
   */
  function RunStep(p: Profile, v: AgentView, manual: bool, now: Instant, task: TaskOutcome): (r: (Outcome, AgentView))
    ensures r.0.Fail? <==> manual && IsRunning(v.lifecycle)
    ensures r.0.Fail? ==> r == (Fail(IllegalState(MSG_AGENT_ALREADY_RUNNING)), v)
    ensures r.1.lifecycle.current == v.lifecycle.current && r.1.stopRequested == v.stopRequested
  {
    if v.stopRequested && !manual then (Pass, v)
    else if IsRunning(v.lifecycle) then
      if manual then (Fail(IllegalState(MSG_AGENT_ALREADY_RUNNING)), v) else (Pass, v)
    else
      var before := v.lifecycle.current;
      var v1 := v.(lifecycle := EnterRun(v.lifecycle), lastRun := Some(now));
      var v2 := match task
        case Threw => v1
        case Completed(elapsed, finishedAt) => AfterRunStep(p, UpdateStatisticsStep(p, v1, elapsed), finishedAt);
      (Pass, v2.(lifecycle := ExitRun(v2.lifecycle, before)))
  }

  // ---------------------------------------------------------------------------
  // What holds between operations
  // ---------------------------------------------------------------------------

  ghost predicate ValidProfile(p: Profile)
  {
    (!p.configuration.enableStatistics ==> p.historyCapacity == 0) &&
    (p.kind.TimerKind? <==> p.configuration.agentType == TIMER)
  }

  /**
   * Between operations an agent is never RUNNING; it is stopped exactly when a
   * stop was requested and its executor shut down; it has a start date exactly
   * when started; its history is within capacity; a timer has no next date.
   */
  ghost predicate ValidView(p: Profile, v: AgentView)
  {
    v.lifecycle.current != RUNNING &&
    (v.stopRequested <==> v.lifecycle.current == STOPPED) &&
    (v.executorShutdown <==> v.lifecycle.current == STOPPED) &&
    (v.startDate.Some? <==> v.lifecycle.current == STARTED) &&
    |v.history| <= p.historyCapacity &&
    (p.kind.TimerKind? ==> v.nextExecutionDate.None?)
  }

  lemma NewViewIsValid(p: Profile)
    ensures ValidView(p, NEW_VIEW)
    ensures !IsStarted(NEW_VIEW.lifecycle) && !IsRunning(NEW_VIEW.lifecycle) && !IsStopped(NEW_VIEW.lifecycle)
  {
  }

  lemma StartKeepsValid(p: Profile, v: AgentView, now: Instant)
    requires ValidView(p, v)
    ensures ValidView(p, StartStep(p, v, now).1)
  {
  }

  lemma StopKeepsValid(p: Profile, v: AgentView)
    requires ValidView(p, v)
    ensures ValidView(p, StopStep(p, v).1)
  {
  }

  lemma RunKeepsValid(p: Profile, v: AgentView, manual: bool, now: Instant, task: TaskOutcome)
    requires ValidProfile(p) && ValidView(p, v)
    ensures ValidView(p, RunStep(p, v, manual, now, task).1)
  {
    if task.Completed? && !(v.stopRequested && !manual) {
      OfferKeepsLatest(v.history, p.historyCapacity, task.elapsed);
    }
  }

  /**
   * A valid agent starts exactly when it is SET and its first run can be
   * armed: a timer needs a positive period and, when modulated, a non-zero
   * duration; a Cron agent always starts. The executor never refuses it.
   */
  lemma StartSucceedsIff(p: Profile, v: AgentView, now: Instant)
    requires ValidView(p, v)
    ensures StartStep(p, v, now).0.Pass? <==>
      v.lifecycle.current in {SET, ERROR} &&
      (p.kind.TimerKind? ==> TimeIntervals.ToMillis(p.kind.interval) > 0 && (p.configuration.modulate ==> p.kind.interval.duration != 0))
    ensures StartStep(p, v, now).0.Fail? ==> !StartStep(p, v, now).0.error.RejectedExecution?
    ensures StartStep(p, v, now).0.Pass? ==> var w := StartStep(p, v, now).1;
      w.lifecycle == Lifecycle(STARTED, Some(v.lifecycle.current)) && w.startDate == Some(now) && IsStarted(w.lifecycle)
  {
  }

  /** A started agent refuses a second start; a stopped one refuses any start until reset. */
  lemma StartIsRefusedWhenStartedOrStopped(p: Profile, v: AgentView, now: Instant)
    ensures v.lifecycle.current == STARTED ==> StartStep(p, v, now) == (Fail(IllegalState(MSG_AGENT_ALREADY_STARTED)), v)
    ensures v.lifecycle.current == STOPPED ==> StartStep(p, v, now) == (Fail(IllegalState(MSG_AGENT_WAS_STOPPED)), v)
  {
  }

  /** After a successful stop the agent is stopped, a second stop fails, and no start succeeds. */
  lemma StopIsFinal(p: Profile, v: AgentView, now: Instant)
    requires StopStep(p, v).0.Pass?
    ensures var w := StopStep(p, v).1;
      IsStopped(w.lifecycle) && w.stopRequested && w.executorShutdown && w.startDate.None? &&
      StopStep(p, w).0 == Fail(IllegalState(MSG_AGENT_ALREADY_STOPPED)) &&
      StartStep(p, w, now).0 == Fail(IllegalState(MSG_AGENT_WAS_STOPPED))
    ensures p.kind.CronKind? ==> StopStep(p, v).1.nextExecutionDate.None?
  {
  }

  /** Once a stop has been requested, the executor's own runs change nothing. */
  lemma ScheduledRunAfterStopIsIgnored(p: Profile, v: AgentView, now: Instant, task: TaskOutcome)
    ensures RunStep(p, StopStep(p, v).1, false, now, task) == (Pass, StopStep(p, v).1)
  {
  }

  /** A run that finds the agent's task in execution skips it, and a manual one is refused. */
  lemma RunWhileRunningIsRefused(p: Profile, v: AgentView, now: Instant, task: TaskOutcome)
    requires IsRunning(v.lifecycle)
    ensures RunStep(p, v, true, now, task) == (Fail(IllegalState(MSG_AGENT_ALREADY_RUNNING)), v)
    ensures RunStep(p, v, false, now, task) == (Pass, v)
  {
  }

  /**
   * A valid agent's run that goes ahead comes back to the state found on entry,
   * records its start time, and, when its task throws, keeps the statistics and
   * the schedule.
   */
  lemma RunRestoresState(p: Profile, v: AgentView, manual: bool, now: Instant, task: TaskOutcome)
    requires ValidView(p, v)
    requires manual || !v.stopRequested
    ensures var (o, w) := RunStep(p, v, manual, now, task);
      o == Pass && w.lifecycle.current == v.lifecycle.current && w.lastRun == Some(now) &&
      w.startDate == v.startDate && w.stopRequested == v.stopRequested && w.executorShutdown == v.executorShutdown &&
      (task.Threw? ==> w == v.(lifecycle := w.lifecycle, lastRun := Some(now)))
  {
  }

  /** A completed run records its duration, and the history keeps the latest ones when statistics are on. */
  lemma CompletedRunRecordsDuration(p: Profile, v: AgentView, manual: bool, now: Instant, elapsed: nat, finishedAt: Instant)
    requires ValidView(p, v)
    requires manual || !v.stopRequested
    ensures var w := RunStep(p, v, manual, now, Completed(elapsed, finishedAt)).1;
      w.lastRunDuration == Some(elapsed) &&
      w.history == (if p.configuration.enableStatistics then Latest(v.history + [elapsed], p.historyCapacity) else v.history)
  {
    OfferKeepsLatest(v.history, p.historyCapacity, elapsed);
  }

  /** Statistics on, a new agent reports a zero average, and its first completed run sets the average to that run's time. */
  lemma FirstRunSetsAverage(p: Profile, v: AgentView, manual: bool, now: Instant, elapsed: nat, finishedAt: Instant)
    requires ValidView(p, v) && v.history == []
    requires p.configuration.enableStatistics && p.historyCapacity > 0
    requires manual || !v.stopRequested
    ensures FormatAverageRunDuration(p, v) == Mean(0)
    ensures FormatAverageRunDuration(p, RunStep(p, v, manual, now, Completed(elapsed, finishedAt)).1) == Mean(elapsed)
  {
    var w := RunStep(p, v, manual, now, Completed(elapsed, finishedAt)).1;
    assert w.history == [elapsed] by {
      CompletedRunRecordsDuration(p, v, manual, now, elapsed, finishedAt);
      assert v.history + [elapsed] == [elapsed];
    }
    AverageOfEqualRuns(w.history, elapsed);
  }

  /**
   * A started Cron agent's completed run arms the next execution the
   * expression names, counted from the end of the run; an agent that was not
   * started (a manual run of a SET agent) arms nothing.
   */
  lemma CronRunSchedulesNext(p: Profile, v: AgentView, manual: bool, now: Instant, elapsed: nat, finishedAt: Instant)
    requires p.kind.CronKind? && ValidView(p, v)
    requires manual || !v.stopRequested
    ensures var w := RunStep(p, v, manual, now, Completed(elapsed, finishedAt)).1;
      var next := p.kind.cron.timeToNextExecution(finishedAt);
      (v.lifecycle.current == STARTED && next.Some? ==>
        w.nextExecutionDate == Some(finishedAt + next.value) && w.scheduled == v.scheduled + [OneShot(next.value)]) &&
      (v.lifecycle.current != STARTED ==> w.nextExecutionDate.None? && w.scheduled == v.scheduled)
  {
  }

  /**
   * A timer that starts arms one periodic run with its interval as period;
   * modulated, the first run is within one interval, otherwise immediate.
   */
  lemma TimerStartArmsFixedRate(p: Profile, v: AgentView, now: Instant)
    requires p.kind.TimerKind? && ValidView(p, v)
    requires StartStep(p, v, now).0.Pass?
    ensures var w := StartStep(p, v, now).1;
      |w.scheduled| == |v.scheduled| + 1 && w.scheduled[..|v.scheduled|] == v.scheduled &&
      var task := w.scheduled[|v.scheduled|];
      task.FixedRate? && task.period == TimeIntervals.ToMillis(p.kind.interval) &&
      (!p.configuration.modulate ==> task.initialDelay == 0) &&
      (p.configuration.modulate ==> 0 < task.initialDelay <= task.period)
  {
    var interval := p.kind.interval;
    assert interval.duration > 0;
    InitialDelayIsWithinOneInterval(p.configuration.modulate, interval, now, now);
  }

  // ---------------------------------------------------------------------------
  // Construction
  // ---------------------------------------------------------------------------

  /**
   * What constructing an agent depends on outside the configuration: the
   * maximum history size of the global configuration, the Cron parser, and the
   * classes that can be instantiated reflectively.
   */
  datatype Environment = Environment(
    maxAgentHistorySize: Int32,
    parseCron: string -> Result<Cron>,
    instantiable: set<string>)

  /** The `TimerAgent` constructor's own checks, in order: the type, then the interval. */
  function TimerKindOf(configuration: AgentConfiguration): (r: Result<Kind>)
    ensures r.Ok? <==> configuration.agentType == TIMER && Of(configuration.interval).Ok?
    ensures configuration.agentType != TIMER ==> r == Err(IllegalArgument("Not a timer agent"))
    ensures configuration.agentType == TIMER && Of(configuration.interval).Err? ==> r == Err(Of(configuration.interval).error)
    ensures r.Ok? ==> r.value == TimerKind(Of(configuration.interval).value)
  {
    if configuration.agentType != TIMER then Err(IllegalArgument("Not a timer agent"))
    else
      var interval :- Of(configuration.interval);
      Ok(TimerKind(interval))
  }

  /** The `CronAgent` constructor's own checks, in order: the type, then the expression. */
  function CronKindOf(configuration: AgentConfiguration, parseCron: string -> Result<Cron>): (r: Result<Kind>)
    ensures r.Ok? <==> configuration.agentType == CRON && parseCron(configuration.interval).Ok?
    ensures configuration.agentType != CRON ==> r == Err(IllegalArgument("Not a cron agent"))
    ensures configuration.agentType == CRON && parseCron(configuration.interval).Err? ==> r == Err(parseCron(configuration.interval).error)
    ensures r.Ok? ==> r.value == CronKind(parseCron(configuration.interval).value)
  {
    if configuration.agentType != CRON then Err(IllegalArgument("Not a cron agent"))
    else
      var cron :- parseCron(configuration.interval);
      Ok(CronKind(cron))
  }

  /** After those checks, the thread factory refuses an empty agent name. */
  function WithThreadFactory(configuration: AgentConfiguration, kind: Result<Kind>): (r: Result<Kind>)
    ensures kind.Err? ==> r == kind
    ensures kind.Ok? && configuration.name == "" ==> r == Err(IllegalArgument("The agent name is mandatory"))
    ensures kind.Ok? && configuration.name != "" ==> r == kind
  {
    if kind.Err? then kind
    else if configuration.name == "" then Err(IllegalArgument("The agent name is mandatory"))
    else kind
  }

  class Agent {
    const configuration: AgentConfiguration
    const kind: Kind
    const historyCapacity: nat
    const threadFactory: AgentThreadFactory

    var currentState: State
    var previousState: Option<State>
    var startDate: Option<Instant>
    var lastRun: Option<Instant>
    var lastRunDuration: Option<nat>
    var executionDurationHistory: seq<nat>
    var stopRequested: bool
    var nextExecutionDate: Option<Instant>
    var executorShutdown: bool
    var scheduled: seq<Task>

    function Settings(): Profile
    {
      Profile(configuration, kind, historyCapacity)
    }

    function View(): AgentView
      reads this
    {
      AgentView(Lifecycle(currentState, previousState), startDate, lastRun, lastRunDuration,
        executionDurationHistory, stopRequested, nextExecutionDate, executorShutdown, scheduled)
    }

    ghost predicate Valid()
      reads this
    {
      ValidProfile(Settings()) && ValidView(Settings(), View())
    }

    /** A new agent: SET, never started or run, with an empty history and an idle executor. */
    constructor (configuration: AgentConfiguration, kind: Kind, historyCapacity: nat, threadFactory: AgentThreadFactory)
      ensures this.configuration == configuration && this.kind == kind
      ensures this.historyCapacity == historyCapacity && this.threadFactory == threadFactory
      ensures View() == NEW_VIEW
    {
      this.configuration := configuration;
      this.kind := kind;
      this.historyCapacity := historyCapacity;
      this.threadFactory := threadFactory;
      currentState, previousState := SET, None;
      startDate, lastRun, lastRunDuration := None, None, None;
      executionDurationHistory := [];
      stopRequested, nextExecutionDate, executorShutdown := false, None, false;
      scheduled := [];
    }

    method SetState(s: State)
      modifies this
      ensures View() == old(View()).(lifecycle := AgentStates.SetState(old(View()).lifecycle, s))
    {
      previousState := Some(currentState);
      currentState := s;
    }

    /** Hands a task to the executor. */
    method Schedule(task: Task) returns (r: Outcome)
      modifies this
      ensures var a := Arm(old(View()), task);
        (r.Pass? <==> a.Ok?) && (a.Ok? ==> View() == a.value) && (a.Err? ==> r == Fail(a.error) && View() == old(View()))
    {
      if executorShutdown {
        return Fail(RejectedExecution(""));
      }
      scheduled := scheduled + [task];
      r := Pass;
    }

    /** `getInitialDelay()`, with the calendar read at `calendarNow` and the clock at `clockNow`. */
    method GetInitialDelay(calendarNow: Instant, clockNow: Instant) returns (r: Result<int>)
      requires kind.TimerKind?
      ensures r == InitialDelay(configuration.modulate, kind.interval, calendarNow, clockNow)
    {
      if !configuration.modulate {
        return Ok(0);
      }
      var start := GetNextExactDateEveryInterval(kind.interval.duration, kind.interval.timeUnit, Some(calendarNow));
      if start.Err? {
        return Err(start.error);
      }
      r := Ok(start.value - clockNow);
    }

    /** `scheduleNextExecution(first)` with the clock at `now`. */
    method ScheduleNextExecution(first: bool, now: Instant) returns (r: Outcome)
      requires kind.CronKind?
      modifies this
      ensures (r, View()) == ScheduleNextExecutionStep(kind.cron, old(View()), first, now)
    {
      nextExecutionDate := None;
      if first || (IsStarted(Lifecycle(currentState, previousState)) && !stopRequested) {
        var next := kind.cron.timeToNextExecution(now);
        if next.Some? {
          r := Schedule(OneShot(next.value));
          if r.Fail? {
            return;
          }
          nextExecutionDate := Some(now + next.value);
          return;
        }
      }
      r := Pass;
    }

    method OnStart(now: Instant) returns (r: Outcome)
      modifies this
      ensures (r, View()) == OnStartStep(Settings(), old(View()), now)
    {
      match kind
      case TimerKind(interval) =>
        var delay := GetInitialDelay(now, now);
        if delay.Err? {
          return Fail(delay.error);
        }
        var period := TimeIntervals.ToMillis(interval);
        if period <= 0 {
          return Fail(IllegalArgument(""));
        }
        r := Schedule(FixedRate(delay.value, period));
      case CronKind(_) =>
        r := ScheduleNextExecution(true, now);
    }

    /** `start()` with the clock at `now`. */
    method Start(now: Instant) returns (r: Outcome)
      modifies this
      ensures (r, View()) == StartStep(Settings(), old(View()), now)
    {
      if currentState == STARTED {
        return Fail(IllegalState(MSG_AGENT_ALREADY_STARTED));
      }
      if currentState == STOPPED {
        return Fail(IllegalState(MSG_AGENT_WAS_STOPPED));
      }
      if IsStarted(Lifecycle(currentState, previousState)) {
        return Fail(IllegalState(MSG_AGENT_ALREADY_STARTED));
      }
      r := OnStart(now);
      if r.Fail? {
        return;
      }
      SetState(STARTED);
      startDate := Some(now);
    }

    method OnStop()
      modifies this
      ensures View() == OnStopStep(Settings(), old(View()))
    {
      executorShutdown := true;
      if kind.CronKind? {
        nextExecutionDate := None;
      }
    }

    /** `stop()`. */
    method Stop() returns (r: Outcome)
      modifies this
      ensures (r, View()) == StopStep(Settings(), old(View()))
    {
      stopRequested := true;
      if currentState == STOPPED {
        return Fail(IllegalState(MSG_AGENT_ALREADY_STOPPED));
      }
      OnStop();
      SetState(STOPPED);
      startDate := None;
      r := Pass;
    }

    method UpdateStatistics(elapsed: nat)
      modifies this
      ensures View() == UpdateStatisticsStep(Settings(), old(View()), elapsed)
    {
      lastRunDuration := Some(elapsed);
      if configuration.enableStatistics {
        executionDurationHistory := Offer(executionDurationHistory, historyCapacity, elapsed);
      }
    }

    method AfterRun(now: Instant)
      modifies this
      ensures View() == AfterRunStep(Settings(), old(View()), now)
    {
      if kind.CronKind? {
        var _ := ScheduleNextExecution(false, now);
      }
    }

    /** `run(manual)`, started at `now`, with the agent's task ending as `task` says. */
    method Run(manual: bool, now: Instant, task: TaskOutcome) returns (r: Outcome)
      modifies this
      ensures (r, View()) == RunStep(Settings(), old(View()), manual, now, task)
    {
      if stopRequested && !manual {
        return Pass;
      }
      if currentState == RUNNING {
        if manual {
          return Fail(IllegalState(MSG_AGENT_ALREADY_RUNNING));
        }
        return Pass;
      }
      var before := currentState;
      SetState(RUNNING);
      lastRun := Some(now);
      if task.Completed? {
        UpdateStatistics(task.elapsed);
        AfterRun(task.finishedAt);
      }
      // The corrected exit of `AgentStates.ExitRun`: restore the entry state
      // unless the run set another one. Here the task runs in one step, so no
      // `stop()` can interleave and the state is always still RUNNING.
      if currentState == RUNNING {
        SetState(before);
      }
      r := Pass;
    }

    /** `getNextExecutionDate()` of a Cron agent. */
    function NextExecutionDate(): (r: Option<Instant>)
      reads this
      ensures r == View().nextExecutionDate
    {
      nextExecutionDate
    }
  }

  /** `new DynamicTimerAgent(configuration)` up to the reflective part: a SET timer agent, or the constructor's error. */
  method NewTimerAgent(configuration: AgentConfiguration, env: Environment) returns (r: Result<Agent>)
    ensures var k := WithThreadFactory(configuration, TimerKindOf(configuration));
      (r.Err? <==> k.Err?) && (r.Err? ==> r.error == k.error) &&
      (r.Ok? ==> fresh(r.value) && r.value.Valid() && r.value.View() == NEW_VIEW &&
                 r.value.configuration == configuration && r.value.kind == k.value &&
                 r.value.historyCapacity == MaxHistorySize(configuration, env.maxAgentHistorySize))
  {
    var capacity := MaxHistorySize(configuration, env.maxAgentHistorySize);
    var kind :- TimerKindOf(configuration);
    var factory := NewAgentThreadFactory(Some(configuration.name));
    if factory.Err? {
      return Err(factory.error);
    }
    var agent := new Agent(configuration, kind, capacity, factory.value);
    r := Ok(agent);
  }

  /** `new DynamicCronAgent(configuration)` up to the reflective part: a SET Cron agent, or the constructor's error. */
  method NewCronAgent(configuration: AgentConfiguration, env: Environment) returns (r: Result<Agent>)
    ensures var k := WithThreadFactory(configuration, CronKindOf(configuration, env.parseCron));
      (r.Err? <==> k.Err?) && (r.Err? ==> r.error == k.error) &&
      (r.Ok? ==> fresh(r.value) && r.value.Valid() && r.value.View() == NEW_VIEW &&
                 r.value.configuration == configuration && r.value.kind == k.value &&
                 r.value.historyCapacity == MaxHistorySize(configuration, env.maxAgentHistorySize))
  {
    var capacity := MaxHistorySize(configuration, env.maxAgentHistorySize);
    var kind :- CronKindOf(configuration, env.parseCron);
    var factory := NewAgentThreadFactory(Some(configuration.name));
    if factory.Err? {
      return Err(factory.error);
    }
    var agent := new Agent(configuration, kind, capacity, factory.value);
    r := Ok(agent);
  }
}
