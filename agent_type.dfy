/**
 * The two kinds of agent and the interval each assumes when its
 * configuration names none.
 */
module AgentTypes {
  import opened Wrappers
  import opened Numerals
  import opened TimeUnits
  import opened TimeIntervals

  /** A periodic task (TIMER) or a task run at the times of a Cron expression (CRON). */
  datatype AgentType = TIMER | CRON

  /** `getDefaultInterval()`: a time interval for TIMER, a Cron expression for CRON. */
  function DefaultInterval(t: AgentType): (r: string)
    ensures |r| > 0
  {
    match t
    case TIMER => "1 minute"
    case CRON => "* * * * *"
  }

  /** The default TIMER interval reads as one minute. */
  lemma TimerDefaultIsOneMinute()
    ensures Of(DefaultInterval(TIMER)) == Ok(TimeInterval(1, MINUTES))
  {
    assert IsSeparator(" ");
    assert AllLetters("minute");
    assert EqualsIgnoreCase("minute", Identifiers(MINUTES)[0]);
    assert NatToString(1) + " " + "minute" == DefaultInterval(TIMER);
    OfDurationThenUnit(1, MINUTES, 0, " ", "minute");
  }

  /** The default CRON expression has no digit, so it is no time interval. */
  lemma CronDefaultIsNoTimeInterval()
    ensures Of(DefaultInterval(CRON)).Err?
  {
    OfFailsWithoutDuration(DefaultInterval(CRON));
  }
}
