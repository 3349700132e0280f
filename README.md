# agents — a verified model of the scheduler core

`agents` is an in-process task scheduler for the JVM. An *agent* is a task named
by an `AgentConfiguration`. It has a type: TIMER for a periodic task at a fixed
rate, or CRON for a task run at the times of a Cron expression. An
`AgentManager` creates agents from configurations, files them by name and by
class, and starts, runs, stops, removes and resets them by name.

This project models that core in Dafny and proves what it promises. The model
has one module per Java file:

| module | Java file | form |
|---|---|---|
| `TimeUnits` (`time_unit.dfy`) | `util/TimeUnit.java` | datatype and functions |
| `TimeIntervals` (`time_interval.dfy`) | `util/TimeInterval.java` | datatype, functions, lemmas |
| `DateUtils` (`date_utils.dfy`) | `util/DateUtils.java` | a method that mirrors the calendar steps, proved against a grid function |
| `AgentTypes` (`agent_type.dfy`) | `AgentType.java` | datatype and functions |
| `Sources` (`source.dfy`) | `conf/Source.java` | datatype and functions |
| `AgentConfigurations` (`agent_configuration.dfy`) | `conf/AgentConfiguration.java` | value datatype; a `Builder` class whose setters and `Build` update its fields |
| `ConfigurationHolders` (`configuration_holder.dfy`) | `conf/ConfigurationHolder.java` | functions for the index; a class that fills it once |
| `AgentStates` (`agent_state.dfy`) | the state of `AbstractAgent.java` | datatype and functions for the two state fields |
| `Agents` (`agent.dfy`) | `AbstractAgent.java`, `TimerAgent.java`, `CronAgent.java` | one `Agent` class; the state it changes is also an `AgentView` value |
| `AgentFactories` (`agent_factory.dfy`) | `util/AgentFactory.java`, `impl/Dynamic*Agent.java` | function and method |
| `AgentManagers` (`agent_manager.dfy`) | `AgentManager.java` | an `AgentManager` class over two maps; a `Registry` value of their configurations |
| `Functions` (`functions.dfy`) | `util/Functions.java` | functions and lemmas |
| `AgentThreadFactories` (`agent_thread_factory.dfy`) | `util/AgentThreadFactory.java` | a class with a counter |

Helper modules: `Wrappers` (Option, Result, Outcome, the exception kinds) and
`Numerals` (Java `int` and `long` ranges, 32-bit wrap-around, truncating `/`
and `%`, decimal text). `Hashing` and `StringOrder` model what the JDK's
`String.hashCode` and `String.compareTo` compute. The model needs them for
`hashCode` and for the key order of a `TreeMap<String, …>`.

How the Java maps onto Dafny:

- **Agent classes.** `AbstractAgent`, `TimerAgent` and `CronAgent` form a small
  class hierarchy. Here they are one class, `Agents.Agent`, with a `Kind`: a
  parsed `TimeInterval` for a timer, or a parsed Cron expression for a Cron agent.
- **Methods and step functions.** Each method of the class (`Start`, `Stop`,
  `Run`, `OnStart`, `ScheduleNextExecution`, …) updates the agent's fields.
  Its `ensures` ties the new fields to a step function of the old ones
  (`StartStep`, `StopStep`, `RunStep`, …). The lifecycle rules are proved about
  those functions. `ValidView` is the invariant each step keeps.
- **The executor.** It is modelled by two fields: a list of every task handed to
  it (`FixedRate(delay, period)` or `OneShot(delay)`) and a shut-down flag.
  Arming a shut-down executor fails with RejectedExecution, as in the JDK.
- **Outside inputs.** The clock is a `now: Instant` parameter, in
  milliseconds on a UTC timeline. The agent's own task is a `TaskOutcome`
  parameter: it completed after some time, or it threw. Cron parsing and
  evaluation, reflective class preparation and the global history size come in
  as an `Environment`.
- **Nulls.** Where the source checks for null, the model takes an `Option`.

Where files of different revisions disagree, the model follows the code that
uses a value. `AgentConfiguration.java` in this revision has no `modulate` or
`enableStatistics` field. `AbstractAgent` and `TimerAgent` read both fields,
and `annotation/Agent.java` declares them with default `false`, so the model
has them as booleans defaulting to false. `GlobalConfiguration` here has no
maximum history size, which `AbstractAgent.getMaxHistorySize` reads. The model
takes that value as the `Environment` parameter `maxAgentHistorySize`.

## Model

Paths are relative to the repository root.

| member | source | states |
|---|---|---|
| TimeUnits.FindByIdentifier | src/main/java/net/obvj/agents/util/TimeUnit.java:88-94 | the unit found is one the text identifies; an error means no unit is identified by it, with the "Invalid time unit identifier" message |
| TimeUnits.DisplayText | src/main/java/net/obvj/agents/util/TimeUnit.java:125-129 | the text a unit prints as is one of that unit's own identifiers, so a printed unit reads back (`PrintedUnitRun`) |
| TimeUnits.FindByIdentifierIsExact | src/main/java/net/obvj/agents/util/TimeUnit.java:88-109 | lookup succeeds with `u` exactly when the text identifies `u` |
| TimeUnits.IdentifiersAreDisjoint | src/main/java/net/obvj/agents/util/TimeUnit.java:35-54 | no text identifies two different units, so the lookup result is determined |
| TimeUnits.IdentifierStartsWithInitial | src/main/java/net/obvj/agents/util/TimeUnit.java:35-54 | every alias of a unit starts with that unit's letter, ignoring case (the reason the alias lists are disjoint) |
| TimeUnits.FindByAnySpelling | src/main/java/net/obvj/agents/util/TimeUnit.java:104-109 | any spelling of any alias, in any letter case, finds its unit |
| TimeUnits.NullOrEmptyIdentifiesNothing | src/main/java/net/obvj/agents/util/TimeUnit.java:106 | a null or empty identifier names no unit, and the lookup fails for both |
| TimeUnits.ToMillis | src/main/java/net/obvj/agents/util/TimeUnit.java:138-141 | the amount times the unit's milliseconds (1000, 60000, 3600000), saturated to the `long` range |
| TimeUnits.IntDurationToMillisIsExact | src/main/java/net/obvj/agents/util/TimeUnit.java:138-141 | an `int` amount never saturates: the result is exactly amount times the scale |
| TimeUnits.Convert | src/main/java/net/obvj/agents/util/TimeUnit.java:151-154 | to a finer unit: multiply by the ratio, saturating; to a coarser unit: divide by the ratio, truncating toward zero |
| TimeUnits.ConvertRoundTrip | src/main/java/net/obvj/agents/util/TimeUnit.java:151-154 | converting to a finer unit and back gives the amount again when nothing saturates |
| TimeIntervals.FindFirstRun | src/main/java/net/obvj/agents/util/TimeInterval.java:97-124 | none exactly when no character is in the class; otherwise the bounds of the first maximal run of class characters |
| TimeIntervals.FirstRunIsUnique | src/main/java/net/obvj/agents/util/TimeInterval.java:97-124 | the first maximal run is unique |
| TimeIntervals.FindFirstRunIs | src/main/java/net/obvj/agents/util/TimeInterval.java:97-124 | the search returns any bounds that form the first maximal run |
| TimeIntervals.ParseInt | src/main/java/net/obvj/agents/util/TimeInterval.java:103 | a digit string reads as its decimal value when that fits in an `int`, and otherwise fails with an IllegalArgument error |
| TimeIntervals.ExtractFirstDigitGroupFrom | src/main/java/net/obvj/agents/util/TimeInterval.java:97-105 | a text without digits fails with "No digit found"; otherwise the result is the value of the first maximal digit run, and an error exactly when that overflows an `int` |
| TimeIntervals.ExtractFirstLetterGroupFrom | src/main/java/net/obvj/agents/util/TimeInterval.java:116-124 | empty exactly when there is no ASCII letter; otherwise the first maximal letter run |
| TimeIntervals.Of | src/main/java/net/obvj/agents/util/TimeInterval.java:76-85 | a parsed duration is never negative and every refusal is an IllegalArgumentException; what `of` returns is stated exactly by `OfIsExact` (against `Denotes`), `OfFailsWithoutDuration` and `OfFailsOnUnknownUnit` |
| TimeIntervals.OfIsSound | src/main/java/net/obvj/agents/util/TimeInterval.java:76-85 | what `of` returns, the text denotes: the first digit run's value, and the unit of the first letter run or the default unit when there is no letter |
| TimeIntervals.OfIsComplete | src/main/java/net/obvj/agents/util/TimeInterval.java:76-85 | every interval the text denotes is what `of` returns |
| TimeIntervals.OfIsExact | src/main/java/net/obvj/agents/util/TimeInterval.java:76-85 | `of` succeeds with `t` if and only if the text denotes `t` |
| TimeIntervals.OfFailsWithoutDuration | src/main/java/net/obvj/agents/util/TimeInterval.java:104 | a text without a digit fails with "No digit found in input string" |
| TimeIntervals.OfFailsOnUnknownUnit | src/main/java/net/obvj/agents/util/TimeInterval.java:80-82 | a text with a readable duration whose first letter run names no unit fails with the lookup's "Invalid time unit identifier" message for that run |
| TimeIntervals.OfRefuses | src/test/java/net/obvj/agents/util/TimeIntervalTest.java:42-97 | "1byte", "" and "minute" are refused |
| TimeIntervals.OfFromRuns | src/main/java/net/obvj/agents/util/TimeInterval.java:76-85 | given a text's first digit run and first letter run, `of` gives their value and unit |
| TimeIntervals.OfDurationThenUnit | src/main/java/net/obvj/agents/util/TimeInterval.java:76-85 | a number, any separator without digits or letters, then any spelling of a unit reads as that number of that unit |
| TimeIntervals.OfUnitThenDuration | src/main/java/net/obvj/agents/util/TimeInterval.java:76-85 | the same with the unit written first ("hour=3") |
| TimeIntervals.RunAt | src/main/java/net/obvj/agents/util/TimeInterval.java:97-124 | a run placed after a prefix with no class characters and ended by a non-class character is the first run |
| TimeIntervals.LeadingLetterRun | src/main/java/net/obvj/agents/util/TimeInterval.java:116-124 | in "unit, separator, number", the unit's spelling is the first letter run |
| TimeIntervals.TrailingDigitRun | src/main/java/net/obvj/agents/util/TimeInterval.java:97-105 | in "unit, separator, number", the number is the first digit run and reads back as its value |
| TimeIntervals.LeadingDigitRun | src/main/java/net/obvj/agents/util/TimeInterval.java:97-105 | a number written before a text that does not start with a digit is the first digit run and reads back as its value |
| TimeIntervals.TrailingLetterRun | src/main/java/net/obvj/agents/util/TimeInterval.java:116-124 | in "number, separator, unit", the unit's spelling is the first letter run and identifies the unit |
| TimeIntervals.SkipOutside | src/main/java/net/obvj/agents/util/TimeInterval.java:97-124 | the first class character at or after a position, or the end |
| TimeIntervals.SkipInside | src/main/java/net/obvj/agents/util/TimeInterval.java:97-124 | the end of the run of class characters starting at a position |
| TimeIntervals.NoRunWithoutClassCharacter | src/main/java/net/obvj/agents/util/TimeInterval.java:97-124 | a text with no class character has no first run |
| TimeIntervals.OfReadsDecimalPoint | src/test/java/net/obvj/agents/util/TimeIntervalTest.java:28-40 | "35.5s" reads as 35 seconds |
| TimeIntervals.OfReadsDecimalComma | src/test/java/net/obvj/agents/util/TimeIntervalTest.java:28-40 | "40,5s" reads as 40 seconds |
| TimeIntervals.OfReadsBlankPaddedDuration | src/test/java/net/obvj/agents/util/TimeIntervalTest.java:76-77 | " 30 " reads as 30 minutes, the default unit |
| TimeIntervals.OfReadsUnderscoredUnit | src/test/java/net/obvj/agents/util/TimeIntervalTest.java:68-91 | "35_MINUTE" reads as 35 minutes |
| TimeIntervals.OfReadsHyphenatedUnit | src/test/java/net/obvj/agents/util/TimeIntervalTest.java:68-91 | "12-HOURS" reads as 12 hours |
| TimeIntervals.OfReadsUnitFirst | src/test/java/net/obvj/agents/util/TimeIntervalTest.java:82 | "hour=3" reads as 3 hours |
| TimeIntervals.ToMillis | src/main/java/net/obvj/agents/util/TimeInterval.java:151-154 | the duration times the unit's milliseconds, exactly |
| TimeIntervals.ToString | src/main/java/net/obvj/agents/util/TimeInterval.java:163-167 | no contract of its own: `ToStringThenOfRoundTrip` proves that `of` reads the printed text back to the interval, and `IntervalTextExamples` gives "10 second(s)" |
| TimeIntervals.ToStringThenOfRoundTrip | src/main/java/net/obvj/agents/util/TimeInterval.java:163-167 | printing an interval of non-negative duration and parsing the text gives the interval back |
| TimeIntervals.PrintedDurationRun | src/main/java/net/obvj/agents/util/TimeInterval.java:163-167 | the printed duration is the first digit run of the printed text and reads back as the duration |
| TimeIntervals.PrintedUnitRun | src/main/java/net/obvj/agents/util/TimeInterval.java:163-167 | the word of the printed unit is the first letter run of the printed text and identifies the unit |
| TimeIntervals.IntervalTextExamples | src/test/java/net/obvj/agents/util/TimeIntervalTest.java:121-140 | "2 seconds" is 2000 ms, and 10 seconds prints as "10 second(s)" |
| TimeIntervals.Copy | src/main/java/net/obvj/agents/util/TimeInterval.java:56-59 | the copy of an interval is equal to it; a null source is the implicit NullPointerException of `source.getDuration()`, with no message |
| DateUtils.GetNextExactDateEveryInterval | src/main/java/net/obvj/agents/util/DateUtils.java:159-187 | a null calendar is refused; a zero interval is "/ by zero"; otherwise the calendar steps, with `timeDiff` computed in 32-bit int arithmetic, give the next instant on the unit grid |
| DateUtils.GetNextExactDateEveryIntervalFromDate | src/main/java/net/obvj/agents/util/DateUtils.java:130-135 | the Date overload refuses null and otherwise agrees with the Calendar overload |
| DateUtils.NextExactDate | src/main/java/net/obvj/agents/util/DateUtils.java:159-187 | no contract of its own: the grid form of the next exact date, including the forward step where `interval - time % interval` overflows for an interval within 59 of Integer.MIN_VALUE, which `GetNextExactDateEveryInterval` is proved to compute and `NextExactDateIsWithinOneInterval`, `NextExactDateIsTruncated` and `NextExactDateIsAligned` characterise |
| DateUtils.ClearFinerFields | src/main/java/net/obvj/agents/util/DateUtils.java:174-184 | clearing MINUTE for HOURS, SECOND for HOURS and MINUTES, and MILLISECOND always, falling through as the switch does, takes the date down to the start of its unit |
| DateUtils.AdvanceMatchesSteps | src/main/java/net/obvj/agents/util/DateUtils.java:164-172 | the two `add` steps, with the wrapped int `timeDiff`, move the date by the remainder-based advance, in whole units, for every non-zero int interval |
| DateUtils.AdvanceIsLeastStepToMultiple | src/main/java/net/obvj/agents/util/DateUtils.java:164-172 | for a positive interval the advance is between 1 and the interval, and is the least one that brings the field to a multiple of the interval |
| DateUtils.ClearingFinerFieldsIsGridFloor | src/main/java/net/obvj/agents/util/DateUtils.java:174-184 | clearing the fields finer than the unit rounds the instant down to the start of its unit |
| DateUtils.ClearMinutes | src/main/java/net/obvj/agents/util/DateUtils.java:176-177 | clearing the minute field takes the instant to its hour plus what lies below the minute |
| DateUtils.ClearSecondsAndMillis | src/main/java/net/obvj/agents/util/DateUtils.java:178-182 | clearing seconds and then milliseconds takes the instant to the start of its minute |
| DateUtils.GridShift | src/main/java/net/obvj/agents/util/DateUtils.java:167-172 | moving k whole units moves the unit count by k |
| DateUtils.NextExactDateIsWithinOneInterval | src/main/java/net/obvj/agents/util/DateUtils.java:164-172 | the result is strictly later than the source and at most one interval later |
| DateUtils.NextExactDateIsTruncated | src/main/java/net/obvj/agents/util/DateUtils.java:174-184 | the milliseconds of the result are zero, and so are the seconds above SECONDS and the minutes for HOURS |
| DateUtils.NextExactDateIsAligned | src/main/java/net/obvj/agents/util/DateUtils.java:164-172 | when the interval divides the field's range (60 or 24), the result's field is a multiple of the interval |
| DateUtils.FieldOfSum | src/main/java/net/obvj/agents/util/DateUtils.java:164-172 | a carry into the next field keeps the field a multiple of the interval when the interval divides the range |
| DateUtils.NextMinuteExample | src/test/java/net/obvj/agents/util/DateUtilsTest.java:118-220 | 1 minute from 18:15:01.123 gives 18:16:00.000 |
| DateUtils.EveryFiveMinutesExample | src/test/java/net/obvj/agents/util/DateUtilsTest.java:118-220 | 5 minutes from 18:16:01.123 gives 18:20:00.000 |
| DateUtils.EveryThirtyMinutesExample | src/test/java/net/obvj/agents/util/DateUtilsTest.java:118-220 | 30 minutes from 18:45:01.123 gives 19:00:00.000 |
| DateUtils.NextHourExample | src/test/java/net/obvj/agents/util/DateUtilsTest.java:176-182 | 1 hour from 23:38:01.123 gives midnight of the next day |
| DateUtils.EveryTwoHoursExample | src/test/java/net/obvj/agents/util/DateUtilsTest.java:118-220 | 2 hours from 17:16:01.123 gives 18:00:00.000 |
| DateUtils.EveryThirtySecondsExample | src/test/java/net/obvj/agents/util/DateUtilsTest.java:118-220 | 30 seconds from 18:01:29.123 gives 18:01:30.000 |
| DateUtils.MinIntervalWrapsExample | src/main/java/net/obvj/agents/util/DateUtils.java:164-165 | at second 1, an interval of Integer.MIN_VALUE makes `timeDiff` wrap to Integer.MAX_VALUE, so the next date is 2147483648000 ms, later and not earlier |
| DateUtils.FieldsOfAt | src/main/java/net/obvj/agents/util/DateUtils.java:159-187 | an instant built from day, hour, minute, second and millisecond has those calendar fields |
| DateUtils.FormatDate | src/main/java/net/obvj/agents/util/DateUtils.java:58-83 | a null date prints "null"; otherwise the text is a date, a 'T' and the clock time of the instant |
| DateUtils.ClockText | src/main/java/net/obvj/agents/util/DateUtils.java:58-83 | "HH:mm:ss": eight characters with colons at positions 2 and 5 |
| DateUtils.ClockTextReadsBack | src/main/java/net/obvj/agents/util/DateUtils.java:58-83 | the three digit pairs of the clock text read back as the hour, minute and second |
| DateUtils.TwoDigits | src/main/java/net/obvj/agents/util/DateUtils.java:58-83 | two decimal digits |
| DateUtils.TwoDigitsRoundTrip | src/main/java/net/obvj/agents/util/DateUtils.java:58-83 | the two digits of a value below 100 read back as that value |
| DateUtils.ZeroPad | src/main/java/net/obvj/agents/util/DateUtils.java:58-83 | a text already as wide as the width is kept; a shorter one gets exactly the missing number of '0's in front |
| DateUtils.ZeroPadKeepsValue | src/main/java/net/obvj/agents/util/DateUtils.java:58-83 | the padded digits still denote the same number |
| DateUtils.FourDigitYear | src/main/java/net/obvj/agents/util/DateUtils.java:58-83 | a year prints as at least four digits that denote its year of era (1 - year for years up to 0) |
| DateUtils.CalendarDateText | src/main/java/net/obvj/agents/util/DateUtils.java:58-83 | "yyyy-MM-dd" has at least ten characters |
| DateUtils.FormatDateExample | src/test/java/net/obvj/agents/util/DateUtilsTest.java:72-95 | 18:15:01.123 on 12 June 2019 prints as "2019-06-12T18:15:01" |
| DateUtils.DateTextExample | src/main/java/net/obvj/agents/util/DateUtils.java:58-83 | day 18059 of the epoch prints as "2019-06-12" |
| DateUtils.ClockTextExample | src/main/java/net/obvj/agents/util/DateUtils.java:58-83 | an instant at 18:15:01 prints its time as "18:15:01" |
| DateUtils.CivilDateExample | src/main/java/net/obvj/agents/util/DateUtils.java:58-83 | day 18059 of the epoch is 12 June 2019 in the Gregorian calendar |
| AgentTypes.DefaultInterval | src/main/java/net/obvj/agents/AgentType.java:63-66 | every type has a non-empty default interval |
| AgentTypes.TimerDefaultIsOneMinute | src/main/java/net/obvj/agents/AgentType.java:40 | the TIMER default "1 minute" parses to one minute |
| AgentTypes.CronDefaultIsNoTimeInterval | src/main/java/net/obvj/agents/AgentType.java:47 | the CRON default "* * * * *" is not a time interval |
| Sources.PrecedenceIsStrictOrder | src/main/java/net/obvj/agents/conf/Source.java:34-64 | precedence strictly increases in declaration order: ANNOTATION < DEFAULT < XML < JSON |
| Sources.PrecedenceIsInjective | src/main/java/net/obvj/agents/conf/Source.java:146-149 | distinct sources have distinct precedences |
| Sources.MaxSource | src/main/java/net/obvj/agents/conf/Source.java:129-138 | none exactly when every entry is null; otherwise a non-null entry of maximal precedence |
| Sources.HighestPrecedenceSource | src/main/java/net/obvj/agents/conf/Source.java:129-138 | DEFAULT when every entry is null; otherwise one of the entries, with no entry of higher precedence |
| Sources.HighestPrecedenceSourceIgnoresOrder | src/main/java/net/obvj/agents/conf/Source.java:129-138 | the result depends only on the multiset of entries, not on their order or where the nulls are |
| Sources.HighestPrecedenceSourceOfOne | src/test/java/net/obvj/agents/conf/SourceTest.java:31-41 | a single source comes back unchanged; no source, or only null, gives DEFAULT |
| Sources.LoadGlobalConfiguration | src/main/java/net/obvj/agents/conf/Source.java:79-107 | empty for a source without a resource or a missing file; an error exactly for a file that does not parse; a loaded configuration carries its source |
| Sources.LoadGlobalConfigurationQuietly | src/main/java/net/obvj/agents/conf/Source.java:109-120 | the loader's value when it succeeds, and empty when it fails |
| Sources.QuietLoaderIsTotal | src/main/java/net/obvj/agents/conf/Source.java:109-120 | the quiet loader gives something exactly for a parsed file of a source that has one |
| AgentConfigurations.BuildFrom | src/main/java/net/obvj/agents/conf/AgentConfiguration.java:120-137 | a null type, then an empty class name, are the errors; otherwise the type and class are kept, an empty name becomes the class name, an empty interval becomes the type's default, a null source becomes DEFAULT |
| AgentConfigurations.Defaulted | src/main/java/net/obvj/agents/conf/AgentConfiguration.java:128-135 | what a successful build writes back into the builder: a non-empty name and interval, chosen by the same defaulting rules, everything else unchanged |
| AgentConfigurations.BuildIsIdempotent | src/main/java/net/obvj/agents/conf/AgentConfiguration.java:128-136 | after one build, a second build has nothing to default and gives the same configuration |
| AgentConfigurations.BuildSucceedsWithTypeAndClassName | src/main/java/net/obvj/agents/conf/AgentConfiguration.java:120-127 | a build succeeds if and only if there is a type and a non-empty class name |
| AgentConfigurations.Builder.constructor | src/main/java/net/obvj/agents/conf/AgentConfiguration.java:91-113 | a new builder holds nothing and both flags are false |
| AgentConfigurations.Builder.Type | src/main/java/net/obvj/agents/conf/AgentConfiguration.java:91-113 | sets the type only and returns the builder itself |
| AgentConfigurations.Builder.Name | src/main/java/net/obvj/agents/conf/AgentConfiguration.java:91-113 | sets the name only and returns the builder itself |
| AgentConfigurations.Builder.ClassName | src/main/java/net/obvj/agents/conf/AgentConfiguration.java:91-113 | sets the class name only and returns the builder itself |
| AgentConfigurations.Builder.Interval | src/main/java/net/obvj/agents/conf/AgentConfiguration.java:91-113 | sets the interval only and returns the builder itself |
| AgentConfigurations.Builder.Modulate | src/main/java/net/obvj/agents/annotation/Agent.java:82 | sets the modulate flag only and returns the builder itself |
| AgentConfigurations.Builder.EnableStatistics | src/main/java/net/obvj/agents/annotation/Agent.java:91 | sets the statistics flag only and returns the builder itself |
| AgentConfigurations.Builder.Build | src/main/java/net/obvj/agents/conf/AgentConfiguration.java:120-137 | the result is the build of the old fields; on success the builder holds the defaulted fields, on failure it is unchanged |
| AgentConfigurations.Builder.BuildDefault | src/main/java/net/obvj/agents/conf/AgentConfiguration.java:115-118 | the same build, stamped with the DEFAULT source |
| AgentConfigurations.SameConfiguration | src/main/java/net/obvj/agents/conf/AgentConfiguration.java:191-209 | no contract of its own: `equals` over name, class name, interval, type and source, which `SameConfigurationIgnoresFlags` proves an equivalence ignoring exactly the two flags |
| AgentConfigurations.SameConfigurationIgnoresFlags | src/main/java/net/obvj/agents/conf/AgentConfiguration.java:191-209 | equality compares name, class name, interval, type and source only; it is reflexive and symmetric |
| AgentConfigurations.HashCode | src/main/java/net/obvj/agents/conf/AgentConfiguration.java:185-189 | no contract of its own: `Objects.hash` of the five compared fields, which `EqualConfigurationsHashEqually` proves consistent with `equals` |
| AgentConfigurations.EqualConfigurationsHashEqually | src/main/java/net/obvj/agents/conf/AgentConfiguration.java:185-189 | equal configurations have equal hash codes, whatever the constants' identity hashes |
| Hashing.StringHashExamples | src/main/java/net/obvj/agents/conf/AgentConfiguration.java:185-189 | `String.hashCode` of "", "a" and "ab", as `hashCode` combines the text fields |
| AgentConfigurations.SourcesOf | src/main/java/net/obvj/agents/conf/AgentConfiguration.java:271-277 | the source of each non-null configuration, with nulls kept in place |
| AgentConfigurations.FirstWithSource | src/main/java/net/obvj/agents/conf/AgentConfiguration.java:254-257 | the first non-null configuration of a given source, or none when there is no such configuration |
| AgentConfigurations.HighestPrecedenceConfiguration | src/main/java/net/obvj/agents/conf/AgentConfiguration.java:243-269 | a null or empty collection fails, and so does one of nulls only; with a non-null entry it succeeds with the first entry whose source has the highest precedence present |
| AgentConfigurations.FoundIsFirstOfHighest | src/main/java/net/obvj/agents/conf/AgentConfiguration.java:243-269 | the position the search finds is the first of the highest precedence |
| AgentConfigurations.HighestIsFound | src/main/java/net/obvj/agents/conf/AgentConfiguration.java:243-269 | when some entry is non-null, one of them carries the highest source present |
| AgentConfigurations.FirstOfHighestIsUnique | src/main/java/net/obvj/agents/conf/AgentConfiguration.java:243-269 | the choice is determined: only one position is the first of the highest precedence |
| AgentConfigurations.ChoosesFirstOfHighest | src/main/java/net/obvj/agents/conf/AgentConfiguration.java:243-269 | whichever position holds the first non-null configuration of the highest precedence present, that configuration is the result |
| AgentConfigurations.XmlWinsOverDefault | src/main/java/net/obvj/agents/conf/AgentConfiguration.java:251-262 | an XML configuration wins over DEFAULT and ANNOTATION ones, whatever its position, and nulls are skipped |
| ConfigurationHolders.Snapshot | src/main/java/net/obvj/agents/conf/ConfigurationHolder.java:90-92 | the fields of each builder of the list, in order |
| ConfigurationHolders.BuildAll | src/main/java/net/obvj/agents/conf/ConfigurationHolder.java:91 | the build of each candidate, in list order |
| ConfigurationHolders.Accumulate | src/main/java/net/obvj/agents/conf/ConfigurationHolder.java:92 | a class name met twice is an error; otherwise the configuration is added under its class name |
| ConfigurationHolders.ToMap | src/main/java/net/obvj/agents/conf/ConfigurationHolder.java:90-92 | a successful collection files every configuration under its own class name |
| ConfigurationHolders.ToMapKeepsFirstError | src/main/java/net/obvj/agents/conf/ConfigurationHolder.java:90-92 | the collection stops at its first error: nothing after it changes the outcome |
| ConfigurationHolders.ToMapStep | src/main/java/net/obvj/agents/conf/ConfigurationHolder.java:90-92 | one more element is its build failure, or its accumulation into the index so far |
| ConfigurationHolders.ToMapNeedsAllOk | src/main/java/net/obvj/agents/conf/ConfigurationHolder.java:90-92 | a successful collection saw no failed build |
| ConfigurationHolders.ToMapNeedsDistinctClassNames | src/main/java/net/obvj/agents/conf/ConfigurationHolder.java:90-92 | a successful collection saw every build succeed and no class name twice |
| ConfigurationHolders.ToMapIndexesAll | src/main/java/net/obvj/agents/conf/ConfigurationHolder.java:90-92 | a successful collection holds every configuration under its class name, and only those |
| ConfigurationHolders.DistinctClassNamesAreCollected | src/main/java/net/obvj/agents/conf/ConfigurationHolder.java:90-92 | successful builds with pairwise distinct class names are all collected without error |
| ConfigurationHolders.ToMapSucceedsIff | src/main/java/net/obvj/agents/conf/ConfigurationHolder.java:90-92 | the collection succeeds if and only if every build succeeds and no class name repeats |
| ConfigurationHolders.DuplicateClassNameFails | src/main/java/net/obvj/agents/conf/ConfigurationHolder.java:90-92 | two candidates for the same class make the whole fill fail |
| ConfigurationHolders.IndexedAreBuilt | src/main/java/net/obvj/agents/conf/ConfigurationHolder.java:91 | every indexed configuration comes from `build()`: source DEFAULT, with a name and an interval |
| ConfigurationHolders.Fill | src/main/java/net/obvj/agents/conf/ConfigurationHolder.java:86-96 | (corrected) no bean: an empty index and a new global section; no list: an empty index and the bean's global section or a new one; otherwise the index of the list, or its error |
| ConfigurationHolders.FillAgreesWhereAsWrittenSucceeds | src/main/java/net/obvj/agents/conf/ConfigurationHolder.java:86-96 | wherever the code as written succeeds, the corrected fill gives the same result |
| ConfigurationHolders.FillAsWritten | src/main/java/net/obvj/agents/conf/ConfigurationHolder.java:86-96 | no contract of its own: the fill as written; `NoConfigurationAsWrittenFails` and `NoAgentListAsWrittenFails` show its two NullPointerExceptions and `FillAgreesWhereAsWrittenSucceeds` ties it to `Fill` |
| ConfigurationHolders.NoConfigurationAsWrittenFails | src/main/java/net/obvj/agents/conf/ConfigurationHolder.java:94 | without a merged bean the code as written fails, and the corrected fill gives an empty index |
| ConfigurationHolders.NoAgentListAsWrittenFails | src/main/java/net/obvj/agents/conf/ConfigurationHolder.java:90 | a bean without an agent list makes the code as written fail, and the corrected fill keeps its global section |
| ConfigurationHolders.BuildAt | src/main/java/net/obvj/agents/conf/ConfigurationHolder.java:91 | building one candidate gives the build of its original fields, and the builders of earlier candidates stay completed |
| ConfigurationHolders.CollectAt | src/main/java/net/obvj/agents/conf/ConfigurationHolder.java:90-92 | one element of the stream: its build and accumulation give the collection of the list up to it; builders are at most completed, and all up to it are on success |
| ConfigurationHolders.BuildCandidates | src/main/java/net/obvj/agents/conf/ConfigurationHolder.java:90-92 | the result is the collection of the builders' original fields, and every builder is left as it was or completed by its build |
| ConfigurationHolders.CollectAll | src/main/java/net/obvj/agents/conf/ConfigurationHolder.java:90-92 | the loop of `BuildCandidates`: from builders holding `before`, the result is `Collect(before)`, stopping at the first failure, with every builder as it was or completed |
| ConfigurationHolders.ConfigurationHolder.constructor | src/main/java/net/obvj/agents/conf/ConfigurationHolder.java:86-96 | a holder with the given index and global section |
| ConfigurationHolders.ConfigurationHolder.FillAuxiliaryObjects | src/main/java/net/obvj/agents/conf/ConfigurationHolder.java:86-96 | the holder takes the index and global section of the corrected fill, or reports its error; the builders end as built |
| ConfigurationHolders.ConfigurationHolder.HighestPrecedenceConfigurationByAgentClassName | src/main/java/net/obvj/agents/conf/ConfigurationHolder.java:112-115 | the indexed configuration for the class, and empty for a null or unknown class name |
| ConfigurationHolders.ConfigurationHolder.LookupFindsOwnClass | src/main/java/net/obvj/agents/conf/ConfigurationHolder.java:112-115 | a configuration found for a class name has that class name |
| ConfigurationHolders.ConfigurationHolder.GetGlobalConfiguration | src/main/java/net/obvj/agents/conf/ConfigurationHolder.java:121-124 | no contract of its own: the getter of the global section, which `FillAuxiliaryObjects` sets to the corrected fill's |
| ConfigurationHolders.NewConfigurationHolder | src/main/java/net/obvj/agents/conf/ConfigurationHolder.java:86-96 | a new holder filled from the merged bean, or the fill's error |
| AgentStates.SetState | src/main/java/net/obvj/agents/AbstractAgent.java:121-125 | the new current state is the one given, and the previous state is the old current one |
| AgentStates.SetStateRemembersOneStep | src/main/java/net/obvj/agents/AbstractAgent.java:121-125 | two changes of state remember only the last previous state |
| AgentStates.IsStarted | src/main/java/net/obvj/agents/AbstractAgent.java:139-142 | no contract of its own: STARTED, or RUNNING from STARTED; related to the other queries by `StateQueriesAgree` and `RunningFromStartedIsStarted` |
| AgentStates.IsRunning | src/main/java/net/obvj/agents/AbstractAgent.java:148-151 | no contract of its own: RUNNING; `StateQueriesAgree` relates it to the other queries |
| AgentStates.IsStopped | src/main/java/net/obvj/agents/AbstractAgent.java:157-160 | no contract of its own: STOPPED; `StateQueriesAgree` shows a stopped agent is neither started nor running |
| AgentStates.StateQueriesAgree | src/main/java/net/obvj/agents/AbstractAgent.java:139-160 | a stopped agent is neither started nor running; a started agent that is running came from STARTED |
| AgentStates.RunningFromStartedIsStarted | src/main/java/net/obvj/agents/AbstractAgent.java:139-151 | during a run the agent is running, and started exactly when it was started before the run |
| AgentStates.EnterRun | src/main/java/net/obvj/agents/AbstractAgent.java:256 | the agent is running and remembers the state it ran from |
| AgentStates.ExitRunAsWritten | src/main/java/net/obvj/agents/AbstractAgent.java:271-274 | the state becomes the remembered previous one, whatever happened during the run (see Findings) |
| AgentStates.ExitRun | src/main/java/net/obvj/agents/AbstractAgent.java:271-274 | the corrected exit: from RUNNING back to the state found on entry; a state another change set meanwhile is left as it is |
| AgentStates.RunBracketRestoresState | src/main/java/net/obvj/agents/AbstractAgent.java:241-277 | with no change of state during the run, both exits restore the state found on entry |
| AgentStates.StopDuringRunAsWritten | src/main/java/net/obvj/agents/AbstractAgent.java:273 | as written, a stop during a run is undone: the agent ends RUNNING, not stopped |
| AgentStates.StopDuringRunCorrected | src/main/java/net/obvj/agents/AbstractAgent.java:273 | the corrected exit keeps a state set during the run, so a stop during a run leaves the agent stopped |
| Agents.MaxHistorySize | src/main/java/net/obvj/agents/AbstractAgent.java:367-375 | zero without statistics; otherwise the global maximum, or zero when that is negative |
| Agents.Latest | src/main/java/net/obvj/agents/AbstractAgent.java:279-286 | the last n durations, or all of them when there are fewer |
| Agents.OfferKeepsLatest | src/main/java/net/obvj/agents/AbstractAgent.java:279-286 | offering to a queue within capacity keeps the latest durations, the new one last, within capacity |
| Agents.HistoryKeepsLatestRuns | src/main/java/net/obvj/agents/AbstractAgent.java:279-286 | after any series of runs the history holds the latest `capacity` durations, in order |
| Agents.LatestOfLatest | src/main/java/net/obvj/agents/AbstractAgent.java:279-286 | trimming before appending more does not change what a later trim keeps |
| Agents.LatestDropsPrefix | src/main/java/net/obvj/agents/AbstractAgent.java:279-286 | when the tail alone fills the capacity, the older durations are gone |
| Agents.Offer | src/main/java/net/obvj/agents/AbstractAgent.java:279-286 | with no capacity nothing is kept; otherwise the new duration is last; `OfferKeepsLatest` states the whole queue |
| Agents.SumBounds | src/main/java/net/obvj/agents/AbstractAgent.java:304-307 | the total of n durations lies between n times their lower and upper bounds |
| Agents.QuotientBounds | src/main/java/net/obvj/agents/AbstractAgent.java:304-307 | a total between n times two bounds has its truncated quotient by n between them |
| Agents.AverageRunDuration | src/main/java/net/obvj/agents/AbstractAgent.java:304-307 | zero for an empty history; `AverageIsWithinBounds` and `AverageOfEqualRuns` bound it by the shortest and longest run |
| Agents.AverageIsWithinBounds | src/main/java/net/obvj/agents/AbstractAgent.java:304-307 | the average of a non-empty history lies between its shortest and longest run |
| Agents.AverageOfEqualRuns | src/main/java/net/obvj/agents/AbstractAgent.java:304-307 | the average of runs that all took the same time is that time |
| Agents.FormatAverageRunDuration | src/main/java/net/obvj/agents/AbstractAgent.java:294-302 | "not enabled" exactly when statistics are off; otherwise the average of the history, zero when there is none |
| Agents.Arm | src/main/java/net/obvj/agents/TimerAgent.java:76-84 | a shut-down executor rejects a task; otherwise the new task is appended to what it holds |
| Agents.ArmAtFixedRate | src/main/java/net/obvj/agents/TimerAgent.java:76-84 | a non-positive period is an IllegalArgument; success exactly for a positive period on a live executor, appending the periodic task |
| Agents.InitialDelayIsWithinOneInterval | src/main/java/net/obvj/agents/TimerAgent.java:86-100 | with the calendar read first and the clock read at the same time or later: with modulation, at most the interval in milliseconds, and positive exactly when the second reading is before the aligned instant, so always positive when both readings are the same instant |
| Agents.InitialDelay | src/main/java/net/obvj/agents/TimerAgent.java:86-100 | an error exactly for a modulated zero duration ("/ by zero"); zero without modulation; its bounds are `InitialDelayIsWithinOneInterval` |
| Agents.ScheduleNextExecutionArmsOnce | src/main/java/net/obvj/agents/CronAgent.java:89-114 | a run is armed, and the next date set to now plus the Cron delay, exactly when this is the first scheduling or the agent is started with no stop, the expression has a next time and the executor is live; the state is untouched |
| Agents.ScheduleNextExecutionStep | src/main/java/net/obvj/agents/CronAgent.java:89-114 | the life cycle, start date, stop request, shut-down flag and history are untouched; `ScheduleNextExecutionArmsOnce` states when a run is armed and the date recorded |
| Agents.OnStartStep | src/main/java/net/obvj/agents/TimerAgent.java:76-84 | the life cycle, stop request, shut-down flag and history are untouched, and a timer that fails changes nothing; the Cron case (CronAgent.java:120-125) is the first `ScheduleNextExecutionStep`; `TimerStartArmsFixedRate` states what a timer arms |
| Agents.StartStep | src/main/java/net/obvj/agents/AbstractAgent.java:181-202 | a started or stopped agent is refused and unchanged; a failure keeps the state and start date; a success is STARTED from the old state with the start date now; `StartSucceedsIff` says when it succeeds |
| Agents.OnStopStep | src/main/java/net/obvj/agents/TimerAgent.java:106-110 | the executor is shut down with the state and history kept, and a Cron agent (CronAgent.java:128-132) also forgets its next date |
| Agents.StopStep | src/main/java/net/obvj/agents/AbstractAgent.java:209-228 | the stop request is always recorded; it fails exactly for a stopped agent, with "Agent already stopped" and nothing but the request changed; otherwise STOPPED, shut down, with no start date; `StopIsFinal` gives what follows |
| Agents.UpdateStatisticsStep | src/main/java/net/obvj/agents/AbstractAgent.java:279-286 | the last duration is recorded, the state and schedule kept, and the history kept without statistics; `CompletedRunRecordsDuration` states the bounded history |
| Agents.AfterRunStep | src/main/java/net/obvj/agents/CronAgent.java:134-138 | a timer's is nothing (TimerAgent.java:112-116); a Cron agent's keeps the state, last duration and history; `CronRunSchedulesNext` states its scheduling |
| Agents.RunStep | src/main/java/net/obvj/agents/AbstractAgent.java:241-277 | it fails exactly for a manual run of a running agent, with "Agent task already in execution" and nothing changed; it never changes the current state or the stop request; `RunRestoresState` and `RunWhileRunningIsRefused` give the rest |
| Agents.NewViewIsValid | src/main/java/net/obvj/agents/AbstractAgent.java:91-95 | a new agent satisfies the invariant and is SET: not started, running or stopped |
| Agents.StartKeepsValid | src/main/java/net/obvj/agents/AbstractAgent.java:181-202 | `start` keeps the invariant, whether it succeeds or not |
| Agents.StopKeepsValid | src/main/java/net/obvj/agents/AbstractAgent.java:209-228 | `stop` keeps the invariant |
| Agents.RunKeepsValid | src/main/java/net/obvj/agents/AbstractAgent.java:241-277 | `run` keeps the invariant, whatever the agent's task does |
| Agents.StartSucceedsIff | src/main/java/net/obvj/agents/AbstractAgent.java:181-202 | `start` succeeds exactly from SET or ERROR, for a timer only with a positive period and, when modulated, a non-zero duration; it then leaves the agent STARTED from now |
| Agents.StartIsRefusedWhenStartedOrStopped | src/main/java/net/obvj/agents/AbstractAgent.java:183-191 | a started agent refuses with "already started", a stopped one with "please reset", changing nothing |
| Agents.StopIsFinal | src/main/java/net/obvj/agents/AbstractAgent.java:209-228 | after a successful stop the agent is stopped with its executor shut down and no start date; a second stop and any start fail; a Cron agent has no next date |
| Agents.ScheduledRunAfterStopIsIgnored | src/main/java/net/obvj/agents/AbstractAgent.java:243 | once a stop was requested, a run from the executor changes nothing |
| Agents.RunWhileRunningIsRefused | src/main/java/net/obvj/agents/AbstractAgent.java:244-251 | a run that finds the agent's task in execution changes nothing; a manual one fails with "already in execution" |
| Agents.RunRestoresState | src/main/java/net/obvj/agents/AbstractAgent.java:241-277 | a run ends in the state it began in and records its start time; a task that throws changes nothing else |
| Agents.CompletedRunRecordsDuration | src/main/java/net/obvj/agents/AbstractAgent.java:279-286 | a completed run records its duration, and the history keeps the latest ones when statistics are on |
| Agents.FirstRunSetsAverage | src/test/java/net/obvj/agents/TimerAgentTest.java:164-184 | with statistics on, a new agent reports a zero average, and its first completed run sets the average to that run's time |
| Agents.CronRunSchedulesNext | src/main/java/net/obvj/agents/CronAgent.java:134-138 | after a completed run from STARTED, a Cron agent with a next time arms it and records its date; from any other state it arms nothing |
| Agents.TimerStartArmsFixedRate | src/main/java/net/obvj/agents/TimerAgent.java:76-100 | a successful timer start arms exactly one periodic task with the interval as period; its initial delay is zero without modulation and otherwise in (0, period], with both clock readings at the start's `now` (see Left out) |
| Agents.TimerKindOf | src/main/java/net/obvj/agents/TimerAgent.java:55-71 | "Not a timer agent" for another type; otherwise the interval's parse error or the parsed interval |
| Agents.CronKindOf | src/main/java/net/obvj/agents/CronAgent.java:52-70 | "Not a cron agent" for another type; otherwise the expression's parse error or the parsed expression |
| Agents.WithThreadFactory | src/main/java/net/obvj/agents/util/AgentThreadFactory.java:49-56 | after the constructor's own checks, an empty agent name fails with "The agent name is mandatory" |
| Agents.Agent.constructor | src/main/java/net/obvj/agents/AbstractAgent.java:91-95 | a new agent with the given configuration, kind and capacity, in state SET with nothing recorded |
| Agents.Agent.SetState | src/main/java/net/obvj/agents/AbstractAgent.java:121-125 | the lifecycle changes as `setState` does; no other field changes |
| Agents.Agent.Schedule | src/main/java/net/obvj/agents/TimerAgent.java:76-84 | the executor is updated as `Arm` says |
| Agents.Agent.GetInitialDelay | src/main/java/net/obvj/agents/TimerAgent.java:86-100 | equals `InitialDelay` for the calendar reading and the later clock reading, computed through the calendar steps of `GetNextExactDateEveryInterval` |
| Agents.Agent.ScheduleNextExecution | src/main/java/net/obvj/agents/CronAgent.java:89-114 | the agent's fields change as the scheduling step says |
| Agents.Agent.OnStart | src/main/java/net/obvj/agents/TimerAgent.java:76-84 | the agent's fields change as the kind's `onStart` step says |
| Agents.Agent.Start | src/main/java/net/obvj/agents/AbstractAgent.java:181-202 | the agent's fields change as the start step says |
| Agents.Agent.OnStop | src/main/java/net/obvj/agents/TimerAgent.java:106-110 | the agent's fields change as the kind's `onStop` step says |
| Agents.Agent.Stop | src/main/java/net/obvj/agents/AbstractAgent.java:209-228 | the agent's fields change as the stop step says |
| Agents.Agent.UpdateStatistics | src/main/java/net/obvj/agents/AbstractAgent.java:279-286 | the agent's fields change as the statistics step says |
| Agents.Agent.AfterRun | src/main/java/net/obvj/agents/CronAgent.java:134-138 | the agent's fields change as the kind's `afterRun` step says |
| Agents.Agent.Run | src/main/java/net/obvj/agents/AbstractAgent.java:241-277 | the agent's fields change as the run step says |
| Agents.Agent.NextExecutionDate | src/main/java/net/obvj/agents/CronAgent.java:168-171 | the cached next execution date |
| Agents.NewTimerAgent | src/main/java/net/obvj/agents/impl/DynamicTimerAgent.java:39-43 | the timer constructor's error, or a new SET timer agent with the parsed interval |
| Agents.NewCronAgent | src/main/java/net/obvj/agents/impl/DynamicCronAgent.java:39-43 | the Cron constructor's error, or a new SET Cron agent with the parsed expression |
| AgentFactories.ConstructorChecks | src/main/java/net/obvj/agents/AgentType.java:74-77 | an agent produced is a timer exactly for the TIMER type |
| AgentFactories.CreateOutcome | src/main/java/net/obvj/agents/util/AgentFactory.java:50-55 | a null configuration fails with "The AgentConfiguration must not be null" |
| AgentFactories.CreateSucceedsIff | src/main/java/net/obvj/agents/util/AgentFactory.java:50-55 | creation succeeds exactly when the interval reads as the type demands, the name is not empty and the class can be prepared; the kind follows the type |
| AgentFactories.BuiltTimerConfigurationFailsOnlyOnClass | src/main/java/net/obvj/agents/impl/DynamicAgent.java:50-64 | with a good interval and name, a timer configuration fails only for a class that cannot be prepared, with InvalidClass |
| AgentFactories.PrepareDynamicAgent | src/main/java/net/obvj/agents/impl/DynamicAgent.java:50-64 | the class is prepared exactly when it is instantiable; otherwise InvalidClass |
| AgentFactories.Create | src/main/java/net/obvj/agents/util/AgentFactory.java:50-55 | the creation outcome: on success a fresh SET agent holding the configuration, the kind and the history capacity |
| AgentManagers.RegisterKeepsConsistent | src/main/java/net/obvj/agents/AgentManager.java:161-170 | adding a new class, or the configuration a class already has, keeps names and classes consistent |
| AgentManagers.Register | src/main/java/net/obvj/agents/AgentManager.java:161-170 | the agent is filed under its name and its class, and no other name changes |
| AgentManagers.ResolveKeepsClass | src/main/java/net/obvj/agents/AgentManager.java:110-114 | resolving keeps the candidate's class, and an unknown class resolves to the candidate itself |
| AgentManagers.Resolve | src/main/java/net/obvj/agents/AgentManager.java:110-114 | the holder's configuration for the candidate's class when there is one, otherwise the candidate |
| AgentManagers.ScanOne | src/main/java/net/obvj/agents/AgentManager.java:91-96 | no name or class is lost and no registered class changes; a change is the registration of the resolved candidate, which can be created |
| AgentManagers.Scan | src/main/java/net/obvj/agents/AgentManager.java:79-99 | no contract of its own: the candidates scanned in order; `ScanKeepsConsistent`, `ScanOnlyAdds`, `ScanNeverReplacesAClass` and `ScanPicksFirstCreatable` characterise it |
| AgentManagers.ScanKeepsConsistent | src/main/java/net/obvj/agents/AgentManager.java:79-99 | a scan keeps the registry consistent |
| AgentManagers.ScanNeverReplacesAClass | src/main/java/net/obvj/agents/AgentManager.java:125-133 | a class registered before a scan keeps its configuration |
| AgentManagers.ScanPicksFirstCreatable | src/main/java/net/obvj/agents/AgentManager.java:91-96 | a new class ends registered exactly when some candidate for it can be created, and then with the first such candidate |
| AgentManagers.ScanOnlyAdds | src/main/java/net/obvj/agents/AgentManager.java:79-99 | a scan loses no known name and no known class |
| AgentManagers.RemovedClassIsNotRescanned | src/main/java/net/obvj/agents/AgentManager.java:201-209 | after a removal the class stays registered, so a later scan keeps the removed agent's configuration for it |
| AgentManagers.ResetKeepsRegistry | src/main/java/net/obvj/agents/AgentManager.java:218-233 | re-registering on reset changes nothing in a consistent registry |
| AgentManagers.AgentManager.NamesAreKeys | src/main/java/net/obvj/agents/AgentManager.java:52-53 | each agent is filed under its own name, so distinct names hold distinct agents |
| AgentManagers.AgentManager.constructor | src/main/java/net/obvj/agents/AgentManager.java:57-60 | a manager with both maps empty |
| AgentManagers.AgentManager.FindAgentByName | src/main/java/net/obvj/agents/AgentManager.java:181-192 | an IllegalArgument for an empty name or an unknown one, with their messages; otherwise the filed agent |
| AgentManagers.AgentManager.FoundAgentHasName | src/main/java/net/obvj/agents/AgentManager.java:181-192 | the agent found under a name carries that name and is valid |
| AgentManagers.AgentManager.AddAgent | src/main/java/net/obvj/agents/AgentManager.java:161-170 | the agent is filed under its name and its configuration under its class |
| AgentManagers.AgentManager.FindHighestPrecedenceConfiguration | src/main/java/net/obvj/agents/AgentManager.java:110-114 | the holder's configuration for the candidate's class, or the candidate |
| AgentManagers.AgentManager.InstantiateAgent | src/main/java/net/obvj/agents/AgentManager.java:142-154 | an agent exactly when creation succeeds; it is fresh, SET and holds the configuration |
| AgentManagers.AgentManager.InstantiateAgentQuietly | src/main/java/net/obvj/agents/AgentManager.java:125-133 | nothing for a class already registered; otherwise as `InstantiateAgent` |
| AgentManagers.AgentManager.ScanPackage | src/main/java/net/obvj/agents/AgentManager.java:79-99 | the registry becomes the scan of the candidates; every agent is one kept from before or a fresh SET one |
| AgentManagers.AgentManager.ScanCandidate | src/main/java/net/obvj/agents/AgentManager.java:91-96 | one candidate is resolved, skipped or added as the scan step says |
| AgentManagers.AgentManager.RemoveAgent | src/main/java/net/obvj/agents/AgentManager.java:201-209 | the lookup's error, or "is started" for a busy agent; otherwise only the name entry goes, and the class map never changes |
| AgentManagers.AgentManager.ResetAgent | src/main/java/net/obvj/agents/AgentManager.java:218-233 | the lookup's error, "is started" for a busy agent, or the creation error; otherwise a fresh SET agent from the same configuration under the same name |
| AgentManagers.AgentManager.StartAgent | src/main/java/net/obvj/agents/AgentManager.java:242-245 | the lookup's error, or the agent's start; the manager's invariant (every agent valid, the maps consistent) is kept |
| AgentManagers.AgentManager.RunNow | src/main/java/net/obvj/agents/AgentManager.java:253-256 | the lookup's error, or a manual run of the agent; the manager's invariant is kept |
| AgentManagers.AgentManager.StopAgent | src/main/java/net/obvj/agents/AgentManager.java:264-267 | the lookup's error, or the agent's stop; the manager's invariant is kept |
| AgentManagers.AgentManager.IsAgentRunning | src/main/java/net/obvj/agents/AgentManager.java:281-284 | the lookup's error, or whether the agent is running |
| AgentManagers.AgentManager.IsAgentStarted | src/main/java/net/obvj/agents/AgentManager.java:293-296 | the lookup's error, or whether the agent is started |
| AgentManagers.AgentManager.GetAgents | src/main/java/net/obvj/agents/AgentManager.java:269-272 | every managed agent once, in ascending order of name |
| AgentManagers.AgentManager.StartAllAgents | src/main/java/net/obvj/agents/AgentManager.java:310-320 | the agents in ascending order of name are started until one refuses; its error is the result and the later ones are untouched |
| AgentManagers.ListedInKeyOrder | src/main/java/net/obvj/agents/AgentManager.java:269-272 | the agents of a name-keyed map listed by ascending key are exactly its values, in ascending order of name |
| AgentManagers.SortedAgentsAreDistinct | src/main/java/net/obvj/agents/AgentManager.java:269-272 | agents with strictly ascending names are distinct objects |
| AgentManagers.StartEach | src/main/java/net/obvj/agents/AgentManager.java:310-315 | each agent in turn is started until one refuses; the later ones are untouched |
| StringOrder.PrecedesIsStrictTotalOrder | src/main/java/net/obvj/agents/AgentManager.java:52-53 | the key order of the name map is irreflexive, transitive, total and asymmetric |
| StringOrder.AscendingKeys | src/main/java/net/obvj/agents/AgentManager.java:269-272 | the keys of the map, each once, in ascending order |
| StringOrder.CompareToExamples | src/main/java/net/obvj/agents/AgentManager.java:52-53 | the key order of the agents' `TreeMap`: a prefix comes first, and upper case before lower case |
| Functions.MergersPickTheirArgument | src/main/java/net/obvj/agents/util/Functions.java:42-58 | `firstWinsMerger` returns its first argument and `lastWinsMerger` its second |
| Functions.FirstWinsMerger | src/main/java/net/obvj/agents/util/Functions.java:42-45 | no contract of its own: the merger that keeps its first argument (`MergersPickTheirArgument`) |
| Functions.LastWinsMerger | src/main/java/net/obvj/agents/util/Functions.java:55-58 | no contract of its own: the merger that keeps its second argument (`MergersPickTheirArgument`) |
| Functions.ToMapMerging | src/main/java/net/obvj/agents/util/Functions.java:35-58 | no contract of its own: `Collectors.toMap` with a merger, whose keys `ToMapMergingKeys` and whose values `FirstWinsKeepsEarliest` and `LastWinsKeepsLatest` state |
| Functions.ToMapMergingKeys | src/main/java/net/obvj/agents/util/Functions.java:35-58 | whatever the merger, the collected map holds exactly the keys of the stream |
| Functions.FirstWinsKeepsEarliest | src/main/java/net/obvj/agents/util/Functions.java:35-45 | with `firstWinsMerger`, every key keeps the value of its earliest pair |
| Functions.LastWinsKeepsLatest | src/main/java/net/obvj/agents/util/Functions.java:47-58 | with `lastWinsMerger`, every key holds the value of its latest pair |
| AgentThreadFactories.AgentThreadFactory.constructor | src/main/java/net/obvj/agents/util/AgentThreadFactory.java:49-56 | a factory for a non-empty name, with no thread created yet |
| AgentThreadFactories.NewAgentThreadFactory | src/main/java/net/obvj/agents/util/AgentThreadFactory.java:49-56 | a null or empty name fails with "The agent name is mandatory"; otherwise a fresh factory for the name |
| AgentThreadFactories.AgentThreadFactory.NewThread | src/main/java/net/obvj/agents/util/AgentThreadFactory.java:64-76 | a non-daemon thread of normal priority named "Agent-<name>-thread<n>", n the next number; one more thread is counted |
| AgentThreadFactories.SequenceNumbersCount | src/main/java/net/obvj/agents/util/AgentThreadFactory.java:39 | the k-th thread gets number k + 1, until the counter wraps |
| AgentThreadFactories.SequenceNumbersAreDistinct | src/main/java/net/obvj/agents/util/AgentThreadFactory.java:73-76 | any 2^32 consecutive threads get distinct numbers, and the numbers repeat after that |
| AgentThreadFactories.ThreadNamesAreDistinct | src/main/java/net/obvj/agents/util/AgentThreadFactory.java:73-76 | threads with distinct numbers get distinct names |
| AgentThreadFactories.ThreadName | src/main/java/net/obvj/agents/util/AgentThreadFactory.java:75 | no contract of its own: "Agent-<name>-thread<n>"; `ThreadNamesAreDistinct` shows distinct numbers give distinct names |
| AgentThreadFactories.SequenceNumberAfter | src/main/java/net/obvj/agents/util/AgentThreadFactory.java:39 | no contract of its own: the counter after k increments of `AtomicInteger(1)`; `SequenceNumbersCount` and `SequenceNumbersAreDistinct` state its values |
| AgentThreadFactories.WrapStep | src/main/java/net/obvj/agents/util/AgentThreadFactory.java:75 | `getAndIncrement` on the wrapped counter gives the wrapped next count |

## Left out

- The clock: an operation is given the time as a `now` parameter. Where the source reads the clock more than once during one operation, the model takes those readings as one instant, except inside `getInitialDelay`. The readings are: `TimerAgent.getInitialDelay` reads it through `Calendar.getInstance()` (TimerAgent.java:90, via DateUtils.java:106) and again through `System.currentTimeMillis()` (TimerAgent.java:97); `start()` reads it once more for `startDate` (AbstractAgent.java:200), after `onStart`; `CronAgent.scheduleNextExecution` reads it at CronAgent.java:95 and :101.
- Agents.TimerStartArmsFixedRate: its positive first delay holds because `OnStartStep` passes the same `now` as both readings of `getInitialDelay`. `Agents.InitialDelay` keeps the two readings apart, and `Agents.InitialDelayIsWithinOneInterval` proves that for any later second reading the delay is at most one interval, and positive exactly when that reading comes before the aligned instant. In the source the delay is zero or negative once the logging between the two readings reaches the aligned instant.
- Cron parsing, description and evaluation (cron-utils): modelled as `Environment.parseCron` and as `Cron.timeToNextExecution`, a function from an instant to an optional delay. The concrete Cron dates of the unit tests depend on the library, so they are not stated.
- Executors, threads and locks: the executor is a list of armed tasks and a shut-down flag. `synchronized`, `runLock`, `changeLock` and interleavings are not modelled, and `run` is one atomic step, so an agent is RUNNING only inside `Run`; the refusal of a run during a run is stated on the step function. The thread factory models only what a new thread is created with (`ThreadSpec`), not the runnable.
- Reflection: the classes that `DynamicAgent` can load, with one `@Run` method and a public no-argument constructor, are the given set `Environment.instantiable`. Calling the `@Run` method is the `TaskOutcome` parameter.
- Class-path scanning (`AnnotatedAgentScanner`, `AnnotationUtils`, `fromAnnotatedClass`): `scanPackage` takes the candidate configurations as a given sequence, in the order the scanner yields them; the empty-package check is this sequence being empty.
- File and container I/O (Jackson, confectory, `ConfigurationHolder.defaultContainer`): a resource is given as missing, unparsable or parsed, and the merged bean is a given `Configuration` value.
- The Spring context (`ApplicationContextFacade`, `defaultInstance`): not modelled.
- Status strings and JSON (`getStatusString`, `getStatusJson`, `getAgentStatusJson`, `getPresetStatusStringBuilder`): text formatting only, not modelled.
- performetrics `Duration` formatting (`formatLastRunDuration`, `formatDuration`): durations are natural numbers, and the average is reported as a number (`Mean`) or as "not enabled".
- Logging (`LogUtils`, `LogArgument`, `CommonRegEx`, `Exceptions`): not modelled; exception messages are kept where the source builds them. Messages the JDK builds (the duplicate-key error of `Collectors.toMap`, the executor's refusals, the NullPointerExceptions) depend on the JDK version and are the empty string. The one JDK-built message kept is that of `Integer.parseInt` in `TimeIntervals.ParseInt` (`For input string: "<digits>"`), which reads the same in every JDK for radix 10.
- A null agent name in `AgentManager` (findAgentByName, removeAgent and the delegations): names are `string`, and the empty string stands for both null and empty, which the source treats the same.
- Null entries in a configuration's builder list, and a null `TimeInterval.of` input: not modelled (both end in a NullPointerException in the source).
- Enum `hashCode` values (identity hashes): given as function parameters of `AgentConfigurations.HashCode`. `TimeInterval.equals` and `hashCode` are datatype equality.
- Dates before the Gregorian reform of 1582: the date text uses the proleptic Gregorian calendar, where Java's default calendar switches to the Julian one.
- The superseded copies of other revisions (`impl/TimerAgent.java`, `impl/AgentFactory.java`, `impl/AgentThreadFactory.java`, `conf/GlobalConfigurationHolder.java`): not part of this model.
- DateUtils.FormatDate: the contract fixes the "null" text, the 'T' and the exact clock part; the calendar-date part is stated only through `CalendarDateText` and the examples, because no inverse of the day-to-date conversion is proved.

## Findings

| source | as written | input that shows it | evidently intended | confidence | as-written member | corrected member |
|---|---|---|---|---|---|---|
| src/main/java/net/obvj/agents/conf/ConfigurationHolder.java:94 | `fillAuxiliaryObjects` reads the global section of the merged bean without a null check; the null guard at lines 98-101 protects only line 90 | a container whose merged configuration is null | an empty index and a new `GlobalConfiguration` | not executed | ConfigurationHolders.NoConfigurationAsWrittenFails | ConfigurationHolders.Fill |
| src/main/java/net/obvj/agents/conf/ConfigurationHolder.java:90 | the agent list of the merged bean is streamed without a null check | a merged configuration with a global section and no `agents` list | an empty index and the bean's global section | not executed | ConfigurationHolders.NoAgentListAsWrittenFails | ConfigurationHolders.Fill |
| src/main/java/net/obvj/agents/AbstractAgent.java:273 | the `finally` of `run` calls `setState(previousState)`, and a `stop()` while its task runs has just overwritten `previousState` with RUNNING | `stop()` while a started agent's task is running | the agent ends STOPPED | not executed | AgentStates.StopDuringRunAsWritten | AgentStates.StopDuringRunCorrected |
