/**
 * A duration paired with a time unit, and the lenient text parser that reads
 * one from strings such as "1 second", "25M", "hour=3" or "35.5s".
 */
module TimeIntervals {
  import opened Wrappers
  import opened Numerals
  import opened TimeUnits

  datatype TimeInterval = TimeInterval(duration: Int32, timeUnit: TimeUnit)

  /** The `[a-zA-Z]` class of a Java regular expression. */
  predicate IsAsciiLetter(c: char) { 'a' <= c <= 'z' || 'A' <= c <= 'Z' }

  /**
   * The match `Matcher.find()` reports for the pattern `C+`, where `inClass`
   * is the character class C: the leftmost run of class characters, taken as
   * long as it goes.
   */
  predicate IsFirstRun(s: string, inClass: char -> bool, i: int, j: int)
  {
    && 0 <= i < j <= |s|
    && (forall k :: 0 <= k < i ==> !inClass(s[k]))
    && (forall k :: i <= k < j ==> inClass(s[k]))
    && (j == |s| || !inClass(s[j]))
  }

  /** The first position at or after `i` holding a class character, or |s|. */
  function SkipOutside(s: string, inClass: char -> bool, i: nat): (j: nat)
    requires i <= |s|
    ensures i <= j <= |s|
    ensures forall k :: i <= k < j ==> !inClass(s[k])
    ensures j < |s| ==> inClass(s[j])
    decreases |s| - i
  {
    if i == |s| || inClass(s[i]) then i else SkipOutside(s, inClass, i + 1)
  }

  /** The first position at or after `i` not holding a class character, or |s|. */
  function SkipInside(s: string, inClass: char -> bool, i: nat): (j: nat)
    requires i <= |s|
    ensures i <= j <= |s|
    ensures forall k :: i <= k < j ==> inClass(s[k])
    ensures j < |s| ==> !inClass(s[j])
    decreases |s| - i
  {
    if i == |s| || !inClass(s[i]) then i else SkipInside(s, inClass, i + 1)
  }

  /** `Matcher.find()` for `C+`: the bounds of the match, or None when there is none. */
  function FindFirstRun(s: string, inClass: char -> bool): (r: Option<(nat, nat)>)
    ensures r.None? <==> forall k :: 0 <= k < |s| ==> !inClass(s[k])
    ensures r.Some? ==> IsFirstRun(s, inClass, r.value.0, r.value.1)
  {
    var i := SkipOutside(s, inClass, 0);
    if i == |s| then None else Some((i, SkipInside(s, inClass, i)))
  }

  /** Two first runs of the same class in the same text are the same run. */
  lemma FirstRunIsUnique(s: string, inClass: char -> bool, i: int, j: int, i': int, j': int)
    requires IsFirstRun(s, inClass, i, j) && IsFirstRun(s, inClass, i', j')
    ensures i == i' && j == j'
  {
    assert inClass(s[i]) && inClass(s[i']);
    assert j < |s| ==> !inClass(s[j]);
    assert j' < |s| ==> !inClass(s[j']);
  }

  /** A text without class characters has no run. */
  lemma NoRunWithoutClassCharacter(s: string, inClass: char -> bool)
    requires forall k :: 0 <= k < |s| ==> !inClass(s[k])
    ensures forall i, j :: !IsFirstRun(s, inClass, i, j)
  {
    forall i, j ensures !IsFirstRun(s, inClass, i, j) {
      if 0 <= i < j <= |s| {
        assert !inClass(s[i]);
      }
    }
  }

  /** Finding the run gives exactly the run the definition describes. */
  lemma FindFirstRunIs(s: string, inClass: char -> bool, i: int, j: int)
    requires IsFirstRun(s, inClass, i, j)
    ensures FindFirstRun(s, inClass) == Some((i, j))
  {
    var r := FindFirstRun(s, inClass);
    assert inClass(s[i]);
    FirstRunIsUnique(s, inClass, i, j, r.value.0, r.value.1);
  }

  /** `Integer.parseInt` of a non-empty run of decimal digits: a NumberFormatException past Integer.MAX_VALUE. */
  function ParseInt(digits: string): (r: Result<Int32>)
    requires AllDigits(digits)
    ensures r.Ok? <==> DigitsValue(digits) <= INT_MAX
    ensures r.Ok? ==> r.value == DigitsValue(digits)
    ensures r.Err? ==> r.error.IllegalArgument?
  {
    var n := DigitsValue(digits);
    if n <= INT_MAX then Ok(n) else Err(IllegalArgument("For input string: \"" + digits + "\""))
  }

  /** `extractFirstDigitGroupFrom`: the value of the first run of digits. */
  function ExtractFirstDigitGroupFrom(input: string): (r: Result<Int32>)
    ensures (forall k :: 0 <= k < |input| ==> !IsDigit(input[k])) ==>
              r == Err(IllegalArgument("No digit found in input string: \"" + input + "\""))
    ensures forall i, j :: IsFirstRun(input, IsDigit, i, j) ==>
              (r.Ok? <==> DigitsValue(input[i..j]) <= INT_MAX) &&
              (r.Ok? ==> r.value == DigitsValue(input[i..j]))
  {
    match FindFirstRun(input, IsDigit)
    case None =>
      NoRunWithoutClassCharacter(input, IsDigit);
      Err(IllegalArgument("No digit found in input string: \"" + input + "\""))
    case Some(run) =>
      assert forall i, j :: IsFirstRun(input, IsDigit, i, j) ==> i == run.0 && j == run.1 by {
        forall i, j | IsFirstRun(input, IsDigit, i, j) ensures i == run.0 && j == run.1 {
          FirstRunIsUnique(input, IsDigit, i, j, run.0, run.1);
        }
      }
      ParseInt(input[run.0..run.1])
  }

  /** `extractFirstLetterGroupFrom`: the first run of ASCII letters, or "" when there is none. */
  function ExtractFirstLetterGroupFrom(input: string): (r: string)
    ensures (forall k :: 0 <= k < |input| ==> !IsAsciiLetter(input[k])) <==> r == ""
    ensures forall i, j :: IsFirstRun(input, IsAsciiLetter, i, j) ==> r == input[i..j]
  {
    match FindFirstRun(input, IsAsciiLetter)
    case None =>
      NoRunWithoutClassCharacter(input, IsAsciiLetter);
      ""
    case Some(run) =>
      assert forall i, j :: IsFirstRun(input, IsAsciiLetter, i, j) ==> i == run.0 && j == run.1 by {
        forall i, j | IsFirstRun(input, IsAsciiLetter, i, j) ensures i == run.0 && j == run.1 {
          FirstRunIsUnique(input, IsAsciiLetter, i, j, run.0, run.1);
        }
      }
      input[run.0..run.1]
  }

  /**
   * `TimeInterval.of`: the first run of digits is the duration and the first
   * run of letters, when there is one, names the unit; otherwise the unit is
   * the default one.
   */
  function Of(input: string): (r: Result<TimeInterval>)
    ensures r.Ok? ==> 0 <= r.value.duration
    ensures r.Err? ==> r.error.IllegalArgument?
  {
    var digits :- ExtractFirstDigitGroupFrom(input);
    var description := ExtractFirstLetterGroupFrom(input);
    var timeUnit :- if description == "" then Ok(DEFAULT) else FindByIdentifier(Some(description));
    Ok(TimeInterval(digits, timeUnit))
  }

  /**
   * What a text denotes, stated on the runs themselves: the first digit run
   * has the duration as its value, and the first letter run identifies the
   * unit, or there is no letter and the unit is the default.
   */
  ghost predicate Denotes(input: string, t: TimeInterval)
  {
    && (exists i, j :: IsFirstRun(input, IsDigit, i, j) && DigitsValue(input[i..j]) == t.duration)
    && ((t.timeUnit == DEFAULT && forall k :: 0 <= k < |input| ==> !IsAsciiLetter(input[k]))
        || exists i, j :: IsFirstRun(input, IsAsciiLetter, i, j) && IsIdentifiableBy(t.timeUnit, Some(input[i..j])))
  }

  /** What `of` returns, the text denotes. */
  lemma OfIsSound(input: string, t: TimeInterval)
    requires Of(input) == Ok(t)
    ensures Denotes(input, t)
  {
    var (i, j) := FindFirstRun(input, IsDigit).value;
    assert IsFirstRun(input, IsDigit, i, j);
    var letterRun := FindFirstRun(input, IsAsciiLetter);
    if letterRun.Some? {
      var (a, b) := letterRun.value;
      assert IsFirstRun(input, IsAsciiLetter, a, b);
    }
  }

  /** What the text denotes, `of` returns. */
  lemma OfIsComplete(input: string, t: TimeInterval)
    requires Denotes(input, t)
    ensures Of(input) == Ok(t)
  {
    var i, j :| IsFirstRun(input, IsDigit, i, j) && DigitsValue(input[i..j]) == t.duration;
    FindFirstRunIs(input, IsDigit, i, j);
    var letterRun := FindFirstRun(input, IsAsciiLetter);
    if letterRun.Some? {
      var (a, b) := letterRun.value;
      // the text has a letter, so the unit is the one its first letter run identifies
      assert IsAsciiLetter(input[a]);
      var a', b' :| IsFirstRun(input, IsAsciiLetter, a', b') && IsIdentifiableBy(t.timeUnit, Some(input[a'..b']));
      FirstRunIsUnique(input, IsAsciiLetter, a, b, a', b');
      FindByIdentifierIsExact(Some(input[a..b]), t.timeUnit);
    } else {
      NoRunWithoutClassCharacter(input, IsAsciiLetter);
    }
  }

  /** `of` accepts exactly the texts that denote an interval, and returns that interval. */
  lemma OfIsExact(input: string, t: TimeInterval)
    ensures Of(input) == Ok(t) <==> Denotes(input, t)
  {
    if Of(input) == Ok(t) { OfIsSound(input, t); }
    if Denotes(input, t) { OfIsComplete(input, t); }
  }

  /** A text with no digit is refused with an IllegalArgumentException. */
  lemma OfFailsWithoutDuration(input: string)
    requires forall k :: 0 <= k < |input| ==> !IsDigit(input[k])
    ensures Of(input) == Err(IllegalArgument("No digit found in input string: \"" + input + "\""))
  {
  }

  /**
   * A text with a readable duration whose first letter run names no unit is
   * refused with the unit lookup's IllegalArgumentException.
   */
  lemma OfFailsOnUnknownUnit(input: string, i: int, j: int, a: int, b: int)
    requires IsFirstRun(input, IsDigit, i, j) && DigitsValue(input[i..j]) <= INT_MAX
    requires IsFirstRun(input, IsAsciiLetter, a, b)
    requires forall u :: !IsIdentifiableBy(u, Some(input[a..b]))
    ensures Of(input) == Err(IllegalArgument("Invalid time unit identifier: \"" + input[a..b] + "\""))
  {
  }

  /** `toMillis`: the duration in milliseconds; an int duration never saturates. */
  function ToMillis(t: TimeInterval): (r: Int64)
    ensures r == t.duration * Scale(t.timeUnit)
  {
    IntDurationToMillisIsExact(t.timeUnit, t.duration);
    TimeUnits.ToMillis(t.timeUnit, t.duration)
  }

  /** `toString()`: the duration, a space and the unit's display text, e.g. "2 minute(s)". */
  function ToString(t: TimeInterval): (r: string)
  {
    IntToString(t.duration) + " " + DisplayText(t.timeUnit)
  }

  /** The copy constructor: equal attributes; a NullPointerException for a null source. */
  function Copy(source: Option<TimeInterval>): (r: Result<TimeInterval>)
    ensures source.None? ==> r == Err(NullPointer(""))
    ensures source.Some? ==> r == Ok(source.value)
  {
    if source.None? then Err(NullPointer(""))
    else Ok(TimeInterval(source.value.duration, source.value.timeUnit))
  }

  /** The letters the display text of a unit starts with, ended by "(s)". */
  function DisplayWord(u: TimeUnit): string
  {
    match u
    case SECONDS => "second"
    case MINUTES => "minute"
    case HOURS => "hour"
  }

  /** No character of the text is a digit or a letter. */
  predicate IsSeparator(s: string)
  {
    forall k :: 0 <= k < |s| ==> !IsDigit(s[k]) && !IsAsciiLetter(s[k])
  }

  predicate AllLetters(s: string)
  {
    forall k :: 0 <= k < |s| ==> IsAsciiLetter(s[k])
  }

  /** A run written after a prefix without class characters and before a non-class character is the first run. */
  lemma RunAt(prefix: string, run: string, rest: string, inClass: char -> bool)
    requires forall k :: 0 <= k < |prefix| ==> !inClass(prefix[k])
    requires |run| > 0 && forall k :: 0 <= k < |run| ==> inClass(run[k])
    requires rest == [] || !inClass(rest[0])
    ensures IsFirstRun(prefix + run + rest, inClass, |prefix|, |prefix| + |run|)
    ensures (prefix + run + rest)[|prefix|..|prefix| + |run|] == run
  {
    var s := prefix + run + rest;
    assert forall k :: 0 <= k < |prefix| ==> s[k] == prefix[k];
    assert forall k :: |prefix| <= k < |prefix| + |run| ==> s[k] == run[k - |prefix|];
    assert rest != [] ==> s[|prefix| + |run|] == rest[0];
  }

  /** Printing an interval of non-negative duration and parsing the text again gives the same interval. */
  lemma {:induction false} ToStringThenOfRoundTrip(t: TimeInterval)
    requires t.duration >= 0
    ensures Of(ToString(t)) == Ok(t)
  {
    var n := |NatToString(t.duration)|;
    PrintedDurationRun(t);
    PrintedUnitRun(t);
    OfFromRuns(ToString(t), 0, n, n + 1, n + 1 + |DisplayWord(t.timeUnit)|, t.timeUnit);
  }

  /** The printed duration is the first digit run of the text and reads back as the duration. */
  lemma PrintedDurationRun(t: TimeInterval)
    requires t.duration >= 0
    ensures var n := |NatToString(t.duration)|;
      IsFirstRun(ToString(t), IsDigit, 0, n) && DigitsValue(ToString(t)[0..n]) == t.duration
  {
    var digits := NatToString(t.duration);
    NatToStringRoundTrip(t.duration);
    assert ToString(t) == [] + digits + (" " + DisplayWord(t.timeUnit) + "(s)");
    RunAt([], digits, " " + DisplayWord(t.timeUnit) + "(s)", IsDigit);
  }

  /** The word of the printed unit is the first letter run of the text and identifies the unit. */
  lemma PrintedUnitRun(t: TimeInterval)
    requires t.duration >= 0
    ensures var a := |NatToString(t.duration)| + 1; var b := a + |DisplayWord(t.timeUnit)|;
      IsFirstRun(ToString(t), IsAsciiLetter, a, b) && IsIdentifiableBy(t.timeUnit, Some(ToString(t)[a..b]))
  {
    var digits := NatToString(t.duration);
    var word := DisplayWord(t.timeUnit);
    NatToStringRoundTrip(t.duration);
    assert ToString(t) == (digits + " ") + word + "(s)";
    RunAt(digits + " ", word, "(s)", IsAsciiLetter);
    assert EqualsIgnoreCase(word, Identifiers(t.timeUnit)[0]);
  }

  /**
   * Any spelling of any letters-only identifier, in any letter case, written
   * after the duration with any separator (none, " ", "_", "-", ...), reads as
   * the same interval.
   */
  lemma {:induction false} OfDurationThenUnit(n: Int32, u: TimeUnit, k: int, separator: string, spelling: string)
    requires n >= 0 && 0 <= k < |Identifiers(u)|
    requires IsSeparator(separator) && AllLetters(spelling)
    requires EqualsIgnoreCase(spelling, Identifiers(u)[k])
    ensures Of(NatToString(n) + separator + spelling) == Ok(TimeInterval(n, u))
  {
    var s := NatToString(n) + separator + spelling;
    var rest := separator + spelling;
    assert rest == [] || !IsDigit(rest[0]) by {
      if separator == [] && spelling != [] {
        assert rest[0] == spelling[0];
      }
    }
    assert s == NatToString(n) + rest;
    LeadingDigitRun(n, rest);
    TrailingLetterRun(n, u, k, separator, spelling);
    OfFromRuns(s, 0, |NatToString(n)|, |NatToString(n)| + |separator|, |s|, u);
  }

  /** The decimal text of a number, before a text that does not start with a digit, is the first digit run. */
  lemma LeadingDigitRun(n: Int32, rest: string)
    requires n >= 0
    requires rest == [] || !IsDigit(rest[0])
    ensures IsFirstRun(NatToString(n) + rest, IsDigit, 0, |NatToString(n)|)
    ensures DigitsValue((NatToString(n) + rest)[0..|NatToString(n)|]) == n
  {
    var digits := NatToString(n);
    var s := digits + rest;
    NatToStringRoundTrip(n);
    assert s[0..|digits|] == digits;
    assert forall k :: 0 <= k < |digits| ==> s[k] == digits[k];
    assert rest != [] ==> s[|digits|] == rest[0];
  }

  lemma TrailingLetterRun(n: Int32, u: TimeUnit, k: int, separator: string, spelling: string)
    requires n >= 0 && 0 <= k < |Identifiers(u)|
    requires IsSeparator(separator) && AllLetters(spelling)
    requires EqualsIgnoreCase(spelling, Identifiers(u)[k])
    ensures var s := NatToString(n) + separator + spelling;
      var a := |NatToString(n)| + |separator|;
      IsFirstRun(s, IsAsciiLetter, a, |s|) && IsIdentifiableBy(u, Some(s[a..|s|]))
  {
    var digits := NatToString(n);
    var s := digits + separator + spelling;
    IdentifierStartsWithInitial(u, k);
    assert s == (digits + separator) + spelling + [];
    RunAt(digits + separator, spelling, [], IsAsciiLetter);
  }

  /** The same with the unit first, as in "hour=3", "seconds=15" or "SeCoNd:3". */
  lemma {:induction false} OfUnitThenDuration(n: Int32, u: TimeUnit, k: int, separator: string, spelling: string)
    requires n >= 0 && 0 <= k < |Identifiers(u)|
    requires IsSeparator(separator) && AllLetters(spelling)
    requires EqualsIgnoreCase(spelling, Identifiers(u)[k])
    ensures Of(spelling + separator + NatToString(n)) == Ok(TimeInterval(n, u))
  {
    var s := spelling + separator + NatToString(n);
    var a := |spelling| + |separator|;
    LeadingLetterRun(n, u, k, separator, spelling);
    TrailingDigitRun(n, separator, spelling);
    OfFromRuns(s, a, |s|, 0, |spelling|, u);
  }

  lemma LeadingLetterRun(n: Int32, u: TimeUnit, k: int, separator: string, spelling: string)
    requires n >= 0 && 0 <= k < |Identifiers(u)|
    requires IsSeparator(separator) && AllLetters(spelling)
    requires EqualsIgnoreCase(spelling, Identifiers(u)[k])
    ensures var s := spelling + separator + NatToString(n);
      IsFirstRun(s, IsAsciiLetter, 0, |spelling|) && IsIdentifiableBy(u, Some(s[0..|spelling|]))
  {
    var digits := NatToString(n);
    var s := spelling + separator + digits;
    IdentifierStartsWithInitial(u, k);
    assert (separator + digits)[0] == if separator == [] then digits[0] else separator[0];
    assert s == [] + spelling + (separator + digits);
    RunAt([], spelling, separator + digits, IsAsciiLetter);
  }

  lemma TrailingDigitRun(n: Int32, separator: string, spelling: string)
    requires n >= 0
    requires IsSeparator(separator) && AllLetters(spelling)
    ensures var s := spelling + separator + NatToString(n);
      IsFirstRun(s, IsDigit, |spelling| + |separator|, |s|) && DigitsValue(s[|spelling| + |separator|..|s|]) == n
  {
    var digits := NatToString(n);
    var s := spelling + separator + digits;
    NatToStringRoundTrip(n);
    assert s == (spelling + separator) + digits + [];
    RunAt(spelling + separator, digits, [], IsDigit);
  }

  /** `of` from the two runs of a text, located by hand. */
  lemma {:induction false} OfFromRuns(input: string, i: int, j: int, a: int, b: int, u: TimeUnit)
    requires IsFirstRun(input, IsDigit, i, j) && DigitsValue(input[i..j]) <= INT_MAX
    requires IsFirstRun(input, IsAsciiLetter, a, b) && IsIdentifiableBy(u, Some(input[a..b]))
    ensures Of(input) == Ok(TimeInterval(DigitsValue(input[i..j]), u))
  {
    OfIsComplete(input, TimeInterval(DigitsValue(input[i..j]), u));
  }

  /** Texts the parser is documented to read, and texts it refuses. */
  lemma OfRefuses()
    ensures Of("1byte").Err? && Of("").Err? && Of("minute").Err?
  {
    OfFailsWithoutDuration("");
    OfFailsWithoutDuration("minute");
    assert ExtractFirstLetterGroupFrom("1byte") == "byte" by {
      RunAt("1", "byte", [], IsAsciiLetter);
      assert "1" + "byte" + [] == "1byte";
    }
    forall u | true ensures !IsIdentifiableBy(u, Some("byte")) {
      forall k | 0 <= k < |Identifiers(u)| ensures !EqualsIgnoreCase("byte", Identifiers(u)[k]) {
        IdentifierStartsWithInitial(u, k);
      }
    }
  }

  /** Only the integral part of "35.5s" is read. */
  lemma {:induction false} OfReadsDecimalPoint()
    ensures Of("35.5s") == Ok(TimeInterval(35, SECONDS))
  {
    assert IsFirstRun("35.5s", IsDigit, 0, 2) && DigitsValue("35.5s"[0..2]) == 35 by {
      assert "35.5s"[0..2] == "35" && "35"[..1] == "3";
    }
    assert IsFirstRun("35.5s", IsAsciiLetter, 4, 5) && IsIdentifiableBy(SECONDS, Some("35.5s"[4..5])) by {
      assert "35.5s"[4..5] == "s";
      assert EqualsIgnoreCase("s", Identifiers(SECONDS)[3]);
    }
    OfFromRuns("35.5s", 0, 2, 4, 5, SECONDS);
  }

  /** Only the integral part of "40,5s" is read. */
  lemma {:induction false} OfReadsDecimalComma()
    ensures Of("40,5s") == Ok(TimeInterval(40, SECONDS))
  {
    assert IsFirstRun("40,5s", IsDigit, 0, 2) && DigitsValue("40,5s"[0..2]) == 40 by {
      assert "40,5s"[0..2] == "40" && "40"[..1] == "4";
    }
    assert IsFirstRun("40,5s", IsAsciiLetter, 4, 5) && IsIdentifiableBy(SECONDS, Some("40,5s"[4..5])) by {
      assert "40,5s"[4..5] == "s";
      assert EqualsIgnoreCase("s", Identifiers(SECONDS)[3]);
    }
    OfFromRuns("40,5s", 0, 2, 4, 5, SECONDS);
  }

  /** Blanks around a bare number are ignored and the unit is the default one. */
  lemma {:induction false} OfReadsBlankPaddedDuration()
    ensures Of(" 30 ") == Ok(TimeInterval(30, MINUTES))
  {
    assert " 30 "[1..3] == "30" && "30"[..1] == "3";
    assert DigitsValue(" 30 "[1..3]) == 30;
    assert IsFirstRun(" 30 ", IsDigit, 1, 3);
    assert forall k :: 0 <= k < |" 30 "| ==> !IsAsciiLetter(" 30 "[k]);
    OfIsComplete(" 30 ", TimeInterval(30, MINUTES));
  }

  /** An underscore is neither digit nor letter, so "35_MINUTE" reads as 35 minutes. */
  lemma {:induction false} OfReadsUnderscoredUnit()
    ensures Of("35_MINUTE") == Ok(TimeInterval(35, MINUTES))
  {
    assert IsFirstRun("35_MINUTE", IsDigit, 0, 2) && DigitsValue("35_MINUTE"[0..2]) == 35 by {
      assert "35_MINUTE"[0..2] == "35" && "35"[..1] == "3";
    }
    assert IsFirstRun("35_MINUTE", IsAsciiLetter, 3, 9) && IsIdentifiableBy(MINUTES, Some("35_MINUTE"[3..9])) by {
      assert "35_MINUTE"[3..9] == "MINUTE";
      assert EqualsIgnoreCase("MINUTE", Identifiers(MINUTES)[0]);
    }
    OfFromRuns("35_MINUTE", 0, 2, 3, 9, MINUTES);
  }

  /** "12-HOURS" reads as 12 hours. */
  lemma {:induction false} OfReadsHyphenatedUnit()
    ensures Of("12-HOURS") == Ok(TimeInterval(12, HOURS))
  {
    assert IsFirstRun("12-HOURS", IsDigit, 0, 2) && DigitsValue("12-HOURS"[0..2]) == 12 by {
      assert "12-HOURS"[0..2] == "12" && "12"[..1] == "1";
    }
    assert IsFirstRun("12-HOURS", IsAsciiLetter, 3, 8) && IsIdentifiableBy(HOURS, Some("12-HOURS"[3..8])) by {
      assert "12-HOURS"[3..8] == "HOURS";
      assert EqualsIgnoreCase("HOURS", Identifiers(HOURS)[1]);
    }
    OfFromRuns("12-HOURS", 0, 2, 3, 8, HOURS);
  }

  /** The unit may come first: "hour=3" reads as 3 hours. */
  lemma {:induction false} OfReadsUnitFirst()
    ensures Of("hour=3") == Ok(TimeInterval(3, HOURS))
  {
    assert IsFirstRun("hour=3", IsDigit, 5, 6) && DigitsValue("hour=3"[5..6]) == 3 by {
      assert "hour=3"[5..6] == "3" && "3"[..0] == "";
    }
    assert IsFirstRun("hour=3", IsAsciiLetter, 0, 4) && IsIdentifiableBy(HOURS, Some("hour=3"[0..4])) by {
      assert "hour=3"[0..4] == "hour";
      assert EqualsIgnoreCase("hour", Identifiers(HOURS)[0]);
    }
    OfFromRuns("hour=3", 5, 6, 0, 4, HOURS);
  }

  lemma IntervalTextExamples()
    ensures ToMillis(TimeInterval(2, SECONDS)) == 2000
    ensures ToString(TimeInterval(10, SECONDS)) == "10 second(s)"
  {
  }
}
