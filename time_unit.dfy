/**
 * The three time units an agent interval may use, their textual identifiers,
 * and millisecond conversion with the saturation of java.util.concurrent.TimeUnit.
 */
module TimeUnits {
  import opened Wrappers
  import opened Numerals

  datatype TimeUnit = SECONDS | MINUTES | HOURS

  /** The unit assumed when an interval names none. */
  const DEFAULT: TimeUnit := MINUTES

  /** The declaration order of the constants (`TimeUnit.values()`). */
  const VALUES: seq<TimeUnit> := [SECONDS, MINUTES, HOURS]

  /** The accepted spellings of each unit, compared ignoring case. */
  function Identifiers(u: TimeUnit): seq<string>
  {
    match u
    case SECONDS => ["second", "seconds", "second(s)", "s"]
    case MINUTES => ["minute", "minutes", "minute(s)", "m"]
    case HOURS => ["hour", "hours", "hour(s)", "h"]
  }

  /** `toString()`: the text used when an interval is printed. */
  function DisplayText(u: TimeUnit): (r: string)
    ensures r in Identifiers(u)
  {
    match u
    case SECONDS => "second(s)"
    case MINUTES => "minute(s)"
    case HOURS => "hour(s)"
  }

  /** Milliseconds in one unit: the scale of the matching java.util.concurrent.TimeUnit. */
  function Scale(u: TimeUnit): nat
  {
    match u
    case SECONDS => 1000
    case MINUTES => 60 * 1000
    case HOURS => 60 * 60 * 1000
  }

  /**
   * The character `String.equalsIgnoreCase` compares in place of `c` against a
   * lowercase ASCII letter: ASCII capitals, the two Turkish i's (U+0130, U+0131),
   * the long s (U+017F) and the Kelvin sign (U+212A) fold onto ASCII letters.
   */
  function FoldCase(c: char): char
  {
    if 'A' <= c <= 'Z' then (c as int + 32) as char
    else if c == '\U{0130}' || c == '\U{0131}' then 'i'
    else if c == '\U{017F}' then 's'
    else if c == '\U{212A}' then 'k'
    else c
  }

  /**
   * `a.equalsIgnoreCase(b)` for a `b` made of lowercase ASCII letters and
   * punctuation, which is how the identifiers are written.
   */
  predicate EqualsIgnoreCase(a: string, b: string)
  {
    |a| == |b| && forall i :: 0 <= i < |a| ==> FoldCase(a[i]) == FoldCase(b[i])
  }

  /** `isIdentifiableBy`: a non-null, non-empty text equal to one identifier, ignoring case. */
  predicate IsIdentifiableBy(u: TimeUnit, identifier: Option<string>)
  {
    && identifier.Some?
    && |identifier.value| > 0
    && exists k :: 0 <= k < |Identifiers(u)| && EqualsIgnoreCase(identifier.value, Identifiers(u)[k])
  }

  /** The text of a possibly null string as `String.format("%s")` prints it. */
  function Show(s: Option<string>): string
  {
    if s.Some? then s.value else "null"
  }

  /**
   * `findByIdentifier`: the first unit, in declaration order, identifiable by
   * the text; an IllegalArgumentException when none is.
   */
  function FindByIdentifier(identifier: Option<string>): (r: Result<TimeUnit>)
    ensures r.Ok? ==> IsIdentifiableBy(r.value, identifier)
    ensures r.Err? ==> forall u :: !IsIdentifiableBy(u, identifier)
    ensures r.Err? ==> r.error == IllegalArgument("Invalid time unit identifier: \"" + Show(identifier) + "\"")
  {
    if IsIdentifiableBy(SECONDS, identifier) then Ok(SECONDS)
    else if IsIdentifiableBy(MINUTES, identifier) then Ok(MINUTES)
    else if IsIdentifiableBy(HOURS, identifier) then Ok(HOURS)
    else Err(IllegalArgument("Invalid time unit identifier: \"" + Show(identifier) + "\""))
  }

  /** The first letter shared by all identifiers of a unit. */
  function Initial(u: TimeUnit): char
  {
    match u
    case SECONDS => 's'
    case MINUTES => 'm'
    case HOURS => 'h'
  }

  lemma IdentifierStartsWithInitial(u: TimeUnit, k: int)
    requires 0 <= k < |Identifiers(u)|
    ensures |Identifiers(u)[k]| > 0 && FoldCase(Identifiers(u)[k][0]) == Initial(u)
  {
  }

  /** No text identifies two units: the identifier lists are disjoint, ignoring case. */
  lemma IdentifiersAreDisjoint(u: TimeUnit, v: TimeUnit, identifier: Option<string>)
    requires IsIdentifiableBy(u, identifier) && IsIdentifiableBy(v, identifier)
    ensures u == v
  {
    var s := identifier.value;
    var k :| 0 <= k < |Identifiers(u)| && EqualsIgnoreCase(s, Identifiers(u)[k]);
    var j :| 0 <= j < |Identifiers(v)| && EqualsIgnoreCase(s, Identifiers(v)[j]);
    IdentifierStartsWithInitial(u, k);
    IdentifierStartsWithInitial(v, j);
    assert FoldCase(s[0]) == Initial(u) && FoldCase(s[0]) == Initial(v);
  }

  /** findByIdentifier succeeds with exactly the unit the text identifies. */
  lemma FindByIdentifierIsExact(identifier: Option<string>, u: TimeUnit)
    ensures FindByIdentifier(identifier) == Ok(u) <==> IsIdentifiableBy(u, identifier)
  {
    var r := FindByIdentifier(identifier);
    if IsIdentifiableBy(u, identifier) && r.Ok? {
      IdentifiersAreDisjoint(u, r.value, identifier);
    }
  }

  /** Every spelling of every identifier of a unit, in any letter case, finds that unit. */
  lemma FindByAnySpelling(u: TimeUnit, k: int, spelling: string)
    requires 0 <= k < |Identifiers(u)|
    requires EqualsIgnoreCase(spelling, Identifiers(u)[k])
    ensures FindByIdentifier(Some(spelling)) == Ok(u)
  {
    IdentifierStartsWithInitial(u, k);
    assert IsIdentifiableBy(u, Some(spelling));
    FindByIdentifierIsExact(Some(spelling), u);
  }

  /** A null or empty identifier never names a unit. */
  lemma NullOrEmptyIdentifiesNothing(u: TimeUnit)
    ensures !IsIdentifiableBy(u, None) && !IsIdentifiableBy(u, Some(""))
    ensures FindByIdentifier(None).Err? && FindByIdentifier(Some("")).Err?
  {
  }

  /** A long value forced into the long range, as the saturating conversions do. */
  function Clamp(x: int): Int64
  {
    if x > LONG_MAX then LONG_MAX else if x < LONG_MIN then LONG_MIN else x
  }

  /**
   * `toMillis`: the duration in milliseconds, saturating at Long.MAX_VALUE and
   * Long.MIN_VALUE when the product overflows.
   */
  function ToMillis(u: TimeUnit, amount: Int64): (r: Int64)
    ensures r == Clamp(amount * Scale(u))
  {
    var limit := LONG_MAX / Scale(u);
    if amount > limit then LONG_MAX
    else if amount < -limit then LONG_MIN
    else amount * Scale(u)
  }

  /**
   * `convert(amount, source)`: to a finer unit by a saturating multiplication,
   * to a coarser unit by a division truncated toward zero.
   */
  function Convert(target: TimeUnit, amount: Int64, source: TimeUnit): (r: Int64)
    ensures Scale(source) >= Scale(target) ==> r == Clamp(amount * (Scale(source) / Scale(target)))
    ensures Scale(source) < Scale(target) ==> r == JavaDiv(amount, Scale(target) / Scale(source))
  {
    if source == target then amount
    else if Scale(source) < Scale(target) then JavaDiv(amount, Scale(target) / Scale(source))
    else
      var ratio := Scale(source) / Scale(target);
      var limit := LONG_MAX / ratio;
      SaturationBounds(amount, ratio);
      if amount > limit then LONG_MAX
      else if amount < -limit then LONG_MIN
      else amount * ratio
  }

  /** The guards of the saturating multiplication tell exactly when the product leaves the long range. */
  lemma SaturationBounds(amount: int, ratio: int)
    requires ratio > 0
    ensures amount > LONG_MAX / ratio ==> amount * ratio > LONG_MAX
    ensures amount < -(LONG_MAX / ratio) ==> amount * ratio <= LONG_MIN
    ensures -(LONG_MAX / ratio) <= amount <= LONG_MAX / ratio ==> LONG_MIN <= amount * ratio <= LONG_MAX
  {
    var q := LONG_MAX / ratio;
    assert LONG_MAX == q * ratio + LONG_MAX % ratio;
    assert (q + 1) * ratio == q * ratio + ratio;
    if amount > q {
      MulIsMonotonic(q + 1, amount, ratio);
    } else if amount < -q {
      MulIsMonotonic(amount, -(q + 1), ratio);
      assert -(q + 1) * ratio == -((q + 1) * ratio);
    } else {
      MulIsMonotonic(amount, q, ratio);
      MulIsMonotonic(-q, amount, ratio);
      assert -q * ratio == -(q * ratio);
    }
  }

  /** Converting to a finer unit and back restores the amount when nothing saturates. */
  lemma ConvertRoundTrip(fine: TimeUnit, coarse: TimeUnit, amount: Int64)
    requires Scale(fine) <= Scale(coarse)
    requires LONG_MIN <= amount * (Scale(coarse) / Scale(fine)) <= LONG_MAX
    ensures Convert(coarse, Convert(fine, amount, coarse), fine) == amount
  {
  }

  /** An interval duration (a Java int) never saturates in milliseconds. */
  lemma IntDurationToMillisIsExact(u: TimeUnit, amount: Int32)
    ensures ToMillis(u, amount) == amount * Scale(u)
  {
  }
}
