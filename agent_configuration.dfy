/**
 * The configuration of one agent, its builder (which validates the input and
 * fills in defaults when it builds), configuration equality and hash, and
 * the choice of the highest-precedence configuration among several.
 */
module AgentConfigurations {
  import opened Wrappers
  import opened Numerals
  import opened Hashing
  import opened AgentTypes
  import opened Sources

  /** A built configuration: every text is present, and the source is known. */
  datatype AgentConfiguration = AgentConfiguration(
    name: string,
    agentType: AgentType,
    className: string,
    interval: string,
    source: Source,
    modulate: bool,
    enableStatistics: bool)

  const MSG_TYPE_CANNOT_BE_NULL: string := "the agent type cannot be null"
  const MSG_CLASS_NAME_CANNOT_BE_NULL: string := "the class name cannot be null"

  /** `StringUtils.isEmpty`: null or "". */
  predicate IsEmpty(s: Option<string>)
  {
    s.None? || s.value == ""
  }

  /** What a builder holds; every text and the type may still be null. */
  datatype BuilderFields = BuilderFields(
    name: Option<string>,
    agentType: Option<AgentType>,
    className: Option<string>,
    interval: Option<string>,
    modulate: bool,
    enableStatistics: bool)

  const EMPTY_BUILDER: BuilderFields := BuilderFields(None, None, None, None, false, false)

  /** Why a build fails, if it does: a null type first, then an empty class name. */
  function BuildError(f: BuilderFields): Option<Error>
  {
    if f.agentType.None? then Some(NullPointer(MSG_TYPE_CANNOT_BE_NULL))
    else if IsEmpty(f.className) then Some(BadConfiguration(MSG_CLASS_NAME_CANNOT_BE_NULL))
    else None
  }

  /** The builder's fields after a successful build wrote the defaults back. */
  function Defaulted(f: BuilderFields): (d: BuilderFields)
    requires BuildError(f).None?
    ensures d.agentType == f.agentType && d.className == f.className
    ensures d.modulate == f.modulate && d.enableStatistics == f.enableStatistics
    ensures !IsEmpty(d.name) && !IsEmpty(d.interval)
    ensures !IsEmpty(f.name) ==> d.name == f.name
    ensures IsEmpty(f.name) ==> d.name == f.className
    ensures !IsEmpty(f.interval) ==> d.interval == f.interval
    ensures IsEmpty(f.interval) ==> d.interval == Some(DefaultInterval(f.agentType.value))
  {
    f.(name := if IsEmpty(f.name) then f.className else f.name,
       interval := if IsEmpty(f.interval) then Some(DefaultInterval(f.agentType.value)) else f.interval)
  }

  /** `ObjectUtils.defaultIfNull(source, Source.DEFAULT)`. */
  function SourceOrDefault(source: Option<Source>): Source
  {
    if source.Some? then source.value else DEFAULT
  }

  /**
   * `build(source)` on given builder fields: the error, or the configuration
   * made of the defaulted fields and the source (DEFAULT for null).
   */
  function BuildFrom(f: BuilderFields, source: Option<Source>): (r: Result<AgentConfiguration>)
    ensures BuildError(f).Some? <==> r.Err?
    ensures r.Err? ==> r.error == BuildError(f).value
    ensures r.Ok? ==> r.value.className == f.className.value && r.value.agentType == f.agentType.value
    ensures r.Ok? ==> r.value.name != "" && r.value.interval != ""
    ensures r.Ok? ==> r.value.name == (if IsEmpty(f.name) then f.className.value else f.name.value)
    ensures r.Ok? ==> r.value.interval == (if IsEmpty(f.interval) then DefaultInterval(f.agentType.value) else f.interval.value)
    ensures r.Ok? ==> r.value.source == SourceOrDefault(source)
    ensures r.Ok? ==> r.value.modulate == f.modulate && r.value.enableStatistics == f.enableStatistics
  {
    if BuildError(f).Some? then Err(BuildError(f).value)
    else
      var d := Defaulted(f);
      Ok(AgentConfiguration(d.name.value, d.agentType.value, d.className.value, d.interval.value,
        SourceOrDefault(source), d.modulate, d.enableStatistics))
  }

  /** Building writes the defaults back, so a second build sees nothing to default and gives the same configuration. */
  lemma BuildIsIdempotent(f: BuilderFields, source: Option<Source>)
    requires BuildError(f).None?
    ensures BuildError(Defaulted(f)).None?
    ensures Defaulted(Defaulted(f)) == Defaulted(f)
    ensures BuildFrom(Defaulted(f), source) == BuildFrom(f, source)
  {
  }

  /** A type and a non-empty class name are all a build needs. */
  lemma BuildSucceedsWithTypeAndClassName(f: BuilderFields, source: Option<Source>)
    ensures BuildFrom(f, source).Ok? <==> f.agentType.Some? && f.className.Some? && f.className.value != ""
  {
  }

  /** `AgentConfiguration.Builder`: setters that return the builder itself, and `build`. */
  class Builder {
    var name: Option<string>
    var agentType: Option<AgentType>
    var className: Option<string>
    var interval: Option<string>
    var modulate: bool
    var enableStatistics: bool

    function Fields(): BuilderFields
      reads this
    {
      BuilderFields(name, agentType, className, interval, modulate, enableStatistics)
    }

    constructor ()
      ensures Fields() == EMPTY_BUILDER
    {
      name, agentType, className, interval := None, None, None, None;
      modulate, enableStatistics := false, false;
    }

    method Type(t: Option<AgentType>) returns (self: Builder)
      modifies this
      ensures self == this && Fields() == old(Fields()).(agentType := t)
    {
      agentType := t;
      self := this;
    }

    method Name(n: Option<string>) returns (self: Builder)
      modifies this
      ensures self == this && Fields() == old(Fields()).(name := n)
    {
      name := n;
      self := this;
    }

    method ClassName(c: Option<string>) returns (self: Builder)
      modifies this
      ensures self == this && Fields() == old(Fields()).(className := c)
    {
      className := c;
      self := this;
    }

    method Interval(i: Option<string>) returns (self: Builder)
      modifies this
      ensures self == this && Fields() == old(Fields()).(interval := i)
    {
      interval := i;
      self := this;
    }

    method Modulate(m: bool) returns (self: Builder)
      modifies this
      ensures self == this && Fields() == old(Fields()).(modulate := m)
    {
      modulate := m;
      self := this;
    }

    method EnableStatistics(e: bool) returns (self: Builder)
      modifies this
      ensures self == this && Fields() == old(Fields()).(enableStatistics := e)
    {
      enableStatistics := e;
      self := this;
    }

    /**
     * `build(source)`: fails on a null type or an empty class name, leaving
     * the builder as it was; otherwise writes the defaulted name and interval
     * back into the builder and returns the configuration.
     */
    method Build(source: Option<Source>) returns (r: Result<AgentConfiguration>)
      modifies this
      ensures r == BuildFrom(old(Fields()), source)
      ensures r.Err? ==> Fields() == old(Fields())
      ensures r.Ok? ==> Fields() == Defaulted(old(Fields()))
    {
      if agentType.None? {
        return Err(NullPointer(MSG_TYPE_CANNOT_BE_NULL));
      }
      if className.None? || className.value == "" {
        return Err(BadConfiguration(MSG_CLASS_NAME_CANNOT_BE_NULL));
      }
      if name.None? || name.value == "" {
        name := className;
      }
      if interval.None? || interval.value == "" {
        interval := Some(DefaultInterval(agentType.value));
      }
      r := Ok(AgentConfiguration(name.value, agentType.value, className.value, interval.value,
        SourceOrDefault(source), modulate, enableStatistics));
    }

    /** `build()`: a build stamped with Source.DEFAULT. */
    method BuildDefault() returns (r: Result<AgentConfiguration>)
      modifies this
      ensures r == BuildFrom(old(Fields()), Some(DEFAULT))
      ensures r.Err? ==> Fields() == old(Fields())
      ensures r.Ok? ==> Fields() == Defaulted(old(Fields())) && r.value.source == DEFAULT
    {
      r := Build(Some(DEFAULT));
    }
  }

  /** `equals`: the same name, class name, interval, type and source; the two flags are not compared. */
  predicate SameConfiguration(a: AgentConfiguration, b: AgentConfiguration)
  {
    a.className == b.className && a.interval == b.interval && a.name == b.name
      && a.source == b.source && a.agentType == b.agentType
  }

  /** Configuration equality is an equivalence that ignores exactly the modulate and statistics flags. */
  lemma SameConfigurationIgnoresFlags(a: AgentConfiguration, b: AgentConfiguration)
    ensures SameConfiguration(a, b) <==>
      a.(modulate := false, enableStatistics := false) == b.(modulate := false, enableStatistics := false)
    ensures SameConfiguration(a, a)
    ensures SameConfiguration(a, b) ==> SameConfiguration(b, a)
  {
  }

  /**
   * `hashCode`: `Objects.hash(name, className, interval, type, source)`. The
   * enum constants hash by identity, which this model takes as given functions.
   */
  function HashCode(c: AgentConfiguration, typeHash: AgentType -> Int32, sourceHash: Source -> Int32): Int32
  {
    CombineHashes([StringHash(c.name), StringHash(c.className), StringHash(c.interval),
      typeHash(c.agentType), sourceHash(c.source)])
  }

  /** Equal configurations hash equally, whatever the identity hashes of the constants. */
  lemma EqualConfigurationsHashEqually(a: AgentConfiguration, b: AgentConfiguration,
                                       typeHash: AgentType -> Int32, sourceHash: Source -> Int32)
    requires SameConfiguration(a, b)
    ensures HashCode(a, typeHash, sourceHash) == HashCode(b, typeHash, sourceHash)
  {
  }

  /** The sources of the non-null configurations, nulls kept in place. */
  function SourcesOf(configurations: seq<Option<AgentConfiguration>>): (r: seq<Option<Source>>)
    ensures |r| == |configurations|
    ensures forall i :: 0 <= i < |r| ==> r[i].Some? == configurations[i].Some?
    ensures forall i :: 0 <= i < |r| && r[i].Some? ==> r[i].value == configurations[i].value.source
  {
    if configurations == [] then []
    else [if configurations[0].Some? then Some(configurations[0].value.source) else None] + SourcesOf(configurations[1..])
  }

  /** The first non-null configuration of the given source. */
  function FirstWithSource(configurations: seq<Option<AgentConfiguration>>, s: Source): (r: Option<nat>)
    ensures r.None? <==> forall i :: 0 <= i < |configurations| ==> configurations[i].None? || configurations[i].value.source != s
    ensures r.Some? ==> r.value < |configurations| && configurations[r.value].Some? && configurations[r.value].value.source == s
    ensures r.Some? ==> forall i :: 0 <= i < r.value ==> configurations[i].None? || configurations[i].value.source != s
  {
    if configurations == [] then None
    else if configurations[0].Some? && configurations[0].value.source == s then Some(0)
    else
      var rest := FirstWithSource(configurations[1..], s);
      assert forall i :: 1 <= i < |configurations| ==> configurations[i] == configurations[1..][i - 1];
      if rest.None? then None else Some(rest.value + 1)
  }

  /** The position holding the first non-null configuration whose source has the highest precedence present. */
  predicate IsFirstOfHighestPrecedence(configurations: seq<Option<AgentConfiguration>>, k: int)
  {
    && 0 <= k < |configurations|
    && configurations[k].Some?
    && (forall i :: 0 <= i < |configurations| && configurations[i].Some? ==>
          Precedence(configurations[i].value.source) <= Precedence(configurations[k].value.source))
    && (forall i :: 0 <= i < k && configurations[i].Some? ==>
          Precedence(configurations[i].value.source) < Precedence(configurations[k].value.source))
  }

  /**
   * `getHighestPrecedenceConfiguration(collection)`: a null or empty
   * collection and a collection without a non-null element are refused; with
   * one element, that element; otherwise the first non-null configuration of
   * the highest precedence present.
   */
  function HighestPrecedenceConfiguration(configurations: Option<seq<Option<AgentConfiguration>>>): (r: Result<AgentConfiguration>)
    ensures configurations.None? || configurations.value == [] ==>
      r == Err(IllegalArgument("At least one agent configuration must be specified"))
    ensures configurations.Some? && configurations.value != [] && (forall i :: 0 <= i < |configurations.value| ==> configurations.value[i].None?) ==>
      r == Err(IllegalArgument("At least one non-null agent configuration must be specified"))
    ensures r.Ok? ==> exists k :: IsFirstOfHighestPrecedence(configurations.value, k) && configurations.value[k] == Some(r.value)
    ensures configurations.Some? && (exists i :: 0 <= i < |configurations.value| && configurations.value[i].Some?) ==> r.Ok?
  {
    if configurations.None? || configurations.value == [] then
      Err(IllegalArgument("At least one agent configuration must be specified"))
    else
      var cs := configurations.value;
      var highest := HighestPrecedenceSource(SourcesOf(cs));
      var found := FirstWithSource(cs, highest);
      if |cs| > 1 && found.Some? then
        FoundIsFirstOfHighest(cs, found.value);
        assert cs[found.value] == Some(cs[found.value].value);
        Ok(cs[found.value].value)
      else if cs[0].None? then
        Err(IllegalArgument("At least one non-null agent configuration must be specified"))
      else
        HighestIsFound(cs);
        assert found == Some(0);
        FoundIsFirstOfHighest(cs, 0);
        Ok(cs[0].value)
  }

  /** The position the search for the highest source finds is the first of the highest precedence. */
  lemma FoundIsFirstOfHighest(cs: seq<Option<AgentConfiguration>>, k: nat)
    ensures FirstWithSource(cs, HighestPrecedenceSource(SourcesOf(cs))) == Some(k) ==> IsFirstOfHighestPrecedence(cs, k)
  {
    var sources := SourcesOf(cs);
    var highest := HighestPrecedenceSource(sources);
    if FirstWithSource(cs, highest) == Some(k) {
      forall i | 0 <= i < |cs| && cs[i].Some?
        ensures Precedence(cs[i].value.source) <= Precedence(highest)
      {
        assert sources[i].Some?;
      }
      forall i | 0 <= i < k && cs[i].Some?
        ensures Precedence(cs[i].value.source) < Precedence(highest)
      {
        assert sources[i].Some?;
        PrecedenceIsInjective(cs[i].value.source, highest);
      }
    }
  }

  /** When some configuration is non-null, one of them carries the highest source. */
  lemma HighestIsFound(cs: seq<Option<AgentConfiguration>>)
    requires exists i :: 0 <= i < |cs| && cs[i].Some?
    ensures FirstWithSource(cs, HighestPrecedenceSource(SourcesOf(cs))).Some?
  {
    var sources := SourcesOf(cs);
    var highest := HighestPrecedenceSource(sources);
    var i :| 0 <= i < |cs| && cs[i].Some?;
    assert sources[i].Some?;
    assert Some(highest) in sources;
    var k :| 0 <= k < |sources| && sources[k] == Some(highest);
    assert cs[k].Some? && cs[k].value.source == highest;
    assert !(cs[k].None? || cs[k].value.source != highest);
  }

  /** The choice is determined: at most one position is the first of the highest precedence. */
  lemma FirstOfHighestIsUnique(cs: seq<Option<AgentConfiguration>>, k: int, k': int)
    requires IsFirstOfHighestPrecedence(cs, k) && IsFirstOfHighestPrecedence(cs, k')
    ensures k == k'
  {
    assert Precedence(cs[k].value.source) <= Precedence(cs[k'].value.source);
    assert Precedence(cs[k'].value.source) <= Precedence(cs[k].value.source);
  }

  /** An XML configuration wins over DEFAULT and ANNOTATION ones, in any position. */
  lemma XmlWinsOverDefault(d: AgentConfiguration, x: AgentConfiguration, a: AgentConfiguration)
    requires d.source == DEFAULT && x.source == XML && a.source == ANNOTATION
    ensures HighestPrecedenceConfiguration(Some([Some(d), Some(x), Some(a)])) == Ok(x)
    ensures HighestPrecedenceConfiguration(Some([Some(a), None, Some(x)])) == Ok(x)
  {
    XmlWinsBetweenDefaultAndAnnotation(d, x, a);
    XmlWinsAfterAnnotationAndGap(x, a);
  }

  /** The first non-null configuration of the highest precedence present is the one chosen. */
  lemma ChoosesFirstOfHighest(cs: seq<Option<AgentConfiguration>>, k: int)
    requires IsFirstOfHighestPrecedence(cs, k)
    ensures HighestPrecedenceConfiguration(Some(cs)) == Ok(cs[k].value)
  {
    var r := HighestPrecedenceConfiguration(Some(cs));
    var k' :| IsFirstOfHighestPrecedence(cs, k') && cs[k'] == Some(r.value);
    FirstOfHighestIsUnique(cs, k, k');
  }

  lemma XmlWinsBetweenDefaultAndAnnotation(d: AgentConfiguration, x: AgentConfiguration, a: AgentConfiguration)
    requires d.source == DEFAULT && x.source == XML && a.source == ANNOTATION
    ensures HighestPrecedenceConfiguration(Some([Some(d), Some(x), Some(a)])) == Ok(x)
  {
    ChoosesFirstOfHighest([Some(d), Some(x), Some(a)], 1);
  }

  lemma XmlWinsAfterAnnotationAndGap(x: AgentConfiguration, a: AgentConfiguration)
    requires x.source == XML && a.source == ANNOTATION
    ensures HighestPrecedenceConfiguration(Some([Some(a), None, Some(x)])) == Ok(x)
  {
    ChoosesFirstOfHighest([Some(a), None, Some(x)], 2);
  }
}
