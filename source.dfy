/**
 * The sources an agent configuration may come from, ordered by precedence,
 * and the loading of a source's global configuration file.
 */
module Sources {
  import opened Wrappers

  datatype Source = ANNOTATION | DEFAULT | XML | JSON

  const VALUES: seq<Source> := [ANNOTATION, DEFAULT, XML, JSON]

  /** `getPrecedence()`: a higher level wins over a lower one. */
  function Precedence(s: Source): int
  {
    match s
    case ANNOTATION => 1
    case DEFAULT => 2
    case XML => 3
    case JSON => 4
  }

  /** The classpath resource holding the source's global configuration, if it has one. */
  function ResourceName(s: Source): Option<string>
  {
    match s
    case ANNOTATION => None
    case DEFAULT => None
    case XML => Some("agents.xml")
    case JSON => Some("agents.json")
  }

  /** The precedence levels are distinct and follow the declaration order. */
  lemma PrecedenceIsStrictOrder(i: int, j: int)
    requires 0 <= i < j < |VALUES|
    ensures Precedence(VALUES[i]) < Precedence(VALUES[j])
  {
  }

  lemma PrecedenceIsInjective(a: Source, b: Source)
    ensures Precedence(a) == Precedence(b) ==> a == b
  {
  }

  /** The non-null source of maximal precedence, or none when every entry is null. */
  function MaxSource(sources: seq<Option<Source>>): (r: Option<Source>)
    ensures r.None? <==> forall i :: 0 <= i < |sources| ==> sources[i].None?
    ensures r.Some? ==> r in sources
    ensures r.Some? ==> forall i :: 0 <= i < |sources| && sources[i].Some? ==> Precedence(sources[i].value) <= Precedence(r.value)
  {
    if sources == [] then None
    else
      var best := MaxSource(sources[1..]);
      assert forall i :: 1 <= i < |sources| ==> sources[i] == sources[1..][i - 1];
      if sources[0].None? then best
      else if best.None? || Precedence(best.value) <= Precedence(sources[0].value) then sources[0]
      else best
  }

  /**
   * `getHighestPrecedenceSource(sources...)`: the non-null source of highest
   * precedence; DEFAULT when there is none. Null entries are ignored.
   */
  function HighestPrecedenceSource(sources: seq<Option<Source>>): (r: Source)
    ensures (forall i :: 0 <= i < |sources| ==> sources[i].None?) ==> r == DEFAULT
    ensures (exists i :: 0 <= i < |sources| && sources[i].Some?) ==> Some(r) in sources
    ensures forall i :: 0 <= i < |sources| && sources[i].Some? ==> Precedence(sources[i].value) <= Precedence(r)
  {
    var best := MaxSource(sources);
    if best.Some? then best.value else DEFAULT
  }

  /** The result does not depend on the order (or the nulls' positions) of the arguments. */
  lemma HighestPrecedenceSourceIgnoresOrder(a: seq<Option<Source>>, b: seq<Option<Source>>)
    requires multiset(a) == multiset(b)
    ensures HighestPrecedenceSource(a) == HighestPrecedenceSource(b)
  {
    var ra, rb := HighestPrecedenceSource(a), HighestPrecedenceSource(b);
    if exists i :: 0 <= i < |a| && a[i].Some? {
      var i :| 0 <= i < |a| && a[i].Some?;
      assert Some(ra) in multiset(b);
      assert Some(rb) in multiset(a);
      var ka :| 0 <= ka < |a| && a[ka] == Some(rb);
      var kb :| 0 <= kb < |b| && b[kb] == Some(ra);
      PrecedenceIsInjective(ra, rb);
    } else {
      forall j | 0 <= j < |b| ensures b[j].None? {
        assert b[j] in multiset(a);
      }
    }
  }

  /** A single source comes back unchanged; no source gives DEFAULT. */
  lemma HighestPrecedenceSourceOfOne(s: Source)
    ensures HighestPrecedenceSource([Some(s)]) == s
    ensures HighestPrecedenceSource([]) == DEFAULT
    ensures HighestPrecedenceSource([None]) == DEFAULT
  {
  }

  /** What the classpath holds under a source's resource name: nothing, or a file that may not parse. */
  datatype Resource<G> = Missing | Present(url: string, parsed: Option<G>)

  /** A global configuration tagged with the source it was read from (`setSource(this)`). */
  datatype Loaded<G> = Loaded(configuration: G, source: Source)

  /**
   * `loadGlobalConfiguration()`: ANNOTATION and DEFAULT have no file; a missing
   * file gives nothing; a file that does not parse is an AgentConfigurationException.
   */
  function LoadGlobalConfiguration<G>(s: Source, resource: Resource<G>): (r: Result<Option<Loaded<G>>>)
    ensures ResourceName(s).None? || resource.Missing? ==> r == Ok(None)
    ensures r.Err? <==> ResourceName(s).Some? && resource.Present? && resource.parsed.None?
    ensures r.Err? ==> r.error == BadConfiguration("Unable to parse configuration file: " + resource.url)
    ensures r.Ok? && r.value.Some? ==> r.value.value.source == s && resource.Present? && resource.parsed == Some(r.value.value.configuration)
  {
    if ResourceName(s).None? then Ok(None)
    else match resource
      case Missing => Ok(None)
      case Present(url, parsed) =>
        if parsed.None? then Err(BadConfiguration("Unable to parse configuration file: " + url))
        else Ok(Some(Loaded(parsed.value, s)))
  }

  /** `loadGlobalConfigurationQuietly()`: the same, with a parse failure downgraded to nothing. */
  function LoadGlobalConfigurationQuietly<G>(s: Source, resource: Resource<G>): (r: Option<Loaded<G>>)
    ensures LoadGlobalConfiguration(s, resource).Ok? ==> r == LoadGlobalConfiguration(s, resource).value
    ensures LoadGlobalConfiguration(s, resource).Err? ==> r == None
  {
    match LoadGlobalConfiguration(s, resource)
    case Ok(loaded) => loaded
    case Err(_) => None
  }

  /** The quiet loader never fails, and gives something only for a parsed file of a file-backed source. */
  lemma QuietLoaderIsTotal<G>(s: Source, resource: Resource<G>)
    ensures LoadGlobalConfigurationQuietly(s, resource).Some? <==>
      ResourceName(s).Some? && resource.Present? && resource.parsed.Some?
  {
  }
}
