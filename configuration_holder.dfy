/**
 * The holder of the agent configurations read from the configuration files:
 * every candidate builder is built, and the results are indexed by class name.
 */
module ConfigurationHolders {
  import opened Wrappers
  import opened Sources
  import opened AgentConfigurations

  /** The `global` section of a configuration file: a list of candidate builders that may be absent. */
  datatype GlobalConfiguration = GlobalConfiguration(agents: Option<seq<Builder>>)

  /** `new GlobalConfiguration()`. */
  const NEW_GLOBAL_CONFIGURATION: GlobalConfiguration := GlobalConfiguration(None)

  /**
   * The merged configuration bean: its `agents` list is absent when the file has
   * none, and its `global` section is absent when the file sets it to null.
   */
  datatype Configuration = Configuration(agents: Option<seq<Builder>>, globalConfiguration: Option<GlobalConfiguration>)

  /** The builders `fillAuxiliaryObjects` goes through: none without a bean or a list. */
  function Candidates(config: Option<Configuration>): seq<Builder>
  {
    if config.Some? && config.value.agents.Some? then config.value.agents.value else []
  }

  /** The builders' fields as they stand now, one per list entry. */
  function Snapshot(builders: seq<Builder>): (r: seq<BuilderFields>)
    reads set b | b in builders
    ensures |r| == |builders|
    ensures forall j :: 0 <= j < |builders| ==> r[j] == builders[j].Fields()
  {
    if builders == [] then [] else [builders[0].Fields()] + Snapshot(builders[1..])
  }

  /** `build()` on a candidate: a configuration from the DEFAULT source. */
  function Built(f: BuilderFields): Result<AgentConfiguration>
  {
    BuildFrom(f, Some(DEFAULT))
  }

  /** `stream().map(Builder::build)`: the outcome of building each candidate, in list order. */
  function BuildAll(fields: seq<BuilderFields>): (r: seq<Result<AgentConfiguration>>)
    ensures |r| == |fields|
    ensures forall j :: 0 <= j < |fields| ==> r[j] == Built(fields[j])
  {
    if fields == [] then [] else [Built(fields[0])] + BuildAll(fields[1..])
  }

  predicate AllOk(built: seq<Result<AgentConfiguration>>)
  {
    forall j :: 0 <= j < |built| ==> built[j].Ok?
  }

  /** No two built configurations share a class name. */
  predicate DistinctClassNames(built: seq<Result<AgentConfiguration>>)
    requires AllOk(built)
  {
    forall i, j :: 0 <= i < j < |built| ==> built[i].value.className != built[j].value.className
  }

  /** The accumulator of `Collectors.toMap`: a class name met twice is an IllegalStateException. */
  function Accumulate(index: map<string, AgentConfiguration>, c: AgentConfiguration): (r: Result<map<string, AgentConfiguration>>)
    ensures r.Err? <==> c.className in index
    ensures r.Ok? ==> r.value == index[c.className := c]
  {
    if c.className in index then Err(IllegalState(""))
    else Ok(index[c.className := c])
  }

  /**
   * `collect(Collectors.toMap(getClassName, identity()))`, in list order: the
   * first failed build, or the first class name met twice, ends the collection
   * with that error.
   */
  function ToMap(built: seq<Result<AgentConfiguration>>): (r: Result<map<string, AgentConfiguration>>)
    ensures r.Ok? ==> forall k :: k in r.value ==> r.value[k].className == k
  {
    if built == [] then Ok(map[])
    else
      var m :- ToMap(built[..|built| - 1]);
      var c :- built[|built| - 1];
      Accumulate(m, c)
  }

  /** The collection stops at its first error: nothing after it counts. */
  lemma {:induction false} ToMapKeepsFirstError(built: seq<Result<AgentConfiguration>>, k: int)
    requires 0 <= k <= |built| && ToMap(built[..k]).Err?
    ensures ToMap(built) == ToMap(built[..k])
  {
    if k < |built| {
      var n := |built| - 1;
      assert built[..n][..k] == built[..k];
      ToMapKeepsFirstError(built[..n], k);
    } else {
      assert built[..k] == built;
    }
  }

  /** One more build: its failure, or its accumulation into the index so far. */
  lemma ToMapStep(built: seq<Result<AgentConfiguration>>, i: int, index: map<string, AgentConfiguration>)
    requires 0 <= i < |built| && ToMap(built[..i]) == Ok(index)
    ensures built[i].Err? ==> ToMap(built[..i + 1]) == Err(built[i].error)
    ensures built[i].Ok? ==> ToMap(built[..i + 1]) == Accumulate(index, built[i].value)
  {
    assert built[..i + 1][..i] == built[..i];
  }

  /** A successful collection saw no failed build. */
  lemma {:induction false} ToMapNeedsAllOk(built: seq<Result<AgentConfiguration>>)
    requires ToMap(built).Ok?
    ensures AllOk(built)
  {
    if built != [] {
      var n := |built| - 1;
      assert forall j :: 0 <= j < n ==> built[..n][j] == built[j];
      ToMapNeedsAllOk(built[..n]);
    }
  }

  /** A successful collection holds every configuration under its class name, and nothing else. */
  lemma {:induction false} ToMapIndexesAll(built: seq<Result<AgentConfiguration>>)
    requires ToMap(built).Ok? && AllOk(built)
    ensures forall j :: 0 <= j < |built| ==>
      built[j].value.className in ToMap(built).value && ToMap(built).value[built[j].value.className] == built[j].value
    ensures forall k :: k in ToMap(built).value ==>
      exists j :: 0 <= j < |built| && built[j] == Ok(ToMap(built).value[k])
  {
    if built != [] {
      var n := |built| - 1;
      var prefix := built[..n];
      assert forall j :: 0 <= j < n ==> prefix[j] == built[j];
      ToMapIndexesAll(prefix);
      var m := ToMap(prefix).value;
      var c := built[n].value;
      assert ToMap(built).value == m[c.className := c];
      forall k | k in ToMap(built).value
        ensures exists j :: 0 <= j < |built| && built[j] == Ok(ToMap(built).value[k])
      {
        if k == c.className {
          assert built[n] == Ok(ToMap(built).value[k]);
        } else {
          var j :| 0 <= j < n && prefix[j] == Ok(m[k]);
          assert built[j] == Ok(ToMap(built).value[k]);
        }
      }
    }
  }

  /** A successful collection saw no class name twice. */
  lemma {:induction false} ToMapNeedsDistinctClassNames(built: seq<Result<AgentConfiguration>>)
    requires ToMap(built).Ok?
    ensures AllOk(built) && DistinctClassNames(built)
  {
    ToMapNeedsAllOk(built);
    if built != [] {
      var n := |built| - 1;
      var prefix := built[..n];
      assert forall j :: 0 <= j < n ==> prefix[j] == built[j];
      ToMapNeedsDistinctClassNames(prefix);
      ToMapIndexesAll(prefix);
      forall i | 0 <= i < n ensures built[i].value.className != built[n].value.className {
        assert prefix[i].value.className in ToMap(prefix).value;
      }
    }
  }

  /** Successful builds with distinct class names are all collected. */
  lemma {:induction false} DistinctClassNamesAreCollected(built: seq<Result<AgentConfiguration>>)
    requires AllOk(built) && DistinctClassNames(built)
    ensures ToMap(built).Ok?
  {
    if built != [] {
      var n := |built| - 1;
      var prefix := built[..n];
      assert forall j :: 0 <= j < n ==> prefix[j] == built[j];
      assert AllOk(prefix) && DistinctClassNames(prefix);
      DistinctClassNamesAreCollected(prefix);
      ToMapIndexesAll(prefix);
      var m := ToMap(prefix).value;
      assert built[n].value.className !in m;
    }
  }

  /** The collection succeeds exactly when every build succeeds and no class name repeats. */
  lemma ToMapSucceedsIff(built: seq<Result<AgentConfiguration>>)
    ensures ToMap(built).Ok? <==> AllOk(built) && DistinctClassNames(built)
  {
    if ToMap(built).Ok? {
      ToMapNeedsDistinctClassNames(built);
    }
    if AllOk(built) && DistinctClassNames(built) {
      DistinctClassNamesAreCollected(built);
    }
  }

  /** Two candidates for the same class make the whole collection fail. */
  lemma DuplicateClassNameFails(fields: seq<BuilderFields>, i: int, j: int)
    requires 0 <= i < j < |fields|
    requires fields[i].className == fields[j].className
    ensures ToMap(BuildAll(fields)).Err?
  {
    ToMapSucceedsIff(BuildAll(fields));
  }

  /** Everything indexed was built from the DEFAULT source, with a name and an interval. */
  lemma IndexedAreBuilt(fields: seq<BuilderFields>)
    requires ToMap(BuildAll(fields)).Ok?
    ensures forall k :: k in ToMap(BuildAll(fields)).value ==>
      var c := ToMap(BuildAll(fields)).value[k]; c.source == DEFAULT && c.name != "" && c.interval != ""
  {
    var built := BuildAll(fields);
    ToMapNeedsAllOk(built);
    ToMapIndexesAll(built);
    forall k | k in ToMap(built).value
      ensures var c := ToMap(built).value[k]; c.source == DEFAULT && c.name != "" && c.interval != ""
    {
      var j :| 0 <= j < |built| && built[j] == Ok(ToMap(built).value[k]);
      assert Built(fields[j]) == built[j];
    }
  }

  /** The index `fillAuxiliaryObjects` builds from the candidates' fields. */
  function Collect(fields: seq<BuilderFields>): Result<map<string, AgentConfiguration>>
  {
    ToMap(BuildAll(fields))
  }

  /** The state of a candidate after the fill: as it was, or completed by a successful build. */
  predicate UntouchedOrDefaulted(now: BuilderFields, before: BuilderFields)
  {
    now == before || (BuildError(before).None? && now == Defaulted(before))
  }

  /**
   * The index and the global section `fillAuxiliaryObjects` computes, as written.
   * `fields` are the builders of the bean's agent list, so there are none
   * without a bean or without a list.
   */
  function FillAsWritten(config: Option<Configuration>, fields: seq<BuilderFields>):
    (r: Result<(map<string, AgentConfiguration>, GlobalConfiguration)>)
    requires config.None? || config.value.agents.None? ==> fields == []
  {
    if config.Some? && config.value.agents.None? then Err(NullPointer(""))
    else
      var index :- Collect(fields);
      if config.None? then Err(NullPointer(""))
      else Ok((index, if config.value.globalConfiguration.Some? then config.value.globalConfiguration.value
                      else NEW_GLOBAL_CONFIGURATION))
  }

  /**
   * The same, with a missing bean or a missing agent list read as no candidates,
   * as the guard of `getAgentConfigurationBuilders` intends.
   */
  function Fill(config: Option<Configuration>, fields: seq<BuilderFields>):
    (r: Result<(map<string, AgentConfiguration>, GlobalConfiguration)>)
    ensures config.None? ==> r == Ok((map[], NEW_GLOBAL_CONFIGURATION))
    ensures config.Some? && config.value.agents.None? ==>
      r == Ok((map[], if config.value.globalConfiguration.Some? then config.value.globalConfiguration.value
                      else NEW_GLOBAL_CONFIGURATION))
    ensures config.Some? && config.value.agents.Some? ==>
      (r.Ok? <==> Collect(fields).Ok?) && (r.Ok? ==> r.value.0 == Collect(fields).value)
  {
    var index :- if config.Some? && config.value.agents.Some? then Collect(fields) else Ok(map[]);
    if config.None? || config.value.globalConfiguration.None? then Ok((index, NEW_GLOBAL_CONFIGURATION))
    else Ok((index, config.value.globalConfiguration.value))
  }

  /** Whenever the code as written succeeds, the corrected fill gives the same result. */
  lemma FillAgreesWhereAsWrittenSucceeds(config: Option<Configuration>, fields: seq<BuilderFields>)
    requires config.None? || config.value.agents.None? ==> fields == []
    requires FillAsWritten(config, fields).Ok?
    ensures Fill(config, fields) == FillAsWritten(config, fields)
  {
  }

  /** Without a merged bean, the code as written fails; the corrected fill holds nothing. */
  lemma NoConfigurationAsWrittenFails()
    ensures FillAsWritten(None, []).Err?
    ensures Fill(None, []) == Ok((map[], NEW_GLOBAL_CONFIGURATION))
  {
  }

  /** A bean without an agent list makes the code as written fail; the corrected fill keeps its global section. */
  lemma NoAgentListAsWrittenFails(g: GlobalConfiguration)
    ensures FillAsWritten(Some(Configuration(None, Some(g))), []).Err?
    ensures Fill(Some(Configuration(None, Some(g))), []) == Ok((map[], g))
  {
  }

  /**
   * `build()` on the candidate at position `i`, which may already have been built
   * once (the same builder can appear twice in the list): the outcome is that of
   * its first build, and the other builders keep their state.
   */
  method BuildAt(builders: seq<Builder>, i: int, ghost initial: map<Builder, BuilderFields>) returns (c: Result<AgentConfiguration>)
    requires 0 <= i < |builders|
    requires forall j :: 0 <= j < |builders| ==> builders[j] in initial
    requires forall j :: 0 <= j < |builders| ==> UntouchedOrDefaulted(builders[j].Fields(), initial[builders[j]])
    requires forall j :: 0 <= j < i ==>
      BuildError(initial[builders[j]]).None? && builders[j].Fields() == Defaulted(initial[builders[j]])
    modifies builders[i]
    ensures c == Built(initial[builders[i]])
    ensures forall j :: 0 <= j < |builders| ==> UntouchedOrDefaulted(builders[j].Fields(), initial[builders[j]])
    ensures c.Ok? ==> forall j :: 0 <= j < i + 1 ==>
      BuildError(initial[builders[j]]).None? && builders[j].Fields() == Defaulted(initial[builders[j]])
  {
    var b := builders[i];
    ghost var f := initial[b];
    if b.Fields() != f {
      BuildIsIdempotent(f, Some(DEFAULT));
    }
    c := b.BuildDefault();
    if c.Ok? {
      BuildIsIdempotent(f, Some(DEFAULT));
      assert b.Fields() == Defaulted(f);
    }
    forall j | 0 <= j < |builders| && builders[j] != b
      ensures builders[j].Fields() == old(builders[j].Fields())
    {
    }
  }

  /**
   * One element of the collection: `build()` on the candidate at position `i`,
   * then its accumulation into the index of the earlier ones. `before` holds the
   * builders' fields on entry to the collection, the same for the same builder.
   */
  method CollectAt(builders: seq<Builder>, i: int, ghost initial: map<Builder, BuilderFields>,
                   ghost before: seq<BuilderFields>, index: map<string, AgentConfiguration>)
    returns (r: Result<map<string, AgentConfiguration>>)
    requires 0 <= i < |builders| == |before|
    requires forall j :: 0 <= j < |builders| ==> builders[j] in initial && before[j] == initial[builders[j]]
    requires forall j :: 0 <= j < |builders| ==> UntouchedOrDefaulted(builders[j].Fields(), before[j])
    requires forall j :: 0 <= j < i ==> BuildError(before[j]).None? && builders[j].Fields() == Defaulted(before[j])
    requires ToMap(BuildAll(before)[..i]) == Ok(index)
    modifies builders[i]
    ensures r == ToMap(BuildAll(before)[..i + 1])
    ensures forall j :: 0 <= j < |builders| ==> UntouchedOrDefaulted(builders[j].Fields(), before[j])
    ensures r.Ok? ==> forall j :: 0 <= j < i + 1 ==>
      BuildError(before[j]).None? && builders[j].Fields() == Defaulted(before[j])
  {
    var c := BuildAt(builders, i, initial);
    ToMapStep(BuildAll(before), i, index);
    if c.Err? {
      return c.PropagateFailure();
    }
    r := Accumulate(index, c.value);
  }

  /**
   * Lines 90-92 of `fillAuxiliaryObjects`: builds each candidate in list order
   * and files it under its class name, stopping at the first failure. A build
   * completes its builder's name and interval in place.
   */
  method BuildCandidates(builders: seq<Builder>) returns (r: Result<map<string, AgentConfiguration>>)
    modifies set b | b in builders
    ensures r == Collect(old(Snapshot(builders)))
    ensures var before := old(Snapshot(builders));
      forall j :: 0 <= j < |before| ==> UntouchedOrDefaulted(builders[j].Fields(), before[j])
    ensures r.Ok? ==> var before := old(Snapshot(builders));
      forall j :: 0 <= j < |before| ==> BuildError(before[j]).None? && builders[j].Fields() == Defaulted(before[j])
  {
    ghost var before := Snapshot(builders);
    ghost var initial: map<Builder, BuilderFields> := map b | b in builders :: b.Fields();
    assert forall j :: 0 <= j < |builders| ==> builders[j] in initial && before[j] == initial[builders[j]];
    r := CollectAll(builders, initial, before);
  }

  /**
   * The loop of `BuildCandidates`, with the builders' fields on entry given as
   * `before` (and by builder as `initial`).
   */
  method CollectAll(builders: seq<Builder>, ghost initial: map<Builder, BuilderFields>, ghost before: seq<BuilderFields>)
    returns (r: Result<map<string, AgentConfiguration>>)
    requires |builders| == |before|
    requires forall j :: 0 <= j < |builders| ==> builders[j] in initial && before[j] == initial[builders[j]]
    requires forall j :: 0 <= j < |builders| ==> builders[j].Fields() == before[j]
    modifies set b | b in builders
    ensures r == Collect(before)
    ensures forall j :: 0 <= j < |builders| ==> UntouchedOrDefaulted(builders[j].Fields(), before[j])
    ensures r.Ok? ==> forall j :: 0 <= j < |builders| ==>
      BuildError(before[j]).None? && builders[j].Fields() == Defaulted(before[j])
  {
    var index: map<string, AgentConfiguration> := map[];
    var i := 0;
    assert BuildAll(before)[..i] == [];
    while i < |builders|
      invariant 0 <= i <= |builders|
      invariant ToMap(BuildAll(before)[..i]) == Ok(index)
      invariant forall j :: 0 <= j < |builders| ==> UntouchedOrDefaulted(builders[j].Fields(), before[j])
      invariant forall j :: 0 <= j < i ==> BuildError(before[j]).None? && builders[j].Fields() == Defaulted(before[j])
    {
      var next := CollectAt(builders, i, initial, before, index);
      if next.Err? {
        ToMapKeepsFirstError(BuildAll(before), i + 1);
        return next;
      }
      index := next.value;
      i := i + 1;
    }
    assert BuildAll(before)[..i] == BuildAll(before);
    r := Ok(index);
  }

  class ConfigurationHolder {
    var agentsByClassName: map<string, AgentConfiguration>
    var globalConfiguration: GlobalConfiguration

    /** Every indexed configuration is filed under its own class name and is a built one. */
    ghost predicate Valid()
      reads this
    {
      forall k :: k in agentsByClassName ==>
        agentsByClassName[k].className == k && agentsByClassName[k].source == DEFAULT &&
        agentsByClassName[k].name != "" && agentsByClassName[k].interval != ""
    }

    /** A holder with a given index and global section. */
    constructor (index: map<string, AgentConfiguration>, global: GlobalConfiguration)
      ensures agentsByClassName == index && globalConfiguration == global
    {
      agentsByClassName, globalConfiguration := index, global;
    }

    /**
     * `fillAuxiliaryObjects()`, corrected: builds every candidate in list order and
     * indexes the results by class name; falls back to a new global section.
     */
    method FillAuxiliaryObjects(config: Option<Configuration>) returns (outcome: Outcome)
      modifies this, set b | b in Candidates(config)
      ensures var r := Fill(config, old(Snapshot(Candidates(config))));
        (outcome.Pass? <==> r.Ok?) &&
        (outcome.Fail? ==> outcome.error == r.error) &&
        (r.Ok? ==> agentsByClassName == r.value.0 && globalConfiguration == r.value.1 && Valid())
      ensures var before := old(Snapshot(Candidates(config)));
        forall j :: 0 <= j < |before| ==> UntouchedOrDefaulted(Candidates(config)[j].Fields(), before[j])
      ensures outcome.Pass? ==> var before := old(Snapshot(Candidates(config)));
        forall j :: 0 <= j < |before| ==> BuildError(before[j]).None? && Candidates(config)[j].Fields() == Defaulted(before[j])
    {
      ghost var before := Snapshot(Candidates(config));
      var index := BuildCandidates(Candidates(config));
      if index.Err? {
        return Fail(index.error);
      }
      IndexedAreBuilt(before);
      agentsByClassName := index.value;
      globalConfiguration := if config.Some? && config.value.globalConfiguration.Some?
        then config.value.globalConfiguration.value else NEW_GLOBAL_CONFIGURATION;
      outcome := Pass;
    }

    /** `getHighestPrecedenceConfigurationByAgentClassName`: the indexed configuration, if any (none for null). */
    function HighestPrecedenceConfigurationByAgentClassName(className: Option<string>): (r: Option<AgentConfiguration>)
      reads this
      ensures r.Some? <==> className.Some? && className.value in agentsByClassName
      ensures r.Some? ==> r.value == agentsByClassName[className.value]
    {
      if className.Some? && className.value in agentsByClassName then Some(agentsByClassName[className.value]) else None
    }

    function GetGlobalConfiguration(): GlobalConfiguration
      reads this
    {
      globalConfiguration
    }

    /** In a valid holder, a found configuration is the one for the class asked about. */
    lemma LookupFindsOwnClass(className: string)
      requires Valid()
      requires HighestPrecedenceConfigurationByAgentClassName(Some(className)).Some?
      ensures HighestPrecedenceConfigurationByAgentClassName(Some(className)).value.className == className
    {
    }
  }

  /** `new ConfigurationHolder(container)`: a holder filled from the container's merged bean. */
  method NewConfigurationHolder(config: Option<Configuration>) returns (r: Result<ConfigurationHolder>)
    modifies set b | b in Candidates(config)
    ensures var f := Fill(config, old(Snapshot(Candidates(config))));
      (r.Ok? <==> f.Ok?) && (r.Err? ==> r.error == f.error) &&
      (r.Ok? ==> fresh(r.value) && r.value.agentsByClassName == f.value.0 &&
                 r.value.globalConfiguration == f.value.1 && r.value.Valid())
  {
    var holder := new ConfigurationHolder(map[], NEW_GLOBAL_CONFIGURATION);
    var outcome := holder.FillAuxiliaryObjects(config);
    if outcome.Fail? {
      return Err(outcome.error);
    }
    r := Ok(holder);
  }
}
