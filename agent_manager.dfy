/**
 * The agent manager: it instantiates the agents found by a package scan,
 * preferring a configuration of higher precedence for the same class, keeps
 * them by name and their configurations by class, and starts, stops, runs,
 * resets and removes them by name.
 */
module AgentManagers {
  import opened Wrappers
  import opened AgentConfigurations
  import opened AgentStates
  import opened Agents
  import opened AgentFactories
  import opened ConfigurationHolders
  import opened StringOrder
  import opened DateUtils

  const MSG_NAME_CANNOT_BE_NULL_OR_EMPTY: string := "The name cannot be null or empty"

  /** `String.format("Invalid agent: %s", name)`. */
  function InvalidAgentMessage(name: string): string
  {
    "Invalid agent: " + name
  }

  /** `String.format("'%s' is started. Please stop the agent before this operation.", name)`. */
  function StartedPleaseStopFirstMessage(name: string): string
  {
    "'" + name + "' is started. Please stop the agent before this operation."
  }

  /** An agent whose timer is started or whose task is running may not be removed or reset. */
  predicate Busy(v: AgentView)
  {
    IsStarted(v.lifecycle) || IsRunning(v.lifecycle)
  }

  // ---------------------------------------------------------------------------
  // The two indexes, as configurations
  // ---------------------------------------------------------------------------

  /** The configurations of the managed agents by name, and the configurations registered by class. */
  datatype Registry = Registry(byName: map<string, AgentConfiguration>, byClass: map<string, AgentConfiguration>)

  /**
   * Every agent is filed under its own name, and its class is registered with
   * its own configuration; every class is registered under its own name.
   */
  ghost predicate Consistent(reg: Registry)
  {
    (forall n :: n in reg.byName ==>
      reg.byName[n].name == n && reg.byName[n].className in reg.byClass &&
      reg.byClass[reg.byName[n].className] == reg.byName[n]) &&
    (forall k :: k in reg.byClass ==> reg.byClass[k].className == k)
  }

  /** `addAgent(agent)`, on the configurations. */
  function Register(reg: Registry, c: AgentConfiguration): (r: Registry)
    ensures r.byName.Keys == reg.byName.Keys + {c.name} && r.byName[c.name] == c
    ensures r.byClass.Keys == reg.byClass.Keys + {c.className} && r.byClass[c.className] == c
    ensures forall n :: n in reg.byName && n != c.name ==> r.byName[n] == reg.byName[n]
  {
    Registry(reg.byName[c.name := c], reg.byClass[c.className := c])
  }

  /** Registering a new class, or again the configuration a class already has, keeps the registry consistent. */
  lemma RegisterKeepsConsistent(reg: Registry, c: AgentConfiguration)
    requires Consistent(reg)
    requires c.className !in reg.byClass || reg.byClass[c.className] == c
    ensures Consistent(Register(reg, c))
  {
  }

  /** `findHighestPrecedenceConfiguration(candidate)`: the holder's configuration for the class, or the candidate. */
  function Resolve(candidate: AgentConfiguration, lookup: map<string, AgentConfiguration>): (r: AgentConfiguration)
    ensures candidate.className in lookup ==> r == lookup[candidate.className]
    ensures candidate.className !in lookup ==> r == candidate
  {
    if candidate.className in lookup then lookup[candidate.className] else candidate
  }

  /** With a holder filed by class name, resolving keeps the candidate's class. */
  lemma ResolveKeepsClass(candidate: AgentConfiguration, lookup: map<string, AgentConfiguration>)
    requires forall k :: k in lookup ==> lookup[k].className == k
    ensures Resolve(candidate, lookup).className == candidate.className
    ensures candidate.className !in lookup ==> Resolve(candidate, lookup) == candidate
  {
  }

  /** `instantiateAgent` succeeds for the configuration. */
  predicate Creatable(c: AgentConfiguration, env: Environment)
  {
    CreateOutcome(Some(c), env).Ok?
  }

  /** `Creatable` for one environment, as the test a scan applies. */
  function CreatableIn(env: Environment): AgentConfiguration -> bool
  {
    c => Creatable(c, env)
  }

  /** One candidate of `scanPackage`: resolved, skipped when its class is known or it cannot be created, else added. */
  function ScanOne(reg: Registry, candidate: AgentConfiguration, lookup: map<string, AgentConfiguration>, creatable: AgentConfiguration -> bool): (r: Registry)
    ensures reg.byName.Keys <= r.byName.Keys && reg.byClass.Keys <= r.byClass.Keys
    ensures forall k :: k in reg.byClass ==> r.byClass[k] == reg.byClass[k]
    ensures r != reg ==> r == Register(reg, Resolve(candidate, lookup)) && creatable(Resolve(candidate, lookup))
  {
    var c := Resolve(candidate, lookup);
    if c.className in reg.byClass || !creatable(c) then reg else Register(reg, c)
  }

  /** The candidates of `scanPackage`, in order. */
  function Scan(reg: Registry, candidates: seq<AgentConfiguration>, lookup: map<string, AgentConfiguration>, creatable: AgentConfiguration -> bool): Registry
    decreases |candidates|
  {
    if candidates == [] then reg
    else ScanOne(Scan(reg, candidates[..|candidates| - 1], lookup, creatable), candidates[|candidates| - 1], lookup, creatable)
  }

  lemma {:induction false} ScanKeepsConsistent(reg: Registry, candidates: seq<AgentConfiguration>, lookup: map<string, AgentConfiguration>, creatable: AgentConfiguration -> bool)
    requires Consistent(reg)
    ensures Consistent(Scan(reg, candidates, lookup, creatable))
    decreases |candidates|
  {
    if candidates != [] {
      var prefix := candidates[..|candidates| - 1];
      ScanKeepsConsistent(reg, prefix, lookup, creatable);
      var c := Resolve(candidates[|candidates| - 1], lookup);
      if c.className !in Scan(reg, prefix, lookup, creatable).byClass && creatable(c) {
        RegisterKeepsConsistent(Scan(reg, prefix, lookup, creatable), c);
      }
    }
  }

  /** A class registered before a scan keeps its configuration: the first registration wins. */
  lemma {:induction false} ScanNeverReplacesAClass(reg: Registry, candidates: seq<AgentConfiguration>, lookup: map<string, AgentConfiguration>, creatable: AgentConfiguration -> bool, k: string)
    requires k in reg.byClass
    ensures k in Scan(reg, candidates, lookup, creatable).byClass
    ensures Scan(reg, candidates, lookup, creatable).byClass[k] == reg.byClass[k]
    decreases |candidates|
  {
    if candidates != [] {
      ScanNeverReplacesAClass(reg, candidates[..|candidates| - 1], lookup, creatable, k);
    }
  }

  /** Candidate `i` is the first one for class `k` that can be created. */
  ghost predicate FirstCreatableAt(candidates: seq<AgentConfiguration>, lookup: map<string, AgentConfiguration>, creatable: AgentConfiguration -> bool, k: string, i: int)
  {
    0 <= i < |candidates| &&
    Resolve(candidates[i], lookup).className == k && creatable(Resolve(candidates[i], lookup)) &&
    forall j :: 0 <= j < i && Resolve(candidates[j], lookup).className == k ==> !creatable(Resolve(candidates[j], lookup))
  }

  /**
   * A class not registered before a scan is registered by it exactly when some
   * candidate of that class can be created, and then with the first such one.
   */
  lemma {:induction false} ScanPicksFirstCreatable(reg: Registry, candidates: seq<AgentConfiguration>, lookup: map<string, AgentConfiguration>, creatable: AgentConfiguration -> bool, k: string)
    requires k !in reg.byClass
    ensures k in Scan(reg, candidates, lookup, creatable).byClass <==>
      exists i :: 0 <= i < |candidates| && Resolve(candidates[i], lookup).className == k && creatable(Resolve(candidates[i], lookup))
    ensures k in Scan(reg, candidates, lookup, creatable).byClass ==>
      exists i :: FirstCreatableAt(candidates, lookup, creatable, k, i) && Scan(reg, candidates, lookup, creatable).byClass[k] == Resolve(candidates[i], lookup)
    decreases |candidates|
  {
    if candidates != [] {
      var n := |candidates| - 1;
      var prefix := candidates[..n];
      var before := Scan(reg, prefix, lookup, creatable);
      ScanPicksFirstCreatable(reg, prefix, lookup, creatable, k);
      assert forall j :: 0 <= j < n ==> candidates[j] == prefix[j];
      var c := Resolve(candidates[n], lookup);
      if k in before.byClass {
        var i :| FirstCreatableAt(prefix, lookup, creatable, k, i) && before.byClass[k] == Resolve(prefix[i], lookup);
        assert FirstCreatableAt(candidates, lookup, creatable, k, i);
      } else if c.className == k && creatable(c) {
        assert FirstCreatableAt(candidates, lookup, creatable, k, n);
      } else {
        forall i | 0 <= i < |candidates| && Resolve(candidates[i], lookup).className == k
          ensures !creatable(Resolve(candidates[i], lookup))
        {
          if i < n {
            assert candidates[i] == prefix[i];
          }
        }
      }
    }
  }

  /** A scan only adds: every name and class known before stays known. */
  lemma {:induction false} ScanOnlyAdds(reg: Registry, candidates: seq<AgentConfiguration>, lookup: map<string, AgentConfiguration>, creatable: AgentConfiguration -> bool)
    ensures reg.byName.Keys <= Scan(reg, candidates, lookup, creatable).byName.Keys
    ensures reg.byClass.Keys <= Scan(reg, candidates, lookup, creatable).byClass.Keys
    decreases |candidates|
  {
    if candidates != [] {
      ScanOnlyAdds(reg, candidates[..|candidates| - 1], lookup, creatable);
    }
  }

  /** Removing an agent leaves its class registered, so no later scan instantiates that class again. */
  lemma RemovedClassIsNotRescanned(reg: Registry, name: string, candidates: seq<AgentConfiguration>, lookup: map<string, AgentConfiguration>, creatable: AgentConfiguration -> bool)
    requires Consistent(reg) && name in reg.byName
    ensures var removed := Registry(reg.byName - {name}, reg.byClass);
      var k := reg.byName[name].className;
      Consistent(removed) &&
      k in Scan(removed, candidates, lookup, creatable).byClass &&
      Scan(removed, candidates, lookup, creatable).byClass[k] == reg.byName[name]
  {
    var removed := Registry(reg.byName - {name}, reg.byClass);
    ScanNeverReplacesAClass(removed, candidates, lookup, creatable, reg.byName[name].className);
  }

  /** Resetting re-registers the configuration a class already has, which changes nothing in a consistent registry. */
  lemma ResetKeepsRegistry(reg: Registry, name: string)
    requires Consistent(reg) && name in reg.byName
    ensures Register(reg, reg.byClass[reg.byName[name].className]) == reg
  {
    var c := reg.byName[name];
    assert reg.byName[c.name := c] == reg.byName;
    assert reg.byClass[c.className := c] == reg.byClass;
  }

  /** Removing a name from the agents removes it, and only it, from their configurations. */
  lemma ConfigurationsWithout(m: map<string, Agent>, name: string)
    ensures (map n | n in m - {name} :: (m - {name})[n].configuration) == (map n | n in m :: m[n].configuration) - {name}
  {
  }

  // ---------------------------------------------------------------------------
  // The manager
  // ---------------------------------------------------------------------------

  class AgentManager {
    var agentsByName: map<string, Agent>
    var agentsByClass: map<string, AgentConfiguration>
    const configurationHolder: ConfigurationHolder
    /** What agent creation depends on outside the configuration. */
    const env: Environment

    ghost function Configurations(): Registry
      reads this
    {
      Registry(map n | n in agentsByName :: agentsByName[n].configuration, agentsByClass)
    }

    ghost predicate Valid()
      reads this, agentsByName.Values
    {
      Consistent(Configurations()) && forall n :: n in agentsByName ==> agentsByName[n].Valid()
    }

    /** Each agent is filed under its own name, so distinct names hold distinct agents. */
    lemma NamesAreKeys()
      requires Valid()
      ensures forall n :: n in agentsByName ==> agentsByName[n].configuration.name == n
      ensures forall n, m :: n in agentsByName && m in agentsByName && n != m ==> agentsByName[n] != agentsByName[m]
    {
      forall n | n in agentsByName ensures agentsByName[n].configuration.name == n {
        assert Configurations().byName[n] == agentsByName[n].configuration;
      }
    }

    constructor (holder: ConfigurationHolder, env: Environment)
      ensures agentsByName == map[] && agentsByClass == map[]
      ensures configurationHolder == holder && this.env == env
      ensures Valid()
    {
      agentsByName, agentsByClass := map[], map[];
      configurationHolder, this.env := holder, env;
    }

    /** `findAgentByName(name)`: the agent, or an IllegalArgumentException for an empty or unknown name. */
    function FindAgentByName(name: string): (r: Result<Agent>)
      reads this
      ensures r.Err? <==> name == "" || name !in agentsByName
      ensures name == "" ==> r == Err(IllegalArgument(MSG_NAME_CANNOT_BE_NULL_OR_EMPTY))
      ensures name != "" && name !in agentsByName ==> r == Err(IllegalArgument(InvalidAgentMessage(name)))
      ensures r.Ok? ==> r.value == agentsByName[name]
    {
      if name == "" then Err(IllegalArgument(MSG_NAME_CANNOT_BE_NULL_OR_EMPTY))
      else if name in agentsByName then Ok(agentsByName[name])
      else Err(IllegalArgument(InvalidAgentMessage(name)))
    }

    /** In a valid manager, the agent found under a name carries that name. */
    lemma FoundAgentHasName(name: string)
      requires Valid() && FindAgentByName(name).Ok?
      ensures FindAgentByName(name).value.configuration.name == name
      ensures FindAgentByName(name).value.Valid()
    {
      NamesAreKeys();
    }

    /** `addAgent(agent)`: filed under its name, its configuration under its class. */
    method AddAgent(agent: Agent)
      modifies this
      ensures agentsByName == old(agentsByName)[agent.configuration.name := agent]
      ensures agentsByClass == old(agentsByClass)[agent.configuration.className := agent.configuration]
      ensures Configurations() == Register(old(Configurations()), agent.configuration)
    {
      agentsByName := agentsByName[agent.configuration.name := agent];
      agentsByClass := agentsByClass[agent.configuration.className := agent.configuration];
    }

    method FindHighestPrecedenceConfiguration(candidate: AgentConfiguration) returns (r: AgentConfiguration)
      ensures r == Resolve(candidate, configurationHolder.agentsByClassName)
    {
      var found := configurationHolder.HighestPrecedenceConfigurationByAgentClassName(Some(candidate.className));
      r := if found.Some? then found.value else candidate;
    }

    /** `instantiateAgent(configuration)`: the new agent, or none when creation fails. */
    method InstantiateAgent(c: AgentConfiguration) returns (r: Option<Agent>)
      ensures r.Some? <==> Creatable(c, env)
      ensures r.Some? ==> fresh(r.value) && r.value.Valid() && r.value.View() == NEW_VIEW && r.value.configuration == c
    {
      var created := Create(Some(c), env);
      if created.Err? {
        return None;
      }
      r := Some(created.value);
    }

    /** `instantiateAgentQuietly(configuration)`: none for a class already registered. */
    method InstantiateAgentQuietly(c: AgentConfiguration) returns (r: Option<Agent>)
      ensures r.Some? <==> c.className !in agentsByClass && Creatable(c, env)
      ensures r.Some? ==> fresh(r.value) && r.value.Valid() && r.value.View() == NEW_VIEW && r.value.configuration == c
    {
      if c.className in agentsByClass {
        return None;
      }
      r := InstantiateAgent(c);
    }

    /**
     * `scanPackage(basePackage)`, given the candidates the scan finds: every
     * candidate is resolved against the holder and, unless its class is known or
     * it cannot be created, instantiated and added. Existing agents stay as they
     * are; the added ones are new and SET.
     */
    method ScanPackage(candidates: seq<AgentConfiguration>)
      requires Valid()
      modifies this
      ensures Valid()
      ensures Configurations() == Scan(old(Configurations()), candidates, configurationHolder.agentsByClassName, CreatableIn(env))
      ensures forall n :: n in agentsByName ==>
        (n in old(agentsByName) && agentsByName[n] == old(agentsByName)[n]) ||
        (fresh(agentsByName[n]) && agentsByName[n].View() == NEW_VIEW)
    {
      if |candidates| == 0 {
        return;
      }
      var i := 0;
      while i < |candidates|
        invariant 0 <= i <= |candidates|
        invariant Valid()
        invariant Configurations() == Scan(old(Configurations()), candidates[..i], configurationHolder.agentsByClassName, CreatableIn(env))
        invariant forall n :: n in agentsByName ==>
          (n in old(agentsByName) && agentsByName[n] == old(agentsByName)[n]) ||
          (fresh(agentsByName[n]) && agentsByName[n].View() == NEW_VIEW)
      {
        assert candidates[..i + 1][..i] == candidates[..i];
        ScanCandidate(candidates[i]);
        i := i + 1;
      }
      assert candidates[..i] == candidates;
    }

    /** One candidate of `scanPackage`. */
    method ScanCandidate(candidate: AgentConfiguration)
      requires Valid()
      modifies this
      ensures Valid()
      ensures Configurations() == ScanOne(old(Configurations()), candidate, configurationHolder.agentsByClassName, CreatableIn(env))
      ensures forall n :: n in agentsByName ==>
        (n in old(agentsByName) && agentsByName[n] == old(agentsByName)[n]) ||
        (fresh(agentsByName[n]) && agentsByName[n].View() == NEW_VIEW)
    {
      var c := FindHighestPrecedenceConfiguration(candidate);
      var agent := InstantiateAgentQuietly(c);
      if agent.Some? {
        RegisterKeepsConsistent(Configurations(), c);
        AddAgent(agent.value);
      }
    }

    /** `removeAgent(name)`: refused for an unknown or busy agent; the class stays registered. */
    method RemoveAgent(name: string) returns (o: Outcome)
      requires Valid()
      modifies this
      ensures Valid()
      ensures var f := old(FindAgentByName(name));
        (f.Err? ==> o == Fail(f.error)) &&
        (f.Ok? && Busy(old(f.value.View())) ==> o == Fail(IllegalState(StartedPleaseStopFirstMessage(name)))) &&
        (o.Pass? <==> f.Ok? && !Busy(old(f.value.View())))
      ensures o.Fail? ==> agentsByName == old(agentsByName)
      ensures o.Pass? ==> agentsByName == old(agentsByName) - {name}
      ensures agentsByClass == old(agentsByClass)
    {
      var found := FindAgentByName(name);
      if found.Err? {
        return Fail(found.error);
      }
      if Busy(found.value.View()) {
        return Fail(IllegalState(StartedPleaseStopFirstMessage(name)));
      }
      ghost var before := Configurations();
      ConfigurationsWithout(agentsByName, name);
      agentsByName := agentsByName - {name};
      assert Configurations() == Registry(before.byName - {name}, before.byClass);
      o := Pass;
    }

    /**
     * `resetAgent(name)`: refused for an unknown or busy agent; otherwise a new
     * agent is created from the configuration registered for its class and takes
     * its place, SET and without history; a failed creation changes nothing.
     */
    method ResetAgent(name: string) returns (o: Outcome)
      requires Valid()
      modifies this
      ensures Valid()
      ensures var f := old(FindAgentByName(name));
        (f.Err? ==> o == Fail(f.error)) &&
        (f.Ok? && Busy(old(f.value.View())) ==> o == Fail(IllegalState(StartedPleaseStopFirstMessage(name))))
      ensures var f := old(FindAgentByName(name));
        f.Ok? && !Busy(old(f.value.View())) ==>
          var k := CreateOutcome(Some(f.value.configuration), env);
          (o.Pass? <==> k.Ok?) && (k.Err? ==> o == Fail(k.error))
      ensures o.Fail? ==> agentsByName == old(agentsByName)
      ensures Configurations() == old(Configurations()) && agentsByClass == old(agentsByClass)
      ensures o.Pass? ==>
        name in old(agentsByName) && name in agentsByName &&
        agentsByName == old(agentsByName)[name := agentsByName[name]] &&
        fresh(agentsByName[name]) && agentsByName[name].View() == NEW_VIEW &&
        agentsByName[name].configuration == old(agentsByName[name].configuration)
    {
      var found := FindAgentByName(name);
      if found.Err? {
        return Fail(found.error);
      }
      var agent := found.value;
      if Busy(agent.View()) {
        return Fail(IllegalState(StartedPleaseStopFirstMessage(name)));
      }
      FoundAgentHasName(name);
      assert Configurations().byName[name] == agent.configuration;
      var agentClass := agent.configuration.className;
      var registered := if agentClass in agentsByClass then Some(agentsByClass[agentClass]) else None;
      var created := Create(registered, env);
      if created.Err? {
        return Fail(created.error);
      }
      ResetKeepsRegistry(Configurations(), name);
      AddAgent(created.value);
      o := Pass;
    }

    /** `startAgent(name)`. */
    method StartAgent(name: string, now: Instant) returns (o: Outcome)
      requires Valid()
      modifies if name in agentsByName then {agentsByName[name]} else {}
      ensures Valid()
      ensures var f := FindAgentByName(name);
        (f.Err? ==> o == Fail(f.error)) &&
        (f.Ok? ==> (o, f.value.View()) == StartStep(f.value.Settings(), old(f.value.View()), now))
      ensures FindAgentByName(name).Err? && name in agentsByName ==> agentsByName[name].View() == old(agentsByName[name].View())
    {
      var found := FindAgentByName(name);
      if found.Err? {
        return Fail(found.error);
      }
      var agent := found.value;
      assert agent in agentsByName.Values;
      StartKeepsValid(agent.Settings(), agent.View(), now);
      o := agent.Start(now);
      forall n | n in agentsByName ensures agentsByName[n].Valid() {
        if agentsByName[n] != agent {
          assert old(agentsByName[n].Valid());
        }
      }
    }

    /** `runNow(name)`: a manual run of the agent's task. */
    method RunNow(name: string, now: Instant, task: TaskOutcome) returns (o: Outcome)
      requires Valid()
      modifies if name in agentsByName then {agentsByName[name]} else {}
      ensures Valid()
      ensures var f := FindAgentByName(name);
        (f.Err? ==> o == Fail(f.error)) &&
        (f.Ok? ==> (o, f.value.View()) == RunStep(f.value.Settings(), old(f.value.View()), true, now, task))
      ensures FindAgentByName(name).Err? && name in agentsByName ==> agentsByName[name].View() == old(agentsByName[name].View())
    {
      var found := FindAgentByName(name);
      if found.Err? {
        return Fail(found.error);
      }
      var agent := found.value;
      assert agent in agentsByName.Values;
      RunKeepsValid(agent.Settings(), agent.View(), true, now, task);
      o := agent.Run(true, now, task);
      forall n | n in agentsByName ensures agentsByName[n].Valid() {
        if agentsByName[n] != agent {
          assert old(agentsByName[n].Valid());
        }
      }
    }

    /** `stopAgent(name)`. */
    method StopAgent(name: string) returns (o: Outcome)
      requires Valid()
      modifies if name in agentsByName then {agentsByName[name]} else {}
      ensures Valid()
      ensures var f := FindAgentByName(name);
        (f.Err? ==> o == Fail(f.error)) &&
        (f.Ok? ==> (o, f.value.View()) == StopStep(f.value.Settings(), old(f.value.View())))
      ensures FindAgentByName(name).Err? && name in agentsByName ==> agentsByName[name].View() == old(agentsByName[name].View())
    {
      var found := FindAgentByName(name);
      if found.Err? {
        return Fail(found.error);
      }
      var agent := found.value;
      assert agent in agentsByName.Values;
      StopKeepsValid(agent.Settings(), agent.View());
      o := agent.Stop();
      forall n | n in agentsByName ensures agentsByName[n].Valid() {
        if agentsByName[n] != agent {
          assert old(agentsByName[n].Valid());
        }
      }
    }

    /** `isAgentRunning(name)`. */
    function IsAgentRunning(name: string): (r: Result<bool>)
      reads this, agentsByName.Values
      ensures r.Err? <==> FindAgentByName(name).Err?
      ensures r.Err? ==> r.error == FindAgentByName(name).error
      ensures r.Ok? ==> r.value == IsRunning(agentsByName[name].View().lifecycle)
    {
      var agent :- FindAgentByName(name);
      Ok(IsRunning(agent.View().lifecycle))
    }

    /** `isAgentStarted(name)`. */
    function IsAgentStarted(name: string): (r: Result<bool>)
      reads this, agentsByName.Values
      ensures r.Err? <==> FindAgentByName(name).Err?
      ensures r.Err? ==> r.error == FindAgentByName(name).error
      ensures r.Ok? ==> r.value == IsStarted(agentsByName[name].View().lifecycle)
    {
      var agent :- FindAgentByName(name);
      Ok(IsStarted(agent.View().lifecycle))
    }

    /** `getAgents()`: every managed agent once, in ascending order of name. */
    method GetAgents() returns (agents: seq<Agent>)
      requires Valid()
      ensures |agents| == |agentsByName|
      ensures forall a :: a in agents <==> a in agentsByName.Values
      ensures forall i, j :: 0 <= i < j < |agents| ==> Precedes(agents[i].configuration.name, agents[j].configuration.name)
    {
      NamesAreKeys();
      var names := AscendingKeys(agentsByName.Keys);
      agents := LookUpAll(agentsByName, names);
      ListedInKeyOrder(agentsByName, names, agents);
    }

    /**
     * `startAllAgents()`: the agents of `getAgents()` are started in that order
     * (ascending by name), and the first refusal ends the loop. `agents` is that
     * order and `stoppedAt` the position of the refusing agent (|agents| when
     * all started).
     */
    method StartAllAgents(now: Instant) returns (o: Outcome, ghost agents: seq<Agent>, ghost stoppedAt: nat)
      requires Valid()
      modifies agentsByName.Values
      ensures Valid()
      ensures |agents| == |agentsByName| && forall a :: a in agents <==> a in agentsByName.Values
      ensures forall j :: 0 <= j < |agents| ==> old(allocated(agents[j]))
      ensures forall i, j :: 0 <= i < j < |agents| ==> Precedes(agents[i].configuration.name, agents[j].configuration.name)
      ensures stoppedAt <= |agents| && (o.Pass? <==> stoppedAt == |agents|)
      ensures forall j :: 0 <= j < stoppedAt ==>
        (Pass, agents[j].View()) == StartStep(agents[j].Settings(), old(agents[j].View()), now)
      ensures stoppedAt < |agents| ==>
        (o, agents[stoppedAt].View()) == StartStep(agents[stoppedAt].Settings(), old(agents[stoppedAt].View()), now)
      ensures forall j :: stoppedAt < j < |agents| ==> agents[j].View() == old(agents[j].View())
    {
      var all := GetAgents();
      assert forall j :: 0 <= j < |all| ==> all[j].Valid() by {
        forall j | 0 <= j < |all| ensures all[j].Valid() {
          assert all[j] in agentsByName.Values;
        }
      }
      SortedAgentsAreDistinct(all);
      agents := all;
      o, stoppedAt := StartEach(all, now);
      forall n | n in agentsByName ensures agentsByName[n].Valid() {
        assert agentsByName[n] in agentsByName.Values;
      }
    }
  }

  /** The agents a map holds under the given names, in the order of the names. */
  method LookUpAll(m: map<string, Agent>, names: seq<string>) returns (agents: seq<Agent>)
    requires forall j :: 0 <= j < |names| ==> names[j] in m
    ensures |agents| == |names|
    ensures forall j :: 0 <= j < |names| ==> agents[j] == m[names[j]]
  {
    agents := [];
    var i := 0;
    while i < |names|
      invariant 0 <= i <= |names| && |agents| == i
      invariant forall j :: 0 <= j < i ==> agents[j] == m[names[j]]
    {
      agents := agents + [m[names[i]]];
      i := i + 1;
    }
  }

  /** The agents of a map filed by name, listed in the order of its ascending keys. */
  lemma ListedInKeyOrder(m: map<string, Agent>, names: seq<string>, agents: seq<Agent>)
    requires forall k :: k in m <==> k in names
    requires Ascending(names) && |agents| == |names|
    requires forall j :: 0 <= j < |names| ==> names[j] in m && agents[j] == m[names[j]]
    requires forall n :: n in m ==> m[n].configuration.name == n
    ensures forall a :: a in agents <==> a in m.Values
    ensures forall i, j :: 0 <= i < j < |agents| ==> Precedes(agents[i].configuration.name, agents[j].configuration.name)
  {
    forall a | a in m.Values ensures a in agents {
      var n :| n in m && m[n] == a;
      var j :| 0 <= j < |names| && names[j] == n;
      assert agents[j] == a;
    }
  }

  /** Agents with strictly ascending names are distinct objects. */
  lemma SortedAgentsAreDistinct(agents: seq<Agent>)
    requires forall i, j :: 0 <= i < j < |agents| ==> Precedes(agents[i].configuration.name, agents[j].configuration.name)
    ensures forall i, j :: 0 <= i < |agents| && 0 <= j < |agents| && i != j ==> agents[i] != agents[j]
  {
    forall i, j | 0 <= i < |agents| && 0 <= j < |agents| && i != j ensures agents[i] != agents[j] {
      var n := agents[i].configuration.name;
      PrecedesIsStrictTotalOrder(n, n, n);
      if i < j {
        assert Precedes(n, agents[j].configuration.name);
      } else {
        assert Precedes(agents[j].configuration.name, n);
      }
    }
  }

  /** `agents.forEach(this::startAgent)`: each agent in turn is started, until one refuses. */
  method StartEach(agents: seq<Agent>, now: Instant) returns (o: Outcome, ghost stoppedAt: nat)
    requires forall i, j :: 0 <= i < |agents| && 0 <= j < |agents| && i != j ==> agents[i] != agents[j]
    requires forall j :: 0 <= j < |agents| ==> agents[j].Valid()
    modifies set a | a in agents
    ensures forall j :: 0 <= j < |agents| ==> agents[j].Valid()
    ensures stoppedAt <= |agents| && (o.Pass? <==> stoppedAt == |agents|)
    ensures forall j :: 0 <= j < stoppedAt ==>
      (Pass, agents[j].View()) == StartStep(agents[j].Settings(), old(agents[j].View()), now)
    ensures stoppedAt < |agents| ==>
      (o, agents[stoppedAt].View()) == StartStep(agents[stoppedAt].Settings(), old(agents[stoppedAt].View()), now)
    ensures forall j :: stoppedAt < j < |agents| ==> agents[j].View() == old(agents[j].View())
  {
    var i := 0;
    while i < |agents|
      invariant 0 <= i <= |agents|
      invariant forall j :: 0 <= j < |agents| ==> agents[j].Valid()
      invariant forall j :: 0 <= j < i ==> (Pass, agents[j].View()) == StartStep(agents[j].Settings(), old(agents[j].View()), now)
      invariant forall j :: i <= j < |agents| ==> agents[j].View() == old(agents[j].View())
    {
      StartKeepsValid(agents[i].Settings(), agents[i].View(), now);
      o := agents[i].Start(now);
      if o.Fail? {
        stoppedAt := i;
        return;
      }
      i := i + 1;
    }
    o, stoppedAt := Pass, |agents|;
  }
}
