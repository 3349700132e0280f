/**
 * The creation of an agent from a configuration: the configuration's type
 * picks the agent's constructor, and the agent class is then prepared
 * reflectively.
 */
module AgentFactories {
  import opened Wrappers
  import opened AgentTypes
  import opened AgentConfigurations
  import opened TimeIntervals
  import opened Agents

  const MSG_CONFIGURATION_MUST_NOT_BE_NULL: string := "The AgentConfiguration must not be null"

  /** The constructor's checks of the type the factory function of `agentType` selects. */
  function ConstructorChecks(configuration: AgentConfiguration, env: Environment): (r: Result<Kind>)
    ensures r.Ok? ==> (r.value.TimerKind? <==> configuration.agentType == TIMER)
  {
    match configuration.agentType
    case TIMER => TimerKindOf(configuration)
    case CRON => CronKindOf(configuration, env.parseCron)
  }

  /**
   * What `create` yields: a null configuration is refused; otherwise the agent
   * constructor's checks, the thread factory's, and the reflective preparation
   * of the agent class (`DynamicAgent`), in that order.
   */
  function CreateOutcome(configuration: Option<AgentConfiguration>, env: Environment): (r: Result<Kind>)
    ensures configuration.None? ==> r == Err(NullPointer(MSG_CONFIGURATION_MUST_NOT_BE_NULL))
  {
    match configuration
    case None => Err(NullPointer(MSG_CONFIGURATION_MUST_NOT_BE_NULL))
    case Some(c) =>
      var kind :- WithThreadFactory(c, ConstructorChecks(c, env));
      if c.className !in env.instantiable then Err(InvalidClass(c.className)) else Ok(kind)
  }

  /**
   * A configuration yields an agent exactly when its interval reads as its
   * type demands, its name is not empty and its class can be prepared; the
   * agent's kind follows the configuration's type.
   */
  lemma CreateSucceedsIff(c: AgentConfiguration, env: Environment)
    ensures CreateOutcome(Some(c), env).Ok? <==>
      (c.agentType == TIMER ==> Of(c.interval).Ok?) &&
      (c.agentType == CRON ==> env.parseCron(c.interval).Ok?) &&
      c.name != "" && c.className in env.instantiable
    ensures CreateOutcome(Some(c), env).Ok? ==>
      (c.agentType == TIMER ==> CreateOutcome(Some(c), env).value == TimerKind(Of(c.interval).value)) &&
      (c.agentType == CRON ==> CreateOutcome(Some(c), env).value == CronKind(env.parseCron(c.interval).value))
  {
  }

  /** A built configuration with a parsable interval fails only for a class that cannot be prepared. */
  lemma BuiltTimerConfigurationFailsOnlyOnClass(c: AgentConfiguration, env: Environment)
    requires c.agentType == TIMER && c.name != "" && Of(c.interval).Ok?
    ensures CreateOutcome(Some(c), env).Err? <==> c.className !in env.instantiable
    ensures CreateOutcome(Some(c), env).Err? ==> CreateOutcome(Some(c), env).error == InvalidClass(c.className)
  {
  }

  /** The classes `DynamicAgent` can prepare: they load and have one `@Run` method and a public no-argument constructor. */
  method PrepareDynamicAgent(configuration: AgentConfiguration, env: Environment) returns (r: Outcome)
    ensures r.Pass? <==> configuration.className in env.instantiable
    ensures r.Fail? ==> r.error == InvalidClass(configuration.className)
  {
    if configuration.className !in env.instantiable {
      return Fail(InvalidClass(configuration.className));
    }
    r := Pass;
  }

  /** `AgentFactory.create(configuration)`: a new SET agent of the configuration's type, or the error. */
  method Create(configuration: Option<AgentConfiguration>, env: Environment) returns (r: Result<Agent>)
    ensures var k := CreateOutcome(configuration, env);
      (r.Err? <==> k.Err?) && (r.Err? ==> r.error == k.error) &&
      (r.Ok? ==> fresh(r.value) && r.value.Valid() && r.value.View() == NEW_VIEW &&
                 r.value.configuration == configuration.value && r.value.kind == k.value &&
                 r.value.historyCapacity == MaxHistorySize(configuration.value, env.maxAgentHistorySize))
  {
    if configuration.None? {
      return Err(NullPointer(MSG_CONFIGURATION_MUST_NOT_BE_NULL));
    }
    var c := configuration.value;
    var agent: Result<Agent>;
    match c.agentType {
      case TIMER =>
        agent := NewTimerAgent(c, env);
      case CRON =>
        agent := NewCronAgent(c, env);
    }
    if agent.Err? {
      return Err(agent.error);
    }
    var prepared := PrepareDynamicAgent(c, env);
    if prepared.Fail? {
      return Err(prepared.error);
    }
    r := agent;
  }
}
