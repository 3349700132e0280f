/**
 * The thread factory of an agent's executor: every thread it creates is named
 * after the agent and a sequence number that starts at 1, has normal priority
 * and is not a daemon.
 */
module AgentThreadFactories {
  import opened Wrappers
  import opened Numerals

  const NORM_PRIORITY: int := 5

  /** The properties a new thread is created with (the runnable it runs is not modelled). */
  datatype ThreadSpec = ThreadSpec(name: string, priority: int, daemon: bool)

  /** `String.format("Agent-%s-thread%d", agentName, n)`. */
  function ThreadName(agentName: string, n: Int32): string
  {
    "Agent-" + agentName + "-thread" + IntToString(n)
  }

  /**
   * The number the counter holds after `k` increments of `AtomicInteger(1)`,
   * wrapping around at the end of the int range.
   */
  function SequenceNumberAfter(k: nat): Int32
  {
    Wrap32(1 + k)
  }

  /** The first 2^31 - 1 threads get the numbers 1, 2, 3, ... */
  lemma SequenceNumbersCount(k: nat)
    requires k < INT_MAX
    ensures SequenceNumberAfter(k) == k + 1
  {
  }

  /** Any 2^32 consecutive threads get pairwise distinct numbers; the counter repeats only after wrapping. */
  lemma SequenceNumbersAreDistinct(i: nat, j: nat)
    requires i < j < 0x1_0000_0000
    ensures SequenceNumberAfter(i) != SequenceNumberAfter(j)
    ensures SequenceNumberAfter(0x1_0000_0000 + i) == SequenceNumberAfter(i)
  {
    var m := 0x1_0000_0000;
    var x, y := 1 + i + 0x8000_0000, 1 + j + 0x8000_0000;
    assert x == (x / m) * m + x % m;
    assert y == (y / m) * m + y % m;
    var k := y / m - x / m;
    if x % m == y % m {
      assert y - x == k * m;
      MultipleAtLeastDivisor(k, m);
      MultipleAtLeastDivisor(-k, m);
      assert false;
    }
    DivModUnique(x + m, m, x / m + 1, x % m);
  }

  /** Threads with distinct numbers have distinct names. */
  lemma ThreadNamesAreDistinct(agentName: string, i: nat, j: nat)
    requires i < j < 0x1_0000_0000
    ensures ThreadName(agentName, SequenceNumberAfter(i)) != ThreadName(agentName, SequenceNumberAfter(j))
  {
    SequenceNumbersAreDistinct(i, j);
    var prefix := "Agent-" + agentName + "-thread";
    var a, b := IntToString(SequenceNumberAfter(i)), IntToString(SequenceNumberAfter(j));
    if prefix + a == prefix + b {
      assert a == (prefix + a)[|prefix|..];
      assert b == (prefix + b)[|prefix|..];
      IntToStringInjective(SequenceNumberAfter(i), SequenceNumberAfter(j));
    }
  }

  class AgentThreadFactory {
    const agentName: string
    var nextSequenceNumber: Int32
    /** How many threads this factory has created so far. */
    ghost var created: nat

    ghost predicate Valid()
      reads this
    {
      |agentName| > 0 && nextSequenceNumber == SequenceNumberAfter(created)
    }

    constructor(agentName: string)
      requires |agentName| > 0
      ensures Valid() && this.agentName == agentName && created == 0
    {
      this.agentName := agentName;
      nextSequenceNumber := 1;
      created := 0;
    }

    /** `newThread(runnable)`: a normal-priority, non-daemon thread with the next name in sequence. */
    method NewThread() returns (t: ThreadSpec)
      requires Valid()
      modifies this
      ensures Valid() && created == old(created) + 1
      ensures t == ThreadSpec(ThreadName(agentName, SequenceNumberAfter(old(created))), NORM_PRIORITY, false)
    {
      var n := nextSequenceNumber;
      nextSequenceNumber := Wrap32(nextSequenceNumber + 1);
      created := created + 1;
      WrapStep(created - 1);
      t := ThreadSpec(ThreadName(agentName, n), NORM_PRIORITY, false);
    }
  }

  /** Incrementing the wrapped counter is wrapping the incremented count. */
  lemma WrapStep(k: nat)
    ensures Wrap32(SequenceNumberAfter(k) + 1) == SequenceNumberAfter(k + 1)
  {
    var m := 0x1_0000_0000;
    var x := 1 + k + 0x8000_0000;
    assert SequenceNumberAfter(k) + 1 + 0x8000_0000 == x % m + 1;
    if x % m + 1 < m {
      DivModUnique(x + 1, m, x / m, x % m + 1);
    } else {
      DivModUnique(x + 1, m, x / m + 1, 0);
    }
  }

  /** `new AgentThreadFactory(agentName)`: a null or empty name is refused. */
  method NewAgentThreadFactory(agentName: Option<string>) returns (r: Result<AgentThreadFactory>)
    ensures agentName.None? || agentName.value == "" <==> r.Err?
    ensures r.Err? ==> r.error == IllegalArgument("The agent name is mandatory")
    ensures r.Ok? ==> fresh(r.value) && r.value.Valid() && Some(r.value.agentName) == agentName && r.value.created == 0
  {
    if agentName.None? || agentName.value == "" {
      return Err(IllegalArgument("The agent name is mandatory"));
    }
    var f := new AgentThreadFactory(agentName.value);
    return Ok(f);
  }
}
