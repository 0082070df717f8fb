/** The agent registry: agents kept under their ids in a dictionary that
    remembers insertion order, with duplicate ids refused, lookups, the id
    list, dispatch to a registered agent and removal. */
module Agents {
  import opened Common
  import opened Validator

  /** A constructed agent: the class it was built from and which
      construction it was. Building it (with the shared language model
      client) is the caller's part. */
  datatype AgentInstance = AgentInstance(agentClass: string, serial: nat)

  datatype Failure = ValueError(message: string) | TypeError

  datatype Registered = Registered(agent: AgentInstance) | Duplicate(failure: Failure)

  /** The positional arguments of a call of an agent's `run`. */
  datatype Argument = TaskId(task: string) | InputData

  datatype Executed = Runs(agent: AgentInstance, args: seq<Argument>) | Raised(failure: Failure)

  /** Calling `agent.run(*args)`: every agent's `run` is declared
      `run(self, task_id, input_data)`, so it binds exactly two positional
      arguments and raises `TypeError` for any other number before the
      agent does anything. */
  function CallRun(agent: AgentInstance, args: seq<Argument>): (r: Executed)
    ensures r.Runs? <==> |args| == 2
    ensures r.Runs? ==> r.agent == agent && r.args == args
    ensures r.Raised? ==> r.failure == TypeError
  {
    if |args| == 2 then Runs(agent, args) else Raised(TypeError)
  }

  /** `s` with every occurrence of `x` removed, order kept: the key order of
      a dictionary after `del d[x]`. */
  function Remove(s: seq<string>, x: string): (r: seq<string>)
    ensures |r| <= |s|
  {
    if s == [] then []
    else
      var n := |s| - 1;
      Remove(s[..n], x) + (if s[n] == x then [] else [s[n]])
  }

  /** Removal takes out exactly `x`, keeps distinct ids distinct, and
      shortens a distinct list holding `x` by one. */
  lemma {:induction false} RemoveMeaning(s: seq<string>, x: string)
    ensures forall y :: y in Remove(s, x) <==> y in s && y != x
    ensures Distinct(s) ==> Distinct(Remove(s, x))
    ensures Distinct(s) && x in s ==> |Remove(s, x)| == |s| - 1
    ensures x !in s ==> Remove(s, x) == s
  {
    if s != [] {
      var n := |s| - 1;
      RemoveMeaning(s[..n], x);
      assert s == s[..n] + [s[n]];
      if Distinct(s) {
        assert Distinct(s[..n]);
        assert s[n] !in s[..n];
        if x in s && x != s[n] {
          assert x in s[..n];
        }
      }
    }
  }

  /** Registering a new id and shutting it down again restores the id
      list. */
  lemma RegisterShutdownRoundTrip(order: seq<string>, id: string)
    requires id !in order
    ensures Remove(order + [id], id) == order
  {
    var n := |order + [id]| - 1;
    assert (order + [id])[..n] == order;
    RemoveMeaning(order, id);
  }

  /** A list of distinct ids has as many entries as the set of its ids. */
  lemma {:induction false} DistinctCount(s: seq<string>)
    requires Distinct(s)
    ensures |set x | x in s| == |s|
  {
    if s != [] {
      var n := |s| - 1;
      assert Distinct(s[..n]);
      DistinctCount(s[..n]);
      assert s[n] !in s[..n];
      assert (set x | x in s) == (set x | x in s[..n]) + {s[n]} by {
        assert s == s[..n] + [s[n]];
      }
    }
  }

  class AgentManager {
    /** `self.agents`. */
    var agents: map<string, AgentInstance>
    /** The insertion order of `self.agents`' keys. */
    var order: seq<string>

    ghost predicate Valid()
      reads this
    {
      Distinct(order) && forall id :: id in agents <==> id in order
    }

    constructor()
      ensures Valid() && agents == map[] && order == []
    {
      agents := map[];
      order := [];
    }

    /** `register_agent`: a taken id raises `ValueError` and changes
        nothing; otherwise the new instance is stored under the id, which
        joins the end of the id list. */
    method RegisterAgent(id: string, instance: AgentInstance) returns (r: Registered)
      requires Valid()
      modifies this
      ensures Valid()
      ensures id in old(agents) ==>
        r == Duplicate(ValueError("Agent with ID '" + id + "' already exists")) &&
        agents == old(agents) && order == old(order)
      ensures id !in old(agents) ==>
        r == Registered(instance) && agents == old(agents)[id := instance] && order == old(order) + [id]
    {
      if id in agents {
        return Duplicate(ValueError("Agent with ID '" + id + "' already exists"));
      }
      agents := agents[id := instance];
      order := order + [id];
      r := Registered(instance);
    }

    /** `get_agent`: the agent registered under the id, `None` when there
        is none. */
    function GetAgent(id: string): (r: Option<AgentInstance>)
      reads this
      ensures r.Some? <==> id in agents
      ensures r.Some? ==> r.value == agents[id]
    {
      if id in agents then Some(agents[id]) else None
    }

    /** `list_agents`: every registered id exactly once, in registration
        order. */
    function ListAgents(): (r: seq<string>)
      reads this
      requires Valid()
      ensures forall id :: id in r <==> id in agents
      ensures Distinct(r) && |r| == |agents|
    {
      DistinctCount(order);
      assert (set x | x in order) == agents.Keys;
      order
    }

    /** `execute_agent` as written: an unknown id raises `ValueError`, and
        a registered agent's `run` is called with the input alone, which
        raises `TypeError`, so no agent ever runs. */
    method ExecuteAgentAsWritten(id: string) returns (r: Executed)
      ensures id !in agents ==> r == Raised(ValueError("No agent found with ID '" + id + "'"))
      ensures id in agents ==> r == Raised(TypeError)
      ensures !r.Runs?
    {
      var agent := GetAgent(id);
      if agent.None? {
        return Raised(ValueError("No agent found with ID '" + id + "'"));
      }
      r := CallRun(agent.value, [InputData]);
    }

    /** `execute_agent` with the task id passed on: an unknown id raises
        `ValueError`; a registered agent runs the task on the input (what
        its `run` then does is outside this model). */
    method ExecuteAgent(id: string, task: string) returns (r: Executed)
      ensures r.Runs? <==> id in agents
      ensures r.Runs? ==> r.agent == agents[id] && r.args == [TaskId(task), InputData]
      ensures r.Raised? ==> r.failure == ValueError("No agent found with ID '" + id + "'")
    {
      var agent := GetAgent(id);
      if agent.None? {
        return Raised(ValueError("No agent found with ID '" + id + "'"));
      }
      r := CallRun(agent.value, [TaskId(task), InputData]);
    }

    /** `shutdown_agent`: true and the id unregistered when it was
        registered; false and nothing changed otherwise. */
    method ShutdownAgent(id: string) returns (removed: bool)
      requires Valid()
      modifies this
      ensures Valid()
      ensures removed <==> id in old(agents)
      ensures agents == old(agents) - {id}
      ensures order == Remove(old(order), id)
      ensures !removed ==> agents == old(agents) && order == old(order)
    {
      RemoveMeaning(order, id);
      if id in agents {
        agents := agents - {id};
        order := Remove(order, id);
        return true;
      }
      assert agents - {id} == agents;
      removed := false;
    }
  }
}
