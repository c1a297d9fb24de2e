/**
  The AI-agent layer: agents with append-only capability lists, and the
  agent manager's registry and its three ways of choosing an agent.

  The manager's dict of agents keeps insertion order and replaces an
  agent in place when its id is registered again; the model holds it as
  the sequence of agents in that order, with distinct ids. What an agent
  does with its input is not modelled: processing yields the id of the
  chosen agent and the options it receives.
 */
module Agents {
  import opened Wrappers
  import opened Json

  datatype AgentType =
    | GeospatialAnalysis
    | DocumentAnalysis
    | ImageRecognition
    | DecisionSupport
    | DataExtraction
    | Visualization

  /** The enum's `.value`. */
  function TypeValue(t: AgentType): (s: string) {
    match t
    case GeospatialAnalysis => "geospatial_analysis"
    case DocumentAnalysis => "document_analysis"
    case ImageRecognition => "image_recognition"
    case DecisionSupport => "decision_support"
    case DataExtraction => "data_extraction"
    case Visualization => "visualization"
  }

  datatype Capability = Capability(name: string, description: string)

  datatype Agent = Agent(agentId: string, agentType: AgentType, description: string, capabilities: seq<Capability>)

  // ---------------------------------------------------------------------
  // One agent

  /** `BaseAgent.__init__`: an agent starts with no capabilities. */
  function NewAgent(agentId: string, agentType: AgentType, description: string): (a: Agent)
    ensures a.agentId == agentId && a.agentType == agentType && a.description == description
    ensures a.capabilities == []
  {
    Agent(agentId, agentType, description, [])
  }

  /** `register_capability`: appends one capability at the end and changes nothing else. */
  function RegisterCapability(a: Agent, name: string, description: string): (r: Agent)
    ensures r.agentId == a.agentId && r.agentType == a.agentType && r.description == a.description
    ensures |r.capabilities| == |a.capabilities| + 1
    ensures r.capabilities[..|a.capabilities|] == a.capabilities
    ensures r.capabilities[|a.capabilities|] == Capability(name, description)
  {
    a.(capabilities := a.capabilities + [Capability(name, description)])
  }

  /** Registering a list of capabilities one after another. */
  function RegisterAll(a: Agent, caps: seq<Capability>): (r: Agent)
    decreases |caps|
  {
    if caps == [] then a else RegisterAll(RegisterCapability(a, caps[0].name, caps[0].description), caps[1..])
  }

  /**
    `get_capabilities` after a run of registrations: the earlier list
    followed by every registered capability in registration order,
    duplicates included, with the agent's identity untouched.
   */
  lemma {:induction false} CapabilitiesInOrder(a: Agent, caps: seq<Capability>)
    ensures RegisterAll(a, caps).capabilities == a.capabilities + caps
    ensures RegisterAll(a, caps).agentId == a.agentId
    ensures RegisterAll(a, caps).agentType == a.agentType
    ensures RegisterAll(a, caps).description == a.description
    decreases |caps|
  {
    if caps == [] {
      assert a.capabilities + caps == a.capabilities;
    } else {
      var b := RegisterCapability(a, caps[0].name, caps[0].description);
      CapabilitiesInOrder(b, caps[1..]);
      assert b.capabilities == a.capabilities + [caps[0]];
      assert a.capabilities + [caps[0]] + caps[1..] == a.capabilities + caps;
    }
  }

  /** A new agent's capabilities are exactly those registered on it. */
  lemma {:induction false} NewAgentCapabilities(agentId: string, agentType: AgentType, description: string, caps: seq<Capability>)
    ensures RegisterAll(NewAgent(agentId, agentType, description), caps).capabilities == caps
  {
    CapabilitiesInOrder(NewAgent(agentId, agentType, description), caps);
    assert [] + caps == caps;
  }

  // ---------------------------------------------------------------------
  // The registry

  predicate UniqueIds(agents: seq<Agent>) {
    forall i, j :: 0 <= i < j < |agents| ==> agents[i].agentId != agents[j].agentId
  }

  /** The registered agents in insertion order. */
  type Registry = agents: seq<Agent> | UniqueIds(agents) witness []

  /** The position of the agent with the given id. */
  function Find(r: Registry, agentId: string): (k: Option<nat>)
    ensures k.Some? ==> k.value < |r| && r[k.value].agentId == agentId
    ensures k.None? ==> forall i :: 0 <= i < |r| ==> r[i].agentId != agentId
    decreases |r|
  {
    if r == [] then None
    else if r[0].agentId == agentId then Some(0)
    else
      match Find(r[1..], agentId)
      case None => None
      case Some(k) => Some(k + 1)
  }

  /**
    `_register_agent`: a new id goes to the end; a known id has its agent
    replaced in place. Every other entry keeps its agent and its place.
   */
  function Register(r: Registry, a: Agent): (r': Registry)
    ensures Find(r, a.agentId).None? ==> r' == r + [a]
    ensures Find(r, a.agentId).Some? ==> |r'| == |r| && r'[Find(r, a.agentId).value] == a
    ensures forall i :: 0 <= i < |r| && r[i].agentId != a.agentId ==> r'[i] == r[i]
  {
    match Find(r, a.agentId)
    case None => r + [a]
    case Some(k) => r[k := a]
  }

  /** `get_agent`: the agent with the id, `None` for an unregistered id. */
  function GetAgent(r: Registry, agentId: string): (a: Option<Agent>)
    ensures a.None? <==> forall i :: 0 <= i < |r| ==> r[i].agentId != agentId
    ensures a.Some? ==> a.value in r && a.value.agentId == agentId
  {
    match Find(r, agentId)
    case None => None
    case Some(k) => Some(r[k])
  }

  /** After registering an agent, looking its id up gives that agent; other ids are unaffected. */
  lemma {:induction false} RegisterThenGet(r: Registry, a: Agent, other: string)
    ensures GetAgent(Register(r, a), a.agentId) == Some(a)
    ensures other != a.agentId ==> GetAgent(Register(r, a), other) == GetAgent(r, other)
  {
    var r' := Register(r, a);
    assert a in r';
    var k := Find(r', a.agentId);
    assert r'[k.value].agentId == a.agentId;
    if other != a.agentId {
      match Find(r, other)
      case None =>
        assert forall i :: 0 <= i < |r'| ==> r'[i].agentId != other;
      case Some(j) =>
        assert r'[j] == r[j];
        assert GetAgent(r', other) == Some(r'[j]);
    }
  }

  /** `get_agents_by_type`: the agents of the type, in registry order. */
  function GetAgentsByType(r: seq<Agent>, t: AgentType): (agents: seq<Agent>)
    ensures |agents| <= |r|
    ensures forall i :: 0 <= i < |agents| ==> agents[i].agentType == t && agents[i] in r
    ensures forall i :: 0 <= i < |r| && r[i].agentType == t ==> r[i] in agents
    decreases |r|
  {
    if r == [] then []
    else
      assert forall i :: 1 <= i < |r| ==> r[i] == r[1..][i - 1];
      (if r[0].agentType == t then [r[0]] else []) + GetAgentsByType(r[1..], t)
  }

  lemma {:induction false} ByTypeAppend(a: seq<Agent>, b: seq<Agent>, t: AgentType)
    ensures GetAgentsByType(a + b, t) == GetAgentsByType(a, t) + GetAgentsByType(b, t)
    decreases |a|
  {
    if a == [] {
      assert a + b == b;
    } else {
      assert (a + b)[1..] == a[1..] + b;
      ByTypeAppend(a[1..], b, t);
    }
  }

  /** A newly registered agent joins the end of its type's list; the other types' lists do not change. */
  lemma {:induction false} RegisterNewByType(r: Registry, a: Agent, t: AgentType)
    requires GetAgent(r, a.agentId).None?
    ensures GetAgentsByType(Register(r, a), t)
         == GetAgentsByType(r, t) + (if a.agentType == t then [a] else [])
  {
    ByTypeAppend(r, [a], t);
    assert GetAgentsByType([a][1..], t) == [];
  }

  /** Position `k` holds the first agent of type `t` in registry order. */
  predicate FirstOfType(r: seq<Agent>, k: int, t: AgentType) {
    0 <= k < |r| && r[k].agentType == t && forall j :: 0 <= j < k ==> r[j].agentType != t
  }

  /** Position `k` holds the first agent in registry order with the capability. */
  predicate FirstWithCapability(r: seq<Agent>, k: int, capability: string) {
    0 <= k < |r| && HasCapability(r[k], capability) && forall j :: 0 <= j < k ==> !HasCapability(r[j], capability)
  }

  // ---------------------------------------------------------------------
  // Choosing an agent

  /** What `process` is called with: the chosen agent and the options it receives. */
  datatype Dispatch = Dispatch(agentId: string, options: Option<map<string, Value>>)

  /** `process_with_agent`: the named agent, or `ValueError` for an unknown id. */
  function ProcessWithAgent(r: Registry, agentId: string, options: Option<map<string, Value>>): (d: Result<Dispatch, string>)
    ensures d.Err? <==> GetAgent(r, agentId).None?
    ensures d.Err? ==> d.error == "Agent not found: " + agentId
    ensures d.Ok? ==> d.value == Dispatch(agentId, options)
  {
    match GetAgent(r, agentId)
    case None => Err("Agent not found: " + agentId)
    case Some(a) => Ok(Dispatch(a.agentId, options))
  }

  /** `process_with_agent_type`: the first agent of the type, or `ValueError` when there is none. */
  function ProcessWithAgentType(r: Registry, t: AgentType, options: Option<map<string, Value>>): (d: Result<Dispatch, string>)
    ensures d.Err? <==> forall i :: 0 <= i < |r| ==> r[i].agentType != t
    ensures d.Err? ==> d.error == "No agents found of type: " + TypeValue(t)
    ensures d.Ok? ==> d.value.options == options
    ensures d.Ok? ==> exists k :: FirstOfType(r, k, t) && r[k].agentId == d.value.agentId
  {
    var agents := GetAgentsByType(r, t);
    if agents == [] then Err("No agents found of type: " + TypeValue(t))
    else
      HeadOfByType(r, t);
      Ok(Dispatch(agents[0].agentId, options))
  }

  /** The head of the by-type list is the first agent of that type in the registry. */
  lemma {:induction false} HeadOfByType(r: seq<Agent>, t: AgentType)
    requires GetAgentsByType(r, t) != []
    ensures exists k :: FirstOfType(r, k, t) && r[k] == GetAgentsByType(r, t)[0]
    decreases |r|
  {
    if r[0].agentType == t {
      assert FirstOfType(r, 0, t);
    } else {
      assert GetAgentsByType(r, t) == GetAgentsByType(r[1..], t);
      HeadOfByType(r[1..], t);
      var k :| FirstOfType(r[1..], k, t) && r[1..][k] == GetAgentsByType(r[1..], t)[0];
      assert FirstOfType(r, k + 1, t);
    }
  }

  /** Whether one of the agent's capability names is the capability. */
  predicate HasCapability(a: Agent, capability: string) {
    exists i :: 0 <= i < |a.capabilities| && a.capabilities[i].name == capability
  }

  /** The suitable agents of `process_with_best_agent`, in registry order. */
  function Suitable(r: seq<Agent>, capability: string): (agents: seq<Agent>)
    decreases |r|
  {
    if r == [] then []
    else (if HasCapability(r[0], capability) then [r[0]] else []) + Suitable(r[1..], capability)
  }

  /** The suitable list is empty iff no agent has the capability, and its head is the first one that does. */
  lemma {:induction false} HeadOfSuitable(r: seq<Agent>, capability: string)
    ensures Suitable(r, capability) == [] <==> forall i :: 0 <= i < |r| ==> !HasCapability(r[i], capability)
    ensures Suitable(r, capability) != [] ==>
      exists k :: FirstWithCapability(r, k, capability) && r[k] == Suitable(r, capability)[0]
    decreases |r|
  {
    if r != [] {
      HeadOfSuitable(r[1..], capability);
      assert forall i :: 1 <= i < |r| ==> r[i] == r[1..][i - 1];
      if HasCapability(r[0], capability) {
        assert FirstWithCapability(r, 0, capability);
      } else if Suitable(r, capability) != [] {
        var k :| FirstWithCapability(r[1..], k, capability) && r[1..][k] == Suitable(r[1..], capability)[0];
        assert FirstWithCapability(r, k + 1, capability);
      }
    }
  }

  /**
    `process_with_best_agent`: the first agent in registry order with a
    capability of that name, called with the options (`{}` when none were
    given) extended by `capability`; `ValueError` when no agent has it.
   */
  function ProcessWithBestAgent(r: Registry, capability: string, options: Option<map<string, Value>>): (d: Result<Dispatch, string>)
    ensures d.Err? <==> forall i :: 0 <= i < |r| ==> !HasCapability(r[i], capability)
    ensures d.Err? ==> d.error == "No agents found with capability: " + capability
    ensures d.Ok? ==>
      && (exists k :: FirstWithCapability(r, k, capability) && r[k].agentId == d.value.agentId)
      && d.value.options.Some?
      && d.value.options.value == options.GetOr(map[])["capability" := Str(capability)]
  {
    HeadOfSuitable(r, capability);
    var agents := Suitable(r, capability);
    if agents == [] then Err("No agents found with capability: " + capability)
    else
      var opts := options.GetOr(map[]);
      Ok(Dispatch(agents[0].agentId, Some(opts["capability" := Str(capability)])))
  }

  // ---------------------------------------------------------------------
  // The manager

  datatype Manager = Manager(agents: Registry, initialized: bool)

  function NewManager(): (m: Manager)
    ensures m.agents == [] && !m.initialized
  {
    Manager([], false)
  }

  /**
    Register the agents the factories built, in order, up to the first
    factory that raised; `Some` of that factory's message when one did.
    Agents registered before the failure stay registered.
   */
  function RegisterUntilError(r: Registry, built: seq<Result<Agent, string>>): (out: (Registry, Option<string>))
    ensures out.1.None? <==> forall i :: 0 <= i < |built| ==> built[i].Ok?
    ensures out.1.Some? ==> exists k :: FirstError(built, k) && built[k].error == out.1.value
    ensures forall id :: GetAgent(r, id).Some? ==> GetAgent(out.0, id).Some?
    ensures forall k, i :: FirstError(built, k) && 0 <= i < k ==> GetAgent(out.0, built[i].value.agentId).Some?
    ensures out.1.None? ==> forall i :: 0 <= i < |built| ==> GetAgent(out.0, built[i].value.agentId).Some?
    decreases |built|
  {
    if built == [] then (r, None)
    else
      match built[0]
      case Err(e) =>
        assert FirstError(built, 0);
        (r, Some(e))
      case Ok(a) =>
        var r1 := Register(r, a);
        var out := RegisterUntilError(r1, built[1..]);
        RegisterUntilErrorOutcomeStep(built, out.1);
        RegisterUntilErrorAgentsStep(r, built, out.1, out.0);
        out
  }

  /** `k` is the first factory that raised. */
  predicate FirstError(built: seq<Result<Agent, string>>, k: int) {
    0 <= k < |built| && built[k].Err? && forall j :: 0 <= j < k ==> built[j].Ok?
  }

  /** The tail's outcome is the whole list's once its head was built. */
  lemma {:induction false} RegisterUntilErrorOutcomeStep(built: seq<Result<Agent, string>>, failure: Option<string>)
    requires built != [] && built[0].Ok?
    requires failure.None? <==> forall i :: 0 <= i < |built[1..]| ==> built[1..][i].Ok?
    requires failure.Some? ==> exists k :: FirstError(built[1..], k) && built[1..][k].error == failure.value
    ensures failure.None? <==> forall i :: 0 <= i < |built| ==> built[i].Ok?
    ensures failure.Some? ==> exists k :: FirstError(built, k) && built[k].error == failure.value
  {
    var tail := built[1..];
    assert forall i :: 1 <= i < |built| ==> built[i] == tail[i - 1];
    if failure.Some? {
      var k :| FirstError(tail, k) && tail[k].error == failure.value;
      assert FirstError(built, k + 1);
    }
  }

  /** The tail's registrations are the whole list's once its head is registered first. */
  lemma {:induction false} RegisterUntilErrorAgentsStep(r: Registry, built: seq<Result<Agent, string>>, failure: Option<string>, final: Registry)
    requires built != [] && built[0].Ok?
    requires failure.None? ==> forall i :: 0 <= i < |built| ==> built[i].Ok?
    requires forall id :: GetAgent(Register(r, built[0].value), id).Some? ==> GetAgent(final, id).Some?
    requires forall k, i :: FirstError(built[1..], k) && 0 <= i < k ==> GetAgent(final, built[1..][i].value.agentId).Some?
    requires failure.None? ==> forall i :: 0 <= i < |built[1..]| ==> GetAgent(final, built[1..][i].value.agentId).Some?
    ensures forall id :: GetAgent(r, id).Some? ==> GetAgent(final, id).Some?
    ensures forall k, i :: FirstError(built, k) && 0 <= i < k ==> GetAgent(final, built[i].value.agentId).Some?
    ensures failure.None? ==> forall i :: 0 <= i < |built| ==> GetAgent(final, built[i].value.agentId).Some?
  {
    var a := built[0].value;
    var r1 := Register(r, a);
    var tail := built[1..];
    assert forall i :: 1 <= i < |built| ==> built[i] == tail[i - 1];
    forall id | GetAgent(r, id).Some? ensures GetAgent(r1, id).Some? {
      RegisterThenGet(r, a, id);
    }
    RegisterThenGet(r, a, a.agentId);
    forall k, i | FirstError(built, k) && 0 <= i < k ensures GetAgent(final, built[i].value.agentId).Some? {
      assert FirstError(tail, k - 1);
    }
  }

  /**
    `initialize`: on a manager not yet initialized, register the built-in
    agents in order (`built` holds what each factory returned or raised)
    and mark the manager initialized. A factory that raises stops the
    registration: the error is re-raised, the agents registered so far stay
    and the manager stays uninitialized, so the next call tries again. An
    initialized manager is left as it is.
   */
  function Initialize(m: Manager, built: seq<Result<Agent, string>>): (out: (Manager, Option<string>))
    ensures m.initialized ==> out == (m, None)
    ensures !m.initialized ==> (out.0.initialized <==> out.1.None?)
    ensures !m.initialized ==> (out.1.None? <==> forall i :: 0 <= i < |built| ==> built[i].Ok?)
    ensures !m.initialized && out.1.Some? ==> exists k :: FirstError(built, k) && built[k].error == out.1.value
    ensures !m.initialized ==> forall id :: GetAgent(m.agents, id).Some? ==> GetAgent(out.0.agents, id).Some?
    ensures !m.initialized ==> forall k, i :: FirstError(built, k) && 0 <= i < k ==> GetAgent(out.0.agents, built[i].value.agentId).Some?
    ensures !m.initialized && out.1.None? ==> forall i :: 0 <= i < |built| ==> GetAgent(out.0.agents, built[i].value.agentId).Some?
  {
    if m.initialized then (m, None)
    else
      var (agents, failure) := RegisterUntilError(m.agents, built);
      (Manager(agents, failure.None?), failure)
  }

  /** Once an `initialize` succeeded, a second one is a no-op, whatever its factories would do. */
  lemma {:induction false} InitializeIdempotent(m: Manager, first: seq<Result<Agent, string>>, second: seq<Result<Agent, string>>)
    requires Initialize(m, first).1.None?
    ensures Initialize(Initialize(m, first).0, second) == (Initialize(m, first).0, None)
  {
  }

  /** A failed `initialize` leaves the manager uninitialized, so a later call whose factories all succeed completes it. */
  lemma {:induction false} InitializeRetriesAfterFailure(m: Manager, first: seq<Result<Agent, string>>, second: seq<Result<Agent, string>>)
    requires !m.initialized && Initialize(m, first).1.Some?
    requires forall i :: 0 <= i < |second| ==> second[i].Ok?
    ensures var m1 := Initialize(m, first).0;
      var m2 := Initialize(m1, second);
      && !m1.initialized && m2.0.initialized && m2.1.None?
      && (forall id :: GetAgent(m1.agents, id).Some? ==> GetAgent(m2.0.agents, id).Some?)
      && (forall i :: 0 <= i < |second| ==> GetAgent(m2.0.agents, second[i].value.agentId).Some?)
  {
  }
}
