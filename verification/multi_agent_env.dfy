/**
 The grid-network environment: a fixed roster of nine traffic lights, one
 agent each, stepped together against one simulator. A step sends every
 agent its action, advances the simulator one tick, and returns the agents'
 observations concatenated in roster order and their rewards summed.
 */
module MultiAgentEnv {
  import opened Wrappers
  import opened Seqs
  import opened Traffic
  import opened Controller
  import opened Scoring
  import opened Results
  import opened IntersectionAgent

  /** The traffic lights of the 3x3 grid, in the order of observations and actions. */
  const Roster: seq<string> := ["tl_00", "tl_01", "tl_02", "tl_10", "tl_11", "tl_12", "tl_20", "tl_21", "tl_22"]

  /** Steps after which an episode is truncated. */
  const Horizon: nat := 1500

  /** The agents in roster order and the steps taken in the episode. */
  datatype Env = Env(agents: seq<Agent>, stepCount: nat)

  /**
   The actions handed to `Step`: an array with one entry per light (indexed
   by roster position), or a single action given to every light.
   */
  datatype Actions = PerAgent(values: seq<int>) | Broadcast(value: int)

  /**
   A completed step, or the index error raised when the action array has
   fewer entries than the roster. The error leaves the environment as far as
   the step got: counter advanced, the lights before the missing entry
   already executed their actions.
   */
  datatype Outcome =
    | Stepped(env: Env, calls: seq<SimCall>, result: StepResult)
    | ActionIndexError(env: Env, calls: seq<SimCall>)

  /** One valid agent per roster light, in roster order. */
  predicate Valid(e: Env)
  {
    && |e.agents| == |Roster|
    && forall i :: 0 <= i < |Roster| ==> e.agents[i].tlId == Roster[i] && IntersectionAgent.Valid(e.agents[i])
  }

  /** The environment as constructed: a fresh agent per light, no steps taken. */
  function Create(): (e: Env)
    ensures Valid(e) && e.stepCount == 0
    ensures forall i :: 0 <= i < |e.agents| ==> e.agents[i] == New(Roster[i])
  {
    Env(MapSeq(Roster, New), 0)
  }

  /** The action the light at roster position `i` receives; `None` where indexing fails. */
  function ActionFor(actions: Actions, i: nat): Option<int>
  {
    match actions
    case Broadcast(value) => Some(value)
    case PerAgent(values) => if i < |values| then Some(values[i]) else None
  }

  /** Agents from position `k` on after the action loop, the calls made, and whether it raised. */
  datatype Applied = Applied(agents: seq<Agent>, calls: seq<SimCall>, failed: bool)

  /** The agents a complete action loop leaves: each light's action applied to it. */
  function Executed(agents: seq<Agent>, actions: Actions): (r: seq<Agent>)
    ensures |r| == |agents|
    ensures forall i :: 0 <= i < |agents| ==>
              && r[i].tlId == agents[i].tlId && r[i].prevTotalWaiting == agents[i].prevTotalWaiting
              && (IntersectionAgent.Valid(agents[i]) ==> IntersectionAgent.Valid(r[i]))
    ensures forall i :: 0 <= i < |agents| && ActionFor(actions, i).Some? ==>
              r[i].signal == Execute(agents[i].signal, ActionFor(actions, i).value).next
    ensures forall i :: 0 <= i < |agents| && ActionFor(actions, i).None? ==> r[i] == agents[i]
  {
    seq(|agents|, i requires 0 <= i < |agents| =>
      match ActionFor(actions, i)
      case Some(action) => ExecuteAction(agents[i], action).agent
      case None => agents[i])
  }

  /** The set-phase calls one light makes for its action; none when the action is missing. */
  function CallBlock(a: Agent, action: Option<int>): seq<SimCall>
  {
    match action
    case Some(x) => ExecuteAction(a, x).calls
    case None => []
  }

  /** The set-phase calls each light's action makes, in roster order. */
  function CallBlocks(agents: seq<Agent>, actions: Actions): (r: seq<seq<SimCall>>)
    ensures |r| == |agents|
    ensures forall i :: 0 <= i < |agents| ==> r[i] == CallBlock(agents[i], ActionFor(actions, i))
  {
    seq(|agents|, i requires 0 <= i < |agents| => CallBlock(agents[i], ActionFor(actions, i)))
  }

  /** Replacing the agent at `k` leaves the call blocks after `k` alone. */
  lemma CallBlocksAfter(agents: seq<Agent>, actions: Actions, k: nat, a: Agent)
    requires k < |agents|
    ensures CallBlocks(agents[k := a], actions)[k + 1..] == CallBlocks(agents, actions)[k + 1..]
  {
    var before := CallBlocks(agents, actions);
    var after := CallBlocks(agents[k := a], actions);
    forall i | k + 1 <= i < |agents|
      ensures after[i] == before[i]
    {
      assert agents[k := a][i] == agents[i];
    }
  }

  /**
   The action loop from roster position `k`: each light in turn executes its
   action, until an action is missing.
   */
  function ApplyFrom(agents: seq<Agent>, actions: Actions, k: nat): (r: Applied)
    requires k <= |agents|
    ensures |r.agents| == |agents|
    ensures r.failed <==> k < |agents| && actions.PerAgent? && |actions.values| < |agents|
    ensures forall i :: 0 <= i < k ==> r.agents[i] == agents[i]
    ensures forall i :: k <= i < |agents| ==> r.agents[i] == Executed(agents, actions)[i]
    ensures forall i :: 0 <= i < |r.calls| ==> r.calls[i].SetPhase?
    ensures forall i :: 0 <= i < |r.calls| ==> exists j :: k <= j < |agents| && r.calls[i].tlId == agents[j].tlId
    decreases |agents| - k
  {
    if k == |agents| then Applied(agents, [], false)
    else
      match ActionFor(actions, k)
      case None => Applied(agents, [], true)
      case Some(action) =>
        var effect := ExecuteAction(agents[k], action);
        var rest := ApplyFrom(agents[k := effect.agent], actions, k + 1);
        Applied(rest.agents, effect.calls + rest.calls, rest.failed)
  }

  /**
   The calls of the action loop from position `k` are each light's own
   set-phase calls, in roster order, up to the first missing action.
   */
  lemma {:induction false} ApplyFromCalls(agents: seq<Agent>, actions: Actions, k: nat)
    requires k <= |agents|
    ensures ApplyFrom(agents, actions, k).calls == Flatten(CallBlocks(agents, actions)[k..])
    decreases |agents| - k
  {
    var blocks := CallBlocks(agents, actions);
    if k == |agents| {
      assert blocks[k..] == [];
    } else {
      match ActionFor(actions, k)
      case None =>
        assert forall i :: k <= i < |agents| ==> blocks[i] == [];
        FlattenEmpty(blocks[k..]);
      case Some(action) =>
        var effect := ExecuteAction(agents[k], action);
        ApplyFromCalls(agents[k := effect.agent], actions, k + 1);
        CallBlocksAfter(agents, actions, k, effect.agent);
        FlattenFrom(blocks, k);
    }
  }


  /** The agents' observations, concatenated in roster order. */
  function Observations(agents: seq<Agent>, view: View): (o: seq<int>)
    ensures |o| == ObsSize * |agents|
    ensures forall i :: 0 <= i < |agents| ==> o[ObsSize * i..ObsSize * i + ObsSize] == Observe(agents[i], view)
  {
    var blocks := MapSeq(agents, (a: Agent) => Observe(a, view));
    FlattenBlocks(blocks, ObsSize);
    Flatten(blocks)
  }

  /** Every agent reset, in roster order. */
  function FreshAgents(agents: seq<Agent>): (r: seq<Agent>)
    ensures |r| == |agents|
    ensures forall i :: 0 <= i < |agents| ==> r[i] == New(agents[i].tlId)
  {
    MapSeq(agents, (a: Agent) => IntersectionAgent.Reset(a).agent)
  }

  /** Resetting every agent of a valid environment keeps it valid. */
  lemma FreshAgentsValid(e: Env)
    ensures Valid(e) ==> Valid(Env(FreshAgents(e.agents), 0))
  {
    var agents := FreshAgents(e.agents);
    if Valid(e) {
      forall i | 0 <= i < |Roster|
        ensures agents[i].tlId == Roster[i] && IntersectionAgent.Valid(agents[i])
      {
        assert agents[i] == New(e.agents[i].tlId);
      }
    }
  }

  /** The calls of resetting every agent in roster order: green phase 0 on each light. */
  function ResetCalls(agents: seq<Agent>): (r: seq<SimCall>)
    ensures |r| == |agents|
    ensures forall i :: 0 <= i < |agents| ==> r[i] == SetPhase(agents[i].tlId, GreenIndex(0))
  {
    var callBlocks := MapSeq(agents, (a: Agent) => IntersectionAgent.Reset(a).calls);
    FlattenBlocks(callBlocks, 1);
    assert forall i :: 0 <= i < |agents| ==> Flatten(callBlocks)[i] == Flatten(callBlocks)[i..i + 1][0];
    Flatten(callBlocks)
  }

  /**
   Tears the episode down to its start: every agent reset in roster order
   (each setting its light to green phase 0), the step counter zeroed, and the
   joint observation of the new episode.
   */
  function Reset(e: Env, view: View): (r: ResetResult<Env>)
    ensures r.env.stepCount == 0 && |r.env.agents| == |e.agents|
    ensures forall i :: 0 <= i < |e.agents| ==> r.env.agents[i] == New(e.agents[i].tlId)
    ensures |r.calls| == |e.agents|
    ensures forall i :: 0 <= i < |e.agents| ==> r.calls[i] == SetPhase(e.agents[i].tlId, GreenIndex(0))
    ensures Valid(e) ==> Valid(r.env)
    ensures |r.observation| == ObsSize * |e.agents|
    ensures r.observation == Observations(r.env.agents, view)
    ensures forall i :: 0 <= i < |e.agents| ==>
              r.observation[ObsSize * i..ObsSize * i + ObsSize] == Observe(New(e.agents[i].tlId), view)
  {
    var agents := FreshAgents(e.agents);
    FreshAgentsValid(e);
    ResetResult(Env(agents, 0), ResetCalls(e.agents), Observations(agents, view))
  }

  /** Resetting forgets every step taken, so resetting twice is resetting once. */
  lemma ResetIdempotent(e: Env, view: View, view': View)
    ensures Reset(Reset(e, view).env, view').env == Reset(e, view').env
    ensures Reset(Create(), view).env == Create()
  {
  }

  /** The agents after evaluating their rewards, each with its baseline advanced. */
  function Evaluated(agents: seq<Agent>, view: View): (r: seq<Agent>)
    ensures |r| == |agents|
    ensures forall i :: 0 <= i < |agents| ==> r[i] == Reward(agents[i], view).agent
  {
    MapSeq(agents, (a: Agent) => Reward(a, view).agent)
  }

  /**
   One step: the step counter advances; each light in roster order executes
   its action; then the simulator ticks once; then every agent is observed
   and every agent's reward is evaluated, summed in roster order. The episode
   terminates when the simulator expects no more vehicles and is truncated at
   the horizon. `minExpected` is the simulator's expected-vehicle count after
   the tick.
   */
  function Step(e: Env, actions: Actions, view: View, minExpected: int): (o: Outcome)
    ensures o.env.stepCount == e.stepCount + 1 && |o.env.agents| == |e.agents|
    ensures o.Stepped? <==> !(actions.PerAgent? && |actions.values| < |e.agents|)
    ensures o.ActionIndexError? ==>
              forall i :: 0 <= i < |e.agents| ==>
                o.env.agents[i] == (if i < |actions.values| then ExecuteAction(e.agents[i], actions.values[i]).agent
                                    else e.agents[i])
    ensures o.Stepped? ==>
              && |o.calls| > 0 && o.calls[|o.calls| - 1] == SimulationStep
              && (forall i :: 0 <= i < |o.calls| - 1 ==> o.calls[i].SetPhase?)
              && (o.result.terminated <==> minExpected <= 0)
              && (o.result.truncated <==> e.stepCount + 1 >= Horizon)
    ensures o.Stepped? ==>
              var executed := Executed(e.agents, actions);
              && (forall i :: 0 <= i < |e.agents| ==> o.env.agents[i] == Reward(executed[i], view).agent)
              && o.result.observation == Observations(executed, view)
              && o.result.reward == SumReal(executed, (a: Agent) => Reward(a, view).reward)
  {
    var applied := ApplyFrom(e.agents, actions, 0);
    if applied.failed then
      ActionIndexError(Env(applied.agents, e.stepCount + 1), applied.calls)
    else
      assert applied.agents == Executed(e.agents, actions);
      Complete(e.stepCount + 1, applied.agents, applied.calls, view, minExpected)
  }

  /**
   The rest of a step once every light has executed its action: the tick,
   then every agent observed and evaluated in roster order.
   */
  function Complete(stepCount: nat, executed: seq<Agent>, calls: seq<SimCall>, view: View, minExpected: int): (o: Outcome)
    ensures o.Stepped? && o.env.stepCount == stepCount
    ensures |o.env.agents| == |executed|
    ensures forall i :: 0 <= i < |executed| ==> o.env.agents[i] == Reward(executed[i], view).agent
    ensures |o.calls| == |calls| + 1 && o.calls[..|calls|] == calls && o.calls[|calls|] == SimulationStep
    ensures o.result.observation == Observations(executed, view)
    ensures o.result.reward == SumReal(executed, (a: Agent) => Reward(a, view).reward)
    ensures (o.result.terminated <==> minExpected <= 0) && (o.result.truncated <==> stepCount >= Horizon)
  {
    var observation := Observations(executed, view);
    var reward := SumReal(executed, (a: Agent) => Reward(a, view).reward);
    Stepped(Env(Evaluated(executed, view), stepCount), calls + [SimulationStep],
            StepResult(observation, reward, minExpected <= 0, stepCount >= Horizon))
  }

  /**
   The calls of a step are every light's own set-phase calls in roster order,
   then one simulator tick; a step that raises stops before the tick, after
   the calls of the lights before the missing action.
   */
  lemma StepCalls(e: Env, actions: Actions, view: View, minExpected: int)
    ensures var o := Step(e, actions, view, minExpected);
            o.calls == Flatten(CallBlocks(e.agents, actions)) + (if o.Stepped? then [SimulationStep] else [])
  {
    ApplyFromCalls(e.agents, actions, 0);
    assert CallBlocks(e.agents, actions)[0..] == CallBlocks(e.agents, actions);
  }

  /** A step keeps every agent's light, and every agent's controller invariant. */
  lemma StepKeepsAgents(e: Env, actions: Actions, view: View, minExpected: int)
    ensures var o := Step(e, actions, view, minExpected);
            forall i :: 0 <= i < |e.agents| ==>
              && o.env.agents[i].tlId == e.agents[i].tlId
              && (IntersectionAgent.Valid(e.agents[i]) ==> IntersectionAgent.Valid(o.env.agents[i]))
  {
    var o := Step(e, actions, view, minExpected);
    var executed := Executed(e.agents, actions);
    forall i | 0 <= i < |e.agents|
      ensures o.env.agents[i].tlId == e.agents[i].tlId
      ensures IntersectionAgent.Valid(e.agents[i]) ==> IntersectionAgent.Valid(o.env.agents[i])
    {
      if o.Stepped? {
        assert o.env.agents[i] == Reward(executed[i], view).agent;
      }
    }
  }

  /** A step keeps one valid agent per roster light, in roster order. */
  lemma StepKeepsValid(e: Env, actions: Actions, view: View, minExpected: int)
    requires Valid(e)
    ensures Valid(Step(e, actions, view, minExpected).env)
  {
    var o := Step(e, actions, view, minExpected);
    StepKeepsAgents(e, actions, view, minExpected);
    forall i | 0 <= i < |Roster|
      ensures o.env.agents[i].tlId == Roster[i] && IntersectionAgent.Valid(o.env.agents[i])
    {
      assert e.agents[i].tlId == Roster[i] && IntersectionAgent.Valid(e.agents[i]);
    }
  }

  /**
   In a step, the light at position `i` runs its controller on entry `i` of
   the action array, or on the broadcast action, and its block of the joint
   observation is its own observation after that.
   */
  lemma StepRoutesActions(e: Env, actions: Actions, view: View, minExpected: int, i: nat)
    requires i < |e.agents|
    requires actions.PerAgent? ==> |actions.values| >= |e.agents|
    ensures Step(e, actions, view, minExpected).Stepped?
    ensures |Step(e, actions, view, minExpected).result.observation| == ObsSize * |e.agents|
    ensures var o := Step(e, actions, view, minExpected);
            var action := if actions.PerAgent? then actions.values[i] else actions.value;
            && o.env.agents[i].tlId == e.agents[i].tlId
            && o.env.agents[i].signal == Execute(e.agents[i].signal, action).next
            && o.result.observation[ObsSize * i..ObsSize * i + ObsSize] == Observe(o.env.agents[i], view)
  {
    var o := Step(e, actions, view, minExpected);
    var executed := Executed(e.agents, actions);
    assert o.Stepped? && o.result.observation == Observations(executed, view);
    assert o.env.agents[i] == Reward(executed[i], view).agent;
    IntersectionAgent.ObservationIgnoresBaseline(executed[i], view);
  }

  /** Every entry of the joint observation of valid agents is within [0, 50]. */
  lemma ObservationsBounded(agents: seq<Agent>, view: View)
    requires forall i :: 0 <= i < |agents| ==> IntersectionAgent.Valid(agents[i])
    ensures forall k :: 0 <= k < |Observations(agents, view)| ==> 0 <= Observations(agents, view)[k] <= MaxCount
  {
    var obs := Observations(agents, view);
    forall k | 0 <= k < |obs|
      ensures 0 <= obs[k] <= MaxCount
    {
      var i := k / ObsSize;
      assert ObsSize * i <= k < ObsSize * i + ObsSize;
      var block := Observe(agents[i], view);
      assert IntersectionAgent.Valid(agents[i]);
      assert obs[k] == block[k - ObsSize * i];
    }
  }

  /** The joint observation has a block of five entries per light, all within [0, 50]. */
  lemma JointObservationShape(e: Env, actions: Actions, view: View, minExpected: int)
    requires Valid(e)
    requires actions.PerAgent? ==> |actions.values| >= |Roster|
    ensures Step(e, actions, view, minExpected).Stepped?
    ensures var obs := Step(e, actions, view, minExpected).result.observation;
            && |obs| == ObsSize * |Roster| == 45
            && forall k :: 0 <= k < |obs| ==> 0 <= obs[k] <= MaxCount
  {
    assert |e.agents| == |Roster|;
    var executed := Executed(e.agents, actions);
    assert forall i :: 0 <= i < |executed| ==> IntersectionAgent.Valid(executed[i]);
    ObservationsBounded(executed, view);
  }
}
