/**
 One intersection's agent in the grid network: the controller state of its
 traffic light, the waiting-time baseline its reward is measured against,
 and the observation and reward it computes from the simulator each tick.
 */
module IntersectionAgent {
  import opened Wrappers
  import opened Seqs
  import opened Traffic
  import opened Controller
  import opened Scoring

  /** A traffic light's agent: its id, controller state and reward baseline. */
  datatype Agent = Agent(tlId: string, signal: Signal, prevTotalWaiting: real)

  /** An agent after an operation, with the calls it made on the simulator. */
  datatype Effect = Effect(agent: Agent, calls: seq<SimCall>)

  /** A reward and the agent with its baseline advanced. */
  datatype Evaluation = Evaluation(reward: real, agent: Agent)

  predicate Valid(a: Agent)
  {
    Inv(a.signal)
  }

  /** A freshly created agent: green phase 0, counters and baseline zero. */
  function New(tlId: string): (a: Agent)
    ensures Valid(a) && a.tlId == tlId
    ensures !a.signal.inYellow && a.signal.phase == 0
  {
    Agent(tlId, Initial, 0.0)
  }

  /** Set-phase calls for this light, one per command index, in order. */
  function Commands(tlId: string, indices: seq<int>): (calls: seq<SimCall>)
    ensures |calls| == |indices|
    ensures forall i :: 0 <= i < |calls| ==> calls[i] == SetPhase(tlId, indices[i])
  {
    MapSeq(indices, (index: int) => SetPhase(tlId, index))
  }

  /** Back to the state of a freshly created agent, and green phase 0 on the light. */
  function Reset(a: Agent): (e: Effect)
    ensures e.agent == New(a.tlId)
    ensures e.calls == [SetPhase(a.tlId, GreenIndex(0))]
  {
    Effect(Agent(a.tlId, Initial, 0.0), [SetPhase(a.tlId, 0)])
  }

  /** Reset does not depend on the prior state, so resetting twice is resetting once. */
  lemma ResetForgetsHistory(a: Agent, b: Agent)
    requires a.tlId == b.tlId
    ensures Reset(a) == Reset(b)
    ensures Reset(Reset(a).agent) == Reset(a)
  {
  }

  /** Applies `action` to the light's controller. */
  function ExecuteAction(a: Agent, action: int): (e: Effect)
    ensures e.agent.tlId == a.tlId && e.agent.prevTotalWaiting == a.prevTotalWaiting
    ensures Valid(a) ==> Valid(e.agent)
    ensures e.agent.signal == Execute(a.signal, action).next
    ensures e.calls == Commands(a.tlId, Execute(a.signal, action).commands)
    ensures |e.calls| <= 1
  {
    var t := Execute(a.signal, action);
    Effect(a.(signal := t.next), Commands(a.tlId, t.commands))
  }

  /** A lane of the north-south stream: its id contains `v_`. */
  predicate IsVertical(id: string)
  {
    Contains(id, "v_")
  }

  /** Every lane not of the north-south stream is observed as east-west. */
  predicate NotVertical(id: string)
  {
    !IsVertical(id)
  }

  /** A lane counted as east-west by the shaping term: its id contains `h_`. */
  predicate IsHorizontal(id: string)
  {
    Contains(id, "h_")
  }

  /** The light's controlled lanes; an unknown light has none. */
  function IncomingLanes(snap: Snapshot, tlId: string): seq<string>
  {
    if tlId in snap.incoming then snap.incoming[tlId] else []
  }

  /**
   The agent's lanes with their vehicles, or `None` when looking up one of
   them fails. Listing the lanes never fails: when the simulator cannot
   answer, the light is treated as having no lanes at all.
   */
  function LanesOf(a: Agent, view: View): (r: Option<seq<Lane>>)
    ensures view.None? ==> r == Some([])
    ensures view.Some? ==>
              var ids := IncomingLanes(view.value, a.tlId);
              && (r.Some? <==> forall i :: 0 <= i < |ids| ==> ids[i] in view.value.occupants)
              && (r.Some? ==> |r.value| == |ids| &&
                               forall i :: 0 <= i < |ids| ==> r.value[i] == Lane(ids[i], view.value.occupants[ids[i]]))
  {
    match view
    case None => Some([])
    case Some(snap) => Resolve(IncomingLanes(snap, a.tlId), snap.occupants)
  }

  /** The observation vector of some queried lanes. */
  function Encode(lanes: seq<Lane>, phase: int): seq<int>
  {
    ObsVector(StreamCount(lanes, IsVertical), StreamCount(lanes, NotVertical),
              StreamHasBus(lanes, IsVertical), StreamHasBus(lanes, NotVertical), phase)
  }

  /**
   The agent's observation: clamped vehicle counts of the two streams, their
   bus flags and the current phase; all zeros when a lane lookup fails.
   */
  function Observe(a: Agent, view: View): (o: seq<int>)
    ensures |o| == ObsSize
    ensures Valid(a) ==> forall i :: 0 <= i < |o| ==> 0 <= o[i] <= MaxCount
    ensures LanesOf(a, view).None? ==> o == Zeros()
    ensures (o[2] == 0 || o[2] == 1) && (o[3] == 0 || o[3] == 1)
    ensures LanesOf(a, view).Some? ==> o[4] == a.signal.phase
    ensures LanesOf(a, view).Some? ==>
              var lanes := LanesOf(a, view).value;
              o[0] == Clamp(StreamCount(lanes, IsVertical)) && o[1] == Clamp(StreamCount(lanes, NotVertical))
    ensures LanesOf(a, view).Some? ==>
              var lanes := LanesOf(a, view).value;
              && (o[2] == 1 <==> exists i, j :: 0 <= i < |lanes| && 0 <= j < |lanes[i].vehicles| &&
                                                IsVertical(lanes[i].id) && IsBus(lanes[i].vehicles[j]))
              && (o[3] == 1 <==> exists i, j :: 0 <= i < |lanes| && 0 <= j < |lanes[i].vehicles| &&
                                                !IsVertical(lanes[i].id) && IsBus(lanes[i].vehicles[j]))
              && (TotalVehicles(lanes) <= MaxCount ==> o[0] + o[1] == TotalVehicles(lanes))
  {
    match LanesOf(a, view)
    case None => Zeros()
    case Some(lanes) =>
      StreamHasBusIff(lanes, IsVertical);
      StreamHasBusIff(lanes, NotVertical);
      StreamsPartition(lanes, IsVertical, NotVertical);
      Encode(lanes, a.signal.phase)
  }

  /** The shaping part of the agent's reward for this view; none when a lane lookup fails. */
  function ShapingTerm(a: Agent, view: View): (r: real)
    ensures r == Bonus || r == 0.0 || r == -Penalty
    ensures LanesOf(a, view).None? || a.signal.inYellow ==> r == 0.0
    ensures LanesOf(a, view).Some? ==>
              var lanes := LanesOf(a, view).value;
              var ns := StreamCount(lanes, IsVertical);
              var ew := StreamCount(lanes, IsHorizontal);
              && (r == Bonus <==> !a.signal.inYellow &&
                                  ((a.signal.phase == 0 && ns > ew + BonusMargin) ||
                                   (a.signal.phase == 1 && ew > ns + BonusMargin)))
              && (r == -Penalty <==> !a.signal.inYellow &&
                                     ((a.signal.phase == 0 && ew > ns + PenaltyMargin) ||
                                      (a.signal.phase == 1 && ns > ew + PenaltyMargin)))
  {
    match LanesOf(a, view)
    case None => 0.0
    case Some(lanes) =>
      Shaping(a.signal.phase, a.signal.inYellow, StreamCount(lanes, IsVertical), StreamCount(lanes, IsHorizontal))
  }

  /**
   The agent's reward: the drop in weighted waiting time since the last
   evaluation, normalised, plus the shaping term. A successful evaluation
   moves the baseline to the new total; one whose lane lookup fails rewards 0
   and keeps it.
   */
  function Reward(a: Agent, view: View): (e: Evaluation)
    ensures e.agent.tlId == a.tlId && e.agent.signal == a.signal
    ensures e.reward == ShapingTerm(a, view) + BaseReward(a.prevTotalWaiting, e.agent.prevTotalWaiting)
    ensures LanesOf(a, view).None? ==> e == Evaluation(0.0, a)
    ensures LanesOf(a, view).Some? ==> e.agent.prevTotalWaiting == WaitingTotal(LanesOf(a, view).value)
  {
    match LanesOf(a, view)
    case None => Evaluation(0.0, a)
    case Some(lanes) =>
      var total := WaitingTotal(lanes);
      var shaping :=
        Shaping(a.signal.phase, a.signal.inYellow, StreamCount(lanes, IsVertical), StreamCount(lanes, IsHorizontal));
      Evaluation(BaseReward(a.prevTotalWaiting, total) + shaping, a.(prevTotalWaiting := total))
  }

  /**
   When the weighted waiting total has not moved since the last evaluation and
   no shaping condition holds (in particular during yellow), the reward is
   exactly zero; otherwise the shaping term makes it +1 or -2.
   */
  lemma SteadyTrafficReward(a: Agent, view: View)
    requires LanesOf(a, view).Some? && WaitingTotal(LanesOf(a, view).value) == a.prevTotalWaiting
    ensures Reward(a, view).reward in {Bonus, 0.0, -Penalty}
    ensures a.signal.inYellow ==> Reward(a, view).reward == 0.0
    ensures var lanes := LanesOf(a, view).value;
            var ns, ew, p := StreamCount(lanes, IsVertical), StreamCount(lanes, IsHorizontal), a.signal.phase;
            && !((p == 0 && ns > ew + BonusMargin) || (p == 1 && ew > ns + BonusMargin))
            && !((p == 0 && ew > ns + PenaltyMargin) || (p == 1 && ns > ew + PenaltyMargin))
            ==> Reward(a, view).reward == 0.0
  {
  }

  /** Sum of the rewards of evaluating `views` in turn, and the agent after them. */
  function RewardSeries(a: Agent, views: seq<View>): (e: Evaluation)
    ensures e.agent.tlId == a.tlId && e.agent.signal == a.signal
    decreases |views|
  {
    if |views| == 0 then Evaluation(0.0, a)
    else
      var first := Reward(a, views[0]);
      var rest := RewardSeries(first.agent, views[1..]);
      Evaluation(first.reward + rest.reward, rest.agent)
  }

  /** Sum of the shaping terms of `views`. */
  function ShapingSeries(a: Agent, views: seq<View>): real
    decreases |views|
  {
    if |views| == 0 then 0.0 else ShapingTerm(a, views[0]) + ShapingSeries(a, views[1..])
  }

  lemma {:induction false} ShapingSeriesIgnoresBaseline(a: Agent, b: Agent, views: seq<View>)
    requires a.tlId == b.tlId && a.signal == b.signal
    ensures ShapingSeries(a, views) == ShapingSeries(b, views)
    decreases |views|
  {
    if |views| > 0 {
      ShapingSeriesIgnoresBaseline(a, b, views[1..]);
    }
  }

  /**
   The delta rewards telescope: over any run of evaluations, failed ones
   included, the rewards add up to the shaping terms plus the normalised drop
   from the first baseline to the last.
   */
  lemma {:induction false} RewardTelescopes(a: Agent, views: seq<View>)
    ensures RewardSeries(a, views).reward ==
              ShapingSeries(a, views) + BaseReward(a.prevTotalWaiting, RewardSeries(a, views).agent.prevTotalWaiting)
    decreases |views|
  {
    if |views| > 0 {
      var first := Reward(a, views[0]);
      RewardTelescopes(first.agent, views[1..]);
      ShapingSeriesIgnoresBaseline(first.agent, a, views[1..]);
    }
  }

  /**
   The agent's controlled lanes are a set, so their order is arbitrary; the
   observation and the reward do not depend on it.
   */
  lemma LaneOrderDoesNotMatter(a: Agent, snap: Snapshot, ids: seq<string>)
    requires multiset(ids) == multiset(IncomingLanes(snap, a.tlId))
    ensures var reordered := snap.(incoming := snap.incoming[a.tlId := ids]);
            && Observe(a, Some(reordered)) == Observe(a, Some(snap))
            && Reward(a, Some(reordered)) == Reward(a, Some(snap))
  {
    var reordered := snap.(incoming := snap.incoming[a.tlId := ids]);
    assert IncomingLanes(reordered, a.tlId) == ids;
    ResolvePermutation(ids, IncomingLanes(snap, a.tlId), snap.occupants);
    ObserveReadsLaneMultiset(a, Some(reordered), Some(snap));
    RewardReadsLaneMultiset(a, Some(reordered), Some(snap));
  }

  /** Views whose lookups succeed together, on the same lanes up to order, give the same observation. */
  lemma ObserveReadsLaneMultiset(a: Agent, v: View, w: View)
    requires LanesOf(a, v).Some? <==> LanesOf(a, w).Some?
    requires LanesOf(a, v).Some? ==> multiset(LanesOf(a, v).value) == multiset(LanesOf(a, w).value)
    ensures Observe(a, v) == Observe(a, w)
  {
    if LanesOf(a, v).Some? {
      LaneOrderIrrelevant(LanesOf(a, v).value, LanesOf(a, w).value, IsVertical);
      LaneOrderIrrelevant(LanesOf(a, v).value, LanesOf(a, w).value, NotVertical);
    }
  }

  /** Views whose lookups succeed together, on the same lanes up to order, give the same evaluation. */
  lemma RewardReadsLaneMultiset(a: Agent, v: View, w: View)
    requires LanesOf(a, v).Some? <==> LanesOf(a, w).Some?
    requires LanesOf(a, v).Some? ==> multiset(LanesOf(a, v).value) == multiset(LanesOf(a, w).value)
    ensures Reward(a, v) == Reward(a, w)
  {
    if LanesOf(a, v).Some? {
      LaneOrderIrrelevant(LanesOf(a, v).value, LanesOf(a, w).value, IsVertical);
      LaneOrderIrrelevant(LanesOf(a, v).value, LanesOf(a, w).value, IsHorizontal);
    }
  }

  /**
   A light whose controlled lanes cannot be listed (the simulator does not
   answer at all, or does not know the light) is observed with no lanes: zero
   counts and flags, but still its phase; its reward is the whole baseline,
   normalised, and the baseline drops to 0.
   */
  lemma UnknownLightHasNoLanes(a: Agent, view: View)
    requires view.Some? ==> a.tlId !in view.value.incoming
    ensures Observe(a, view) == [0, 0, 0, 0, a.signal.phase]
    ensures Reward(a, view) == Evaluation(a.prevTotalWaiting / RewardScale, a.(prevTotalWaiting := 0.0))
  {
    assert LanesOf(a, view) == Some([]);
  }

  /** Evaluating a light changes only its baseline, which the observation does not read. */
  lemma ObservationIgnoresBaseline(a: Agent, view: View)
    ensures Observe(Reward(a, view).agent, view) == Observe(a, view)
  {
    var b := Reward(a, view).agent;
    assert b == a.(prevTotalWaiting := b.prevTotalWaiting);
    assert LanesOf(b, view) == LanesOf(a, view);
  }
}
