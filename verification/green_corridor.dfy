/**
 The single-intersection environment: one traffic light, `center`, with
 eight fixed incoming lanes. Its step inlines the same phase state machine,
 observation and reward as the grid agents, differing in the fixed lane
 names, the tick placed inside the state machine, the horizon, and the
 shaping counts taken from the `_0` lanes only.
 */
module GreenCorridor {
  import opened Wrappers
  import opened Seqs
  import opened Traffic
  import opened Controller
  import opened Scoring
  import opened Results

  const LightId: string := "center"

  const NsLanes: seq<string> := ["north_in_0", "north_in_1", "south_in_0", "south_in_1"]
  const EwLanes: seq<string> := ["east_in_0", "east_in_1", "west_in_0", "west_in_1"]

  /** The incoming lanes, north-south ones first. */
  const AllLanes: seq<string> := NsLanes + EwLanes

  /** Steps after which an episode is truncated. */
  const Horizon: nat := 1000

  /** The environment's state: controller fields, step counter and reward baseline. */
  datatype Corridor = Corridor(
    currentPhase: int,
    timeSincePhaseStart: nat,
    inYellow: bool,
    yellowCounter: nat,
    stepCount: nat,
    prevTotalWaiting: real)

  /** The environment after a step, the simulator calls in order, and what the step returns. */
  datatype Stepped = Stepped(env: Corridor, calls: seq<SimCall>, result: StepResult)

  /** A reward and the environment with its baseline advanced. */
  datatype Evaluation = Evaluation(reward: real, env: Corridor)

  /** The controller fields read as a grid agent's controller state. */
  function SignalOf(c: Corridor): Signal
  {
    Signal(c.currentPhase, c.timeSincePhaseStart, c.inYellow, c.yellowCounter)
  }

  predicate Valid(c: Corridor)
  {
    Inv(SignalOf(c))
  }

  /** The state at construction, and after every reset. */
  const Start: Corridor := Corridor(0, 0, false, 0, 0, 0.0)

  /** A lane of the north-south stream for the bus flags: its id names north or south. */
  predicate IsNorthSouth(id: string)
  {
    Contains(id, "north") || Contains(id, "south")
  }

  predicate NotNorthSouth(id: string)
  {
    !IsNorthSouth(id)
  }

  /** The eight lanes with their vehicles, or `None` when a query fails. */
  function LanesOf(view: View): (r: Option<seq<Lane>>)
    ensures view.None? ==> r.None?
    ensures view.Some? ==> (r.Some? <==> forall i :: 0 <= i < |AllLanes| ==> AllLanes[i] in view.value.occupants)
    ensures r.Some? ==>
              && |r.value| == |AllLanes|
              && forall i :: 0 <= i < |AllLanes| ==> r.value[i] == Lane(AllLanes[i], view.value.occupants[AllLanes[i]])
  {
    match view
    case None => None
    case Some(snap) => Resolve(AllLanes, snap.occupants)
  }

  /**
   The observation: clamped vehicle counts of the four north-south and the
   four east-west lanes, bus flags by lane name, and the phase; all zeros when
   a query fails.
   */
  function Observe(c: Corridor, view: View): (o: seq<int>)
    ensures |o| == ObsSize
    ensures Valid(c) ==> forall i :: 0 <= i < |o| ==> 0 <= o[i] <= MaxCount
    ensures LanesOf(view).None? ==> o == Zeros()
    ensures (o[2] == 0 || o[2] == 1) && (o[3] == 0 || o[3] == 1)
    ensures LanesOf(view).Some? ==> o[4] == c.currentPhase
    ensures LanesOf(view).Some? ==>
              var lanes := LanesOf(view).value;
              && o[0] == Clamp(TotalVehicles(lanes[..4])) && o[1] == Clamp(TotalVehicles(lanes[4..]))
              && o[0] == Clamp(StreamCount(lanes, IsNorthSouth)) && o[1] == Clamp(StreamCount(lanes, NotNorthSouth))
              && (o[2] == 1 <==> exists i, j :: 0 <= i < |lanes| && 0 <= j < |lanes[i].vehicles| &&
                                                IsNorthSouth(lanes[i].id) && IsBus(lanes[i].vehicles[j]))
              && (o[3] == 1 <==> exists i, j :: 0 <= i < |lanes| && 0 <= j < |lanes[i].vehicles| &&
                                                !IsNorthSouth(lanes[i].id) && IsBus(lanes[i].vehicles[j]))
  {
    match LanesOf(view)
    case None => Zeros()
    case Some(lanes) =>
      StreamHasBusIff(lanes, IsNorthSouth);
      StreamHasBusIff(lanes, NotNorthSouth);
      StreamsAgree(view);
      ObsVector(TotalVehicles(lanes[..4]), TotalVehicles(lanes[4..]),
                StreamHasBus(lanes, IsNorthSouth), StreamHasBus(lanes, NotNorthSouth), c.currentPhase)
  }

  /** The first four lanes name north or south; the last four name neither. */
  lemma NamesClassified()
    ensures forall i :: 0 <= i < |AllLanes| ==> (IsNorthSouth(AllLanes[i]) <==> i < 4)
  {
    forall i | 0 <= i < |AllLanes|
      ensures IsNorthSouth(AllLanes[i]) <==> i < 4
    {
      ClassifyLane(i);
    }
  }

  lemma ClassifyLane(i: nat)
    requires i < |AllLanes|
    ensures IsNorthSouth(AllLanes[i]) <==> i < 4
  {
    if i == 0 {
      assert AllLanes[i] == "north_in_0" && Contains("north_in_0", "north");
    } else if i == 1 {
      assert AllLanes[i] == "north_in_1" && Contains("north_in_1", "north");
    } else if i == 2 {
      assert AllLanes[i] == "south_in_0" && Contains("south_in_0", "south");
    } else if i == 3 {
      assert AllLanes[i] == "south_in_1" && Contains("south_in_1", "south");
    } else if i == 4 {
      assert AllLanes[i] == "east_in_0";
      NeitherNorthNorSouth("east_in_0");
    } else if i == 5 {
      assert AllLanes[i] == "east_in_1";
      NeitherNorthNorSouth("east_in_1");
    } else if i == 6 {
      assert AllLanes[i] == "west_in_0";
      NeitherNorthNorSouth("west_in_0");
    } else {
      assert AllLanes[i] == "west_in_1";
      NeitherNorthNorSouth("west_in_1");
    }
  }

  /** An id with no `o` at positions 1 to |id| - 4 contains neither `north` nor `south`. */
  lemma NeitherNorthNorSouth(id: string)
    requires forall i :: 1 <= i <= |id| - 4 ==> id[i] != 'o'
    ensures !IsNorthSouth(id)
  {
    NotContains(id, "north");
    NotContains(id, "south");
  }

  /**
   The fixed lane lists the counts use and the lane-name test the bus flags
   use put the same lanes in each stream, and every vehicle is counted in
   exactly one stream.
   */
  lemma StreamsAgree(view: View)
    requires LanesOf(view).Some?
    ensures var lanes := LanesOf(view).value;
            && TotalVehicles(lanes[..4]) == StreamCount(lanes, IsNorthSouth)
            && TotalVehicles(lanes[4..]) == StreamCount(lanes, NotNorthSouth)
            && TotalVehicles(lanes[..4]) + TotalVehicles(lanes[4..]) == TotalVehicles(lanes)
  {
    var lanes := LanesOf(view).value;
    NamesClassified();
    assert forall i :: 0 <= i < |lanes| ==> lanes[i].id == AllLanes[i];
    assert forall i :: 0 <= i < |lanes| ==> (IsNorthSouth(lanes[i].id) <==> i < 4);
    SplitCount(lanes, IsNorthSouth, true);
    SplitCount(lanes, NotNorthSouth, false);
    assert lanes == lanes[..4] + lanes[4..];
    SumNatAppend(lanes[..4], lanes[4..], (l: Lane) => |l.vehicles|);
  }

  /** A stream holding exactly the first four lanes (or exactly the rest) counts exactly them. */
  lemma SplitCount(lanes: seq<Lane>, inStream: string -> bool, first: bool)
    requires |lanes| == 8
    requires forall i :: 0 <= i < 8 ==> (inStream(lanes[i].id) <==> (i < 4) == first)
    ensures StreamCount(lanes, inStream) == if first then TotalVehicles(lanes[..4]) else TotalVehicles(lanes[4..])
  {
    var f := (l: Lane) => if inStream(l.id) then |l.vehicles| else 0;
    var all := (l: Lane) => |l.vehicles|;
    var none := (l: Lane) => 0;
    assert lanes == lanes[..4] + lanes[4..];
    SumNatAppend(lanes[..4], lanes[4..], f);
    if first {
      SumNatCongruence(lanes[..4], f, all);
      SumNatCongruence(lanes[4..], f, none);
      ZeroSum(lanes[4..]);
    } else {
      SumNatCongruence(lanes[..4], f, none);
      SumNatCongruence(lanes[4..], f, all);
      ZeroSum(lanes[..4]);
    }
  }

  lemma {:induction false} ZeroSum(lanes: seq<Lane>)
    ensures SumNat(lanes, (l: Lane) => 0) == 0
  {
    if |lanes| > 0 {
      ZeroSum(lanes[1..]);
    }
  }

  /** The shaping part of the reward: counts from the `_0` lanes only; none when a query fails. */
  function ShapingTerm(c: Corridor, view: View): (r: real)
    ensures r == Bonus || r == 0.0 || r == -Penalty
    ensures LanesOf(view).None? || c.inYellow ==> r == 0.0
    ensures LanesOf(view).Some? ==>
              var lanes := LanesOf(view).value;
              var ns := |lanes[0].vehicles| + |lanes[2].vehicles|;
              var ew := |lanes[4].vehicles| + |lanes[6].vehicles|;
              && (r == Bonus <==> !c.inYellow &&
                                  ((c.currentPhase == 0 && ns > ew + BonusMargin) ||
                                   (c.currentPhase == 1 && ew > ns + BonusMargin)))
              && (r == -Penalty <==> !c.inYellow &&
                                     ((c.currentPhase == 0 && ew > ns + PenaltyMargin) ||
                                      (c.currentPhase == 1 && ns > ew + PenaltyMargin)))
  {
    match LanesOf(view)
    case None => 0.0
    case Some(lanes) =>
      var ns := |lanes[0].vehicles| + |lanes[2].vehicles|;
      var ew := |lanes[4].vehicles| + |lanes[6].vehicles|;
      Shaping(c.currentPhase, c.inYellow, ns, ew)
  }

  /** The shaping counts are the occupants of `north_in_0`, `south_in_0`, `east_in_0` and `west_in_0`. */
  lemma ShapingUsesFirstLanes(c: Corridor, snap: Snapshot)
    requires LanesOf(Some(snap)).Some?
    ensures var occ := snap.occupants;
            && "north_in_0" in occ && "south_in_0" in occ && "east_in_0" in occ && "west_in_0" in occ
            && ShapingTerm(c, Some(snap)) ==
               Shaping(c.currentPhase, c.inYellow, |occ["north_in_0"]| + |occ["south_in_0"]|,
                       |occ["east_in_0"]| + |occ["west_in_0"]|)
  {
    assert AllLanes[0] == "north_in_0" && AllLanes[2] == "south_in_0";
    assert AllLanes[4] == "east_in_0" && AllLanes[6] == "west_in_0";
  }

  /**
   With the waiting total unchanged since the last evaluation, green on
   north-south and its `_0` lanes holding more than five vehicles beyond the
   east-west `_0` lanes, the reward is exactly the bonus.
   */
  lemma BusierGreenStreamEarnsBonus(c: Corridor, snap: Snapshot)
    requires LanesOf(Some(snap)).Some? && !c.inYellow && c.currentPhase == 0
    requires WaitingTotal(LanesOf(Some(snap)).value) == c.prevTotalWaiting
    requires var occ := snap.occupants;
             "north_in_0" in occ && "south_in_0" in occ && "east_in_0" in occ && "west_in_0" in occ &&
             |occ["north_in_0"]| + |occ["south_in_0"]| > |occ["east_in_0"]| + |occ["west_in_0"]| + BonusMargin
    ensures Reward(c, Some(snap)).reward == Bonus
  {
    ShapingUsesFirstLanes(c, snap);
  }

  /**
   The reward: the drop in weighted waiting time over the eight lanes since
   the last evaluation, normalised, plus the shaping term. A successful
   evaluation moves the baseline to the new total as its last act; a failed
   one rewards 0 and keeps it.
   */
  function Reward(c: Corridor, view: View): (e: Evaluation)
    ensures e.env == c.(prevTotalWaiting := e.env.prevTotalWaiting)
    ensures e.reward == ShapingTerm(c, view) + BaseReward(c.prevTotalWaiting, e.env.prevTotalWaiting)
    ensures LanesOf(view).None? ==> e == Evaluation(0.0, c)
    ensures LanesOf(view).Some? ==> e.env.prevTotalWaiting == WaitingTotal(LanesOf(view).value)
  {
    match LanesOf(view)
    case None => Evaluation(0.0, c)
    case Some(lanes) =>
      var total := WaitingTotal(lanes);
      var ns := |lanes[0].vehicles| + |lanes[2].vehicles|;
      var ew := |lanes[4].vehicles| + |lanes[6].vehicles|;
      var reward := BaseReward(c.prevTotalWaiting, total) + Shaping(c.currentPhase, c.inYellow, ns, ew);
      Evaluation(reward, c.(prevTotalWaiting := total))
  }

  /** Back to the start state, with green phase 0 on the light and the new episode's observation. */
  function Reset(c: Corridor, view: View): (r: ResetResult<Corridor>)
    ensures r.env == Start && Valid(r.env)
    ensures r.calls == [SetPhase(LightId, GreenIndex(0))]
    ensures r.observation == Observe(Start, view)
  {
    var cleared := c.(currentPhase := 0, timeSincePhaseStart := 0, stepCount := 0,
                    inYellow := false, yellowCounter := 0, prevTotalWaiting := 0.0);
    ResetResult(cleared, [SetPhase(LightId, 0)], Observe(cleared, view))
  }

  /** The phase indices set on the light by `calls`, ticks left out. */
  function PhaseCommands(calls: seq<SimCall>): seq<int>
  {
    if |calls| == 0 then []
    else (if calls[0].SetPhase? then [calls[0].index] else []) + PhaseCommands(calls[1..])
  }

  /** The number of simulator ticks in `calls`. */
  function Ticks(calls: seq<SimCall>): nat
  {
    if |calls| == 0 then 0 else (if calls[0].SimulationStep? then 1 else 0) + Ticks(calls[1..])
  }

  lemma CallShapes(x: SimCall)
    requires x.SetPhase?
    ensures Ticks([SimulationStep]) == 1 && PhaseCommands([SimulationStep]) == []
    ensures Ticks([SimulationStep, x]) == 1 && PhaseCommands([SimulationStep, x]) == [x.index]
    ensures Ticks([x, SimulationStep]) == 1 && PhaseCommands([x, SimulationStep]) == [x.index]
  {
    assert [SimulationStep, x][1..] == [x];
    assert [x, SimulationStep][1..] == [SimulationStep];
  }

  /** The environment after the first half of a step, and the simulator calls it made. */
  datatype Moved = Moved(env: Corridor, calls: seq<SimCall>)

  /**
   The state-machine half of a step under `action`, with the simulator tick
   it contains. In yellow, the simulator ticks and the yellow counter
   advances, and when it reaches the yellow duration the other green is set
   after the tick. In green, a switch request honoured by the minimum-green
   guard sets yellow before the tick, and the elapsed time advances.
   */
  function Advance(c: Corridor, action: int): (m: Moved)
    ensures m.env.stepCount == c.stepCount + 1 && m.env.prevTotalWaiting == c.prevTotalWaiting
    ensures Valid(c) ==> Valid(m.env)
    ensures Ticks(m.calls) == 1
    ensures |PhaseCommands(m.calls)| <= 1
    ensures c.inYellow ==> m.calls[0] == SimulationStep
    ensures !c.inYellow ==> m.calls[|m.calls| - 1] == SimulationStep
    ensures forall i :: 0 <= i < |m.calls| && m.calls[i].SetPhase? ==> m.calls[i].tlId == LightId
  {
    var counted := c.(stepCount := c.stepCount + 1);
    CallShapes(SetPhase(LightId, YellowIndex));
    CallShapes(SetPhase(LightId, GreenIndex(1 - c.currentPhase)));
    if c.inYellow then
      var counter := c.yellowCounter + 1;
      if counter >= YellowDuration then
        Moved(counted.(currentPhase := 1 - c.currentPhase, inYellow := false, yellowCounter := 0, timeSincePhaseStart := 0),
              [SimulationStep, SetPhase(LightId, GreenIndex(1 - c.currentPhase))])
      else
        Moved(counted.(yellowCounter := counter), [SimulationStep])
    else
      var switching := action == Switch && c.timeSincePhaseStart >= MinGreenTime;
      var entered := if switching then counted.(inYellow := true, yellowCounter := 0) else counted;
      Moved(entered.(timeSincePhaseStart := c.timeSincePhaseStart + 1),
            (if switching then [SetPhase(LightId, YellowIndex)] else []) + [SimulationStep])
  }

  /**
   One step under `action`: the counter advances, the state machine runs
   with its tick, then the environment is observed and its reward evaluated.
   `minExpected` is the simulator's expected-vehicle count after the tick.
   */
  function Step(c: Corridor, action: int, view: View, minExpected: int): (s: Stepped)
    ensures s.env.stepCount == c.stepCount + 1
    ensures Valid(c) ==> Valid(s.env)
    ensures s.result.terminated <==> minExpected <= 0
    ensures s.result.truncated <==> c.stepCount + 1 >= Horizon
    ensures s.calls == Advance(c, action).calls
    ensures SignalOf(s.env) == SignalOf(Advance(c, action).env)
    ensures s.result.observation == Observe(s.env, view)
    ensures s.result.reward == ShapingTerm(s.env, view) + BaseReward(c.prevTotalWaiting, s.env.prevTotalWaiting)
    ensures LanesOf(view).None? ==> s.result.reward == 0.0 && s.env.prevTotalWaiting == c.prevTotalWaiting
    ensures LanesOf(view).Some? ==> s.env.prevTotalWaiting == WaitingTotal(LanesOf(view).value)
  {
    var moved := Advance(c, action);
    var evaluation := Reward(moved.env, view);
    Stepped(evaluation.env, moved.calls,
            StepResult(Observe(moved.env, view), evaluation.reward, minExpected <= 0, c.stepCount + 1 >= Horizon))
  }

  /**
   The inlined state machine is the grid agents' controller: the same next
   controller state and the same phase commands, whatever the state and action.
   */
  lemma SameStateMachine(c: Corridor, action: int)
    ensures var m := Advance(c, action);
            var t := Execute(SignalOf(c), action);
            && SignalOf(m.env) == t.next
            && PhaseCommands(m.calls) == t.commands
  {
    CallShapes(SetPhase(LightId, YellowIndex));
    CallShapes(SetPhase(LightId, GreenIndex(1 - c.currentPhase)));
  }

  /** Resetting forgets the whole prior state, so resetting twice is resetting once. */
  lemma ResetIdempotent(c: Corridor, d: Corridor, view: View)
    ensures Reset(c, view) == Reset(d, view)
    ensures Reset(Reset(c, view).env, view) == Reset(c, view)
  {
  }
}
