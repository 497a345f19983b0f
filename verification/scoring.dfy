/**
 The pieces of the observation and the reward that both environments share:
 the five-entry observation vector with its clamp, and the shaping term.
 */
module Scoring {

  /** Upper bound of every observation entry; vehicle counts are clamped to it. */
  const MaxCount: nat := 50

  /** Entries in one intersection's observation. */
  const ObsSize: nat := 5

  /** A stream's lead, in vehicles, above which holding its green earns the bonus. */
  const BonusMargin: int := 5

  /** The other stream's lead, in vehicles, above which holding this green is penalised. */
  const PenaltyMargin: int := 10

  const Bonus: real := 1.0
  const Penalty: real := 2.0

  /** Divisor that scales the change in weighted waiting time to a reward. */
  const RewardScale: real := 100.0

  /** `min(n, MaxCount)`. */
  function Clamp(n: nat): (c: nat)
    ensures c <= MaxCount && c <= n
    ensures c == n || c == MaxCount
  {
    if n < MaxCount then n else MaxCount
  }

  function Flag(b: bool): (f: int)
    ensures f == 0 || f == 1
    ensures f == 1 <==> b
  {
    if b then 1 else 0
  }

  /** `[min(ns, 50), min(ew, 50), busNs, busEw, phase]`. */
  function ObsVector(ns: nat, ew: nat, busNs: bool, busEw: bool, phase: int): (o: seq<int>)
    ensures |o| == ObsSize
    ensures phase == 0 || phase == 1 ==> forall i :: 0 <= i < |o| ==> 0 <= o[i] <= MaxCount
    ensures o[0] == Clamp(ns) && o[1] == Clamp(ew)
    ensures (ns <= MaxCount ==> o[0] == ns) && (ns >= MaxCount ==> o[0] == MaxCount)
    ensures (ew <= MaxCount ==> o[1] == ew) && (ew >= MaxCount ==> o[1] == MaxCount)
    ensures (o[2] == 1 <==> busNs) && (o[3] == 1 <==> busEw) && o[4] == phase
    ensures (o[2] == 0 || o[2] == 1) && (o[3] == 0 || o[3] == 1)
  {
    [Clamp(ns), Clamp(ew), Flag(busNs), Flag(busEw), phase]
  }

  /** The observation returned when a simulator query fails. */
  function Zeros(): (o: seq<int>)
    ensures |o| == ObsSize && forall i :: 0 <= i < |o| ==> o[i] == 0
  {
    seq(ObsSize, _ => 0)
  }

  /** The change in weighted waiting time, normalised. */
  function BaseReward(prevTotal: real, total: real): (r: real)
    ensures r == 0.0 <==> prevTotal == total
    ensures r > 0.0 <==> total < prevTotal
  {
    (prevTotal - total) / RewardScale
  }

  /**
   The fixed shaping term: a bonus for holding green on the clearly busier
   stream and a penalty for holding it on the clearly quieter one, both
   suspended during yellow. `ns` and `ew` are the two streams' vehicle counts.
   */
  function Shaping(phase: int, inYellow: bool, ns: int, ew: int): (r: real)
    ensures r == Bonus || r == 0.0 || r == -Penalty
    ensures inYellow ==> r == 0.0
    ensures r == Bonus <==> !inYellow && ((phase == 0 && ns > ew + BonusMargin) || (phase == 1 && ew > ns + BonusMargin))
    ensures r == -Penalty <==>
              !inYellow && ((phase == 0 && ew > ns + PenaltyMargin) || (phase == 1 && ns > ew + PenaltyMargin))
  {
    if inYellow then 0.0
    else
      var bonus :=
        if phase == 0 && ns > ew + BonusMargin then Bonus
        else if phase == 1 && ew > ns + BonusMargin then Bonus
        else 0.0;
      var penalty :=
        if phase == 0 && ew > ns + PenaltyMargin then Penalty
        else if phase == 1 && ns > ew + PenaltyMargin then Penalty
        else 0.0;
      bonus - penalty
  }
}
