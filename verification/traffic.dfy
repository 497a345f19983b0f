/**
 The simulator as the controllers see it after a tick: which lanes feed each
 traffic light, which vehicles stand on each lane, and each vehicle's type and
 accumulated waiting time. Also the commands a controller sends back.
 */
module Traffic {
  import opened Wrappers
  import opened Seqs

  /** A vehicle on a lane: its vehicle-type id and its waiting time in seconds. */
  datatype Vehicle = Vehicle(typeId: string, waiting: real)

  /** A lane id together with the vehicles the simulator reports on it. */
  datatype Lane = Lane(id: string, vehicles: seq<Vehicle>)

  /**
   One simulator state. `incoming` maps a traffic-light id to its
   (deduplicated) controlled lanes; `occupants` maps a lane id to the vehicles
   on it. A lane id absent from `occupants` is a lane whose query raises.
   */
  datatype Snapshot = Snapshot(incoming: map<string, seq<string>>, occupants: map<string, seq<Vehicle>>)

  /** A tick's view of the simulator; `None` when every query raises. */
  type View = Option<Snapshot>

  /** What the controllers do to the simulator, in call order. */
  datatype SimCall = SetPhase(tlId: string, index: int) | SimulationStep

  /** The vehicle type whose waiting time is weighted more heavily. */
  const BusType: string := "bus"

  /** Weight of a bus's waiting time relative to any other vehicle's. */
  const BusWeight: real := 3.0

  /** Substring test, `pat in s` on strings. */
  predicate Contains(s: string, pat: string)
  {
    |pat| <= |s| && (s[..|pat|] == pat || Contains(s[1..], pat))
  }

  /** `pat` occurs in `s` starting at position `i`. */
  predicate OccursAt(s: string, pat: string, i: nat)
  {
    i + |pat| <= |s| && s[i..i + |pat|] == pat
  }

  /** The substring test holds exactly when `pat` occurs at some position of `s`. */
  lemma {:induction false} ContainsIff(s: string, pat: string)
    ensures Contains(s, pat) <==> exists i: nat :: OccursAt(s, pat, i)
    decreases |s|
  {
    if |pat| <= |s| && |s| > 0 {
      ContainsIff(s[1..], pat);
      forall i: nat | OccursAt(s[1..], pat, i)
        ensures OccursAt(s, pat, i + 1)
      {
        assert s[1..][i..i + |pat|] == s[i + 1..i + 1 + |pat|];
      }
      forall i: nat | i > 0 && OccursAt(s, pat, i)
        ensures OccursAt(s[1..], pat, i - 1)
      {
        assert s[1..][i - 1..i - 1 + |pat|] == s[i..i + |pat|];
      }
      if s[..|pat|] == pat {
        assert OccursAt(s, pat, 0);
      }
    } else if |pat| <= |s| {
      assert OccursAt(s, pat, 0);
    }
  }

  /**
   `pat` does not occur in `s` when the second character of `pat` is missing
   from every position of `s` where a window of `pat`'s length would put it.
   */
  lemma {:induction false} NotContains(s: string, pat: string)
    requires |pat| >= 2
    requires forall i :: 1 <= i <= |s| - |pat| + 1 ==> s[i] != pat[1]
    ensures !Contains(s, pat)
  {
    if |pat| <= |s| {
      assert s[..|pat|][1] != pat[1];
      forall i | 1 <= i <= |s[1..]| - |pat| + 1
        ensures s[1..][i] != pat[1]
      {
        assert s[1..][i] == s[i + 1];
      }
      NotContains(s[1..], pat);
    }
  }

  predicate IsBus(v: Vehicle)
  {
    v.typeId == BusType
  }

  /** A vehicle's contribution to the weighted waiting total. */
  function Weighted(v: Vehicle): real
  {
    if IsBus(v) then v.waiting * BusWeight else v.waiting
  }

  /**
   Queries the vehicles of each lane in `ids`, in order. The lookup fails as a
   whole as soon as one lane cannot be queried.
   */
  function Resolve(ids: seq<string>, occupants: map<string, seq<Vehicle>>): (r: Option<seq<Lane>>)
    ensures r.Some? <==> forall i :: 0 <= i < |ids| ==> ids[i] in occupants
    ensures r.Some? ==> |r.value| == |ids|
    ensures r.Some? ==> forall i :: 0 <= i < |ids| ==> r.value[i] == Lane(ids[i], occupants[ids[i]])
  {
    if |ids| == 0 then Some([])
    else if ids[0] !in occupants then None
    else
      match Resolve(ids[1..], occupants)
      case None => None
      case Some(rest) => Some([Lane(ids[0], occupants[ids[0]])] + rest)
  }

  /** Whether some vehicle in `vs` is a bus (the scan stops at the first one). */
  predicate AnyBus(vs: seq<Vehicle>)
  {
    |vs| > 0 && (IsBus(vs[0]) || AnyBus(vs[1..]))
  }

  /** Number of vehicles on the lanes of `lanes` that belong to the stream. */
  function StreamCount(lanes: seq<Lane>, inStream: string -> bool): nat
  {
    SumNat(lanes, (l: Lane) => if inStream(l.id) then |l.vehicles| else 0)
  }

  /** Number of vehicles on all of `lanes`. */
  function TotalVehicles(lanes: seq<Lane>): nat
  {
    SumNat(lanes, (l: Lane) => |l.vehicles|)
  }

  /** Whether a bus stands on some lane of the stream. */
  predicate StreamHasBus(lanes: seq<Lane>, inStream: string -> bool)
  {
    |lanes| > 0 && ((inStream(lanes[0].id) && AnyBus(lanes[0].vehicles)) || StreamHasBus(lanes[1..], inStream))
  }

  /** Waiting time on one lane, buses counted `BusWeight` times. */
  function LaneWaiting(l: Lane): real
  {
    SumReal(l.vehicles, Weighted)
  }

  /**
   Weighted waiting time over all of `lanes`: every vehicle's waiting time
   once, and every bus's `BusWeight - 1` more times.
   */
  function WaitingTotal(lanes: seq<Lane>): (r: real)
    ensures r == PlainWaitingTotal(lanes) + (BusWeight - 1.0) * BusWaitingTotal(lanes)
  {
    WaitingTotalSplit(lanes);
    SumReal(lanes, LaneWaiting)
  }

  // Independent readings of the definitions above.

  function Waiting(v: Vehicle): real
  {
    v.waiting
  }

  function BusWaiting(v: Vehicle): real
  {
    if IsBus(v) then v.waiting else 0.0
  }

  /** Unweighted waiting time on all of `lanes`. */
  function PlainWaitingTotal(lanes: seq<Lane>): real
  {
    SumReal(lanes, (l: Lane) => SumReal(l.vehicles, Waiting))
  }

  /** Waiting time of the buses alone on all of `lanes`. */
  function BusWaitingTotal(lanes: seq<Lane>): real
  {
    SumReal(lanes, (l: Lane) => SumReal(l.vehicles, BusWaiting))
  }

  lemma WaitingTotalSplit(lanes: seq<Lane>)
    ensures SumReal(lanes, LaneWaiting) == PlainWaitingTotal(lanes) + (BusWeight - 1.0) * BusWaitingTotal(lanes)
  {
    forall l: Lane
      ensures LaneWaiting(l) == SumReal(l.vehicles, Waiting) + (BusWeight - 1.0) * SumReal(l.vehicles, BusWaiting)
    {
      SumRealLinear(l.vehicles, Waiting, BusWaiting, BusWeight - 1.0, Weighted);
    }
    SumRealLinear(lanes, (l: Lane) => SumReal(l.vehicles, Waiting), (l: Lane) => SumReal(l.vehicles, BusWaiting),
                  BusWeight - 1.0, LaneWaiting);
  }

  lemma {:induction false} AnyBusIff(vs: seq<Vehicle>)
    ensures AnyBus(vs) <==> exists j :: 0 <= j < |vs| && IsBus(vs[j])
  {
    if |vs| > 0 {
      AnyBusIff(vs[1..]);
      assert forall j :: 1 <= j < |vs| ==> vs[j] == vs[1..][j - 1];
    }
  }

  lemma {:induction false} StreamHasBusLanes(lanes: seq<Lane>, inStream: string -> bool)
    ensures StreamHasBus(lanes, inStream) <==>
              exists i :: 0 <= i < |lanes| && inStream(lanes[i].id) && AnyBus(lanes[i].vehicles)
  {
    if |lanes| > 0 {
      StreamHasBusLanes(lanes[1..], inStream);
      assert forall i :: 1 <= i < |lanes| ==> lanes[i] == lanes[1..][i - 1];
    }
  }

  /** A stream's bus flag holds iff some vehicle of type bus stands on one of its lanes. */
  lemma StreamHasBusIff(lanes: seq<Lane>, inStream: string -> bool)
    ensures StreamHasBus(lanes, inStream) <==>
              exists i, j :: 0 <= i < |lanes| && 0 <= j < |lanes[i].vehicles| &&
                             inStream(lanes[i].id) && IsBus(lanes[i].vehicles[j])
  {
    StreamHasBusLanes(lanes, inStream);
    forall i | 0 <= i < |lanes| {
      AnyBusIff(lanes[i].vehicles);
    }
  }

  /** Each lane of `lanes` is counted in exactly one of a stream and its complement. */
  lemma StreamsPartition(lanes: seq<Lane>, inStream: string -> bool, inOther: string -> bool)
    requires forall id :: inOther(id) <==> !inStream(id)
    ensures StreamCount(lanes, inStream) + StreamCount(lanes, inOther) == TotalVehicles(lanes)
  {
    SumNatAdd(lanes, (l: Lane) => if inStream(l.id) then |l.vehicles| else 0,
              (l: Lane) => if inOther(l.id) then |l.vehicles| else 0, (l: Lane) => |l.vehicles|);
  }

  /** Stream counts, bus flags and waiting totals ignore the order of the lanes. */
  lemma LaneOrderIrrelevant(lanes: seq<Lane>, other: seq<Lane>, inStream: string -> bool)
    requires multiset(lanes) == multiset(other)
    ensures StreamCount(lanes, inStream) == StreamCount(other, inStream)
    ensures StreamHasBus(lanes, inStream) <==> StreamHasBus(other, inStream)
    ensures WaitingTotal(lanes) == WaitingTotal(other)
  {
    SumNatPermutation(lanes, other, (l: Lane) => if inStream(l.id) then |l.vehicles| else 0);
    SumRealPermutation(lanes, other, LaneWaiting);
    StreamHasBusLanes(lanes, inStream);
    StreamHasBusLanes(other, inStream);
    if StreamHasBus(lanes, inStream) {
      var i :| 0 <= i < |lanes| && inStream(lanes[i].id) && AnyBus(lanes[i].vehicles);
      assert lanes[i] in multiset(other);
      var k :| 0 <= k < |other| && other[k] == lanes[i];
    }
    if StreamHasBus(other, inStream) {
      var k :| 0 <= k < |other| && inStream(other[k].id) && AnyBus(other[k].vehicles);
      assert other[k] in multiset(lanes);
      var i :| 0 <= i < |lanes| && lanes[i] == other[k];
    }
  }

  /** A lane id with its occupants; a lane the simulator does not know has none. */
  function LaneOf(occupants: map<string, seq<Vehicle>>): string -> Lane
  {
    id => Lane(id, if id in occupants then occupants[id] else [])
  }

  /**
   Querying the same lanes in another order fails in the same cases and,
   when it succeeds, yields the same lanes in another order.
   */
  lemma ResolvePermutation(ids: seq<string>, other: seq<string>, occupants: map<string, seq<Vehicle>>)
    requires multiset(ids) == multiset(other)
    ensures Resolve(ids, occupants).Some? <==> Resolve(other, occupants).Some?
    ensures Resolve(ids, occupants).Some? ==>
              multiset(Resolve(ids, occupants).value) == multiset(Resolve(other, occupants).value)
  {
    if Resolve(ids, occupants).Some? {
      forall i | 0 <= i < |other|
        ensures other[i] in occupants
      {
        assert other[i] in multiset(ids);
        var k :| 0 <= k < |ids| && ids[k] == other[i];
      }
      assert Resolve(ids, occupants).value == MapSeq(ids, LaneOf(occupants));
      assert Resolve(other, occupants).value == MapSeq(other, LaneOf(occupants));
      MapSeqPermutation(ids, other, LaneOf(occupants));
    }
    if Resolve(other, occupants).Some? {
      forall i | 0 <= i < |ids|
        ensures ids[i] in occupants
      {
        assert ids[i] in multiset(other);
        var k :| 0 <= k < |other| && other[k] == ids[i];
      }
    }
  }
}
