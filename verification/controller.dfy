/**
 The per-intersection signal-phase state machine: two green phases, a yellow
 transition between them, and a minimum-green guard on leaving a green phase.
 Commands are the phase indices sent to the traffic light, in order.
 */
module Controller {

  /** Ticks a yellow transition lasts. */
  const YellowDuration: nat := 3

  /** Ticks a green phase must have run before a switch request is honoured. */
  const MinGreenTime: nat := 10

  /** The action that requests a switch; every other action holds the phase. */
  const Switch: int := 1

  /** Signal-program index sent on entering yellow, whichever phase is left. */
  const YellowIndex: int := 1

  /** Signal-program index of green phase `p`. */
  function GreenIndex(p: int): int
  {
    p * 2
  }

  /**
   Controller state: the green phase (or the phase being left while in
   yellow), ticks since that phase started, and the yellow flag and counter.
   */
  datatype Signal = Signal(phase: int, sincePhaseStart: nat, inYellow: bool, yellowCounter: nat)

  /** The state after some actions and the commands they sent. */
  datatype Transition = Transition(next: Signal, commands: seq<int>)

  /** The state a controller is created and reset in: green phase 0, counters zero. */
  const Initial: Signal := Signal(0, 0, false, 0)

  /** What every reachable state satisfies. */
  predicate Inv(s: Signal)
  {
    && (s.phase == 0 || s.phase == 1)
    && (!s.inYellow ==> s.yellowCounter == 0)
    && (s.inYellow ==> s.yellowCounter < YellowDuration)
  }

  /** One tick of the controller under `action`. */
  function Execute(s: Signal, action: int): (t: Transition)
    ensures Inv(s) ==> Inv(t.next)
    ensures |t.commands| <= 1
    ensures |t.commands| == 1 <==> t.next.inYellow != s.inYellow
    ensures !s.inYellow ==> (t.next.inYellow <==> action == Switch && s.sincePhaseStart >= MinGreenTime)
    ensures !s.inYellow ==> t.next.phase == s.phase && t.next.sincePhaseStart == s.sincePhaseStart + 1
    ensures !s.inYellow && t.next.inYellow ==> t.commands == [YellowIndex] && t.next.yellowCounter == 0
    ensures s.inYellow ==> t.next.sincePhaseStart == 0 || t.next.sincePhaseStart == s.sincePhaseStart
    ensures s.inYellow ==> (t.next.inYellow <==> s.yellowCounter + 1 < YellowDuration)
    ensures s.inYellow && t.next.inYellow ==> t.next == s.(yellowCounter := s.yellowCounter + 1) && t.commands == []
    ensures s.inYellow && !t.next.inYellow ==>
              t.next == Signal(1 - s.phase, 0, false, 0) && t.commands == [GreenIndex(1 - s.phase)]
  {
    if s.inYellow then
      var counter := s.yellowCounter + 1;
      if counter >= YellowDuration then
        Transition(Signal(1 - s.phase, 0, false, 0), [GreenIndex(1 - s.phase)])
      else
        Transition(s.(yellowCounter := counter), [])
    else
      var switching := action == Switch && s.sincePhaseStart >= MinGreenTime;
      var entered := if switching then s.(inYellow := true, yellowCounter := 0) else s;
      Transition(entered.(sincePhaseStart := s.sincePhaseStart + 1), if switching then [YellowIndex] else [])
  }

  /** The controller run over `actions` in order, commands concatenated. */
  function Run(s: Signal, actions: seq<int>): (t: Transition)
    ensures Inv(s) ==> Inv(t.next)
    ensures |t.commands| <= |actions|
    decreases |actions|
  {
    if |actions| == 0 then Transition(s, [])
    else
      var first := Execute(s, actions[0]);
      var rest := Run(first.next, actions[1..]);
      Transition(rest.next, first.commands + rest.commands)
  }

  /** Running `xs` then `ys` is running `xs + ys`. */
  lemma {:induction false} RunAppend(s: Signal, xs: seq<int>, ys: seq<int>)
    ensures Run(s, xs + ys) ==
              Transition(Run(Run(s, xs).next, ys).next, Run(s, xs).commands + Run(Run(s, xs).next, ys).commands)
    decreases |xs|
  {
    if |xs| > 0 {
      assert (xs + ys)[1..] == xs[1..] + ys;
      RunAppend(Execute(s, xs[0]).next, xs[1..], ys);
    } else {
      assert xs + ys == ys;
    }
  }

  /** In yellow the action is ignored. */
  lemma YellowIgnoresAction(s: Signal, a: int, b: int)
    requires s.inYellow
    ensures Execute(s, a) == Execute(s, b)
  {
  }

  /**
   In green, actions that hold, and switch requests made before the minimum
   green time, leave the phase alone and send nothing; only the elapsed time
   advances, by one per tick.
   */
  lemma {:induction false} GreenHolds(s: Signal, actions: seq<int>)
    requires !s.inYellow
    requires forall i :: 0 <= i < |actions| ==> actions[i] != Switch || s.sincePhaseStart + i < MinGreenTime
    ensures Run(s, actions) == Transition(s.(sincePhaseStart := s.sincePhaseStart + |actions|), [])
    decreases |actions|
  {
    if |actions| > 0 {
      var next := Execute(s, actions[0]).next;
      assert next == s.(sincePhaseStart := s.sincePhaseStart + 1);
      forall i | 0 <= i < |actions[1..]|
        ensures actions[1..][i] != Switch || next.sincePhaseStart + i < MinGreenTime
      {
        assert actions[1..][i] == actions[i + 1];
      }
      GreenHolds(next, actions[1..]);
    }
  }

  /**
   A yellow transition with `k` ticks left ends, whatever the actions, after
   exactly `k` ticks: green on the other phase, both counters zero, and the one
   command that sets that green.
   */
  lemma {:induction false} YellowCompletes(s: Signal, actions: seq<int>)
    requires Inv(s) && s.inYellow
    requires |actions| == YellowDuration - s.yellowCounter
    ensures Run(s, actions) == Transition(Signal(1 - s.phase, 0, false, 0), [GreenIndex(1 - s.phase)])
    decreases |actions|
  {
    var first := Execute(s, actions[0]);
    if |actions| == 1 {
      assert Run(first.next, actions[1..]) == Transition(first.next, []);
    } else {
      YellowCompletes(first.next, actions[1..]);
    }
  }

  /**
   A switch honoured at or after the minimum green time leads, after exactly
   `YellowDuration` further ticks, to green on the other phase with fresh
   counters, having sent one yellow command and then one green command.
   */
  lemma SwitchCycle(s: Signal, rest: seq<int>)
    requires Inv(s) && !s.inYellow && s.sincePhaseStart >= MinGreenTime
    requires |rest| == YellowDuration
    ensures Run(s, [Switch] + rest) ==
              Transition(Signal(1 - s.phase, 0, false, 0), [YellowIndex, GreenIndex(1 - s.phase)])
  {
    var first := Execute(s, Switch);
    assert ([Switch] + rest)[1..] == rest;
    YellowCompletes(first.next, rest);
  }

  /** `n` hold actions. */
  function Holds(n: nat): (h: seq<int>)
    ensures |h| == n && forall i :: 0 <= i < n ==> h[i] != Switch
  {
    seq(n, _ => 0)
  }

  /**
   From the initial state the eleventh action is the first switch request
   that is honoured: after ten ticks the elapsed time has just reached the
   minimum green time.
   */
  lemma MinimumGreenBoundary()
    ensures Run(Initial, Holds(9) + [Switch]).next == Signal(0, 10, false, 0)
    ensures Run(Initial, Holds(10) + [Switch]).next == Signal(0, 11, true, 0)
    ensures Run(Initial, Holds(10) + [Switch]).commands == [YellowIndex]
  {
    GreenHolds(Initial, Holds(9) + [Switch]);
    GreenHolds(Initial, Holds(10));
    RunAppend(Initial, Holds(10), [Switch]);
  }
}
