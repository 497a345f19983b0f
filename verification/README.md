# Traffic-signal controller model

A Dafny model of the decision logic of a reinforcement-learning traffic-signal
controller for the SUMO microscopic traffic simulator. The model covers two
forms of the controller:

- **The grid network.** Nine traffic lights, each run by its own agent. One agent is a phase
  state machine (two green phases, a yellow transition, a minimum-green
  guard), an observation encoder (clamped vehicle counts of the north-south
  and east-west streams, bus-presence flags, the phase) and a delta reward
  (the drop in bus-weighted waiting time, plus fixed shaping terms). The
  environment sends each agent its action, ticks the simulator once, and
  returns the observations concatenated in roster order and the rewards
  summed.
- **The single-intersection environment.** It has one light, `center`, with eight fixed
  incoming lanes. The same state machine, observation and reward are inlined
  into its step.

The simulator appears only as data. A `Snapshot` records:

- each light's controlled lanes;
- each lane's vehicles, each with a type id and a waiting time.

A tick's `View` is `Option<Snapshot>`. `None` means every query raises, and
a lane missing from the snapshot means that lane's query raises. A grid
agent's lane listing swallows its own failure, so under `None` the agent
sees a light with no lanes. The single-intersection environment has fixed
lane names, so under `None` its observation and reward fail outright.
Commands to the simulator are returned as a log of `SimCall`s:
`SetPhase(light, index)` and `SimulationStep`. Waiting times and rewards are
exact `real`s.

Modules, one per component:

- `Wrappers`: `Option`.
- `Seqs`: sums, maps and flattening over sequences, with order-independence lemmas.
- `Traffic`: vehicles, lanes, snapshots, stream counts and bus flags, the weighted waiting total.
- `Controller`: the phase state machine.
- `Scoring`: the observation vector and the shaping term.
- `Results`: what a step and a reset return, shared by both environments.
- `IntersectionAgent`: one agent of the grid network.
- `MultiAgentEnv`: the grid environment.
- `GreenCorridor`: the single-intersection environment.

Two behaviours of the code at its edges:

- **Action arrays that are too short or too long.**
  - A shorter array raises an index error only after the step counter has
    advanced and the lights before the missing entry have executed their actions.
    `MultiAgentEnv.Step` models exactly that partial state.
  - A longer array is accepted, and its extra entries are ignored.
- **The minimum-green boundary.** Elapsed green time starts at 0 and the
  guard is `>=`, so after nine holds a switch request sees elapsed time 9
  and is ignored. From the initial state, the eleventh action is the first
  switch that is honoured (`Controller.MinimumGreenBoundary`).

## Model

| member | source | states |
|---|---|---|
| Controller.Execute | models/advanced/scripts/multi_agent_env.py:145-161 | Outside yellow, a tick enters yellow iff the action is 1 and the elapsed green time is at least 10. Entering yellow sends exactly set-phase(1), zeroes the yellow counter and keeps the phase. The elapsed time rises by 1 in green whether or not it switches. In yellow, a tick ends the transition iff the raised yellow counter reaches 3. A yellow tick that does not end it raises the counter by 1, keeps the phase and every other field, and sends nothing. A yellow tick that ends the transition gives green `1-p` with both counters 0 and sends set-phase(`(1-p)*2`). At most one command is sent per tick, and exactly one iff the yellow flag changes. The invariant (phase in {0,1}; not yellow implies counter 0; yellow implies counter < 3) is kept |
| Controller.Run | models/advanced/scripts/multi_agent_env.py:145-161 | Any sequence of actions keeps the controller invariant and sends at most one command per action |
| Controller.RunAppend | models/advanced/scripts/multi_agent_env.py:145-161 | Running two action sequences one after the other is running their concatenation, with the commands concatenated |
| Controller.GreenHolds | models/advanced/scripts/multi_agent_env.py:155-161 | In green, hold actions and switch requests made before the minimum green time leave the phase and the yellow state unchanged and send nothing. The elapsed time rises by exactly one per tick |
| Controller.YellowIgnoresAction | models/advanced/scripts/multi_agent_env.py:147-154 | In yellow the supplied action is ignored: actions 0 and 1 give identical results |
| Controller.YellowCompletes | models/advanced/scripts/multi_agent_env.py:147-154 | A yellow transition with k ticks left ends after exactly k ticks, whatever the actions. It ends in green on the other phase with both counters 0, having sent only set-phase(`(1-p)*2`) |
| Controller.SwitchCycle | models/advanced/scripts/multi_agent_env.py:145-161 | A switch honoured at 10 or more elapsed ticks, followed by any three actions, ends in green `1-p` with fresh counters. Exactly two commands are sent: yellow (1), then green `(1-p)*2` |
| Controller.MinimumGreenBoundary | models/advanced/scripts/multi_agent_env.py:33-39 | From the initial state, a switch after nine holds is ignored and leaves elapsed time 10. A switch after ten holds enters yellow with elapsed time 11 and sends set-phase(1) |
| Scoring.ObsVector | models/advanced/scripts/multi_agent_env.py:89-95 | The observation has 5 entries, each within [0, 50] when the phase is 0 or 1. Entry 0 is the NS count clamped to 50 and entry 1 the EW count clamped to 50: each equals its count when that count is at most 50 and is 50 otherwise. Each flag entry is 0 or 1, and is 1 iff its flag is set. The last entry is the phase |
| Scoring.Zeros | models/advanced/scripts/multi_agent_env.py:98-99 | The fail-soft observation is five zeros |
| Scoring.Clamp | models/advanced/scripts/multi_agent_env.py:90-91 | `min(n, 50)`: never above 50 or n, and equal to one of them |
| Scoring.BaseReward | models/advanced/scripts/multi_agent_env.py:118-120 | The delta reward is 0 iff the weighted total is unchanged. It is positive iff the total dropped |
| Scoring.Shaping | models/advanced/scripts/multi_agent_env.py:122-137 | The shaping term is +1, 0 or -2 (the +1 and -2 conditions exclude each other) and 0 during yellow. It is +1 iff the green stream leads by more than 5. It is -2 iff the other stream leads by more than 10 |
| Traffic.Resolve | models/advanced/scripts/multi_agent_env.py:72-73 | Querying a list of lanes succeeds iff every lane can be queried. It then yields each lane with its vehicles, in order |
| Traffic.StreamHasBusIff | models/advanced/scripts/multi_agent_env.py:76-87 | A stream's bus flag holds iff some vehicle of type `bus` stands on one of its lanes |
| Traffic.StreamsPartition | models/advanced/scripts/multi_agent_env.py:76-83 | A stream and its complement count every vehicle exactly once |
| Traffic.WaitingTotal | models/advanced/scripts/multi_agent_env.py:106-116 | The weighted total is the plain waiting time of all vehicles plus twice the buses' waiting time (buses count three times) |
| Traffic.ContainsIff | models/advanced/scripts/multi_agent_env.py:76 | The substring test used to classify lanes holds exactly when the pattern occurs at some position of the lane id |
| Traffic.NotContains | models/simple/scripts/green_corridor.py:107 | A substring test fails when the pattern's second character is absent from every position a window would put it |
| Traffic.LaneOrderIrrelevant | models/advanced/scripts/multi_agent_env.py:56-58 | Stream counts, bus flags and waiting totals depend only on the multiset of lanes |
| Traffic.ResolvePermutation | models/advanced/scripts/multi_agent_env.py:56-58 | Querying the same lanes in another order fails in the same cases. When it succeeds, it yields the same lanes in another order |
| IntersectionAgent.New | models/advanced/scripts/multi_agent_env.py:33-50 | A new agent satisfies the controller invariant and starts in green phase 0 outside yellow |
| IntersectionAgent.Commands | models/advanced/scripts/multi_agent_env.py:151-157 | Each command index becomes one set-phase call on the agent's own light, in order |
| IntersectionAgent.Reset | models/advanced/scripts/multi_agent_env.py:163-173 | Reset gives exactly a fresh agent (phase 0, counters 0, not yellow, baseline 0), keeps the light id and sends set-phase(0) |
| IntersectionAgent.ResetForgetsHistory | models/advanced/scripts/multi_agent_env.py:163-173 | Reset gives the same result from any prior state of the same light, so it is idempotent |
| IntersectionAgent.ExecuteAction | models/advanced/scripts/multi_agent_env.py:145-161 | The agent's controller takes the controller step. Its commands go to its own light, at most one per tick. Its baseline and id are untouched and its invariant is kept |
| IntersectionAgent.LanesOf | models/advanced/scripts/multi_agent_env.py:52-73 | When the simulator does not answer, the light has no lanes. Otherwise the lookup succeeds iff every listed lane is known, and then yields each listed lane with its vehicles, in order |
| IntersectionAgent.Observe | models/advanced/scripts/multi_agent_env.py:62-99 | The observation has 5 entries within [0, 50] and is all zeros when a lane lookup fails. Otherwise: entry 0 is the vehicle count of the `v_` lanes clamped to 50, and entry 1 that of all other lanes clamped to 50; the NS flag is 1 iff a bus stands on a `v_` lane, and the EW flag is 1 iff a bus stands on any other lane. Each flag entry is 0 or 1. Below the clamp, the two counts add up to all vehicles on the agent's lanes, since every non-`v_` lane counts as EW. The last entry is the phase |
| IntersectionAgent.ShapingTerm | models/advanced/scripts/multi_agent_env.py:122-137 | The shaping term is +1, 0 or -2, and 0 in yellow or when a lane lookup fails. It compares the `v_` lanes against the `h_` lanes: +1 iff the green stream leads by more than 5, -2 iff the other stream leads by more than 10 |
| IntersectionAgent.Reward | models/advanced/scripts/multi_agent_env.py:101-143 | Reward = shaping + (old baseline - new baseline)/100 on every view. After success the baseline is the new weighted total. When a lane lookup fails the reward is 0 and the agent is unchanged. The phase state is never touched |
| IntersectionAgent.SteadyTrafficReward | models/advanced/scripts/multi_agent_env.py:118-137 | With the weighted total unchanged, the reward is +1, 0 or -2. It is exactly 0 during yellow, and also whenever neither the bonus nor the penalty condition holds for the current phase |
| IntersectionAgent.RewardSeries | models/advanced/scripts/multi_agent_env.py:139 | A run of evaluations keeps the agent's id and phase state |
| IntersectionAgent.ShapingSeriesIgnoresBaseline | models/advanced/scripts/multi_agent_env.py:122-137 | The shaping terms depend on the light and the phase state only, not on the baseline |
| IntersectionAgent.RewardTelescopes | models/advanced/scripts/multi_agent_env.py:118-141 | Over any run of evaluations, failed ones included, the rewards sum to the shaping terms plus (first baseline - last baseline)/100 |
| IntersectionAgent.LaneOrderDoesNotMatter | models/advanced/scripts/multi_agent_env.py:56-58 | Reordering a light's controlled lanes changes neither its observation nor its reward |
| IntersectionAgent.ObserveReadsLaneMultiset | models/advanced/scripts/multi_agent_env.py:62-99 | Two views whose lane lookups succeed or fail together, and yield the same lanes up to order, give the same observation |
| IntersectionAgent.RewardReadsLaneMultiset | models/advanced/scripts/multi_agent_env.py:101-143 | Two views whose lane lookups succeed or fail together, and yield the same lanes up to order, give the same reward and the same new baseline |
| IntersectionAgent.UnknownLightHasNoLanes | models/advanced/scripts/multi_agent_env.py:52-60 | When a light's lanes cannot be listed (no simulator answer, or an unknown light), it is observed with no lanes. The observation is `[0,0,0,0,phase]`, not the all-zero vector; the reward is the old baseline divided by 100 and the baseline becomes 0 |
| MultiAgentEnv.Create | models/advanced/scripts/multi_agent_env.py:188-214 | The environment starts with one fresh, valid agent per roster light, in roster order, and step count 0 |
| MultiAgentEnv.Executed | models/advanced/scripts/multi_agent_env.py:280-286 | The action loop leaves one agent per roster position |
| MultiAgentEnv.ApplyFrom | models/advanced/scripts/multi_agent_env.py:280-286 | The action loop raises iff an action array is shorter than the roster. Each light before the missing entry runs its own entry (or the broadcast action), and later lights are untouched. Every call is a set-phase on a roster light |
| MultiAgentEnv.ApplyFromCalls | models/advanced/scripts/multi_agent_env.py:280-286 | The loop's calls are each light's own set-phase calls for its action, concatenated in roster order, up to the first missing action |
| MultiAgentEnv.Observations | models/advanced/scripts/multi_agent_env.py:258-264 | The joint observation has 5 entries per light, with light i's own observation at [5i, 5i+5) |
| MultiAgentEnv.Reset | models/advanced/scripts/multi_agent_env.py:250-256 | Reset replaces every agent by a fresh one with the same light, in roster order. It sends set-phase(0) to each light in roster order and zeroes the step count. It returns the fresh agents' joint observation: block i is a fresh agent's observation of light i |
| MultiAgentEnv.ResetIdempotent | models/advanced/scripts/multi_agent_env.py:250-254 | Resetting twice is resetting once, and resetting a new environment leaves it as constructed |
| MultiAgentEnv.Step | models/advanced/scripts/multi_agent_env.py:273-298 | The step count rises by exactly 1. The step fails iff the action array is too short, and then keeps the partial updates. On success: all set-phase calls precede exactly one tick; agent i ends as the executed agent with its baseline advanced; the observation is the executed agents' observations in roster order; the reward is the sum of their rewards; terminated iff no vehicles are expected; truncated iff the count reaches 1500 |
| MultiAgentEnv.StepCalls | models/advanced/scripts/multi_agent_env.py:280-288 | A step's calls are each light's own set-phase calls in roster order followed by one tick; a step that raises makes the calls of the lights before the missing action and no tick |
| MultiAgentEnv.StepKeepsAgents | models/advanced/scripts/multi_agent_env.py:273-298 | Whether or not the step raises, every agent keeps its light, and a valid agent stays valid |
| MultiAgentEnv.StepKeepsValid | models/advanced/scripts/multi_agent_env.py:273-298 | A step keeps one valid agent per roster light, in roster order |
| MultiAgentEnv.StepRoutesActions | models/advanced/scripts/multi_agent_env.py:281-286 | For any agents and an action array at least as long as the roster (or a scalar), the step succeeds. Light i keeps its id and runs its controller on `actions[i]`, or on the broadcast scalar. Block i of the joint observation is its own observation after the step |
| MultiAgentEnv.ObservationsBounded | models/advanced/scripts/multi_agent_env.py:258-264 | Concatenating the observations of valid agents keeps every entry within [0, 50] |
| MultiAgentEnv.JointObservationShape | models/advanced/scripts/multi_agent_env.py:216-222 | A step from a valid environment with a full-length action array (or a scalar) succeeds. Its joint observation has 45 entries, all within [0, 50] |
| GreenCorridor.LanesOf | models/simple/scripts/green_corridor.py:100-104 | The lookup fails when the simulator does not answer. Otherwise it succeeds iff all eight fixed lanes are known, and then yields lane i as the i-th fixed lane name with its vehicles |
| GreenCorridor.Observe | models/simple/scripts/green_corridor.py:84-123 | The observation has 5 entries within [0, 50] and is all zeros when a query fails. Otherwise entry 0 is the vehicle count of the four north/south lanes clamped to 50 and entry 1 that of the four east/west lanes clamped to 50, which are also the counts of the lanes the bus flags classify each way. The NS flag is 1 iff a bus is on a lane whose name contains north or south, and the EW flag iff a bus is on any other lane. Each flag entry is 0 or 1. The last entry is the phase |
| GreenCorridor.NamesClassified | models/simple/scripts/green_corridor.py:100-110 | Of the eight lane names, exactly the four north/south ones satisfy the bus-flag name test |
| GreenCorridor.ClassifyLane | models/simple/scripts/green_corridor.py:107 | Lane i's name contains north or south iff i < 4 |
| GreenCorridor.NeitherNorthNorSouth | models/simple/scripts/green_corridor.py:107 | An east/west lane name contains neither north nor south |
| GreenCorridor.StreamsAgree | models/simple/scripts/green_corridor.py:87-110 | The NS count (four named lanes) equals the count of lanes whose name the bus flags treat as NS, and likewise for EW. Together the two counts cover every vehicle once |
| GreenCorridor.SplitCount | models/simple/scripts/green_corridor.py:87-95 | A stream that holds exactly the first four lanes (or the last four) counts exactly their vehicles |
| GreenCorridor.ShapingTerm | models/simple/scripts/green_corridor.py:155-171 | The shaping term is +1, 0 or -2, and 0 in yellow or when a query fails. Otherwise it is +1 iff the green stream's `_0` lanes lead the other stream's by more than 5, and -2 iff the other stream's `_0` lanes lead the green stream's by more than 10 |
| GreenCorridor.ShapingUsesFirstLanes | models/simple/scripts/green_corridor.py:156-160 | The shaping counts are the occupants of north_in_0 + south_in_0 against east_in_0 + west_in_0 |
| GreenCorridor.BusierGreenStreamEarnsBonus | models/simple/scripts/green_corridor.py:150-166 | With the waiting total unchanged, green on NS, and the NS `_0` lanes leading by more than 5, the reward is exactly 1.0 |
| GreenCorridor.Reward | models/simple/scripts/green_corridor.py:125-180 | Reward = shaping + (old baseline - new baseline)/100. After success the baseline is the new weighted total over the eight lanes. On failure the reward is 0.0 and the state is unchanged. Nothing but the baseline changes |
| GreenCorridor.Reset | models/simple/scripts/green_corridor.py:73-82 | Reset zeroes the phase, both counters, the step count and the baseline, and clears yellow, from any state. It sends set-phase(0) and returns the fresh state's observation |
| GreenCorridor.CallShapes | models/simple/scripts/green_corridor.py:186-204 | A worked example for the three call logs a step can produce (tick alone, tick then set-phase, set-phase then tick): each holds exactly one tick, and its phase commands are exactly its set-phase index. It is the helper through which `Advance` and `SameStateMachine` are proved |
| GreenCorridor.Advance | models/simple/scripts/green_corridor.py:184-204 | The state-machine half of a step advances the step count by 1 and keeps the invariant. It makes exactly one tick and at most one phase command. In yellow the tick comes first, so the green command follows it; in green the tick comes last, so the yellow command precedes it. Every set-phase call goes to the light `center` |
| GreenCorridor.SameStateMachine | models/simple/scripts/green_corridor.py:186-204 | The inlined state machine agrees with the grid agent's controller in next state and phase commands, for every state and action |
| GreenCorridor.Step | models/simple/scripts/green_corridor.py:182-212 | The step count rises by exactly 1. Terminated iff no vehicles are expected; truncated iff the count reaches 1000. The invariant is kept. The observation and reward are taken from the post-tick state. The baseline moves to the new total on success and stays put on failure (reward 0) |
| GreenCorridor.ResetIdempotent | models/simple/scripts/green_corridor.py:73-80 | Reset gives the same result from any state, so resetting twice is resetting once |

## Left out

- Simulator session lifecycle. Starting and closing the simulator, building its command line, and swallowing errors on close are external process I/O. Reset is modelled only as the fresh state it produces and the set-phase commands it sends.
- Reset's phase command errors. In the grid agent, reset swallows an error from its set-phase command. The model always issues the command.
- The learner. Building the DQN, training and prediction, callbacks, and saving and loading models (including the silent fallback to another model) belong to an opaque third-party learner. The agent's optional policy reference is not modelled.
- Listing a light's lanes. The call that lists a light's controlled lanes is a simulator query. The snapshot carries each light's deduplicated lane list instead. Its order is arbitrary in the code, and `IntersectionAgent.LaneOrderDoesNotMatter` shows that the order is irrelevant.
- One view per tick. A query that fails while observing but succeeds while rewarding in the same tick, or the reverse, is not modelled: each tick has one view shared by observation and reward. A failure anywhere in one agent's queries is atomic in the code too, since the baseline is written last.
- Command and tick failures. The set-phase commands of a step and the simulator tick are not guarded in the code (multi_agent_env.py:151, 157 and 289; green_corridor.py:187, 192, 199 and 203), nor is the corridor reset's set-phase (green_corridor.py:80), so a failure there raises out of the step or reset. The model treats commands and ticks as always succeeding; a `None` view models a failure of the queries after the tick only.
- The expected-vehicle query. Its count is a parameter. The case where this query raises is not modelled, because the code lets that exception escape.
- Number types. Floating point and float32 observations are not modelled. Waiting times and rewards are exact reals, and observation entries are integers.
- Actions passed as a plain Python list. A list that is not a numpy array would be broadcast whole and compared unequal to 1 on every light. Every caller wraps actions in a numpy array, so only arrays and scalar actions are modelled.
- Gym space objects. The observation and action space objects are not modelled. Their bounds appear as the [0, 50] range proved of every observation.
- Other scripts. The analysis, comparison, demo, evaluation, traffic-generation and installation-check scripts are post-hoc analytics, plotting, random route generation and file I/O.
