/**
 What the two environments hand back to the learner: the result of a step,
 and the result of a reset together with the simulator calls it made.
 */
module Results {
  import opened Traffic

  /** The joint observation, the reward and the two episode-end flags of a step. */
  datatype StepResult = StepResult(observation: seq<int>, reward: real, terminated: bool, truncated: bool)

  /** The environment `E` after a reset, the simulator calls it made, and its first observation. */
  datatype ResetResult<E> = ResetResult(env: E, calls: seq<SimCall>, observation: seq<int>)
}
