/** The optional-value datatype used for simulator queries that may fail. */
module Wrappers {

  /** `None` stands for a query that raised; `Some(v)` carries its answer. */
  datatype Option<+T> = None | Some(value: T)
}
