/** Optional values, used by most components. */
module Outcomes {
  datatype Option<+T> = None | Some(value: T)
}
