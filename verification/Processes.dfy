/** The names of processes. */
module Processes {
  // The identifiers that `fork` hands to a parent are never negative.
  type Pid = nat
}
