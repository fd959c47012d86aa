/** What the modules about pages share: their numbers, and the busy lock as its holders see it. */
module PageTypes {

  type Pid = nat

  /** The busy lock of a page (see BusyLock for its word): free, shared by n holders, or held by one alone. */
  datatype Busy = Unbusied | Shared(n: nat) | Exclusive
}
