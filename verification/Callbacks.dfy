/** The closures the lifecycle advancer hands to the clock, as data. */
module Callbacks {
  /** A machine is addressed by its app and its id. */
  datatype Key = Key(app: string, id: string)

  datatype Delays = Delays(create: int, start: int, stop: int, restart: int, destroy: int, update: int, suspend: int) {
    predicate NonNegative() {
      0 <= create && 0 <= start && 0 <= stop && 0 <= restart && 0 <= destroy && 0 <= update && 0 <= suspend
    }
  }

  datatype Callback =
    | BootFirst(key: Key)   // creating -> starting, then schedules BootSettle
    | BootSettle(key: Key)  // -> started or failed, read from the configuration
    | StopEnd(key: Key)     // -> stopped
    | SuspendEnd(key: Key)  // -> suspended
    | Reap(key: Key)        // removes the machine

  datatype Registration = Registration(delay: int, fn: Callback)

  /** What running a callback registers on the clock in turn. */
  function Follow(fn: Callback, d: Delays): seq<Registration> {
    if fn.BootFirst? then [Registration(d.start, BootSettle(fn.key))] else []
  }

  /** The number of callbacks a callback still accounts for, itself included. */
  function Depth(fn: Callback): nat {
    if fn.BootFirst? then 2 else 1
  }
}
