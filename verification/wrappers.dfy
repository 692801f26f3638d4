/** The "no value" result the simulators use: a stop month that was never
    reached, or a buy scenario that could not start. */
module Wrappers {

  datatype Option<+T> = None | Some(value: T)

}
