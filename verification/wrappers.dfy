/** Small result types shared by the firmware model. */
module Wrappers {

  /** A value that may be absent, such as a transmission a step did not make. */
  datatype Option<+T> = None | Some(value: T)

  /** The result of a step that can abort: `Panic` is a Rust panic, `Ok` carries the result. */
  datatype Step<+T> = Panic | Ok(value: T)
}
