/** Machine integer widths and the failure-carrying wrappers shared by the model. */
module Types {

  /** The C `unsigned int` of the driver: versions, times, ranks and offsets. */
  type uint32 = x: int | 0 <= x < 0x1_0000_0000

  /** The C `int` used for parameter and value type tags. */
  type int32 = x: int | -0x8000_0000 <= x < 0x8000_0000

  /** A possibly absent value; `None` stands for a NULL pointer returned by a backend. */
  datatype Option<+T> = None | Some(value: T)

  /** Either a value or the reason the computation stopped. */
  datatype Result<+T, +E> = Success(value: T) | Failure(error: E)
}
