/** The optional values the route handlers return when a step may be absent or fail. */
module Wrappers {

  datatype Option<+T> = None | Some(value: T)
}

/** Opaque binary payloads returned by the image provider. */
module Binary {
  type Byte = b: int | 0 <= b < 256
  type Bytes = seq<Byte>
}
