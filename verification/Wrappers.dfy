/** Types that several modules share. */
module Wrappers {

  datatype Option<T> = None | Some(value: T)

  newtype Byte = b: int | 0 <= b < 0x100

  type Bytes = seq<Byte>
}
