/** What several modules share. */
module Basics {

  datatype Option<T> = None | Some(value: T)

  /** Unsigned 32-bit words, addresses and code alike. */
  type Word = x: int | 0 <= x < 0x1_0000_0000
}
