/** Small types shared by the modules of the project. */
module Basics {

  datatype Option<+T> = None | Some(value: T)

  /** An octet, kept as a character so that tokens can be written as string literals. */
  type byte = c: char | c < 256 as char

  type bytes = seq<byte>

  const UINT32: int := 0x1_0000_0000

  predicate NoRepeats(s: seq<nat>) {
    forall i, j | 0 <= i < j < |s| :: s[i] != s[j]
  }
}
