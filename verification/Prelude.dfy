/** Option and Result values, and the few facts about sequences that several modules share. */
module Prelude {
  datatype Option<+T> = None | Some(value: T)

  /** A call that answers or fails. The source's error texts are kept only where something depends on them. */
  datatype Result<+T> = Ok(value: T) | Err(error: string)

  /** Byte strings as the network, the disk and the signer see them. */
  type Bytes = string

  predicate Distinct<T(==)>(xs: seq<T>) { forall i, j :: 0 <= i < j < |xs| ==> xs[i] != xs[j] }
}
