/** What several modules share. */
module Basics {

  datatype Option<+T> = None | Some(value: T)

  type byte = x: int | 0 <= x < 256
  type Bytes = seq<byte>

  /** The trigger that opens a sealed fact: a fact stated under `Unseal(u)` for all `u` is used only
      where a proof says `assert Unseal(0)`. Modules that seal several facts have a trigger for each. */
  predicate Unseal(u: int) { true }
}
