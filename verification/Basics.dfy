/** What several modules share: an optional value, bytes, and two facts about sequences.

    The solver does not rearrange concatenations by itself. Associates and Uncons do it by name, so that the proofs
    that need it say so, and the others are not slowed by it.

    A byte is a number below 256 here; Sha256 has bit-vector bytes of its own.
    */
module Basics {
  datatype Option<T> = None | Some(value: T)

  type Byte = b: nat | b < 256
  type Bytes = seq<Byte>

  function Min(a: nat, b: nat): nat { if a < b then a else b }

  lemma Associates<T>(a: seq<T>, b: seq<T>, c: seq<T>)
    ensures (a + b) + c == a + (b + c)
  {}

  lemma Uncons<T>(s: seq<T>)
    requires s != []
    ensures s == [s[0]] + s[1..]
  {}
}
