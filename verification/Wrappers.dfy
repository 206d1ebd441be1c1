/** Result types and the byte type shared by the other modules. */
module Wrappers {

  /** An octet. Modules that work on single bits use bv8 instead. */
  newtype byte = x: int | 0 <= x < 256

  type bytes = seq<byte>

  datatype Option<+T> = None | Some(value: T)

  /** A value, or the reason the source gives for refusing (an exception or an error return). */
  datatype Result<+T, +E> = Ok(value: T) | Err(error: E)

  /** A user name and a password, as text or as octets. */
  datatype Credentials<T> = Credentials(user: T, password: T)

  // ---------------------------------------------------------------- pieces and numbers

  function Concat<T>(pieces: seq<seq<T>>): seq<T> {
    if pieces == [] then [] else Concat(pieces[..|pieces| - 1]) + pieces[|pieces| - 1]
  }

  lemma {:induction false} ConcatFromFront<T>(pieces: seq<seq<T>>)
    requires pieces != []
    ensures Concat(pieces) == pieces[0] + Concat(pieces[1..])
    decreases |pieces|
  {
    var last := |pieces| - 1;
    if last == 0 {
      assert pieces[..0] == [] && pieces[1..] == [] && [] + pieces[0] == pieces[0] + [];
    } else {
      ConcatFromFront(pieces[..last]);
      assert pieces[..last][1..] == pieces[1..][..last - 1];
      assert pieces[0] + (Concat(pieces[1..][..last - 1]) + pieces[last]) == pieces[0] + Concat(pieces[1..][..last - 1]) + pieces[last];
    }
  }

  /** Octets as a number, the most significant first. */
  function FromBigEndian(s: bytes): nat {
    if s == [] then 0 else FromBigEndian(s[..|s| - 1]) * 256 + s[|s| - 1] as nat
  }

  /** How many numbers n octets can write. */
  function Pow256(n: nat): (p: nat)
    ensures p > 0
  {
    if n == 0 then 1 else 256 * Pow256(n - 1)
  }
}
