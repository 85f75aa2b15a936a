/** Bytes, byte strings and the few sequence facts the other modules share. */
module Bytes {

  type byte = b: int | 0 <= b < 256

  type bytes = seq<byte>

  datatype Option<+T> = None | Some(value: T)

  function Min(a: int, b: int): int {
    if a < b then a else b
  }

  function Max(a: int, b: int): int {
    if a < b then b else a
  }

  // The words of the ADB protocol, in ASCII.
  const OKAY: bytes := [0x4F, 0x4B, 0x41, 0x59]
  const FAIL: bytes := [0x46, 0x41, 0x49, 0x4C]
  const SHELL: bytes := [0x73, 0x68, 0x65, 0x6C, 0x6C]          // "shell"
  const SHELL_V2: bytes := SHELL + [0x2C, 0x76, 0x32]  // "shell,v2"

  /** All of ps, end to end. */
  function Flatten(ps: seq<bytes>): bytes {
    if ps == [] then [] else ps[0] + Flatten(ps[1..])
  }

  lemma {:induction false} FlattenSnoc(ps: seq<bytes>, p: bytes)
    ensures Flatten(ps + [p]) == Flatten(ps) + p
  {
    if ps == [] {
      assert [p][1..] == [];
    } else {
      FlattenSnoc(ps[1..], p);
      assert (ps + [p])[1..] == ps[1..] + [p];
    }
  }
}
