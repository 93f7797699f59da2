/** Bytes of files and of user programs. */
module Bytes {
  type byte = x: int | 0 <= x < 256

  const NUL: byte := 0
  const NEWLINE: byte := 10
  const COLON: byte := 58

  /** "file read failed" and a newline. */
  const READ_FAILED: seq<byte> := [102, 105, 108, 101, 32, 114, 101, 97, 100, 32, 102, 97, 105, 108, 101, 100, 10]

  /** The first position of a newline from `from` on, or the end. */
  function NewlineFrom(text: seq<byte>, from: nat): (k: nat)
    requires from <= |text|
    ensures from <= k <= |text| && (k < |text| ==> text[k] == NEWLINE)
    ensures forall i :: from <= i < k ==> text[i] != NEWLINE
    decreases |text| - from
  {
    if from == |text| || text[from] == NEWLINE then from else NewlineFrom(text, from + 1)
  }

  lemma {:induction false} NewlineUnique(text: seq<byte>, k: nat)
    requires k <= |text| && (forall i :: 0 <= i < k ==> text[i] != NEWLINE) && (k < |text| ==> text[k] == NEWLINE)
    ensures NewlineFrom(text, 0) == k
  {
  }
}
