/** Bytes as the programs see them, and the two bytes that shape a log file. */
module Bytes {
  newtype byte = x: int | 0 <= x < 256

  type Bytes = seq<byte>

  const LF: byte := 10
  const CR: byte := 13

  predicate NoLf(b: Bytes) {
    LF !in b
  }

  predicate NoCr(b: Bytes) {
    CR !in b
  }

  lemma {:induction false} Assoc<T>(a: seq<T>, b: seq<T>, c: seq<T>)
    ensures (a + b) + c == a + (b + c)
  {}

  lemma {:induction false} InConcat<T>(a: seq<T>, b: seq<T>)
    ensures forall x <- a + b :: x in a || x in b
  {}

  lemma {:induction false} TakeConcat<T>(a: seq<T>, b: seq<T>, i: nat)
    requires i < |a + b|
    ensures if i < |a| then (a + b)[..i] == a[..i] && (a + b)[i] == a[i]
            else (a + b)[..i] == a + b[..i - |a|] && (a + b)[i] == b[i - |a|]
  {}

  lemma {:induction false} DropConcat<T>(a: seq<T>, b: seq<T>, i: nat)
    requires i <= |a + b|
    ensures (a + b)[i..] == if i <= |a| then a[i..] + b else b[i - |a|..]
  {}
}
