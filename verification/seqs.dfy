/** Small facts about sequence concatenation, stated once for every element type. */
module Seqs {
  lemma AppendAssoc<T>(a: seq<T>, b: seq<T>, c: seq<T>)
    ensures a + b + c == a + (b + c)
  {
  }

  lemma AppendEmpty<T>(a: seq<T>)
    ensures a + [] == a && [] + a == a
  {
  }

  /** Dropping the head of a sequence built from a head and a tail gives the tail back. */
  lemma ConsTail<T>(x: T, rest: seq<T>)
    ensures ([x] + rest)[0] == x && ([x] + rest)[1..] == rest
  {
  }

  lemma AppendAfter<T>(a: seq<T>, s: seq<T>, b: seq<T>, c: seq<T>)
    requires a == s + b
    ensures a + c == s + (b + c)
  {
  }

  /** A slice that ends inside the left operand of a concatenation is a slice of that operand. */
  lemma SliceOfLeft<T>(a: seq<T>, b: seq<T>, i: nat, j: nat)
    requires i <= j <= |a|
    ensures (a + b)[i..j] == a[i..j]
  {
  }

  /** The slice of a concatenation that starts where the left operand ends is the right operand. */
  lemma SliceOfRight<T>(a: seq<T>, b: seq<T>, i: nat, j: nat)
    requires i == |a| && j == |a| + |b|
    ensures (a + b)[i..j] == b
  {
  }

  /** `s` finishes with `suffix`. */
  predicate EndsWith<T(==)>(s: seq<T>, suffix: seq<T>)
  {
    |suffix| <= |s| && s[|s| - |suffix|..] == suffix
  }

  /** The elements of `s` in the opposite order. */
  function Reverse<T>(s: seq<T>): (r: seq<T>)
    ensures |r| == |s|
  {
    if s == [] then [] else Reverse(s[1..]) + [s[0]]
  }
}
