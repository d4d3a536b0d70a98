/**
 Slices and sums of sequences, as loops over a sequence meet them.
 */
module Sequences {
  lemma LongerPrefix<T>(s: seq<T>, i: nat)
    requires i < |s|
    ensures s[..i + 1] == s[..i] + [s[i]]
  {
  }

  lemma WholePrefix<T>(s: seq<T>)
    ensures s[..|s|] == s
  {
  }

  lemma WholeSuffix<T>(s: seq<T>)
    ensures s[0..] == s
    ensures s[|s|..] == []
  {
  }

  lemma ShorterSuffix<T>(s: seq<T>, i: nat)
    requires i < |s|
    ensures s[i..][0] == s[i]
    ensures s[i..][1..] == s[i + 1..]
  {
  }

  lemma TailOfSum<T>(a: seq<T>, b: seq<T>)
    requires a != []
    ensures (a + b)[0] == a[0]
    ensures (a + b)[1..] == a[1..] + b
  {
  }

  lemma Associate<T>(x: seq<T>, y: seq<T>, z: seq<T>)
    ensures (x + y) + z == x + (y + z)
  {
  }

  lemma EmptySums<T>(x: seq<T>)
    ensures [] + x == x
    ensures x + [] == x
  {
  }
}
