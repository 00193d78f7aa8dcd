/** Regrouping and splitting of sequences. */
module Sequences {

  lemma {:induction false} Assoc<T>(a: seq<T>, b: seq<T>, c: seq<T>)
    ensures (a + b) + c == a + (b + c)
  {
  }

  lemma {:induction false} Regroup<T>(a: seq<T>, b: seq<T>, c: seq<T>, d: seq<T>)
    ensures a + (b + (c + d)) == a + b + c + d
  {
  }

  lemma {:induction false} Splits<T>(s: seq<T>, i: nat, j: nat)
    requires i <= j <= |s|
    ensures s == (s[..i] + s[i..j]) + s[j..]
    ensures i == j ==> s == s[..i] + s[j..]
    ensures i == 1 && j == 2 ==> s == [s[0], s[1]] + s[2..]
  {
  }
}
