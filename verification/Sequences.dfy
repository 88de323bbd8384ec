/** Facts about sequences that proofs elsewhere ask for by name. */
module Sequences {
  lemma Associative<T>(a: seq<T>, b: seq<T>, c: seq<T>)
    ensures (a + b) + c == a + (b + c)
  {
  }

  predicate NoDuplicates<T(==)>(s: seq<T>) {
    forall i, j :: 0 <= i < j < |s| ==> s[i] != s[j]
  }

  lemma AppendDistinct<T>(s: seq<T>, x: T)
    requires NoDuplicates(s) && x !in s
    ensures NoDuplicates(s + [x]) && (forall y :: y in s + [x] <==> y in s || y == x)
    ensures NoDuplicates([x])
  {
  }

  lemma PrefixDistinct<T>(front: seq<T>, whole: seq<T>)
    requires front <= whole && NoDuplicates(whole)
    ensures NoDuplicates(front)
  {
    assert forall i :: 0 <= i < |front| ==> whole[i] == front[i];
  }

  lemma SplitPrefix<T>(a: seq<T>, t: seq<T>)
    ensures (a + t)[..|a|] == a && (a + t)[|a|..] == t
  {
  }
}
