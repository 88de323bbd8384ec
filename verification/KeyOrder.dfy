/** The order of names: lexicographic, on the bytes of a file name or the characters of a string. */
module KeyOrder {
  datatype Ordering = Less | Equal | Greater

  function Compare(a: seq<int>, b: seq<int>): Ordering {
    if a == [] then (if b == [] then Equal else Less)
    else if b == [] then Greater
    else if a[0] < b[0] then Less
    else if a[0] > b[0] then Greater
    else Compare(a[1..], b[1..])
  }

  predicate Lt(a: seq<int>, b: seq<int>) {
    Compare(a, b) == Less
  }

  /** Dictionary order, said outright: `a` runs out first, or is the smaller where the two first differ. */
  ghost predicate ComesBefore(a: seq<int>, b: seq<int>) {
    exists n: nat :: DiffersAt(a, b, n) && (n == |a| || a[n] < b[n])
  }

  predicate DiffersAt(a: seq<int>, b: seq<int>, n: nat) {
    n <= |a| && n < |b| && a[..n] == b[..n]
  }

  lemma {:induction false} LtIsDictionaryOrder(a: seq<int>, b: seq<int>)
    ensures Lt(a, b) <==> ComesBefore(a, b)
  {
    forall n: nat | n > 0 && DiffersAt(a, b, n) ensures a[0] == b[0] {
      assert a[..n][0] == b[..n][0];
    }
    if a == [] && b != [] {
      assert DiffersAt(a, b, 0);
    } else if a != [] && b != [] && a[0] == b[0] {
      LtIsDictionaryOrder(a[1..], b[1..]);
      DiffersFurther(a, b);
    } else if a != [] && b != [] && a[0] < b[0] {
      assert DiffersAt(a, b, 0);
    }
  }

  lemma DiffersFurther(a: seq<int>, b: seq<int>)
    requires a != [] && b != [] && a[0] == b[0]
    ensures ComesBefore(a, b) <==> ComesBefore(a[1..], b[1..])
  {
    forall n: nat | DiffersAt(a, b, n) && (n == |a| || a[n] < b[n]) ensures n > 0 && DiffersAt(a[1..], b[1..], n - 1) {
      assert a[1..][..n - 1] == a[..n][1..] && b[1..][..n - 1] == b[..n][1..];
    }
    forall n: nat | DiffersAt(a[1..], b[1..], n) ensures DiffersAt(a, b, n + 1) {
      assert a[..n + 1] == [a[0]] + a[1..][..n] && b[..n + 1] == [b[0]] + b[1..][..n];
    }
  }

  lemma {:induction false} CompareEqual(a: seq<int>, b: seq<int>)
    ensures Compare(a, b) == Equal <==> a == b
  {
    if a == [] || b == [] {
    } else if a[0] == b[0] {
      CompareEqual(a[1..], b[1..]);
      assert a == [a[0]] + a[1..] && b == [b[0]] + b[1..];
    }
  }

  lemma {:induction false} CompareFlip(a: seq<int>, b: seq<int>)
    ensures Compare(a, b) == Greater <==> Lt(b, a)
  {
    if a == [] || b == [] {
    } else {
      CompareFlip(a[1..], b[1..]);
    }
  }

  lemma {:induction false} LtTransitive(a: seq<int>, b: seq<int>, c: seq<int>)
    requires Lt(a, b) && Lt(b, c)
    ensures Lt(a, c)
  {
    if a == [] {
    } else if a[0] == b[0] == c[0] {
      LtTransitive(a[1..], b[1..], c[1..]);
    }
  }

  lemma LtIrreflexive(a: seq<int>)
    ensures !Lt(a, a)
  {
    CompareEqual(a, a);
  }
}
