/** Facts about sequences, each stated alone so that proofs can name the one they need. */
module Sequences {

  predicate Distinct<T(==)>(xs: seq<T>) {
    forall i, j :: 0 <= i < j < |xs| ==> xs[i] != xs[j]
  }

  /** All elements but x, in order. */
  function Without<T(==,!new)>(xs: seq<T>, x: T): (r: seq<T>)
    ensures x !in r
    ensures forall y :: y in r <==> y in xs && y != x
  {
    if xs == [] then []
    else if xs[0] == x then Without(xs[1..], x)
    else [xs[0]] + Without(xs[1..], x)
  }

  lemma {:induction false} WithoutIsDistinct<T(!new)>(xs: seq<T>, x: T)
    requires Distinct(xs)
    ensures Distinct(Without(xs, x)) && |Without(xs, x)| <= |xs|
  {
    if xs != [] {
      WithoutIsDistinct(xs[1..], x);
      var rest := Without(xs[1..], x);
      forall i | 0 <= i < |rest| ensures rest[i] != xs[0] {
        assert rest[i] in xs[1..];
      }
    }
  }

  /** Taking out the one occurrence of x leaves what is before and behind it. */
  lemma {:induction false} WithoutAt<T(!new)>(xs: seq<T>, x: T, p: nat)
    requires Distinct(xs) && p <= |xs| && (if p < |xs| then xs[p] == x else x !in xs)
    ensures Without(xs, x) == xs[..p] + if p < |xs| then xs[p + 1..] else []
  {
    if xs != [] && p > 0 {
      WithoutAt(xs[1..], x, p - 1);
      assert xs[..p] == [xs[0]] + xs[1..][..p - 1];
    } else if xs != [] {
      assert x !in xs[1..];
      WithoutAt(xs[1..], x, |xs| - 1);
    }
  }

  lemma UpdateTwice<T>(xs: seq<T>, k: nat, x: T, y: T)
    requires k < |xs|
    ensures xs[k := x][k := y] == xs[k := y]
  {}

  lemma DropDrop<T>(xs: seq<T>, i: nat, j: nat)
    requires i + j <= |xs|
    ensures xs[i..][j..] == xs[i + j..]
  {}

  lemma Assoc<T>(a: seq<T>, b: seq<T>, c: seq<T>)
    ensures (a + b) + c == a + (b + c)
  {}
}
