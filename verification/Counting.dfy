/** How many entries of a ledger satisfy a property, and how that number moves when
    the ledger does.  Every counter of the modelled components is compared with one
    of these numbers. */
module Counting {

  function Count<T>(xs: seq<T>, p: T -> bool): nat {
    if xs == [] then 0
    else Count(xs[..|xs| - 1], p) + if p(xs[|xs| - 1]) then 1 else 0
  }

  lemma CountAppend<T>(xs: seq<T>, x: T, p: T -> bool)
    ensures Count(xs + [x], p) == Count(xs, p) + if p(x) then 1 else 0
  {
    assert (xs + [x])[..|xs|] == xs;
  }

  lemma {:induction false} CountUpdate<T>(xs: seq<T>, i: nat, x: T, p: T -> bool)
    requires i < |xs|
    ensures Count(xs[i := x], p)
         == Count(xs, p) - (if p(xs[i]) then 1 else 0) + (if p(x) then 1 else 0)
  {
    var n := |xs| - 1;
    if i == n {
      assert xs[i := x][..n] == xs[..n];
    } else {
      assert xs[i := x][..n] == xs[..n][i := x];
      CountUpdate(xs[..n], i, x, p);
    }
  }

  lemma {:induction false} CountMonotone<T(!new)>(xs: seq<T>, p: T -> bool, q: T -> bool)
    requires forall x :: p(x) ==> q(x)
    ensures Count(xs, p) <= Count(xs, q)
  {
    if xs != [] { CountMonotone(xs[..|xs| - 1], p, q); }
  }

  lemma {:induction false} CountPointwise<A, B>(xs: seq<A>, ys: seq<B>, p: A -> bool, q: B -> bool)
    requires |xs| == |ys|
    requires forall i :: 0 <= i < |xs| && p(xs[i]) ==> q(ys[i])
    ensures Count(xs, p) <= Count(ys, q)
  {
    if xs != [] { CountPointwise(xs[..|xs| - 1], ys[..|ys| - 1], p, q); }
  }

  /** A property that splits into two exclusive ones splits the count. */
  lemma {:induction false} CountSplit<T(!new)>(xs: seq<T>, p: T -> bool, q: T -> bool, r: T -> bool)
    requires forall x :: p(x) <==> q(x) || r(x)
    requires forall x :: !(q(x) && r(x))
    ensures Count(xs, p) == Count(xs, q) + Count(xs, r)
  {
    if xs != [] { CountSplit(xs[..|xs| - 1], p, q, r); }
  }

  lemma {:induction false} CountZero<T>(xs: seq<T>, p: T -> bool)
    ensures Count(xs, p) == 0 <==> forall i :: 0 <= i < |xs| ==> !p(xs[i])
  {
    if xs != [] {
      var n := |xs| - 1;
      CountZero(xs[..n], p);
      assert forall i :: 0 <= i < n ==> xs[..n][i] == xs[i];
      assert (forall i :: 0 <= i < |xs| ==> !p(xs[i])) <==> (forall i :: 0 <= i < n ==> !p(xs[..n][i])) && !p(xs[n]);
    }
  }

  predicate Increasing(q: seq<nat>) {
    forall i, j :: 0 <= i < j < |q| ==> q[i] < q[j]
  }

  /** An increasing list of exactly the positions satisfying p has as many entries as
      there are such positions. */
  lemma {:induction false} CountListed<T>(xs: seq<T>, q: seq<nat>, p: T -> bool)
    requires Increasing(q)
    requires forall i: nat :: i in q <==> i < |xs| && p(xs[i])
    ensures Count(xs, p) == |q|
  {
    assert |q| > 0 ==> q[0] in q;
    if xs != [] {
      var n := |xs| - 1;
      if p(xs[n]) {
        assert n in q;
        var k := |q| - 1;
        assert q[k] == n by {
          var j :| 0 <= j < |q| && q[j] == n;
          assert q[k] in q;
        }
        forall i: nat ensures i in q[..k] <==> i < n && p(xs[..n][i]) {
          if i in q[..k] { assert i in q; }
          if i < n && p(xs[..n][i]) {
            assert i in q;
            var j :| 0 <= j < |q| && q[j] == i;
            assert q[..k][j] == i;
          }
        }
        CountListed(xs[..n], q[..k], p);
      } else {
        forall i: nat ensures i in q <==> i < n && p(xs[..n][i]) {
        }
        CountListed(xs[..n], q, p);
      }
    }
  }
}
