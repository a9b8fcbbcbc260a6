/** Small datatypes shared by every module of the model. */
module Common {

  datatype Option<+T> = None | Some(value: T) {
    function GetOr(default: T): (r: T) {
      match this
      case Some(v) => v
      case None => default
    }
  }

  datatype Result<+T, +E> = Ok(value: T) | Err(error: E)

  /** `order` lists each member of `s` exactly once: the unspecified order of a query. */
  ghost predicate Enumerates<T(!new)>(order: seq<T>, s: set<T>) {
    && (forall x :: x in order <==> x in s)
    && Distinct(order)
  }

  function Members<T>(xs: seq<T>): (s: set<T>) {
    set x | x in xs
  }

  /** One more of the members of `xs`, listed once each. */
  lemma {:induction false} NextMember<T>(xs: seq<T>, k: nat)
    requires k < |xs|
    ensures xs[..|xs|] == xs && Members(xs[..k + 1]) == Members(xs[..k]) + {xs[k]}
    ensures Distinct(xs) ==> xs[k] !in Members(xs[..k])
  {
    assert xs[..k + 1] == xs[..k] + [xs[k]];
  }

  ghost predicate Distinct<T>(xs: seq<T>) {
    forall i, j :: 0 <= i < j < |xs| ==> xs[i] != xs[j]
  }

  /** A sequence of distinct members of `s` is no longer than `s` is large. */
  lemma {:induction false} DistinctFits<T>(xs: seq<T>, s: set<T>)
    requires Distinct(xs)
    requires forall x :: x in xs ==> x in s
    ensures |xs| <= |s|
  {
    if xs != [] {
      var last := xs[|xs| - 1];
      DistinctFits(xs[..|xs| - 1], s - {last});
    }
  }

  lemma {:induction false} DistinctConcat<T>(a: seq<T>, b: seq<T>)
    ensures Distinct(a + b) <==> Distinct(a) && Distinct(b) && Disjoint(a, b)
  {
    var ab := a + b;
    if Distinct(ab) {
      assert forall i :: 0 <= i < |a| ==> ab[i] == a[i];
      assert forall i :: 0 <= i < |b| ==> ab[|a| + i] == b[i];
    }
  }

  lemma {:induction false} LastNotBefore<T>(xs: seq<T>, x: T)
    requires Distinct(xs + [x])
    ensures x !in xs
  {
    forall i | 0 <= i < |xs| ensures xs[i] != x {
      assert (xs + [x])[i] == xs[i] && (xs + [x])[|xs|] == x;
    }
  }

  ghost predicate Disjoint<T>(a: seq<T>, b: seq<T>) {
    forall i, j :: 0 <= i < |a| && 0 <= j < |b| ==> a[i] != b[j]
  }
}
