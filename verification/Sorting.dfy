/** The stable sort that `Array.prototype.sort` performs, as a function, with the facts callers rely on. */
module Sorting {

  /** `le` is a total preorder. */
  ghost predicate TotalPreorder<T(!new)>(le: (T, T) -> bool) {
    && (forall x, y :: le(x, y) || le(y, x))
    && (forall x, y, z :: le(x, y) && le(y, z) ==> le(x, z))
  }

  ghost predicate SortedBy<T>(le: (T, T) -> bool, xs: seq<T>) {
    forall i, j :: 0 <= i < j < |xs| ==> le(xs[i], xs[j])
  }

  ghost predicate NoDuplicates<T>(xs: seq<T>) {
    forall i, j :: 0 <= i < j < |xs| ==> xs[i] != xs[j]
  }

  /** Put `x` in front of the first element it is not greater than. */
  function Insert<T>(le: (T, T) -> bool, x: T, xs: seq<T>): seq<T> {
    if xs == [] then [x]
    else if le(x, xs[0]) then [x] + xs
    else [xs[0]] + Insert(le, x, xs[1..])
  }

  function Sort<T>(le: (T, T) -> bool, xs: seq<T>): seq<T> {
    if xs == [] then [] else Insert(le, xs[0], Sort(le, xs[1..]))
  }

  lemma {:induction false} InsertAdds<T>(le: (T, T) -> bool, x: T, xs: seq<T>)
    ensures multiset(Insert(le, x, xs)) == multiset([x]) + multiset(xs)
  {
    if xs != [] && !le(x, xs[0]) {
      InsertAdds(le, x, xs[1..]);
      assert xs == [xs[0]] + xs[1..];
    }
  }

  lemma {:induction false} InsertKeepsSorted<T(!new)>(le: (T, T) -> bool, x: T, xs: seq<T>)
    requires TotalPreorder(le)
    requires SortedBy(le, xs)
    ensures SortedBy(le, Insert(le, x, xs))
  {
    if xs == [] || le(x, xs[0]) {
      assert forall k :: 0 < k < |xs| ==> le(xs[0], xs[k]);
    } else {
      var tail := Insert(le, x, xs[1..]);
      InsertKeepsSorted(le, x, xs[1..]);
      InsertAdds(le, x, xs[1..]);
      forall k | 0 <= k < |tail| ensures le(xs[0], tail[k]) {
        assert tail[k] in multiset(tail);
        assert tail[k] == x || tail[k] in multiset(xs[1..]);
      }
    }
  }

  lemma {:induction false} SameElements<T(!new)>(xs: seq<T>, ys: seq<T>)
    requires multiset(xs) == multiset(ys)
    ensures |xs| == |ys| && forall x :: x in xs <==> x in ys
  {
    assert |multiset(xs)| == |multiset(ys)|;
    forall x ensures x in xs <==> x in ys {
      assert (x in xs <==> x in multiset(xs)) && (x in ys <==> x in multiset(ys));
    }
  }

  lemma {:induction false} SortKeeps<T(!new)>(le: (T, T) -> bool, xs: seq<T>)
    requires TotalPreorder(le)
    ensures SortedBy(le, Sort(le, xs)) && multiset(Sort(le, xs)) == multiset(xs)
  {
    if xs != [] {
      SortKeeps(le, xs[1..]);
      InsertKeepsSorted(le, xs[0], Sort(le, xs[1..]));
      InsertAdds(le, xs[0], Sort(le, xs[1..]));
      assert xs == [xs[0]] + xs[1..];
    }
  }

  /** Sorting orders the elements and neither loses nor invents one. */
  lemma {:induction false} SortIsSortedPermutation<T(!new)>(le: (T, T) -> bool, xs: seq<T>)
    requires TotalPreorder(le)
    ensures SortedBy(le, Sort(le, xs))
    ensures multiset(Sort(le, xs)) == multiset(xs)
    ensures |Sort(le, xs)| == |xs|
    ensures forall x :: x in Sort(le, xs) <==> x in xs
  {
    SortKeeps(le, xs);
    SameElements(Sort(le, xs), xs);
  }

  /** The elements that `le` ranks with `k`, in the order they have in `xs`. */
  function Equivalents<T>(le: (T, T) -> bool, k: T, xs: seq<T>): seq<T> {
    if xs == [] then []
    else (if le(xs[0], k) && le(k, xs[0]) then [xs[0]] else []) + Equivalents(le, k, xs[1..])
  }

  lemma {:induction false} EquivalentsOf<T>(le: (T, T) -> bool, k: T, x: T, xs: seq<T>)
    ensures Equivalents(le, k, [x] + xs) == (if le(x, k) && le(k, x) then [x] else []) + Equivalents(le, k, xs)
  {
    assert ([x] + xs)[1..] == xs;
  }

  lemma {:induction false} InsertIsStable<T(!new)>(le: (T, T) -> bool, x: T, xs: seq<T>, k: T)
    requires TotalPreorder(le)
    ensures Equivalents(le, k, Insert(le, x, xs)) == Equivalents(le, k, [x] + xs)
  {
    if xs != [] && !le(x, xs[0]) {
      InsertIsStable(le, x, xs[1..], k);
      EquivalentsOf(le, k, x, xs);
      EquivalentsOf(le, k, x, xs[1..]);
      EquivalentsOf(le, k, xs[0], Insert(le, x, xs[1..]));
    }
  }

  /** Elements that rank alike keep their order. */
  lemma {:induction false} SortIsStable<T(!new)>(le: (T, T) -> bool, xs: seq<T>, k: T)
    requires TotalPreorder(le)
    ensures Equivalents(le, k, Sort(le, xs)) == Equivalents(le, k, xs)
  {
    if xs != [] {
      var sorted := Sort(le, xs[1..]);
      SortIsStable(le, xs[1..], k);
      InsertIsStable(le, xs[0], sorted, k);
      EquivalentsOf(le, k, xs[0], sorted);
    }
  }

  /** A permutation of a duplicate-free sequence is duplicate-free. */
  lemma {:induction false} PermutationKeepsNoDuplicates<T>(xs: seq<T>, ys: seq<T>)
    requires multiset(xs) == multiset(ys)
    requires NoDuplicates(xs)
    ensures NoDuplicates(ys)
  {
    forall i, j | 0 <= i < j < |ys| ensures ys[i] != ys[j] {
      if ys[i] == ys[j] {
        var y := ys[i];
        CountTwice(ys, i, j);
        CountOnce(xs, y);
      }
    }
  }

  lemma {:induction false} CountTwice<T>(ys: seq<T>, i: nat, j: nat)
    requires i < j < |ys| && ys[i] == ys[j]
    ensures multiset(ys)[ys[i]] >= 2
  {
    assert ys == ys[..i] + [ys[i]] + ys[i + 1..j] + [ys[j]] + ys[j + 1..];
  }

  lemma {:induction false} CountOnce<T>(xs: seq<T>, y: T)
    requires NoDuplicates(xs)
    ensures multiset(xs)[y] <= 1
  {
    if xs != [] {
      assert xs == [xs[0]] + xs[1..];
      CountOnce(xs[1..], y);
      assert xs[0] !in xs[1..];
    }
  }
}
