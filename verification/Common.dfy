/** Searching, filtering and folding over sequences, as the source's iterator chains do. */
module Common {

  datatype Option<+T> = None | Some(value: T)

  /** The least index below `n` that satisfies `p`: `iter().position(..)` and `iter().find(..)`. */
  function FirstIndex(n: nat, p: nat -> bool): (r: Option<nat>)
    ensures r.Some? ==> r.value < n && p(r.value) && forall j: nat :: j < r.value ==> !p(j)
    ensures r.None? ==> forall j: nat :: j < n ==> !p(j)
  {
    if n == 0 then None
    else
      match FirstIndex(n - 1, p)
      case Some(i) => Some(i)
      case None => if p(n - 1) then Some(n - 1) else None
  }

  function IndexOf(xs: seq<string>, x: string): (r: Option<nat>)
    ensures r.Some? ==> r.value < |xs| && xs[r.value] == x && forall j :: 0 <= j < r.value ==> xs[j] != x
    ensures r.None? ==> x !in xs
  {
    var same := (i: nat) => i < |xs| && xs[i] == x;
    assert forall i: nat :: i < |xs| && xs[i] == x ==> same(i);
    FirstIndex(|xs|, same)
  }

  lemma IndexOfAppended(xs: seq<string>, last: string, x: string)
    ensures IndexOf(xs + [last], x) ==
            if x in xs then IndexOf(xs, x) else if x == last then Some(|xs|) else None
  {
    var ys := xs + [last];
    assert ys[|xs|] == last;
    assert forall i :: 0 <= i < |xs| ==> ys[i] == xs[i];
    assert x in ys <==> x in xs || x == last;
  }

  /** `iter().filter(..).collect()` */
  function Filter<T(!new)>(xs: seq<T>, keep: T -> bool): (r: seq<T>)
    ensures forall x :: x in r <==> x in xs && keep(x)
    ensures |r| <= |xs|
  {
    if xs == [] then []
    else (if keep(xs[0]) then [xs[0]] else []) + Filter(xs[1..], keep)
  }

  /** `fold(start, usize::min)` */
  function MinFold(start: nat, xs: seq<nat>): (r: nat)
    ensures r <= start
    ensures forall x :: x in xs ==> r <= x
    ensures r == start || r in xs
  {
    if xs == [] then start
    else
      assert forall x :: x in xs ==> x == xs[0] || x in xs[1..];
      MinFold(if xs[0] < start then xs[0] else start, xs[1..])
  }

  /** `saturating_sub` */
  function Sub(a: nat, b: nat): nat {
    if b <= a then a - b else 0
  }

  predicate NoDuplicates<T(==)>(xs: seq<T>) {
    forall i, j :: 0 <= i < j < |xs| ==> xs[i] != xs[j]
  }

  lemma AppendNoDuplicates<T>(xs: seq<T>, x: T)
    requires x !in xs
    ensures NoDuplicates(xs + [x]) <==> NoDuplicates(xs)
  {
    var r := xs + [x];
    assert forall i :: 0 <= i < |xs| ==> r[i] == xs[i];
    if NoDuplicates(r) {
      forall i, j | 0 <= i < j < |xs| ensures xs[i] != xs[j] {
        assert r[i] != r[j];
      }
    }
  }

  lemma SubsetSize<T>(small: set<T>, big: set<T>)
    requires small <= big
    ensures |small| <= |big|
  {
    assert |big| == |small| + |big - small| by {
      assert small + (big - small) == big;
    }
  }

  lemma {:induction false} DistinctSize<T>(xs: seq<T>)
    requires NoDuplicates(xs)
    ensures |set x | x in xs| == |xs|
  {
    if xs != [] {
      var init, last := xs[..|xs| - 1], xs[|xs| - 1];
      assert NoDuplicates(init);
      DistinctSize(init);
      assert last !in init;
      assert (set x | x in xs) == (set x | x in init) + {last};
    }
  }

  lemma {:induction false} ElementsSize<T>(xs: seq<T>)
    ensures |set x | x in xs| <= |xs|
  {
    if xs != [] {
      var init, last := xs[..|xs| - 1], xs[|xs| - 1];
      ElementsSize(init);
      assert (set x | x in xs) == (set x | x in init) + {last};
    }
  }

  /** What has no duplicates is no longer than anything that has all of it. */
  lemma NoLonger<T>(xs: seq<T>, ys: seq<T>)
    requires NoDuplicates(xs) && forall x :: x in xs ==> x in ys
    ensures |xs| <= |ys|
  {
    DistinctSize(xs);
    ElementsSize(ys);
    SubsetSize((set x | x in xs), (set y | y in ys));
  }
}
