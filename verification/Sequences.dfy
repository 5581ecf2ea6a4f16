/** Facts about finite sequences that several of the models share. */
module Sequences {

  datatype Option<+T> = None | Some(value: T)

  ghost predicate Distinct<T>(xs: seq<T>) {
    xs == [] || (xs[0] !in xs[1..] && Distinct(xs[1..]))
  }

  /** The element at position i, or None past the end. */
  function At<T>(xs: seq<T>, i: nat): Option<T> {
    if i < |xs| then Some(xs[i]) else None
  }

  /** The position of the first occurrence of x. */
  function Pos<T(==)>(xs: seq<T>, x: T): (p: nat)
    requires x in xs
    ensures p < |xs| && xs[p] == x
  {
    if xs[0] == x then 0 else 1 + Pos(xs[1..], x)
  }

  /** part is the stretch of xs that begins at start. */
  ghost predicate Slice<T>(xs: seq<T>, start: int, part: seq<T>) {
    0 <= start && start + |part| <= |xs| && part == xs[start..start + |part|]
  }

  /** The elements of xs outside gone, in order. */
  function Without<T(==)>(xs: seq<T>, gone: set<T>): (r: seq<T>)
    ensures forall x :: x in r ==> x in xs && x !in gone
    ensures forall x :: x in xs && x !in gone ==> x in r
    ensures |r| <= |xs|
  {
    if xs == [] then []
    else if xs[0] in gone then Without(xs[1..], gone)
    else [xs[0]] + Without(xs[1..], gone)
  }

  function Reverse<T>(xs: seq<T>): (r: seq<T>)
    ensures |r| == |xs|
    ensures forall i :: 0 <= i < |xs| ==> r[i] == xs[|xs| - 1 - i]
  {
    if xs == [] then [] else Reverse(xs[1..]) + [xs[0]]
  }

  function Flatten<T>(xss: seq<seq<T>>): seq<T> {
    if xss == [] then [] else xss[0] + Flatten(xss[1..])
  }

  /** The sum of the lengths. */
  function TotalLength<T>(xss: seq<seq<T>>): nat {
    if xss == [] then 0 else |xss[0]| + TotalLength(xss[1..])
  }

  lemma {:induction false} DistinctApart<T>(xs: seq<T>, i: nat, j: nat)
    requires Distinct(xs) && i < j < |xs|
    ensures xs[i] != xs[j]
  {
    assert xs[j] == xs[1..][j - 1];
    if i > 0 {
      DistinctApart(xs[1..], i - 1, j - 1);
    }
  }

  lemma {:induction false} PosOfDistinct<T>(xs: seq<T>, i: nat)
    requires Distinct(xs) && i < |xs|
    ensures Pos(xs, xs[i]) == i
  {
    if i > 0 {
      assert xs[i] == xs[1..][i - 1];
      PosOfDistinct(xs[1..], i - 1);
    }
  }

  lemma {:induction false} WithoutKeepsDistinct<T>(xs: seq<T>, gone: set<T>)
    requires Distinct(xs)
    ensures Distinct(Without(xs, gone))
  {
    if xs != [] {
      WithoutKeepsDistinct(xs[1..], gone);
      if xs[0] !in gone {
        assert Without(xs, gone)[1..] == Without(xs[1..], gone);
      }
    }
  }

  lemma {:induction false} WithoutConcat<T>(xs: seq<T>, ys: seq<T>, gone: set<T>)
    ensures Without(xs + ys, gone) == Without(xs, gone) + Without(ys, gone)
  {
    if xs == [] {
      assert xs + ys == ys;
    } else {
      assert (xs + ys)[1..] == xs[1..] + ys;
      WithoutConcat(xs[1..], ys, gone);
    }
  }

  /** Without depends only on which elements of xs are gone. */
  lemma {:induction false} WithoutAgree<T>(xs: seq<T>, gone: set<T>, gone': set<T>)
    requires forall x :: x in xs ==> (x in gone <==> x in gone')
    ensures Without(xs, gone) == Without(xs, gone')
  {
    if xs != [] {
      assert xs[0] in xs;
      WithoutAgree(xs[1..], gone, gone');
    }
  }

  lemma {:induction false} WithoutNone<T>(xs: seq<T>, gone: set<T>)
    requires forall x :: x in xs ==> x !in gone
    ensures Without(xs, gone) == xs
  {
    if xs != [] {
      assert xs[0] in xs;
      WithoutNone(xs[1..], gone);
    }
  }

  lemma {:induction false} WithoutTwice<T>(xs: seq<T>, gone: set<T>, more: set<T>)
    ensures Without(Without(xs, gone), more) == Without(xs, gone + more)
  {
    if xs != [] {
      WithoutTwice(xs[1..], gone, more);
      if xs[0] !in gone {
        assert Without(xs, gone)[1..] == Without(xs[1..], gone);
      }
    }
  }

  /** Dropping the single element at position i. */
  lemma {:induction false} WithoutOne<T>(xs: seq<T>, i: nat)
    requires Distinct(xs) && i < |xs|
    ensures Without(xs, {xs[i]}) == xs[..i] + xs[i + 1..]
  {
    if i == 0 {
      WithoutNone(xs[1..], {xs[0]});
    } else {
      assert xs[1..][i - 1] == xs[i] && xs[i] in xs[1..];
      WithoutOne(xs[1..], i - 1);
      assert xs[..i] + xs[i + 1..] == [xs[0]] + (xs[1..][..i - 1] + xs[1..][i..]);
    }
  }

  lemma {:induction false} TotalLengthUpdate<T>(xss: seq<seq<T>>, i: nat, ys: seq<T>)
    requires i < |xss|
    ensures TotalLength(xss[i := ys]) == TotalLength(xss) - |xss[i]| + |ys|
  {
    if i > 0 {
      assert xss[i := ys][1..] == xss[1..][i - 1 := ys];
      TotalLengthUpdate(xss[1..], i - 1, ys);
    }
  }

  lemma {:induction false} ReverseConcat<T>(xs: seq<T>, ys: seq<T>)
    ensures Reverse(xs + ys) == Reverse(ys) + Reverse(xs)
  {
    if xs == [] {
      assert xs + ys == ys;
    } else {
      assert (xs + ys)[1..] == xs[1..] + ys;
      ReverseConcat(xs[1..], ys);
    }
  }

  lemma {:induction false} FlattenConcat<T>(xss: seq<seq<T>>, yss: seq<seq<T>>)
    ensures Flatten(xss + yss) == Flatten(xss) + Flatten(yss)
  {
    if xss == [] {
      assert xss + yss == yss;
    } else {
      assert (xss + yss)[1..] == xss[1..] + yss;
      FlattenConcat(xss[1..], yss);
    }
  }

  lemma SliceGrows<T>(all: seq<T>, start: nat, part: seq<T>, more: seq<T>)
    requires start + |part| <= |all| && part == all[start..start + |part|]
    ensures part == (all + more)[start..start + |part|]
    ensures part == all[start..] ==> part + more == (all + more)[start..]
  {}
}
