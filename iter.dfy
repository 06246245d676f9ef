/** The iterator adaptors the block interpreter is built from, over finite sequences. */
module Iter {
  import opened Wrappers

  /** `f` may be applied to every element of `xs`. */
  ghost predicate Defined<A, B>(f: A --> B, xs: seq<A>) {
    forall i :: 0 <= i < |xs| ==> f.requires(xs[i])
  }

  /** `flat_map`: the pieces `f` makes of each element, in order. */
  function FlatMap<A, B>(f: A --> seq<B>, xs: seq<A>): (ys: seq<B>)
    requires Defined(f, xs)
    ensures forall y :: y in ys ==> exists i :: 0 <= i < |xs| && y in f(xs[i])
  {
    if xs == [] then [] else f(xs[0]) + FlatMap(f, xs[1..])
  }

  /** `filter`: the elements that satisfy `keep`, in order. */
  function Filter<A>(keep: A -> bool, xs: seq<A>): (ys: seq<A>)
    ensures |ys| <= |xs|
    ensures forall i :: 0 <= i < |ys| ==> ys[i] in xs && keep(ys[i])
    ensures forall i :: 0 <= i < |xs| && keep(xs[i]) ==> xs[i] in ys
  {
    if xs == [] then []
    else (if keep(xs[0]) then [xs[0]] else []) + Filter(keep, xs[1..])
  }

  /** `filter_map`: the values `f` gives, skipping the elements it maps to `None`. */
  function FilterMap<A, B>(f: A -> Option<B>, xs: seq<A>): (ys: seq<B>)
    ensures |ys| <= |xs|
    ensures forall y :: y in ys ==> exists i :: 0 <= i < |xs| && f(xs[i]) == Some(y)
  {
    if xs == [] then []
    else (match f(xs[0]) case Some(y) => [y] case None => []) + FilterMap(f, xs[1..])
  }

  lemma DefinedAppend<A, B>(f: A --> B, xs: seq<A>, ys: seq<A>)
    requires Defined(f, xs) && Defined(f, ys)
    ensures Defined(f, xs + ys)
  {
    forall i | 0 <= i < |xs + ys|
      ensures f.requires((xs + ys)[i])
    {
      if i < |xs| {
        assert (xs + ys)[i] == xs[i];
      } else {
        assert (xs + ys)[i] == ys[i - |xs|];
      }
    }
  }

  lemma {:induction false} FlatMapAppend<A, B>(f: A --> seq<B>, xs: seq<A>, ys: seq<A>)
    requires Defined(f, xs) && Defined(f, ys)
    ensures Defined(f, xs + ys)
    ensures FlatMap(f, xs + ys) == FlatMap(f, xs) + FlatMap(f, ys)
  {
    DefinedAppend(f, xs, ys);
    if xs == [] {
      assert xs + ys == ys;
    } else {
      assert (xs + ys)[0] == xs[0] && (xs + ys)[1..] == xs[1..] + ys;
      assert Defined(f, xs[1..]) by {
        forall i | 0 <= i < |xs[1..]|
          ensures f.requires(xs[1..][i])
        {
          assert xs[1..][i] == xs[i + 1];
        }
      }
      FlatMapAppend(f, xs[1..], ys);
      Regroup(f(xs[0]), FlatMap(f, xs[1..]), FlatMap(f, ys));
    }
  }

  lemma {:induction false} FlatMapMembers<A, B>(f: A -> seq<B>, xs: seq<A>, y: B)
    ensures y in FlatMap(f, xs) <==> exists i :: 0 <= i < |xs| && y in f(xs[i])
  {
    if xs != [] {
      FlatMapMembers(f, xs[1..], y);
      if exists i :: 0 <= i < |xs| && y in f(xs[i]) {
        var i :| 0 <= i < |xs| && y in f(xs[i]);
        if i > 0 {
          assert xs[1..][i - 1] == xs[i];
        }
      }
      if y in FlatMap(f, xs[1..]) {
        var i :| 0 <= i < |xs[1..]| && y in f(xs[1..][i]);
        assert xs[1..][i] == xs[i + 1];
      }
    }
  }

  /** Elements that `f` maps to the same pieces give the same result. */
  lemma {:induction false} FlatMapSamePieces<A, B>(f: A -> seq<B>, xs: seq<A>, ys: seq<A>)
    requires |xs| == |ys| && forall i :: 0 <= i < |xs| ==> f(xs[i]) == f(ys[i])
    ensures FlatMap(f, xs) == FlatMap(f, ys)
  {
    if xs != [] {
      FlatMapSamePieces(f, xs[1..], ys[1..]);
    }
  }

  lemma {:induction false} FilterAppend<A>(keep: A -> bool, xs: seq<A>, ys: seq<A>)
    ensures Filter(keep, xs + ys) == Filter(keep, xs) + Filter(keep, ys)
  {
    if xs == [] {
      assert xs + ys == ys;
    } else {
      assert (xs + ys)[0] == xs[0] && (xs + ys)[1..] == xs[1..] + ys;
      FilterAppend(keep, xs[1..], ys);
    }
  }

  lemma {:induction false} FilterMapAppend<A, B>(f: A -> Option<B>, xs: seq<A>, ys: seq<A>)
    ensures FilterMap(f, xs + ys) == FilterMap(f, xs) + FilterMap(f, ys)
  {
    if xs == [] {
      assert xs + ys == ys;
    } else {
      assert (xs + ys)[0] == xs[0] && (xs + ys)[1..] == xs[1..] + ys;
      FilterMapAppend(f, xs[1..], ys);
    }
  }

  lemma {:induction false} FilterMapMembers<A, B>(f: A -> Option<B>, xs: seq<A>, y: B)
    ensures y in FilterMap(f, xs) <==> exists i :: 0 <= i < |xs| && f(xs[i]) == Some(y)
  {
    if xs != [] {
      FilterMapMembers(f, xs[1..], y);
      if exists i :: 0 <= i < |xs| && f(xs[i]) == Some(y) {
        var i :| 0 <= i < |xs| && f(xs[i]) == Some(y);
        if i > 0 {
          assert xs[1..][i - 1] == xs[i];
        }
      }
      if y in FilterMap(f, xs[1..]) {
        var i :| 0 <= i < |xs[1..]| && f(xs[1..][i]) == Some(y);
        assert xs[1..][i] == xs[i + 1];
      }
    }
  }

  /** Regrouping a concatenation of three pieces. */
  lemma Regroup<A>(x: seq<A>, y: seq<A>, z: seq<A>)
    ensures x + y + z == x + (y + z)
  {
  }

  lemma FlatMapOne<A, B>(f: A --> seq<B>, x: A)
    requires f.requires(x)
    ensures Defined(f, [x])
    ensures FlatMap(f, [x]) == f(x)
  {
    assert [x][1..] == [];
    assert FlatMap(f, [x]) == f(x) + [];
  }

  lemma FilterOne<A>(keep: A -> bool, x: A)
    ensures Filter(keep, [x]) == if keep(x) then [x] else []
  {
    assert [x][1..] == [];
  }

  lemma FilterMapOne<A, B>(f: A -> Option<B>, x: A)
    ensures FilterMap(f, [x]) == match f(x) case Some(y) => [y] case None => []
  {
    assert [x][1..] == [];
  }
}
