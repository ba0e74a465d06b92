/**
 * The two list-building patterns the converter uses everywhere: a loop that
 * `extend`s a list with a block per element (`FlatMap`), and a comprehension
 * that keeps the elements passing a test (`Filter`). Both are defined
 * left to right, as the loops build them.
 */
module Seqs {

  /** `out = []; for x in xs: out.extend(f(x))`. */
  function FlatMap<T, U>(xs: seq<T>, f: T -> seq<U>): seq<U> {
    if xs == [] then [] else FlatMap(xs[..|xs| - 1], f) + f(xs[|xs| - 1])
  }

  /** One more element appends its block at the end. */
  lemma FlatMapSnoc<T, U>(xs: seq<T>, x: T, f: T -> seq<U>)
    ensures FlatMap(xs + [x], f) == FlatMap(xs, f) + f(x)
  {
    assert (xs + [x])[..|xs|] == xs;
  }

  /** The blocks of a split list are those of each part, in order. */
  lemma {:induction false} FlatMapAppend<T, U>(xs: seq<T>, ys: seq<T>, f: T -> seq<U>)
    ensures FlatMap(xs + ys, f) == FlatMap(xs, f) + FlatMap(ys, f)
  {
    if ys == [] {
      assert xs + ys == xs;
    } else {
      var init := ys[..|ys| - 1];
      var last := ys[|ys| - 1];
      FlatMapAppend(xs, init, f);
      assert (xs + ys)[..|xs + ys| - 1] == xs + init;
      assert (xs + ys)[|xs + ys| - 1] == last;
      assert FlatMap(xs + ys, f) == FlatMap(xs + init, f) + f(last);
      assert FlatMap(ys, f) == FlatMap(init, f) + f(last);
      assert (FlatMap(xs, f) + FlatMap(init, f)) + f(last) == FlatMap(xs, f) + (FlatMap(init, f) + f(last));
    }
  }

  /** An element of the result comes from the block of some element of the list, and every block's elements are in it. */
  lemma {:induction false} FlatMapMembers<T, U>(xs: seq<T>, f: T -> seq<U>)
    ensures forall y :: y in FlatMap(xs, f) <==> exists i :: 0 <= i < |xs| && y in f(xs[i])
  {
    if xs != [] {
      var n := |xs| - 1;
      var init := xs[..n];
      FlatMapMembers(init, f);
      forall y ensures y in FlatMap(xs, f) <==> exists i :: 0 <= i < |xs| && y in f(xs[i]) {
        if y in FlatMap(init, f) {
          var i :| 0 <= i < |init| && y in f(init[i]);
          assert xs[i] == init[i];
        }
        if exists i :: 0 <= i < |xs| && y in f(xs[i]) {
          var i :| 0 <= i < |xs| && y in f(xs[i]);
          if i < n {
            assert xs[i] == init[i];
          }
        }
      }
    }
  }

  /** When every block is empty, so is the result. */
  lemma {:induction false} FlatMapNone<T, U>(xs: seq<T>, f: T -> seq<U>)
    requires forall i :: 0 <= i < |xs| ==> f(xs[i]) == []
    ensures FlatMap(xs, f) == []
  {
    if xs != [] {
      FlatMapNone(xs[..|xs| - 1], f);
    }
  }

  /** The result is empty exactly when every block is. */
  lemma {:induction false} FlatMapEmptyIff<T, U>(xs: seq<T>, f: T -> seq<U>)
    ensures FlatMap(xs, f) == [] <==> forall i :: 0 <= i < |xs| ==> f(xs[i]) == []
  {
    if xs != [] {
      var n := |xs| - 1;
      FlatMapEmptyIff(xs[..n], f);
      assert forall i :: 0 <= i < n ==> xs[..n][i] == xs[i];
    }
  }

  /**
   * Flattening twice: the blocks of `g` over the blocks of `f` are, element
   * by element, the blocks of `h`, where `h(x)` flattens `g` over `f(x)`.
   */
  lemma {:induction false} FlatMapFlatMap<T, U, V>(xs: seq<T>, f: T -> seq<U>, g: U -> seq<V>, h: T -> seq<V>)
    requires forall x :: h(x) == FlatMap(f(x), g)
    ensures FlatMap(FlatMap(xs, f), g) == FlatMap(xs, h)
  {
    if xs != [] {
      var n := |xs| - 1;
      FlatMapFlatMap(xs[..n], f, g, h);
      FlatMapAppend(FlatMap(xs[..n], f), f(xs[n]), g);
    }
  }

  /** `[x for x in xs if keep(x)]`. */
  function Filter<T>(xs: seq<T>, keep: T -> bool): seq<T> {
    if xs == [] then []
    else
      var last := xs[|xs| - 1];
      Filter(xs[..|xs| - 1], keep) + (if keep(last) then [last] else [])
  }

  /** One more element is kept at the end when it passes. */
  lemma FilterSnoc<T>(xs: seq<T>, x: T, keep: T -> bool)
    ensures Filter(xs + [x], keep) == Filter(xs, keep) + (if keep(x) then [x] else [])
  {
    assert (xs + [x])[..|xs|] == xs;
  }

  /** Filtering keeps order: the kept elements of a split list are those of each part. */
  lemma {:induction false} FilterAppend<T>(xs: seq<T>, ys: seq<T>, keep: T -> bool)
    ensures Filter(xs + ys, keep) == Filter(xs, keep) + Filter(ys, keep)
  {
    if ys == [] {
      assert xs + ys == xs;
    } else {
      var init := ys[..|ys| - 1];
      var last := ys[|ys| - 1];
      var t := if keep(last) then [last] else [];
      FilterAppend(xs, init, keep);
      assert (xs + ys)[..|xs + ys| - 1] == xs + init;
      assert (xs + ys)[|xs + ys| - 1] == last;
      assert Filter(xs + ys, keep) == Filter(xs + init, keep) + t;
      assert Filter(ys, keep) == Filter(init, keep) + t;
      assert (Filter(xs, keep) + Filter(init, keep)) + t == Filter(xs, keep) + (Filter(init, keep) + t);
    }
  }

  /** The kept elements are exactly the elements that pass, and there are no more of them than elements. */
  lemma {:induction false} FilterMembers<T>(xs: seq<T>, keep: T -> bool)
    ensures |Filter(xs, keep)| <= |xs|
    ensures forall x :: x in Filter(xs, keep) <==> x in xs && keep(x)
  {
    if xs != [] {
      var init := xs[..|xs| - 1];
      FilterMembers(init, keep);
      assert xs == init + [xs[|xs| - 1]];
    }
  }

  /** When every element passes, the whole list is kept. */
  lemma {:induction false} FilterAll<T>(xs: seq<T>, keep: T -> bool)
    requires forall k :: 0 <= k < |xs| ==> keep(xs[k])
    ensures Filter(xs, keep) == xs
  {
    if xs != [] {
      FilterAll(xs[..|xs| - 1], keep);
    }
  }

  /** Filtering keeps the whole list exactly when every element passes. */
  lemma FilterKeepsAllIff<T>(xs: seq<T>, keep: T -> bool)
    ensures Filter(xs, keep) == xs <==> forall k :: 0 <= k < |xs| ==> keep(xs[k])
  {
    FilterMembers(xs, keep);
    if forall k :: 0 <= k < |xs| ==> keep(xs[k]) {
      FilterAll(xs, keep);
    }
    if Filter(xs, keep) == xs {
      forall k | 0 <= k < |xs| ensures keep(xs[k]) {
        assert xs[k] in Filter(xs, keep);
      }
    }
  }

  /** When no element passes, nothing is kept. */
  lemma {:induction false} FilterNone<T>(xs: seq<T>, keep: T -> bool)
    requires forall k :: 0 <= k < |xs| ==> !keep(xs[k])
    ensures Filter(xs, keep) == []
  {
    if xs != [] {
      FilterNone(xs[..|xs| - 1], keep);
    }
  }
}
