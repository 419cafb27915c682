/** Sequence helpers shared by every module: counting, filtering and their laws. */
module Common {

  datatype Option<+T> = None | Some(value: T)

  /** How many elements of `xs` satisfy `keep`. */
  function Count<T>(xs: seq<T>, keep: T -> bool): nat {
    if xs == [] then 0
    else Count(xs[..|xs| - 1], keep) + if keep(xs[|xs| - 1]) then 1 else 0
  }

  /** The elements of `xs` that satisfy `keep`, in order. */
  function Filter<T>(xs: seq<T>, keep: T -> bool): seq<T> {
    if xs == [] then []
    else Filter(xs[..|xs| - 1], keep) + if keep(xs[|xs| - 1]) then [xs[|xs| - 1]] else []
  }

  /** The first element of `xs` that satisfies `keep`. */
  function First<T>(xs: seq<T>, keep: T -> bool): Option<T> {
    if xs == [] then None
    else match First(xs[..|xs| - 1], keep)
      case Some(x) => Some(x)
      case None => if keep(xs[|xs| - 1]) then Some(xs[|xs| - 1]) else None
  }

  lemma CountSnoc<T>(xs: seq<T>, x: T, keep: T -> bool)
    ensures Count(xs + [x], keep) == Count(xs, keep) + if keep(x) then 1 else 0
  {
    assert (xs + [x])[..|xs|] == xs;
  }

  lemma {:induction false} CountAppend<T>(xs: seq<T>, ys: seq<T>, keep: T -> bool)
    ensures Count(xs + ys, keep) == Count(xs, keep) + Count(ys, keep)
  {
    if ys == [] {
      assert xs + ys == xs;
    } else {
      assert (xs + ys)[..|xs + ys| - 1] == xs + ys[..|ys| - 1];
      CountAppend(xs, ys[..|ys| - 1], keep);
    }
  }

  lemma CountUpdate<T>(xs: seq<T>, i: nat, x: T, keep: T -> bool)
    requires i < |xs|
    ensures Count(xs[i := x], keep) + (if keep(xs[i]) then 1 else 0)
         == Count(xs, keep) + if keep(x) then 1 else 0
  {
    assert xs == xs[..i] + [xs[i]] + xs[i + 1..];
    assert xs[i := x] == xs[..i] + [x] + xs[i + 1..];
    CountAppend(xs[..i] + [xs[i]], xs[i + 1..], keep);
    CountAppend(xs[..i] + [x], xs[i + 1..], keep);
    CountSnoc(xs[..i], xs[i], keep);
    CountSnoc(xs[..i], x, keep);
  }

  lemma {:induction false} CountZero<T>(xs: seq<T>, keep: T -> bool)
    ensures Count(xs, keep) == 0 <==> forall x :: x in xs ==> !keep(x)
  {
    if xs == [] {
    } else {
      CountZero(xs[..|xs| - 1], keep);
      assert xs == xs[..|xs| - 1] + [xs[|xs| - 1]];
    }
  }

  lemma {:induction false} CountSame<T>(xs: seq<T>, a: T -> bool, b: T -> bool)
    requires forall x :: x in xs ==> a(x) == b(x)
    ensures Count(xs, a) == Count(xs, b)
  {
    if xs == [] {
    } else {
      CountSame(xs[..|xs| - 1], a, b);
    }
  }

  lemma {:induction false} FilterAppend<T>(xs: seq<T>, ys: seq<T>, keep: T -> bool)
    ensures Filter(xs + ys, keep) == Filter(xs, keep) + Filter(ys, keep)
  {
    if ys == [] {
      assert xs + ys == xs;
    } else {
      assert (xs + ys)[..|xs + ys| - 1] == xs + ys[..|ys| - 1];
      FilterAppend(xs, ys[..|ys| - 1], keep);
    }
  }

  lemma {:induction false} FilterAll<T>(xs: seq<T>, keep: T -> bool)
    requires forall x :: x in xs ==> keep(x)
    ensures Filter(xs, keep) == xs
  {
    if xs == [] {
    } else {
      var init, last := xs[..|xs| - 1], xs[|xs| - 1];
      assert xs == init + [last];
      assert forall x :: x in init ==> x in xs;
      FilterAll(init, keep);
      assert keep(last);
    }
  }

  lemma {:induction false} FilterNone<T>(xs: seq<T>, keep: T -> bool)
    requires forall x :: x in xs ==> !keep(x)
    ensures Filter(xs, keep) == []
  {
    if xs == [] {
    } else {
      FilterNone(xs[..|xs| - 1], keep);
    }
  }

  lemma FilterSnoc<T>(xs: seq<T>, x: T, keep: T -> bool)
    ensures Filter(xs + [x], keep) == if keep(x) then Filter(xs, keep) + [x] else Filter(xs, keep)
  {
    assert (xs + [x])[..|xs|] == xs;
    assert Filter(xs, keep) + [] == Filter(xs, keep);
  }

  lemma {:induction false} FilterIn<T>(xs: seq<T>, keep: T -> bool, x: T)
    ensures x in Filter(xs, keep) <==> x in xs && keep(x)
  {
    if xs == [] {
    } else {
      var init, last := xs[..|xs| - 1], xs[|xs| - 1];
      FilterIn(init, keep, x);
      assert xs == init + [last];
    }
  }

  lemma {:induction false} FirstAppend<T>(xs: seq<T>, ys: seq<T>, keep: T -> bool)
    ensures First(xs + ys, keep) == if First(xs, keep).Some? then First(xs, keep) else First(ys, keep)
  {
    if ys == [] {
      assert xs + ys == xs;
    } else {
      assert (xs + ys)[..|xs + ys| - 1] == xs + ys[..|ys| - 1];
      FirstAppend(xs, ys[..|ys| - 1], keep);
    }
  }

  lemma {:induction false} FirstIsCounted<T>(xs: seq<T>, keep: T -> bool)
    ensures First(xs, keep).None? <==> Count(xs, keep) == 0
    ensures First(xs, keep).Some? ==> First(xs, keep).value in xs && keep(First(xs, keep).value)
  {
    if xs == [] {
    } else {
      FirstIsCounted(xs[..|xs| - 1], keep);
    }
  }

  /** Element-wise image of a sequence. */
  function Map<A, B>(xs: seq<A>, f: A -> B): (r: seq<B>)
    ensures |r| == |xs|
    ensures forall i :: 0 <= i < |xs| ==> r[i] == f(xs[i])
  {
    seq(|xs|, i requires 0 <= i < |xs| => f(xs[i]))
  }

  lemma MapSnoc<A, B>(xs: seq<A>, x: A, f: A -> B)
    ensures Map(xs + [x], f) == Map(xs, f) + [f(x)]
  {}

  lemma MapIn<A, B>(xs: seq<A>, f: A -> B, y: B)
    ensures y in Map(xs, f) <==> exists i :: 0 <= i < |xs| && y == f(xs[i])
  {
    if y in Map(xs, f) {
      var i :| 0 <= i < |xs| && Map(xs, f)[i] == y;
      assert y == f(xs[i]);
    }
    if i :| 0 <= i < |xs| && y == f(xs[i]) {
      assert Map(xs, f)[i] == y;
    }
  }

  /** Distinct elements: as many as the set of them. */
  lemma {:induction false} DistinctSize<T>(xs: seq<T>, s: set<T>)
    requires forall i, j :: 0 <= i < j < |xs| ==> xs[i] != xs[j]
    requires forall x :: x in s <==> x in xs
    ensures |s| == |xs|
  {
    if xs == [] {
      assert s == {};
    } else {
      var x := xs[|xs| - 1];
      assert xs == xs[..|xs| - 1] + [x];
      DistinctSize(xs[..|xs| - 1], s - {x});
    }
  }
}
