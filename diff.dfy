/** `_.difference(xs, ys)`: the elements of `xs` that do not occur in `ys`,
    in their order in `xs`, duplicates within `xs` kept. */
module Diff {

  function Difference<T(==, !new)>(xs: seq<T>, ys: seq<T>): (r: seq<T>)
    ensures forall x :: x in r <==> x in xs && x !in ys
    ensures |r| <= |xs|
  {
    if xs == [] then []
    else (if xs[0] in ys then [] else [xs[0]]) + Difference(xs[1..], ys)
  }

  /** Order and multiplicity are kept: every element of `xs` outside `ys`
      occurs in the difference exactly as often as in `xs`, the others never. */
  lemma {:induction false} DifferenceCount<T(!new)>(xs: seq<T>, ys: seq<T>, x: T)
    ensures multiset(Difference(xs, ys))[x] == if x in ys then 0 else multiset(xs)[x]
  {
    if xs != [] {
      DifferenceCount(xs[1..], ys, x);
      assert xs == [xs[0]] + xs[1..];
    }
  }

  /** The difference distributes over concatenation of its left operand, so it
      keeps the order of `xs`. */
  lemma {:induction false} DifferenceAppend<T(!new)>(xs: seq<T>, xs': seq<T>, ys: seq<T>)
    ensures Difference(xs + xs', ys) == Difference(xs, ys) + Difference(xs', ys)
  {
    if xs == [] {
      assert xs + xs' == xs';
    } else {
      assert (xs + xs')[1..] == xs[1..] + xs';
      DifferenceAppend(xs[1..], xs', ys);
    }
  }

  /** A list with nothing outside `ys` leaves nothing behind. */
  lemma {:induction false} DifferenceCovered<T(!new)>(xs: seq<T>, ys: seq<T>)
    requires forall x :: x in xs ==> x in ys
    ensures Difference(xs, ys) == []
  {
    if xs != [] {
      DifferenceCovered(xs[1..], ys);
    }
  }

  /** Diffing a list against itself yields the empty list. */
  lemma DifferenceSelf<T(!new)>(xs: seq<T>)
    ensures Difference(xs, xs) == []
  {
    DifferenceCovered(xs, xs);
  }

  /** A list that shares nothing with `ys` is unchanged. */
  lemma {:induction false} DifferenceDisjoint<T(!new)>(xs: seq<T>, ys: seq<T>)
    requires forall x :: x in xs ==> x !in ys
    ensures Difference(xs, ys) == xs
  {
    if xs != [] {
      DifferenceDisjoint(xs[1..], ys);
      assert xs == [xs[0]] + xs[1..];
    }
  }

  /** The added and the removed keys of one diff are disjoint. */
  lemma AddedRemovedDisjoint<T(!new)>(prev: seq<T>, cur: seq<T>)
    ensures forall x :: x in Difference(cur, prev) ==> x !in Difference(prev, cur)
  {
  }

  /** Conservation of unchanged keys: what is left of the current list once
      the added keys are taken out holds the same keys as what is left of the
      previous list once the removed keys are taken out — those of both lists. */
  lemma Conservation<T(!new)>(prev: seq<T>, cur: seq<T>)
    ensures forall x :: x in Difference(cur, Difference(cur, prev)) <==> x in cur && x in prev
    ensures forall x :: x in Difference(prev, Difference(prev, cur)) <==> x in cur && x in prev
  {
  }
}
