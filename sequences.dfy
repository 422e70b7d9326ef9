/** The last element of a sequence that satisfies a predicate. */
module Sequences {
  import opened Wrappers

  /** The index of the last element of `xs` satisfying `p`, if there is one. */
  function LastWhere<T>(xs: seq<T>, p: T -> bool): (k: Option<nat>)
    ensures k.Some? ==> k.value < |xs| && p(xs[k.value])
    ensures k.Some? ==> forall j | k.value < j < |xs| :: !p(xs[j])
    ensures k.None? ==> forall j | 0 <= j < |xs| :: !p(xs[j])
  {
    if xs == [] then None
    else if p(xs[|xs| - 1]) then Some(|xs| - 1)
    else LastWhere(xs[..|xs| - 1], p)
  }

  /** Any index that is a match with no match after it is the one `LastWhere` finds. */
  lemma LastWhereIsLast<T>(xs: seq<T>, p: T -> bool, k: nat)
    requires k < |xs| && p(xs[k])
    requires forall j | k < j < |xs| :: !p(xs[j])
    ensures LastWhere(xs, p) == Some(k)
  {
  }

  /** How the last match of `[x] + xs` follows from the last match of `xs`. */
  lemma LastWhereCons<T>(x: T, xs: seq<T>, p: T -> bool)
    ensures LastWhere([x] + xs, p) ==
      match LastWhere(xs, p)
      case Some(k) => Some(k + 1)
      case None => if p(x) then Some(0) else None
  {
    var ys := [x] + xs;
    match LastWhere(xs, p)
    case Some(k) =>
      assert ys[k + 1] == xs[k];
      forall j | k + 1 < j < |ys| ensures !p(ys[j]) {
        assert ys[j] == xs[j - 1];
      }
      LastWhereIsLast(ys, p, k + 1);
    case None =>
      forall j | 0 < j < |ys| ensures !p(ys[j]) {
        assert ys[j] == xs[j - 1];
      }
      assert ys[0] == x;
      if p(x) {
        LastWhereIsLast(ys, p, 0);
      }
  }
}
