/**
 * What every operation does on a Left: the behaviour the Left class gives
 * each method. Where the operation takes a function for the Right side,
 * the lemma also states that the result does not depend on it.
 */
module LeftVariant {
  import opened Optionals
  import E = Either

  /** bimap applies the Left function to the payload; the Right function is irrelevant. */
  lemma Bimap<L, R, LL, RR>(l: L, fl: L -> LL, fr: R -> RR, fr': R -> RR)
    ensures E.Bimap(E.Left(l), fl, fr) == E.Left(fl(l))
    ensures E.Bimap(E.Left(l), fl, fr) == E.Bimap(E.Left(l), fl, fr')
  {
  }

  /** map and rightMap hand back the same Left, whatever the function is; leftMap maps the payload. */
  lemma Maps<L, R, LL, RR>(l: L, f: R -> RR, g: L -> LL)
    ensures E.Map(E.Left(l), f) == E.Left(l)
    ensures E.RightMap(E.Left(l), f) == E.Left(l)
    ensures E.LeftMap(E.Left(l), g) == E.Either<LL, R>.Left(g(l))
  {
  }

  /** rightFlatMap hands back the same Left, whatever the function is. */
  lemma RightFlatMap<L, R, RR>(l: L, f: R -> E.Either<L, RR>)
    ensures E.RightFlatMap(E.Left(l), f) == E.Left(l)
    ensures E.FlatMap(E.Left(l), f) == E.Left(l)
  {
  }

  /** leftFlatMap returns the function's result in full, which may be a Right. */
  lemma LeftFlatMap<L, R, LL>(l: L, f: L -> E.Either<LL, R>)
    ensures E.LeftFlatMap(E.Left(l), f) == f(l)
  {
  }

  /** biFlatMap returns the Left function's result; the Right function is irrelevant. */
  lemma BiFlatMap<L, R, LL, RR>(l: L, fl: L -> E.Either<LL, RR>, fr: R -> E.Either<LL, RR>, fr': R -> E.Either<LL, RR>)
    ensures E.BiFlatMap(E.Left(l), fl, fr) == fl(l)
    ensures E.BiFlatMap(E.Left(l), fl, fr) == E.BiFlatMap(E.Left(l), fl, fr')
  {
  }

  /** swap turns the Left into a Right with the same payload. */
  lemma Swap<L, R>(l: L)
    ensures E.Swap<L, R>(E.Left(l)) == E.Right(l)
  {
  }

  /** fold applies the Left function; the Right function is irrelevant. */
  lemma Fold<L, R, V>(l: L, fl: L -> V, fr: R -> V, fr': R -> V)
    ensures E.Fold(E.Left(l), fl, fr) == fl(l)
    ensures E.Fold(E.Left(l), fl, fr) == E.Fold(E.Left(l), fl, fr')
  {
  }

  /** The Left projections hold the payload, the Right projections are empty. */
  lemma Projections<L, R>(l: L)
    ensures E.LeftStream<L, R>(E.Left(l)) == [l]
    ensures E.LeftOption<L, R>(E.Left(l)) == Of(l)
    ensures E.RightStream<L, R>(E.Left(l)) == []
    ensures E.RightOption<L, R>(E.Left(l)) == Empty
    ensures E.Stream<L, R>(E.Left(l)) == []
    ensures E.Option<L, R>(E.Left(l)) == Empty
  {
  }

  /** Both orElse forms use the fallback. */
  lemma OrElse<L, R>(l: L, f: L -> R, v: R)
    ensures E.OrElseWith(E.Left(l), f) == f(l)
    ensures E.OrElse(E.Left(l), v) == v
  {
  }

  lemma Tags<L, R>(l: L)
    ensures E.IsLeft<L, R>(E.Left(l))
    ensures !E.IsRight<L, R>(E.Left(l))
  {
  }

  /** Two Lefts are equal exactly when their payloads are, and a Left never equals a Right. */
  lemma Equality<L, R, T>(a: L, b: L, x: T, y: T)
    ensures (E.Either<L, R>.Left(a) == E.Either<L, R>.Left(b)) <==> a == b
    ensures E.Either<T, T>.Left(x) != E.Either<T, T>.Right(y)
  {
  }
}
