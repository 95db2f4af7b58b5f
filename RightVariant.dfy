/**
 * What every operation does on a Right: the behaviour the Right class gives
 * each method. Where the operation takes a function for the Left side (or a
 * fallback), the lemma also states that the result does not depend on it.
 */
module RightVariant {
  import opened Optionals
  import E = Either

  /** bimap applies the Right function to the payload; the Left function is irrelevant. */
  lemma Bimap<L, R, LL, RR>(r: R, fl: L -> LL, fl': L -> LL, fr: R -> RR)
    ensures E.Bimap(E.Right(r), fl, fr) == E.Right(fr(r))
    ensures E.Bimap(E.Right(r), fl, fr) == E.Bimap(E.Right(r), fl', fr)
  {
  }

  /** map and rightMap map the payload; leftMap hands back the same Right, whatever the function is. */
  lemma Maps<L, R, LL, RR>(r: R, f: R -> RR, g: L -> LL)
    ensures E.Map(E.Right(r), f) == E.Either<L, RR>.Right(f(r))
    ensures E.RightMap(E.Right(r), f) == E.Either<L, RR>.Right(f(r))
    ensures E.LeftMap(E.Either<L, R>.Right(r), g) == E.Right(r)
  {
  }

  /** swap turns the Right into a Left with the same payload. */
  lemma Swap<L, R>(r: R)
    ensures E.Swap<L, R>(E.Right(r)) == E.Left(r)
  {
  }

  /** rightFlatMap returns the function's result in full, which may be a Left. */
  lemma RightFlatMap<L, R, RR>(r: R, f: R -> E.Either<L, RR>)
    ensures E.RightFlatMap(E.Right(r), f) == f(r)
    ensures E.FlatMap(E.Right(r), f) == f(r)
  {
  }

  /** leftFlatMap hands back the same Right, whatever the function is. */
  lemma LeftFlatMap<L, R, LL>(r: R, f: L -> E.Either<LL, R>)
    ensures E.LeftFlatMap(E.Right(r), f) == E.Right(r)
  {
  }

  /** biFlatMap returns the Right function's result; the Left function is irrelevant. */
  lemma BiFlatMap<L, R, LL, RR>(r: R, fl: L -> E.Either<LL, RR>, fl': L -> E.Either<LL, RR>, fr: R -> E.Either<LL, RR>)
    ensures E.BiFlatMap(E.Right(r), fl, fr) == fr(r)
    ensures E.BiFlatMap(E.Right(r), fl, fr) == E.BiFlatMap(E.Right(r), fl', fr)
  {
  }

  /** fold applies the Right function; the Left function is irrelevant. */
  lemma Fold<L, R, V>(r: R, fl: L -> V, fl': L -> V, fr: R -> V)
    ensures E.Fold(E.Right(r), fl, fr) == fr(r)
    ensures E.Fold(E.Right(r), fl, fr) == E.Fold(E.Right(r), fl', fr)
  {
  }

  /** The Right projections hold the payload, the Left projections are empty. */
  lemma Projections<L, R>(r: R)
    ensures E.RightStream<L, R>(E.Right(r)) == [r]
    ensures E.RightOption<L, R>(E.Right(r)) == Of(r)
    ensures E.LeftStream<L, R>(E.Right(r)) == []
    ensures E.LeftOption<L, R>(E.Right(r)) == Empty
    ensures E.Stream<L, R>(E.Right(r)) == [r]
    ensures E.Option<L, R>(E.Right(r)) == Of(r)
  {
  }

  /** Both orElse forms return the payload; the fallback has no influence. */
  lemma OrElse<L, R>(r: R, f: L -> R, v: R)
    ensures E.OrElseWith(E.Right(r), f) == r
    ensures E.OrElse<L, R>(E.Right(r), v) == r
  {
  }

  lemma Tags<L, R>(r: R)
    ensures !E.IsLeft<L, R>(E.Right(r))
    ensures E.IsRight<L, R>(E.Right(r))
  {
  }

  /** Two Rights are equal exactly when their payloads are, and a Right never equals a Left. */
  lemma Equality<L, R, T>(a: R, b: R, x: T, y: T)
    ensures (E.Either<L, R>.Right(a) == E.Either<L, R>.Right(b)) <==> a == b
    ensures E.Either<T, T>.Right(x) != E.Either<T, T>.Left(y)
  {
  }
}
