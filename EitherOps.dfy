/**
 * Point-free forms of the Either operations: each takes the operation's
 * arguments and returns a function of the Either alone, so that steps can be
 * composed or passed to a sequence pipeline. Each wrapper is followed by a lemma
 * stating what the returned function does on a Left and on a Right, and that
 * it forwards to the operation of the same name in module Either.
 */
module EitherOps {
  import opened Optionals
  import E = Either

  /** `fromOption` with a fallback supplier. */
  function FromOptionWith<L, R>(orElse: () -> L): Optional<R> -> E.Either<L, R>
  {
    o => E.FromOptionWith(o, orElse)
  }

  /** The returned function maps an empty option to a Left of the supplier's value and `Of(x)` to `Right(x)`. */
  lemma FromOptionWithApplied<L, R>(orElse: () -> L, o: Optional<R>)
    ensures o.Empty? ==> FromOptionWith(orElse)(o) == E.Left(orElse())
    ensures o.Of? ==> FromOptionWith(orElse)(o) == E.Right(o.value)
    ensures FromOptionWith(orElse)(o) == E.FromOptionWith(o, orElse)
  {
  }

  /** `fromOption` with a fallback value. */
  function FromOption<L, R>(orElse: L): Optional<R> -> E.Either<L, R>
  {
    o => E.FromOption(o, orElse)
  }

  /** The returned function maps an empty option to `Left(orElse)` and `Of(x)` to `Right(x)`. */
  lemma FromOptionApplied<L, R>(orElse: L, o: Optional<R>)
    ensures o.Empty? ==> FromOption(orElse)(o) == E.Left(orElse)
    ensures o.Of? ==> FromOption(orElse)(o) == E.Right(o.value)
    ensures FromOption(orElse)(o) == E.FromOption(o, orElse)
  {
  }

  /** `orElse` with a fallback function. */
  function OrElseWith<L, R>(f: L -> R): E.Either<L, R> -> R
  {
    e => E.OrElseWith(e, f)
  }

  /** The returned function sends each Left through `f` and unwraps each Right. */
  lemma OrElseWithApplied<L, R>(f: L -> R, e: E.Either<L, R>)
    ensures e.Left? ==> OrElseWith(f)(e) == f(e.l)
    ensures e.Right? ==> OrElseWith(f)(e) == e.r
    ensures OrElseWith(f)(e) == E.OrElseWith(e, f)
  {
  }

  /** `orElse` with a fallback value. */
  function OrElse<L, R>(v: R): E.Either<L, R> -> R
  {
    e => E.OrElse(e, v)
  }

  /** The returned function sends every Left to `v` and unwraps each Right. */
  lemma OrElseApplied<L, R>(v: R, e: E.Either<L, R>)
    ensures e.Left? ==> OrElse(v)(e) == v
    ensures e.Right? ==> OrElse(v)(e) == e.r
    ensures OrElse(v)(e) == E.OrElse(e, v)
  {
  }

  /** The point-free `map`. */
  function Map<L, R, RR>(f: R -> RR): E.Either<L, R> -> E.Either<L, RR>
  {
    e => E.Map(e, f)
  }

  /** The returned function passes Lefts through and maps Right payloads with `f`. */
  lemma MapApplied<L, R, RR>(f: R -> RR, e: E.Either<L, R>)
    ensures e.Left? ==> Map(f)(e) == E.Left(e.l)
    ensures e.Right? ==> Map(f)(e) == E.Right(f(e.r))
    ensures Map(f)(e) == E.Map(e, f)
  {
  }

  /** The point-free `rightMap`. */
  function RightMap<L, R, RR>(f: R -> RR): E.Either<L, R> -> E.Either<L, RR>
  {
    e => E.RightMap(e, f)
  }

  /** The returned function passes Lefts through unchanged and maps Right payloads with `f`. */
  lemma RightMapApplied<L, R, RR>(f: R -> RR, e: E.Either<L, R>)
    ensures e.Left? ==> RightMap(f)(e) == E.Left(e.l)
    ensures e.Right? ==> RightMap(f)(e) == E.Right(f(e.r))
    ensures RightMap(f)(e) == E.RightMap(e, f)
  {
  }

  /** The point-free `leftMap`. */
  function LeftMap<L, R, LL>(f: L -> LL): E.Either<L, R> -> E.Either<LL, R>
  {
    e => E.LeftMap(e, f)
  }

  /** The returned function maps Left payloads with `f` and passes Rights through unchanged. */
  lemma LeftMapApplied<L, R, LL>(f: L -> LL, e: E.Either<L, R>)
    ensures e.Left? ==> LeftMap(f)(e) == E.Left(f(e.l))
    ensures e.Right? ==> LeftMap(f)(e) == E.Right(e.r)
    ensures LeftMap(f)(e) == E.LeftMap(e, f)
  {
  }

  /** The point-free `bimap`. */
  function Bimap<L, R, LL, RR>(fl: L -> LL, fr: R -> RR): E.Either<L, R> -> E.Either<LL, RR>
  {
    e => E.Bimap(e, fl, fr)
  }

  /** The returned function maps each side with its own function and keeps the tag. */
  lemma BimapApplied<L, R, LL, RR>(fl: L -> LL, fr: R -> RR, e: E.Either<L, R>)
    ensures e.Left? ==> Bimap(fl, fr)(e) == E.Left(fl(e.l))
    ensures e.Right? ==> Bimap(fl, fr)(e) == E.Right(fr(e.r))
    ensures Bimap(fl, fr)(e) == E.Bimap(e, fl, fr)
  {
  }

  /** The point-free `flatMap`. */
  function FlatMap<L, R, RR>(f: R -> E.Either<L, RR>): E.Either<L, R> -> E.Either<L, RR>
  {
    e => E.FlatMap(e, f)
  }

  /** The returned function passes Lefts through and replaces `Right(x)` by `f(x)`. */
  lemma FlatMapApplied<L, R, RR>(f: R -> E.Either<L, RR>, e: E.Either<L, R>)
    ensures e.Left? ==> FlatMap(f)(e) == E.Left(e.l)
    ensures e.Right? ==> FlatMap(f)(e) == f(e.r)
    ensures FlatMap(f)(e) == E.FlatMap(e, f)
  {
  }

  /** The point-free `rightFlatMap`. */
  function RightFlatMap<L, R, RR>(f: R -> E.Either<L, RR>): E.Either<L, R> -> E.Either<L, RR>
  {
    e => E.RightFlatMap(e, f)
  }

  /** The returned function short-circuits on Lefts and replaces `Right(x)` by `f(x)`. */
  lemma RightFlatMapApplied<L, R, RR>(f: R -> E.Either<L, RR>, e: E.Either<L, R>)
    ensures e.Left? ==> RightFlatMap(f)(e) == E.Left(e.l)
    ensures e.Right? ==> RightFlatMap(f)(e) == f(e.r)
    ensures RightFlatMap(f)(e) == E.RightFlatMap(e, f)
  {
  }

  /** The point-free `leftFlatMap`. */
  function LeftFlatMap<L, R, LL>(f: L -> E.Either<LL, R>): E.Either<L, R> -> E.Either<LL, R>
  {
    e => E.LeftFlatMap(e, f)
  }

  /** The returned function replaces `Left(l)` by `f(l)` and passes Rights through. */
  lemma LeftFlatMapApplied<L, R, LL>(f: L -> E.Either<LL, R>, e: E.Either<L, R>)
    ensures e.Left? ==> LeftFlatMap(f)(e) == f(e.l)
    ensures e.Right? ==> LeftFlatMap(f)(e) == E.Right(e.r)
    ensures LeftFlatMap(f)(e) == E.LeftFlatMap(e, f)
  {
  }

  /** The point-free `biFlatMap`. */
  function BiFlatMap<L, R, LL, RR>(fl: L -> E.Either<LL, RR>, fr: R -> E.Either<LL, RR>): E.Either<L, R> -> E.Either<LL, RR>
  {
    e => E.BiFlatMap(e, fl, fr)
  }

  /** The returned function replaces `Left(l)` by `fl(l)` and `Right(x)` by `fr(x)`. */
  lemma BiFlatMapApplied<L, R, LL, RR>(fl: L -> E.Either<LL, RR>, fr: R -> E.Either<LL, RR>, e: E.Either<L, R>)
    ensures e.Left? ==> BiFlatMap(fl, fr)(e) == fl(e.l)
    ensures e.Right? ==> BiFlatMap(fl, fr)(e) == fr(e.r)
    ensures BiFlatMap(fl, fr)(e) == E.BiFlatMap(e, fl, fr)
  {
  }

  /** The point-free `fold`. */
  function Fold<L, R, V>(fl: L -> V, fr: R -> V): E.Either<L, R> -> V
  {
    e => E.Fold(e, fl, fr)
  }

  /** The returned function sends `Left(l)` to `fl(l)` and `Right(x)` to `fr(x)`. */
  lemma FoldApplied<L, R, V>(fl: L -> V, fr: R -> V, e: E.Either<L, R>)
    ensures e.Left? ==> Fold(fl, fr)(e) == fl(e.l)
    ensures e.Right? ==> Fold(fl, fr)(e) == fr(e.r)
    ensures Fold(fl, fr)(e) == E.Fold(e, fl, fr)
  {
  }
}
