/**
 * The Either value type: exactly one of a Left payload or a Right payload.
 * Java dispatches every instance method to the Left or Right class; here
 * each operation is one function with a `match` over the two variants.
 * The per-variant behaviour is stated in modules LeftVariant and
 * RightVariant; this module states the laws of the interface itself.
 */
module Either {
  import opened Optionals

  datatype Either<L, R> = Left(l: L) | Right(r: R)

  /** Function.identity(), named so that every use denotes the same function value. */
  function Identity<T>(x: T): T { x }

  // ---------------------------------------------------------------------
  // Factories

  /** Either.left: a Left holding exactly `v`. */
  function LeftOf<L, R>(v: L): (e: Either<L, R>)
    ensures IsLeft(e) && !IsRight(e)
    ensures LeftOption(e) == Of(v) && RightOption(e) == Empty
  {
    Left(v)
  }

  /** Either.right: a Right holding exactly `v`. */
  function RightOf<L, R>(v: R): (e: Either<L, R>)
    ensures IsRight(e) && !IsLeft(e)
    ensures RightOption(e) == Of(v) && LeftOption(e) == Empty
  {
    Right(v)
  }

  /** Either.fromOption with a fallback value: the right projection gives the option back. */
  function FromOption<LL, RR>(value: Optional<RR>, orElse: LL): (e: Either<LL, RR>)
    ensures RightOption(e) == value
    ensures LeftOption(e) == if value.Empty? then Of(orElse) else Empty
  {
    if value.Of? then RightOf(value.value) else LeftOf(orElse)
  }

  /** Either.fromOption with a fallback supplier, which is only consulted when `value` is empty. */
  function FromOptionWith<LL, RR>(value: Optional<RR>, orElse: () -> LL): (e: Either<LL, RR>)
    ensures RightOption(e) == value
    ensures LeftOption(e) == if value.Empty? then Of(orElse()) else Empty
  {
    if value.Of? then RightOf(value.value) else LeftOf(orElse())
  }

  // ---------------------------------------------------------------------
  // The map family

  /** bimap: maps whichever payload is present with the function for its side; the tag is kept. */
  function Bimap<L, R, LL, RR>(e: Either<L, R>, fl: L -> LL, fr: R -> RR): (r: Either<LL, RR>)
    ensures IsLeft(r) == IsLeft(e)
    ensures LeftOption(r) == Optionals.Map(LeftOption(e), fl)
    ensures RightOption(r) == Optionals.Map(RightOption(e), fr)
  {
    match e
    case Left(l) => LeftOf(fl(l))
    case Right(x) => RightOf(fr(x))
  }

  /** map: the Right-side mapping under its short name; the Left side passes through. */
  function Map<L, R, RR>(e: Either<L, R>, f: R -> RR): (r: Either<L, RR>)
    ensures LeftOption(r) == LeftOption(e)
    ensures RightOption(r) == Optionals.Map(RightOption(e), f)
  {
    RightMap(e, f)
  }

  /** rightMap: transforms the Right payload only; the Left side passes through. */
  function RightMap<L, R, RR>(e: Either<L, R>, f: R -> RR): (r: Either<L, RR>)
    ensures LeftOption(r) == LeftOption(e)
    ensures RightOption(r) == Optionals.Map(RightOption(e), f)
  {
    Bimap(e, Identity, f)
  }

  /** leftMap: transforms the Left payload only; the Right side passes through. */
  function LeftMap<L, R, LL>(e: Either<L, R>, f: L -> LL): (r: Either<LL, R>)
    ensures RightOption(r) == RightOption(e)
    ensures LeftOption(r) == Optionals.Map(LeftOption(e), f)
  {
    Bimap(e, f, Identity)
  }

  // ---------------------------------------------------------------------
  // The flat-map family

  /** flatMap: rightFlatMap under its short name. */
  function FlatMap<L, R, RR>(e: Either<L, R>, f: R -> Either<L, RR>): (r: Either<L, RR>)
    ensures IsLeft(e) ==> LeftOption(r) == LeftOption(e)
    ensures IsRight(e) ==> r == f(RightOption(e).value)
  {
    RightFlatMap(e, f)
  }

  /** rightFlatMap: a Left short-circuits with its payload kept; a Right is replaced in full by `f` of its payload. */
  function RightFlatMap<L, R, RR>(e: Either<L, R>, f: R -> Either<L, RR>): (r: Either<L, RR>)
    ensures IsLeft(e) ==> LeftOption(r) == LeftOption(e)
    ensures IsRight(e) ==> r == f(RightOption(e).value)
  {
    match e
    case Left(l) => Left(l)
    case Right(x) => f(x)
  }

  /** leftFlatMap: a Right passes through with its payload kept; a Left is replaced in full by `f` of its payload. */
  function LeftFlatMap<L, R, LL>(e: Either<L, R>, f: L -> Either<LL, R>): (r: Either<LL, R>)
    ensures IsRight(e) ==> RightOption(r) == RightOption(e)
    ensures IsLeft(e) ==> r == f(LeftOption(e).value)
  {
    match e
    case Left(l) => f(l)
    case Right(x) => Right(x)
  }

  /** biFlatMap: the result is, in full, the present payload's side function applied to it. */
  function BiFlatMap<L, R, LL, RR>(e: Either<L, R>, fl: L -> Either<LL, RR>, fr: R -> Either<LL, RR>): (r: Either<LL, RR>)
    ensures IsLeft(e) ==> r == fl(LeftOption(e).value)
    ensures IsRight(e) ==> r == fr(RightOption(e).value)
  {
    match e
    case Left(l) => fl(l)
    case Right(x) => fr(x)
  }

  // ---------------------------------------------------------------------
  // Swap, fold and the projections

  /** swap: the same payload under the other tag. */
  function Swap<L, R>(e: Either<L, R>): (r: Either<R, L>)
    ensures LeftOption(r) == RightOption(e)
    ensures RightOption(r) == LeftOption(e)
  {
    match e
    case Left(l) => RightOf(l)
    case Right(x) => LeftOf(x)
  }

  /** fold: reduces to a plain value with the present payload's side function. */
  function Fold<L, R, V>(e: Either<L, R>, fl: L -> V, fr: R -> V): (v: V)
    ensures IsLeft(e) ==> v == fl(LeftOption(e).value)
    ensures IsRight(e) ==> v == fr(RightOption(e).value)
  {
    match e
    case Left(l) => fl(l)
    case Right(x) => fr(x)
  }

  /** stream: the right stream under its short name. */
  function Stream<L, R>(e: Either<L, R>): (s: seq<R>)
    ensures |s| <= 1
    ensures s == if RightOption(e).Of? then [RightOption(e).value] else []
  {
    RightStream(e)
  }

  /** rightStream: the Right payload as a stream of zero or one element. */
  function RightStream<L, R>(e: Either<L, R>): (s: seq<R>)
    ensures |s| <= 1
    ensures s == if RightOption(e).Of? then [RightOption(e).value] else []
  {
    match e
    case Left(_) => []
    case Right(x) => [x]
  }

  /** leftStream: the Left payload as a stream of zero or one element. */
  function LeftStream<L, R>(e: Either<L, R>): (s: seq<L>)
    ensures |s| <= 1
    ensures s == if LeftOption(e).Of? then [LeftOption(e).value] else []
  {
    match e
    case Left(l) => [l]
    case Right(_) => []
  }

  /** option: the right option under its short name; it agrees with the right stream. */
  function Option<L, R>(e: Either<L, R>): (o: Optional<R>)
    ensures o.Of? <==> IsRight(e)
    ensures RightStream(e) == if o.Of? then [o.value] else []
  {
    RightOption(e)
  }

  /** rightOption: present exactly when `e` is a Right. */
  function RightOption<L, R>(e: Either<L, R>): (o: Optional<R>)
    ensures o.Of? <==> IsRight(e)
  {
    match e
    case Left(_) => Empty
    case Right(x) => Of(x)
  }

  /** leftOption: present exactly when `e` is a Left. */
  function LeftOption<L, R>(e: Either<L, R>): (o: Optional<L>)
    ensures o.Of? <==> IsLeft(e)
  {
    match e
    case Left(l) => Of(l)
    case Right(_) => Empty
  }

  /** orElse(Function): the Right payload, or the fallback function applied to the Left payload. */
  function OrElseWith<L, R>(e: Either<L, R>, f: L -> R): (r: R)
    ensures IsRight(e) ==> r == RightOption(e).value
    ensures IsLeft(e) ==> r == f(LeftOption(e).value)
  {
    match e
    case Left(l) => f(l)
    case Right(x) => x
  }

  /** orElse(R): the Right payload, or the fallback value. */
  function OrElse<L, R>(e: Either<L, R>, v: R): (r: R)
    ensures IsRight(e) ==> r == RightOption(e).value
    ensures IsLeft(e) ==> r == v
  {
    match e
    case Left(_) => v
    case Right(x) => x
  }

  predicate IsLeft<L, R>(e: Either<L, R>)
  {
    match e
    case Left(_) => true
    case Right(_) => false
  }

  /** isRight: holds exactly when isLeft does not. */
  predicate IsRight<L, R>(e: Either<L, R>): (b: bool)
    ensures b <==> !IsLeft(e)
  {
    match e
    case Left(_) => false
    case Right(_) => true
  }

  // ---------------------------------------------------------------------
  // Laws of the interface

  /** map is rightMap, which is bimap with the identity on the Left side; leftMap is bimap with the identity on the Right side. */
  lemma MapFamilyAliases<L, R, LL, RR>(e: Either<L, R>, f: R -> RR, g: L -> LL)
    ensures Map(e, f) == RightMap(e, f) == Bimap(e, Identity, f)
    ensures LeftMap(e, g) == Bimap(e, g, Identity)
  {
  }

  /** Mapping either side with the identity gives back the same value. */
  lemma IdentityLaws<L, R>(e: Either<L, R>)
    ensures Map(e, Identity) == e
    ensures RightMap(e, Identity) == e
    ensures LeftMap(e, Identity) == e
    ensures Bimap(e, Identity, Identity) == e
  {
  }

  /** flatMap, stream and option are the right-biased operations under shorter names. */
  lemma RightBiasedAliases<L, R, RR>(e: Either<L, R>, f: R -> Either<L, RR>)
    ensures FlatMap(e, f) == RightFlatMap(e, f)
    ensures Stream(e) == RightStream(e)
    ensures Option(e) == RightOption(e)
  {
  }

  /** Swapping twice gives back the original value. */
  lemma SwapInvolution<L, R>(e: Either<L, R>)
    ensures Swap(Swap(e)) == e
  {
  }

  /** Exactly one of isLeft and isRight holds. */
  lemma TagsExclusiveAndExhaustive<L, R>(e: Either<L, R>)
    ensures IsLeft(e) != IsRight(e)
  {
  }

  /** Exactly one of the two options is present, and the two streams hold one element between them. */
  lemma ProjectionsExclusiveAndExhaustive<L, R>(e: Either<L, R>)
    ensures LeftOption(e).Of? != RightOption(e).Of?
    ensures |RightStream(e)| + |LeftStream(e)| == 1
  {
  }

  /**
   * Fold is the universal eliminator: the factories rebuild `e`, and every
   * other operation is a fold of the factories and the given functions.
   */
  lemma FoldIsUniversal<L, R, LL, RR>(e: Either<L, R>, fl: L -> LL, fr: R -> RR, f: L -> R, v: R,
                                      rf: R -> Either<L, RR>, lf: L -> Either<LL, R>,
                                      bl: L -> Either<LL, RR>, br: R -> Either<LL, RR>)
    ensures Fold(e, LeftOf, RightOf) == e
    ensures Bimap(e, fl, fr) == Fold(e, (x: L) => LeftOf(fl(x)), (y: R) => RightOf(fr(y)))
    ensures Swap(e) == Fold(e, RightOf, LeftOf)
    ensures RightFlatMap(e, rf) == Fold(e, LeftOf, rf)
    ensures FlatMap(e, rf) == Fold(e, LeftOf, rf)
    ensures LeftFlatMap(e, lf) == Fold(e, lf, RightOf)
    ensures BiFlatMap(e, bl, br) == Fold(e, bl, br)
    ensures RightOption(e) == Fold(e, (_: L) => Empty, (x: R) => Of(x))
    ensures LeftOption(e) == Fold(e, (x: L) => Of(x), (_: R) => Empty)
    ensures RightStream(e) == Fold(e, (_: L) => [], (x: R) => [x])
    ensures LeftStream(e) == Fold(e, (x: L) => [x], (_: R) => [])
    ensures OrElseWith(e, f) == Fold(e, f, Identity)
    ensures OrElse(e, v) == Fold(e, (_: L) => v, Identity)
    ensures IsLeft(e) == Fold(e, (_: L) => true, (_: R) => false)
  {
  }
}
