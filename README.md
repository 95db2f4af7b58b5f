# Either: a verified model of a two-variant value type

This project models the `se.fnord.either` library in Dafny. The library
provides `Either<L, R>`, an immutable value that holds exactly one of a Left
payload (by convention a failure) or a Right payload (by convention a
success). It also provides the combinators over that value: the map and
flat-map families, `swap`, `fold`, the stream and optional projections,
`orElse`, and the point-free wrappers of `EitherOps`.

Layout, one module per source file:

- `Optionals.dfy`: module `Optionals`. `Optional<T>` (`Empty | Of(value)`) stands in for `java.util.Optional`, with its `map`.
- `Either.dfy`: module `Either`. It holds `datatype Either<L, R> = Left(l) | Right(r)` and every operation of the `Either` interface. Java's virtual dispatch to the `Left` and `Right` classes becomes one `match` per operation. The laws the interface promises are also here: the aliases, the identity laws, the swap involution, exclusive and exhaustive tags and projections, and fold as the universal eliminator.
- `LeftVariant.dfy` / `RightVariant.dfy`: what each operation does on a Left / on a Right, as the `Left` and `Right` classes implement it.
- `EitherOps.dfy`: the point-free wrappers. Each returns a Dafny function value. A lemma beside each states what that function does on a Left and on a Right, and that it agrees with the instance operation.
- `Pipelines.dfy`: stream pipelines over sequences of `Either` values. `ReplaceFailing` (`map(EitherOps.orElse(...))`) and `KeepSuccesses` (`flatMap(Either::stream)`) are the two pipelines of the repository's usage examples. `KeepFailures` (flat-mapping `leftStream`) and `RightChain` (a chain of `EitherOps.rightFlatMap` steps) are their counterparts for the Left side and for chained right-biased steps; no source file writes them. Streams are modelled as finite sequences.

Several contracts state an operation through the two projections `LeftOption` and `RightOption`. For example, `RightOption(FromOption(o, x)) == o`, and `bimap` maps each present projection with `Optional.map`. Each method that the `Left` and `Right` classes implement has a per-variant lemma in `LeftVariant` or `RightVariant`. So do the default methods `map`, `rightMap`, `leftMap` (the `Maps` lemmas), `stream` and `option` (the `Projections` lemmas). Where a lemma's result does not mention one of the operation's functions, the lemma holds whatever that function is. Where `bimap`, `biFlatMap` and `fold` take a function for the absent side, their lemmas take two such functions and show that the result is the same for both. This is how the model says the function for the absent side is never used.

`isLeft` carries no contract of its own, because a contract through the projections would make the specifications circular. `LeftVariant.Tags`, `RightVariant.Tags` and `Either.IsRight` state it. The wrappers in `EitherOps` return function values. Each wrapper is stated by the `<Name>Applied` lemma beside it, which holds for every input of the returned function.

## Model

| member | source | states |
|---|---|---|
| Either.LeftOf | src/main/java/se/fnord/either/Either.java:141-143 | `left(v)` is a Left and not a Right, its left option holds exactly `v` and its right option is empty |
| Either.RightOf | src/main/java/se/fnord/either/Either.java:152-154 | `right(v)` is a Right and not a Left, its right option holds exactly `v` and its left option is empty |
| Either.FromOption | src/main/java/se/fnord/either/Either.java:130-132 | the right projection of `fromOption(o, x)` is `o` itself; the left projection holds `x` exactly when `o` is empty |
| Either.FromOptionWith | src/main/java/se/fnord/either/Either.java:117-119 | as `fromOption` with a value, the Left payload being the supplier's result and only when the option is empty |
| Either.Bimap | src/main/java/se/fnord/either/Either.java:167 | `bimap` keeps the tag and maps the left projection with `fl` and the right projection with `fr` |
| Either.RightMap | src/main/java/se/fnord/either/Either.java:160-162 | `rightMap(f)` leaves the left projection as it was and maps the right projection with `f` |
| Either.LeftMap | src/main/java/se/fnord/either/Either.java:163-165 | `leftMap(f)` leaves the right projection as it was and maps the left projection with `f` |
| Either.MapFamilyAliases | src/main/java/se/fnord/either/Either.java:156-165 | `map(f) == rightMap(f) == bimap(identity, f)` and `leftMap(g) == bimap(g, identity)` |
| Either.IdentityLaws | src/main/java/se/fnord/either/Either.java:156-165 | mapping with the identity (`map`, `rightMap`, `leftMap`, `bimap`) returns the same value |
| Either.RightBiasedAliases | src/main/java/se/fnord/either/Either.java:169-198 | `flatMap`, `stream` and `option` coincide with `rightFlatMap`, `rightStream` and `rightOption` |
| Either.Swap | src/main/java/se/fnord/either/Either.java:178-183 | `swap` exchanges the two projections: the new left option is the old right option and vice versa |
| Either.SwapInvolution | src/main/java/se/fnord/either/Either.java:178-183 | `swap(swap(e)) == e` for every `e` |
| Either.RightStream | src/main/java/se/fnord/either/Either.java:192 | the right stream has at most one element, and it is the right option's value when that is present |
| Either.LeftStream | src/main/java/se/fnord/either/Either.java:193 | the left stream has at most one element, and it is the left option's value when that is present |
| Either.RightOption | src/main/java/se/fnord/either/Either.java:200 | the right option is present iff the value is a Right |
| Either.LeftOption | src/main/java/se/fnord/either/Either.java:201 | the left option is present iff the value is a Left |
| Either.Map | src/main/java/se/fnord/either/Either.java:156-158 | `map(f)` leaves the left option as it was and maps the right option with `f` |
| Either.RightFlatMap | src/main/java/se/fnord/either/Either.java:173 | on a Left, `rightFlatMap(f)` keeps the left option; on a Right it is `f` applied to the right payload |
| Either.FlatMap | src/main/java/se/fnord/either/Either.java:169-171 | on a Left, `flatMap(f)` keeps the left option; on a Right it is `f` applied to the right payload |
| Either.LeftFlatMap | src/main/java/se/fnord/either/Either.java:174 | on a Right, `leftFlatMap(f)` keeps the right option; on a Left it is `f` applied to the left payload |
| Either.BiFlatMap | src/main/java/se/fnord/either/Either.java:176 | `biFlatMap(fl, fr)` is `fl` of the left payload on a Left and `fr` of the right payload on a Right |
| Either.Fold | src/main/java/se/fnord/either/Either.java:185 | `fold(fl, fr)` is `fl` of the left payload on a Left and `fr` of the right payload on a Right |
| Either.Stream | src/main/java/se/fnord/either/Either.java:188-190 | `stream()` has at most one element: the right payload when there is one, and nothing otherwise |
| Either.Option | src/main/java/se/fnord/either/Either.java:196-198 | `option()` is present iff the value is a Right, and agrees with the right stream |
| Either.OrElseWith | src/main/java/se/fnord/either/Either.java:203 | `orElse(f)` is the right payload on a Right and `f` of the left payload on a Left |
| Either.OrElse | src/main/java/se/fnord/either/Either.java:204 | `orElse(v)` is the right payload on a Right and `v` on a Left |
| Either.IsRight | src/main/java/se/fnord/either/Either.java:207 | `isRight()` holds iff `isLeft()` does not |
| Either.TagsExclusiveAndExhaustive | src/main/java/se/fnord/either/Either.java:206-207 | exactly one of `isLeft()` and `isRight()` is true |
| Either.ProjectionsExclusiveAndExhaustive | src/main/java/se/fnord/either/Either.java:192-201 | exactly one of the two options is present, and `|rightStream| + |leftStream| == 1` |
| Either.FoldIsUniversal | src/main/java/se/fnord/either/Either.java:185 | folding with the two factories rebuilds `e`; `bimap`, `swap`, the four flat-map forms, the four stream and option projections, both `orElse` forms and `isLeft` are folds |
| LeftVariant.Maps | src/main/java/se/fnord/either/Either.java:156-165 | on `Left(l)`: `map(f)` and `rightMap(f)` give `Left(l)` back whatever `f` is, and `leftMap(g)` gives `Left(g(l))` |
| LeftVariant.Bimap | src/main/java/se/fnord/either/Left.java:15-18 | `Left(l).bimap(fl, fr) == Left(fl(l))`, the same for any `fr` |
| LeftVariant.RightFlatMap | src/main/java/se/fnord/either/Left.java:20-24 | `rightFlatMap(f)` and `flatMap(f)` on `Left(l)` give `Left(l)` back, whatever `f` is |
| LeftVariant.LeftFlatMap | src/main/java/se/fnord/either/Left.java:26-30 | `Left(l).leftFlatMap(f) == f(l)` in full, so the result may be a Right |
| LeftVariant.BiFlatMap | src/main/java/se/fnord/either/Left.java:32-36 | `Left(l).biFlatMap(fl, fr) == fl(l)`, the same for any `fr` |
| LeftVariant.Swap | src/main/java/se/fnord/either/Left.java:38-41 | `Left(v).swap() == Right(v)` |
| LeftVariant.Fold | src/main/java/se/fnord/either/Left.java:43-46 | `Left(l).fold(fl, fr) == fl(l)`, the same for any `fr` |
| LeftVariant.Projections | src/main/java/se/fnord/either/Left.java:48-66 | on `Left(l)`: left stream `[l]`, left option `Of(l)`, right stream, right option, `stream()` and `option()` all empty |
| LeftVariant.OrElse | src/main/java/se/fnord/either/Left.java:68-76 | `Left(l).orElse(f) == f(l)` and `Left(l).orElse(v) == v` |
| LeftVariant.Tags | src/main/java/se/fnord/either/Left.java:78-86 | a Left is left and not right |
| LeftVariant.Equality | src/main/java/se/fnord/either/Left.java:93-101 | for every `Either<L, R>`, two Lefts are equal iff their payloads are; a Left never equals a Right, even when both sides have the same type |
| RightVariant.Maps | src/main/java/se/fnord/either/Either.java:156-165 | on `Right(r)`: `map(f)` and `rightMap(f)` give `Right(f(r))`, and `leftMap(g)` gives `Right(r)` back whatever `g` is |
| RightVariant.Bimap | src/main/java/se/fnord/either/Right.java:15-18 | `Right(r).bimap(fl, fr) == Right(fr(r))`, the same for any `fl` |
| RightVariant.Swap | src/main/java/se/fnord/either/Right.java:20-23 | `Right(v).swap() == Left(v)` |
| RightVariant.RightFlatMap | src/main/java/se/fnord/either/Right.java:25-29 | `rightFlatMap(f)` and `flatMap(f)` on `Right(r)` give `f(r)` in full, so the result may be a Left |
| RightVariant.LeftFlatMap | src/main/java/se/fnord/either/Right.java:31-35 | `leftFlatMap(f)` on `Right(r)` gives `Right(r)` back, whatever `f` is |
| RightVariant.BiFlatMap | src/main/java/se/fnord/either/Right.java:37-41 | `Right(r).biFlatMap(fl, fr) == fr(r)`, the same for any `fl` |
| RightVariant.Fold | src/main/java/se/fnord/either/Right.java:43-46 | `Right(r).fold(fl, fr) == fr(r)`, the same for any `fl` |
| RightVariant.Projections | src/main/java/se/fnord/either/Right.java:48-66 | on `Right(r)`: right stream and `stream()` are `[r]`, right option and `option()` are `Of(r)`, left stream and left option are empty |
| RightVariant.OrElse | src/main/java/se/fnord/either/Right.java:68-76 | `Right(r).orElse(f) == r` and `Right(r).orElse(v) == r`: the fallback has no influence |
| RightVariant.Tags | src/main/java/se/fnord/either/Right.java:78-86 | a Right is right and not left |
| RightVariant.Equality | src/main/java/se/fnord/either/Right.java:93-101 | for every `Either<L, R>`, two Rights are equal iff their payloads are; a Right never equals a Left, even when both sides have the same type |
| EitherOps.FromOptionWithApplied | src/main/java/se/fnord/either/EitherOps.java:33-35 | for every input, the function returned by the wrapper maps empty to a Left of the supplier's value and `Of(x)` to `Right(x)`, and agrees with `Either.fromOption` |
| EitherOps.FromOptionApplied | src/main/java/se/fnord/either/EitherOps.java:37-39 | for every input, the function returned by the wrapper maps empty to `Left(orElse)` and `Of(x)` to `Right(x)`, and agrees with `Either.fromOption` |
| EitherOps.OrElseWithApplied | src/main/java/se/fnord/either/EitherOps.java:41-43 | for every input, the function returned by the wrapper sends `Left(l)` to `f(l)` and `Right(x)` to `x`, and agrees with `e.orElse(f)` |
| EitherOps.OrElseApplied | src/main/java/se/fnord/either/EitherOps.java:45-47 | for every input, the function returned by the wrapper sends every Left to `v` and `Right(x)` to `x`, and agrees with `e.orElse(v)` |
| EitherOps.MapApplied | src/main/java/se/fnord/either/EitherOps.java:49-51 | for every input, the function returned by the wrapper passes Lefts through and maps Right payloads with `f`, and agrees with `e.map(f)` |
| EitherOps.RightMapApplied | src/main/java/se/fnord/either/EitherOps.java:53-55 | for every input, the function returned by the wrapper passes Lefts through and maps Right payloads with `f`, and agrees with `e.rightMap(f)` |
| EitherOps.LeftMapApplied | src/main/java/se/fnord/either/EitherOps.java:57-59 | for every input, the function returned by the wrapper maps Left payloads with `f` and passes Rights through, and agrees with `e.leftMap(f)` |
| EitherOps.BimapApplied | src/main/java/se/fnord/either/EitherOps.java:61-63 | for every input, the function returned by the wrapper maps each side with its function keeping the tag, and agrees with `e.bimap(fl, fr)` |
| EitherOps.FlatMapApplied | src/main/java/se/fnord/either/EitherOps.java:65-67 | for every input, the function returned by the wrapper passes Lefts through and replaces `Right(x)` by `f(x)`, and agrees with `e.flatMap(f)` |
| EitherOps.RightFlatMapApplied | src/main/java/se/fnord/either/EitherOps.java:69-71 | for every input, the function returned by the wrapper passes Lefts through and replaces `Right(x)` by `f(x)`, and agrees with `e.rightFlatMap(f)` |
| EitherOps.LeftFlatMapApplied | src/main/java/se/fnord/either/EitherOps.java:73-75 | for every input, the function returned by the wrapper replaces `Left(l)` by `f(l)` and passes Rights through, and agrees with `e.leftFlatMap(f)` |
| EitherOps.BiFlatMapApplied | src/main/java/se/fnord/either/EitherOps.java:77-79 | for every input, the function returned by the wrapper replaces `Left(l)` by `fl(l)` and `Right(x)` by `fr(x)`, and agrees with `e.biFlatMap(fl, fr)` |
| EitherOps.FoldApplied | src/main/java/se/fnord/either/EitherOps.java:81-83 | for every input, the function returned by the wrapper sends `Left(l)` to `fl(l)` and `Right(x)` to `fr(x)`, and agrees with `e.fold(fl, fr)` |
| Pipelines.ReplaceFailing | src/test/java/se/fnord/either/Examples.java:27-31 | mapping `orElse(f)` over a sequence keeps its length and order, replaces each `Left(l)` by `f(l)` and unwraps each Right |
| Pipelines.KeepSuccesses | src/test/java/se/fnord/either/Examples.java:14-18 | `flatMap(Either::stream)` is no longer than its input, every element is the payload of some Right in the input, and every Right payload in the input occurs in it; order and multiplicity are pinned by `KeepSuccessesSingleton` and `KeepSuccessesAppend` |
| Pipelines.KeepFailures | src/main/java/se/fnord/either/Either.java:193 | flat-mapping `leftStream` is no longer than its input, every element is the payload of some Left in the input, and every Left payload in the input occurs in it; order and multiplicity are pinned by `KeepFailuresSingleton` and `KeepFailuresAppend` |
| Pipelines.KeepSuccessesSingleton | src/test/java/se/fnord/either/Examples.java:14-18 | keeping the successes of one element gives exactly that element's `stream()` |
| Pipelines.KeepSuccessesAppend | src/test/java/se/fnord/either/Examples.java:14-18 | keeping the successes of a concatenation gives the concatenation of the kept successes of each part, so order and multiplicity are preserved |
| Pipelines.KeepFailuresSingleton | src/main/java/se/fnord/either/Either.java:193 | keeping the failures of one element gives exactly its `leftStream()` |
| Pipelines.KeepFailuresAppend | src/main/java/se/fnord/either/Either.java:193 | keeping the failures of a concatenation gives the concatenation of the kept failures of each part, so order and multiplicity are preserved |
| Pipelines.SuccessesAndFailuresPartition | src/main/java/se/fnord/either/Either.java:192-193 | over a sequence, the successes and the failures together number exactly its length |
| Pipelines.NoFailuresPipelinesAgree | src/test/java/se/fnord/either/Examples.java:10-34 | on a sequence with no Left, keeping the successes and replacing the failures give the same result |
| Pipelines.LeftShortCircuitsChain | src/main/java/se/fnord/either/Left.java:20-24 | a Left fed through any chain of `rightFlatMap` steps comes out unchanged |
| Pipelines.ParsedExamplePipelines | src/test/java/se/fnord/either/Examples.java:10-34 | for the outcomes of parsing `"0","1","2","Fnord"`, the successes are `[0, 1, 2]` and defaulting failures to -1 gives `[0, 1, 2, -1]` |

## Left out

- `fromSupplier`, `fromFunction`, `fromBiFunction` (`Either.java:18-106`) and their `EitherOps` wrappers (`EitherOps.java:9-31`) are left out. They convert a thrown Java exception into a Left, and there are no exceptions to model them with. The checked/unchecked split between their overloads is Java typing.
- `Integer.parseInt` in the usage examples is left out. `Pipelines.ParsedExample` supplies the parse outcomes directly, carrying the failure as the rejected text instead of the exception object.
- `toString` is left out because it concatenates the payload's Java `toString`. `hashCode` is left out because it delegates to `Objects.hashCode`.
- `ThrowingFunction`, `ThrowingBiFunction`, `EitherF` and `FoldF` are function-type aliases, replaced by Dafny arrow types. `ThrowingSupplier` and `RightF` are not part of this model.
- Reference identity is not modelled. Where `Left.rightFlatMap` and `Right.leftFlatMap` return `this` through an unchecked cast, the model returns an equal value with the same tag and payload.
- Generic wildcards are not modelled. Flat-map functions return exactly `Either<L, RR>` (or `Either<LL, R>`), not a covariant subtype.
- "Exactly one of the two functions is invoked" is a claim about calls, and pure functions cannot count calls. It is stated instead as "the result does not depend on the other function": each variant lemma takes two such functions.
- Caller-supplied functions (`fl`, `fr`, `f` and the `fromOption` supplier) are total Dafny arrows. In Java such a function may throw, and `map`, `flatMap`, `fold` and `orElse` let the exception escape; the model does not capture this. Payload equality is Dafny's `==`, not the payload's own `equals`, which `Left.java:100` and `Right.java:100` call through `Objects.equals`.
- `null` is not modelled, since Dafny values are never null. In Java, `leftOption()` on a Left holding `null` (and `rightOption()` on such a Right) throws, because it calls `Optional.of`.
- The laziness of `java.util.stream.Stream` and the internals of `Optional` are not modelled. Streams are finite sequences of at most one element, and options are the `Optional` datatype.
