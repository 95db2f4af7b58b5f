/**
 * Sequence pipelines built from the point-free operations, as callers use
 * them over a stream of results: replacing every failure by a fallback
 * (`map(orElse(f))`), keeping only the successes (`flatMap(Either::stream)`),
 * and chaining right-biased steps. Streams are finite sequences here.
 */
module Pipelines {
  import E = Either
  import EitherOps

  /** `map(EitherOps.orElse(f))`: same length and order; each Left becomes `f` of its payload, each Right is unwrapped. */
  function ReplaceFailing<L, R>(es: seq<E.Either<L, R>>, f: L -> R): (rs: seq<R>)
    ensures |rs| == |es|
    ensures forall i :: 0 <= i < |es| ==> rs[i] == if es[i].Left? then f(es[i].l) else es[i].r
  {
    if es == [] then [] else [EitherOps.OrElseWith(f)(es[0])] + ReplaceFailing(es[1..], f)
  }

  /** `flatMap(Either::stream)`: the Right payloads, and nothing else. */
  function KeepSuccesses<L, R>(es: seq<E.Either<L, R>>): (rs: seq<R>)
    ensures |rs| <= |es|
    ensures forall i :: 0 <= i < |rs| ==> E.Right(rs[i]) in es
    ensures forall j :: 0 <= j < |es| && es[j].Right? ==> es[j].r in rs
  {
    if es == [] then [] else E.Stream(es[0]) + KeepSuccesses(es[1..])
  }

  /** `flatMap(Either::leftStream)`: the Left payloads, and nothing else. */
  function KeepFailures<L, R>(es: seq<E.Either<L, R>>): (ls: seq<L>)
    ensures |ls| <= |es|
    ensures forall i :: 0 <= i < |ls| ==> E.Left(ls[i]) in es
    ensures forall j :: 0 <= j < |es| && es[j].Left? ==> es[j].l in ls
  {
    if es == [] then [] else E.LeftStream(es[0]) + KeepFailures(es[1..])
  }

  /** A single element contributes exactly its right stream to KeepSuccesses. */
  lemma KeepSuccessesSingleton<L, R>(e: E.Either<L, R>)
    ensures KeepSuccesses([e]) == E.Stream(e)
  {
    assert [e][1..] == [];
  }

  /**
   * KeepSuccesses distributes over concatenation, keeping the successes of
   * each part in order. With KeepSuccessesSingleton this fixes the order and
   * multiplicity of the result.
   */
  lemma {:induction false} KeepSuccessesAppend<L, R>(a: seq<E.Either<L, R>>, b: seq<E.Either<L, R>>)
    ensures KeepSuccesses(a + b) == KeepSuccesses(a) + KeepSuccesses(b)
  {
    if a == [] {
      assert a + b == b;
    } else {
      assert (a + b)[0] == a[0];
      assert (a + b)[1..] == a[1..] + b;
      KeepSuccessesAppend(a[1..], b);
    }
  }

  /** A single element contributes exactly its left stream to KeepFailures. */
  lemma KeepFailuresSingleton<L, R>(e: E.Either<L, R>)
    ensures KeepFailures([e]) == E.LeftStream(e)
  {
    assert [e][1..] == [];
  }

  /** KeepFailures distributes over concatenation, as KeepSuccesses does. */
  lemma {:induction false} KeepFailuresAppend<L, R>(a: seq<E.Either<L, R>>, b: seq<E.Either<L, R>>)
    ensures KeepFailures(a + b) == KeepFailures(a) + KeepFailures(b)
  {
    if a == [] {
      assert a + b == b;
    } else {
      assert (a + b)[0] == a[0];
      assert (a + b)[1..] == a[1..] + b;
      KeepFailuresAppend(a[1..], b);
    }
  }

  /** Every element lands in exactly one of the two streams. */
  lemma {:induction false} SuccessesAndFailuresPartition<L, R>(es: seq<E.Either<L, R>>)
    ensures |KeepSuccesses(es)| + |KeepFailures(es)| == |es|
  {
    if es != [] {
      E.ProjectionsExclusiveAndExhaustive(es[0]);
      SuccessesAndFailuresPartition(es[1..]);
    }
  }

  /** When nothing failed, keeping the successes and replacing the failures give the same sequence. */
  lemma {:induction false} NoFailuresPipelinesAgree<L, R>(es: seq<E.Either<L, R>>, f: L -> R)
    requires forall i :: 0 <= i < |es| ==> es[i].Right?
    ensures KeepSuccesses(es) == ReplaceFailing(es, f)
  {
    if es != [] {
      NoFailuresPipelinesAgree(es[1..], f);
    }
  }

  /** Applies `EitherOps.rightFlatMap(fs[0])`, then the next step, and so on. */
  function RightChain<L, R>(e: E.Either<L, R>, fs: seq<R -> E.Either<L, R>>): E.Either<L, R>
    decreases fs
  {
    if fs == [] then e else RightChain(EitherOps.RightFlatMap(fs[0])(e), fs[1..])
  }

  /** A Left entering a chain of right-biased steps comes out unchanged at the end. */
  lemma {:induction false} LeftShortCircuitsChain<L, R>(l: L, fs: seq<R -> E.Either<L, R>>)
    ensures RightChain(E.Left(l), fs) == E.Left(l)
  {
    if fs != [] {
      LeftShortCircuitsChain(l, fs[1..]);
    }
  }

  /** The outcomes of parsing "0", "1", "2" and "Fnord": three numbers and one failure, carried here as the rejected text. */
  function ParsedExample(): seq<E.Either<string, int>>
  {
    [E.Right(0), E.Right(1), E.Right(2), E.Left("Fnord")]
  }

  /** Keeping the successes of the parse outcomes gives [0, 1, 2]. */
  lemma ParsedExampleSuccesses()
    ensures KeepSuccesses(ParsedExample()) == [0, 1, 2]
  {
    var es := ParsedExample();
    var tail := [E.Either<string, int>.Right(1), E.Right(2), E.Left("Fnord")];
    assert es[1..] == tail;
    KeepSuccessesFrom1();
    assert KeepSuccesses(es) == E.Stream(es[0]) + KeepSuccesses(tail);
    assert E.Stream(es[0]) == [0];
  }

  /** The successes of the last three parse outcomes are [1, 2]. */
  lemma KeepSuccessesFrom1()
    ensures KeepSuccesses([E.Either<string, int>.Right(1), E.Right(2), E.Left("Fnord")]) == [1, 2]
  {
    KeepSuccessesFrom2();
    assert [E.Either<string, int>.Right(1), E.Right(2), E.Left("Fnord")][1..] == [E.Right(2), E.Left("Fnord")];
  }

  /** The successes of the last two parse outcomes are [2]. */
  lemma KeepSuccessesFrom2()
    ensures KeepSuccesses([E.Either<string, int>.Right(2), E.Left("Fnord")]) == [2]
  {
    var tail := [E.Either<string, int>.Left("Fnord")];
    assert KeepSuccesses(tail) == [] by { assert tail[1..] == []; }
    assert [E.Either<string, int>.Right(2), E.Left("Fnord")][1..] == tail;
  }

  /** Defaulting the failures of the parse outcomes to -1 gives [0, 1, 2, -1]. */
  lemma ParsedExampleDefaults()
    ensures ReplaceFailing(ParsedExample(), (_: string) => -1) == [0, 1, 2, -1]
  {
    var es := ParsedExample();
    var f := (_: string) => -1;
    assert ReplaceFailing(es[3..], f) == [-1] by { assert es[3..][1..] == []; }
    assert ReplaceFailing(es[2..], f) == [2, -1] by { assert es[2..][1..] == es[3..]; }
    assert ReplaceFailing(es[1..], f) == [1, 2, -1] by { assert es[1..][1..] == es[2..]; }
    assert es[1..] == es[0..][1..];
  }

  /** Keeping the successes gives [0, 1, 2]; defaulting failures to -1 gives [0, 1, 2, -1]. */
  lemma ParsedExamplePipelines()
    ensures KeepSuccesses(ParsedExample()) == [0, 1, 2]
    ensures ReplaceFailing(ParsedExample(), (_: string) => -1) == [0, 1, 2, -1]
  {
    ParsedExampleSuccesses();
    ParsedExampleDefaults();
  }
}
