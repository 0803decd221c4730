/**
 * Laws that follow from the definitions of the `Result` combinators:
 * the eliminator's defining equations, tag preservation, the functor laws
 * for both tracks, the bind laws for `SwitchSuccess` and `SwitchFailure`,
 * and what a whole chain of calls ("the railway") computes.
 */
module RailLaws {
  import opened Rail

  // ---------------------------------------------------------------------
  // The object's attributes and the value they stand for

  /** A consistent object is exactly the one the constructors build for its value. */
  lemma ObjectOfView<S, F>(o: Object<S, F>)
    requires Consistent(o)
    ensures ObjectOf(View(o)) == o
  {
  }

  /**
   * A stray value in the unused slot (as in `Result(1, 2, True)`) does not
   * change `fold`: it gives what it gives on the object the constructors
   * build for the same value.
   */
  lemma FoldObjectIgnoresUnusedSlot<S, F, T>(o: Object<S, F>, foldSuccess: S -> T, foldFailure: F -> T)
    requires Tagged(o)
    ensures FoldObject(o, foldSuccess, foldFailure) == FoldObject(ObjectOf(View(o)), foldSuccess, foldFailure)
  {
  }

  /** `map_either` run on the object: `fold` into the two constructors. */
  lemma MapEitherOnObject<S, F, S2, F2>(o: Object<S, F>, mapSuccess: S -> S2, mapFailure: F -> F2)
    requires Consistent(o)
    ensures FoldObject<S, F, Object<S2, F2>>(o, s => SuccessObject(mapSuccess(s)), f => FailureObject(mapFailure(f)))
            == ObjectOf(MapEither(View(o), mapSuccess, mapFailure))
  {
  }

  /**
   * `switch_success` run on the object, with a callback that builds its
   * result with the constructors: the result is the object for
   * `SwitchSuccess` on the value.
   */
  lemma SwitchSuccessOnObject<S, F, S2>(o: Object<S, F>, switchSuccess: S -> Result<S2, F>)
    requires Consistent(o)
    ensures FoldObject<S, F, Object<S2, F>>(o, s => ObjectOf(switchSuccess(s)), f => FailureObject(f))
            == ObjectOf(SwitchSuccess(View(o), switchSuccess))
  {
  }

  /**
   * `switch_failure` run on the object, with a callback that builds its
   * result with the constructors: the result is the object for
   * `SwitchFailure` on the value.
   */
  lemma SwitchFailureOnObject<S, F, F2>(o: Object<S, F>, switchFailure: F -> Result<S, F2>)
    requires Consistent(o)
    ensures FoldObject<S, F, Object<S, F2>>(o, s => SuccessObject(s), f => ObjectOf(switchFailure(f)))
            == ObjectOf(SwitchFailure(View(o), switchFailure))
  {
  }

  // ---------------------------------------------------------------------
  // fold

  /** Only the callback of the value's own track is applied. */
  lemma FoldSelectsTrack<S, F, T>(s: S, f: F, foldSuccess: S -> T, foldFailure: F -> T,
                                  otherSuccess: S -> T, otherFailure: F -> T)
    ensures Fold(Success(s), foldSuccess, foldFailure) == foldSuccess(s)
    ensures Fold(Failure(f), foldSuccess, foldFailure) == foldFailure(f)
    ensures Fold(Success(s), foldSuccess, otherFailure) == Fold(Success(s), foldSuccess, foldFailure)
    ensures Fold(Failure(f), otherSuccess, foldFailure) == Fold(Failure(f), foldSuccess, foldFailure)
  {
  }

  /** Folding into the two constructors rebuilds the value. */
  lemma FoldConstructors<S, F>(r: Result<S, F>)
    ensures Fold<S, F, Result<S, F>>(r, s => Success(s), f => Failure(f)) == r
  {
  }

  /**
   * `Fold` is the only function on results that agrees with the two
   * callbacks on the two constructors.
   */
  lemma FoldUnique<S(!new), F(!new), T>(h: Result<S, F> -> T, foldSuccess: S -> T, foldFailure: F -> T)
    requires forall s :: h(Success(s)) == foldSuccess(s)
    requires forall f :: h(Failure(f)) == foldFailure(f)
    ensures forall r :: h(r) == Fold(r, foldSuccess, foldFailure)
  {
    forall r ensures h(r) == Fold(r, foldSuccess, foldFailure) {
      match r
      case Success(s) => assert h(Success(s)) == foldSuccess(s);
      case Failure(f) => assert h(Failure(f)) == foldFailure(f);
    }
  }

  // ---------------------------------------------------------------------
  // map_either, map_success, map_failure

  /** Mapping both tracks is mapping one and then the other, in either order. */
  lemma MapEitherSplits<S, F, S2, F2>(r: Result<S, F>, mapSuccess: S -> S2, mapFailure: F -> F2)
    ensures MapEither(r, mapSuccess, mapFailure) == MapFailure(MapSuccess(r, mapSuccess), mapFailure)
    ensures MapEither(r, mapSuccess, mapFailure) == MapSuccess(MapFailure(r, mapFailure), mapSuccess)
  {
  }

  lemma MapSuccessIdentity<S, F>(r: Result<S, F>)
    ensures MapSuccess(r, (x: S) => x) == r
  {
  }

  lemma MapSuccessComposition<S, F, S2, S3>(r: Result<S, F>, f: S -> S2, g: S2 -> S3)
    ensures MapSuccess(MapSuccess(r, f), g) == MapSuccess(r, x => g(f(x)))
  {
  }

  lemma MapFailureIdentity<S, F>(r: Result<S, F>)
    ensures MapFailure(r, (x: F) => x) == r
  {
  }

  lemma MapFailureComposition<S, F, F2, F3>(r: Result<S, F>, f: F -> F2, g: F2 -> F3)
    ensures MapFailure(MapFailure(r, f), g) == MapFailure(r, x => g(f(x)))
  {
  }

  // ---------------------------------------------------------------------
  // switch_success, switch_failure

  /** Mapping the success track is switching to a track that always succeeds. */
  lemma MapSuccessIsSwitch<S, F, S2>(r: Result<S, F>, mapSuccess: S -> S2)
    ensures MapSuccess(r, mapSuccess) == SwitchSuccess<S, F, S2>(r, s => Success(mapSuccess(s)))
  {
  }

  /** Mapping the failure track is recovering into a track that always fails. */
  lemma MapFailureIsSwitch<S, F, F2>(r: Result<S, F>, mapFailure: F -> F2)
    ensures MapFailure(r, mapFailure) == SwitchFailure<S, F, F2>(r, f => Failure(mapFailure(f)))
  {
  }

  /** Switching to `Result.success` is the identity (the right unit law). */
  lemma SwitchSuccessRightUnit<S, F>(r: Result<S, F>)
    ensures SwitchSuccess<S, F, S>(r, s => Success(s)) == r
  {
  }

  /** Switching twice is switching once to the composed step (associativity). */
  lemma SwitchSuccessAssociative<S, F, S2, S3>(r: Result<S, F>, g: S -> Result<S2, F>, h: S2 -> Result<S3, F>)
    ensures SwitchSuccess(SwitchSuccess(r, g), h) == SwitchSuccess(r, x => SwitchSuccess(g(x), h))
  {
  }

  /** Recovering into `Result.failure` is the identity. */
  lemma SwitchFailureRightUnit<S, F>(r: Result<S, F>)
    ensures SwitchFailure<S, F, F>(r, f => Failure(f)) == r
  {
  }

  lemma SwitchFailureAssociative<S, F, F2, F3>(r: Result<S, F>, g: F -> Result<S, F2>, h: F2 -> Result<S, F3>)
    ensures SwitchFailure(SwitchFailure(r, g), h) == SwitchFailure(r, x => SwitchFailure(g(x), h))
  {
  }

  // ---------------------------------------------------------------------
  // Chains of calls: `r.switch_success(g1).switch_success(g2)...`

  /** The value after calling `switch_success` with each step in turn. */
  function ChainSwitchSuccess<S, F>(r: Result<S, F>, steps: seq<S -> Result<S, F>>): Result<S, F>
    decreases |steps|
  {
    if steps == [] then r else ChainSwitchSuccess(SwitchSuccess(r, steps[0]), steps[1..])
  }

  /** Running the steps on a plain value, stopping at the first failure. */
  function RunSteps<S, F>(s: S, steps: seq<S -> Result<S, F>>): Result<S, F>
    decreases |steps|
  {
    if steps == [] then Success(s)
    else match steps[0](s)
      case Success(s') => RunSteps(s', steps[1..])
      case Failure(f) => Failure(f)
  }

  /** A failure travels down the whole chain untouched. */
  lemma {:induction false} ChainKeepsFailure<S, F>(f: F, steps: seq<S -> Result<S, F>>)
    ensures ChainSwitchSuccess(Failure(f), steps) == Failure(f)
    decreases |steps|
  {
    if steps != [] {
      ChainKeepsFailure(f, steps[1..]);
    }
  }

  /** A chain started on a success runs the steps until the first failure. */
  lemma {:induction false} ChainRunsSteps<S, F>(s: S, steps: seq<S -> Result<S, F>>)
    ensures ChainSwitchSuccess(Success(s), steps) == RunSteps(s, steps)
    decreases |steps|
  {
    if steps != [] {
      match steps[0](s)
      case Success(s') =>
        ChainRunsSteps(s', steps[1..]);
      case Failure(f) =>
        ChainKeepsFailure(f, steps[1..]);
    }
  }

  /** A chain ends on the success track only if every step succeeded. */
  lemma {:induction false} ChainSuccessNeedsEveryStep<S, F>(s: S, steps: seq<S -> Result<S, F>>, k: nat)
    requires k < |steps|
    requires ChainSwitchSuccess(Success(s), steps).Success?
    ensures ChainSwitchSuccess(Success(s), steps[..k]).Success?
    ensures steps[k](ChainSwitchSuccess(Success(s), steps[..k]).value).Success?
  {
    ChainSplits(Success(s), steps[..k], steps[k..]);
    assert steps[..k] + steps[k..] == steps;
    var mid := ChainSwitchSuccess(Success(s), steps[..k]);
    if mid.Failure? {
      ChainKeepsFailure(mid.error, steps[k..]);
    } else {
      var next := steps[k](mid.value);
      assert ChainSwitchSuccess(mid, steps[k..]) == ChainSwitchSuccess(next, steps[k + 1..]);
      if next.Failure? {
        ChainKeepsFailure(next.error, steps[k + 1..]);
      }
    }
  }

  /** A chain may be cut anywhere: the second part continues from the first. */
  lemma {:induction false} ChainSplits<S, F>(r: Result<S, F>, first: seq<S -> Result<S, F>>, second: seq<S -> Result<S, F>>)
    ensures ChainSwitchSuccess(r, first + second) == ChainSwitchSuccess(ChainSwitchSuccess(r, first), second)
    decreases |first|
  {
    if first != [] {
      assert (first + second)[1..] == first[1..] + second;
      ChainSplits(SwitchSuccess(r, first[0]), first[1..], second);
    } else {
      assert first + second == second;
    }
  }

  // ---------------------------------------------------------------------
  // Chains of calls: `r.map_success(f1).map_success(f2)...`

  /** The value after calling `map_success` with each function in turn. */
  function ChainMapSuccess<S, F>(r: Result<S, F>, fs: seq<S -> S>): Result<S, F>
    decreases |fs|
  {
    if fs == [] then r else ChainMapSuccess(MapSuccess(r, fs[0]), fs[1..])
  }

  /** Applying the functions in turn to a plain value. */
  function ApplyAll<S>(fs: seq<S -> S>, s: S): S
    decreases |fs|
  {
    if fs == [] then s else ApplyAll(fs[1..], fs[0](s))
  }

  /** A chain of maps is one map with the composed function (functor composition, repeated). */
  lemma {:induction false} ChainMapIsComposition<S, F>(r: Result<S, F>, fs: seq<S -> S>)
    ensures ChainMapSuccess(r, fs) == MapSuccess(r, x => ApplyAll(fs, x))
    decreases |fs|
  {
    if fs != [] {
      ChainMapIsComposition(MapSuccess(r, fs[0]), fs[1..]);
    }
  }
}
