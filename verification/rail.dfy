/**
 * The `Result` value of the rail library: a two-case tagged value that is
 * either a success or a failure, with its eliminator `fold` and the
 * combinators built on it (mapping, switching to another track, and teeing).
 *
 * The combinators are built the way the library builds them: `MapEither`,
 * `SwitchSuccess`, `SwitchFailure` and `TeeEither` call `Fold` with two small
 * lambdas, `MapSuccess` and `MapFailure` call `MapEither`, and `TeeSuccess`
 * and `TeeFailure` call `TeeEither`. The `ensures` clauses state what each
 * one does on each track.
 */
module Rail {

  /** A success carrying `value` or a failure carrying `error`. */
  datatype Result<+S, +F> = Success(value: S) | Failure(error: F)

  /** Python's `None` in an unused attribute slot. */
  datatype Option<+T> = None | Some(get: T)

  /**
   * The three attributes of a library `Result` object: the success value,
   * the failure value and the tag. The slot of the side not in use holds
   * `None`.
   */
  datatype Object<+S, +F> = Object(success: Option<S>, failure: Option<F>, isSuccess: bool)

  /**
   * The tag points at a filled slot. The slot on the other side may hold a
   * stray value, which `fold` ignores.
   */
  predicate Tagged<S, F>(o: Object<S, F>)
  {
    if o.isSuccess then o.success.Some? else o.failure.Some?
  }

  /** The states that the two class-level constructors produce. */
  predicate Consistent<S, F>(o: Object<S, F>)
  {
    && Tagged(o)
    && (if o.isSuccess then o.failure.None? else o.success.None?)
  }

  /** The value a tagged object stands for: the payload the tag points at. */
  function View<S, F>(o: Object<S, F>): Result<S, F>
    requires Tagged(o)
  {
    if o.isSuccess then Success(o.success.get) else Failure(o.failure.get)
  }

  /** `Result.success(s)`: the tag is set and the failure slot is `None`. */
  function SuccessObject<S, F>(s: S): (o: Object<S, F>)
    ensures Consistent(o) && o.isSuccess
    ensures View(o) == Success(s)
  {
    Object(Some(s), None, true)
  }

  /** `Result.failure(f)`: the tag is clear and the success slot is `None`. */
  function FailureObject<S, F>(f: F): (o: Object<S, F>)
    ensures Consistent(o) && !o.isSuccess
    ensures View(o) == Failure(f)
  {
    Object(None, Some(f), false)
  }

  /** The object the constructors build for a value. */
  function ObjectOf<S, F>(r: Result<S, F>): (o: Object<S, F>)
    ensures Consistent(o) && View(o) == r
  {
    match r
    case Success(s) => SuccessObject(s)
    case Failure(f) => FailureObject(f)
  }

  /** `fold` on the object's attributes, as the library writes it. */
  function FoldObject<S, F, T>(o: Object<S, F>, foldSuccess: S -> T, foldFailure: F -> T): (t: T)
    requires Tagged(o)
    ensures t == Fold(View(o), foldSuccess, foldFailure)
  {
    if o.isSuccess then foldSuccess(o.success.get) else foldFailure(o.failure.get)
  }

  /** The eliminator: apply the callback of the track the value is on. */
  function Fold<S, F, T>(r: Result<S, F>, foldSuccess: S -> T, foldFailure: F -> T): (t: T)
    ensures r.Success? ==> t == foldSuccess(r.value)
    ensures r.Failure? ==> t == foldFailure(r.error)
  {
    match r
    case Success(s) => foldSuccess(s)
    case Failure(f) => foldFailure(f)
  }

  /** Map both tracks; the tag is kept. */
  function MapEither<S, F, S2, F2>(r: Result<S, F>, mapSuccess: S -> S2, mapFailure: F -> F2): (m: Result<S2, F2>)
    ensures m.Success? <==> r.Success?
    ensures r.Success? ==> m.value == mapSuccess(r.value)
    ensures r.Failure? ==> m.error == mapFailure(r.error)
  {
    Fold<S, F, Result<S2, F2>>(r, s => Success(mapSuccess(s)), f => Failure(mapFailure(f)))
  }

  /** Map the success track; a failure passes through unchanged. */
  function MapSuccess<S, F, S2>(r: Result<S, F>, mapSuccess: S -> S2): (m: Result<S2, F>)
    ensures r.Success? ==> m == Success(mapSuccess(r.value))
    ensures r.Failure? ==> m == Failure(r.error)
  {
    MapEither(r, s => mapSuccess(s), f => f)
  }

  /** Map the failure track; a success passes through unchanged. */
  function MapFailure<S, F, F2>(r: Result<S, F>, mapFailure: F -> F2): (m: Result<S, F2>)
    ensures r.Success? ==> m == Success(r.value)
    ensures r.Failure? ==> m == Failure(mapFailure(r.error))
  {
    MapEither(r, s => s, f => mapFailure(f))
  }

  /** Bind: a success is handed to `switchSuccess`, whose result is returned as it is. */
  function SwitchSuccess<S, F, S2>(r: Result<S, F>, switchSuccess: S -> Result<S2, F>): (m: Result<S2, F>)
    ensures r.Success? ==> m == switchSuccess(r.value)
    ensures r.Failure? ==> m == Failure(r.error)
  {
    Fold<S, F, Result<S2, F>>(r, s => switchSuccess(s), f => Failure(f))
  }

  /** Recover: a failure is handed to `switchFailure`, whose result is returned as it is. */
  function SwitchFailure<S, F, F2>(r: Result<S, F>, switchFailure: F -> Result<S, F2>): (m: Result<S, F2>)
    ensures r.Success? ==> m == Success(r.value)
    ensures r.Failure? ==> m == switchFailure(r.error)
  {
    Fold<S, F, Result<S, F2>>(r, s => Success(s), f => switchFailure(f))
  }

  /**
   * Run the callback of the current track for its effect and return the
   * receiver. The callbacks' results are discarded (folded into `()`).
   */
  function TeeEither<S, F, U, V>(r: Result<S, F>, teeSuccess: S -> U, teeFailure: F -> V): (t: Result<S, F>)
    ensures t == r
  {
    var _ := Fold<S, F, ()>(r, s => var _ := teeSuccess(s); (), f => var _ := teeFailure(f); ());
    r
  }

  /** `TeeEither` with a failure callback that does nothing. */
  function TeeSuccess<S, F, U>(r: Result<S, F>, teeSuccess: S -> U): (t: Result<S, F>)
    ensures t == r
  {
    TeeEither(r, s => teeSuccess(s), (f: F) => ())
  }

  /** `TeeEither` with a success callback that does nothing. */
  function TeeFailure<S, F, V>(r: Result<S, F>, teeFailure: F -> V): (t: Result<S, F>)
    ensures t == r
  {
    TeeEither(r, (s: S) => (), f => teeFailure(f))
  }
}
