# rail `Result` in Dafny

The rail library's `Result` is a two-case tagged value. It is either a
success carrying a value or a failure carrying an error. On top of that it
offers:

- an eliminator, `fold`;
- mapping on one or both tracks: `map_either`, `map_success`, `map_failure`;
- switching a value to another track: `switch_success` (bind) and
  `switch_failure` (recover);
- teeing, which runs a callback for its effect and returns the receiver:
  `tee_either`, `tee_success`, `tee_failure`.

Module `Rail` (`rail.dfy`) holds two things. The first is the value as
`datatype Result<S, F> = Success(value) | Failure(error)`. The second is the
Python object's three attributes as `Object(success, failure, isSuccess)`,
with `Consistent` picking out the states the two class-level constructors
produce. The combinators are built the way the library builds them.
`MapEither`, `SwitchSuccess`, `SwitchFailure` and `TeeEither` call `Fold` with
two lambdas. `MapSuccess` and `MapFailure` call `MapEither`, and `TeeSuccess`
and `TeeFailure` call `TeeEither`. The `ensures` clauses state what each
combinator does on each track. Callbacks are Dafny function values.

Module `RailLaws` (`laws.dfy`) proves the laws that follow from these
definitions:

- `Fold` is the unique eliminator;
- `map_either` and the two switches, run on the object's attributes, build the
  object that stands for the value-level result;
- the functor identity and composition laws hold on both tracks;
- the unit and associativity laws hold for both switches;
- chains of repeated calls behave as stated. A chain of `switch_success`
  calls runs its steps until the first failure and then carries that failure
  to the end untouched. A chain of `map_success` calls is one map with the
  composed function.

## Model

| member | source | states |
|---|---|---|
| `Rail.SuccessObject` | rail.py:7-9 | `Result.success(s)` builds a consistent object tagged success that stands for `Success(s)` |
| `Rail.FailureObject` | rail.py:11-13 | `Result.failure(f)` builds a consistent object tagged failure that stands for `Failure(f)` |
| `Rail.ObjectOf` | rail.py:2-13 | every value has a consistent object built by one of the constructors, and that object stands for the value |
| `RailLaws.ObjectOfView` | rail.py:2-13 | every consistent object is exactly the one a constructor builds for the value it stands for |
| `Rail.FoldObject` | rail.py:15-19 | `fold` on the three attributes agrees with the value-level `Fold` of the payload the tag points at, for every object whose tagged slot is filled, including one with a stray value on the unused side |
| `RailLaws.FoldObjectIgnoresUnusedSlot` | rail.py:15-19 | on an object whose tagged slot is filled, a stray value in the unused slot does not change `fold`'s result: it equals `fold` on the constructor-built object for the same value |
| `Rail.Fold` | rail.py:15-19 | on a success returns `fold_success(s)`, on a failure `fold_failure(f)`; `RailLaws.FoldSelectsTrack` adds that the other track's callback has no influence, and `RailLaws.FoldUnique` that these equations determine `fold` |
| `RailLaws.FoldSelectsTrack` | rail.py:15-19 | `fold` on a success returns `fold_success(s)` and on a failure `fold_failure(f)`; the callback of the other track has no influence on the result |
| `RailLaws.FoldConstructors` | rail.py:7-19 | folding into the two constructors gives back the original value |
| `RailLaws.FoldUnique` | rail.py:15-19 | any function that agrees with the two callbacks on the two constructors equals `fold` everywhere |
| `RailLaws.MapEitherOnObject` | rail.py:21-25 | `map_either` on a consistent object (fold into `Result.success` and `Result.failure`) builds the object for `MapEither` of the value it stands for |
| `RailLaws.SwitchSuccessOnObject` | rail.py:39-43 | `switch_success` on a consistent object, with a callback that builds its result with the constructors, gives the object for `SwitchSuccess` of the value |
| `RailLaws.SwitchFailureOnObject` | rail.py:45-49 | `switch_failure` on a consistent object, with a callback that builds its result with the constructors, gives the object for `SwitchFailure` of the value |
| `Rail.MapEither` | rail.py:21-25 | the tag is preserved; a success holds `map_success(s)`, a failure holds `map_failure(f)` |
| `Rail.MapSuccess` | rail.py:27-31 | a success holds `map_success(s)`; a failure comes back as the same failure |
| `Rail.MapFailure` | rail.py:33-37 | a failure holds `map_failure(f)`; a success comes back as the same success |
| `RailLaws.MapEitherSplits` | rail.py:21-37 | `map_either(f, g)` equals `map_success(f)` then `map_failure(g)`, in either order |
| `RailLaws.MapSuccessIdentity` | rail.py:27-31 | `map_success` with the identity returns the original value |
| `RailLaws.MapSuccessComposition` | rail.py:27-31 | `map_success(f)` then `map_success(g)` equals `map_success(g∘f)` |
| `RailLaws.MapFailureIdentity` | rail.py:33-37 | `map_failure` with the identity returns the original value |
| `RailLaws.MapFailureComposition` | rail.py:33-37 | `map_failure(f)` then `map_failure(g)` equals `map_failure(g∘f)` |
| `Rail.SwitchSuccess` | rail.py:39-43 | on a success returns exactly `switch_success(s)`; a failure comes back as the same failure |
| `Rail.SwitchFailure` | rail.py:45-49 | on a failure returns exactly `switch_failure(f)`; a success comes back as the same success |
| `RailLaws.MapSuccessIsSwitch` | rail.py:27-43 | `map_success(f)` equals `switch_success(x -> success(f(x)))` |
| `RailLaws.MapFailureIsSwitch` | rail.py:33-49 | `map_failure(f)` equals `switch_failure(x -> failure(f(x)))` |
| `RailLaws.SwitchSuccessRightUnit` | rail.py:39-43 | `switch_success(x -> success(x))` is the identity |
| `RailLaws.SwitchSuccessAssociative` | rail.py:39-43 | switching with `g` then `h` equals switching once with `x -> g(x).switch_success(h)` |
| `RailLaws.SwitchFailureRightUnit` | rail.py:45-49 | `switch_failure(x -> failure(x))` is the identity |
| `RailLaws.SwitchFailureAssociative` | rail.py:45-49 | recovering with `g` then `h` equals recovering once with `x -> g(x).switch_failure(h)` |
| `RailLaws.ChainKeepsFailure` | rail.py:39-43 | a failure passes through any number of `switch_success` calls whose steps keep the success type, unchanged |
| `RailLaws.ChainRunsSteps` | rail.py:39-43 | a chain of `switch_success` calls whose steps keep the success type, started on `success(s)`, equals running the steps on `s` and stopping at the first failure |
| `RailLaws.ChainSplits` | rail.py:39-43 | a chain of `switch_success` calls whose steps keep the success type can be cut anywhere; the second part continues from the first part's result |
| `RailLaws.ChainSuccessNeedsEveryStep` | rail.py:39-43 | if a chain whose steps keep the success type ends on the success track, then every step was reached on the success track and every step returned a success |
| `RailLaws.ChainMapIsComposition` | rail.py:27-31 | a chain of `map_success` calls whose functions keep the success type equals one `map_success` with the functions composed in order |
| `Rail.TeeEither` | rail.py:51-56 | returns the receiver, whatever the callbacks return |
| `Rail.TeeSuccess` | rail.py:58-62 | returns the receiver, whatever the callback returns |
| `Rail.TeeFailure` | rail.py:64-68 | returns the receiver, whatever the callback returns |

## Left out

- The effects of tee callbacks: Dafny functions are pure. The callbacks' results are folded into `()` and discarded, as `tee_either` discards them. The one-argument placeholders `lambda failure: None` in `tee_success` and `lambda success: None` in `tee_failure` are lambdas returning `()`.
- Exceptions raised inside callbacks: they simply propagate in the library and have no counterpart in the model.
- Object identity: "returns self" is modelled as returning an equal value.
- Rail.FoldObject: requires `Tagged`, meaning the tag points at a filled slot. An object built by calling the `Result` constructor directly with the tag pointing at an empty slot would pass `None` to a callback. Only the two class-level constructors produce meaningful objects, so such objects are not modelled. Objects with a stray value on the unused side are covered by `FoldObject`, which ignores that value as `fold` does. The other object-level lemmas assume `Consistent`, the states the constructors produce.
- `identity`, `RAISE`, `TRY`, `match`, `match_type`, `UnmatchedValueError`, `partial`, `compose`, `pipe`, `branch` and `Track` (its `compose`, `tee`, `fold` and `handle`) are not part of this model. `test_rail.py` exercises them, but their definitions are not in `rail.py`.
- Callbacks are statically typed. In Python, `switch_success` and `switch_failure` return whatever the callback returns, even a value that is not a `Result`. A `Result` from them may also carry a payload of any type on the other track. The model requires `S -> Result<S2, F>` and `F -> Result<S, F2>`, so such ill-typed uses are not modelled. The same holds for `fold` and the map callbacks, whose results are typed. The chain lemmas cover only chains whose steps keep one success type throughout. In Python each `switch_success` or `map_success` in a chain may change the payload type. For two steps of any types, `SwitchSuccessAssociative` and `MapSuccessComposition` cover this case.
