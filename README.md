# cpp_result in Dafny

A Dafny model of `cpp_result::Result<T, E>`, the header-only C++ tagged union in `include/result.hpp`. A `Result` holds either a success payload `T` or an error payload `E`, and the flag `is_ok_` says which. The model also covers its `Result<void, E>` specialisation, whose success case carries nothing.

The model has two layers.

- **`Results` (results.dfy)** is the value view. `Result<T, E> = Ok(value) | Err(error)` and `VoidResult<E> = VOk | VErr(error)` carry every combinator of the header as a function: `is_ok`, `is_err`, `unwrap`, `unwrap_err`, `expect`, `expect_err`, `unwrap_or`, `unwrap_or_else`, `map`, `map_err` and `and_then`. For `and_then`, the callback may return either a general or a void Result. The extraction operations abort the process in the wrong state (`EXPECT_OR_ABORT`), and that abort is their `requires`. Beside them are the case laws the tests assert and the algebraic laws of the combinators: the functor laws, the monad laws, and `map` as `and_then` followed by `Ok`. There are also lemmas about chains of `and_then`, and a proof that the void form agrees with the general form at the unit type.
- **`ResultStorage` (storage.dfy)** is the general form's storage: the union `data_` and the flag `is_ok_`, built and ended by hand. The class `Storage` keeps two ghost alive flags and a ghost log of every placement-new and destructor call in its storage. Placing a member requires that neither member is alive. `Valid()` states three things:
  - exactly the member `is_ok_` names is alive;
  - the log alternates between a build and a destruction of the same member;
  - the log ends with the build of the live member.

  The constructors, including copy and move construction, establish `Valid()`. Copy and move assignment and the reading accessors keep it. `destroy()` takes a `Valid()` object to `Ended()`, the state in which no member is alive. The assignments say, in order, which member they destroy and which they build.
- **`VoidResultStorage` (void_storage.dfy)** is the void form's storage. Its `error_` is a plain member and there is no `destroy()`, so the as-written class counts the `E` objects whose storage is reused while they are alive. A corrected class is given beside it (see Findings).

Two points about the void form and the header's extent:
- **A live `E` in the Ok state.** `error_` is a plain member (include/result.hpp:264) that every constructor default-constructs. So an `E` is alive in the Ok state too, and `E` must be default-constructible.
- **Combinators outside the header.** The tests and examples call combinators that include/result.hpp does not define; see Left out.

## Model

| member | source | states |
|---|---|---|
| `Results.Result.IsOk` | include/result.hpp:27 | `is_ok()` reads the discriminant: when it holds the value is `Ok(value)`, otherwise `Err(error)` |
| `Results.Result.IsErr` | include/result.hpp:28 | `is_err()` is exactly the negation of `is_ok()` |
| `Results.VoidResult.IsOk` | include/result.hpp:179 | `is_ok()` holds exactly in the payload-free Ok state; otherwise the value is `Err(error)` |
| `Results.VoidResult.IsErr` | include/result.hpp:180 | `is_err()` is exactly the negation of `is_ok()` |
| `Results.Result.Unwrap` | include/result.hpp:30-37 | only callable on an Ok (the abort); `Ok(unwrap()) == this`, so it returns exactly the stored payload |
| `Results.Result.UnwrapErr` | include/result.hpp:39-46 | only callable on an Err; `Err(unwrap_err()) == this` |
| `Results.Result.Expect` | include/result.hpp:79-87 | only callable on an Ok; returns the payload, the same as `unwrap`; the message does not change the result |
| `Results.Result.ExpectErr` | include/result.hpp:89-97 | only callable on an Err; returns the error, the same as `unwrap_err` |
| `Results.Result.UnwrapOr` | include/result.hpp:48-50 | the payload on an Ok, the given default on an Err; never aborts |
| `Results.Result.UnwrapOrElse` | include/result.hpp:52-55 | the payload on an Ok, the fallback's result on an Err |
| `Results.Result.Map` | include/result.hpp:57-62 | keeps the discriminant; the Ok payload becomes `f(v)`; the error passes through unchanged |
| `Results.Result.MapErr` | include/result.hpp:64-70 | keeps the discriminant; the error becomes `g(e)`; the Ok payload passes through unchanged |
| `Results.Result.AndThen` | include/result.hpp:72-77 | on `Ok(v)` it is exactly `f(v)`; on `Err(e)` it is `Err(e)`, independent of `f` |
| `Results.Result.AndThenVoid` | include/result.hpp:72-77 | the same, when `f` returns a `Result<void, E>` |
| `Results.VoidResult.Unwrap` | include/result.hpp:182-184 | callable only on the Ok state, which carries nothing |
| `Results.VoidResult.Expect` | include/result.hpp:217 | callable only on the Ok state |
| `Results.VoidResult.UnwrapErr` | include/result.hpp:186-193 | only callable on an Err; `VErr(unwrap_err()) == this` |
| `Results.VoidResult.ExpectErr` | include/result.hpp:219-227 | only callable on an Err; returns the error, the same as `unwrap_err` |
| `Results.VoidResult.Map` | include/result.hpp:195-200 | Ok becomes `Ok(f())`; an Err keeps its error; the discriminant is kept |
| `Results.VoidResult.MapErr` | include/result.hpp:202-208 | Ok stays Ok; the error becomes `g(e)` |
| `Results.VoidResult.AndThen` | include/result.hpp:210-215 | Ok gives exactly `f()`; an Err propagates its error without calling `f` |
| `Results.VoidResult.AndThenVoid` | include/result.hpp:210-215 | the same, when `f` returns a `Result<void, E>` |
| `Results.OkLaws` | include/result.hpp:24-50 | `Ok(v)` is ok and not err; `unwrap` gives `v`; `unwrap_or(d)` gives `v` |
| `Results.ErrLaws` | include/result.hpp:25-50 | `Err(e)` is err and not ok; `unwrap_err` gives `e`; `unwrap_or(d)` gives `d` |
| `Results.Discriminant` | include/result.hpp:27-46 | exactly one of `is_ok` and `is_err` holds, and the matching extraction rebuilds the whole value |
| `Results.UnwrapOrIsUnwrapOrElse` | include/result.hpp:48-55 | `unwrap_or(d)` equals `unwrap_or_else` with a producer of `d` |
| `Results.MapIdentity` | include/result.hpp:57-62 | mapping the identity changes nothing |
| `Results.MapCompose` | include/result.hpp:57-62 | two maps equal one map of the composition |
| `Results.MapErrIdentity` | include/result.hpp:64-70 | mapping the identity over the error changes nothing |
| `Results.MapErrCompose` | include/result.hpp:64-70 | two `map_err`s equal one of the composition |
| `Results.MapMapErrCommute` | include/result.hpp:57-70 | `map` and `map_err` commute |
| `Results.AndThenLeftUnit` | include/result.hpp:72-77 | `Ok(v).and_then(f) == f(v)` |
| `Results.AndThenRightUnit` | include/result.hpp:72-77 | `r.and_then(Ok) == r` |
| `Results.AndThenAssociative` | include/result.hpp:72-77 | `and_then` chains associate |
| `Results.MapIsAndThenOk` | include/result.hpp:57-77 | `map(f)` equals `and_then` of `Ok(f(x))` |
| `Results.Chain` | include/result.hpp:72-77 | a chain of `and_then` steps started from an Err is that Err, however long |
| `Results.ChainAllSucceed` | include/result.hpp:72-77 | a chain started Ok whose every step succeeds on every input ends Ok |
| `Results.ChainAppend` | include/result.hpp:72-77 | running steps `a ++ b` equals running `a`, then `b` on its result |
| `Results.ChainStopsAtFirstErr` | include/result.hpp:72-77 | if step `k` is the first to fail, with `e`, the whole chain is `Err(e)` |
| `Results.VoidRoundTrip` | include/result.hpp:171-177 | the void form and `Result<(), E>` convert into each other and back unchanged |
| `Results.VoidAgreesWithGeneral` | include/result.hpp:195-215 | the void form's `map`, `map_err` and both `and_then`s match the general form's at the unit type |
| `Results.VoidCaseLaws` | include/result.hpp:176-215 | `Ok()` is ok; `Err(e)` gives back `e`; `map` on Ok gives `Ok(f())`; `map` on Err keeps `e`; `map_err` on Ok stays Ok; `and_then` on Ok is `f()`; `and_then` on Err is `Err(e)` |
| `ResultStorage.Storage.PlaceValue` | include/result.hpp:160 | placement-new of the value member requires that no member is alive and that `is_ok_` is already true; afterwards the object is valid and logs one build |
| `ResultStorage.Storage.PlaceError` | include/result.hpp:164 | the same for the error member, with `is_ok_` false |
| `ResultStorage.Storage.Destroy` | include/result.hpp:167 | `destroy()` and `~Result()` end exactly the member `is_ok_` names; afterwards no member is alive and one matching destruction is logged |
| `ResultStorage.Storage.Ok` | include/result.hpp:159-161 | `Ok(v)` builds only the value member; it is valid with contents `Ok(v)` |
| `ResultStorage.Storage.Err` | include/result.hpp:163-165 | `Err(e)` builds only the error member; it is valid with contents `Err(e)` |
| `ResultStorage.Storage.CopyFrom` | include/result.hpp:126-134 | same discriminant and equal payload; only the matching member built |
| `ResultStorage.Storage.MoveFrom` | include/result.hpp:102-109 | same discriminant and the old payload; only the matching member built; the source keeps its flag and live member |
| `ResultStorage.Storage.CopyAssign` | include/result.hpp:136-148 | self-assignment changes nothing; otherwise destroy the live member, then build the member matching the source's flag; valid afterwards with the source's contents |
| `ResultStorage.Storage.MoveAssign` | include/result.hpp:111-123 | as copy assignment; the source stays valid with its flag |
| `ResultStorage.Storage.Unwrap` | include/result.hpp:30-37 | on the storage, `unwrap` reads the live value member and returns the object's Ok payload |
| `ResultStorage.Storage.UnwrapErr` | include/result.hpp:39-46 | on the storage, `unwrap_err` reads the live error member |
| `VoidResultStorage.VoidStorage.PlaceError` | include/result.hpp:268-270 | placement-new over `error_`; if an `E` was alive there, it is abandoned |
| `VoidResultStorage.VoidStorage.Ok` | include/result.hpp:267 | Ok state; `error_` holds only its default `E`; nothing abandoned |
| `VoidResultStorage.VoidStorage.Err` | include/result.hpp:268-270 | contents `Err(e)`; the default-constructed `E` is abandoned |
| `VoidResultStorage.VoidStorage.CopyFrom` | include/result.hpp:247-251 | same contents; on an Err, one `E` is abandoned |
| `VoidResultStorage.VoidStorage.MoveFrom` | include/result.hpp:230-234 | same contents; on an Err, one `E` is abandoned; the source keeps its flag |
| `VoidResultStorage.VoidStorage.CopyAssign` | include/result.hpp:253-261 | self-assignment changes nothing; otherwise takes the source's contents and abandons the live `E` when the source is an Err |
| `VoidResultStorage.VoidStorage.MoveAssign` | include/result.hpp:236-244 | as copy assignment |
| `VoidResultStorage.VoidStorage.Destruct` | include/result.hpp:264 | the implicit destructor ends the one `E` left in `error_` |
| `VoidResultStorage.VoidStorage.UnwrapErr` | include/result.hpp:186-193 | reads `error_` and returns the object's Err payload |
| `VoidResultStorage.ReassignAbandons` | include/result.hpp:253-261 | `Err(e1)` assigned `Err(e2)` ends with contents `Err(e2)` and two abandoned `E` objects |
| `VoidResultStorage.AfterPlacement` | include/result.hpp:241 | placement-new over `error_`: the abandonment count rises exactly when an `E` was alive there, and then by exactly one |
| `VoidResultStorage.VoidStorageCorrected.PlaceError` | include/result.hpp:241 | the same placement as in the as-written form: the new `E` is in `error_`, and an `E` alive before is counted as abandoned |
| `VoidResultStorage.VoidStorageCorrected.DestroyError` | include/result.hpp:264 | the added `error_.~E()`: only on a live `E`, and it leaves none alive |
| `VoidResultStorage.VoidStorageCorrected.ReplaceError` | include/result.hpp:241 | destroys the live `E` before placing the new one; nothing is abandoned |
| `VoidResultStorage.VoidStorageCorrected.Ok` | include/result.hpp:267 | Ok state; `error_` holds only its default `E`; nothing abandoned (`Valid()`) |
| `VoidResultStorage.VoidStorageCorrected.Err` | include/result.hpp:268-270 | contents `Err(e)`, nothing abandoned |
| `VoidResultStorage.VoidStorageCorrected.CopyFrom` | include/result.hpp:247-251 | same contents, nothing abandoned |
| `VoidResultStorage.VoidStorageCorrected.MoveFrom` | include/result.hpp:230-234 | same contents, nothing abandoned; the source stays valid |
| `VoidResultStorage.VoidStorageCorrected.CopyAssign` | include/result.hpp:253-261 | takes the source's contents and keeps the no-abandoned-`E` invariant; self-assignment changes nothing |
| `VoidResultStorage.VoidStorageCorrected.MoveAssign` | include/result.hpp:236-244 | as copy assignment, corrected |
| `VoidResultStorage.VoidStorageCorrected.Destruct` | include/result.hpp:264 | ends the only `E`; none was abandoned |
| `VoidResultStorage.ReassignReleases` | include/result.hpp:253-261 | the same reassignment as `ReassignAbandons` on the corrected form abandons nothing |

## Left out

- The text that `EXPECT_OR_ABORT` writes to standard error, and `std::abort` itself (include/result.hpp:8-15). These are I/O and process termination. They appear only as the `requires` of the extraction functions.
- The `noexcept` specifications and their trait conditions. At runtime, an exception leaving a `noexcept` function calls `std::terminate`. The model has no exceptions, so it has no such path.
- The `static_assert` against reference types, `[[nodiscard]]` and the `std::invoke_result_t` deduction. These are compile-time only.
- `ResultStorage.Storage.CopyAssign`, `ResultStorage.Storage.MoveAssign`, `ResultStorage.Storage.CopyFrom`, `ResultStorage.Storage.MoveFrom`: these assume the payload's copy and move constructors never throw. In C++ they can, for example `std::bad_alloc` on a `std::string` copy, and then `operator=` is `noexcept(false)`. If the constructor throws after `destroy()` has run and `is_ok_` has been set (include/result.hpp:115-120, 140-145), `is_ok_` names a dead member and `~Result` destroys it a second time. The unconditional `Valid()` in these contracts holds only because no constructor throws.
- `Results.Result.Unwrap`, `Results.Result.UnwrapErr`, `Results.Result.Expect`, `Results.Result.ExpectErr`, `Results.VoidResult.UnwrapErr`, `Results.VoidResult.ExpectErr`, `ResultStorage.Storage.Unwrap`, `ResultStorage.Storage.UnwrapErr`: the C++ versions return `T&`/`E&`, through which a caller can change the live payload in place. The model returns copies, so it says nothing about in-place changes through the reference.
- Callbacks (`func` in `unwrap_or_else`, `map`, `map_err`, `and_then`) are pure total functions. The model does not record whether `func` is called or what side effects it has. "Independent of `f`" on the Err path stands in for "`f` is not called".
- `ResultStorage.Storage` is declared `Storage<T(0), E(0)>`, so `T` and `E` must have a default value. The value stands for the unbuilt union member. The C++ general form has no such requirement: its `Data() {}` builds nothing.
- `and_then`'s implicit conversion in `R::Err(data_.error)`. When the callback's error type can be built from `E`, C++ accepts it. The model requires the callback to return a Result with the same `E`.
- The shared bytes of the union `data_`. The value and error members are two fields, and a dead member keeps its stale content. Only the alive flags say which field means anything.
- The content of a moved-from payload. It depends on the payload type's move constructor, which is not part of this model: the move operations leave that field as an arbitrary value, with the flag and the live member kept.
- The unnamed default `E()` of the void form. It is the field's initial value, and the model does not separate an `E` whose default construction does nothing from one that really constructs something.
- `inspect`, `inspect_err`, `unwrap_or_default`, `is_ok_and`, `is_err_and`, `ok()`, `err()`, `and_`, `or_`, `or_else`, `map_or`, `map_or_else`, `contains`, `contains_err`, `flatten`, the `TRY`/`TRYL` macros and the free helpers `cpp_result::Ok<E>()`/`Err<E>()`. The tests and examples call them, but include/result.hpp does not define them, so their code is not part of this model.
- The examples and benchmarks (iostream output, `std::stoi` exceptions, timing).

## Findings

| source | as written | input that shows it | evidently intended | confidence | as-written member | corrected member |
|---|---|---|---|---|---|---|
| include/result.hpp:236-270 | `Result<void, E>` default-constructs `error_` in every constructor. The Err constructor, the copy and move constructors on an Err, and both assignments when the source is an Err then placement-new a new `E` over the live `error_`, and no destructor runs on the old one | `Result<void, std::string>` holding `Err` with a string too long for the small-string buffer, copy-assigned another `Err`: the first string's heap buffer is never freed (`ReassignAbandons` counts two abandoned `E` objects) | end the live `E` before building over it, as `destroy()` does in the general form, so every `E` built is destroyed exactly once | not executed; follows from the C++ object-lifetime rules, which allow reusing storage without a destructor call but never run that destructor | `VoidResultStorage.VoidStorage.CopyAssign` | `VoidResultStorage.VoidStorageCorrected.CopyAssign` |
