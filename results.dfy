/** The value-level view of cpp_result's `Result<T, E>` and its
    `Result<void, E>` specialisation (include/result.hpp).

    A C++ `Result` holds exactly one of a success payload and an error
    payload, selected by the flag `is_ok_`. Seen as a value, that is a sum
    type, and every combinator of the header is a two-way branch on the flag
    that builds a new value. The extraction operations abort the process
    when called in the wrong state; here that abort is a precondition.
 */
module Results {

  /** `Result<T, E>`: the state built by `Result::Ok(val)` or `Result::Err(err)`. */
  datatype Result<T, E> = Ok(value: T) | Err(error: E)
  {
    /** `is_ok()`: reads the discriminant, which decides which payload
        the value holds. */
    predicate IsOk()
      ensures IsOk() ==> Ok? && this == Ok(value)
      ensures !IsOk() ==> Err? && this == Err(error)
    {
      Ok?
    }

    /** `is_err()`: the negation of `is_ok()`. */
    predicate IsErr()
      ensures IsErr() == !IsOk()
    {
      Err?
    }

    /** `unwrap()`: the success payload; aborts with
        "unwrap called on Result::Err()" on an Err, hence the precondition. */
    function Unwrap(): (v: T)
      requires IsOk()
      ensures Ok(v) == this
    {
      value
    }

    /** `unwrap_err()`: the error payload; aborts with
        "unwrap_err called on Result::Ok()" on an Ok. */
    function UnwrapErr(): (e: E)
      requires IsErr()
      ensures Err(e) == this
    {
      error
    }

    /** `expect(msg)`: as `unwrap()`, but the abort writes `msg`. The message
        only reaches standard error, so it does not affect the result. */
    function Expect(msg: string): (v: T)
      requires IsOk()
      ensures Ok(v) == this
      ensures v == Unwrap()
    {
      value
    }

    /** `expect_err(msg)`: as `unwrap_err()`, but the abort writes `msg`. */
    function ExpectErr(msg: string): (e: E)
      requires IsErr()
      ensures Err(e) == this
      ensures e == UnwrapErr()
    {
      error
    }

    /** `unwrap_or(default_value)`: never aborts. */
    function UnwrapOr(default: T): (v: T)
      ensures IsOk() ==> Ok(v) == this
      ensures IsErr() ==> v == default
    {
      match this
      case Ok(x) => x
      case Err(_) => default
    }

    /** `unwrap_or_else(func)`: `func` is only called on an Err. */
    function UnwrapOrElse(fallback: () -> T): (v: T)
      ensures IsOk() ==> Ok(v) == this
      ensures IsErr() ==> v == fallback()
    {
      match this
      case Ok(x) => x
      case Err(_) => fallback()
    }

    /** `map(func)`: transforms the success payload, copies the error. */
    function Map<U>(f: T -> U): (r: Result<U, E>)
      ensures r.IsOk() == IsOk()
      ensures IsOk() ==> r.Unwrap() == f(Unwrap())
      ensures IsErr() ==> r.UnwrapErr() == UnwrapErr()
    {
      match this
      case Ok(x) => Ok(f(x))
      case Err(e) => Err(e)
    }

    /** `map_err(func)`: transforms the error payload, copies the value. */
    function MapErr<E2>(g: E -> E2): (r: Result<T, E2>)
      ensures r.IsOk() == IsOk()
      ensures IsOk() ==> r.Unwrap() == Unwrap()
      ensures IsErr() ==> r.UnwrapErr() == g(UnwrapErr())
    {
      match this
      case Ok(x) => Ok(x)
      case Err(e) => Err(g(e))
    }

    /** `and_then(func)` where `func` returns some `Result<U, E>`: on an
        Ok its result is whatever `func` returns; on an Err the error is
        propagated and `func` is not called. */
    function AndThen<U>(f: T -> Result<U, E>): (r: Result<U, E>)
      ensures IsOk() ==> r == f(Unwrap())
      ensures IsErr() ==> r == Err(UnwrapErr())
    {
      match this
      case Ok(x) => f(x)
      case Err(e) => Err(e)
    }

    /** `and_then(func)` where `func` returns a `Result<void, E>`. */
    function AndThenVoid(f: T -> VoidResult<E>): (r: VoidResult<E>)
      ensures IsOk() ==> r == f(Unwrap())
      ensures IsErr() ==> r == VErr(UnwrapErr())
    {
      match this
      case Ok(x) => f(x)
      case Err(e) => VErr(e)
    }
  }

  /** `Result<void, E>`: the state built by `Result::Ok()` or `Result::Err(err)`:
      a success that carries nothing, or an error payload. */
  datatype VoidResult<E> = VOk | VErr(error: E)
  {
    /** `is_ok()`: true exactly in the payload-free success state. */
    predicate IsOk()
      ensures IsOk() <==> this == VOk
      ensures !IsOk() ==> VErr? && this == VErr(error)
    {
      VOk?
    }

    /** `is_err()`: the negation of `is_ok()`. */
    predicate IsErr()
      ensures IsErr() == !IsOk()
    {
      VErr?
    }

    /** `unwrap()` returns nothing: it only checks the state and aborts on
        an Err, so all it contributes is its precondition. */
    function Unwrap(): (u: ())
      requires IsOk()
      ensures this == VOk
    {
      ()
    }

    /** `expect(msg)`: as `unwrap()`, writing `msg` on the abort path. */
    function Expect(msg: string): (u: ())
      requires IsOk()
      ensures this == VOk
    {
      ()
    }

    /** `unwrap_err()`. */
    function UnwrapErr(): (e: E)
      requires IsErr()
      ensures VErr(e) == this
    {
      error
    }

    /** `expect_err(msg)`. */
    function ExpectErr(msg: string): (e: E)
      requires IsErr()
      ensures VErr(e) == this
      ensures e == UnwrapErr()
    {
      error
    }

    /** `map(func)` with a zero-argument `func`: produces a general Result. */
    function Map<U>(f: () -> U): (r: Result<U, E>)
      ensures r.IsOk() == IsOk()
      ensures IsOk() ==> r.Unwrap() == f()
      ensures IsErr() ==> r.UnwrapErr() == UnwrapErr()
    {
      match this
      case VOk => Ok(f())
      case VErr(e) => Err(e)
    }

    /** `map_err(func)`: an Ok stays a (void) Ok. */
    function MapErr<E2>(g: E -> E2): (r: VoidResult<E2>)
      ensures r.IsOk() == IsOk()
      ensures IsErr() ==> r.UnwrapErr() == g(UnwrapErr())
    {
      match this
      case VOk => VOk
      case VErr(e) => VErr(g(e))
    }

    /** `and_then(func)` where `func()` returns some `Result<U, E>`. */
    function AndThen<U>(f: () -> Result<U, E>): (r: Result<U, E>)
      ensures IsOk() ==> r == f()
      ensures IsErr() ==> r == Err(UnwrapErr())
    {
      match this
      case VOk => f()
      case VErr(e) => Err(e)
    }

    /** `and_then(func)` where `func()` returns a `Result<void, E>`. */
    function AndThenVoid(f: () -> VoidResult<E>): (r: VoidResult<E>)
      ensures IsOk() ==> r == f()
      ensures IsErr() ==> r == VErr(UnwrapErr())
    {
      match this
      case VOk => f()
      case VErr(e) => VErr(e)
    }
  }

  // ---------------------------------------------------------------------
  // Case laws of the general form

  /** `Ok(v)` is ok, not err, and `unwrap` and `unwrap_or` give `v` back. */
  lemma OkLaws<T, E>(v: T, d: T)
    ensures Result<T, E>.Ok(v).IsOk() && !Result<T, E>.Ok(v).IsErr()
    ensures Result<T, E>.Ok(v).Unwrap() == v
    ensures Result<T, E>.Ok(v).UnwrapOr(d) == v
  {
  }

  /** `Err(e)` is err, not ok, `unwrap_err` gives `e` back, and
      `unwrap_or(d)` falls back to `d`. */
  lemma ErrLaws<T, E>(e: E, d: T)
    ensures Result<T, E>.Err(e).IsErr() && !Result<T, E>.Err(e).IsOk()
    ensures Result<T, E>.Err(e).UnwrapErr() == e
    ensures Result<T, E>.Err(e).UnwrapOr(d) == d
  {
  }

  /** Exactly one of `is_ok()` and `is_err()` holds, and the extraction for
      the state that holds recovers the whole value. */
  lemma Discriminant<T, E>(r: Result<T, E>)
    ensures r.IsOk() != r.IsErr()
    ensures r.IsOk() ==> r == Result.Ok(r.Unwrap())
    ensures r.IsErr() ==> r == Result.Err(r.UnwrapErr())
  {
  }

  /** `unwrap_or(d)` is `unwrap_or_else` with a producer returning `d`. */
  lemma UnwrapOrIsUnwrapOrElse<T, E>(r: Result<T, E>, d: T)
    ensures r.UnwrapOr(d) == r.UnwrapOrElse(() => d)
  {
  }

  // ---------------------------------------------------------------------
  // Algebraic laws: map and map_err are functorial, and_then is a monadic
  // bind whose unit is Ok, and map is and_then followed by Ok.

  lemma MapIdentity<T, E>(r: Result<T, E>)
    ensures r.Map(x => x) == r
  {
  }

  lemma MapCompose<T, U, W, E>(r: Result<T, E>, f: T -> U, g: U -> W)
    ensures r.Map(f).Map(g) == r.Map(x => g(f(x)))
  {
  }

  lemma MapErrIdentity<T, E>(r: Result<T, E>)
    ensures r.MapErr(e => e) == r
  {
  }

  lemma MapErrCompose<T, E, E2, E3>(r: Result<T, E>, g: E -> E2, h: E2 -> E3)
    ensures r.MapErr(g).MapErr(h) == r.MapErr(e => h(g(e)))
  {
  }

  /** Transforming the value and transforming the error do not interfere. */
  lemma MapMapErrCommute<T, U, E, E2>(r: Result<T, E>, f: T -> U, g: E -> E2)
    ensures r.Map(f).MapErr(g) == r.MapErr(g).Map(f)
  {
  }

  lemma AndThenLeftUnit<T, U, E>(v: T, f: T -> Result<U, E>)
    ensures Result<T, E>.Ok(v).AndThen(f) == f(v)
  {
  }

  lemma AndThenRightUnit<T, E>(r: Result<T, E>)
    ensures r.AndThen(x => Result<T, E>.Ok(x)) == r
  {
  }

  lemma AndThenAssociative<T, U, W, E>(r: Result<T, E>, f: T -> Result<U, E>, g: U -> Result<W, E>)
    ensures r.AndThen(f).AndThen(g) == r.AndThen(x => f(x).AndThen(g))
  {
  }

  lemma MapIsAndThenOk<T, U, E>(r: Result<T, E>, f: T -> U)
    ensures r.Map(f) == r.AndThen(x => Result<U, E>.Ok(f(x)))
  {
  }

  // ---------------------------------------------------------------------
  // Chains of and_then: once an Err is reached, the rest of the chain is
  // skipped and that error comes out unchanged.

  /** Applies `and_then` with each step in turn: `r.and_then(s0).and_then(s1)...`. */
  function Chain<T, E>(r: Result<T, E>, steps: seq<T -> Result<T, E>>): (c: Result<T, E>)
    ensures r.IsErr() ==> c == r
    decreases |steps|
  {
    if steps == [] then r else Chain(r.AndThen(steps[0]), steps[1..])
  }

  /** A chain may be split anywhere: running `a ++ b` is running `a` and then `b`. */
  lemma {:induction false} ChainAppend<T, E>(r: Result<T, E>, a: seq<T -> Result<T, E>>, b: seq<T -> Result<T, E>>)
    ensures Chain(r, a + b) == Chain(Chain(r, a), b)
    decreases |a|
  {
    if a != [] {
      assert (a + b)[0] == a[0];
      assert (a + b)[1..] == a[1..] + b;
      ChainAppend(r.AndThen(a[0]), a[1..], b);
    } else {
      assert a + b == b;
    }
  }

  /** A chain started Ok whose every step succeeds on every input ends Ok. */
  lemma {:induction false} ChainAllSucceed<T, E>(r: Result<T, E>, steps: seq<T -> Result<T, E>>)
    requires r.IsOk()
    requires forall i, x :: 0 <= i < |steps| ==> steps[i](x).IsOk()
    ensures Chain(r, steps).IsOk()
    decreases |steps|
  {
    if steps != [] {
      ChainAllSucceed(r.AndThen(steps[0]), steps[1..]);
    }
  }

  /** The error of a failed chain is the error of the first step that failed:
      if every step up to `k` succeeds and step `k` fails with `e`, the
      whole chain fails with `e`. */
  lemma {:induction false} ChainStopsAtFirstErr<T, E>(v: T, steps: seq<T -> Result<T, E>>, k: nat, e: E)
    requires k < |steps|
    requires Chain(Result.Ok(v), steps[..k]).IsOk()
    requires steps[k](Chain(Result.Ok(v), steps[..k]).Unwrap()) == Result.Err(e)
    ensures Chain(Result.Ok(v), steps) == Result.Err(e)
  {
    var before := Chain(Result.Ok(v), steps[..k]);
    assert steps == steps[..k] + steps[k..];
    ChainAppend(Result.Ok(v), steps[..k], steps[k..]);
    assert before.AndThen(steps[k]) == Result.Err(e);
    assert Chain(before, steps[k..]) == Chain(Result.Err(e), steps[k + 1..]) by {
      assert steps[k..][0] == steps[k];
      assert steps[k..][1..] == steps[k + 1..];
    }
  }

  // ---------------------------------------------------------------------
  // The void form is the general form with a one-value success type.

  function ToResult<E>(r: VoidResult<E>): (g: Result<(), E>)
    ensures g.IsOk() == r.IsOk()
    ensures r.IsErr() ==> g.UnwrapErr() == r.UnwrapErr()
  {
    match r
    case VOk => Ok(())
    case VErr(e) => Err(e)
  }

  function FromResult<E>(g: Result<(), E>): (r: VoidResult<E>)
    ensures r.IsOk() == g.IsOk()
    ensures g.IsErr() ==> r.UnwrapErr() == g.UnwrapErr()
  {
    match g
    case Ok(_) => VOk
    case Err(e) => VErr(e)
  }

  lemma VoidRoundTrip<E>(r: VoidResult<E>, g: Result<(), E>)
    ensures FromResult(ToResult(r)) == r
    ensures ToResult(FromResult(g)) == g
  {
    match g
    case Ok(u) => assert u == ();
    case Err(_) =>
  }

  /** Each combinator of the void form does what the general one does with
      the unit value in place of the missing payload. */
  lemma VoidAgreesWithGeneral<U, E, E2>(r: VoidResult<E>, f: () -> U, g: E -> E2,
                                         k: () -> Result<U, E>, kv: () -> VoidResult<E>)
    ensures r.Map(f) == ToResult(r).Map(_ => f())
    ensures ToResult(r.MapErr(g)) == ToResult(r).MapErr(g)
    ensures r.AndThen(k) == ToResult(r).AndThen(_ => k())
    ensures r.AndThenVoid(kv) == ToResult(r).AndThenVoid(_ => kv())
  {
  }

  /** `Ok().map(f)` is `Ok(f())`; `Err(e).map(f)` keeps `e`; `Ok().map_err(g)`
      stays Ok; `Ok().and_then(f)` is `f()`; `Err(e).and_then(f)` is `Err(e)`. */
  lemma VoidCaseLaws<U, E, E2>(e: E, f: () -> U, g: E -> E2, k: () -> Result<U, E>)
    ensures VoidResult<E>.VOk.IsOk() && !VoidResult<E>.VOk.IsErr()
    ensures VoidResult<E>.VErr(e).IsErr() && VoidResult<E>.VErr(e).UnwrapErr() == e
    ensures VoidResult<E>.VOk.Map(f) == Result.Ok(f())
    ensures VoidResult<E>.VErr(e).Map(f) == Result.Err(e)
    ensures VoidResult<E>.VOk.MapErr(g) == VOk
    ensures VoidResult<E>.VErr(e).MapErr(g) == VErr(g(e))
    ensures VoidResult<E>.VOk.AndThen(k) == k()
    ensures VoidResult<E>.VErr(e).AndThen(k) == Result.Err(e)
  {
  }
}
