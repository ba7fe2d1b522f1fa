/** The storage of the general `Result<T, E>` (include/result.hpp:99-167):
    a union `data_` of a `T value` and an `E error`, and the flag `is_ok_`.
    The union members share storage and are built with placement-new and
    ended with explicit destructor calls, so the code itself must keep
    `is_ok_` in step with which member is alive.

    The class below keeps ghost "alive" flags for the two members and a
    ghost log of every construction and destruction in this object's
    storage. Placing a member requires that neither member is alive, and
    destroying requires a valid object, so every method that verifies never
    builds over a live member. `Valid()` states that exactly the member named
    by `is_ok_` is alive and that the log alternates build, matching destroy,
    build, ..., ending in the build of the live member.
 */
module ResultStorage {
  import opened Results

  /** One event in the lifetime of a union member. */
  datatype Lifetime<T, E> = BuiltValue(v: T) | BuiltError(e: E) | DestroyedValue | DestroyedError
  {
    predicate IsBirth() { BuiltValue? || BuiltError? }
    predicate OnValue() { BuiltValue? || DestroyedValue? }
  }

  /** The construction event that brings the payload of `r` to life. */
  function BirthOf<T, E>(r: Result<T, E>): (ev: Lifetime<T, E>)
    ensures ev.IsBirth() && ev.OnValue() == r.IsOk()
  {
    match r
    case Ok(v) => BuiltValue(v)
    case Err(e) => BuiltError(e)
  }

  /** The destructor call that ends the payload of `r`. */
  function DeathOf<T, E>(r: Result<T, E>): (ev: Lifetime<T, E>)
    ensures !ev.IsBirth() && ev.OnValue() == r.IsOk()
  {
    if r.IsOk() then DestroyedValue else DestroyedError
  }

  /** Builds and destructions alternate, starting with a build, and each
      destruction ends the member built just before it. */
  ghost predicate Paired<T, E>(log: seq<Lifetime<T, E>>)
  {
    && (forall i :: 0 <= i < |log| ==> (log[i].IsBirth() <==> i % 2 == 0))
    && (forall i :: 0 < i < |log| && i % 2 == 1 ==> log[i].OnValue() == log[i - 1].OnValue())
  }

  lemma PairedAppendBirth<T, E>(log: seq<Lifetime<T, E>>, ev: Lifetime<T, E>)
    requires Paired(log) && |log| % 2 == 0 && ev.IsBirth()
    ensures Paired(log + [ev])
  {
  }

  lemma PairedAppendDeath<T, E>(log: seq<Lifetime<T, E>>, ev: Lifetime<T, E>)
    requires Paired(log) && |log| % 2 == 1 && !ev.IsBirth()
    requires ev.OnValue() == log[|log| - 1].OnValue()
    ensures Paired(log + [ev])
  {
  }

  class Storage<T(0), E(0)> {
    /** `is_ok_` */
    var isOk: bool
    /** `data_.value`; meaningful only while `valueAlive` */
    var value: T
    /** `data_.error`; meaningful only while `errorAlive` */
    var error: E

    ghost var valueAlive: bool
    ghost var errorAlive: bool
    ghost var log: seq<Lifetime<T, E>>

    /** The object invariant of a live `Result`. */
    ghost predicate Valid()
      reads this
    {
      && valueAlive == isOk
      && errorAlive == !isOk
      && Paired(log)
      && |log| % 2 == 1
      && log[|log| - 1].OnValue() == isOk
    }

    /** No member is alive and every member built has been destroyed:
        the state after `destroy()`, and before the first placement. */
    ghost predicate Ended()
      reads this
    {
      !valueAlive && !errorAlive && Paired(log) && |log| % 2 == 0
    }

    /** The value this object stands for. */
    ghost function Contents(): Result<T, E>
      reads this
      requires Valid()
    {
      if isOk then Result.Ok(value) else Result.Err(error)
    }

    /** `new (&data_.value) T(v)`, after `is_ok_` was set to true. */
    method PlaceValue(v: T)
      requires Ended() && isOk
      modifies this`value, this`valueAlive, this`log
      ensures Valid() && Contents() == Result.Ok(v)
      ensures log == old(log) + [BuiltValue(v)]
    {
      PairedAppendBirth(log, BuiltValue(v));
      value, valueAlive, log := v, true, log + [BuiltValue(v)];
    }

    /** `new (&data_.error) E(e)`, after `is_ok_` was set to false. */
    method PlaceError(e: E)
      requires Ended() && !isOk
      modifies this`error, this`errorAlive, this`log
      ensures Valid() && Contents() == Result.Err(e)
      ensures log == old(log) + [BuiltError(e)]
    {
      PairedAppendBirth(log, BuiltError(e));
      error, errorAlive, log := e, true, log + [BuiltError(e)];
    }

    /** `destroy()`: runs the destructor of the member `is_ok_` names. The
        destructor `~Result()` is exactly this call. */
    method Destroy()
      requires Valid()
      modifies this`valueAlive, this`errorAlive, this`log
      ensures Ended()
      ensures log == old(log) + [DeathOf(old(Contents()))]
    {
      PairedAppendDeath(log, DeathOf(Contents()));
      log := log + [DeathOf(Contents())];
      if isOk {
        valueAlive := false;
      } else {
        errorAlive := false;
      }
    }

    /** `Result::Ok(val)` and the private `Result(T val)`: sets `is_ok_`
        and builds only the value member. */
    constructor Ok(v: T)
      ensures Valid() && Contents() == Result.Ok(v)
      ensures log == [BuiltValue(v)]
    {
      isOk := true;
      valueAlive, errorAlive, log := false, false, [];
      new;
      PlaceValue(v);
    }

    /** `Result::Err(err)` and the private `Result(E err)`. */
    constructor Err(e: E)
      ensures Valid() && Contents() == Result.Err(e)
      ensures log == [BuiltError(e)]
    {
      isOk := false;
      valueAlive, errorAlive, log := false, false, [];
      new;
      PlaceError(e);
    }

    /** The copy constructor: same discriminant, only the matching member
        is built, as a copy of `other`'s; `other` is not touched. */
    constructor CopyFrom(other: Storage<T, E>)
      requires other.Valid()
      ensures Valid() && Contents() == other.Contents()
      ensures log == [BirthOf(other.Contents())]
    {
      isOk := other.isOk;
      valueAlive, errorAlive, log := false, false, [];
      new;
      if isOk {
        PlaceValue(other.value);
      } else {
        PlaceError(other.error);
      }
    }

    /** The move constructor: as the copy constructor, except that the
        payload left in `other` is whatever the payload type's move
        constructor leaves (unspecified here). `other` keeps its discriminant
        and its live member, so its own destructor stays correct. */
    constructor MoveFrom(other: Storage<T, E>)
      requires other.Valid()
      modifies other`value, other`error
      ensures Valid() && Contents() == old(other.Contents())
      ensures log == [BirthOf(old(other.Contents()))]
      ensures other.Valid() && other.isOk == old(other.isOk) && other.log == old(other.log)
    {
      isOk := other.isOk;
      valueAlive, errorAlive, log := false, false, [];
      new;
      if isOk {
        PlaceValue(other.value);
        var rest: T :| true;
        other.value := rest;
      } else {
        PlaceError(other.error);
        var rest: E :| true;
        other.error := rest;
      }
    }

    /** Copy assignment. Unless `other` is this object, it first destroys
        the live member, then copies `is_ok_` and builds only the matching
        member from `other`'s. Self-assignment changes nothing. */
    method CopyAssign(other: Storage<T, E>)
      requires Valid() && other.Valid()
      modifies this
      ensures Valid() && Contents() == old(other.Contents())
      ensures other == this ==> unchanged(this)
      ensures other != this ==>
        log == old(log) + [DeathOf(old(Contents())), BirthOf(old(other.Contents()))]
    {
      if this != other {
        Destroy();
        isOk := other.isOk;
        if isOk {
          PlaceValue(other.value);
        } else {
          PlaceError(other.error);
        }
      }
    }

    /** Move assignment: as copy assignment, and `other`'s payload is left
        as the payload type's move leaves it. */
    method MoveAssign(other: Storage<T, E>)
      requires Valid() && other.Valid()
      modifies this, other
      ensures Valid() && Contents() == old(other.Contents())
      ensures other == this ==> unchanged(this)
      ensures other != this ==>
        && log == old(log) + [DeathOf(old(Contents())), BirthOf(old(other.Contents()))]
        && other.Valid() && other.isOk == old(other.isOk) && other.log == old(other.log)
    {
      if this != other {
        Destroy();
        isOk := other.isOk;
        if isOk {
          PlaceValue(other.value);
          var rest: T :| true;
          other.value := rest;
        } else {
          PlaceError(other.error);
          var rest: E :| true;
          other.error := rest;
        }
      }
    }

    /** `unwrap()` on the storage: reads `data_.value`, which the
        precondition (the abort) guarantees is the live member. */
    method Unwrap() returns (v: T)
      requires Valid() && isOk
      ensures valueAlive
      ensures Result.Ok(v) == Contents()
    {
      v := value;
    }

    /** `unwrap_err()` on the storage: reads `data_.error`, the live member. */
    method UnwrapErr() returns (e: E)
      requires Valid() && !isOk
      ensures errorAlive
      ensures Result.Err(e) == Contents()
    {
      e := error;
    }
  }
}
