/** The storage of `Result<void, E>` (include/result.hpp:229-270).

    Unlike the general form, `error_` is a plain member, not a union
    member: every constructor default-constructs it before its body runs,
    so an `E` lives in `error_` for the object's whole lifetime, in the Ok
    state too. The Err constructor, the copy and move constructors and both
    assignments then placement-new a further `E` over `error_` without
    calling the destructor of the one already there. That earlier object is
    abandoned: its storage is reused and its destructor never runs (for an
    `E` that owns memory, the memory leaks). The implicit destructor ends
    only the last one.

    `VoidStorage` models the code as written and counts the abandoned
    objects in a ghost field. `VoidStorageCorrected` destroys the live `E`
    before each placement, as `destroy()` does in the general form, and
    keeps that count at zero.
 */
module VoidResultStorage {
  import opened Results

  /** The abandonment count after `new (&error_) E(...)`: building over a
      live `E` reuses its storage without running its destructor. Both
      classes below place through this one rule. */
  function AfterPlacement(abandoned: nat, wasAlive: bool): (n: nat)
    ensures n >= abandoned
    ensures n == abandoned <==> !wasAlive
    ensures wasAlive ==> n == abandoned + 1
  {
    if wasAlive then abandoned + 1 else abandoned
  }

  /** `Result<void, E>` as written. */
  class VoidStorage<E(0)> {
    /** `is_ok_` */
    var isOk: bool
    /** `error_`; always holds a live `E`, the payload only when `!isOk` */
    var error: E

    ghost var errorAlive: bool
    /** `E` objects whose storage was reused while they were alive */
    ghost var abandoned: nat

    /** A live object: the member `error_` is alive. */
    ghost predicate Valid()
      reads this
    {
      errorAlive
    }

    ghost function Contents(): VoidResult<E>
      reads this
      requires Valid()
    {
      if isOk then VOk else VErr(error)
    }

    /** `new (&error_) E(e)`: reusing the storage of a live `E` abandons it. */
    method PlaceError(e: E)
      modifies this`error, this`errorAlive, this`abandoned
      ensures error == e && errorAlive
      ensures abandoned == AfterPlacement(old(abandoned), old(errorAlive))
    {
      abandoned := AfterPlacement(abandoned, errorAlive);
      error, errorAlive := e, true;
    }

    /** `Result::Ok()` and the private `Result()`: `error_` is only
        default-constructed (the field's initial value stands for `E()`). */
    constructor Ok()
      ensures Valid() && Contents() == VOk
      ensures abandoned == 0
    {
      isOk := true;
      errorAlive, abandoned := true, 0;
    }

    /** `Result::Err(err)` and the private `Result(E err)`: the
        default-constructed `error_` is overwritten by placement-new. */
    constructor Err(e: E)
      ensures Valid() && Contents() == VErr(e)
      ensures abandoned == 1
    {
      isOk := false;
      errorAlive, abandoned := true, 0;
      new;
      PlaceError(e);
    }

    /** The copy constructor: on an Err, a copy of `other`'s error is placed
        over the default-constructed `error_`. */
    constructor CopyFrom(other: VoidStorage<E>)
      requires other.Valid()
      ensures Valid() && Contents() == other.Contents()
      ensures abandoned == if other.isOk then 0 else 1
    {
      isOk := other.isOk;
      errorAlive, abandoned := true, 0;
      new;
      if !isOk {
        PlaceError(other.error);
      }
    }

    /** The move constructor: as the copy constructor; the error left in
        `other` is whatever `E`'s move constructor leaves (unspecified here). */
    constructor MoveFrom(other: VoidStorage<E>)
      requires other.Valid()
      modifies other`error
      ensures Valid() && Contents() == old(other.Contents())
      ensures abandoned == if other.isOk then 0 else 1
      ensures other.Valid() && other.isOk == old(other.isOk) && other.abandoned == old(other.abandoned)
    {
      isOk := other.isOk;
      errorAlive, abandoned := true, 0;
      new;
      if !isOk {
        PlaceError(other.error);
        var rest: E :| true;
        other.error := rest;
      }
    }

    /** Copy assignment as written: unless `other` is this object, copy
        `is_ok_` and, on an Err, place a copy of `other`'s error over the
        live `error_`, abandoning it. */
    method CopyAssign(other: VoidStorage<E>)
      requires Valid() && other.Valid()
      modifies this
      ensures Valid() && Contents() == old(other.Contents())
      ensures other == this ==> unchanged(this)
      ensures abandoned == old(abandoned) + (if other != this && !old(other.isOk) then 1 else 0)
    {
      if this != other {
        isOk := other.isOk;
        if !isOk {
          PlaceError(other.error);
        }
      }
    }

    /** Move assignment as written: as copy assignment, and `other`'s
        error is left as `E`'s move leaves it. */
    method MoveAssign(other: VoidStorage<E>)
      requires Valid() && other.Valid()
      modifies this, other`error
      ensures Valid() && Contents() == old(other.Contents())
      ensures other == this ==> unchanged(this)
      ensures abandoned == old(abandoned) + (if other != this && !old(other.isOk) then 1 else 0)
      ensures other != this ==> other.Valid() && other.isOk == old(other.isOk)
    {
      if this != other {
        isOk := other.isOk;
        if !isOk {
          PlaceError(other.error);
          var rest: E :| true;
          other.error := rest;
        }
      }
    }

    /** The implicit destructor: ends the one `E` left in `error_`. */
    method Destruct()
      requires Valid()
      modifies this`errorAlive
      ensures !errorAlive
    {
      errorAlive := false;
    }

    /** `unwrap_err()` on the storage. */
    method UnwrapErr() returns (e: E)
      requires Valid() && !isOk
      ensures VErr(e) == Contents()
    {
      e := error;
    }
  }

  /** `Err(e1)` assigned `Err(e2)` as written: the default `E` of the first
      object and then its copy of `e1` are both abandoned. */
  method ReassignAbandons<E(0)>(e1: E, e2: E) returns (r: VoidStorage<E>)
    ensures r.Valid() && r.Contents() == VErr(e2)
    ensures r.abandoned == 2
  {
    r := new VoidStorage.Err(e1);
    var s := new VoidStorage.Err(e2);
    r.CopyAssign(s);
  }

  /** `Result<void, E>` with every placement over `error_` preceded by a
      destructor call on the `E` living there. */
  class VoidStorageCorrected<E(0)> {
    var isOk: bool
    var error: E

    ghost var errorAlive: bool
    ghost var abandoned: nat

    /** A live object: `error_` is alive and no `E` was ever abandoned. */
    ghost predicate Valid()
      reads this
    {
      errorAlive && abandoned == 0
    }

    ghost function Contents(): VoidResult<E>
      reads this
      requires Valid()
    {
      if isOk then VOk else VErr(error)
    }

    /** `new (&error_) E(e)`: the same placement as `VoidStorage.PlaceError`,
        under the same `AfterPlacement` rule; here every caller has ended
        the live `E` first. */
    method PlaceError(e: E)
      modifies this`error, this`errorAlive, this`abandoned
      ensures error == e && errorAlive
      ensures abandoned == AfterPlacement(old(abandoned), old(errorAlive))
    {
      abandoned := AfterPlacement(abandoned, errorAlive);
      error, errorAlive := e, true;
    }

    /** `error_.~E()` */
    method DestroyError()
      requires errorAlive
      modifies this`errorAlive
      ensures !errorAlive
    {
      errorAlive := false;
    }

    /** `error_.~E()` followed by `new (&error_) E(e)`. */
    method ReplaceError(e: E)
      requires Valid()
      modifies this`error, this`errorAlive, this`abandoned
      ensures Valid() && error == e
    {
      DestroyError();
      PlaceError(e);
    }

    /** `Result::Ok()` and the private `Result()`, unchanged: only the
        default `E` is in `error_`, and nothing is abandoned. */
    constructor Ok()
      ensures Valid() && Contents() == VOk
    {
      isOk := true;
      errorAlive, abandoned := true, 0;
    }

    constructor Err(e: E)
      ensures Valid() && Contents() == VErr(e)
    {
      isOk := false;
      errorAlive, abandoned := true, 0;
      new;
      ReplaceError(e);
    }

    constructor CopyFrom(other: VoidStorageCorrected<E>)
      requires other.Valid()
      ensures Valid() && Contents() == other.Contents()
    {
      isOk := other.isOk;
      errorAlive, abandoned := true, 0;
      new;
      if !isOk {
        ReplaceError(other.error);
      }
    }

    constructor MoveFrom(other: VoidStorageCorrected<E>)
      requires other.Valid()
      modifies other`error
      ensures Valid() && Contents() == old(other.Contents())
      ensures other.Valid() && other.isOk == old(other.isOk)
    {
      isOk := other.isOk;
      errorAlive, abandoned := true, 0;
      new;
      if !isOk {
        ReplaceError(other.error);
        var rest: E :| true;
        other.error := rest;
      }
    }

    /** Copy assignment, corrected: the live `E` is destroyed before the
        copy of `other`'s error is placed. Self-assignment changes nothing. */
    method CopyAssign(other: VoidStorageCorrected<E>)
      requires Valid() && other.Valid()
      modifies this
      ensures Valid() && Contents() == old(other.Contents())
      ensures other == this ==> unchanged(this)
    {
      if this != other {
        isOk := other.isOk;
        if !isOk {
          ReplaceError(other.error);
        }
      }
    }

    /** Move assignment, corrected in the same way. */
    method MoveAssign(other: VoidStorageCorrected<E>)
      requires Valid() && other.Valid()
      modifies this, other`error
      ensures Valid() && Contents() == old(other.Contents())
      ensures other == this ==> unchanged(this)
      ensures other != this ==> other.Valid() && other.isOk == old(other.isOk)
    {
      if this != other {
        isOk := other.isOk;
        if !isOk {
          ReplaceError(other.error);
          var rest: E :| true;
          other.error := rest;
        }
      }
    }

    /** The implicit destructor: ends the only `E` there is. */
    method Destruct()
      requires Valid()
      modifies this`errorAlive
      ensures !errorAlive && abandoned == 0
    {
      DestroyError();
    }
  }

  /** The same reassignment as `ReassignAbandons`, on the corrected form. */
  method ReassignReleases<E(0)>(e1: E, e2: E) returns (r: VoidStorageCorrected<E>)
    ensures r.Valid() && r.Contents() == VErr(e2)
    ensures r.abandoned == 0
  {
    r := new VoidStorageCorrected.Err(e1);
    var s := new VoidStorageCorrected.Err(e2);
    r.CopyAssign(s);
  }
}
