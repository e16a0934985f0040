/**
 * `SafeDeleteModel` (`src/core/soft_delete.py`): an object is soft-deleted by stamping
 * `deleted_at` (and `deleted_by` when a user is given) and restored by clearing both. Only the two
 * soft-delete columns are modelled; `save(update_fields=...)` is recorded as the list of columns
 * it writes.
 */
module SoftDelete {
  import opened Common

  const AlreadyDeleted := "This object is already deleted"
  const NotDeleted := "This object is not deleted"
  const SoftDeleteFields := ["deleted_at", "deleted_by"]

  class SafeDeleteModel {
    var deletedAt: Option<int>
    var deletedBy: Option<nat>
    /** The `update_fields` of the last `save`, if any. */
    var lastSave: Option<seq<string>>

    /** An active object has nobody recorded as its deleter. */
    ghost predicate Valid()
      reads this
    {
      deletedAt.None? ==> deletedBy.None?
    }

    /** A new object is active. */
    constructor ()
      ensures Valid() && IsActive() && deletedBy == None && lastSave == None
    {
      deletedAt, deletedBy, lastSave := None, None, None;
    }

    /** `is_deleted`. */
    predicate IsDeleted()
      reads this
    {
      deletedAt != None
    }

    /** `is_active`. */
    predicate IsActive()
      reads this
    {
      deletedAt == None
    }

    /** `delete(user)`: refuse an object already deleted, otherwise stamp it and save both columns. */
    method Delete(user: Option<nat>, now: int) returns (r: Result<(), string>)
      requires Valid()
      modifies this
      ensures Valid()
      ensures old(IsDeleted()) ==> r == Err(AlreadyDeleted) && unchanged(this)
      ensures !old(IsDeleted()) ==>
        && r.Ok? && IsDeleted() && deletedAt == Some(now)
        && deletedBy == user
        && lastSave == Some(SoftDeleteFields)
    {
      if IsDeleted() {
        return Err(AlreadyDeleted);
      }
      deletedAt := Some(now);
      if user.Some? {
        deletedBy := user;
      }
      lastSave := Some(SoftDeleteFields);
      r := Ok(());
    }

    /** `restore()`: refuse an object that is not deleted, otherwise clear both columns and save them. */
    method Restore() returns (r: Result<(), string>)
      requires Valid()
      modifies this
      ensures Valid()
      ensures !old(IsDeleted()) ==> r == Err(NotDeleted) && unchanged(this)
      ensures old(IsDeleted()) ==>
        r.Ok? && IsActive() && deletedAt == None && deletedBy == None && lastSave == Some(SoftDeleteFields)
    {
      if !IsDeleted() {
        return Err(NotDeleted);
      }
      deletedAt := None;
      deletedBy := None;
      lastSave := Some(SoftDeleteFields);
      r := Ok(());
    }
  }

  /** `is_active` is exactly `not is_deleted`. */
  lemma ActiveIsNotDeleted(o: SafeDeleteModel)
    ensures o.IsActive() <==> !o.IsDeleted()
  {
  }

  /** Deleting and then restoring an active object succeeds twice and leaves it active with no deleter. */
  method DeleteThenRestore(o: SafeDeleteModel, user: Option<nat>, now: int) returns (d: Result<(), string>, r: Result<(), string>)
    requires o.Valid() && o.IsActive()
    modifies o
    ensures d.Ok? && r.Ok?
    ensures o.Valid() && o.IsActive() && o.deletedBy == None
  {
    d := o.Delete(user, now);
    r := o.Restore();
  }

  /** A second delete is refused and changes nothing. */
  method DeleteTwice(o: SafeDeleteModel, user: Option<nat>, now: int, later: int) returns (second: Result<(), string>)
    requires o.Valid() && o.IsActive()
    modifies o
    ensures second == Err(AlreadyDeleted)
    ensures o.deletedAt == Some(now) && o.deletedBy == user
  {
    var first := o.Delete(user, now);
    second := o.Delete(user, later);
  }
}
