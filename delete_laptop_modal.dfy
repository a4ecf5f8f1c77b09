/** The confirmation modal for deleting a laptop: only an available laptop may be deleted, the
    buttons are disabled while the deletion runs, and the warning names the blocking status. */
module DeleteLaptopModal {
  import opened Wrappers
  import opened Records

  /** `canDelete`. */
  predicate CanDelete(l: Laptop) {
    l.status == Some(Disponible)
  }

  /** The delete button is disabled exactly when deletion is not allowed or already running. */
  function DeleteDisabled(l: Laptop, isDeleting: bool): (disabled: bool)
    ensures !disabled <==> l.status == Some(Disponible) && !isDeleting
  {
    !CanDelete(l) || isDeleting
  }

  /** The status named in the blocked-deletion warning. */
  function BlockedLabel(l: Laptop): (word: string)
    ensures word == "en uso" <==> l.status == Some(EnUso)
    ensures word == "en mantenimiento" <==> l.status != Some(EnUso)
  {
    if l.status == Some(EnUso) then "en uso" else "en mantenimiento"
  }

  class Modal {
    const laptop: Laptop
    var isDeleting: bool

    constructor (l: Laptop)
      ensures laptop == l && !isDeleting
    {
      laptop := l;
      isDeleting := false;
    }

    /** The cancel button is disabled while the deletion runs. */
    function CancelDisabled(): bool
      reads this
    {
      isDeleting
    }

    /** `handleConfirm`: `isDeleting` is set while `onConfirm(laptop.id)` runs and cleared
        afterwards. A throw from `onConfirm` is only logged, and the `finally` block clears the
        flag either way, so the outcome does not depend on whether it throws. */
    method HandleConfirm() returns (calledWith: string, deletingDuringCall: bool)
      modifies this
      ensures calledWith == laptop.id && deletingDuringCall && !isDeleting
    {
      isDeleting := true;
      calledWith := laptop.id;
      deletingDuringCall := isDeleting;
      isDeleting := false;
    }

    /** A click on the delete button: it reaches `handleConfirm` only when the button is enabled. */
    method ClickDelete() returns (calledWith: Option<string>)
      modifies this
      ensures calledWith.Some? <==> CanDelete(laptop) && !old(isDeleting)
      ensures calledWith.Some? ==> calledWith.value == laptop.id && !isDeleting
      ensures calledWith.None? ==> isDeleting == old(isDeleting)
    {
      if DeleteDisabled(laptop, isDeleting) {
        return None;
      }
      var id, _ := HandleConfirm();
      return Some(id);
    }
  }
}
