/** The form that renames a lawyer: the name is required, and taken only when it differs from the
    lawyer's own name ignoring case and some listed lawyer has it ignoring case. */
module EditLawyerModal {
  import opened Wrappers
  import opened Text
  import opened Seqs
  import opened Records
  import opened Messages
  import opened LawyerService

  /** Some listed lawyer has this name, ignoring case (and not ignoring spaces). */
  predicate NameInUse(existing: seq<Lawyer>, name: string) {
    exists i :: 0 <= i < |existing| && ToLower(existing[i].name) == ToLower(name)
  }

  /** The message `validateForm` shows, or `None` when it returns true. */
  function ValidationError(name: string, original: Lawyer, existing: seq<Lawyer>): Option<Message>
  {
    if IsBlank(name) then Some(NameRequired)
    else if ToLower(name) != ToLower(original.name) && NameInUse(existing, name) then Some(NameTaken)
    else None
  }

  /** Which message is shown: "required" exactly for a blank name, "taken" for a non-blank name
      that differs from the lawyer's own ignoring case and that a listed lawyer has, and none
      otherwise. */
  lemma ValidationErrorCases(name: string, original: Lawyer, existing: seq<Lawyer>)
    ensures ValidationError(name, original, existing) == Some(NameRequired) <==> IsBlank(name)
    ensures ValidationError(name, original, existing) == Some(NameTaken) <==>
      !IsBlank(name) && ToLower(name) != ToLower(original.name) && NameInUse(existing, name)
    ensures ValidationError(name, original, existing) == None <==>
      !IsBlank(name) && (ToLower(name) == ToLower(original.name) || !NameInUse(existing, name))
  {
  }

  /** The duplicate-name check ignores case: an upper-cased name is judged like the name as typed. */
  lemma ValidationIgnoresCase(name: string, original: Lawyer, existing: seq<Lawyer>)
    ensures ValidationError(ToUpper(name), original, existing) == ValidationError(name, original, existing)
  {
    BlankIgnoresCase(name);
    LowerOfUpper(name);
  }

  /** Re-casing the lawyer's own name passes, although the lawyer itself is listed. */
  lemma RecasingOwnNamePasses(original: Lawyer, existing: seq<Lawyer>)
    requires !IsBlank(original.name)
    ensures ValidationError(ToUpper(original.name), original, existing) == None
    ensures ValidationError(ToLower(original.name), original, existing) == None
  {
    BlankIgnoresCase(original.name);
    LowerOfUpper(original.name);
    assert ToLower(ToLower(original.name)) == ToLower(original.name);
  }

  /** Helper of UntrimmedCheckAdmitsListedName: "A " is not blank and trims to "A". */
  lemma TrailingSpaceTrims()
    ensures !IsBlank("A ") && Trim("A ") == "A"
  {
    assert !IsSpace("A "[0]);
    assert TrimStart("A ") == "A ";
    assert "A "[..1] == "A";
  }

  /** Helper of UntrimmedCheckAdmitsListedName: no listed name of another length matches,
      whatever the case. */
  lemma NotInUseByLength(existing: seq<Lawyer>, name: string)
    requires forall i :: 0 <= i < |existing| ==> |existing[i].name| != |name|
    ensures !NameInUse(existing, name)
  {
    forall i | 0 <= i < |existing|
      ensures ToLower(existing[i].name) != ToLower(name)
    {
      assert |ToLower(existing[i].name)| != |ToLower(name)|;
    }
  }

  /** The duplicate-name check sees the untrimmed name while the trimmed one is stored: a name with a trailing
      space passes even though, once trimmed, a listed lawyer has it. */
  lemma UntrimmedCheckAdmitsListedName()
    ensures var other := Lawyer("2", "A", 0, 0);
      ValidationError("A ", Lawyer("1", "B", 0, 0), [other]) == None && Trim("A ") == other.name
  {
    var other := Lawyer("2", "A", 0, 0);
    var original := Lawyer("1", "B", 0, 0);
    TrailingSpaceTrims();
    assert |ToLower("A ")| != |ToLower(original.name)|;
    NotInUseByLength([other], "A ");
  }

  /** The update sent: only the trimmed name. */
  function UpdatePayload(name: string): (u: LawyerUpdates)
    ensures u.name == Defined(Trim(name))
  {
    LawyerUpdates(Defined(Trim(name)))
  }

  class Form {
    const lawyer: Lawyer
    var name: string
    var error: Option<Message>
    var isLoading: bool

    constructor (l: Lawyer)
      ensures lawyer == l && name == l.name && error == None && !isLoading
    {
      lawyer := l;
      name, error, isLoading := l.name, None, false;
    }

    method Validate(existing: seq<Lawyer>) returns (ok: bool)
      modifies this
      ensures error == ValidationError(old(name), lawyer, existing)
      ensures ok <==> error == None
      ensures name == old(name) && isLoading == old(isLoading)
    {
      var current := name;
      var e := ValidationError(current, lawyer, existing);
      error := e;
      ok := e == None;
    }

    /** `handleSubmit`: an invalid form updates nothing; a valid one sends the trimmed name for
        this lawyer's id, with `isLoading` set during the call; a failed call shows an error. */
    method HandleSubmit(existing: seq<Lawyer>, table: LawyerTable, fault: bool)
      returns (updated: Option<Lawyer>, loadingDuringCall: bool)
      requires table.Valid()
      modifies this, table
      ensures table.Valid() && name == old(name)
      ensures ValidationError(old(name), lawyer, existing) != None ==>
        updated == None && table.rows == old(table.rows) && isLoading == old(isLoading)
        && error == ValidationError(old(name), lawyer, existing)
      ensures ValidationError(old(name), lawyer, existing) == None ==>
        loadingDuringCall && !isLoading
        && (updated.None? <==> fault || !HasKey(old(table.rows), LawyerRowId, lawyer.id))
        && (updated.None? ==> table.rows == old(table.rows) && error == Some(LawyerUpdateFailed))
        && (updated.Some? ==>
              table.rows == UpdateWhere(old(table.rows), LawyerRowId, lawyer.id, Updater(UpdatePayload(old(name))))
              && updated.value.id == lawyer.id && updated.value.name == Trim(old(name)) && error == None)
    {
      var current := name;
      var e := ValidationError(current, lawyer, existing);
      error := e;
      if e != None {
        return None, false;
      }
      isLoading := true;
      loadingDuringCall := isLoading;
      var res := table.UpdateLawyer(lawyer.id, UpdatePayload(current), fault);
      if res.Err? {
        error := Some(LawyerUpdateFailed);
        updated := None;
      } else {
        updated := Some(res.value);
      }
      isLoading := false;
    }

    /** `handleNameChange`: the name as typed (no case change), and no error shown. */
    method HandleNameChange(value: string)
      modifies this
      ensures name == value && error == None && isLoading == old(isLoading)
    {
      name := value;
      if error != None {
        error := None;
      }
    }
  }
}
