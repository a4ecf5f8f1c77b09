/** The assign / return modal: the lawyer-name suggestions, the lawyer selection, and the submit
    rule for both modes. */
module AssignmentModal {
  import opened Wrappers
  import opened Text
  import opened Seqs
  import opened Records

  /** The fixed list of lawyer names offered as suggestions. */
  const Lawyers: seq<string> := [
    "Lic. Victor Medina", "Lic. Edgar Magallan", "Lic. Cesar Rocha", "Lic. Guadalupe Cruz",
    "Lic. Arturo Aguilar", "Lic. Rafael Angeles", "Lic. Ivan Ramirez", "Lic. Amando Mastachi",
    "Lic. Jorge Ramirez", "Lic. Humberto Montes", "Lic. Andrea Suarez", "Lic. Juan Moran",
    "Lic. Neftali Gracida", "Lic. Dulce Gomez", "Lic. Luis Meneses", "Lic. Adan Moctezuma",
    "Lic. Renato Toledo", "Lic. Armando Gomez", "Lic. Jannet Delgado", "Lic. Brayan Lara",
    "Lic. Luis Manjarrez", "Lic. Melissa Ortiz"
  ]

  /** `lawyer => lawyer.toLowerCase().includes(value.toLowerCase())`. */
  function Matcher(value: string): string -> bool {
    (lawyer: string) => Contains(ToLower(lawyer), ToLower(value))
  }

  /** The names of `names` that contain `value`, ignoring case. */
  function Suggestions(names: seq<string>, value: string): seq<string> {
    Filter(names, Matcher(value))
  }

  /** A name is suggested exactly when it is in the list and contains the typed value, ignoring
      case. */
  lemma SuggestionsMembers(names: seq<string>, value: string, name: string)
    ensures name in Suggestions(names, value) <==> name in names && Contains(ToLower(name), ToLower(value))
  {
    FilterMembership(names, Matcher(value), name);
  }

  /** The suggestions keep the order of the list. */
  lemma SuggestionsInOrder(names: seq<string>, value: string)
    ensures IsSubsequence(Suggestions(names, value), names)
  {
    FilterIsSubsequence(names, Matcher(value));
  }

  /** Typing in upper case suggests the same names. */
  lemma SuggestionsIgnoreCase(names: seq<string>, value: string)
    ensures Suggestions(names, ToUpper(value)) == Suggestions(names, value)
  {
    LowerOfUpper(value);
    assert Matcher(ToUpper(value)) == Matcher(value);
  }

  /** What a submit asks the parent to do. */
  datatype SubmitCall =
    | NoCall
    | Return(laptopId: string, notes: string)
    | Assign(laptopId: string, userName: string, purpose: string)

  /** `handleSubmit`: in return mode `onReturn(laptop.id, returnNotes)`, unchecked; in assign mode
      `onAssign` with the trimmed name and purpose, and only when neither is blank. */
  function SubmitOutcome(isReturning: bool, laptopId: string, userName: string, purpose: string,
                         returnNotes: string): (c: SubmitCall)
    ensures isReturning ==> c == Return(laptopId, returnNotes)
    ensures !isReturning && (IsBlank(userName) || IsBlank(purpose)) ==> c == NoCall
    ensures !isReturning && !IsBlank(userName) && !IsBlank(purpose) ==>
      c == Assign(laptopId, Trim(userName), Trim(purpose)) && Trim(userName) != "" && Trim(purpose) != ""
  {
    if isReturning then Return(laptopId, returnNotes)
    else if Trim(userName) != "" && Trim(purpose) != "" then Assign(laptopId, Trim(userName), Trim(purpose))
    else NoCall
  }

  /** The submit button is disabled outside return mode while either field is blank. */
  function SubmitDisabled(isReturning: bool, userName: string, purpose: string): (disabled: bool)
    ensures disabled <==> !isReturning && (IsBlank(userName) || IsBlank(purpose))
  {
    !isReturning && (Trim(userName) == "" || Trim(purpose) == "")
  }

  /** The button is enabled exactly when submitting would call the parent. */
  lemma EnabledIffCalls(isReturning: bool, laptopId: string, userName: string, purpose: string, returnNotes: string)
    ensures !SubmitDisabled(isReturning, userName, purpose) <==> SubmitOutcome(isReturning, laptopId, userName, purpose, returnNotes) != NoCall
  {
  }

  class Modal {
    const laptop: Laptop
    const isReturning: bool
    /** The lawyer list the modal offers; always `Lawyers`. */
    const lawyers: seq<string>
    var userName: string
    var purpose: string
    var returnNotes: string
    var showSuggestions: bool
    var filteredLawyers: seq<string>

    constructor (l: Laptop, returning: bool)
      ensures laptop == l && isReturning == returning && lawyers == Lawyers
      ensures userName == "" && purpose == "" && returnNotes == ""
      ensures !showSuggestions && filteredLawyers == Lawyers
    {
      laptop := l;
      isReturning := returning;
      lawyers := Lawyers;
      userName, purpose, returnNotes := "", "", "";
      showSuggestions := false;
      filteredLawyers := lawyers;
    }

    /** `handleUserNameChange`: a non-blank value shows the matching lawyers; a blank one hides
        the suggestions and resets them to the whole list. */
    method HandleUserNameChange(value: string)
      modifies this
      ensures userName == value
      ensures !IsBlank(value) ==> filteredLawyers == Suggestions(lawyers, value) && showSuggestions
      ensures IsBlank(value) ==> filteredLawyers == lawyers && !showSuggestions
      ensures purpose == old(purpose) && returnNotes == old(returnNotes)
    {
      var show := Trim(value) != "";
      var list := if show then Suggestions(lawyers, value) else lawyers;
      userName, filteredLawyers, showSuggestions := value, list, show;
    }

    /** `selectLawyer`. */
    method SelectLawyer(lawyer: string)
      modifies this
      ensures userName == lawyer && !showSuggestions
      ensures filteredLawyers == old(filteredLawyers) && purpose == old(purpose) && returnNotes == old(returnNotes)
    {
      userName := lawyer;
      showSuggestions := false;
    }

    method SetPurpose(value: string)
      modifies this
      ensures purpose == value
      ensures userName == old(userName) && returnNotes == old(returnNotes)
      ensures showSuggestions == old(showSuggestions) && filteredLawyers == old(filteredLawyers)
    {
      purpose := value;
    }

    method SetReturnNotes(value: string)
      modifies this
      ensures returnNotes == value
      ensures userName == old(userName) && purpose == old(purpose)
      ensures showSuggestions == old(showSuggestions) && filteredLawyers == old(filteredLawyers)
    {
      returnNotes := value;
    }

    method HandleSubmit() returns (call: SubmitCall)
      ensures call == SubmitOutcome(isReturning, laptop.id, userName, purpose, returnNotes)
    {
      if isReturning {
        call := Return(laptop.id, returnNotes);
      } else if Trim(userName) != "" && Trim(purpose) != "" {
        call := Assign(laptop.id, Trim(userName), Trim(purpose));
      } else {
        call := NoCall;
      }
    }
  }
}
