/** The assignment section: the laptops offered for assignment and for return, and the assign and
    return handlers around the abstract `assignLaptop` / `returnLaptop` calls, which may succeed
    or fail (`serviceOk`). */
module AssignmentSection {
  import opened Wrappers
  import opened Seqs
  import opened Records

  /** `l.status === 'disponible' || !l.status`. */
  predicate IsAssignable(l: Laptop) {
    l.status == Some(Disponible) || l.status == None
  }

  /** `l.status === 'en-uso'`. */
  predicate IsInUse(l: Laptop) {
    l.status == Some(EnUso)
  }

  predicate InMaintenance(l: Laptop) {
    l.status == Some(Mantenimiento)
  }

  function AvailableLaptops(laptops: seq<Laptop>): seq<Laptop> {
    Filter(laptops, IsAssignable)
  }

  function InUseLaptops(laptops: seq<Laptop>): seq<Laptop> {
    Filter(laptops, IsInUse)
  }

  /** The two lists select by status as the source says. */
  lemma StatusListMembers(laptops: seq<Laptop>, l: Laptop)
    ensures l in AvailableLaptops(laptops) <==> l in laptops && (l.status == Some(Disponible) || l.status == None)
    ensures l in InUseLaptops(laptops) <==> l in laptops && l.status == Some(EnUso)
  {
    FilterMembership(laptops, IsAssignable, l);
    FilterMembership(laptops, IsInUse, l);
  }

  /** The two lists share no laptop and both leave out the laptops in maintenance. */
  lemma StatusListsDisjoint(laptops: seq<Laptop>, l: Laptop)
    ensures !(l in AvailableLaptops(laptops) && l in InUseLaptops(laptops))
    ensures l.status == Some(Mantenimiento) ==> l !in AvailableLaptops(laptops) && l !in InUseLaptops(laptops)
  {
    StatusListMembers(laptops, l);
  }

  /** Together with the laptops in maintenance, the two lists account for every laptop. */
  lemma StatusListsCover(laptops: seq<Laptop>)
    ensures |AvailableLaptops(laptops)| + |InUseLaptops(laptops)| + |Filter(laptops, InMaintenance)| == |laptops|
  {
    forall i | 0 <= i < |laptops|
      ensures (IsAssignable(laptops[i]) && !IsInUse(laptops[i]) && !InMaintenance(laptops[i]))
           || (!IsAssignable(laptops[i]) && IsInUse(laptops[i]) && !InMaintenance(laptops[i]))
           || (!IsAssignable(laptops[i]) && !IsInUse(laptops[i]) && InMaintenance(laptops[i]))
    {
      match laptops[i].status
      case None =>
      case Some(st) => assert st == Disponible || st == EnUso || st == Mantenimiento;
    }
    FilterPartition3(laptops, IsAssignable, IsInUse, InMaintenance);
  }

  /** The assign button is enabled exactly when a laptop and a user are chosen and no assignment
      is running. */
  function AssignDisabled(selectedLaptop: string, selectedUser: string, assigning: bool): (disabled: bool)
    ensures !disabled <==> selectedLaptop != "" && selectedUser != "" && !assigning
  {
    selectedLaptop == "" || selectedUser == "" || assigning
  }

  /** The arguments of one `assignLaptop` call. */
  datatype AssignCall = AssignCall(laptopId: string, userName: string, biometricSerial: Option<string>)

  /** `assignLaptop(selectedLaptop, selectedUser, selectedBiometric || undefined)`. */
  function AssignArguments(selectedLaptop: string, selectedUser: string, selectedBiometric: string): (c: AssignCall)
    ensures c.laptopId == selectedLaptop && c.userName == selectedUser
    ensures c.biometricSerial == None <==> selectedBiometric == ""
    ensures c.biometricSerial != None ==> c.biometricSerial == Some(selectedBiometric)
  {
    AssignCall(selectedLaptop, selectedUser, OrNone(Some(selectedBiometric)))
  }

  class Section {
    var selectedLaptop: string
    var selectedUser: string
    var selectedBiometric: string
    var assigning: bool
    /** How many times `onDataChange` was called. */
    var dataChanges: nat

    constructor ()
      ensures selectedLaptop == "" && selectedUser == "" && selectedBiometric == ""
      ensures !assigning && dataChanges == 0
    {
      selectedLaptop := "";
      selectedUser := "";
      selectedBiometric := "";
      assigning := false;
      dataChanges := 0;
    }

    method Select(laptop: string, user: string, biometric: string)
      modifies this
      ensures selectedLaptop == laptop && selectedUser == user && selectedBiometric == biometric
      ensures assigning == old(assigning) && dataChanges == old(dataChanges)
    {
      selectedLaptop, selectedUser, selectedBiometric := laptop, user, biometric;
    }

    /** `handleAssign`: without a laptop or a user nothing happens. Otherwise `assignLaptop` is
        called with `assigning` set, which is cleared afterwards; success resets the three
        selections and refreshes the data, failure keeps them and alerts. */
    method HandleAssign(serviceOk: bool) returns (call: Option<AssignCall>, assigningDuringCall: bool, alerted: bool)
      modifies this
      ensures old(selectedLaptop) == "" || old(selectedUser) == "" ==>
        call == None && !alerted
        && selectedLaptop == old(selectedLaptop) && selectedUser == old(selectedUser)
        && selectedBiometric == old(selectedBiometric)
        && assigning == old(assigning) && dataChanges == old(dataChanges)
      ensures old(selectedLaptop) != "" && old(selectedUser) != "" ==>
        call == Some(AssignArguments(old(selectedLaptop), old(selectedUser), old(selectedBiometric)))
        && assigningDuringCall && !assigning
      ensures old(selectedLaptop) != "" && old(selectedUser) != "" && serviceOk ==>
        !alerted && selectedLaptop == "" && selectedUser == "" && selectedBiometric == ""
        && dataChanges == old(dataChanges) + 1
      ensures old(selectedLaptop) != "" && old(selectedUser) != "" && !serviceOk ==>
        alerted && selectedLaptop == old(selectedLaptop) && selectedUser == old(selectedUser)
        && selectedBiometric == old(selectedBiometric) && dataChanges == old(dataChanges)
    {
      alerted := false;
      assigningDuringCall := false;
      if selectedLaptop == "" || selectedUser == "" {
        return None, assigningDuringCall, alerted;
      }
      assigning := true;
      call := Some(AssignArguments(selectedLaptop, selectedUser, selectedBiometric));
      assigningDuringCall := assigning;
      if serviceOk {
        selectedLaptop := "";
        selectedUser := "";
        selectedBiometric := "";
        dataChanges := dataChanges + 1;
      } else {
        alerted := true;
      }
      assigning := false;
    }

    /** `handleReturn`: `returnLaptop(laptopId)` is called only after the user confirms; success
        refreshes the data, failure alerts. */
    method HandleReturn(laptopId: string, confirmed: bool, serviceOk: bool) returns (called: Option<string>, alerted: bool)
      modifies this
      ensures called == (if confirmed then Some(laptopId) else None)
      ensures alerted <==> confirmed && !serviceOk
      ensures dataChanges == if confirmed && serviceOk then old(dataChanges) + 1 else old(dataChanges)
      ensures selectedLaptop == old(selectedLaptop) && selectedUser == old(selectedUser)
      ensures selectedBiometric == old(selectedBiometric) && assigning == old(assigning)
    {
      if !confirmed {
        return None, false;
      }
      called := Some(laptopId);
      alerted := !serviceOk;
      if serviceOk {
        dataChanges := dataChanges + 1;
      }
    }
  }
}
