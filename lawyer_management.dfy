/** The lawyer panel: the list of lawyers it shows and the handlers the add, edit and
    delete actions call. */
module LawyerManagement {
  import opened Wrappers
  import opened Seqs
  import opened Records
  import opened Sorting
  import LawyerService

  /** The list after `handleUpdateLawyer`: one lawyer per shown lawyer, with the same ids; the
      lawyers with the updated id are replaced, the others are kept. */
  lemma UpdateKeepsIds(lawyers: seq<Lawyer>, d: Lawyer)
    ensures var r := ReplaceByKey(lawyers, LawyerRecordId, d);
      |r| == |lawyers|
      && (forall i :: 0 <= i < |r| ==> r[i].id == lawyers[i].id)
      && (DistinctBy(lawyers, LawyerRecordId) ==> DistinctBy(r, LawyerRecordId))
      && (HasKey(lawyers, LawyerRecordId, d.id) ==> d in r)
      && (!HasKey(lawyers, LawyerRecordId, d.id) ==> r == lawyers)
  {
    ReplaceByKeyFacts(lawyers, LawyerRecordId, d);
  }

  /** The list after a successful `handleDeleteLawyer`: no lawyer with that id is left, every other
      lawyer is kept, in the same order, and with distinct ids exactly one lawyer fewer is shown
      when one had that id. */
  lemma DeleteRemovesExactly(lawyers: seq<Lawyer>, id: string)
    ensures var r := Filter(lawyers, KeyIsNot(LawyerRecordId, id));
      (forall i :: 0 <= i < |r| ==> r[i].id != id)
      && (forall i :: 0 <= i < |lawyers| && lawyers[i].id != id ==> lawyers[i] in r)
      && IsSubsequence(r, lawyers)
      && (DistinctBy(lawyers, LawyerRecordId) && HasKey(lawyers, LawyerRecordId, id) ==> |r| == |lawyers| - 1)
  {
    var r := Filter(lawyers, KeyIsNot(LawyerRecordId, id));
    forall i | 0 <= i < |lawyers| && lawyers[i].id != id
      ensures lawyers[i] in r
    {
      FilterMembership(lawyers, KeyIsNot(LawyerRecordId, id), lawyers[i]);
    }
    FilterIsSubsequence(lawyers, KeyIsNot(LawyerRecordId, id));
    if DistinctBy(lawyers, LawyerRecordId) {
      RemoveByKeyIsFilter(lawyers, LawyerRecordId, id);
      RemoveDistinctKey(lawyers, LawyerRecordId, id);
    }
  }

  /** Deleting from the table and filtering the shown list agree: the mapped table after the
      delete is the filtered mapped table. */
  lemma DeleteMirrorsTable(rows: seq<LawyerRow>, id: string)
    ensures MapSeq(RemoveByKey(rows, LawyerRowId, id), LawyerService.MapLawyerFromDb)
         == Filter(MapSeq(rows, LawyerService.MapLawyerFromDb), KeyIsNot(LawyerRecordId, id))
  {
    MapRemoveByKey(rows, LawyerService.MapLawyerFromDb, LawyerRowId, LawyerRecordId, id);
    RemoveByKeyIsFilter(MapSeq(rows, LawyerService.MapLawyerFromDb), LawyerRecordId, id);
  }

  /** Updating the table and replacing the returned lawyer in the shown list agree, when the
      table's ids are distinct. */
  lemma UpdateMirrorsTable(rows: seq<LawyerRow>, u: LawyerService.LawyerUpdates, i: int)
    requires DistinctBy(rows, LawyerRowId) && 0 <= i < |rows|
    ensures var updated := LawyerService.MapLawyerFromDb(LawyerService.ApplyUpdates(u, rows[i]));
      MapSeq(UpdateWhere(rows, LawyerRowId, rows[i].id, LawyerService.Updater(u)), LawyerService.MapLawyerFromDb)
        == ReplaceByKey(MapSeq(rows, LawyerService.MapLawyerFromDb), LawyerRecordId, updated)
  {
    var updated := LawyerService.MapLawyerFromDb(LawyerService.ApplyUpdates(u, rows[i]));
    var left := MapSeq(UpdateWhere(rows, LawyerRowId, rows[i].id, LawyerService.Updater(u)), LawyerService.MapLawyerFromDb);
    var right := ReplaceByKey(MapSeq(rows, LawyerService.MapLawyerFromDb), LawyerRecordId, updated);
    forall j | 0 <= j < |rows|
      ensures left[j] == right[j]
    {
      if rows[j].id == rows[i].id {
        assert j == i;
      }
    }
  }

  /** Adding to the table and appending the returned lawyer to the shown list agree. */
  lemma AddMirrorsTable(rows: seq<LawyerRow>, row: LawyerRow)
    ensures MapSeq(rows + [row], LawyerService.MapLawyerFromDb)
         == MapSeq(rows, LawyerService.MapLawyerFromDb) + [LawyerService.MapLawyerFromDb(row)]
  {
    MapConcat(rows, [row], LawyerService.MapLawyerFromDb);
  }

  /** The panel's state. */
  class Panel {
    var lawyers: seq<Lawyer>
    var loading: bool
    var showAddModal: bool
    var editingLawyer: Option<Lawyer>

    constructor ()
      ensures lawyers == [] && loading && !showAddModal && editingLawyer == None
    {
      lawyers := [];
      loading := true;
      showAddModal := false;
      editingLawyer := None;
    }

    /** `loadLawyers`: shows what the service lists, in name order; a failed listing keeps the list. */
    method LoadLawyers(table: LawyerService.LawyerTable, fault: bool)
      modifies this
      ensures !loading && showAddModal == old(showAddModal) && editingLawyer == old(editingLawyer)
      ensures fault ==> lawyers == old(lawyers)
      ensures !fault ==> multiset(lawyers) == multiset(MapSeq(table.rows, LawyerService.MapLawyerFromDb))
      ensures !fault ==> forall i, j :: 0 <= i < j < |lawyers| ==> LexLeq(Codes(lawyers[i].name), Codes(lawyers[j].name))
    {
      loading := true;
      var res := table.GetAllLawyers(fault);
      if res.Ok? {
        lawyers := res.value;
      }
      loading := false;
    }

    /** `handleAddLawyer`: appends the new lawyer and closes the add modal. */
    method HandleAddLawyer(d: Lawyer)
      modifies this
      ensures lawyers == old(lawyers) + [d]
      ensures !showAddModal && loading == old(loading) && editingLawyer == old(editingLawyer)
    {
      lawyers := lawyers + [d];
      showAddModal := false;
    }

    /** `handleUpdateLawyer`: replaces the lawyers with the same id and closes the edit modal. */
    method HandleUpdateLawyer(d: Lawyer)
      modifies this
      ensures lawyers == ReplaceByKey(old(lawyers), LawyerRecordId, d)
      ensures editingLawyer == None && loading == old(loading) && showAddModal == old(showAddModal)
    {
      lawyers := ReplaceByKey(lawyers, LawyerRecordId, d);
      editingLawyer := None;
    }

    /** `handleDeleteLawyer`: without confirmation nothing happens; otherwise the row is deleted
        and, when that succeeds, the lawyers with that id leave the list; a failure is alerted and
        leaves the list as it was. */
    method HandleDeleteLawyer(id: string, confirmed: bool, table: LawyerService.LawyerTable, fault: bool)
      returns (alerted: bool)
      requires table.Valid()
      modifies this, table
      ensures table.Valid()
      ensures loading == old(loading) && showAddModal == old(showAddModal) && editingLawyer == old(editingLawyer)
      ensures !confirmed ==> lawyers == old(lawyers) && table.rows == old(table.rows) && !alerted
      ensures confirmed && fault ==> lawyers == old(lawyers) && table.rows == old(table.rows) && alerted
      ensures confirmed && !fault ==>
        lawyers == Filter(old(lawyers), KeyIsNot(LawyerRecordId, id))
        && table.rows == RemoveByKey(old(table.rows), LawyerRowId, id) && !alerted
    {
      alerted := false;
      if !confirmed {
        return;
      }
      var res := table.DeleteLawyer(id, fault);
      if res.Ok? {
        lawyers := Filter(lawyers, KeyIsNot(LawyerRecordId, id));
      } else {
        alerted := true;
      }
    }
  }
}
