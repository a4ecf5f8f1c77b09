/** The administration view's laptop list: adding a laptop appends a record built from the form's
    data under a new identifier, available, with no user, and closes the add modal. */
module AdminView {
  import opened Wrappers
  import opened Seqs
  import opened Records
  import opened LaptopIds

  /** `{ ...laptopData, id, status: 'disponible', currentUser: null, createdAt: now, updatedAt: now }`:
      the overrides win over whatever `laptopData` carries. */
  function NewRecord(laptopData: Laptop, id: string, now: Timestamp): (l: Laptop)
    ensures l.id == id && l.status == Some(Disponible) && l.currentUser == None
    ensures l.createdAt == Some(now) && l.updatedAt == Some(now)
    ensures l.brand == laptopData.brand && l.model == laptopData.model && l.serialNumber == laptopData.serialNumber
    ensures l.biometricReader == laptopData.biometricReader && l.biometricSerial == laptopData.biometricSerial
  {
    laptopData.(id := id, status := Some(Disponible), currentUser := None, createdAt := Some(now), updatedAt := Some(now))
  }

  /** The overridden fields of the data make no difference. */
  lemma OverridesWin(laptopData: Laptop, id: string, now: Timestamp, id': string, s: Option<Status>,
                     u: Option<string>, c: Option<Timestamp>, t: Option<Timestamp>)
    ensures NewRecord(laptopData.(id := id', status := s, currentUser := u, createdAt := c, updatedAt := t), id, now)
         == NewRecord(laptopData, id, now)
  {
  }

  class View {
    var laptops: seq<Laptop>
    var showAddModal: bool

    constructor (initial: seq<Laptop>)
      ensures laptops == initial && !showAddModal
    {
      laptops := initial;
      showAddModal := false;
    }

    method OpenAddModal()
      modifies this
      ensures showAddModal && laptops == old(laptops)
    {
      showAddModal := true;
    }

    /** `addLaptop`: one more laptop, last, under an identifier no listed laptop has; the earlier
        ones unchanged and in order; the modal closed. */
    method AddLaptop(laptopData: Laptop, now: Timestamp)
      modifies this
      ensures laptops == old(laptops) + [NewRecord(laptopData, FreshLaptopId(MapSeq(old(laptops), LaptopRecordId)), now)]
      ensures !showAddModal
    {
      var id := FreshLaptopId(MapSeq(laptops, LaptopRecordId));
      laptops := laptops + [NewRecord(laptopData, id, now)];
      showAddModal := false;
    }
  }

  /** The list after an add is one longer, keeps every earlier laptop at its place, and the new
      laptop's identifier differs from every earlier one. */
  lemma AddKeepsOthers(laptops: seq<Laptop>, laptopData: Laptop, now: Timestamp)
    ensures var after := laptops + [NewRecord(laptopData, FreshLaptopId(MapSeq(laptops, LaptopRecordId)), now)];
      |after| == |laptops| + 1
      && after[..|laptops|] == laptops
      && forall i :: 0 <= i < |laptops| ==> after[|laptops|].id != laptops[i].id
  {
    var ids := MapSeq(laptops, LaptopRecordId);
    var after := laptops + [NewRecord(laptopData, FreshLaptopId(ids), now)];
    assert after[..|laptops|] == laptops;
    forall i | 0 <= i < |laptops| ensures after[|laptops|].id != laptops[i].id {
      assert ids[i] == laptops[i].id;
    }
  }

  /** Adding keeps the identifiers of the list distinct. */
  lemma AddKeepsIdsDistinct(laptops: seq<Laptop>, laptopData: Laptop, now: Timestamp)
    requires DistinctBy(laptops, LaptopRecordId)
    ensures DistinctBy(laptops + [NewRecord(laptopData, FreshLaptopId(MapSeq(laptops, LaptopRecordId)), now)], LaptopRecordId)
  {
    AddKeepsOthers(laptops, laptopData, now);
    var after := laptops + [NewRecord(laptopData, FreshLaptopId(MapSeq(laptops, LaptopRecordId)), now)];
    forall i, j | 0 <= i < j < |after| ensures LaptopRecordId(after[i]) != LaptopRecordId(after[j]) {
      if j < |laptops| {
        assert after[i] == laptops[i] && after[j] == laptops[j];
      } else {
        assert after[i] == laptops[i];
      }
    }
  }

  /** While the list holds LT-001, LT-002, ... with no gap, the new identifier is the one the
      count-based `LT-NNN` rule gives. */
  lemma AddAgreesWithoutGaps(laptops: seq<Laptop>)
    requires forall i :: 0 <= i < |laptops| ==> ParseLaptopId(laptops[i].id) == Some(i + 1)
    ensures FreshLaptopId(MapSeq(laptops, LaptopRecordId)) == NextIdAsWritten(|laptops|)
  {
    FreshAgreesWithoutGaps(MapSeq(laptops, LaptopRecordId));
  }
}
