/** The assignment history: the search and laptop filters, the sort by date, laptop or user in
    either direction, the duration text, the summary counts and the CSV export. */
module HistoryPanel {
  import opened Wrappers
  import opened Text
  import opened Seqs
  import opened Sorting
  import opened Records

  datatype SortField = ByDate | ByLaptop | ByUser
  datatype SortOrder = Asc | Desc

  /** `laptops.find(l => l.id === laptopId)?.model`: the model of the first laptop with this id. */
  function ModelOf(laptops: seq<Laptop>, laptopId: string): (m: Option<string>)
    ensures m.Some? <==> exists i :: 0 <= i < |laptops| && laptops[i].id == laptopId
    ensures m.Some? ==> exists i :: 0 <= i < |laptops| && laptops[i].id == laptopId && laptops[i].model == m.value
                                   && forall j :: 0 <= j < i ==> laptops[j].id != laptopId
    decreases |laptops|
  {
    if laptops == [] then None
    else if laptops[0].id == laptopId then Some(laptops[0].model)
    else
      var m := ModelOf(laptops[1..], laptopId);
      assert forall i :: 1 <= i < |laptops| ==> laptops[i] == laptops[1..][i - 1];
      assert m.Some? ==> exists i :: 1 <= i < |laptops| && laptops[i].id == laptopId && laptops[i].model == m.value
                                      && forall j :: 0 <= j < i ==> laptops[j].id != laptopId;
      m
  }

  /** The lower-cased search term occurs in the user, the biometric serial (when there is one),
      the laptop's model (when the laptop is listed) or the laptop id, all lower-cased. */
  predicate MatchesSearch(laptops: seq<Laptop>, term: string, a: Assignment) {
    var t := ToLower(term);
    var model := ModelOf(laptops, a.laptopId);
    Contains(ToLower(a.userName), t)
    || (Truthy(a.biometricSerial) && Contains(ToLower(a.biometricSerial.value), t))
    || (model.Some? && Contains(ToLower(model.value), t))
    || Contains(ToLower(a.laptopId), t)
  }

  /** No laptop chosen, or this one. */
  predicate MatchesLaptop(filterLaptop: string, a: Assignment) {
    filterLaptop == "" || a.laptopId == filterLaptop
  }

  predicate Keep(laptops: seq<Laptop>, term: string, filterLaptop: string, a: Assignment) {
    MatchesSearch(laptops, term, a) && MatchesLaptop(filterLaptop, a)
  }

  /** The `assignments.filter(...)` step. */
  function Filtered(assignments: seq<Assignment>, laptops: seq<Laptop>, term: string, filterLaptop: string): seq<Assignment> {
    Filter(assignments, (a: Assignment) => Keep(laptops, term, filterLaptop, a))
  }

  function DateKey(a: Assignment): seq<int> { [a.assignedAt] }
  function LaptopKey(a: Assignment): seq<int> { Codes(a.laptopId) }
  function UserKey(a: Assignment): seq<int> { Codes(a.userName) }

  /** The comparison the chosen sort uses: times, or the laptop ids or user names compared
      character by character. */
  function KeyOf(field: SortField): Assignment -> seq<int> {
    match field
    case ByDate => DateKey
    case ByLaptop => LaptopKey
    case ByUser => UserKey
  }

  /** `filteredAndSortedAssignments`. */
  function FilteredAndSorted(assignments: seq<Assignment>, laptops: seq<Laptop>, term: string, filterLaptop: string,
                             field: SortField, order: SortOrder): seq<Assignment> {
    SortBy(Filtered(assignments, laptops, term, filterLaptop), KeyOf(field), order == Desc)
  }

  /** An assignment is listed exactly when it passes both filters, as often as it occurs; the
      list is no longer than the input. */
  lemma FilteredAndSortedMembers(assignments: seq<Assignment>, laptops: seq<Laptop>, term: string, filterLaptop: string,
                                 field: SortField, order: SortOrder, a: Assignment)
    ensures var r := FilteredAndSorted(assignments, laptops, term, filterLaptop, field, order);
      (a in r <==> a in assignments && MatchesSearch(laptops, term, a) && MatchesLaptop(filterLaptop, a))
      && multiset(r)[a] == (if Keep(laptops, term, filterLaptop, a) then multiset(assignments)[a] else 0)
      && |r| <= |assignments|
  {
    var r := FilteredAndSorted(assignments, laptops, term, filterLaptop, field, order);
    assert a in r <==> a in multiset(r);
    assert a in assignments <==> a in multiset(assignments);
  }

  /** An empty search term and no chosen laptop keep every assignment. */
  lemma NoFilterKeepsAll(assignments: seq<Assignment>, laptops: seq<Laptop>, field: SortField, order: SortOrder)
    ensures multiset(FilteredAndSorted(assignments, laptops, "", "", field, order)) == multiset(assignments)
  {
    forall a ensures Keep(laptops, "", "", a) {
      ContainsEmpty(ToLower(a.userName));
    }
    var f := Filtered(assignments, laptops, "", "");
    assert forall a :: multiset(f)[a] == multiset(assignments)[a];
    assert multiset(f) == multiset(assignments);
  }

  /** Ascending by date lists older checkouts first; descending lists newer ones first. */
  lemma SortedByDate(assignments: seq<Assignment>, laptops: seq<Laptop>, term: string, filterLaptop: string, order: SortOrder)
    ensures var r := FilteredAndSorted(assignments, laptops, term, filterLaptop, ByDate, order);
      forall i, j :: 0 <= i < j < |r| ==>
        if order == Asc then r[i].assignedAt <= r[j].assignedAt else r[j].assignedAt <= r[i].assignedAt
  {
    var r := FilteredAndSorted(assignments, laptops, term, filterLaptop, ByDate, order);
    forall i, j | 0 <= i < j < |r|
      ensures if order == Asc then r[i].assignedAt <= r[j].assignedAt else r[j].assignedAt <= r[i].assignedAt
    {
      assert InOrder(DateKey, order == Desc, r[i], r[j]);
      LexLeqSingle(r[i].assignedAt, r[j].assignedAt);
      LexLeqSingle(r[j].assignedAt, r[i].assignedAt);
    }
  }

  /** By laptop or by user the listing is in character order of that field, reversed for
      descending. */
  lemma SortedByText(assignments: seq<Assignment>, laptops: seq<Laptop>, term: string, filterLaptop: string,
                     field: SortField, order: SortOrder)
    requires field != ByDate
    ensures var r := FilteredAndSorted(assignments, laptops, term, filterLaptop, field, order);
      forall i, j :: 0 <= i < j < |r| ==>
        var x := if field == ByLaptop then r[i].laptopId else r[i].userName;
        var y := if field == ByLaptop then r[j].laptopId else r[j].userName;
        if order == Asc then LexLeq(Codes(x), Codes(y)) else LexLeq(Codes(y), Codes(x))
  {
  }

  /** Whole hours between two instants, rounded down (`Math.floor(diffMs / 3600000)`). */
  function DurationHours(start: Timestamp, end: Timestamp): (h: int)
    ensures 3600000 * h <= end - start < 3600000 * (h + 1)
  {
    (end - start) / 3600000
  }

  /** The duration text for a number of whole hours: `Dd (H mod 24)h` from one day on, `Hh`
      before. */
  function FormatHours(h: int): (s: string)
    ensures h >= 24 ==> s == IntToDecimal(h / 24) + "d " + IntToDecimal(h % 24) + "h"
    ensures h < 24 ==> s == IntToDecimal(h) + "h"
  {
    var days := h / 24;
    if days > 0 then IntToDecimal(days) + "d " + IntToDecimal(h % 24) + "h" else IntToDecimal(h) + "h"
  }

  /** `calculateDuration`: an open assignment runs until `now`. */
  function CalculateDuration(assignedAt: Timestamp, returnedAt: Option<Timestamp>, now: Timestamp): string {
    FormatHours(DurationHours(assignedAt, if returnedAt.Some? then returnedAt.value else now))
  }

  /** Reads a duration text back as a number of hours: `Dd Rh` or `Hh`. */
  function ParseHours(s: string): Option<int> {
    var parts := Split(s, ' ');
    if |parts| == 1 then
      var p := parts[0];
      if |p| >= 1 && p[|p| - 1] == 'h' then ParseInt(p[..|p| - 1]) else None
    else if |parts| == 2 then
      var d, r := parts[0], parts[1];
      if |d| >= 1 && d[|d| - 1] == 'd' && |r| >= 1 && r[|r| - 1] == 'h' then
        match (ParseInt(d[..|d| - 1]), ParseInt(r[..|r| - 1]))
        case (Some(days), Some(rest)) => Some(days * 24 + rest)
        case _ => None
      else None
    else None
  }

  /** A `Dd Rh` text reads back as its number of hours. */
  lemma ParseDaysAndHours(days: int, rest: int)
    requires days > 0 && 0 <= rest < 24
    ensures ParseHours(IntToDecimal(days) + "d " + IntToDecimal(rest) + "h") == Some(days * 24 + rest)
  {
    var d := IntToDecimal(days) + "d";
    var r := IntToDecimal(rest) + "h";
    IntToDecimalRoundTrip(days);
    IntToDecimalRoundTrip(rest);
    assert d[..|d| - 1] == IntToDecimal(days);
    assert r[..|r| - 1] == IntToDecimal(rest);
    assert ' ' !in d && ' ' !in r;
    assert IntToDecimal(days) + "d " + IntToDecimal(rest) + "h" == d + [' '] + r;
    SplitAtSeparator(d, ' ', r);
    SplitWithoutSeparator(r, ' ');
  }

  /** An `Hh` text reads back as its number of hours. */
  lemma ParseOnlyHours(h: int)
    ensures ParseHours(IntToDecimal(h) + "h") == Some(h)
  {
    var p := IntToDecimal(h) + "h";
    IntToDecimalRoundTrip(h);
    assert p[..|p| - 1] == IntToDecimal(h);
    assert ' ' !in p;
    SplitWithoutSeparator(p, ' ');
  }

  /** The duration text determines the number of hours: reading it back gives them exactly, and
      the hour part after the days is below 24. */
  lemma FormatHoursRoundTrip(h: int)
    ensures ParseHours(FormatHours(h)) == Some(h)
    ensures h >= 24 ==> 0 <= h % 24 < 24
  {
    if h / 24 > 0 {
      ParseDaysAndHours(h / 24, h % 24);
    } else {
      ParseOnlyHours(h);
    }
  }

  predicate IsInUse(a: Assignment) { a.returnedAt.None? }
  predicate IsReturned(a: Assignment) { a.returnedAt.Some? }

  /** "Actualmente en Uso": assignments without a return time. */
  function InUseCount(assignments: seq<Assignment>): nat {
    |Filter(assignments, IsInUse)|
  }

  /** "Devueltas": assignments with a return time. */
  function ReturnedCount(assignments: seq<Assignment>): nat {
    |Filter(assignments, IsReturned)|
  }

  function UserNameOf(a: Assignment): string { a.userName }

  /** "Usuarios Únicos": the number of distinct user names. */
  function UniqueUsers(assignments: seq<Assignment>): nat {
    |Image(assignments, UserNameOf)|
  }

  /** In use and returned split the total; there are no more distinct users than assignments,
      and at least one when there is an assignment. */
  lemma {:induction false} SummaryCounts(assignments: seq<Assignment>)
    ensures InUseCount(assignments) + ReturnedCount(assignments) == |assignments|
    ensures UniqueUsers(assignments) <= |assignments|
    ensures |assignments| > 0 ==> UniqueUsers(assignments) >= 1
  {
    FilterPartition(assignments, IsInUse, IsReturned);
    ImageSizeBound(assignments, UserNameOf);
  }

  const Headers: seq<string> := ["Laptop", "Usuario", "Propósito", "Fecha Asignación", "Fecha Devolución", "Duración", "Estado", "Notas"]

  /** One CSV row: laptop, user, purpose (`Uso general` by default), assignment date, return date
      or `En uso`, duration, state and notes. */
  function CsvCells(a: Assignment, fmt: Timestamp -> string, now: Timestamp): (cells: seq<string>)
    ensures |cells| == |Headers| == 8
    ensures cells[0] == a.laptopId && cells[1] == a.userName
    ensures cells[2] == (if Truthy(a.purpose) then a.purpose.value else "Uso general")
    ensures cells[3] == fmt(a.assignedAt)
    ensures cells[4] == (if a.returnedAt.Some? then fmt(a.returnedAt.value) else "En uso")
    ensures cells[5] == CalculateDuration(a.assignedAt, a.returnedAt, now)
    ensures (cells[6] == "Devuelto" <==> a.returnedAt.Some?) && (cells[6] == "En uso" <==> a.returnedAt.None?)
    ensures cells[7] == (if Truthy(a.returnNotes) then a.returnNotes.value else "")
  {
    [a.laptopId, a.userName, if Truthy(a.purpose) then a.purpose.value else "Uso general",
     fmt(a.assignedAt), if a.returnedAt.Some? then fmt(a.returnedAt.value) else "En uso",
     CalculateDuration(a.assignedAt, a.returnedAt, now),
     if a.returnedAt.Some? then "Devuelto" else "En uso",
     if Truthy(a.returnNotes) then a.returnNotes.value else ""]
  }

  /** `` `"${cell}"` ``: quotes inside the cell are left as they are. */
  function Quote(cell: string): string {
    "\"" + cell + "\""
  }

  function CsvLine(cells: seq<string>): string {
    Join(MapSeq(cells, Quote), ",")
  }

  /** `a => [a.laptopId, ...]`, the row a listed assignment becomes. */
  function RowCells(fmt: Timestamp -> string, now: Timestamp): Assignment -> seq<string> {
    (a: Assignment) => CsvCells(a, fmt, now)
  }

  /** The exported text: the header line, then one line per listed assignment. */
  function CsvText(listed: seq<Assignment>, fmt: Timestamp -> string, now: Timestamp): string {
    Join(MapSeq([Headers] + MapSeq(listed, RowCells(fmt, now)), CsvLine), "\n")
  }

  /** No cell of any row contains a newline. */
  predicate NoNewlines(listed: seq<Assignment>, fmt: Timestamp -> string, now: Timestamp) {
    forall i :: 0 <= i < |listed| ==> NoNewlineCells(CsvCells(listed[i], fmt, now))
  }

  predicate NoNewlineCells(cells: seq<string>) {
    forall k :: 0 <= k < |cells| ==> '\n' !in cells[k]
  }

  lemma CsvLineHasNoNewline(cells: seq<string>)
    requires NoNewlineCells(cells)
    ensures '\n' !in CsvLine(cells)
  {
    var quoted := MapSeq(cells, Quote);
    forall k | 0 <= k < |quoted| ensures '\n' !in quoted[k] {
      assert quoted[k] == "\"" + cells[k] + "\"";
    }
    JoinAvoids(quoted, ",", '\n');
  }

  /** The headers hold no newline. */
  lemma HeadersHaveNoNewline()
    ensures NoNewlineCells(Headers)
  {
  }

  /** The rows the text is made of: the headers, then the cells of each listed assignment. */
  lemma CsvRows(listed: seq<Assignment>, fmt: Timestamp -> string, now: Timestamp)
    ensures var rows := [Headers] + MapSeq(listed, RowCells(fmt, now));
      |rows| == |listed| + 1 && rows[0] == Headers
      && forall i :: 0 <= i < |listed| ==> rows[i + 1] == CsvCells(listed[i], fmt, now)
  {
    var body := MapSeq(listed, RowCells(fmt, now));
    var rows := [Headers] + body;
    forall i | 0 <= i < |listed|
      ensures rows[i + 1] == CsvCells(listed[i], fmt, now)
    {
      assert rows[i + 1] == body[i] == RowCells(fmt, now)(listed[i]);
    }
  }

  /** Rows without newlines in their cells give lines without newlines. */
  lemma CsvLinesHaveNoNewline(rows: seq<seq<string>>)
    requires forall i :: 0 <= i < |rows| ==> NoNewlineCells(rows[i])
    ensures forall i :: 0 <= i < |rows| ==> '\n' !in MapSeq(rows, CsvLine)[i]
  {
    forall i | 0 <= i < |rows|
      ensures '\n' !in MapSeq(rows, CsvLine)[i]
    {
      CsvLineHasNoNewline(rows[i]);
    }
  }

  /** When no cell holds a newline, splitting the text at newlines gives back the header line and
      one line per assignment, in the listed order. */
  lemma {:induction false} CsvTextLines(listed: seq<Assignment>, fmt: Timestamp -> string, now: Timestamp)
    requires NoNewlines(listed, fmt, now)
    ensures var lines := Split(CsvText(listed, fmt, now), '\n');
      |lines| == |listed| + 1
      && lines[0] == CsvLine(Headers)
      && forall i :: 0 <= i < |listed| ==> lines[i + 1] == CsvLine(CsvCells(listed[i], fmt, now))
  {
    var rows := [Headers] + MapSeq(listed, RowCells(fmt, now));
    CsvRows(listed, fmt, now);
    HeadersHaveNoNewline();
    assert forall i :: 0 <= i < |rows| ==> NoNewlineCells(rows[i]) by {
      forall i | 0 <= i < |rows|
        ensures NoNewlineCells(rows[i])
      {
        if i > 0 {
          assert rows[i] == CsvCells(listed[i - 1], fmt, now);
        }
      }
    }
    CsvLinesHaveNoNewline(rows);
    SplitJoin(MapSeq(rows, CsvLine), '\n');
  }

  /** When no cell holds a comma, splitting a line at commas gives back the quoted cells. */
  lemma CsvLineCells(cells: seq<string>)
    requires |cells| >= 1
    requires forall k :: 0 <= k < |cells| ==> ',' !in cells[k]
    ensures Split(CsvLine(cells), ',') == MapSeq(cells, Quote)
  {
    var quoted := MapSeq(cells, Quote);
    forall k | 0 <= k < |quoted| ensures ',' !in quoted[k] {
      assert quoted[k] == "\"" + cells[k] + "\"";
    }
    SplitJoin(quoted, ',');
  }

  const SortOptions: seq<string> := ["date-desc", "date-asc", "laptop-asc", "laptop-desc", "user-asc", "user-desc"]

  function FieldName(f: SortField): string {
    match f
    case ByDate => "date"
    case ByLaptop => "laptop"
    case ByUser => "user"
  }

  function OrderName(o: SortOrder): string {
    match o
    case Asc => "asc"
    case Desc => "desc"
  }

  /** The `value` of the sort option for a field and an order. */
  function OptionValue(f: SortField, o: SortOrder): string {
    FieldName(f) + "-" + OrderName(o)
  }

  /** `const [sort, order] = value.split('-')`, for the option values. */
  function ParseSortOption(value: string): Option<(SortField, SortOrder)> {
    var parts := Split(value, '-');
    if |parts| != 2 then None
    else
      var f := if parts[0] == "date" then Some(ByDate) else if parts[0] == "laptop" then Some(ByLaptop)
               else if parts[0] == "user" then Some(ByUser) else None;
      var o := if parts[1] == "asc" then Some(Asc) else if parts[1] == "desc" then Some(Desc) else None;
      if f.Some? && o.Some? then Some((f.value, o.value)) else None
  }

  /** Choosing an option sets exactly the field and order it names. */
  lemma SortOptionRoundTrip(f: SortField, o: SortOrder)
    ensures ParseSortOption(OptionValue(f, o)) == Some((f, o))
  {
    var a, b := FieldName(f), OrderName(o);
    assert '-' !in a && '-' !in b;
    assert OptionValue(f, o) == a + ['-'] + b;
    SplitAtSeparator(a, '-', b);
    SplitWithoutSeparator(b, '-');
    assert Split(OptionValue(f, o), '-') == [a, b];
  }

  /** The six options of the select are the six combinations. */
  lemma SortOptionsComplete(f: SortField, o: SortOrder)
    ensures OptionValue(f, o) in SortOptions
  {
    match (f, o)
    case (ByDate, Desc) => assert SortOptions[0] == OptionValue(f, o);
    case (ByDate, Asc) => assert SortOptions[1] == OptionValue(f, o);
    case (ByLaptop, Asc) => assert SortOptions[2] == OptionValue(f, o);
    case (ByLaptop, Desc) => assert SortOptions[3] == OptionValue(f, o);
    case (ByUser, Asc) => assert SortOptions[4] == OptionValue(f, o);
    case (ByUser, Desc) => assert SortOptions[5] == OptionValue(f, o);
  }

  /** The panel's state: the search text, the chosen laptop and the sort. */
  class Panel {
    var searchTerm: string
    var filterLaptop: string
    var sortField: SortField
    var sortOrder: SortOrder

    /** Nothing searched, every laptop, newest first. */
    constructor ()
      ensures searchTerm == "" && filterLaptop == "" && sortField == ByDate && sortOrder == Desc
    {
      searchTerm := "";
      filterLaptop := "";
      sortField := ByDate;
      sortOrder := Desc;
    }

    method SetSearchTerm(value: string)
      modifies this
      ensures searchTerm == value
      ensures filterLaptop == old(filterLaptop) && sortField == old(sortField) && sortOrder == old(sortOrder)
    {
      searchTerm := value;
    }

    method SetFilterLaptop(value: string)
      modifies this
      ensures filterLaptop == value
      ensures searchTerm == old(searchTerm) && sortField == old(sortField) && sortOrder == old(sortOrder)
    {
      filterLaptop := value;
    }

    /** The sort select's change handler. */
    method SelectSort(value: string)
      modifies this
      ensures ParseSortOption(value).Some? ==> (sortField, sortOrder) == ParseSortOption(value).value
      ensures ParseSortOption(value).None? ==> sortField == old(sortField) && sortOrder == old(sortOrder)
      ensures searchTerm == old(searchTerm) && filterLaptop == old(filterLaptop)
    {
      var parsed := ParseSortOption(value);
      if parsed.Some? {
        sortField := parsed.value.0;
        sortOrder := parsed.value.1;
      }
    }

    /** The listing the panel shows for the current state. */
    function Listing(assignments: seq<Assignment>, laptops: seq<Laptop>): seq<Assignment>
      reads this
    {
      FilteredAndSorted(assignments, laptops, searchTerm, filterLaptop, sortField, sortOrder)
    }

    /** `exportToCSV`: the text of the current listing. */
    function ExportCsv(assignments: seq<Assignment>, laptops: seq<Laptop>, fmt: Timestamp -> string, now: Timestamp): string
      reads this
    {
      CsvText(Listing(assignments, laptops), fmt, now)
    }
  }
}
