/** The public dashboard: how many laptops have each status, how many have a biometric reader,
    and the label and style shown for each status. */
module PublicView {
  import opened Wrappers
  import opened Seqs
  import opened Records
  import LaptopService

  /** `l => l.status === s`. */
  function HasStatus(s: Status): Laptop -> bool {
    (l: Laptop) => l.status == Some(s)
  }

  /** `laptops.filter(l => l.status === s).length`: no laptop at all exactly when none has the
      status, every laptop exactly when all have it. */
  function StatusCount(laptops: seq<Laptop>, s: Status): (n: nat)
    ensures n <= |laptops|
    ensures n == 0 <==> forall i :: 0 <= i < |laptops| ==> laptops[i].status != Some(s)
    ensures n == |laptops| <==> forall i :: 0 <= i < |laptops| ==> laptops[i].status == Some(s)
  {
    FilterNone(laptops, HasStatus(s));
    FilterAll(laptops, HasStatus(s));
    |Filter(laptops, HasStatus(s))|
  }

  /** The three counts add up over a concatenation. */
  lemma CountsAdd(a: seq<Laptop>, b: seq<Laptop>, s: Status)
    ensures StatusCount(a + b, s) == StatusCount(a, s) + StatusCount(b, s)
  {
    FilterConcat(a, b, HasStatus(s));
  }

  /** When every laptop has one of the three statuses of the table's domain, the available, in-use
      and maintenance counts add up to the number of laptops. */
  lemma CountsSum(laptops: seq<Laptop>)
    requires forall i :: 0 <= i < |laptops| ==> laptops[i].status.Some?
    ensures StatusCount(laptops, Disponible) + StatusCount(laptops, EnUso) + StatusCount(laptops, Mantenimiento) == |laptops|
  {
    var p, q, u := HasStatus(Disponible), HasStatus(EnUso), HasStatus(Mantenimiento);
    forall i | 0 <= i < |laptops|
      ensures (p(laptops[i]) && !q(laptops[i]) && !u(laptops[i])) || (!p(laptops[i]) && q(laptops[i]) && !u(laptops[i]))
           || (!p(laptops[i]) && !q(laptops[i]) && u(laptops[i]))
    {
      match laptops[i].status.value
      case Disponible =>
      case EnUso =>
      case Mantenimiento =>
    }
    FilterPartition3(laptops, HasStatus(Disponible), HasStatus(EnUso), HasStatus(Mantenimiento));
  }

  /** `l => l.biometricReader` as a truth value. */
  function HasReader(l: Laptop): bool {
    l.biometricReader == Some(true)
  }

  /** The "Con Biométrico" count: at most the "Total Equipos" count, and equal to it exactly when
      every laptop has a reader. */
  function ReaderCount(laptops: seq<Laptop>): (n: nat)
    ensures n <= |laptops|
    ensures n == |laptops| <==> forall i :: 0 <= i < |laptops| ==> laptops[i].biometricReader == Some(true)
  {
    FilterAll(laptops, HasReader);
    |Filter(laptops, HasReader)|
  }

  /** One entry of `statusConfig`: the label (`label`) and the colour family its classes use. */
  datatype StatusStyle = StatusStyle(caption: string, color: string)

  /** `statusConfig[status]`: an entry for each of the three statuses, none for an absent status. */
  function Config(status: Option<Status>): (c: Option<StatusStyle>)
    ensures c.Some? <==> status.Some?
    ensures status == Some(Disponible) ==> c == Some(StatusStyle("Disponible", "emerald"))
    ensures status == Some(EnUso) ==> c == Some(StatusStyle("En Uso", "amber"))
    ensures status == Some(Mantenimiento) ==> c == Some(StatusStyle("Mantenimiento", "red"))
  {
    match status
    case None => None
    case Some(Disponible) => Some(StatusStyle("Disponible", "emerald"))
    case Some(EnUso) => Some(StatusStyle("En Uso", "amber"))
    case Some(Mantenimiento) => Some(StatusStyle("Mantenimiento", "red"))
  }

  /** Different statuses show different labels. */
  lemma LabelsDistinct(s: Status, t: Status)
    ensures Config(Some(s)).value.caption == Config(Some(t)).value.caption ==> s == t
  {
  }

  /** The laptops as `getAllLaptops` hands them over with the mapper as written: no laptop has a
      status, so every count is zero whatever the table holds, and no card finds its style. */
  lemma AsWrittenCountsZero(rows: seq<LaptopRow>, s: Status)
    ensures StatusCount(MapSeq(rows, LaptopService.MapLaptopAsWritten), s) == 0
    ensures forall i :: 0 <= i < |rows| ==> Config(MapSeq(rows, LaptopService.MapLaptopAsWritten)[i].status) == None
  {
  }

  /** One available laptop in the table is shown as zero available laptops. */
  lemma AsWrittenMissesAvailable(row: LaptopRow)
    requires row.status == Disponible
    ensures StatusCount(MapSeq([row], LaptopService.MapLaptopAsWritten), Disponible) == 0
    ensures StatusCount(MapSeq([row], LaptopService.MapLaptopFromDb), Disponible) == 1
  {
  }

  /** With the corrected mapper every laptop has a status and a style, and the three counts add
      up to the number of rows. */
  lemma CorrectedCountsSum(rows: seq<LaptopRow>)
    ensures var laptops := MapSeq(rows, LaptopService.MapLaptopFromDb);
      (forall i :: 0 <= i < |laptops| ==> Config(laptops[i].status).Some?)
      && StatusCount(laptops, Disponible) + StatusCount(laptops, EnUso) + StatusCount(laptops, Mantenimiento) == |rows|
  {
    CountsSum(MapSeq(rows, LaptopService.MapLaptopFromDb));
  }
}
