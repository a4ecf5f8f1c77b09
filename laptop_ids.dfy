/** The `LT-NNN` laptop identifiers: `LT-` followed by a number written in decimal and padded with
    leading zeros to at least three digits. */
module LaptopIds {
  import opened Wrappers
  import opened Text

  /** `` `LT-${String(n).padStart(3, '0')}` ``. */
  function FormatLaptopId(n: nat): (id: string)
    ensures |id| >= 6 && id[..3] == "LT-"
  {
    "LT-" + PadStart(NatToDecimal(n), 3, '0')
  }

  /** Reads the number back out of an identifier of that form. */
  function ParseLaptopId(id: string): Option<nat> {
    if |id| > 3 && id[..3] == "LT-" && AllDigits(id[3..]) then Some(DecimalValue(id[3..])) else None
  }

  /** The digits after `LT-` are the decimal digits of `n` behind some zeros. */
  lemma FormatDigits(n: nat) returns (k: nat)
    ensures FormatLaptopId(n)[3..] == Repeat('0', k) + NatToDecimal(n)
  {
    var digits := NatToDecimal(n);
    if |digits| >= 3 {
      k := 0;
      assert Repeat('0', 0) + digits == digits;
    } else {
      k := 3 - |digits|;
    }
    assert FormatLaptopId(n)[3..] == PadStart(digits, 3, '0');
  }

  /** Padding does not change the number: parsing a formatted identifier gives its number back. */
  lemma ParseFormat(n: nat)
    ensures ParseLaptopId(FormatLaptopId(n)) == Some(n)
  {
    var k := FormatDigits(n);
    LeadingZeros(k, NatToDecimal(n));
  }

  /** Different numbers give different identifiers. */
  lemma FormatInjective(m: nat, n: nat)
    requires FormatLaptopId(m) == FormatLaptopId(n)
    ensures m == n
  {
    ParseFormat(m);
    ParseFormat(n);
  }

  /** The identifier the add forms give a new laptop when `count` laptops are listed. */
  function NextIdAsWritten(count: nat): (id: string)
    ensures ParseLaptopId(id) == Some(count + 1)
  {
    ParseFormat(count + 1);
    FormatLaptopId(count + 1)
  }

  /** After `LT-002` is deleted from `LT-001`, `LT-002`, `LT-003`, two laptops remain and the next
      identifier is `LT-003`, which is already taken. */
  lemma NextIdCollidesAfterDelete()
    ensures NextIdAsWritten(|["LT-001", "LT-003"]|) == "LT-003"
  {
    assert NatToDecimal(3) == "3";
    assert PadStart("3", 3, '0') == "003";
  }

  /** The largest number among the identifiers of the `LT-NNN` form (0 when there is none). */
  function MaxNumber(ids: seq<string>): (m: nat)
    ensures forall i :: 0 <= i < |ids| && ParseLaptopId(ids[i]).Some? ==> ParseLaptopId(ids[i]).value <= m
    decreases |ids|
  {
    if ids == [] then 0
    else
      var rest := MaxNumber(ids[1..]);
      var here := ParseLaptopId(ids[0]).GetOr(0);
      assert forall i :: 1 <= i < |ids| ==> ids[i] == ids[1..][i - 1];
      if here > rest then here else rest
  }

  /** An identifier no listed laptop has: one past the largest number in use. */
  function FreshLaptopId(ids: seq<string>): (id: string)
    ensures id !in ids
    ensures ParseLaptopId(id) == Some(MaxNumber(ids) + 1)
  {
    var id := FormatLaptopId(MaxNumber(ids) + 1);
    ParseFormat(MaxNumber(ids) + 1);
    id
  }

  /** While no laptop has been deleted (the listed identifiers carry the numbers 1 up to the
      count, in order), the fresh identifier is the one the add forms compute. */
  lemma FreshAgreesWithoutGaps(ids: seq<string>)
    requires forall i :: 0 <= i < |ids| ==> ParseLaptopId(ids[i]) == Some(i + 1)
    ensures FreshLaptopId(ids) == NextIdAsWritten(|ids|)
  {
    MaxBound(ids, |ids|);
    if |ids| > 0 {
      assert ParseLaptopId(ids[|ids| - 1]).value == |ids|;
    }
    assert MaxNumber(ids) == |ids|;
  }

  /** The maximum is attained or is 0, so it stays at most a bound of every number. */
  lemma {:induction false} MaxBound(ids: seq<string>, b: nat)
    requires forall i :: 0 <= i < |ids| && ParseLaptopId(ids[i]).Some? ==> ParseLaptopId(ids[i]).value <= b
    ensures MaxNumber(ids) <= b
    decreases |ids|
  {
    if ids != [] {
      MaxBound(ids[1..], b);
    }
  }
}
