/** The string operations the components use: `trim`, `toLowerCase`/`toUpperCase`, `includes`,
    `String(n)`, `padStart` and `join`, plus `Split`, the inverse of `Join` used to read the
    exported CSV text back. Case conversion covers ASCII letters only. */
module Text {
  import opened Wrappers

  /** The characters `String.prototype.trim` removes (the ASCII ones, no-break space, the byte
      order mark and the two Unicode line separators). */
  predicate IsSpace(c: char) {
    c == ' ' || c == '\t' || c == '\n' || c == '\r' || c == '\U{000B}' || c == '\U{000C}'
    || c == '\U{00A0}' || c == '\U{FEFF}' || c == '\U{2028}' || c == '\U{2029}'
  }

  /** A string that `trim` turns into the empty (falsy) string. */
  predicate IsBlank(s: string) {
    forall i :: 0 <= i < |s| ==> IsSpace(s[i])
  }

  function TrimStart(s: string): (r: string)
    ensures |r| <= |s| && r == s[|s| - |r|..]
    ensures forall k :: 0 <= k < |s| - |r| ==> IsSpace(s[k])
    ensures r != [] ==> !IsSpace(r[0])
    decreases |s|
  {
    if s != [] && IsSpace(s[0]) then TrimStart(s[1..]) else s
  }

  function TrimEnd(s: string): (r: string)
    ensures |r| <= |s| && r == s[..|r|]
    ensures forall k :: |r| <= k < |s| ==> IsSpace(s[k])
    ensures r != [] ==> !IsSpace(r[|r| - 1])
    decreases |s|
  {
    if s != [] && IsSpace(s[|s| - 1]) then TrimEnd(s[..|s| - 1]) else s
  }

  /** `r` is the slice of `s` that starts at `a`, and only whitespace lies outside it. */
  predicate StripsTo(s: string, a: int, r: string) {
    0 <= a <= |s| - |r| && r == s[a..a + |r|]
    && (forall k :: 0 <= k < a ==> IsSpace(s[k]))
    && (forall k :: a + |r| <= k < |s| ==> IsSpace(s[k]))
  }

  /** `s.trim()`: the slice of `s` left after stripping whitespace from both ends; it is empty
      exactly when `s` is blank. */
  function Trim(s: string): (r: string)
    ensures |r| <= |s|
    ensures exists a :: StripsTo(s, a, r)
    ensures r == [] <==> IsBlank(s)
    ensures r != [] ==> !IsSpace(r[0]) && !IsSpace(r[|r| - 1])
  {
    var t := TrimStart(s);
    var r := TrimEnd(t);
    var a := |s| - |t|;
    assert s[a..a + |r|] == t[..|r|];
    assert StripsTo(s, a, r);
    r
  }

  function LowerChar(c: char): char {
    if 'A' <= c <= 'Z' then (c as int + 32) as char else c
  }

  function UpperChar(c: char): char {
    if 'a' <= c <= 'z' then (c as int - 32) as char else c
  }

  predicate IsLowerLetter(c: char) {
    'a' <= c <= 'z'
  }

  predicate IsUpperLetter(c: char) {
    'A' <= c <= 'Z'
  }

  /** `s.toLowerCase()` on ASCII letters: each upper-case letter becomes its lower-case letter,
      every other character is kept. */
  function ToLower(s: string): (r: string)
    ensures |r| == |s|
    ensures forall i :: 0 <= i < |r| ==> !IsUpperLetter(r[i])
    ensures forall i :: 0 <= i < |r| ==> (r[i] == s[i] <==> !IsUpperLetter(s[i]))
    ensures forall i :: 0 <= i < |s| && IsUpperLetter(s[i]) ==> IsLowerLetter(r[i]) && r[i] as int == s[i] as int + 32
  {
    seq(|s|, i requires 0 <= i < |s| => LowerChar(s[i]))
  }

  /** `s.toUpperCase()` on ASCII letters: each lower-case letter becomes its upper-case letter,
      every other character is kept. */
  function ToUpper(s: string): (r: string)
    ensures |r| == |s|
    ensures forall i :: 0 <= i < |r| ==> !IsLowerLetter(r[i])
    ensures forall i :: 0 <= i < |r| ==> (r[i] == s[i] <==> !IsLowerLetter(s[i]))
    ensures forall i :: 0 <= i < |s| && IsLowerLetter(s[i]) ==> IsUpperLetter(r[i]) && r[i] as int == s[i] as int - 32
  {
    seq(|s|, i requires 0 <= i < |s| => UpperChar(s[i]))
  }

  /** Lower-casing forgets the case of the input entirely. */
  lemma LowerOfUpper(s: string)
    ensures ToLower(ToUpper(s)) == ToLower(s)
  {
    assert forall i :: 0 <= i < |s| ==> LowerChar(UpperChar(s[i])) == LowerChar(s[i]);
  }

  /** Changing case neither adds nor removes whitespace. */
  lemma BlankIgnoresCase(s: string)
    ensures IsBlank(ToUpper(s)) <==> IsBlank(s)
    ensures IsBlank(ToLower(s)) <==> IsBlank(s)
  {
    assert forall i :: 0 <= i < |s| ==> (IsSpace(UpperChar(s[i])) <==> IsSpace(s[i]));
    assert forall i :: 0 <= i < |s| ==> (IsSpace(LowerChar(s[i])) <==> IsSpace(s[i]));
  }

  lemma ToUpperIdempotent(s: string)
    ensures ToUpper(ToUpper(s)) == ToUpper(s)
  {
  }

  predicate StartsWith(s: string, prefix: string) {
    |prefix| <= |s| && s[..|prefix|] == prefix
  }

  /** `part` occurs in `s` starting at index `i`. */
  predicate OccursAt(s: string, part: string, i: int) {
    0 <= i <= |s| - |part| && s[i..i + |part|] == part
  }

  /** `s.includes(part)`, written by recursion on `s`. */
  function Contains(s: string, part: string): bool
    decreases |s|
  {
    StartsWith(s, part) || (s != [] && Contains(s[1..], part))
  }

  /** `Contains` finds `part` exactly when some window of `s` equals it. */
  lemma {:induction false} ContainsIsSubstring(s: string, part: string)
    ensures Contains(s, part) <==> exists i :: OccursAt(s, part, i)
    decreases |s|
  {
    if StartsWith(s, part) {
      assert s[0..|part|] == part;
      assert OccursAt(s, part, 0);
    } else if s == [] {
      assert part != [];
    } else {
      ContainsIsSubstring(s[1..], part);
      if exists i :: OccursAt(s, part, i) {
        var i :| OccursAt(s, part, i);
        assert i != 0 by { assert s[..|part|] == s[0..|part|]; }
        assert s[1..][i - 1..i - 1 + |part|] == part;
        assert OccursAt(s[1..], part, i - 1);
      }
      if Contains(s[1..], part) {
        var j :| OccursAt(s[1..], part, j);
        assert s[j + 1..j + 1 + |part|] == part;
        assert OccursAt(s, part, j + 1);
      }
    }
  }

  /** The empty string is part of every string (so an empty search term matches everything). */
  lemma ContainsEmpty(s: string)
    ensures Contains(s, "")
  {
  }

  predicate IsDigit(c: char) {
    '0' <= c <= '9'
  }

  predicate AllDigits(s: string) {
    forall i :: 0 <= i < |s| ==> IsDigit(s[i])
  }

  function DigitChar(d: nat): (c: char)
    requires d < 10
    ensures IsDigit(c) && c as int - '0' as int == d
  {
    ('0' as int + d) as char
  }

  /** The number a string of decimal digits denotes (leading zeros allowed). */
  function DecimalValue(s: string): nat
    requires AllDigits(s)
    decreases |s|
  {
    if s == [] then 0 else DecimalValue(s[..|s| - 1]) * 10 + (s[|s| - 1] as int - '0' as int)
  }

  /** `String(n)` for a non-negative integer: the shortest decimal digit string denoting `n`. */
  function NatToDecimal(n: nat): (s: string)
    ensures s != [] && AllDigits(s)
    ensures DecimalValue(s) == n
    ensures s[0] == '0' ==> n == 0 && |s| == 1
    decreases n
  {
    if n < 10 then [DigitChar(n)]
    else
      var p := NatToDecimal(n / 10);
      var s := p + [DigitChar(n % 10)];
      assert s[..|s| - 1] == p;
      s
  }

  /** `String(i)` (or a template literal) for any integer. */
  function IntToDecimal(i: int): string {
    if i < 0 then "-" + NatToDecimal(-i) else NatToDecimal(i)
  }

  /** Reads back an optionally signed decimal integer. */
  function ParseInt(s: string): Option<int> {
    if s != [] && s[0] == '-' then
      if |s| > 1 && AllDigits(s[1..]) then Some(0 - DecimalValue(s[1..])) else None
    else if s != [] && AllDigits(s) then Some(DecimalValue(s))
    else None
  }

  lemma IntToDecimalRoundTrip(i: int)
    ensures ParseInt(IntToDecimal(i)) == Some(i)
    ensures ' ' !in IntToDecimal(i)
  {
    if i < 0 {
      var p := NatToDecimal(-i);
      assert ("-" + p)[1..] == p;
      assert ' ' !in p by { assert forall k :: 0 <= k < |p| ==> p[k] != ' '; }
    } else {
      var p := NatToDecimal(i);
      assert forall k :: 0 <= k < |p| ==> p[k] != ' ';
    }
  }

  function Repeat(c: char, n: nat): (r: string)
    ensures |r| == n && forall i :: 0 <= i < n ==> r[i] == c
  {
    seq(n, i => c)
  }

  /** `s.padStart(width, fill)`: `s` preceded by as many `fill` characters as it takes to reach
      `width`; a string already that long is returned as it is. */
  function PadStart(s: string, width: nat, fill: char): (r: string)
    ensures |r| == if |s| >= width then |s| else width
    ensures r[|r| - |s|..] == s
    ensures forall i :: 0 <= i < |r| - |s| ==> r[i] == fill
  {
    if |s| >= width then s else Repeat(fill, width - |s|) + s
  }

  /** Leading zeros do not change the number a digit string denotes. */
  lemma {:induction false} LeadingZeros(k: nat, s: string)
    requires AllDigits(s)
    ensures AllDigits(Repeat('0', k) + s)
    ensures DecimalValue(Repeat('0', k) + s) == DecimalValue(s)
    decreases |s|, k
  {
    var z := Repeat('0', k);
    var t := z + s;
    assert AllDigits(t) by {
      forall i | 0 <= i < |t| ensures IsDigit(t[i]) {
        if i >= k { assert t[i] == s[i - k]; }
      }
    }
    if s == [] {
      assert t == z;
      if k > 0 {
        assert t[..|t| - 1] == Repeat('0', k - 1) + [];
        LeadingZeros(k - 1, []);
      }
    } else {
      assert t[..|t| - 1] == z + s[..|s| - 1];
      LeadingZeros(k, s[..|s| - 1]);
    }
  }

  /** `parts.join(sep)`. */
  function Join(parts: seq<string>, sep: string): string
    decreases |parts|
  {
    if parts == [] then ""
    else if |parts| == 1 then parts[0]
    else parts[0] + sep + Join(parts[1..], sep)
  }

  /** `s.split(sep)` for a one-character separator: the pieces between separators. */
  function Split(s: string, sep: char): (parts: seq<string>)
    ensures |parts| >= 1
    decreases |s|
  {
    if s == [] then [""]
    else
      var rest := Split(s[1..], sep);
      if s[0] == sep then [""] + rest else [[s[0]] + rest[0]] + rest[1..]
  }

  lemma {:induction false} SplitWithoutSeparator(s: string, sep: char)
    requires sep !in s
    ensures Split(s, sep) == [s]
    decreases |s|
  {
    if s != [] {
      SplitWithoutSeparator(s[1..], sep);
      assert [s[0]] + s[1..] == s;
    }
  }

  lemma {:induction false} SplitAtSeparator(p: string, sep: char, rest: string)
    requires sep !in p
    ensures Split(p + [sep] + rest, sep) == [p] + Split(rest, sep)
    decreases |p|
  {
    var s := p + [sep] + rest;
    if p == [] {
      assert s == [sep] + rest;
      assert s[1..] == rest;
    } else {
      assert s[0] == p[0];
      assert s[1..] == p[1..] + [sep] + rest;
      SplitAtSeparator(p[1..], sep, rest);
      assert [p[0]] + p[1..] == p;
    }
  }

  /** Splitting a join recovers the parts when no part contains the separator. */
  lemma {:induction false} SplitJoin(parts: seq<string>, sep: char)
    requires |parts| >= 1
    requires forall i :: 0 <= i < |parts| ==> sep !in parts[i]
    ensures Split(Join(parts, [sep]), sep) == parts
    decreases |parts|
  {
    if |parts| == 1 {
      SplitWithoutSeparator(parts[0], sep);
    } else {
      SplitJoin(parts[1..], sep);
      SplitAtSeparator(parts[0], sep, Join(parts[1..], [sep]));
      assert [parts[0]] + parts[1..] == parts;
    }
  }

  /** A character that is neither in the separator nor in any part is not in the join. */
  lemma {:induction false} JoinAvoids(parts: seq<string>, sep: string, c: char)
    requires c !in sep
    requires forall i :: 0 <= i < |parts| ==> c !in parts[i]
    ensures c !in Join(parts, sep)
    decreases |parts|
  {
    if |parts| > 1 {
      JoinAvoids(parts[1..], sep, c);
    }
  }
}
