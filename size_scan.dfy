/** The `%zu` conversion of `sscanf` as the meminfo parser uses it: skip
    white space, then read the longest run of decimal digits. The conversion
    fails when no digit follows the white space. */
module SizeScan {
  import opened Wrappers
  import opened Unsigned

  /** The characters C's `isspace` accepts in the "C" locale. */
  predicate IsSpace(c: char) {
    c == ' ' || c == '\t' || c == '\n' || c == '\U{0B}' || c == '\U{0C}' || c == '\r'
  }

  predicate IsDigit(c: char) {
    '0' <= c <= '9'
  }

  predicate AllDigits(s: string) {
    forall i :: 0 <= i < |s| ==> IsDigit(s[i])
  }

  function DigitValue(c: char): (v: nat)
    requires IsDigit(c)
    ensures v < 10
  {
    (c as int) - ('0' as int)
  }

  function DigitChar(v: nat): (c: char)
    requires v < 10
    ensures IsDigit(c) && DigitValue(c) == v
  {
    ('0' as int + v) as char
  }

  /** Length of the white space that starts `s`. */
  function SpaceRun(s: string): (k: nat)
    ensures k <= |s|
  {
    if s != [] && IsSpace(s[0]) then 1 + SpaceRun(s[1..]) else 0
  }

  /** `SpaceRun` is the longest white-space prefix: every character before it
      is white space, and the character at it is not. */
  lemma {:induction false} SpaceRunMaximal(s: string)
    ensures forall i :: 0 <= i < SpaceRun(s) ==> IsSpace(s[i])
    ensures SpaceRun(s) < |s| ==> !IsSpace(s[SpaceRun(s)])
  {
    if s != [] && IsSpace(s[0]) {
      SpaceRunMaximal(s[1..]);
    }
  }

  /** Length of the run of decimal digits that starts `s`. */
  function DigitRun(s: string): (k: nat)
    ensures k <= |s|
  {
    if s != [] && IsDigit(s[0]) then 1 + DigitRun(s[1..]) else 0
  }

  /** `DigitRun` is the longest digit prefix: every character before it is a
      digit, and the character at it is not. */
  lemma {:induction false} DigitRunMaximal(s: string)
    ensures AllDigits(s[..DigitRun(s)])
    ensures DigitRun(s) < |s| ==> !IsDigit(s[DigitRun(s)])
  {
    if s != [] && IsDigit(s[0]) {
      DigitRunMaximal(s[1..]);
      assert s[..DigitRun(s)] == [s[0]] + s[1..][..DigitRun(s[1..])];
    }
  }

  /** 10 raised to `k`. */
  function Pow10(k: nat): nat {
    if k == 0 then 1 else 10 * Pow10(k - 1)
  }

  /** The number a string of decimal digits denotes, most significant first;
      `k` digits denote less than 10^k. */
  function DigitsValue(d: string): (v: nat)
    requires AllDigits(d)
    ensures v < Pow10(|d|)
  {
    if d == [] then 0 else 10 * DigitsValue(d[..|d| - 1]) + DigitValue(d[|d| - 1])
  }

  /** Storing a value that does not fit: glibc's conversion yields SIZE_MAX. */
  function Saturate(n: nat): (r: SizeT)
    ensures n < WORD ==> r == n
    ensures n >= WORD ==> r == SIZE_MAX
  {
    if n < WORD then n else SIZE_MAX
  }

  /** `%zu` applied to `s`: None when the conversion fails, otherwise the
      value of the digits that follow the leading white space. */
  function ScanSize(s: string): (r: Option<SizeT>)
    ensures r.None? <==> SpaceRun(s) == |s| || !IsDigit(s[SpaceRun(s)])
  {
    var t := s[SpaceRun(s)..];
    var k := DigitRun(t);
    DigitRunMaximal(t);
    if k == 0 then None else Some(Saturate(DigitsValue(t[..k])))
  }

  /** The decimal spelling of `n`, without leading zeros. */
  function Decimal(n: nat): (d: string)
    ensures 0 < |d| && AllDigits(d)
  {
    if n < 10 then [DigitChar(n)] else Decimal(n / 10) + [DigitChar(n % 10)]
  }

  /** Reading the decimal spelling of `n` gives back `n`. */
  lemma {:induction false} DecimalValue(n: nat)
    ensures DigitsValue(Decimal(n)) == n
  {
    var d := Decimal(n);
    if n >= 10 {
      assert d[..|d| - 1] == Decimal(n / 10);
      DecimalValue(n / 10);
    }
  }

  /** A digit run followed by a non-digit is read up to that non-digit. */
  lemma {:induction false} DigitRunOfPrefix(d: string, rest: string)
    requires AllDigits(d)
    requires rest == [] || !IsDigit(rest[0])
    ensures DigitRun(d + rest) == |d|
  {
    if d != [] {
      assert (d + rest)[1..] == d[1..] + rest;
      DigitRunOfPrefix(d[1..], rest);
    }
  }

  /** Leading white space is skipped up to the first other character. */
  lemma {:induction false} SpaceRunOfPrefix(ws: string, t: string)
    requires forall i :: 0 <= i < |ws| ==> IsSpace(ws[i])
    requires t != [] && !IsSpace(t[0])
    ensures SpaceRun(ws + t) == |ws|
  {
    if ws != [] {
      assert (ws + t)[1..] == ws[1..] + t;
      SpaceRunOfPrefix(ws[1..], t);
    }
  }

  /** Round trip: white space, then the decimal spelling of a `size_t`, then
      anything that does not start with a digit, scans back to that value. */
  lemma ScanSizeOfDecimal(ws: string, n: SizeT, rest: string)
    requires forall i :: 0 <= i < |ws| ==> IsSpace(ws[i])
    requires rest == [] || !IsDigit(rest[0])
    ensures ScanSize(ws + Decimal(n) + rest) == Some(n)
  {
    var d := Decimal(n);
    var s := ws + d + rest;
    assert s == ws + (d + rest);
    assert IsDigit((d + rest)[0]);
    SpaceRunOfPrefix(ws, d + rest);
    assert s[|ws|..] == d + rest;
    DigitRunOfPrefix(d, rest);
    assert (d + rest)[..|d|] == d;
    DecimalValue(n);
  }
}
