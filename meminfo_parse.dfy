/** The Linux branch of `MemInfo::Init` as a specification: how the lines of
    `/proc/meminfo` drive the four counters (`physical_memory`, `memFree`,
    `buffers`, `cached`) and how free memory follows from them. */
module Meminfo {
  import opened Wrappers
  import opened Unsigned
  import opened SizeScan
  import Units

  /** The four lines the parser recognises. */
  datatype Label = MemTotal | MemFree | Buffers | Cached

  /** The exact prefix that identifies a line of each kind. */
  function Text(l: Label): string {
    match l
    case MemTotal => "MemTotal:"
    case MemFree => "MemFree:"
    case Buffers => "Buffers:"
    case Cached => "Cached:"
  }

  /** `line.find(prefix) == 0`: the line begins with `prefix`. */
  predicate StartsWith(line: string, prefix: string) {
    |prefix| <= |line| && line[..|prefix|] == prefix
  }

  /** No line begins with two of the labels: they are not prefixes of one another. */
  lemma LabelsExclusive(line: string, l1: Label, l2: Label)
    requires StartsWith(line, Text(l1)) && StartsWith(line, Text(l2))
    ensures l1 == l2
  {
    assert line[0] == Text(l1)[0] == Text(l2)[0];
    assert line[3] == Text(l1)[3] == Text(l2)[3];
  }

  /** The if / else-if chain: which label, if any, a line is dispatched to. */
  function Classify(line: string): (r: Option<Label>)
    ensures r.Some? <==> exists l :: StartsWith(line, Text(l))
    ensures r.Some? ==> StartsWith(line, Text(r.value))
  {
    if StartsWith(line, Text(MemTotal)) then Some(MemTotal)
    else if StartsWith(line, Text(MemFree)) then Some(MemFree)
    else if StartsWith(line, Text(Buffers)) then Some(Buffers)
    else if StartsWith(line, Text(Cached)) then Some(Cached)
    else None
  }

  /** The values of `physical_memory`, `memFree`, `buffers` and `cached`. */
  datatype Counters = Counters(physical: SizeT, memFree: SizeT, buffers: SizeT, cached: SizeT)

  /** The counter a label feeds. */
  function Get(c: Counters, l: Label): SizeT {
    match l
    case MemTotal => c.physical
    case MemFree => c.memFree
    case Buffers => c.buffers
    case Cached => c.cached
  }

  /** `c` with the counter of `l` replaced by `v`, the other three kept. */
  function Set(c: Counters, l: Label, v: SizeT): (r: Counters)
    ensures Get(r, l) == v
    ensures forall l' :: l' != l ==> Get(r, l') == Get(c, l')
  {
    match l
    case MemTotal => c.(physical := v)
    case MemFree => c.(memFree := v)
    case Buffers => c.(buffers := v)
    case Cached => c.(cached := v)
  }

  /** The counters before the first line: `memFree`, `buffers` and `cached`
      start at 0; `physical_memory` keeps whatever the object held. */
  function Initial(physical: SizeT): (r: Counters)
    ensures Get(r, MemTotal) == physical
    ensures forall l :: l != MemTotal ==> Get(r, l) == 0
  {
    Counters(physical, 0, 0, 0)
  }

  /** `sscanf(line, "<Label>: %zu kB", &counter); counter *= 1024;` for the
      label the line starts with. A failed conversion leaves the counter as
      it was, and the multiplication by 1024 happens regardless. */
  function Update(c: Counters, l: Label, line: string): (r: Counters)
    requires StartsWith(line, Text(l))
    ensures Get(r, l) % 1024 == 0
    ensures forall l' :: l' != l ==> Get(r, l') == Get(c, l')
  {
    var scanned := ScanSize(line[|Text(l)|..]).GetOr(Get(c, l));
    Units.MultipleWraps(scanned, Units.KB);
    Set(c, l, Mul(scanned, 1024))
  }

  /** One iteration of the `getline` loop: it changes no counter whose label
      the line does not start with, and a counter it changes ends as a
      multiple of 1024. */
  function Step(c: Counters, line: string): (r: Counters)
    ensures forall l :: !StartsWith(line, Text(l)) ==> Get(r, l) == Get(c, l)
    ensures forall l :: Get(r, l) == Get(c, l) || Get(r, l) % 1024 == 0
  {
    match Classify(line)
    case None => c
    case Some(l) => Update(c, l, line)
  }

  /** The counters after the loop has read all of `lines`, starting from `c`.
      Every counter either keeps its starting value or holds a whole number
      of kilobytes. */
  function Scan(lines: seq<string>, c: Counters): (r: Counters)
    ensures forall l :: Get(r, l) == Get(c, l) || Get(r, l) % 1024 == 0
  {
    if lines == [] then c
    else Step(Scan(lines[..|lines| - 1], c), lines[|lines| - 1])
  }

  /** `physical_memory - memFree - buffers - cached`, evaluated left to right
      in `size_t`: the exact difference reduced modulo 2^64 once. */
  function Free(c: Counters): (r: SizeT)
    ensures r == Wrap(c.physical - c.memFree - c.buffers - c.cached)
  {
    SubOfWrap(c.physical - c.memFree, c.buffers);
    SubOfWrap(c.physical - c.memFree - c.buffers, c.cached);
    Sub(Sub(Sub(c.physical, c.memFree), c.buffers), c.cached)
  }

  /** A line that starts with none of the four labels (`SwapCached:`,
      `MemAvailable:`, ...) changes no counter. */
  lemma StepIgnoresOtherLines(c: Counters, line: string)
    requires forall l :: !StartsWith(line, Text(l))
    ensures Step(c, line) == c
  {
  }

  /** A recognised line whose number converts sets its counter to that number
      of kilobytes in bytes, wrapping in `size_t`; the others stay. */
  lemma StepStoresKilobytes(c: Counters, line: string, l: Label, n: SizeT)
    requires StartsWith(line, Text(l))
    requires ScanSize(line[|Text(l)|..]) == Some(n)
    ensures Step(c, line) == Set(c, l, Mul(n, 1024))
  {
    LabelsExclusive(line, l, Classify(line).value);
  }

  /** A recognised line whose number does not convert still multiplies its
      counter by 1024: the old value is scaled again. */
  lemma StepRescalesOnFailedConversion(c: Counters, line: string, l: Label)
    requires StartsWith(line, Text(l))
    requires ScanSize(line[|Text(l)|..]).None?
    ensures Step(c, line) == Set(c, l, Mul(Get(c, l), 1024))
  {
    LabelsExclusive(line, l, Classify(line).value);
  }

  /** A label that no line carries keeps its starting value; with `Initial`
      an absent `MemFree:`, `Buffers:` or `Cached:` contributes 0. */
  lemma {:induction false} ScanAbsentLabel(lines: seq<string>, c: Counters, l: Label)
    requires forall k :: 0 <= k < |lines| ==> !StartsWith(lines[k], Text(l))
    ensures Get(Scan(lines, c), l) == Get(c, l)
  {
    if lines != [] {
      var init := lines[..|lines| - 1];
      ScanAbsentLabel(init, c, l);
    }
  }

  /** The last line carrying a label decides its counter: if that line's
      number converts to `n`, the counter ends as `n` kilobytes in bytes. */
  lemma {:induction false} ScanLastOccurrence(lines: seq<string>, c: Counters, l: Label, j: nat, n: SizeT)
    requires j < |lines|
    requires StartsWith(lines[j], Text(l))
    requires ScanSize(lines[j][|Text(l)|..]) == Some(n)
    requires forall k :: j < k < |lines| ==> !StartsWith(lines[k], Text(l))
    ensures Get(Scan(lines, c), l) == Mul(n, 1024)
  {
    var init := lines[..|lines| - 1];
    var last := lines[|lines| - 1];
    if j == |lines| - 1 {
      StepStoresKilobytes(Scan(init, c), last, l, n);
    } else {
      ScanLastOccurrence(init, c, l, j, n);
    }
  }

  /** Reading more lines extends the loop: the counters after `a + b` are
      those after `b` started from the counters after `a`. */
  lemma {:induction false} ScanAppend(a: seq<string>, b: seq<string>, c: Counters)
    ensures Scan(a + b, c) == Scan(b, Scan(a, c))
  {
    if b == [] {
      assert a + b == a;
    } else {
      var b' := b[..|b| - 1];
      assert (a + b)[..|a + b| - 1] == a + b';
      ScanAppend(a, b', c);
    }
  }

  /** Removing a line that carries none of the labels, wherever it stands,
      does not change the outcome of the loop. */
  lemma ScanSkipsOtherLine(a: seq<string>, line: string, b: seq<string>, c: Counters)
    requires forall l :: !StartsWith(line, Text(l))
    ensures Scan(a + [line] + b, c) == Scan(a + b, c)
  {
    ScanAppend(a + [line], b, c);
    ScanAppend(a, [line], c);
    assert [line][..0] == [];
    StepIgnoresOtherLines(Scan(a, c), line);
    ScanAppend(a, b, c);
  }

  /** When the three deductions do not exceed the total, no subtraction
      borrows: free memory is the exact difference and at most the total. */
  lemma FreeIsWrappedDifference(c: Counters)
    ensures c.memFree + c.buffers + c.cached <= c.physical ==>
              Free(c) == c.physical - c.memFree - c.buffers - c.cached <= c.physical
  {
  }

  /** `line` is a line of label `l` whose number converts to `n`. */
  predicate Reads(line: string, l: Label, n: SizeT) {
    StartsWith(line, Text(l)) && ScanSize(line[|Text(l)|..]) == Some(n)
  }

  /** A meminfo line as the kernel writes it: `<Label>: <value> kB`. */
  function LabelLine(l: Label, kilobytes: nat): string {
    Text(l) + " " + Decimal(kilobytes) + " kB"
  }

  /** A well-formed line of a label is read as its value. */
  lemma LabelLineReads(l: Label, kilobytes: SizeT)
    ensures Reads(LabelLine(l, kilobytes), l, kilobytes)
  {
    var line := LabelLine(l, kilobytes);
    assert line == Text(l) + (" " + Decimal(kilobytes) + " kB");
    assert line[|Text(l)|..] == " " + Decimal(kilobytes) + " kB";
    ScanSizeOfDecimal(" ", kilobytes, " kB");
  }

  /** A last line that reads as `n` leaves the counters of the earlier lines
      with its label's counter set to `n` kilobytes in bytes. */
  lemma ScanLastLineReads(lines: seq<string>, c: Counters, l: Label, n: SizeT)
    requires lines != [] && Reads(lines[|lines| - 1], l, n)
    ensures Scan(lines, c) == Set(Scan(lines[..|lines| - 1], c), l, Mul(n, 1024))
  {
    StepStoresKilobytes(Scan(lines[..|lines| - 1], c), lines[|lines| - 1], l, n);
  }

  /** The loop over four lines, one per label in file order, each of whose
      numbers converts, ends with every counter at its number times 1024. */
  lemma ScanFourLabels(l0: string, l1: string, l2: string, l3: string, c: Counters,
                       total: SizeT, memFree: SizeT, buffers: SizeT, cached: SizeT)
    requires Reads(l0, MemTotal, total) && Reads(l1, MemFree, memFree)
    requires Reads(l2, Buffers, buffers) && Reads(l3, Cached, cached)
    ensures Scan([l0, l1, l2, l3], c)
            == Counters(Mul(total, 1024), Mul(memFree, 1024), Mul(buffers, 1024), Mul(cached, 1024))
  {
    var p1, p2, p3, p4 := [l0], [l0, l1], [l0, l1, l2], [l0, l1, l2, l3];
    assert p1[..0] == [] && p2[..1] == p1 && p3[..2] == p2 && p4[..3] == p3;
    ScanLastLineReads(p1, c, MemTotal, total);
    ScanLastLineReads(p2, c, MemFree, memFree);
    ScanLastLineReads(p3, c, Buffers, buffers);
    ScanLastLineReads(p4, c, Cached, cached);
  }

  /** The lines of a meminfo that carries the four labels once each, in the
      kernel's order, with the given numbers of kilobytes. */
  function FourLabelLines(total: nat, memFree: nat, buffers: nat, cached: nat): seq<string> {
    [LabelLine(MemTotal, total), LabelLine(MemFree, memFree),
     LabelLine(Buffers, buffers), LabelLine(Cached, cached)]
  }

  /** Such a meminfo sets each counter to its number of kilobytes in bytes. */
  lemma FourLabelCounters(total: SizeT, memFree: SizeT, buffers: SizeT, cached: SizeT, before: SizeT)
    ensures Scan(FourLabelLines(total, memFree, buffers, cached), Initial(before))
            == Counters(Mul(total, 1024), Mul(memFree, 1024), Mul(buffers, 1024), Mul(cached, 1024))
  {
    var l0, l1 := LabelLine(MemTotal, total), LabelLine(MemFree, memFree);
    var l2, l3 := LabelLine(Buffers, buffers), LabelLine(Cached, cached);
    LabelLineReads(MemTotal, total);
    LabelLineReads(MemFree, memFree);
    LabelLineReads(Buffers, buffers);
    LabelLineReads(Cached, cached);
    ScanFourLabels(l0, l1, l2, l3, Initial(before), total, memFree, buffers, cached);
  }

  /** The example meminfo: 16384000 kB in total, 2048000 kB free, 102400 kB
      of buffers and 512000 kB cached, read as those numbers times 1024, with
      (16384000 - 2048000 - 102400 - 512000) * 1024 bytes free. */
  lemma ExampleSnapshot(before: SizeT)
    ensures var c := Scan(FourLabelLines(16384000, 2048000, 102400, 512000), Initial(before));
            c == Counters(16384000 * 1024, 2048000 * 1024, 102400 * 1024, 512000 * 1024) &&
            Free(c) == (16384000 - 2048000 - 102400 - 512000) * 1024
  {
    var c := Scan(FourLabelLines(16384000, 2048000, 102400, 512000), Initial(before));
    assert c == Counters(16384000 * 1024, 2048000 * 1024, 102400 * 1024, 512000 * 1024) by {
      FourLabelCounters(16384000, 2048000, 102400, 512000, before);
    }
    FreeIsWrappedDifference(c);
  }

  /** The free-memory figure is not bounded by the total: `MemFree: 2 kB`
      under `MemTotal: 1 kB` borrows 2^64 and yields more free memory than
      there is. */
  lemma FreeCanExceedPhysical(before: SizeT)
    ensures var c := Scan(FourLabelLines(1, 2, 0, 0), Initial(before));
            c.physical == 1024 && Free(c) == WORD - 1024
  {
    var c := Scan(FourLabelLines(1, 2, 0, 0), Initial(before));
    assert c == Counters(1024, 2048, 0, 0) by {
      FourLabelCounters(1, 2, 0, 0, before);
    }
  }

  /** Nothing rejects a zero total: `MemTotal: 0 kB` is read as 0 bytes, so
      a completed `Init` does not guarantee a positive total. */
  lemma ZeroTotalAccepted(before: SizeT)
    ensures Scan([LabelLine(MemTotal, 0)], Initial(before)).physical == 0
  {
    var line := LabelLine(MemTotal, 0);
    LabelLineReads(MemTotal, 0);
    assert [line][..0] == [];
    StepStoresKilobytes(Initial(before), line, MemTotal, 0);
  }
}
