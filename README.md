# mem_info.h in Dafny

A model of `src/mem_info.h`, the header that reports the host's total and
free physical memory in bytes, and converts byte counts to and from
kilobytes, megabytes and gigabytes.

The model has seven modules:

- `Wrappers` (wrappers.dfy): the `Option` type, for a conversion or a kernel
  call that may fail.
- `Unsigned` (unsigned.dfy): `size_t` as a 64-bit unsigned integer. `Add`,
  `Sub` and `Mul` reduce modulo 2^64, as C++ does for unsigned operands.
- `Units` (units.dfy): the `SiPrefix` enumeration and the `ToUnits` /
  `FromUnits` templates. The template parameter becomes an ordinary argument.
- `SizeScan` (size_scan.dfy): the `%zu` conversion that `sscanf` performs on
  a meminfo line. It skips white space, reads the longest run of decimal
  digits, and fails when there are none.
- `Meminfo` (meminfo_parse.dfy): the Linux branch of `MemInfo::Init` as a
  specification. `Step` is one pass of the `getline` loop and `Scan` is the
  whole loop. Both work on `Counters`, the values of `physical_memory`,
  `memFree`, `buffers` and `cached`. `Free` is the final subtraction.
- `MacMemory` (mac_free.dfy): the macOS free-memory arithmetic. The page
  size and page counts that the kernel reports are parameters.
- `MemInfoStruct` (mem_info.dfy): the `MemInfo` struct as a class with fields
  `physicalMemory` and `freeMemory`.
  - `InitLinux` is the imperative loop over the lines of `/proc/meminfo`. Its
    loop invariant ties the three locals and the field to `Scan` of the lines
    read so far.
  - `InitMac` is the macOS branch.
  - The named constructors `Linux` and `Mac` stand for `MemInfo()` on each
    platform.

What the code does when things go wrong or look odd:

- When `/proc/meminfo` cannot be opened, or `sysctl` fails, the code assigns
  nothing. The fields keep whatever the object held before `Init`. That is
  an indeterminate value for an automatic or heap object, and 0 for an
  object of static storage duration, which is zero-initialised before its
  constructor runs. The model leaves both fields unchanged, so an arbitrary
  starting value covers both cases.
- Nothing guarantees a positive total after a successful `Init`.
  `ZeroTotalAccepted` shows that `MemTotal: 0 kB` is read as 0.
- Free memory can exceed the total. `FreeCanExceedPhysical` shows a `MemFree:`
  value above `MemTotal:` wrapping to almost 2^64.

These behaviours of the code are kept on purpose:

- For a recognised line whose number does not convert, the counter keeps its
  old value and is still multiplied by 1024.
- A later line with the same label overwrites an earlier one.
- `memFree`, `buffers` and `cached` start at 0.
- `physical_memory` starts with whatever the object held. If no `MemTotal:`
  line appears, that value enters the subtraction.

## Model

| member | source | states |
|---|---|---|
| `Unsigned.Add` | src/mem_info.h:74 | `size_t` addition: the exact sum below 2^64, the sum less 2^64 above |
| `Unsigned.Mul` | src/mem_info.h:70-72 | `size_t` multiplication (also `units * multiplier` on line 32 and `*= 1024` on lines 88-100): the exact product below 2^64, and in every case the value congruent to the product modulo 2^64 |
| `Unsigned.Sub` | src/mem_info.h:103 | `size_t` subtraction: the exact difference when no borrow occurs, otherwise the difference plus 2^64 |
| `Units.Multiplier` | src/mem_info.h:15-20 | each prefix's value is 1024 raised to its rank (B 0, KB 1, MB 2, GB 3), positive and a divisor of 2^64 |
| `Units.ToUnits` | src/mem_info.h:22-27 | truncating division: `r * P <= bytes < (r + 1) * P` |
| `Units.FromUnits` | src/mem_info.h:29-34 | the exact product `units * P` when it fits in 64 bits; in every case a multiple of `P` |
| `Units.MultipleWraps` | src/mem_info.h:29-34 | the wrapped product of a count and a multiplier is still a multiple of that multiplier |
| `Units.FromUnitsDropsHighUnits` | src/mem_info.h:29-34 | on overflow the result is `(units mod (2^64 / P)) * P`: the high-order units are lost |
| `Units.ToUnitsOfBytes` | src/mem_info.h:22-34 | with prefix B both conversions are the identity |
| `Units.FromToUnitsBelow` | src/mem_info.h:22-34 | `FromUnits(ToUnits(b)) <= b`, short of `b` by less than one unit |
| `Units.ToFromUnitsRoundTrip` | src/mem_info.h:22-34 | `ToUnits(FromUnits(u)) == u` whenever `u * P` does not overflow |
| `Units.ToUnitsNested` | src/mem_info.h:22-27 | dividing by MB equals dividing by KB twice; by GB equals by MB then by KB |
| `Units.ConversionValues` | src/mem_info.h:15-34 | B = 1, KB = 1024, MB = 1048576, GB = 1073741824; 1024 bytes is 1 KB, 1023 bytes is 0 KB, 1 GB is 1073741824 bytes |
| `SizeScan.SpaceRunMaximal` | src/mem_info.h:87 | the white space `%zu` skips is the longest prefix of white-space characters |
| `SizeScan.DigitRunMaximal` | src/mem_info.h:87 | the digits `%zu` reads are the longest prefix of decimal digits |
| `SizeScan.DigitsValue` | src/mem_info.h:87 | the value `%zu` gives a digit run: `k` digits denote less than 10^k; `ScanSizeOfDecimal` proves it reads back the decimal spelling of any `n` |
| `SizeScan.Saturate` | src/mem_info.h:87 | storing the digit run into `size_t`: the value itself below 2^64, `SIZE_MAX` from 2^64 on |
| `SizeScan.ScanSize` | src/mem_info.h:87 | the conversion fails exactly when no digit follows the leading white space |
| `SizeScan.DecimalValue` | src/mem_info.h:87 | reading the decimal spelling of `n` gives `n` |
| `SizeScan.ScanSizeOfDecimal` | src/mem_info.h:87 | white space, a decimal `size_t`, then a non-digit scan back to that value |
| `Meminfo.LabelsExclusive` | src/mem_info.h:86-101 | no line starts with two different labels |
| `Meminfo.Classify` | src/mem_info.h:86-101 | a line is dispatched exactly when it starts with one of the four labels, and then to a label it starts with |
| `Meminfo.Initial` | src/mem_info.h:84 | before the loop `memFree`, `buffers` and `cached` are 0 and the total is what the object held |
| `Meminfo.Update` | src/mem_info.h:87-88 | `sscanf` then `*= 1024` on a label's counter (the same at lines 91-92, 95-96, 99-100): the new counter is a multiple of 1024 and the other counters are kept; `StepStoresKilobytes` and `StepRescalesOnFailedConversion` give its value |
| `Meminfo.Step` | src/mem_info.h:86-101 | one pass of the if / else-if chain changes no counter whose label the line does not start with, and a counter it changes holds whole kilobytes; `LabelsExclusive` and the `Step*` lemmas give the rest |
| `Meminfo.Scan` | src/mem_info.h:85-102 | the `getline` loop: each counter either keeps its starting value or holds whole kilobytes, by induction over the lines; the `Scan*` lemmas give the final values |
| `Meminfo.Free` | src/mem_info.h:103 | the three left-to-right `size_t` subtractions equal the exact difference reduced modulo 2^64 once |
| `Meminfo.Set` | src/mem_info.h:84-101 | replacing one counter leaves the other three as they were |
| `Meminfo.StepIgnoresOtherLines` | src/mem_info.h:85-102 | a line starting with none of the labels (e.g. `SwapCached:`) changes no counter |
| `Meminfo.StepStoresKilobytes` | src/mem_info.h:86-101 | a recognised line whose number converts to `n` sets its counter to `n * 1024` (wrapping) and keeps the others |
| `Meminfo.StepRescalesOnFailedConversion` | src/mem_info.h:86-101 | a recognised line whose number does not convert multiplies the old counter by 1024 again |
| `Meminfo.ScanAbsentLabel` | src/mem_info.h:84-102 | a label no line carries keeps its starting value, 0 for `memFree`, `buffers`, `cached` |
| `Meminfo.ScanLastOccurrence` | src/mem_info.h:85-102 | the last line carrying a label decides that counter's final value when its number converts to `n`: the counter ends at `n * 1024` |
| `Meminfo.ScanAppend` | src/mem_info.h:85-102 | reading `a + b` is reading `b` starting from the counters after `a` |
| `Meminfo.ScanSkipsOtherLine` | src/mem_info.h:85-102 | an unrecognised line anywhere in the file does not change the outcome |
| `Meminfo.FreeIsWrappedDifference` | src/mem_info.h:103 | when the deductions fit in the total, no subtraction borrows: free memory is exactly `physical - memFree - buffers - cached` and at most the total |
| `Meminfo.LabelLineReads` | src/mem_info.h:86-101 | a line `<Label>: <n> kB` starts with its label and its number converts to `n` |
| `Meminfo.ScanLastLineReads` | src/mem_info.h:85-102 | a last line of a label that converts to `n` sets that counter to `n * 1024` on top of the earlier lines |
| `Meminfo.ScanFourLabels` | src/mem_info.h:83-102 | four lines, one per label in file order, each converting, leave each counter at its number times 1024 |
| `Meminfo.FourLabelCounters` | src/mem_info.h:83-102 | a meminfo with the four labels once each gives each value times 1024, whatever `physical_memory` held before |
| `Meminfo.ExampleSnapshot` | src/mem_info.h:83-103 | for 16384000 / 2048000 / 102400 / 512000 kB, free memory is `(16384000 - 2048000 - 102400 - 512000) * 1024` bytes |
| `Meminfo.FreeCanExceedPhysical` | src/mem_info.h:103 | `MemFree:` above `MemTotal:` gives free memory `2^64 - 1024`, far above the total |
| `Meminfo.ZeroTotalAccepted` | src/mem_info.h:86-88 | `MemTotal: 0 kB` yields a total of 0; no positive total is guaranteed |
| `MacMemory.MacFree` | src/mem_info.h:70-74 | free memory is `physical - (active + inactive + wired) * page_size` modulo 2^64 |
| `MacMemory.UsedBytesWrap` | src/mem_info.h:70-74 | the three wrapped page products, summed and subtracted in `size_t`, equal the exact difference wrapped once |
| `MacMemory.MacFreeIsWrappedDifference` | src/mem_info.h:70-74 | when the used pages fit in the total, free memory is the exact remainder and at most the total |
| `MemInfoStruct.MemInfo.InitLinux` | src/mem_info.h:76-103 | unopenable file: both fields unchanged; otherwise the fields are the total and free memory that `Scan` and `Free` give from the old total |
| `MemInfoStruct.MemInfo.InitMac` | src/mem_info.h:50-74 | failed `sysctl`: nothing assigned; failed statistics: total stored, free unchanged; otherwise free is `MacFree` |
| `MemInfoStruct.MemInfo.Linux` | src/mem_info.h:107-109 | after construction from a readable meminfo, the fields are what `Init` gives for some starting total |
| `MemInfoStruct.MemInfo.Mac` | src/mem_info.h:107-109 | after construction the total is the `sysctl` value, and the free memory is `MacFree` when the statistics call succeeded |

## Left out

- The Windows branch (`GlobalMemoryStatusEx`, lines 44-48): it copies two fields from an OS call and throws when the call fails. It has no logic to model.
- `MemInfo::Error`: it only writes a diagnostic to standard error.
- File I/O: `/proc/meminfo` arrives already split into lines, or as None when it cannot be opened. `std::getline`'s splitting of the text is not modelled.
- The `sysctl`, `mach_host_self`, `host_page_size` and `host_statistics64` calls: their results are parameters. A failed `sysctl` is taken to leave `physical_memory` untouched. `host_page_size`'s unchecked result is taken as whatever page size it reports.
- `size_t` is taken to be 64 bits wide. On a 32-bit build, `physical_memory *= 1024` (line 88) wraps modulo 2^32 once `MemTotal:` reaches 4 GiB, and an overflowing `%zu` saturates at 2^32 - 1. The model covers neither.
- Preprocessor platform selection: each platform's `Init` is a separate method, with a named constructor per platform.
- `SizeScan.ScanSize`: `%zu` also accepts a leading `+` or `-`. The model does not; a sign makes its conversion fail.
- `SizeScan.ScanSize`: C leaves a digit run above `SIZE_MAX` undefined. The model saturates to `SIZE_MAX`, as glibc does.
- `SizeScan.ScanSize`: the text after the number (` kB`) is not matched. It cannot change the stored value.
- `MemInfoStruct.MemInfo.Linux`: the C++ fields hold indeterminate values before `Init`. The postcondition therefore only says that some starting total gives the result.
- `MemInfoStruct.MemInfo.Linux`: says nothing when the file cannot be opened, because the fields then stay indeterminate.
- `MemInfoStruct.MemInfo.Mac`: says nothing about the fields the failed calls leave unassigned.
