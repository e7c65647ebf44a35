/** The `MemInfo` struct: total and free physical memory in bytes, filled in
    by `Init`. The platform is chosen at build time in the C++ code; here each
    platform's `Init` is a method and each platform's construction a named
    constructor. */
module MemInfoStruct {
  import opened Wrappers
  import opened Unsigned
  import opened SizeScan
  import opened Meminfo
  import opened MacMemory

  class MemInfo {
    var physicalMemory: SizeT
    var freeMemory: SizeT

    /** `MemInfo()` on Linux. The fields are not initialised before `Init`
        runs, so what the object holds afterwards is described for some
        unknown starting value of `physicalMemory`. `meminfo` is the text of
        `/proc/meminfo` split into lines, or None when it cannot be opened. */
    constructor Linux(meminfo: Option<seq<string>>)
      ensures meminfo.Some? ==>
        exists before: SizeT {:trigger Initial(before)} ::
          physicalMemory == Scan(meminfo.value, Initial(before)).physical &&
          freeMemory == Free(Scan(meminfo.value, Initial(before)))
    {
      new;
      ghost var before := physicalMemory;
      InitLinux(meminfo);
      assert meminfo.Some? ==> physicalMemory == Scan(meminfo.value, Initial(before)).physical;
    }

    /** `MemInfo()` on macOS, given what `sysctl(HW_MEMSIZE)`, `host_page_size`
        and `host_statistics64` report (None for a call that fails). */
    constructor Mac(memsize: Option<SizeT>, pageSize: SizeT, stats: Option<VmStatistics>)
      ensures memsize.Some? ==> physicalMemory == memsize.value
      ensures memsize.Some? && stats.Some? ==>
        freeMemory == MacFree(memsize.value, pageSize, stats.value)
    {
      new;
      InitMac(memsize, pageSize, stats);
    }

    /** `Init` on Linux. If the file cannot be opened nothing is assigned.
        Otherwise every line is dispatched on its prefix, the counters end as
        `Scan` describes, and free memory is computed from them. */
    method InitLinux(meminfo: Option<seq<string>>)
      modifies this
      ensures meminfo.None? ==>
        physicalMemory == old(physicalMemory) && freeMemory == old(freeMemory)
      ensures meminfo.Some? ==>
        var c := Scan(meminfo.value, Initial(old(physicalMemory)));
        physicalMemory == c.physical && freeMemory == Free(c)
    {
      if meminfo.None? {
        return;
      }
      var lines := meminfo.value;
      var memFree: SizeT, buffers: SizeT, cached: SizeT := 0, 0, 0;
      var i := 0;
      while i < |lines|
        invariant 0 <= i <= |lines|
        invariant Counters(physicalMemory, memFree, buffers, cached)
                  == Scan(lines[..i], Initial(old(physicalMemory)))
      {
        var line := lines[i];
        if StartsWith(line, Text(MemTotal)) {
          physicalMemory := ScanSize(line[|Text(MemTotal)|..]).GetOr(physicalMemory);
          physicalMemory := Mul(physicalMemory, 1024);
        } else if StartsWith(line, Text(MemFree)) {
          memFree := ScanSize(line[|Text(MemFree)|..]).GetOr(memFree);
          memFree := Mul(memFree, 1024);
        } else if StartsWith(line, Text(Buffers)) {
          buffers := ScanSize(line[|Text(Buffers)|..]).GetOr(buffers);
          buffers := Mul(buffers, 1024);
        } else if StartsWith(line, Text(Cached)) {
          cached := ScanSize(line[|Text(Cached)|..]).GetOr(cached);
          cached := Mul(cached, 1024);
        }
        assert lines[..i + 1][..i] == lines[..i];
        i := i + 1;
      }
      assert lines[..i] == lines;
      freeMemory := Sub(Sub(Sub(physicalMemory, memFree), buffers), cached);
    }

    /** `Init` on macOS. A failed `sysctl` assigns nothing; a failed
        `host_statistics64` leaves `freeMemory` unassigned after the total
        has been stored. */
    method InitMac(memsize: Option<SizeT>, pageSize: SizeT, stats: Option<VmStatistics>)
      modifies this
      ensures memsize.None? ==>
        physicalMemory == old(physicalMemory) && freeMemory == old(freeMemory)
      ensures memsize.Some? ==> physicalMemory == memsize.value
      ensures memsize.Some? && stats.None? ==> freeMemory == old(freeMemory)
      ensures memsize.Some? && stats.Some? ==>
        freeMemory == MacFree(memsize.value, pageSize, stats.value)
    {
      if memsize.None? {
        return;
      }
      physicalMemory := memsize.value;
      if stats.None? {
        return;
      }
      var vm := stats.value;
      var activeMemory := Mul(vm.activeCount, pageSize);
      var inactiveMemory := Mul(vm.inactiveCount, pageSize);
      var wiredMemory := Mul(vm.wireCount, pageSize);
      freeMemory := Sub(physicalMemory, Add(Add(activeMemory, inactiveMemory), wiredMemory));
    }
  }
}
