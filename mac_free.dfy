/** The macOS branch of `MemInfo::Init` as arithmetic: free memory is the
    total less the active, inactive and wired pages, all in `size_t`. The
    kernel calls (`sysctl`, `host_page_size`, `host_statistics64`) are not
    modelled; what they report arrives as parameters. */
module MacMemory {
  import opened Unsigned

  /** The three page counts read from `vm_statistics64_data_t` (`natural_t`
      is 32 bits wide). */
  datatype VmStatistics = VmStatistics(activeCount: UInt32, inactiveCount: UInt32, wireCount: UInt32)

  /** The pages in use, counted exactly. */
  function UsedPages(stats: VmStatistics): nat {
    stats.activeCount + stats.inactiveCount + stats.wireCount
  }

  /** `physical_memory - (active_memory + inactive_memory + wired_memory)`,
      each page count widened to `size_t` and multiplied by the page size:
      the exact "total minus used bytes" reduced modulo 2^64 once. */
  function MacFree(physical: SizeT, pageSize: SizeT, stats: VmStatistics): (r: SizeT)
    ensures r == Wrap(physical - UsedPages(stats) * pageSize)
  {
    UsedBytesWrap(physical, pageSize, stats);
    var active := Mul(stats.activeCount, pageSize);
    var inactive := Mul(stats.inactiveCount, pageSize);
    var wired := Mul(stats.wireCount, pageSize);
    Sub(physical, Add(Add(active, inactive), wired))
  }

  /** The three wrapped page products, summed and subtracted in `size_t`,
      give the exact difference wrapped once. */
  lemma UsedBytesWrap(physical: SizeT, pageSize: SizeT, stats: VmStatistics)
    ensures Sub(physical, Add(Add(Mul(stats.activeCount, pageSize), Mul(stats.inactiveCount, pageSize)),
                              Mul(stats.wireCount, pageSize)))
            == Wrap(physical - UsedPages(stats) * pageSize)
  {
    var a := stats.activeCount * pageSize;
    var i := stats.inactiveCount * pageSize;
    var w := stats.wireCount * pageSize;
    assert UsedPages(stats) * pageSize == a + i + w by {
      Distribute3(stats.activeCount, stats.inactiveCount, stats.wireCount, pageSize);
    }
    WrapSum3(a, i, w);
    WrapSubRight(physical, a + i + w);
  }

  /** When the used bytes fit in the total, free memory is exactly the
      remainder and never exceeds the total. */
  lemma MacFreeIsWrappedDifference(physical: SizeT, pageSize: SizeT, stats: VmStatistics)
    ensures UsedPages(stats) * pageSize <= physical ==>
              MacFree(physical, pageSize, stats) == physical - UsedPages(stats) * pageSize <= physical
  {
    var used := UsedPages(stats) * pageSize;
    if used <= physical {
      var d := physical - used;
      assert 0 <= d <= physical < WORD;
      assert MacFree(physical, pageSize, stats) == Wrap(d);
    }
  }

  /** Adding three wrapped products in `size_t` wraps their exact sum. */
  lemma WrapSum3(a: nat, b: nat, c: nat)
    ensures Add(Add(Wrap(a), Wrap(b)), Wrap(c)) == Wrap(a + b + c)
  {
    AddOfWraps(a, b);
    AddOfWraps(a + b, c);
  }

  /** Multiplication distributes over a sum of three. */
  lemma Distribute3(x: int, y: int, z: int, k: int)
    ensures (x + y + z) * k == x * k + y * k + z * k
  {
  }

  /** Reducing the subtrahend first does not change the wrapped difference. */
  lemma WrapSubRight(x: int, y: int)
    ensures Wrap(x - Wrap(y)) == Wrap(x - y)
  {
    var q := y / WORD;
    assert x - Wrap(y) == (x - y) + q * WORD;
    WrapShift(x - y, q);
  }
}
