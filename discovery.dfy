/**
 * smp_find_cpus as a function of memory, the CPUID data and the registry
 * before the call. The ACPI tables are tried first: the root pointer,
 * the root table its revision selects, and the first MADT named by that
 * table that passes its checksum. Only when no MADT is parsed is the MP
 * floating pointer searched for: a default configuration gives two
 * processors, otherwise the MP configuration table is parsed.
 */
module Discovery {
  import opened Wrappers
  import opened Memory
  import opened Layout
  import opened Registry
  import opened Topology
  import opened Scan
  import opened MpTable
  import opened Madt

  /** The EBDA: the real-mode segment stored at 0x40E, as a physical address (0 when absent). */
  function EbdaAddress(mem: Mem): nat {
    U16(mem, EBDA_SEGMENT_WORD) * 16
  }

  /** The root pointer: the first in 0xE0000..0xFFFFF, else the first in the EBDA's first kilobyte. */
  function RsdpSearch(mem: Mem): Option<nat> {
    var rp := RsdpScan(mem, 0xE_0000, 0xE_0000 + 0x2_0000);
    if rp.Some? then rp
    else if EbdaAddress(mem) != 0 then RsdpScan(mem, EbdaAddress(mem), EbdaAddress(mem) + 0x400)
    else None
  }

  /**
   * The XSDT (revision 2 or later, through the low 32 bits of its
   * address) or the RSDT (older revisions); present when the pointer is
   * non-null and the table has the right signature and a valid checksum.
   */
  function RootTable(mem: Mem, rp: nat): (rt: Option<nat>)
    ensures rt.Some? ==> rt.value != 0 && ChecksumOk(mem, rt.value, U32(mem, rt.value + SDT_LENGTH))
  {
    var xsdt := ByteAt(mem, rp + RSDP_REVISION) >= 2;
    var rt := if xsdt then U32(mem, rp + RSDP_XSDT) else U32(mem, rp + RSDP_RSDT);
    var sig := if xsdt then XSDT_SIGNATURE else RSDT_SIGNATURE;
    if rt == 0 || U32(mem, rt) != sig || !ChecksumOk(mem, rt, U32(mem, rt + SDT_LENGTH)) then None
    else Some(rt)
  }

  /** A non-null table pointer whose target carries the MADT signature. */
  predicate PointsToMadt(mem: Mem, ptr: nat) {
    ptr != 0 && U32(mem, ptr) == MADT_SIGNATURE
  }

  /**
   * The root table's pointer array, read as 32-bit words every 4 bytes
   * from p while p < end: the first MADT that is not rejected ends the
   * search; if none, the registry is untouched.
   */
  function MadtSearch(mem: Mem, p: nat, end: nat, c: CpuId, r: Registry): (res: (MadtOutcome, Registry))
    requires Wf(r)
    ensures Wf(res.1)
    ensures res.0 == Rejected ==> res.1 == r
    decreases end - p
  {
    if p >= end then (Rejected, r)
    else
      var ptr := U32(mem, p);
      if PointsToMadt(mem, ptr) then
        var (out, r') := ParseMadt(mem, ptr, c, r);
        if out == Rejected then MadtSearch(mem, p + SDT_POINTER_STRIDE, end, c, r) else (out, r')
      else MadtSearch(mem, p + SDT_POINTER_STRIDE, end, c, r)
  }

  /** The ACPI half of smp_find_cpus. */
  function AcpiDiscovery(mem: Mem, c: CpuId, r: Registry): (res: (MadtOutcome, Registry))
    requires Wf(r)
    ensures Wf(res.1)
    ensures res.0 == Rejected ==> res.1 == r
  {
    match RsdpSearch(mem)
    case None => (Rejected, r)
    case Some(rp) =>
      match RootTable(mem, rp)
      case None => (Rejected, r)
      case Some(rt) => MadtSearch(mem, rt + SDT_HEADER_SIZE, rt + U32(mem, rt + SDT_LENGTH), c, r)
  }

  /**
   * The floating pointer: the first found in the first kilobyte, the
   * last kilobyte below 640 KiB, the BIOS ROM 0xF0000..0xFFFFF, then the
   * EBDA's first kilobyte.
   */
  function FpSearch(mem: Mem): Option<nat> {
    var a := FpScan(mem, 0, 0x400);
    if a.Some? then a
    else
      var b := FpScan(mem, 639 * 0x400, 640 * 0x400);
      if b.Some? then b
      else
        var d := FpScan(mem, 0xF_0000, 0x10_0000);
        if d.Some? then d
        else if EbdaAddress(mem) != 0 then FpScan(mem, EbdaAddress(mem), EbdaAddress(mem) + 0x400)
        else None
  }

  /** A default configuration (MP specification, chapter 5): two processors with APIC ids 0 and 1. */
  function DefaultConfig(r: Registry): (r': Registry)
    requires Wf(r)
    ensures Wf(r')
  {
    r.(numCpus := 2, apic := DEFAULT_APIC_BASE, ids := r.ids[0 := 0][1 := 1])
  }

  /** The MP half of smp_find_cpus. */
  function MpDiscovery(mem: Mem, r: Registry): (r': Registry)
    requires Wf(r)
    ensures Wf(r')
  {
    match FpSearch(mem)
    case None => r
    case Some(fp) =>
      var feature := ByteAt(mem, fp + FP_FEATURE0);
      if 0 < feature <= 7 then DefaultConfig(r)
      else if U32(mem, fp + FP_PHYS_ADDR) != 0 then ReadMpTable(mem, U32(mem, fp + FP_PHYS_ADDR), r).1
      else r
  }

  /** smp_find_cpus: whether it hangs on a zero-length MADT entry, and the registry afterwards. */
  function FindCpus(mem: Mem, c: CpuId, r: Registry): (res: (bool, Registry))
    requires Wf(r)
    ensures Wf(res.1)
  {
    var (acpi, r1) := AcpiDiscovery(mem, c, r);
    if acpi == Parsed then (false, r1)
    else if acpi == Diverges then (true, r1)
    else (false, MpDiscovery(mem, r))
  }

  // ----- Outcomes of discovery -----

  /** With neither a root pointer nor a floating pointer anywhere, the registry stays as it was. */
  lemma NothingFoundKeepsRegistry(mem: Mem, c: CpuId, r: Registry)
    requires Wf(r) && RsdpSearch(mem).None? && FpSearch(mem).None?
    ensures FindCpus(mem, c, r) == (false, r)
  {
  }

  /**
   * When no MADT is parsed and the floating pointer announces a default
   * configuration, discovery gives exactly two ordinals, APIC ids 0 and 1,
   * whatever configuration table is also present.
   */
  lemma DefaultConfigGivesTwoCpus(mem: Mem, c: CpuId, r: Registry, fp: nat)
    requires Wf(r) && AcpiDiscovery(mem, c, r).0 == Rejected
    requires FpSearch(mem) == Some(fp) && 0 < ByteAt(mem, fp + FP_FEATURE0) <= 7
    ensures var (hangs, r') := FindCpus(mem, c, r);
      !hangs && r'.numCpus == 2 && r'.ids[0] == 0 && r'.ids[1] == 1 && r'.foundCpus == r.foundCpus
  {
    assert MpDiscovery(mem, r) == DefaultConfig(r);
  }

  /**
   * A parsed MADT ends discovery: the result is the ACPI result alone,
   * whatever MP structures memory holds.
   */
  lemma AcpiComesFirst(mem: Mem, c: CpuId, r: Registry)
    requires Wf(r)
    ensures AcpiDiscovery(mem, c, r).0 == Parsed ==> FindCpus(mem, c, r) == (false, AcpiDiscovery(mem, c, r).1)
  {
  }

  /** The ordinals found through the ACPI tables lie on pairwise different cores. */
  lemma {:induction false} MadtSearchKeepsCoresDistinct(mem: Mem, p: nat, end: nat, c: CpuId, r: Registry)
    requires Wf(r) && FreshStart(r) && CoresDistinct(r, LogicalBits(c))
    ensures CoresDistinct(MadtSearch(mem, p, end, c, r).1, LogicalBits(c))
    decreases end - p
  {
    if p < end {
      var ptr := U32(mem, p);
      if PointsToMadt(mem, ptr) {
        var len := U16(mem, ptr + MPC_LENGTH);
        if ChecksumOk(mem, ptr, len) {
          var w := MadtEntries(mem, ptr + MPC_HEADER_SIZE, ptr + len);
          MadtApplyKeepsCoresDistinct(w.entries, LogicalBits(c), r.(apic := U32(mem, ptr + MPC_LAPIC_ADDR)));
        }
      }
      MadtSearchKeepsCoresDistinct(mem, p + SDT_POINTER_STRIDE, end, c, r);
    }
  }

  /** From the initial registry, discovery through a MADT records each core at most once. */
  lemma AcpiDiscoveryCoresDistinct(mem: Mem, c: CpuId)
    requires AcpiDiscovery(mem, c, Initial()).0 == Parsed
    ensures CoresDistinct(FindCpus(mem, c, Initial()).1, LogicalBits(c))
  {
    match RsdpSearch(mem)
    case Some(rp) =>
      match RootTable(mem, rp)
      case Some(rt) =>
        MadtSearchKeepsCoresDistinct(mem, rt + SDT_HEADER_SIZE, rt + U32(mem, rt + SDT_LENGTH), c, Initial());
  }

  // ----- The XSDT pointer stride -----

  /** The search as ACPI lays the XSDT out: 64-bit entries, of which the low 32 bits are used. */
  function MadtSearch64(mem: Mem, p: nat, end: nat, c: CpuId, r: Registry): (res: (MadtOutcome, Registry))
    requires Wf(r)
    decreases end - p
  {
    if p >= end then (Rejected, r)
    else
      var ptr := U32(mem, p);
      if PointsToMadt(mem, ptr) then
        var (out, r') := ParseMadt(mem, ptr, c, r);
        if out == Rejected then MadtSearch64(mem, p + 8, end, c, r) else (out, r')
      else MadtSearch64(mem, p + 8, end, c, r)
  }

  /**
   * Walking an XSDT by 4 bytes, as the code does, reads each high half of
   * a 64-bit entry as a pointer of its own; when every high half is 0
   * (all tables below 4 GiB) those reads are skipped as null, and the
   * search finds what the 8-byte walk finds.
   */
  lemma {:induction false} FourByteWalkMatchesXsdt(mem: Mem, p: nat, end: nat, c: CpuId, r: Registry)
    requires Wf(r)
    requires forall q :: p <= q < end && (q - p) % 8 == 4 ==> U32(mem, q) == 0
    ensures MadtSearch(mem, p, end, c, r) == MadtSearch64(mem, p, end, c, r)
    decreases end - p
  {
    if p < end {
      if p + 4 < end {
        assert U32(mem, p + 4) == 0;
        assert MadtSearch(mem, p + 4, end, c, r) == MadtSearch(mem, p + 8, end, c, r);
        FourByteWalkMatchesXsdt(mem, p + 8, end, c, r);
      }
    }
  }
}
