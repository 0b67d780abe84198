/**
 * The global state of smp.c and the routines that update it in place:
 * the table cpu_num_to_apic_id, the counters num_cpus, found_cpus and
 * act_cpus, the local APIC base and the ordinal table num_to_ord. Each
 * routine is proved against the function on registries that specifies it.
 */
module Smp {
  import opened Wrappers
  import opened Memory
  import opened Layout
  import opened Registry
  import opened Topology
  import opened Scan
  import opened MpTable
  import opened Madt
  import opened Discovery

  class SmpState {
    /** Ordinal to local APIC id; ordinal 0 is the boot processor. */
    const cpuNumToApicId: array<int>
    /** Ordinals preserved across relocation, indexed by processor number. */
    const numToOrd: array<int>
    var numCpus: int
    var foundCpus: int
    var actCpus: int
    /** The local APIC base address taken from the last table parsed. */
    var apic: int

    ghost predicate Valid()
      reads this
    {
      && cpuNumToApicId.Length == MAX_CPUS
      && numToOrd.Length == MAX_CPUS
      && cpuNumToApicId != numToOrd
      && 1 <= numCpus <= MAX_CPUS
      && foundCpus >= 0
    }

    /** The discovery registry the globals hold. */
    ghost function State(): Registry
      reads this, cpuNumToApicId
    {
      Registry(cpuNumToApicId[..], numCpus, foundCpus, apic)
    }

    /** The globals at load time: one processor, every table entry 0. */
    constructor ()
      ensures Valid() && State() == Initial() && actCpus == 0
      ensures forall k :: 0 <= k < MAX_CPUS ==> numToOrd[k] == 0
    {
      cpuNumToApicId := new int[MAX_CPUS](_ => 0);
      numToOrd := new int[MAX_CPUS](_ => 0);
      numCpus := 1;
      foundCpus := 0;
      actCpus := 0;
      apic := 0;
    }

    /** The registry update of one MP processor entry. */
    method RecordProcessor(id: byte, flag: byte)
      requires Valid()
      modifies this, cpuNumToApicId
      ensures Valid() && actCpus == old(actCpus)
      ensures State() == AddProcessor(old(State()), id, flag)
    {
      if IsBoot(flag) {
        cpuNumToApicId[0] := id;
      } else if numCpus < MAX_CPUS {
        cpuNumToApicId[numCpus] := id;
        numCpus := numCpus + 1;
      }
      foundCpus := foundCpus + 1;
    }

    /**
     * read_mp_config_table(addr): the verdict and the new globals are
     * those of ReadMpTable on the globals before the call.
     */
    method ReadMpConfigTable(mem: Mem, addr: nat) returns (ok: bool)
      requires Valid()
      modifies this, cpuNumToApicId
      ensures Valid() && actCpus == old(actCpus)
      ensures (ok, State()) == ReadMpTable(mem, addr, old(State()))
    {
      if U32(mem, addr) != MPC_SIGNATURE {
        return false;
      }
      var len := U16(mem, addr + MPC_LENGTH);
      var sum := Checksum(mem, addr, len);
      if sum != 0 {
        return false;
      }
      apic := U32(mem, addr + MPC_LAPIC_ADDR);
      ok := WalkMpEntries(mem, addr + MPC_HEADER_SIZE, addr + len);
    }

    /** The entry loop of read_mp_config_table, from p while p < end. */
    method WalkMpEntries(mem: Mem, p0: nat, end: nat) returns (ok: bool)
      requires Valid()
      modifies this, cpuNumToApicId
      ensures Valid() && actCpus == old(actCpus)
      ensures (ok, State()) == MpApply(MpEntries(mem, p0, end), old(State()))
    {
      var p := p0;
      while p < end
        invariant Valid() && actCpus == old(actCpus)
        invariant MpApply(MpEntries(mem, p, end), State()) == MpApply(MpEntries(mem, p0, end), old(State()))
        decreases end - p
      {
        MpWalkStep(mem, p, end, State());
        var kind := ByteAt(mem, p);
        if kind == MP_PROCESSOR {
          var id := ByteAt(mem, p + MP_APIC_ID);
          var ver := ByteAt(mem, p + MP_APIC_VER);
          var flag := ByteAt(mem, p + MP_CPU_FLAG);
          RecordProcessor(id, flag);
          if !SupportedApicVersion(ver) {
            return false;
          }
          p := p + MP_PROCESSOR_SIZE;
        } else if kind == MP_BUS {
          p := p + MP_BUS_SIZE;
        } else if kind == MP_IOAPIC {
          p := p + MP_IOAPIC_SIZE;
        } else if kind == MP_INTSRC {
          // no break: falls into the local-interrupt case
          p := p + MP_INTSRC_SIZE + MP_LINTSRC_SIZE;
        } else if kind == MP_LINTSRC {
          p := p + MP_LINTSRC_SIZE;
        } else {
          return false;
        }
      }
      return true;
    }

    /**
     * The sibling search of parse_madt: whether a recorded ordinal below
     * num_cpus lies on the core of `id`, and whether the first such
     * ordinal holds exactly `id`.
     */
    method FindThread(id: int, bits: nat) returns (foundThread: bool, duplicate: bool)
      requires Valid()
      ensures var s := FirstSibling(cpuNumToApicId[..], 0, numCpus, id, bits);
        foundThread == s.Some? && duplicate == (s.Some? && cpuNumToApicId[s.value] == id)
    {
      var core := Masked(id, bits);
      var i := 0;
      while i < numCpus
        invariant 0 <= i <= numCpus
        invariant FirstSibling(cpuNumToApicId[..], i, numCpus, id, bits)
                  == FirstSibling(cpuNumToApicId[..], 0, numCpus, id, bits)
      {
        if Masked(cpuNumToApicId[i], bits) == core {
          return true, id == cpuNumToApicId[i];
        }
        i := i + 1;
      }
      return false, false;
    }

    /** The registry update of one MADT entry. */
    method RecordMadtEntry(e: MadtEntry, bits: nat)
      requires Valid()
      modifies this, cpuNumToApicId
      ensures Valid() && actCpus == old(actCpus)
      ensures State() == MadtStep(old(State()), e, bits)
    {
      if IsEnabledProcessor(e) {
        var duplicate := false;
        if numCpus < MAX_CPUS {
          if foundCpus == 0 {
            cpuNumToApicId[0] := e.apicId;
          } else {
            var foundThread;
            foundThread, duplicate := FindThread(e.apicId, bits);
            if !foundThread {
              cpuNumToApicId[numCpus] := e.apicId;
              // the first processor is the boot processor: no new ordinal for it
              if foundCpus != 0 {
                numCpus := numCpus + 1;
              }
            }
          }
        }
        if !duplicate {
          foundCpus := foundCpus + 1;
        }
      }
    }

    /**
     * One pass of the entry loop of parse_madt at p: the entry is
     * applied; the walk is stuck there when its length is 0, and goes on
     * at next otherwise.
     */
    method MadtWalkEntry(mem: Mem, p: nat, end: nat, bits: nat) returns (stuck: bool, next: nat)
      requires Valid() && p < end
      modifies this, cpuNumToApicId
      ensures Valid() && actCpus == old(actCpus)
      ensures var w := MadtEntries(mem, p, end);
        stuck ==> w.stuck && State() == MadtApply(w.entries, bits, old(State()))
      ensures var w := MadtEntries(mem, p, end);
        var w' := MadtEntries(mem, next, end);
        !stuck ==> p < next && w.stuck == w'.stuck
                   && MadtApply(w.entries, bits, old(State())) == MadtApply(w'.entries, bits, State())
    {
      MadtWalkStep(mem, p, end, bits, State());
      var e := MadtEntryAt(mem, p);
      RecordMadtEntry(e, bits);
      stuck := e.length == 0;
      next := p + e.length;
    }

    /**
     * The entry loop of parse_madt, from p while p < end. An entry of
     * length 0 would be visited forever; the loop reports that instead.
     */
    method WalkMadtEntries(mem: Mem, p0: nat, end: nat, bits: nat) returns (stuck: bool)
      requires Valid()
      modifies this, cpuNumToApicId
      ensures Valid() && actCpus == old(actCpus)
      ensures var w := MadtEntries(mem, p0, end);
        stuck == w.stuck && State() == MadtApply(w.entries, bits, old(State()))
    {
      var p := p0;
      ghost var w0 := MadtEntries(mem, p0, end);
      ghost var r0 := State();
      while p < end
        invariant Valid() && actCpus == old(actCpus)
        invariant MadtEntries(mem, p, end).stuck == w0.stuck
        invariant MadtApply(MadtEntries(mem, p, end).entries, bits, State()) == MadtApply(w0.entries, bits, r0)
        decreases end - p
      {
        var next;
        stuck, next := MadtWalkEntry(mem, p, end, bits);
        if stuck {
          return;
        }
        p := next;
      }
      return false;
    }

    /**
     * parse_madt(addr): the outcome and the new globals are those of
     * ParseMadt on the globals before the call, logical_CPU_bits being
     * derived from the CPUID data c.
     */
    method ParseMadt(mem: Mem, addr: nat, c: CpuId) returns (outcome: MadtOutcome)
      requires Valid()
      modifies this, cpuNumToApicId
      ensures Valid() && actCpus == old(actCpus)
      ensures (outcome, State()) == Madt.ParseMadt(mem, addr, c, old(State()))
    {
      var len := U16(mem, addr + MPC_LENGTH);
      var sum := Checksum(mem, addr, len);
      if sum != 0 {
        return Rejected;
      }
      var bits := LogicalCpuBits(c);
      apic := U32(mem, addr + MPC_LAPIC_ADDR);
      var stuck := WalkMadtEntries(mem, addr + MPC_HEADER_SIZE, addr + len, bits);
      outcome := if stuck then Diverges else Parsed;
    }

    /**
     * The ACPI table walk of smp_find_cpus: the 32-bit words from p while
     * p < end, every 4 bytes; a non-null word pointing at a MADT signature
     * is parsed, and the first MADT not rejected ends the walk.
     */
    method SearchMadt(mem: Mem, p0: nat, end: nat, c: CpuId) returns (outcome: MadtOutcome)
      requires Valid()
      modifies this, cpuNumToApicId
      ensures Valid() && actCpus == old(actCpus)
      ensures (outcome, State()) == MadtSearch(mem, p0, end, c, old(State()))
    {
      var p := p0;
      while p < end
        invariant Valid() && actCpus == old(actCpus) && State() == old(State())
        invariant MadtSearch(mem, p, end, c, State()) == MadtSearch(mem, p0, end, c, old(State()))
        decreases end - p
      {
        var ptr := U32(mem, p);
        if ptr != 0 && U32(mem, ptr) == MADT_SIGNATURE {
          outcome := ParseMadt(mem, ptr, c);
          if outcome != Rejected {
            return;
          }
        }
        p := p + SDT_POINTER_STRIDE;
      }
      return Rejected;
    }

    /**
     * initialise_cpus with the command-line limit maxcpus and the
     * processor selection cpuMask: the discovery outcome, the count given
     * to barrier_init, and the ordinals handed to smp_boot_ap, in order.
     * When discovery hangs nothing after it runs.
     */
    method InitialiseCpus(mem: Mem, c: CpuId, maxcpus: int, cpuMask: seq<bool>)
      returns (hangs: bool, barrierCount: int, booted: seq<nat>)
      requires Valid() && |cpuMask| == MAX_CPUS
      modifies this, cpuNumToApicId
      ensures Valid()
      ensures maxcpus > 1 ==>
        var (h, r) := Discovery.FindCpus(mem, c, old(State()));
        && hangs == h
        && (h ==> State() == r && booted == [])
        && (!h ==> && State() == r.(numCpus := Min(r.numCpus, maxcpus))
                   && actCpus == |Selected(cpuMask, 0, numCpus)|
                   && barrierCount == actCpus
                   && booted == Selected(cpuMask, 1, numCpus))
      ensures maxcpus <= 1 ==>
        && !hangs
        && State() == old(State()).(numCpus := 1, foundCpus := 1)
        && actCpus == 1 && barrierCount == 1 && booted == []
    {
      actCpus := 0;
      booted := [];
      if maxcpus > 1 {
        hangs := FindCpus(mem, c);
        if hangs {
          return hangs, 0, [];
        }
        // the total number of processors may be limited
        if numCpus > maxcpus {
          numCpus := maxcpus;
        }
        CountSelected(cpuMask);
      } else {
        hangs := false;
        actCpus := 1;
        foundCpus := 1;
        numCpus := 1;
      }
      barrierCount := actCpus;
      booted := BootSelected(cpuMask);
    }

    /** The counting loop of initialise_cpus: act_cpus becomes the number of selected ordinals. */
    method CountSelected(cpuMask: seq<bool>)
      requires Valid() && |cpuMask| == MAX_CPUS
      modifies this
      ensures Valid() && State() == old(State())
      ensures actCpus == |Selected(cpuMask, 0, numCpus)|
    {
      actCpus := 0;
      var i := 0;
      while i < numCpus
        invariant Valid() && State() == old(State())
        invariant 0 <= i <= numCpus
        invariant actCpus == |Selected(cpuMask, 0, i)|
      {
        if cpuMask[i] {
          actCpus := actCpus + 1;
        }
        i := i + 1;
      }
    }

    /**
     * The start-up loop of initialise_cpus: the ordinals from 1 below
     * num_cpus that the mask selects, in the order smp_boot_ap is called
     * on them.
     */
    method BootSelected(cpuMask: seq<bool>) returns (booted: seq<nat>)
      requires Valid() && |cpuMask| == MAX_CPUS
      ensures booted == Selected(cpuMask, 1, numCpus)
    {
      booted := [];
      var i := 1;
      while i < numCpus
        invariant 1 <= i <= numCpus
        invariant booted == Selected(cpuMask, 1, i)
      {
        // only the processors the mask selects are started
        if cpuMask[i] {
          booted := booted + [i];
        }
        i := i + 1;
      }
    }

    /**
     * smp_my_cpu_num for the processor whose local APIC id is apicId (the
     * value my_apic_id reads from the APIC): the first ordinal below
     * MAX_CPUS recording that id, or 0.
     */
    method MyCpuNum(apicId: int) returns (n: nat)
      requires Valid()
      ensures n == CpuNum(cpuNumToApicId[..], apicId)
    {
      var i := 0;
      while i < MAX_CPUS
        invariant 0 <= i <= MAX_CPUS
        invariant forall j :: 0 <= j < i ==> cpuNumToApicId[j] != apicId
      {
        if apicId == cpuNumToApicId[i] {
          break;
        }
        i := i + 1;
      }
      if i == MAX_CPUS {
        i := 0;
      }
      return i;
    }

    /** smp_set_ordinal: entry me of num_to_ord becomes ord and no other entry changes. */
    method SetOrdinal(me: nat, ord: int)
      requires Valid() && me < MAX_CPUS
      modifies numToOrd
      ensures numToOrd[..] == old(numToOrd[..])[me := ord]
    {
      numToOrd[me] := ord;
    }

    /** smp_my_ord_num: the ordinal recorded for processor me. */
    method MyOrdNum(me: nat) returns (ord: int)
      requires Valid() && me < MAX_CPUS
      ensures ord == numToOrd[..][me]
    {
      return numToOrd[me];
    }

    /** smp_ord_to_cpu: the first processor whose recorded ordinal is ord, or -1. */
    method OrdToCpu(ord: int) returns (cpu: int)
      requires Valid()
      ensures cpu == IndexOf(numToOrd[..], ord, 0)
    {
      var i := 0;
      while i < MAX_CPUS
        invariant 0 <= i <= MAX_CPUS
        invariant forall j :: 0 <= j < i ==> numToOrd[j] != ord
      {
        if numToOrd[i] == ord {
          return i;
        }
        i := i + 1;
      }
      return -1;
    }

    /** The ACPI half of smp_find_cpus. */
    method FindCpusAcpi(mem: Mem, c: CpuId) returns (outcome: MadtOutcome)
      requires Valid()
      modifies this, cpuNumToApicId
      ensures Valid() && actCpus == old(actCpus)
      ensures (outcome, State()) == AcpiDiscovery(mem, c, old(State()))
    {
      var rp := FindRsdp(mem);
      if rp.None? {
        return Rejected;
      }
      var rt := FindRootTable(mem, rp.value);
      if rt.None? {
        return Rejected;
      }
      var table := rt.value;
      outcome := SearchMadt(mem, table + SDT_HEADER_SIZE, table + U32(mem, table + SDT_LENGTH), c);
    }

    /** The MP half of smp_find_cpus, run when no MADT was parsed. */
    method FindCpusMp(mem: Mem)
      requires Valid()
      modifies this, cpuNumToApicId
      ensures Valid() && actCpus == old(actCpus)
      ensures State() == MpDiscovery(mem, old(State()))
    {
      var fp := FindFloatingPtr(mem);
      if fp.None? {
        return;
      }
      var feature := ByteAt(mem, fp.value + FP_FEATURE0);
      if feature > 0 && feature <= 7 {
        // a default configuration
        numCpus := 2;
        apic := DEFAULT_APIC_BASE;
        cpuNumToApicId[0] := 0;
        cpuNumToApicId[1] := 1;
        return;
      }
      var physAddr := U32(mem, fp.value + FP_PHYS_ADDR);
      if physAddr != 0 {
        var good := ReadMpConfigTable(mem, physAddr);
        // returning early when num_cpus > 1 and falling off the end are the same
      }
    }

    /**
     * smp_find_cpus: whether it hangs on a zero-length MADT entry, and the
     * new globals, are those of FindCpus on the globals before the call.
     */
    method FindCpus(mem: Mem, c: CpuId) returns (hangs: bool)
      requires Valid()
      modifies this, cpuNumToApicId
      ensures Valid() && actCpus == old(actCpus)
      ensures (hangs, State()) == Discovery.FindCpus(mem, c, old(State()))
    {
      var outcome := FindCpusAcpi(mem, c);
      if outcome == Parsed {
        return false;
      } else if outcome == Diverges {
        return true;
      }
      FindCpusMp(mem);
      return false;
    }
  }

  /** The ordinals in [lo, hi) the mask selects, in increasing order. */
  function Selected(mask: seq<bool>, lo: nat, hi: nat): (s: seq<nat>)
    requires hi <= |mask|
    ensures forall x :: x in s <==> lo <= x < hi && mask[x]
    ensures forall i, j :: 0 <= i < j < |s| ==> s[i] < s[j]
    decreases hi
  {
    if hi <= lo then []
    else
      var s := Selected(mask, lo, hi - 1);
      if mask[hi - 1] then
        assert forall i :: 0 <= i < |s| ==> s[i] in s;
        s + [hi - 1]
      else s
  }

  /**
   * Of the processors act_cpus counts, all but ordinal 0 are started: the
   * barrier count is the number of started processors, plus one when
   * the boot processor is itself selected.
   */
  lemma {:induction false} ActiveAreBootedAndBoot(mask: seq<bool>, n: nat)
    requires 1 <= n <= |mask|
    ensures |Selected(mask, 0, n)| == |Selected(mask, 1, n)| + (if mask[0] then 1 else 0)
  {
    if n > 1 {
      ActiveAreBootedAndBoot(mask, n - 1);
    }
  }

  /**
   * After discovery from the initial globals through a MADT, every
   * recorded ordinal is what smp_my_cpu_num answers for its own APIC id.
   */
  lemma AcpiCpuNumbers(mem: Mem, c: CpuId, k: nat)
    requires AcpiDiscovery(mem, c, Initial()).0 == Parsed
    requires k < FindCpus(mem, c, Initial()).1.numCpus
    ensures var r := FindCpus(mem, c, Initial()).1; CpuNum(r.ids, r.ids[k]) == k
  {
    var r := FindCpus(mem, c, Initial()).1;
    AcpiDiscoveryCoresDistinct(mem, c);
    CpuNumInverts(r.ids, r.numCpus, k);
  }

  /** The root pointer search of smp_find_cpus: the BIOS area, then the EBDA's first kilobyte. */
  method FindRsdp(mem: Mem) returns (rp: Option<nat>)
    ensures rp == RsdpSearch(mem)
  {
    rp := ScanForRsdp(mem, 0xE_0000, 0x2_0000);
    if rp.None? {
      var address := U16(mem, EBDA_SEGMENT_WORD) * 16;
      if address != 0 {
        rp := ScanForRsdp(mem, address, 0x400);
      }
    }
  }

  /**
   * The root table check of smp_find_cpus: the XSDT from revision 2 on,
   * the RSDT before; it must be non-null, carry its signature and pass
   * its checksum.
   */
  method FindRootTable(mem: Mem, rp: nat) returns (rt: Option<nat>)
    ensures rt == RootTable(mem, rp)
  {
    var table: nat;
    var signature: int;
    if ByteAt(mem, rp + RSDP_REVISION) >= 2 {
      table := U32(mem, rp + RSDP_XSDT);
      signature := XSDT_SIGNATURE;
    } else {
      table := U32(mem, rp + RSDP_RSDT);
      signature := RSDT_SIGNATURE;
    }
    if table == 0 || U32(mem, table) != signature {
      return None;
    }
    var sum := Checksum(mem, table, U32(mem, table + SDT_LENGTH));
    if sum != 0 {
      return None;
    }
    return Some(table);
  }

  /** The floating pointer search of smp_find_cpus, window by window. */
  method FindFloatingPtr(mem: Mem) returns (fp: Option<nat>)
    ensures fp == FpSearch(mem)
  {
    fp := ScanForFloatingPtrStruct(mem, 0, 0x400);
    if fp.Some? {
      return;
    }
    fp := ScanForFloatingPtrStruct(mem, 639 * 0x400, 0x400);
    if fp.Some? {
      return;
    }
    fp := ScanForFloatingPtrStruct(mem, 0xF_0000, 0x1_0000);
    if fp.Some? {
      return;
    }
    // the EBDA, if the BIOS data area names one
    var address := U16(mem, EBDA_SEGMENT_WORD) * 16;
    if address != 0 {
      fp := ScanForFloatingPtrStruct(mem, address, 0x400);
    }
  }
}
