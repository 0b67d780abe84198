/**
 * The MP configuration table (MultiProcessor Specification 1.4, sections
 * 4.2 and 4.3) as read_mp_config_table walks it: a header, then entries
 * tagged by their first byte, each skipped by a fixed size. Parsing is
 * split into decoding the entries the walk visits and applying them, in
 * order, to the registry.
 */
module MpTable {
  import opened Memory
  import opened Layout
  import opened Registry

  datatype MpEntry =
    | MpProcessorEntry(apicId: byte, apicVer: byte, cpuFlag: byte)
    | MpBusEntry
    | MpIoApicEntry
    | MpIntSrcEntry
    | MpLintSrcEntry
    | MpUnknownEntry(kind: byte)

  function MpEntryAt(mem: Mem, p: nat): MpEntry {
    var t := ByteAt(mem, p);
    if t == MP_PROCESSOR then
      MpProcessorEntry(ByteAt(mem, p + MP_APIC_ID), ByteAt(mem, p + MP_APIC_VER), ByteAt(mem, p + MP_CPU_FLAG))
    else if t == MP_BUS then MpBusEntry
    else if t == MP_IOAPIC then MpIoApicEntry
    else if t == MP_INTSRC then MpIntSrcEntry
    else if t == MP_LINTSRC then MpLintSrcEntry
    else MpUnknownEntry(t)
  }

  /**
   * How far the parser moves past an entry. The interrupt-source case has
   * no break and falls into the local-interrupt case, so it moves by both
   * sizes.
   */
  function Advance(e: MpEntry): nat {
    match e
    case MpProcessorEntry(_, _, _) => MP_PROCESSOR_SIZE
    case MpBusEntry => MP_BUS_SIZE
    case MpIoApicEntry => MP_IOAPIC_SIZE
    case MpIntSrcEntry => MP_INTSRC_SIZE + MP_LINTSRC_SIZE
    case MpLintSrcEntry => MP_LINTSRC_SIZE
    case MpUnknownEntry(_) => 0
  }

  /** The entries the walk visits from p while p < end; an unknown type is the last one. */
  function MpEntries(mem: Mem, p: nat, end: nat): seq<MpEntry>
    decreases end - p
  {
    if p >= end then []
    else
      var e := MpEntryAt(mem, p);
      if e.MpUnknownEntry? then [e] else [e] + MpEntries(mem, p + Advance(e), end)
  }

  /** cpu_flag & CPU_BOOTPROCESSOR (bit 1 of the flags byte). */
  predicate IsBoot(flag: byte) {
    (flag / 2) % 2 == 1
  }

  /** (apic_ver & 0xf0) == 0x10: an integrated local APIC. */
  predicate SupportedApicVersion(ver: byte) {
    ver / 16 == 1
  }

  /**
   * One processor entry: the boot processor's id overwrites slot 0, any
   * other id is appended while there is room, and every entry is counted.
   */
  function AddProcessor(r: Registry, id: int, flag: byte): (r': Registry)
    requires Wf(r)
    ensures Wf(r')
  {
    var r1 :=
      if IsBoot(flag) then r.(ids := r.ids[0 := id])
      else if r.numCpus < MAX_CPUS then r.(ids := r.ids[r.numCpus := id], numCpus := r.numCpus + 1)
      else r;
    r1.(foundCpus := r1.foundCpus + 1)
  }

  /**
   * Apply the visited entries in order. A processor entry updates the
   * registry before its APIC version is checked, so a bad version fails
   * the table after the update; an unknown entry fails it.
   */
  function MpApply(es: seq<MpEntry>, r: Registry): (res: (bool, Registry))
    requires Wf(r)
    ensures Wf(res.1)
    decreases |es|
  {
    if es == [] then (true, r)
    else
      match es[0]
      case MpProcessorEntry(id, ver, flag) =>
        var r1 := AddProcessor(r, id, flag);
        if !SupportedApicVersion(ver) then (false, r1) else MpApply(es[1..], r1)
      case MpUnknownEntry(_) => (false, r)
      case _ => MpApply(es[1..], r)
  }

  /** read_mp_config_table(addr): the verdict and the registry afterwards. */
  function ReadMpTable(mem: Mem, addr: nat, r: Registry): (res: (bool, Registry))
    requires Wf(r)
    ensures Wf(res.1)
  {
    if U32(mem, addr) != MPC_SIGNATURE then (false, r)
    else
      var len := U16(mem, addr + MPC_LENGTH);
      if !ChecksumOk(mem, addr, len) then (false, r)
      else MpApply(MpEntries(mem, addr + MPC_HEADER_SIZE, addr + len),
                   r.(apic := U32(mem, addr + MPC_LAPIC_ADDR)))
  }

  // ----- What a successful parse yields -----

  /** Every entry is of a known type and every processor has a supported APIC version. */
  predicate AllAccepted(es: seq<MpEntry>) {
    forall i :: 0 <= i < |es| ==>
      !es[i].MpUnknownEntry? && (es[i].MpProcessorEntry? ==> SupportedApicVersion(es[i].apicVer))
  }

  function ProcessorCount(es: seq<MpEntry>): nat {
    if es == [] then 0 else (if es[0].MpProcessorEntry? then 1 else 0) + ProcessorCount(es[1..])
  }

  function BootCount(es: seq<MpEntry>): nat {
    if es == [] then 0
    else (if es[0].MpProcessorEntry? && IsBoot(es[0].cpuFlag) then 1 else 0) + BootCount(es[1..])
  }

  /** The ids of the processor entries not flagged as boot processor, in table order. */
  function NonBootIds(es: seq<MpEntry>): seq<int> {
    if es == [] then []
    else (if es[0].MpProcessorEntry? && !IsBoot(es[0].cpuFlag) then [es[0].apicId as int] else [])
         + NonBootIds(es[1..])
  }

  /** The id of the last boot-flagged processor entry, or d if there is none. */
  function BootId(es: seq<MpEntry>, d: int): int {
    if es == [] then d
    else BootId(es[1..], if es[0].MpProcessorEntry? && IsBoot(es[0].cpuFlag) then es[0].apicId else d)
  }

  lemma {:induction false} CountsAddUp(es: seq<MpEntry>)
    ensures |NonBootIds(es)| + BootCount(es) == ProcessorCount(es)
  {
    if es != [] {
      CountsAddUp(es[1..]);
    }
  }

  /** A table is accepted exactly when all its entries are. */
  lemma {:induction false} MpApplyVerdict(es: seq<MpEntry>, r: Registry)
    requires Wf(r)
    ensures MpApply(es, r).0 <==> AllAccepted(es)
    decreases |es|
  {
    if es == [] {
      return;
    }
    var tail := es[1..];
    assert AllAccepted(es) <==> (!es[0].MpUnknownEntry?
                                 && (es[0].MpProcessorEntry? ==> SupportedApicVersion(es[0].apicVer))
                                 && AllAccepted(tail)) by {
      assert forall i :: 1 <= i < |es| ==> es[i] == tail[i - 1];
    }
    match es[0]
    case MpProcessorEntry(id, ver, flag) =>
      MpApplyVerdict(tail, AddProcessor(r, id, flag));
    case MpUnknownEntry(_) =>
    case _ =>
      MpApplyVerdict(tail, r);
  }

  /**
   * An accepted table counts every processor entry in found_cpus, adds
   * one ordinal per processor not flagged as boot processor while there
   * is room, and keeps the APIC base.
   */
  lemma {:induction false} MpApplyCounts(es: seq<MpEntry>, r: Registry)
    requires Wf(r)
    ensures var (ok, r') := MpApply(es, r);
      ok ==>
        && r'.foundCpus == r.foundCpus + ProcessorCount(es)
        && r'.numCpus == Min(MAX_CPUS, r.numCpus + |NonBootIds(es)|)
        && r'.apic == r.apic
    decreases |es|
  {
    if es != [] {
      match es[0]
      case MpProcessorEntry(id, ver, flag) =>
        MpApplyCounts(es[1..], AddProcessor(r, id, flag));
      case MpUnknownEntry(_) =>
      case _ =>
        MpApplyCounts(es[1..], r);
    }
  }

  /** An accepted table leaves the id of its last boot-flagged entry in slot 0. */
  lemma {:induction false} MpApplyBootSlot(es: seq<MpEntry>, r: Registry)
    requires Wf(r)
    ensures var (ok, r') := MpApply(es, r);
      ok ==> r'.ids[0] == BootId(es, r.ids[0])
    decreases |es|
  {
    if es != [] {
      match es[0]
      case MpProcessorEntry(id, ver, flag) =>
        MpApplyBootSlot(es[1..], AddProcessor(r, id, flag));
      case MpUnknownEntry(_) =>
      case _ =>
        MpApplyBootSlot(es[1..], r);
    }
  }

  /**
   * An accepted table keeps the ordinals 1.. that the registry had, and
   * leaves the slots beyond the new num_cpus untouched.
   */
  lemma {:induction false} MpApplyKeepsSlots(es: seq<MpEntry>, r: Registry)
    requires Wf(r)
    ensures var (ok, r') := MpApply(es, r);
      ok ==> r.numCpus <= r'.numCpus
             && (forall k :: 1 <= k < r.numCpus ==> r'.ids[k] == r.ids[k])
             && (forall k :: r'.numCpus <= k < MAX_CPUS ==> r'.ids[k] == r.ids[k])
    decreases |es|
  {
    if es != [] {
      match es[0]
      case MpProcessorEntry(id, ver, flag) =>
        MpApplyKeepsSlots(es[1..], AddProcessor(r, id, flag));
      case MpUnknownEntry(_) =>
      case _ =>
        MpApplyKeepsSlots(es[1..], r);
    }
  }

  /**
   * An accepted table appends the ids of the processors not flagged as
   * boot processor, in table order, after the ordinals the registry had.
   */
  lemma {:induction false} MpApplyAppends(es: seq<MpEntry>, r: Registry)
    requires Wf(r)
    ensures var (ok, r') := MpApply(es, r);
      ok ==> forall k :: 0 <= k < |NonBootIds(es)| && r.numCpus + k < r'.numCpus ==>
                           r'.ids[r.numCpus + k] == NonBootIds(es)[k]
    decreases |es|
  {
    if es != [] {
      match es[0]
      case MpProcessorEntry(id, ver, flag) =>
        var r1 := AddProcessor(r, id, flag);
        MpApplyKeepsSlots(es[1..], r1);
        MpApplyAppends(es[1..], r1);
      case MpUnknownEntry(_) =>
      case _ =>
        MpApplyAppends(es[1..], r);
    }
  }

  /**
   * A table of K processor entries, one of them boot-flagged, parsed into
   * a registry that holds only the boot processor: min(K, MAX_CPUS)
   * ordinals, the boot-flagged entry's id at ordinal 0.
   */
  lemma MpTableOrdinals(es: seq<MpEntry>, r: Registry)
    requires Wf(r) && r.numCpus == 1
    requires AllAccepted(es) && BootCount(es) == 1
    ensures MpApply(es, r).0
    ensures MpApply(es, r).1.numCpus == Min(ProcessorCount(es), MAX_CPUS)
    ensures MpApply(es, r).1.ids[0] == BootId(es, r.ids[0])
  {
    MpApplyVerdict(es, r);
    MpApplyCounts(es, r);
    MpApplyBootSlot(es, r);
    CountsAddUp(es);
  }

  /** A processor entry with an unsupported APIC version fails the table, yet it has already been recorded. */
  lemma BadApicVersionAfterUpdate(es: seq<MpEntry>, r: Registry)
    requires Wf(r) && es != [] && es[0].MpProcessorEntry? && !SupportedApicVersion(es[0].apicVer)
    ensures MpApply(es, r) == (false, AddProcessor(r, es[0].apicId, es[0].cpuFlag))
    ensures MpApply(es, r).1.foundCpus == r.foundCpus + 1
  {
  }

  /** The walk moves 16 bytes past an interrupt-source entry, so whatever starts 8 bytes after it is never read. */
  lemma IntSrcSkipsFollowingEntry(mem: Mem, p: nat, end: nat)
    requires p < end && ByteAt(mem, p) == MP_INTSRC
    ensures MpEntries(mem, p, end) == [MpIntSrcEntry] + MpEntries(mem, p + 16, end)
  {
  }

  /** One step of the walk: the entry at p is applied, then the walk goes on past it. */
  lemma MpWalkStep(mem: Mem, p: nat, end: nat, r: Registry)
    requires Wf(r) && p < end
    ensures var e := MpEntryAt(mem, p);
      e.MpProcessorEntry? ==>
        var r1 := AddProcessor(r, e.apicId, e.cpuFlag);
        MpApply(MpEntries(mem, p, end), r)
        == if SupportedApicVersion(e.apicVer) then MpApply(MpEntries(mem, p + MP_PROCESSOR_SIZE, end), r1)
           else (false, r1)
    ensures var e := MpEntryAt(mem, p);
      e.MpUnknownEntry? ==> MpApply(MpEntries(mem, p, end), r) == (false, r)
    ensures var e := MpEntryAt(mem, p);
      !e.MpProcessorEntry? && !e.MpUnknownEntry? ==>
        MpApply(MpEntries(mem, p, end), r) == MpApply(MpEntries(mem, p + Advance(e), end), r)
  {
    var e := MpEntryAt(mem, p);
    if !e.MpUnknownEntry? {
      var rest := MpEntries(mem, p + Advance(e), end);
      assert MpEntries(mem, p, end) == [e] + rest;
      assert ([e] + rest)[1..] == rest;
    }
  }

  /** A wrong signature or a bad checksum rejects the table and leaves the registry as it was. */
  lemma BadHeaderLeavesRegistry(mem: Mem, addr: nat, r: Registry)
    requires Wf(r)
    requires U32(mem, addr) != MPC_SIGNATURE || !ChecksumOk(mem, addr, U16(mem, addr + MPC_LENGTH))
    ensures ReadMpTable(mem, addr, r) == (false, r)
  {
  }

  /** Changing one of its four bytes changes a 32-bit word. */
  lemma U32ChangesWithByte(mem: Mem, a: nat, p: nat, v: byte)
    requires a <= p < a + 4 && p < |mem| && v != mem[p]
    ensures U32(mem[p := v], a) != U32(mem, a)
  {
    var m := mem[p := v];
    assert forall q :: q != p ==> ByteAt(m, q) == ByteAt(mem, q);
    assert ByteAt(m, p) == v && ByteAt(mem, p) == mem[p];
  }

  /**
   * Corrupting any single byte of an accepted MP table outside its length
   * field makes the table rejected, with the registry left as it was.
   */
  lemma CorruptedMpTableRejected(mem: Mem, addr: nat, r: Registry, p: nat, v: byte)
    requires Wf(r)
    requires U32(mem, addr) == MPC_SIGNATURE && ChecksumOk(mem, addr, U16(mem, addr + MPC_LENGTH))
    requires addr <= p < addr + U16(mem, addr + MPC_LENGTH) && p < |mem| && v != mem[p]
    requires !(addr + MPC_LENGTH <= p < addr + MPC_LENGTH + 2)
    ensures ReadMpTable(mem[p := v], addr, r) == (false, r)
  {
    var m := mem[p := v];
    if p < addr + 4 {
      U32ChangesWithByte(mem, addr, p, v);
    } else {
      assert U16(m, addr + MPC_LENGTH) == U16(mem, addr + MPC_LENGTH);
      CorruptedByteBreaksChecksum(mem, addr, U16(mem, addr + MPC_LENGTH), p, v);
    }
  }
}
