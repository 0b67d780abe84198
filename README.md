# Processor discovery of memtest86 (smp.c), modelled in Dafny

memtest86 finds the processors of a machine from the firmware's tables
before it starts them. `smp.c` does this in several steps:

- It searches low memory for the ACPI root system description pointer
  (RSDP). It follows that pointer to the RSDT or XSDT and walks the
  pointer array of that table for a Multiple APIC Description Table
  (MADT). Then it parses the MADT's processor local APIC entries.
- When the MADT folds hyper-threads, it uses a thread-id width derived
  from CPUID: all threads of one core get a single ordinal.
- When no MADT is parsed, it searches for the MultiProcessor
  Specification 1.4 floating pointer structure. That structure either
  announces a default configuration (two processors) or points to an MP
  configuration table, whose processor entries it records.
- Every table must pass a byte checksum (the sum of its bytes is 0
  modulo 256).
- The result is a registry, held in global variables:
  - `cpu_num_to_apic_id` maps each ordinal to a local APIC id;
  - `num_cpus` is the number of ordinals in use;
  - `found_cpus` is the number of processor records seen;
  - `APIC` is the local APIC base address.
- `initialise_cpus` limits `num_cpus` to the command-line `maxcpus`,
  counts the processors selected by `cpu_mask` into `act_cpus`, and
  chooses the ordinals to start.
- `smp_my_cpu_num`, `smp_set_ordinal`, `smp_my_ord_num` and
  `smp_ord_to_cpu` look up and keep processor numbers.

The model has these modules:

- **Memory** (`memory.dfy`): physical memory as a sequence of bytes,
  little-endian 16- and 32-bit reads, and the checksum.
- **Layout** (`layout.dfy`): the signatures, field offsets and entry
  sizes of the tables, and `MAX_CPUS`.
- **Scan** (`scan.dfy`): the two signature scanners.
- **Topology** (`topology.dfy`): the derivation of `logical_CPU_bits`
  from CPUID outputs, which are given as a `CpuId` value.
- **Registry** (`registry.dfy`): the registry as a value, and the
  searches of the lookup tables.
- **MpTable** (`mptable.dfy`): `read_mp_config_table`. The entries the
  walk visits are decoded, then applied to the registry one at a time.
- **Madt** (`madt.dfy`): `parse_madt`, structured the same way.
- **Discovery** (`discovery.dfy`): `smp_find_cpus`, written as a
  function of memory, the CPUID data and the registry.
- **Smp** (`smp.dfy`): the class `SmpState`. It holds the global arrays
  and counters, and has methods with loops for the routines of `smp.c`
  that update them in place.

Each method is proved against the function of the lower modules that
specifies it. The properties are proved as lemmas about those functions.

Where the code and its comments or the standards it reads disagree, the
model follows the code:

- **Search order.** `smp_find_cpus` tries the ACPI tables first
  (smp.c:667-740) and the MP floating pointer only afterwards
  (smp.c:742-787). The comments at smp.c:627-650 and 663-665 describe
  the opposite order.
- **The `num_cpus > 1` test.** This test after a good MP table
  (smp.c:782) has no effect: the function returns either way.
- **XSDT stride.** The XSDT pointer array is read as 32-bit words every
  4 bytes (smp.c:728, 738). Section 5.2.8 of the ACPI specification
  gives the XSDT 8-byte entries. `FourByteWalkMatchesXsdt` shows that
  the two walks agree when every entry's high half is 0.
- **Interrupt-source entries.** An MP interrupt-source entry has no
  `break` and falls into the local-interrupt case (smp.c:361-365). It
  therefore advances 16 bytes, and the 8-byte entry after it is never
  read (`IntSrcSkipsFollowingEntry`).
- **MADT length.** `parse_madt` reads the MADT through the MP table
  header type. Its length is therefore read as 16 bits at offset 4, and
  the local APIC address at offset 36. The entries start at offset 44.
- **A test that always holds.** The check of `found_cpus` before
  `num_cpus++` (smp.c:575) always holds at that point.
- **Registry before the APIC version check.** A processor entry with an
  unsupported APIC version fails the MP table only after it has been
  recorded (`BadApicVersionAfterUpdate`).

## Model

| member | source | states |
|---|---|---|
| Memory.Checksum | smp.c:293-301 | the result is the unsigned sum of the `len` bytes from `addr`, modulo 256; it lies in 0..255, and it is 0 exactly when the table's checksum is valid |
| Memory.ByteSumUpdate | smp.c:297-299 | replacing one byte inside the summed range changes the sum by exactly the difference of the two values |
| Memory.ByteSumUnchanged | smp.c:297-299 | bytes outside the summed range do not affect the sum |
| Memory.CorruptedByteBreaksChecksum | smp.c:293-301 | for a table whose checksum is valid, changing any one of its bytes makes the checksum fail, so every caller that requires a zero checksum rejects it |
| Scan.FpScanFindsFirst | smp.c:381-394 | the floating pointer search returns a position inside the window, on the 16-byte grid from its start, that holds a valid structure (signature, length byte 1, zero 16-byte checksum, revision 1 or 4); no earlier grid position holds one; when it returns nothing, no grid position of the window holds one |
| Scan.FloatingPtrAt | smp.c:383-385 | the test at one address is true exactly when a valid floating pointer structure starts there |
| Scan.ScanForFloatingPtrStruct | smp.c:376-395 | the loop over `addr`, counting `length` down by 16, returns exactly FpScan for the window [addr, addr+length), whose first-match property FpScanFindsFirst states |
| Scan.RsdpScanFindsFirst | smp.c:401-428 | the root pointer search returns the first position on the 4-byte grid of [addr, addr+length) that has the RSDP signature and a valid checksum (over 20 bytes at revision 0, over its length field otherwise); a signature hit with a bad checksum is passed over; it returns nothing only when no grid position qualifies |
| Scan.RsdpAt | smp.c:406-425 | the test at one address is true exactly when a valid root pointer starts there |
| Scan.ScanForRsdp | smp.c:398-429 | the loop returns exactly RsdpScan for [addr, addr+length), whose first-match property RsdpScanFindsFirst states |
| Topology.CeilLog2Covers | smp.c:471-479 | 2^CeilLog2(t) >= t, and 2^(CeilLog2(t)-1) < t when CeilLog2(t) > 0 |
| Topology.CeilLog2Unique | smp.c:471-479 | CeilLog2(t) is the only b with 2^(b-1) < t <= 2^b, so it is the least width that counts t threads |
| Topology.CeilLog2AtMost | smp.c:471-479 | up to 2^b threads need at most b bits |
| Topology.CoverBits | smp.c:473-478 | the downward search from bit 31 for the highest set bit of 2*threadCount-1 ends at the least b with 2^b >= threadCount; a thread count of 1 gives 0 |
| Topology.ThreadCountBound | smp.c:458-468 | the thread counts derived on the AMD path and on the Intel path without leaf 0xB are at most 255 |
| Topology.LogicalBitsBound | smp.c:446-537 | the derived `logical_CPU_bits` is at most 15, so the id masks of the MADT walk are well defined |
| Topology.LogicalCpuBits | smp.c:446-537 | the result is LogicalBits of the CPUID data: 0 without HTT or for another vendor; `levelShift` when the Intel leaf-0xB EBX is non-zero and the level type is 1, else 0 on that path; otherwise the covering width of the derived thread count |
| Registry.Initial | smp.c:13-15 | at load time the registry is well formed, with one ordinal, no processors found and every table slot 0 |
| Registry.FirstSibling | smp.c:556-568 | the result is the first slot below `num_cpus` whose masked id equals the masked id of the entry; no earlier slot matches; nothing is returned only when no slot matches |
| Registry.IndexOf | smp.c:850-853 | the result is the first index holding the value, or -1 when no index holds it |
| Registry.CpuNum | smp.c:817-831 | the result is the first ordinal whose recorded id is `apicId`, and 0 when no ordinal matches; it is always an index of the table |
| Registry.CpuNumInverts | smp.c:822-826 | when the first n ordinals hold pairwise different ids, looking up the id of ordinal k < n gives back k |
| Registry.IndexOfAfterStore | smp.c:837-853 | after `smp_set_ordinal(me, ord)`, `smp_ord_to_cpu(ord)` returns `me`, provided no lower processor already holds `ord` |
| MpTable.AddProcessor | smp.c:334-341 | one processor entry keeps the registry well formed: `num_cpus` never exceeds MAX_CPUS |
| MpTable.MpApply | smp.c:329-370 | applying the visited entries keeps the registry well formed |
| MpTable.ReadMpTable | smp.c:304-372 | `read_mp_config_table` keeps the registry well formed |
| MpTable.CountsAddUp | smp.c:331-341 | every processor entry is either boot-flagged or yields a non-boot id |
| MpTable.MpApplyVerdict | smp.c:329-371 | the entry walk succeeds exactly when every entry has a known type and every processor entry has an APIC version 0x1_ |
| MpTable.MpApplyCounts | smp.c:334-341 | after an accepted walk, `found_cpus` has risen by the number of processor entries, `num_cpus` is min(MAX_CPUS, num_cpus + number of non-boot entries), and the APIC base is unchanged |
| MpTable.MpApplyBootSlot | smp.c:334-336 | after an accepted walk, slot 0 holds the id of the last boot-flagged entry, or its old id when there is none |
| MpTable.MpApplyKeepsSlots | smp.c:337-340 | an accepted walk never lowers `num_cpus`, keeps ordinals 1..num_cpus-1, and leaves slots at or beyond the new `num_cpus` untouched |
| MpTable.MpApplyAppends | smp.c:337-340 | an accepted walk appends the ids of the non-boot processor entries, in table order, after the ordinals already in use, as far as there is room |
| MpTable.MpTableOrdinals | smp.c:329-371 | a table of K accepted processor entries, one of them boot-flagged, parsed into a registry holding only the boot processor, is accepted and gives min(K, MAX_CPUS) ordinals, with the boot entry's id at ordinal 0 |
| MpTable.BadApicVersionAfterUpdate | smp.c:334-348 | a processor entry with an unsupported APIC version fails the table after it has been recorded: `found_cpus` has already risen by one |
| MpTable.IntSrcSkipsFollowingEntry | smp.c:361-365 | a walk at an interrupt-source entry continues 16 bytes further, so the entry 8 bytes after it is never read |
| MpTable.MpWalkStep | smp.c:329-369 | one iteration of the entry loop: a processor entry is recorded and then either fails the table or moves 20 bytes on; an unknown type fails the table unchanged; any other type moves on by its size |
| MpTable.BadHeaderLeavesRegistry | smp.c:311-319 | a wrong signature or a bad checksum rejects the MP table and leaves the registry as it was |
| MpTable.CorruptedMpTableRejected | smp.c:311-319 | an accepted MP table with any one byte changed (other than its length field) is rejected, and the registry is left as it was |
| Madt.MadtStep | smp.c:545-585 | one MADT entry keeps the registry well formed: `num_cpus` never exceeds MAX_CPUS |
| Madt.MadtApply | smp.c:543-588 | applying the visited entries keeps the registry well formed |
| Madt.ParseMadt | smp.c:432-590 | `parse_madt` keeps the registry well formed |
| Madt.MadtWalkStep | smp.c:543-588 | one iteration of the entry loop: the entry is applied; with length 0 the walk is stuck on it, otherwise the walk goes on `length` bytes further |
| Madt.MadtStepEffect | smp.c:546-585 | a disabled or non-processor entry changes nothing; the first enabled entry goes to slot 0 without a new ordinal; an entry on a core already recorded adds no ordinal and leaves the table as it was; `num_cpus <= MAX_CPUS` |
| Madt.MadtStepKeepsCoresDistinct | smp.c:549-580 | one entry keeps the recorded ordinals on pairwise different cores |
| Madt.MadtApplyKeepsCoresDistinct | smp.c:543-588 | a whole MADT walk keeps the recorded ordinals on pairwise different cores |
| Madt.DuplicateIdChangesNothing | smp.c:563-584 | while there is room, an entry whose exact id is already recorded changes nothing, not even `found_cpus` |
| Madt.SiblingThreadIsCounted | smp.c:556-584 | a sibling thread of a recorded core with a new id adds no ordinal but raises `found_cpus` by one |
| Madt.MadtApplyGrows | smp.c:543-588 | a MADT walk never lowers `num_cpus` |
| Madt.MadtStepCores | smp.c:549-580 | while there is room, one entry adds its core, and only its core, to the set of recorded cores |
| Madt.MadtApplyRecordsEveryCore | smp.c:543-588 | while the registry does not fill up, the recorded cores after the walk are the cores recorded before plus the cores of the enabled entries |
| Madt.NewCoreIsAppended | smp.c:570-580 | while there is room, an enabled entry on a core not yet recorded is appended as a new ordinal and counted |
| Madt.MadtStepCoresWithin | smp.c:545-585 | one entry adds at most its own core to the recorded cores, with or without room |
| Madt.MadtApplyCoresWithin | smp.c:543-588 | every core a walk records is an earlier one or the core of an enabled entry, also once the registry is full |
| Madt.MadtOrdinalsAreCores | smp.c:543-588 | walked from the initial registry, `parse_madt` gives min(MAX_CPUS, number of distinct cores among the enabled processor entries) ordinals, and only the boot processor's ordinal when no entry is enabled |
| Madt.MadtStepCountsNewId | smp.c:545-585 | an enabled entry whose id is not yet recorded raises `found_cpus` by one, a disabled one leaves it, and only the entry's own id can become recorded |
| Madt.MadtApplyCountsNewIds | smp.c:543-588 | when the enabled entries carry pairwise different ids, none of them already recorded, `found_cpus` rises by their number |
| Madt.MadtFoundCount | smp.c:543-588 | walked from the initial registry, with pairwise different ids on the enabled entries, `found_cpus` is the number of enabled processor entries, sibling threads and entries beyond MAX_CPUS included |
| Madt.TwoThreadsOneOrdinal | smp.c:549-584 | two enabled threads of one core seen first give one ordinal, holding the first id, and two processors found |
| Discovery.RootTable | smp.c:687-721 | a root table is returned only when its pointer is non-null and its checksum is valid |
| Discovery.MadtSearch | smp.c:724-739 | the pointer-array walk keeps the registry well formed, and when no MADT is parsed the registry is untouched |
| Discovery.AcpiDiscovery | smp.c:667-740 | the ACPI half of discovery leaves the registry untouched when it finds no MADT to parse |
| Discovery.DefaultConfig | smp.c:764-771 | a default configuration keeps the registry well formed |
| Discovery.MpDiscovery | smp.c:742-787 | the MP half of discovery keeps the registry well formed |
| Discovery.FindCpus | smp.c:651-788 | `smp_find_cpus` keeps the registry well formed |
| Discovery.NothingFoundKeepsRegistry | smp.c:651-788 | with neither a root pointer nor a floating pointer in memory, discovery does not hang and leaves the registry as it was |
| Discovery.DefaultConfigGivesTwoCpus | smp.c:760-772 | when no MADT is parsed and the floating pointer's feature byte is 1..7, discovery gives exactly two ordinals with APIC ids 0 and 1, and `found_cpus` is unchanged |
| Discovery.AcpiComesFirst | smp.c:733-736 | once a MADT is parsed, discovery does not hang and its registry is the one the ACPI half produced; no MP structure is consulted |
| Discovery.MadtSearchKeepsCoresDistinct | smp.c:727-739 | the ordinals found by the pointer-array walk lie on pairwise different cores |
| Discovery.AcpiDiscoveryCoresDistinct | smp.c:667-740 | from the initial registry, discovery through a MADT records each core at most once |
| Discovery.FourByteWalkMatchesXsdt | smp.c:727-739 | when the high half of every 64-bit XSDT entry is 0, the 4-byte walk finds what an 8-byte walk (as ACPI lays out the XSDT) finds |
| Smp.SmpState.constructor | smp.c:13-15 | the initial globals: one ordinal, no processors found, every slot of both tables 0 |
| Smp.SmpState.RecordProcessor | smp.c:334-341 | the globals after one processor entry are AddProcessor of those before |
| Smp.SmpState.ReadMpConfigTable | smp.c:304-372 | the verdict and the new globals are ReadMpTable of the globals before the call |
| Smp.SmpState.WalkMpEntries | smp.c:329-371 | the verdict and the new globals are MpApply of the visited entries to the globals before the call |
| Smp.SmpState.FindThread | smp.c:554-568 | `found_thread` is true exactly when some ordinal below `num_cpus` is on the entry's core, and `duplicate_cpu` is true exactly when the first such ordinal holds exactly the entry's id |
| Smp.SmpState.RecordMadtEntry | smp.c:545-585 | the globals after one MADT entry are MadtStep of those before |
| Smp.SmpState.MadtWalkEntry | smp.c:545-587 | one pass of the loop applies the entry at p; it reports being stuck exactly on a zero-length entry, and otherwise moves forward to the next entry of the walk |
| Smp.SmpState.WalkMadtEntries | smp.c:541-588 | it reports being stuck exactly when the walk reaches a zero-length entry; the new globals are MadtApply of the visited entries |
| Smp.SmpState.ParseMadt | smp.c:432-590 | the outcome and the new globals are Madt.ParseMadt of the globals before the call |
| Smp.SmpState.SearchMadt | smp.c:724-739 | the outcome and the new globals are MadtSearch of the globals before the call |
| Smp.SmpState.FindCpusAcpi | smp.c:667-740 | the outcome and the new globals are AcpiDiscovery of the globals before the call |
| Smp.SmpState.FindCpusMp | smp.c:742-787 | the new globals are MpDiscovery of the globals before the call |
| Smp.SmpState.FindCpus | smp.c:651-788 | whether discovery hangs, and the new globals, are Discovery.FindCpus of the globals before the call |
| Smp.SmpState.InitialiseCpus | smp.c:592-625 | for maxcpus > 1: the discovery result with `num_cpus` limited to maxcpus; `act_cpus`, and the count given to `barrier_init`, is the number of selected ordinals below `num_cpus`; the ordinals started are exactly the selected ones in 1..num_cpus-1, in increasing order. For maxcpus <= 1: all three counters are 1 and none is started |
| Smp.SmpState.CountSelected | smp.c:605-609 | `act_cpus` becomes the number of ordinals below `num_cpus` that the mask selects; the registry is unchanged |
| Smp.SmpState.BootSelected | smp.c:618-623 | the ordinals started are exactly the selected ones in 1..num_cpus-1, in increasing order |
| Smp.SmpState.MyCpuNum | smp.c:817-831 | the result is CpuNum of the table: the first ordinal below MAX_CPUS recording the APIC id, or 0 |
| Smp.SmpState.SetOrdinal | smp.c:837-840 | entry `me` of `num_to_ord` becomes `ord`, and no other entry changes |
| Smp.SmpState.MyOrdNum | smp.c:842-845 | the result is entry `me` of `num_to_ord` |
| Smp.SmpState.OrdToCpu | smp.c:847-854 | the result is the first processor whose ordinal is `ord`, or -1 |
| Smp.Selected | smp.c:605-623 | exactly the ordinals in [lo, hi) that the mask selects, in strictly increasing order |
| Smp.ActiveAreBootedAndBoot | smp.c:605-623 | the barrier count is the number of started processors, plus one when ordinal 0 is selected |
| Smp.AcpiCpuNumbers | smp.c:817-831 | after discovery through a MADT from the initial globals, `smp_my_cpu_num` answers each recorded ordinal's own APIC id with that ordinal |
| Smp.FindRsdp | smp.c:667-678 | the root pointer is the first one in 0xE0000..0xFFFFF, else the first one in the first kilobyte of the EBDA when the BIOS data area names one |
| Smp.FindRootTable | smp.c:687-721 | the root table is the XSDT from revision 2 on and the RSDT before; it is returned only when it is non-null and has its signature and a valid checksum |
| Smp.FindFloatingPtr | smp.c:742-757 | the floating pointer is the first one found in the first kilobyte, then the kilobyte below 640 KiB, then 0xF0000..0xFFFFF, then the EBDA's first kilobyte |

## Left out

- The barriers `barrier`, `s_barrier`, `barrier_init` and `s_barrier_init` are left out. They are multi-processor busy-wait synchronisation and placement at a raw address. `InitialiseCpus` returns the count it passes to `barrier_init`.
- Processor wake-up is left out: `kick_cpu`, `boot_ap`, `smp_boot_ap`, `smp_ap_booted`, the IPI sequence, the APIC register reads and writes, and `delay`. These are hardware I/O and timing. `InitialiseCpus` returns the ordinals it passes to `smp_boot_ap`, in order.
- The trampoline stores (`memcpy`, `PUT_MEM16`, `PUT_MEM32`) and the `memset` of the `AP` array in `smp_find_cpus` are not modelled.
- The `cpuid` and `cpuid_count` instructions are not modelled. Their outputs are fields of `Topology.CpuId`, each read only under the guard under which the code executes that leaf.
- `my_apic_id` is not modelled. `MyCpuNum` takes the local APIC id as a parameter.
- `btrace`, `cprint`, `hprint` and `dprint` are display only and left out.
- The `APIC` base pointer is recorded as the registry field `apic`. Its use as a register block is not modelled.
- Madt.ParseMadt: an entry of length 0 makes the code loop forever on that entry. The model applies that entry once and reports the outcome `Diverges`. A repeated visit adds no ordinal. But when the registry is full, or when the entry is a sibling of an earlier thread with another id, `found_cpus` would keep rising in the code; the model counts the entry once.
- Smp.SmpState.InitialiseCpus: when discovery hangs, the model returns without the counting and start-up steps that the code never reaches.
- Physical addresses are unbounded naturals. The 32-bit wrap-around of a pointer plus a length near 4 GiB is not modelled.
- `found_cpus` is an unsigned counter in the code. Its wrap-around after 2^32 processor records is not modelled.
- Memory.Checksum: its length is taken as a natural. In the code a 32-bit length field of 2^31 or more becomes a negative `int`, and the loop then runs far past the table; the model does not capture this.
- The struct layouts and `MAX_CPUS` live in a header that is not part of this model. The model takes these from the MP specification 1.4 (sections 4.1 to 4.3) and the ACPI specification (sections 5.2.5 to 5.2.8 and 5.2.12):
  - the field offsets and entry sizes;
  - `CPU_BOOTPROCESSOR` as bit 1 of the flags byte;
  - a 36-byte root table header;
  - `MAX_CPUS` = 32. The proofs use only that it is at least 2.
- Scan.ScanForFloatingPtrStruct: requires the window length to be a multiple of 16. Every call in the code passes one; for any other length, the code's unsigned counter would wrap around.
- Smp.SmpState.InitialiseCpus: requires `cpu_mask` to have MAX_CPUS entries, as the array it indexes does.
- Smp.SmpState.SetOrdinal and Smp.SmpState.MyOrdNum: require `me < MAX_CPUS`. The code does not check this, and an index outside the table is undefined behaviour.
