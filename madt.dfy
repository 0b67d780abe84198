/**
 * The ACPI Multiple APIC Description Table (section 5.2.12 of the ACPI
 * specification) as parse_madt walks it: self-sized entries after the
 * header, of which the enabled processor local APIC entries are recorded.
 * Hyper-threads are folded together: an entry whose APIC id, with the low
 * logical_CPU_bits bits cleared, matches a recorded one is a sibling
 * thread of an existing ordinal and adds none.
 */
module Madt {
  import opened Wrappers
  import opened Memory
  import opened Layout
  import opened Registry
  import opened Topology

  datatype MadtEntry = MadtEntry(kind: byte, length: byte, apicId: byte, flags: u32)

  function MadtEntryAt(mem: Mem, p: nat): MadtEntry {
    MadtEntry(ByteAt(mem, p + MADT_TYPE), ByteAt(mem, p + MADT_ENTRY_LENGTH),
              ByteAt(mem, p + MADT_APIC_ID), U32(mem, p + MADT_FLAGS))
  }

  /**
   * The entries the walk visits before reaching end, and whether it gets
   * stuck on an entry of length 0, which the code visits again and
   * again: that entry is the last one listed.
   */
  datatype MadtWalk = MadtWalk(entries: seq<MadtEntry>, stuck: bool)

  function MadtEntries(mem: Mem, p: nat, end: nat): MadtWalk
    decreases end - p
  {
    if p >= end then MadtWalk([], false)
    else
      var e := MadtEntryAt(mem, p);
      if e.length == 0 then MadtWalk([e], true)
      else
        var w := MadtEntries(mem, p + e.length, end);
        MadtWalk([e] + w.entries, w.stuck)
  }

  /** A processor local APIC entry with a non-zero flags word. */
  predicate IsEnabledProcessor(e: MadtEntry) {
    e.kind == MP_PROCESSOR && e.flags != 0
  }

  /**
   * One entry. While there is room: the first enabled entry ever seen
   * (found_cpus == 0) takes slot 0; a later one is a sibling thread if its
   * core matches the first recorded slot with that core, and is counted
   * unless that slot holds exactly its id; otherwise it is a new core,
   * appended and counted. At capacity every enabled entry is only
   * counted. The code's test of found_cpus before incrementing num_cpus
   * always holds at that point.
   */
  function MadtStep(r: Registry, e: MadtEntry, bits: nat): (r': Registry)
    requires Wf(r)
    ensures Wf(r')
  {
    if !IsEnabledProcessor(e) then r
    else if r.numCpus < MAX_CPUS then
      if r.foundCpus == 0 then r.(ids := r.ids[0 := e.apicId], foundCpus := r.foundCpus + 1)
      else
        match FirstSibling(r.ids, 0, r.numCpus, e.apicId, bits)
        case Some(i) => if r.ids[i] == e.apicId as int then r else r.(foundCpus := r.foundCpus + 1)
        case None => r.(ids := r.ids[r.numCpus := e.apicId], numCpus := r.numCpus + 1,
                        foundCpus := r.foundCpus + 1)
    else r.(foundCpus := r.foundCpus + 1)
  }

  function MadtApply(es: seq<MadtEntry>, bits: nat, r: Registry): (r': Registry)
    requires Wf(r)
    ensures Wf(r')
    decreases |es|
  {
    if es == [] then r else MadtApply(es[1..], bits, MadtStep(r, es[0], bits))
  }

  datatype MadtOutcome = Rejected | Parsed | Diverges

  /**
   * parse_madt(addr): a bad checksum over the table's 16-bit length
   * rejects it untouched; otherwise the APIC base is taken and every
   * visited entry applied with the logical_CPU_bits of the CPUID data.
   */
  function ParseMadt(mem: Mem, addr: nat, c: CpuId, r: Registry): (res: (MadtOutcome, Registry))
    requires Wf(r)
    ensures Wf(res.1)
  {
    var len := U16(mem, addr + MPC_LENGTH);
    if !ChecksumOk(mem, addr, len) then (Rejected, r)
    else
      var w := MadtEntries(mem, addr + MPC_HEADER_SIZE, addr + len);
      var r' := MadtApply(w.entries, LogicalBits(c), r.(apic := U32(mem, addr + MPC_LAPIC_ADDR)));
      (if w.stuck then Diverges else Parsed, r')
  }

  /**
   * One step of the walk: the entry at p is applied; the walk is stuck
   * there if its length is 0 and goes on past it otherwise.
   */
  lemma MadtWalkStep(mem: Mem, p: nat, end: nat, bits: nat, r: Registry)
    requires Wf(r) && p < end
    ensures var e := MadtEntryAt(mem, p);
      var w := MadtEntries(mem, p, end);
      e.length == 0 ==> w.stuck && MadtApply(w.entries, bits, r) == MadtStep(r, e, bits)
    ensures var e := MadtEntryAt(mem, p);
      var w := MadtEntries(mem, p, end);
      var w' := MadtEntries(mem, p + e.length, end);
      e.length != 0 ==> w.stuck == w'.stuck
                        && MadtApply(w.entries, bits, r) == MadtApply(w'.entries, bits, MadtStep(r, e, bits))
  {
    var e := MadtEntryAt(mem, p);
    var w := MadtEntries(mem, p, end);
    if e.length == 0 {
      assert w.entries == [e];
      assert MadtApply([e][1..], bits, MadtStep(r, e, bits)) == MadtStep(r, e, bits);
    } else {
      var w' := MadtEntries(mem, p + e.length, end);
      assert w.entries == [e] + w'.entries;
      assert ([e] + w'.entries)[1..] == w'.entries;
    }
  }

  // ----- Guarantees of one step -----

  /**
   * Disabled and non-processor entries change nothing; the first enabled
   * entry takes slot 0 without adding an ordinal; a core already recorded
   * adds no ordinal and leaves the table as it was.
   */
  lemma MadtStepEffect(r: Registry, e: MadtEntry, bits: nat)
    requires Wf(r)
    ensures !IsEnabledProcessor(e) ==> MadtStep(r, e, bits) == r
    ensures IsEnabledProcessor(e) && r.foundCpus == 0 && r.numCpus < MAX_CPUS ==>
      MadtStep(r, e, bits) == r.(ids := r.ids[0 := e.apicId], foundCpus := 1)
    ensures (IsEnabledProcessor(e) && r.foundCpus > 0 &&
             exists k :: 0 <= k < r.numCpus && Masked(r.ids[k], bits) == Masked(e.apicId, bits))
            ==> MadtStep(r, e, bits).ids == r.ids && MadtStep(r, e, bits).numCpus == r.numCpus
    ensures MadtStep(r, e, bits).numCpus <= MAX_CPUS
  {
  }

  /** The recorded ordinals lie on pairwise different cores. */
  ghost predicate CoresDistinct(r: Registry, bits: nat)
    requires Wf(r)
  {
    forall i, j :: 0 <= i < j < r.numCpus ==> Masked(r.ids[i], bits) != Masked(r.ids[j], bits)
  }

  /** Before any entry is recorded only the boot processor's slot is in use. */
  predicate FreshStart(r: Registry) {
    r.foundCpus == 0 ==> r.numCpus == 1
  }

  lemma MadtStepKeepsCoresDistinct(r: Registry, e: MadtEntry, bits: nat)
    requires Wf(r) && FreshStart(r) && CoresDistinct(r, bits)
    ensures FreshStart(MadtStep(r, e, bits)) && CoresDistinct(MadtStep(r, e, bits), bits)
  {
  }

  /** Every ordinal parse_madt records is a different core. */
  lemma {:induction false} MadtApplyKeepsCoresDistinct(es: seq<MadtEntry>, bits: nat, r: Registry)
    requires Wf(r) && FreshStart(r) && CoresDistinct(r, bits)
    ensures FreshStart(MadtApply(es, bits, r)) && CoresDistinct(MadtApply(es, bits, r), bits)
    decreases |es|
  {
    if es != [] {
      MadtStepKeepsCoresDistinct(r, es[0], bits);
      MadtApplyKeepsCoresDistinct(es[1..], bits, MadtStep(r, es[0], bits));
    }
  }

  /**
   * While there is room, an entry whose exact id is already recorded
   * changes nothing, not even found_cpus.
   */
  lemma DuplicateIdChangesNothing(r: Registry, e: MadtEntry, bits: nat, k: nat)
    requires Wf(r) && CoresDistinct(r, bits) && r.foundCpus > 0 && r.numCpus < MAX_CPUS
    requires k < r.numCpus && r.ids[k] == e.apicId as int
    ensures MadtStep(r, e, bits) == r
  {
    if IsEnabledProcessor(e) {
      var s := FirstSibling(r.ids, 0, r.numCpus, e.apicId, bits);
      assert s.Some?;
      assert s.value == k;
    }
  }

  /** A sibling thread of a recorded core with a new id adds no ordinal but is counted. */
  lemma SiblingThreadIsCounted(r: Registry, e: MadtEntry, bits: nat, k: nat)
    requires Wf(r) && CoresDistinct(r, bits) && r.foundCpus > 0 && r.numCpus < MAX_CPUS
    requires IsEnabledProcessor(e)
    requires k < r.numCpus && Masked(r.ids[k], bits) == Masked(e.apicId, bits) && r.ids[k] != e.apicId as int
    ensures MadtStep(r, e, bits) == r.(foundCpus := r.foundCpus + 1)
  {
    var s := FirstSibling(r.ids, 0, r.numCpus, e.apicId, bits);
    assert s.Some?;
  }

  // ----- Cores recorded by a whole walk -----

  ghost function CoreSet(ids: seq<int>, n: nat, bits: nat): set<int>
    requires n <= |ids|
  {
    set i | 0 <= i < n :: Masked(ids[i], bits)
  }

  /** The cores of the recorded ordinals; none before the first entry is seen. */
  ghost function RecordedCores(r: Registry, bits: nat): set<int>
    requires Wf(r)
  {
    if r.foundCpus == 0 then {} else CoreSet(r.ids, r.numCpus, bits)
  }

  /** The cores of the enabled processor entries. */
  function EntryCores(es: seq<MadtEntry>, bits: nat): set<int> {
    if es == [] then {}
    else (if IsEnabledProcessor(es[0]) then {Masked(es[0].apicId, bits)} else {}) + EntryCores(es[1..], bits)
  }

  lemma CoreSetExtend(ids: seq<int>, n: nat, bits: nat)
    requires n < |ids|
    ensures CoreSet(ids, n + 1, bits) == CoreSet(ids, n, bits) + {Masked(ids[n], bits)}
  {
    assert Masked(ids[n], bits) in CoreSet(ids, n + 1, bits);
  }

  lemma CoreSetSame(ids: seq<int>, ids': seq<int>, n: nat, bits: nat)
    requires n <= |ids| && n <= |ids'|
    requires forall i :: 0 <= i < n ==> ids[i] == ids'[i]
    ensures CoreSet(ids, n, bits) == CoreSet(ids', n, bits)
  {
  }

  lemma {:induction false} MadtApplyGrows(es: seq<MadtEntry>, bits: nat, r: Registry)
    requires Wf(r)
    ensures r.numCpus <= MadtApply(es, bits, r).numCpus
    decreases |es|
  {
    if es != [] {
      MadtApplyGrows(es[1..], bits, MadtStep(r, es[0], bits));
    }
  }

  lemma MadtStepCores(r: Registry, e: MadtEntry, bits: nat)
    requires Wf(r) && FreshStart(r) && r.numCpus < MAX_CPUS
    ensures RecordedCores(MadtStep(r, e, bits), bits)
            == RecordedCores(r, bits) + (if IsEnabledProcessor(e) then {Masked(e.apicId, bits)} else {})
  {
    if IsEnabledProcessor(e) {
      var r' := MadtStep(r, e, bits);
      if r.foundCpus == 0 {
        CoreSetExtend(r'.ids, 0, bits);
      } else {
        match FirstSibling(r.ids, 0, r.numCpus, e.apicId, bits)
        case Some(i) =>
          assert Masked(r.ids[i], bits) in CoreSet(r.ids, r.numCpus, bits);
        case None =>
          CoreSetExtend(r'.ids, r.numCpus, bits);
          CoreSetSame(r.ids, r'.ids, r.numCpus, bits);
      }
    }
  }

  /**
   * While the registry does not fill up, the cores of the recorded
   * ordinals are exactly the cores recorded before plus those of the
   * enabled processor entries.
   */
  lemma {:induction false} MadtApplyRecordsEveryCore(es: seq<MadtEntry>, bits: nat, r: Registry)
    requires Wf(r) && FreshStart(r)
    requires MadtApply(es, bits, r).numCpus < MAX_CPUS
    ensures RecordedCores(MadtApply(es, bits, r), bits) == RecordedCores(r, bits) + EntryCores(es, bits)
    decreases |es|
  {
    if es != [] {
      var r1 := MadtStep(r, es[0], bits);
      MadtApplyGrows(es[1..], bits, r1);
      MadtStepCores(r, es[0], bits);
      MadtApplyRecordsEveryCore(es[1..], bits, r1);
    }
  }

  lemma {:induction false} CoreSetSize(ids: seq<int>, n: nat, bits: nat)
    requires n <= |ids|
    requires forall i, j :: 0 <= i < j < n ==> Masked(ids[i], bits) != Masked(ids[j], bits)
    ensures |CoreSet(ids, n, bits)| == n
  {
    if n > 0 {
      CoreSetSize(ids, n - 1, bits);
      CoreSetExtend(ids, n - 1, bits);
      assert Masked(ids[n - 1], bits) !in CoreSet(ids, n - 1, bits);
    }
  }

  /** A new core, while there is room, is appended as a new ordinal and counted. */
  lemma NewCoreIsAppended(r: Registry, e: MadtEntry, bits: nat)
    requires Wf(r) && r.foundCpus > 0 && r.numCpus < MAX_CPUS && IsEnabledProcessor(e)
    requires forall k :: 0 <= k < r.numCpus ==> Masked(r.ids[k], bits) != Masked(e.apicId, bits)
    ensures MadtStep(r, e, bits)
            == r.(ids := r.ids[r.numCpus := e.apicId], numCpus := r.numCpus + 1, foundCpus := r.foundCpus + 1)
  {
    assert FirstSibling(r.ids, 0, r.numCpus, e.apicId, bits).None?;
  }

  lemma MadtStepFreshStart(r: Registry, e: MadtEntry, bits: nat)
    requires Wf(r) && FreshStart(r)
    ensures FreshStart(MadtStep(r, e, bits))
  {
  }

  /** One entry adds at most its own core to the recorded cores, with or without room. */
  lemma MadtStepCoresWithin(r: Registry, e: MadtEntry, bits: nat)
    requires Wf(r) && FreshStart(r)
    ensures RecordedCores(MadtStep(r, e, bits), bits)
            <= RecordedCores(r, bits) + (if IsEnabledProcessor(e) then {Masked(e.apicId, bits)} else {})
  {
    if r.numCpus < MAX_CPUS {
      MadtStepCores(r, e, bits);
    } else {
      // at capacity only found_cpus changes, and it is already positive
      assert r.foundCpus > 0;
    }
  }

  /** Every core a walk records is an earlier one or the core of an enabled entry. */
  lemma {:induction false} MadtApplyCoresWithin(es: seq<MadtEntry>, bits: nat, r: Registry)
    requires Wf(r) && FreshStart(r)
    ensures RecordedCores(MadtApply(es, bits, r), bits) <= RecordedCores(r, bits) + EntryCores(es, bits)
    decreases |es|
  {
    if es != [] {
      var r1 := MadtStep(r, es[0], bits);
      MadtStepCoresWithin(r, es[0], bits);
      MadtStepFreshStart(r, es[0], bits);
      MadtApplyCoresWithin(es[1..], bits, r1);
    }
  }

  lemma SubsetSize(a: set<int>, b: set<int>)
    requires a <= b
    ensures |a| <= |b|
  {
    assert b == a + (b - a);
  }

  /**
   * Walked from the initial registry, parse_madt gives one ordinal per
   * distinct core among the enabled processor entries, up to MAX_CPUS;
   * with no enabled entry only the boot processor's ordinal remains.
   */
  lemma MadtOrdinalsAreCores(es: seq<MadtEntry>, bits: nat, r: Registry)
    requires Wf(r) && r.foundCpus == 0 && r.numCpus == 1
    ensures MadtApply(es, bits, r).numCpus
            == if EntryCores(es, bits) == {} then 1 else Min(MAX_CPUS, |EntryCores(es, bits)|)
  {
    var r' := MadtApply(es, bits, r);
    MadtApplyKeepsCoresDistinct(es, bits, r);
    if r'.foundCpus > 0 {
      CoreSetSize(r'.ids, r'.numCpus, bits);
    }
    if r'.numCpus < MAX_CPUS {
      MadtApplyRecordsEveryCore(es, bits, r);
    } else {
      MadtApplyCoresWithin(es, bits, r);
      SubsetSize(RecordedCores(r', bits), EntryCores(es, bits));
    }
  }

  // ----- Processors counted by a whole walk -----

  /** The ids of the enabled processor entries, in table order. */
  function EnabledIds(es: seq<MadtEntry>): seq<int> {
    if es == [] then []
    else (if IsEnabledProcessor(es[0]) then [es[0].apicId as int] else []) + EnabledIds(es[1..])
  }

  /** The ids of the recorded ordinals; none before the first entry is seen. */
  ghost function RecordedIds(r: Registry): set<int>
    requires Wf(r)
  {
    if r.foundCpus == 0 then {} else set k | 0 <= k < r.numCpus :: r.ids[k]
  }

  /**
   * An enabled entry whose id is not recorded yet is counted, a disabled
   * one is not, and only the entry's own id can become recorded.
   */
  lemma MadtStepCountsNewId(r: Registry, e: MadtEntry, bits: nat)
    requires Wf(r) && FreshStart(r)
    ensures RecordedIds(MadtStep(r, e, bits))
            <= RecordedIds(r) + (if IsEnabledProcessor(e) then {e.apicId as int} else {})
    ensures IsEnabledProcessor(e) && e.apicId as int !in RecordedIds(r) ==>
              MadtStep(r, e, bits).foundCpus == r.foundCpus + 1
    ensures !IsEnabledProcessor(e) ==> MadtStep(r, e, bits).foundCpus == r.foundCpus
  {
    if IsEnabledProcessor(e) && r.numCpus < MAX_CPUS && r.foundCpus > 0 {
      var r' := MadtStep(r, e, bits);
      match FirstSibling(r.ids, 0, r.numCpus, e.apicId, bits)
      case Some(i) =>
        assert r.ids[i] in RecordedIds(r);
      case None =>
        forall x | x in RecordedIds(r')
          ensures x in RecordedIds(r) + {e.apicId as int}
        {
          var k :| 0 <= k < r'.numCpus && r'.ids[k] == x;
          if k < r.numCpus {
            assert r.ids[k] == x;
          }
        }
    }
  }

  lemma {:induction false} MadtApplyCountsNewIds(es: seq<MadtEntry>, bits: nat, r: Registry)
    requires Wf(r) && FreshStart(r)
    requires forall i, j :: 0 <= i < j < |EnabledIds(es)| ==> EnabledIds(es)[i] != EnabledIds(es)[j]
    requires forall i :: 0 <= i < |EnabledIds(es)| ==> EnabledIds(es)[i] !in RecordedIds(r)
    ensures MadtApply(es, bits, r).foundCpus == r.foundCpus + |EnabledIds(es)|
    decreases |es|
  {
    if es != [] {
      var r1 := MadtStep(r, es[0], bits);
      var head := if IsEnabledProcessor(es[0]) then [es[0].apicId as int] else [];
      var tail := EnabledIds(es[1..]);
      assert EnabledIds(es) == head + tail;
      assert forall i :: 0 <= i < |tail| ==> tail[i] == EnabledIds(es)[|head| + i];
      MadtStepCountsNewId(r, es[0], bits);
      MadtStepFreshStart(r, es[0], bits);
      if head != [] {
        assert EnabledIds(es)[0] == es[0].apicId as int;
        assert forall i :: 0 <= i < |tail| ==> tail[i] != es[0].apicId as int;
      }
      assert forall i :: 0 <= i < |tail| ==> tail[i] !in RecordedIds(r1);
      MadtApplyCountsNewIds(es[1..], bits, r1);
      assert MadtApply(es, bits, r) == MadtApply(es[1..], bits, r1);
    }
  }

  /**
   * Walked from the initial registry, when the enabled processor entries
   * carry pairwise different ids, found_cpus counts every one of them,
   * sibling threads and entries beyond MAX_CPUS included.
   */
  lemma MadtFoundCount(es: seq<MadtEntry>, bits: nat, r: Registry)
    requires Wf(r) && r.foundCpus == 0 && r.numCpus == 1
    requires forall i, j :: 0 <= i < j < |EnabledIds(es)| ==> EnabledIds(es)[i] != EnabledIds(es)[j]
    ensures MadtApply(es, bits, r).foundCpus == |EnabledIds(es)|
  {
    MadtApplyCountsNewIds(es, bits, r);
  }

  /**
   * Two enabled entries whose ids differ only in the thread bits, seen
   * first: one ordinal, holding the first id, and two processors found.
   */
  lemma TwoThreadsOneOrdinal(e1: MadtEntry, e2: MadtEntry, bits: nat, r: Registry)
    requires Wf(r) && r.foundCpus == 0 && r.numCpus == 1
    requires IsEnabledProcessor(e1) && IsEnabledProcessor(e2)
    requires Masked(e1.apicId, bits) == Masked(e2.apicId, bits) && e1.apicId != e2.apicId
    ensures MadtApply([e1, e2], bits, r).numCpus == 1
    ensures MadtApply([e1, e2], bits, r).foundCpus == 2
    ensures MadtApply([e1, e2], bits, r).ids[0] == e1.apicId as int
  {
    var r1 := MadtStep(r, e1, bits);
    SiblingThreadIsCounted(r1, e2, bits, 0);
    assert [e1, e2][1..] == [e2] && [e2][1..] == [];
    assert MadtApply([e1, e2], bits, r) == MadtApply([e2], bits, r1);
    assert MadtApply([e2], bits, r1) == MadtStep(r1, e2, bits);
  }
}
