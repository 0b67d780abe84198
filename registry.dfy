/**
 * The processor registry built by discovery: the table
 * cpu_num_to_apic_id (ordinal to local APIC id, ordinal 0 is the boot
 * processor), num_cpus (ordinals in use), found_cpus (processor records
 * seen) and the local APIC base address taken from the last table parsed.
 */
module Registry {
  import opened Wrappers
  import opened Memory
  import opened Layout

  datatype Registry = Registry(ids: seq<int>, numCpus: int, foundCpus: int, apic: int)

  /** The table has MAX_CPUS slots, at least the boot processor is in use and no more than MAX_CPUS. */
  predicate Wf(r: Registry) {
    |r.ids| == MAX_CPUS && 1 <= r.numCpus <= MAX_CPUS && r.foundCpus >= 0
  }

  /** The registry before discovery: the initial values of the globals of smp.c. */
  function Initial(): (r: Registry)
    ensures Wf(r) && r.numCpus == 1 && r.foundCpus == 0
    ensures forall k :: 0 <= k < MAX_CPUS ==> r.ids[k] == 0
  {
    Registry(seq(MAX_CPUS, _ => 0), 1, 0, 0)
  }

  function Min(a: int, b: int): int {
    if a <= b then a else b
  }

  /** An APIC id with its low `bits` bits cleared: the id of the physical core it belongs to. */
  function Masked(id: int, bits: nat): int {
    (id / Pow2(bits)) * Pow2(bits)
  }

  /** The first slot in [lo, n) whose id lies on the same core as `id`. */
  function FirstSibling(ids: seq<int>, lo: nat, n: nat, id: int, bits: nat): (r: Option<nat>)
    requires lo <= n <= |ids|
    ensures r.Some? ==> lo <= r.value < n && Masked(ids[r.value], bits) == Masked(id, bits)
    ensures forall j :: lo <= j < (if r.Some? then r.value else n) ==> Masked(ids[j], bits) != Masked(id, bits)
    decreases n - lo
  {
    if lo == n then None
    else if Masked(ids[lo], bits) == Masked(id, bits) then Some(lo)
    else FirstSibling(ids, lo + 1, n, id, bits)
  }

  /** The first index at or after lo holding x, or -1. */
  function IndexOf(s: seq<int>, x: int, lo: nat): (i: int)
    requires lo <= |s|
    ensures i == -1 || (lo <= i < |s| && s[i] == x)
    ensures forall j :: lo <= j < (if i == -1 then |s| else i) ==> s[j] != x
    decreases |s| - lo
  {
    if lo == |s| then -1
    else if s[lo] == x then lo
    else IndexOf(s, x, lo + 1)
  }

  /**
   * The processor number of the processor whose local APIC id is apicId:
   * the first ordinal recording it, or 0 when none does.
   */
  function CpuNum(ids: seq<int>, apicId: int): (n: nat)
    ensures |ids| > 0 ==> n < |ids|
    ensures (exists k :: 0 <= k < |ids| && ids[k] == apicId) ==>
              ids[n] == apicId && forall j :: 0 <= j < n ==> ids[j] != apicId
    ensures (forall k :: 0 <= k < |ids| ==> ids[k] != apicId) ==> n == 0
  {
    var i := IndexOf(ids, apicId, 0);
    if i == -1 then 0 else i
  }

  /** When the first n ordinals hold pairwise different ids, the lookup inverts the table on them. */
  lemma CpuNumInverts(ids: seq<int>, n: nat, k: nat)
    requires k < n <= |ids|
    requires forall i, j :: 0 <= i < j < n ==> ids[i] != ids[j]
    ensures CpuNum(ids, ids[k]) == k
  {
    var m := CpuNum(ids, ids[k]);
    assert ids[m] == ids[k] && m <= k;
  }

  /** Storing x at index me makes me the answer of a search for x, if no earlier index holds x. */
  lemma IndexOfAfterStore(s: seq<int>, me: nat, x: int)
    requires me < |s|
    requires forall j :: 0 <= j < me ==> s[j] != x
    ensures IndexOf(s[me := x], x, 0) == me
  {
    var t := s[me := x];
    var i := IndexOf(t, x, 0);
    assert t[me] == x;
    assert i != -1 && i <= me;
  }
}
