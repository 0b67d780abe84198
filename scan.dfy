/**
 * The two signature scanners: the MP floating pointer structure is
 * searched for on 16-byte boundaries, the ACPI root pointer on 4-byte
 * boundaries. Each returns the first qualifying address of its window, or
 * None (the NULL pointer of the code).
 */
module Scan {
  import opened Wrappers
  import opened Memory
  import opened Layout

  /** A grid position of step s (4 or 16) from p other than p itself is a grid position from p + s. */
  lemma GridStep(p: nat, q: nat, s: nat)
    requires (s == 4 || s == 16) && p < q
    ensures (q - p) % s == 0 ==> p + s <= q && (q - (p + s)) % s == 0
    ensures (q - (p + s)) % s == 0 && p + s <= q ==> (q - p) % s == 0
  {
  }

  /** A valid MP floating pointer structure starts at p. */
  predicate IsFloatingPtr(mem: Mem, p: nat) {
    && U32(mem, p) == FP_SIGNATURE
    && ByteAt(mem, p + FP_LENGTH) == 1
    && ChecksumOk(mem, p, FP_SIZE)
    && (ByteAt(mem, p + FP_SPEC_REV) == 1 || ByteAt(mem, p + FP_SPEC_REV) == 4)
  }

  /** The search for a floating pointer structure at p, p + 16, ... below end. */
  function FpScan(mem: Mem, p: nat, end: nat): Option<nat>
    decreases end - p
  {
    if p >= end then None
    else if IsFloatingPtr(mem, p) then Some(p)
    else FpScan(mem, p + 16, end)
  }

  /**
   * The search finds the first structure on the 16-byte grid of the
   * window, and finds nothing only when there is none on it.
   */
  lemma {:induction false} FpScanFindsFirst(mem: Mem, p: nat, end: nat)
    ensures var r := FpScan(mem, p, end);
      r.Some? ==> p <= r.value < end && (r.value - p) % 16 == 0 && IsFloatingPtr(mem, r.value)
    ensures var r := FpScan(mem, p, end);
      forall q :: p <= q < (if r.Some? then r.value else end) && (q - p) % 16 == 0 ==> !IsFloatingPtr(mem, q)
    decreases end - p
  {
    if p < end && !IsFloatingPtr(mem, p) {
      FpScanFindsFirst(mem, p + 16, end);
      var r := FpScan(mem, p, end);
      forall q | p <= q < (if r.Some? then r.value else end) && (q - p) % 16 == 0
        ensures !IsFloatingPtr(mem, q)
      {
        if q != p {
          GridStep(p, q, 16);
        }
      }
      if r.Some? {
        GridStep(p, r.value, 16);
      }
    }
  }

  /**
   * The test of scan_for_floating_ptr_struct at one address, evaluated
   * left to right: the checksum is only computed once the signature
   * and the length byte match.
   */
  method FloatingPtrAt(mem: Mem, a: nat) returns (found: bool)
    ensures found == IsFloatingPtr(mem, a)
  {
    found := false;
    if U32(mem, a) == FP_SIGNATURE && ByteAt(mem, a + FP_LENGTH) == 1 {
      var sum := Checksum(mem, a, FP_SIZE);
      var rev := ByteAt(mem, a + FP_SPEC_REV);
      found := sum == 0 && (rev == 1 || rev == 4);
    }
  }

  /**
   * scan_for_floating_ptr_struct(addr, length): length counts down by 16
   * while it is positive, so it must be a multiple of 16 (every call passes
   * one) or the unsigned count would wrap around.
   */
  method ScanForFloatingPtrStruct(mem: Mem, addr: nat, length: nat) returns (fp: Option<nat>)
    requires length % 16 == 0
    ensures fp == FpScan(mem, addr, addr + length)
  {
    var a := addr;
    var len: nat := length;
    ghost var slots: nat := length / 16;
    while len > 0
      invariant len == 16 * slots && a + len == addr + length
      invariant FpScan(mem, a, addr + length) == FpScan(mem, addr, addr + length)
      decreases len
    {
      var found := FloatingPtrAt(mem, a);
      if found {
        return Some(a);
      }
      a := a + 16;
      len := len - 16;
      slots := slots - 1;
    }
    return None;
  }

  /**
   * A valid ACPI root pointer starts at p: its checksum covers the 20-byte
   * ACPI 1.0 structure when the revision is 0, and its own length field
   * otherwise.
   */
  predicate IsRsdp(mem: Mem, p: nat) {
    && U32(mem, p) == RSDP_SIGNATURE
    && (if ByteAt(mem, p + RSDP_REVISION) == 0
        then ChecksumOk(mem, p, RSDP_V1_SIZE)
        else ChecksumOk(mem, p, U32(mem, p + RSDP_LENGTH)))
  }

  /** The search for a root pointer at p, p + 4, ... below end. */
  function RsdpScan(mem: Mem, p: nat, end: nat): Option<nat>
    decreases end - p
  {
    if p >= end then None
    else if IsRsdp(mem, p) then Some(p)
    else RsdpScan(mem, p + 4, end)
  }

  /**
   * The search finds the first root pointer on the 4-byte grid of the
   * window; a signature whose checksum fails is passed over, and nothing
   * is found only when no grid position qualifies.
   */
  lemma {:induction false} RsdpScanFindsFirst(mem: Mem, p: nat, end: nat)
    ensures var r := RsdpScan(mem, p, end);
      r.Some? ==> p <= r.value < end && (r.value - p) % 4 == 0 && IsRsdp(mem, r.value)
    ensures var r := RsdpScan(mem, p, end);
      forall q :: p <= q < (if r.Some? then r.value else end) && (q - p) % 4 == 0 ==> !IsRsdp(mem, q)
    decreases end - p
  {
    if p < end && !IsRsdp(mem, p) {
      RsdpScanFindsFirst(mem, p + 4, end);
      var r := RsdpScan(mem, p, end);
      forall q | p <= q < (if r.Some? then r.value else end) && (q - p) % 4 == 0
        ensures !IsRsdp(mem, q)
      {
        if q != p {
          GridStep(p, q, 4);
        }
      }
      if r.Some? {
        GridStep(p, r.value, 4);
      }
    }
  }

  /**
   * The test of scan_for_rsdp at one address: the signature, then the
   * checksum its revision selects.
   */
  method RsdpAt(mem: Mem, a: nat) returns (found: bool)
    ensures found == IsRsdp(mem, a)
  {
    found := false;
    if U32(mem, a) == RSDP_SIGNATURE {
      if ByteAt(mem, a + RSDP_REVISION) == 0 {
        var sum := Checksum(mem, a, RSDP_V1_SIZE);
        found := sum == 0;
      } else {
        var sum := Checksum(mem, a, U32(mem, a + RSDP_LENGTH));
        found := sum == 0;
      }
    }
  }

  /** scan_for_rsdp(addr, length): every 4 bytes from addr while below addr + length. */
  method ScanForRsdp(mem: Mem, addr: nat, length: nat) returns (rp: Option<nat>)
    ensures rp == RsdpScan(mem, addr, addr + length)
  {
    var end := addr + length;
    var a := addr;
    while a < end
      invariant addr <= a
      invariant RsdpScan(mem, a, end) == RsdpScan(mem, addr, end)
      decreases end - a
    {
      var found := RsdpAt(mem, a);
      if found {
        return Some(a);
      }
      a := a + 4;
    }
    return None;
  }
}
