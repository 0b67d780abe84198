/**
 * How many low-order bits of a local APIC id tell sibling hyper-threads of
 * one core apart (logical_CPU_bits). The CPUID instruction is not modelled:
 * its outputs are a CpuId value, and each leaf's registers are consulted
 * only under the same guards under which the code executes that leaf.
 */
module Topology {
  import opened Memory

  datatype CpuId = CpuId(
    htt: bool,          // feature flag: hyper-threading present
    vendor0: char,      // first character of the vendor string ('A'uthenticAMD, 'G'enuineIntel)
    maxCpuid: u32,      // highest standard leaf
    maxXCpuid: u32,     // highest extended leaf
    logicalCount: byte, // logical processor count field of leaf 1
    ecx80000008: u32,   // ECX of leaf 0x80000008
    eaxB: u32,          // EAX, EBX, ECX of leaf 0xB, sub-leaf 0
    ebxB: u32,
    ecxB: u32,
    eax4: u32)          // EAX of leaf 4, sub-leaf 0

  /** The number of bits needed to count t threads: the least b with 2^b >= t. */
  function CeilLog2(t: nat): nat
    requires t >= 1
    decreases t
  {
    if t == 1 then 0 else 1 + CeilLog2((t + 1) / 2)
  }

  lemma {:induction false} CeilLog2Covers(t: nat)
    requires t >= 1
    ensures Pow2(CeilLog2(t)) >= t
    ensures CeilLog2(t) == 0 || Pow2(CeilLog2(t) - 1) < t
    decreases t
  {
    if t > 1 {
      CeilLog2Covers((t + 1) / 2);
    }
  }

  lemma {:induction false} Pow2Monotone(a: nat, b: nat)
    requires a <= b
    ensures Pow2(a) <= Pow2(b)
    decreases b
  {
    if a < b {
      Pow2Monotone(a, b - 1);
    }
  }

  /** CeilLog2(t) is the only b with 2^(b-1) < t <= 2^b. */
  lemma CeilLog2Unique(t: nat, b: nat)
    requires t >= 1
    requires Pow2(b) >= t && (b == 0 || Pow2(b - 1) < t)
    ensures b == CeilLog2(t)
  {
    var c := CeilLog2(t);
    CeilLog2Covers(t);
    if b < c {
      Pow2Monotone(b, c - 1);
    } else if b > c {
      Pow2Monotone(c, b - 1);
    }
  }

  /** Up to 2^b threads need at most b bits. */
  lemma CeilLog2AtMost(t: nat, b: nat)
    requires 1 <= t <= Pow2(b)
    ensures CeilLog2(t) <= b
  {
    CeilLog2Covers(t);
  }

  lemma Pow2Of32()
    ensures Pow2(32) == 0x1_0000_0000
  {
    assert Pow2(2) == 4;
    assert Pow2(4) == 16;
    assert Pow2(6) == 64;
    assert Pow2(8) == 256;
    assert Pow2(10) == 1024;
    assert Pow2(12) == 0x1000;
    assert Pow2(14) == 0x4000;
    assert Pow2(16) == 0x1_0000;
    assert Pow2(18) == 0x4_0000;
    assert Pow2(20) == 0x10_0000;
    assert Pow2(22) == 0x40_0000;
    assert Pow2(24) == 0x100_0000;
    assert Pow2(26) == 0x400_0000;
    assert Pow2(28) == 0x1000_0000;
    assert Pow2(30) == 0x4000_0000;
  }

  lemma HighBitClear(k: nat, p: nat)
    requires p >= 1 && k < 2 * p && (k / p) % 2 == 0
    ensures k < p
  {
  }

  lemma HighBitSet(k: nat, p: nat)
    requires p >= 1 && k < 2 * p && (k / p) % 2 == 1
    ensures p <= k
  {
  }

  /**
   * The search of smp.c for the highest set bit of 2 * threadCount - 1,
   * counting down from bit 31; that bit's index is the least b with
   * 2^b >= threadCount.
   */
  method CoverBits(threadCount: nat) returns (bits: nat)
    requires 1 <= threadCount <= 0x8000_0000
    ensures bits == CeilLog2(threadCount)
    ensures Pow2(bits) >= threadCount && (bits == 0 || Pow2(bits - 1) < threadCount)
  {
    var k := threadCount * 2 - 1;
    bits := 31;
    Pow2Of32();
    while (k / Pow2(bits)) % 2 == 0 && bits > 0
      invariant 0 <= bits <= 31
      invariant k < Pow2(bits + 1)
    {
      HighBitClear(k, Pow2(bits));
      bits := bits - 1;
    }
    if bits > 0 {
      HighBitSet(k, Pow2(bits));
    }
    assert Pow2(bits) <= k < 2 * Pow2(bits);
    CeilLog2Unique(threadCount, bits);
  }

  /** 0 threads derive no width; otherwise the covering width. */
  function CoverOrZero(t: nat): nat {
    if t > 0 then CeilLog2(t) else 0
  }

  /**
   * Unsigned division, kept in a function of its own so that the proofs
   * of its callers do not reason about the division; a shift right by k
   * is Quotient(a, Pow2(k)).
   */
  function Quotient(a: nat, b: nat): nat
    requires b >= 1
  {
    a / b
  }

  /**
   * threadCount of the AMD path: the logical count shifted right by the
   * core-id width of leaf 0x80000008, or divided by its core count when
   * that width is 0.
   */
  function AmdThreadCount(c: CpuId): nat {
    var coreBits := (c.ecx80000008 / 0x1000) % 0x10;
    if coreBits != 0 then Quotient(c.logicalCount, Pow2(coreBits))
    else Quotient(c.logicalCount, c.ecx80000008 % 0x100 + 1)
  }

  /** threadCount of the Intel path without leaf 0xB: over the core count of leaf 4, if present. */
  function IntelThreadCount(c: CpuId): nat {
    if c.maxCpuid >= 4 then Quotient(c.logicalCount, (c.eax4 / 0x400_0000) % 0x40 + 1)
    else c.logicalCount
  }

  /**
   * The value of logical_CPU_bits: 0 without hyper-threading or for an
   * unknown vendor; for Intel with a non-zero leaf-0xB EBX, the level
   * shift when that level is the SMT level (type 1), else 0; otherwise
   * the covering width of the derived thread count.
   */
  function LogicalBits(c: CpuId): nat {
    if !c.htt then 0
    else if c.vendor0 == 'A' then
      if c.maxXCpuid >= 0x8000_0008 then CoverOrZero(AmdThreadCount(c)) else 0
    else if c.vendor0 == 'G' then
      if c.maxCpuid >= 0xB && c.ebxB != 0 then
        if (c.ecxB / 0x100) % 0x100 == 1 then c.eaxB % 0x10 else 0
      else CoverOrZero(IntelThreadCount(c))
    else 0
  }

  lemma {:induction false} ThreadCountBound(c: CpuId)
    ensures AmdThreadCount(c) <= 255 && IntelThreadCount(c) <= 255
  {
  }

  /** The derived width never exceeds 15 bits, so the masks of the MADT parser are well defined. */
  lemma LogicalBitsBound(c: CpuId)
    ensures LogicalBits(c) <= 15
  {
    ThreadCountBound(c);
    assert Pow2(8) == 256;
    if AmdThreadCount(c) > 0 {
      CeilLog2AtMost(AmdThreadCount(c), 8);
    }
    if IntelThreadCount(c) > 0 {
      CeilLog2AtMost(IntelThreadCount(c), 8);
    }
  }

  /**
   * The derivation of logical_CPU_bits at the start of parse_madt; the
   * register fields are those of the CPUID data, the highest-bit search
   * is CoverBits.
   */
  method LogicalCpuBits(c: CpuId) returns (bits: nat)
    ensures bits == LogicalBits(c)
    ensures bits <= 15
    ensures !c.htt ==> bits == 0
  {
    ThreadCountBound(c);
    bits := 0;
    if !c.htt {
      bits := 0;
    } else if c.vendor0 == 'A' {
      if c.maxXCpuid >= 0x8000_0008 {
        var threadCount := AmdThreadCount(c);
        if threadCount > 0 {
          bits := CoverBits(threadCount);
        }
      }
    } else if c.vendor0 == 'G' {
      var eax, ebx, ecx := 0, 0, 0;
      if c.maxCpuid >= 0xB {
        eax, ebx, ecx := c.eaxB, c.ebxB, c.ecxB;
      }
      if ebx != 0 {
        var levelType := (ecx / 0x100) % 0x100;
        var levelShift := eax % 0x10;
        if levelType == 1 {
          bits := levelShift;
        }
      } else {
        var threadCount := IntelThreadCount(c);
        if threadCount > 0 {
          bits := CoverBits(threadCount);
        }
      }
    }
    LogicalBitsBound(c);
  }
}
