/**
 * Physical memory as the discovery code sees it: a read-only array of
 * bytes indexed by physical address, read a byte, a 16-bit word or a
 * 32-bit word at a time (little endian, as on x86), and the byte checksum
 * that every firmware table must satisfy.
 */
module Memory {

  type byte = b: int | 0 <= b < 256
  type u16 = x: int | 0 <= x < 0x1_0000
  type u32 = x: int | 0 <= x < 0x1_0000_0000

  /** The first |mem| bytes of the physical address space. */
  type Mem = seq<byte>

  /** The byte at physical address a; addresses past the modelled memory read as 0. */
  function ByteAt(mem: Mem, a: nat): byte {
    if a < |mem| then mem[a] else 0
  }

  /** Little-endian 16-bit word at a. */
  function U16(mem: Mem, a: nat): u16 {
    ByteAt(mem, a) + 0x100 * ByteAt(mem, a + 1)
  }

  /** Little-endian 32-bit word at a. */
  function U32(mem: Mem, a: nat): u32 {
    U16(mem, a) + 0x1_0000 * U16(mem, a + 2)
  }

  /** Four ASCII characters read as one little-endian 32-bit word. */
  function Sig(c0: char, c1: char, c2: char, c3: char): int {
    c0 as int + 0x100 * c1 as int + 0x1_0000 * c2 as int + 0x100_0000 * c3 as int
  }

  function Pow2(n: nat): (r: nat)
    ensures r >= 1
  {
    if n == 0 then 1 else 2 * Pow2(n - 1)
  }

  /** Unsigned sum of the n bytes starting at a. */
  function ByteSum(mem: Mem, a: nat, n: nat): nat {
    if n == 0 then 0 else ByteSum(mem, a, n - 1) + ByteAt(mem, a + n - 1)
  }

  /** A table of n bytes at a is accepted when its bytes sum to 0 modulo 256. */
  predicate ChecksumOk(mem: Mem, a: nat, n: nat) {
    ByteSum(mem, a, n) % 256 == 0
  }

  /** checksum(): add up len bytes from addr and keep the low 8 bits of the sum. */
  method Checksum(mem: Mem, addr: nat, len: nat) returns (r: int)
    ensures 0 <= r < 256
    ensures r == ByteSum(mem, addr, len) % 256
    ensures r == 0 <==> ChecksumOk(mem, addr, len)
  {
    var sum := 0;
    var i := 0;
    while i < len
      invariant 0 <= i <= len
      invariant sum == ByteSum(mem, addr, i)
    {
      sum := sum + ByteAt(mem, addr + i);
      i := i + 1;
    }
    r := sum % 256;
  }

  /** Replacing one byte inside the summed range shifts the sum by exactly the change. */
  lemma {:induction false} ByteSumUpdate(mem: Mem, a: nat, n: nat, p: nat, v: byte)
    requires a <= p < a + n && p < |mem|
    ensures ByteSum(mem[p := v], a, n) == ByteSum(mem, a, n) + v - mem[p]
  {
    if p == a + n - 1 {
      ByteSumUnchanged(mem, a, n - 1, p, v);
    } else {
      ByteSumUpdate(mem, a, n - 1, p, v);
    }
  }

  /** Bytes outside the summed range do not affect the sum. */
  lemma {:induction false} ByteSumUnchanged(mem: Mem, a: nat, n: nat, p: nat, v: byte)
    requires p < |mem| && !(a <= p < a + n)
    ensures ByteSum(mem[p := v], a, n) == ByteSum(mem, a, n)
  {
    if n > 0 {
      ByteSumUnchanged(mem, a, n - 1, p, v);
    }
  }

  /**
   * Corrupting any single byte of a table whose checksum is valid makes
   * the checksum fail: the table is then rejected.
   */
  lemma CorruptedByteBreaksChecksum(mem: Mem, a: nat, n: nat, p: nat, v: byte)
    requires a <= p < a + n && p < |mem| && v != mem[p]
    requires ChecksumOk(mem, a, n)
    ensures !ChecksumOk(mem[p := v], a, n)
  {
    ByteSumUpdate(mem, a, n, p, v);
    assert -256 < v - mem[p] < 256 && v != mem[p];
  }
}
