/**
 * Byte layouts and constants of the firmware structures read by the
 * discovery code. The C structures live in smp.h, which is not part of this
 * model; the offsets below are those of the Intel MultiProcessor
 * Specification 1.4 (sections 4.1 to 4.3) and of ACPI (sections 5.2.5,
 * 5.2.6 and 5.2.12), which those structures follow field for field.
 */
module Layout {
  import opened Memory

  /** Size of the processor registry (MAX_CPUS). */
  const MAX_CPUS: nat := 32

  // Signatures, compared as one little-endian 32-bit word.
  const FP_SIGNATURE: int := Sig('_', 'M', 'P', '_')
  const MPC_SIGNATURE: int := Sig('P', 'C', 'M', 'P')
  /** Only the first four bytes of "RSD PTR " are compared. */
  const RSDP_SIGNATURE: int := Sig('R', 'S', 'D', ' ')
  const RSDT_SIGNATURE: int := Sig('R', 'S', 'D', 'T')
  const XSDT_SIGNATURE: int := Sig('X', 'S', 'D', 'T')
  const MADT_SIGNATURE: int := Sig('A', 'P', 'I', 'C')

  // MP floating pointer structure (16 bytes).
  const FP_SIZE: nat := 16
  const FP_PHYS_ADDR: nat := 4
  const FP_LENGTH: nat := 8
  const FP_SPEC_REV: nat := 9
  const FP_FEATURE0: nat := 11

  // MP configuration table header, also used to read the MADT header.
  const MPC_LENGTH: nat := 4        // 16-bit base table length
  const MPC_LAPIC_ADDR: nat := 36   // 32-bit local APIC address
  const MPC_HEADER_SIZE: nat := 44

  // MP configuration table entries: type byte, then a fixed-size body.
  const MP_PROCESSOR: int := 0
  const MP_BUS: int := 1
  const MP_IOAPIC: int := 2
  const MP_INTSRC: int := 3
  const MP_LINTSRC: int := 4
  const MP_PROCESSOR_SIZE: nat := 20
  const MP_BUS_SIZE: nat := 8
  const MP_IOAPIC_SIZE: nat := 8
  const MP_INTSRC_SIZE: nat := 8
  const MP_LINTSRC_SIZE: nat := 8
  // Processor entry fields.
  const MP_APIC_ID: nat := 1
  const MP_APIC_VER: nat := 2
  const MP_CPU_FLAG: nat := 3

  // ACPI Root System Description Pointer.
  const RSDP_REVISION: nat := 15
  const RSDP_RSDT: nat := 16
  const RSDP_LENGTH: nat := 20
  const RSDP_XSDT: nat := 24        // low 32 bits of the 64-bit XSDT address
  const RSDP_V1_SIZE: nat := 20

  // ACPI system description table header (RSDT, XSDT).
  const SDT_LENGTH: nat := 4
  const SDT_HEADER_SIZE: nat := 36
  /** The code steps through the RSDT and the XSDT alike by 4 bytes. */
  const SDT_POINTER_STRIDE: nat := 4

  // MADT processor local APIC entry.
  const MADT_TYPE: nat := 0
  const MADT_ENTRY_LENGTH: nat := 1
  const MADT_APIC_ID: nat := 3
  const MADT_FLAGS: nat := 4

  // Legacy BIOS data: the EBDA segment word and the scanned windows.
  const EBDA_SEGMENT_WORD: nat := 0x40E
  const DEFAULT_APIC_BASE: int := 0xFEE0_0000
}
