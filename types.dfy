/** Machine-level types shared by the GEM object model. */
module GemTypes {

  /** A 32-bit unsigned value (UINT, UINT32 and ULONG on the targets GEM is built for). */
  newtype UInt32 = x: int | 0 <= x < 0x1_0000_0000

  const MaxUInt32: UInt32 := 0xffff_ffff

  /** An interface identity: a plain 32-bit value compared for exact equality. */
  type InterfaceId = UInt32

  /** The identity of the universal interface XGeneric, which every object answers. */
  const GenericIId: InterfaceId := 0xffff_ffff
}
