/** The bounds of the machine integers that the program narrows to. */
module MachineIntegers {
  const INT32_MIN: int := -0x8000_0000
  const INT32_MAX: int := 0x7fff_ffff
  const UINT32_MAX: int := 0xffff_ffff
  const TWO_TO_64: int := 0x1_0000_0000_0000_0000
}
