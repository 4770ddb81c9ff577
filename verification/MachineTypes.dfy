/** The integer types of the C programs. */
module MachineTypes {
  type Byte = b: int | 0 <= b < 0x100

  type Word16 = w: int | 0 <= w < 0x1_0000

  type Word32 = w: int | 0 <= w < 0x1_0000_0000

  const INT_MAX := 0x7FFF_FFFF

  type Int32 = x: int | -0x8000_0000 <= x <= 0x7FFF_FFFF
}
