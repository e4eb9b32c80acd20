/** Machine integers and bytes. */
module Machine {
  const U64_MAX := 0xFFFF_FFFF_FFFF_FFFF

  const I64_MAX := 0x7FFF_FFFF_FFFF_FFFF

  type Byte = b: int | 0 <= b < 256

  type Bytes = seq<Byte>
}
