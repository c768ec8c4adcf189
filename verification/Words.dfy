// The unsigned integers of the sources. Arithmetic is exact; where the sources can wrap, the model
// says so in place.
module Words {
  type u32 = x: int | 0 <= x < 0x1_0000_0000
  type u64 = x: int | 0 <= x < 0x1_0000_0000_0000_0000

  const MaxU64: u64 := 0xFFFF_FFFF_FFFF_FFFF
}
