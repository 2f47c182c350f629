/**
 * Fixed-width unsigned integers and an optional value, shared by the
 * transport, peer and lobby models.
 */
module NetworkTypes {

  type uint8 = x: int | 0 <= x < 0x100
  type uint16 = x: int | 0 <= x < 0x1_0000
  type uint32 = x: int | 0 <= x < 0x1_0000_0000
  type uint64 = x: int | 0 <= x < 0x1_0000_0000_0000_0000

  const UINT64_MODULUS: int := 0x1_0000_0000_0000_0000

  datatype Option<+T> = None | Some(value: T)
}
