/** Fixed-width unsigned integers and the byte orders used on the wire.
    Machine integers are mathematical integers confined by subset types; every
    place where the Go code can wrap around uses an explicit modulo. */
module Bytes {
  type u8 = x: int | 0 <= x < 0x100
  type u16 = x: int | 0 <= x < 0x1_0000
  type u32 = x: int | 0 <= x < 0x1_0000_0000

  /** uint16 addition and subtraction, with wrap-around. */
  function Add16(a: u16, b: u16): u16 { (a as int + b as int) % 0x1_0000 }
  function Sub16(a: u16, b: u16): u16 { (a as int - b as int) % 0x1_0000 }

  /** Big-endian 16-bit values (Modbus). */
  function PutBE16(v: u16): seq<u8> { [v / 256, v % 256] }

  function GetBE16(b: seq<u8>, off: nat): u16
    requires off + 2 <= |b|
  {
    256 * (b[off] as int) + b[off + 1]
  }

  /** Little-endian 16- and 32-bit values (CIP, EtherNet/IP). */
  function PutLE16(v: u16): seq<u8> { [v % 256, v / 256] }

  function GetLE16(b: seq<u8>, off: nat): u16
    requires off + 2 <= |b|
  {
    b[off] + 256 * (b[off + 1] as int)
  }

  function PutLE32(v: u32): seq<u8> {
    PutLE16(v % 0x1_0000) + PutLE16(v / 0x1_0000)
  }

  function GetLE32(b: seq<u8>, off: nat): u32
    requires off + 4 <= |b|
  {
    GetLE16(b, off) + 0x1_0000 * (GetLE16(b, off + 2) as int)
  }
}
