/**
 * Machine types shared by the branch prediction unit: the simulator's `Addr`
 * is an unsigned 32-bit integer, so address arithmetic wraps modulo 2^32.
 */
module Types {

  const AddrSpace: int := 0x1_0000_0000

  newtype Addr = x: int | 0 <= x < AddrSpace

  /** Size of one instruction, the stride of the fall-through address. */
  const InstrSize: int := 4

  /** `PC + 4` on a 32-bit `Addr`: the next sequential instruction, wrapping at 2^32. */
  function Fallthrough(pc: Addr): (r: Addr)
    ensures pc as int + InstrSize < AddrSpace ==> r as int == pc as int + InstrSize
    ensures pc as int + InstrSize >= AddrSpace ==> r as int == pc as int + InstrSize - AddrSpace
    ensures r != pc
  {
    ((pc as int + InstrSize) % AddrSpace) as Addr
  }
}
