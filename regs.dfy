/**
 * The register file (src/cpu/regs.rs): sixteen 8-bit registers V0..VF,
 * indexed by a byte that must be below 16.
 */
module Registers {
  import opened Types

  const COUNT: nat := 16

  class Regs {
    var regs: array<u8>

    ghost predicate Valid()
      reads this
    {
      regs.Length == COUNT
    }

    /** `Regs::new`: every register holds 0. */
    constructor ()
      ensures Valid() && fresh(regs)
      ensures regs[..] == seq(COUNT, _ => 0)
    {
      regs := new u8[COUNT](_ => 0);
    }

    /** `Index<u8>`: panics unless `index < 16`. */
    function Get(index: u8): u8
      reads this, regs
      requires Valid() && index < COUNT
    {
      regs[index]
    }

    /** `IndexMut<u8>`: writes one register, panics unless `index < 16`. */
    method Set(index: u8, value: u8)
      requires Valid() && index < COUNT
      modifies regs
      ensures regs[..] == old(regs[..])[index := value]
      ensures Get(index) == value
      ensures forall r: u8 :: r < COUNT && r != index ==> Get(r) == old(Get(r))
    {
      regs[index] := value;
    }
  }
}
