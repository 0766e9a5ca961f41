/** The address rules that both buses and the memories of their targets share. */
module AddressMap {
  const PORT_SPAN: nat := 0x1000_0000
  const SPACE: nat := 0x1_0000_0000

  /** Bits 31 to 28 of the address; higher bits are dropped. */
  function Decode(address: nat): nat { (address % SPACE) / PORT_SPAN }

  /** Bits 27 to 0 of the address. */
  function Mask(address: nat): nat { address % PORT_SPAN }

  /** The address test of a target's memory: an access must end before the last byte. */
  predicate AccessOk(size: nat, address: nat, length: nat) {
    address < size && address + length < size
  }
}
