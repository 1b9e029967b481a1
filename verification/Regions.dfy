/** What the memory pool sees of an RdmaMemoryRegion: which object it is, which
    buffer it wraps, how long its registration is, how it came about and in
    which protection domain it was registered. */
module Regions {

  const UINT32: nat := 0x1_0000_0000

  datatype Region = Region(ptr: nat, addr: nat, length: nat, user: bool, temp: bool, domain: nat) {
    /** getLength() narrows the registered length to 32 bits. */
    function Length32(): nat {
      length % UINT32
    }
  }
}
