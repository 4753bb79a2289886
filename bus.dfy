/**
 * The memory bus the CPU core calls through `DoMemoryAccess`. Its address map,
 * devices and timing are outside the core; here it is a partial map from
 * word-aligned addresses to words. An access succeeds exactly when the word
 * that holds the addressed lane is mapped, and a failed access is what the
 * core sees as a bus error.
 */
module Bus {
  import opened Wrappers

  datatype AccessSize = Byte | HalfWord | Word

  datatype Memory = Memory(words: map<bv32, bv32>)

  /** The address of the word holding the addressed lane. */
  function WordAddress(addr: bv32): bv32 {
    addr & 0xFFFF_FFFC
  }

  predicate Mapped(m: Memory, addr: bv32) {
    WordAddress(addr) in m.words
  }

  /** Bit position of the accessed lane inside its word (little-endian). */
  function LaneShift(size: AccessSize, addr: bv32): (n: nat)
    ensures n == 0 || n == 8 || n == 16 || n == 24
    ensures size == HalfWord ==> n <= 16
    ensures size == Word ==> n == 0
  {
    match size
    case Byte => if addr & 3 == 0 then 0 else if addr & 3 == 1 then 8 else if addr & 3 == 2 then 16 else 24
    case HalfWord => if addr & 2 == 0 then 0 else 16
    case Word => 0
  }

  function LaneMask(size: AccessSize): bv32 {
    match size
    case Byte => 0xFF
    case HalfWord => 0xFFFF
    case Word => 0xFFFF_FFFF
  }

  /** `DoMemoryAccess<Read, size>`: the lane, zero-extended, or None on a bus error. */
  function Read(m: Memory, size: AccessSize, addr: bv32): (r: Option<bv32>)
    ensures r.Some? <==> Mapped(m, addr)
  {
    if Mapped(m, addr) then Some((m.words[WordAddress(addr)] >> LaneShift(size, addr)) & LaneMask(size))
    else None
  }

  /**
   * `DoMemoryAccess<Write, size>`: the memory with the lane replaced by the
   * low bits of `value`, or None on a bus error. A write never maps or unmaps
   * a word.
   */
  function Write(m: Memory, size: AccessSize, addr: bv32, value: bv32): (r: Option<Memory>)
    ensures r.Some? <==> Mapped(m, addr)
    ensures r.Some? ==> r.value.words.Keys == m.words.Keys
  {
    if Mapped(m, addr) then
      var wa := WordAddress(addr);
      Some(Memory(m.words[wa := MergeLane(m.words[wa], LaneMask(size), LaneShift(size, addr), value)]))
    else None
  }

  /** The word `w` with the lane `mask << sh` replaced by the low bits of `value`. */
  function MergeLane(w: bv32, mask: bv32, sh: nat, value: bv32): bv32
    requires sh <= 24
  {
    (w & !(mask << sh)) | ((value << sh) & (mask << sh))
  }
}
