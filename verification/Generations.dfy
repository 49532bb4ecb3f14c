/** Generations of recycled slots: 32 bits wide, never the invalid generation zero. */
module Generations {

  /** How many generations a slot goes through before they repeat. */
  const GENERATIONS := 0xFFFF_FFFF

  function NextGeneration(g: nat): (r: nat)
    ensures 1 <= g <= GENERATIONS ==> 1 <= r <= GENERATIONS
  {
    var next := (g + 1) % 0x1_0000_0000;
    if next == 0 then 1 else next
  }
}
