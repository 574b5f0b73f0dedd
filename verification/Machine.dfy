/** The machine's numbers: bytes, and arithmetic of 32-bit words that wraps around. */
module Machine {

  type byte = x: nat | x < 256

  /** How many values a half word and a word can have. */
  const HALF_WORD: nat := 0x1_0000
  const WORD: nat := 0x1_0000_0000

  function Min(a: nat, b: nat): nat { if a < b then a else b }

  /** Addition of 32-bit words. */
  function Add32(a: nat, b: nat): (r: nat)
    requires a < WORD && b < WORD
    ensures r < WORD && (r == a + b || r == a + b - WORD)
  {
    if a + b < WORD then a + b else a + b - WORD
  }

  function Sub32(a: nat, b: nat): (r: nat)
    requires a < WORD && b < WORD
    ensures r < WORD && (r == a - b || r == a - b + WORD)
  {
    if a >= b then a - b else a + WORD - b
  }
}
