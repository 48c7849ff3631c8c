/** The machine words of the C sources, as ranges of the natural numbers.
    Storing into a variable or field of one of these types makes the verifier
    prove that the value fits, that is, that the C word does not wrap. */
module Words {
  type u8 = x: nat | x < 0x100
  type u16 = x: nat | x < 0x1_0000
  type u32 = x: nat | x < 0x1_0000_0000

  const WORD: nat := 0x1_0000_0000
}
