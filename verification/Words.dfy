/** How many values an unsigned machine word has. */
module Words {
  const Word32: nat := 0x1_0000_0000
  const Word64: nat := 0x1_0000_0000_0000_0000
}
