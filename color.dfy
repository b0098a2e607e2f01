/** The embed colour of a relayed message: three bytes, drawn from a
    generator seeded with the user's id, packed into one 24-bit RGB value. */
module Color {

  type Byte = x: int | 0 <= x < 0x100

  /** `(r << 16) + (g << 8) + b`; for the non-negative values drawn here a
      left shift by `n` is a multiplication by `2^n`. */
  function GenColor(r: Byte, g: Byte, b: Byte): (c: int)
    ensures 0 <= c < 0x100_0000
  {
    r * 0x1_0000 + g * 0x100 + b
  }

  /** The three channels of a 24-bit colour value. */
  function Red(c: int): int { c / 0x1_0000 }
  function Green(c: int): int { c / 0x100 % 0x100 }
  function Blue(c: int): int { c % 0x100 }

  /** Each byte packed by `GenColor` can be read back from the colour. */
  lemma ChannelsOfGenColor(r: Byte, g: Byte, b: Byte)
    ensures Red(GenColor(r, g, b)) == r
    ensures Green(GenColor(r, g, b)) == g
    ensures Blue(GenColor(r, g, b)) == b
  {
    var c := GenColor(r, g, b);
    var gb := g * 0x100 + b;
    assert 0 <= gb < 0x1_0000;
    assert c == r * 0x1_0000 + gb;
    assert c / 0x1_0000 == r;
    assert c == (r * 0x100 + g) * 0x100 + b;
    assert c / 0x100 == r * 0x100 + g;
  }

  /** Every 24-bit value is the packing of its own three channels, so the
      packing is onto [0, 2^24). */
  lemma GenColorOfChannels(c: int)
    requires 0 <= c < 0x100_0000
    ensures 0 <= Red(c) < 0x100 && 0 <= Green(c) < 0x100 && 0 <= Blue(c) < 0x100
    ensures GenColor(Red(c), Green(c), Blue(c)) == c
  {
    var q := c / 0x100;
    assert c == q * 0x100 + Blue(c);
    assert q == Red(c) * 0x100 + Green(c);
  }
}
