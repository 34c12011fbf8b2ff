/** 32-bit words and bytes as the LM32 and the FPGA blocks see them; the CPU is big-endian. */
module Words {
  type byte = bv8
  type word = bv32

  // Addition modulo 2^32.

  function Add(x: word, y: word): word { x + y }

  function Sum4(x: word, y: word, z: word, u: word): word { Add(Add(Add(x, y), z), u) }

  function Sum5(x: word, y: word, z: word, u: word, t: word): word { Add(Sum4(x, y, z, u), t) }

  /** A big-endian 32-bit load of four bytes. */
  function Load(b: seq<byte>): word
    requires |b| == 4
  {
    (b[0] as word << 24) | (b[1] as word << 16) | (b[2] as word << 8) | b[3] as word
  }

  /** A big-endian 32-bit store. */
  function Store(w: word): (b: seq<byte>)
    ensures |b| == 4
  {
    [((w >> 24) & 0xff) as byte, ((w >> 16) & 0xff) as byte, ((w >> 8) & 0xff) as byte, (w & 0xff) as byte]
  }

  lemma LoadStore(w: word)
    ensures Load(Store(w)) == w
  {
    LoadStoreBits(w);
  }

  lemma LoadStoreBits(w: word)
    ensures (((w >> 24) & 0xff) as byte as word << 24) | (((w >> 16) & 0xff) as byte as word << 16)
            | (((w >> 8) & 0xff) as byte as word << 8) | (w & 0xff) as byte as word == w
  {}
}
