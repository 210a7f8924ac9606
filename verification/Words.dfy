/** Bytes and 32-bit words.  Proofs about whole words hide the bodies below and use the laws instead,
    so that the solver never mixes bit-level reasoning with recursion. */
module Words {
  type byte = bv8
  type word = bv32

  function Xor(x: word, y: word): word { x ^ y }
  function Not(x: word): word { !x }
  function Shr8(x: word): word { x >> 8 }
  function Shl8(x: word): word { x << 8 }

  function Widen(b: byte): word { b as word }
  function Byte0(x: word): byte { (x & 0xff) as byte }
  function Byte1(x: word): byte { ((x >> 8) & 0xff) as byte }
  function Byte2(x: word): byte { ((x >> 16) & 0xff) as byte }
  function Byte3(x: word): byte { (x >> 24) as byte }

  /** A 32-bit load on a little-endian machine. */
  function LittleWord(b0: byte, b1: byte, b2: byte, b3: byte): word {
    (b0 as word) | (b1 as word << 8) | (b2 as word << 16) | (b3 as word << 24)
  }

  /** A 32-bit load on a big-endian machine. */
  function BigWord(b0: byte, b1: byte, b2: byte, b3: byte): word {
    (b0 as word << 24) | (b1 as word << 16) | (b2 as word << 8) | (b3 as word)
  }

  lemma XorAssoc(x: word, y: word, z: word)
    ensures Xor(Xor(x, y), z) == Xor(x, Xor(y, z))
  {}

  lemma XorComm(x: word, y: word)
    ensures Xor(x, y) == Xor(y, x)
  {}

  lemma XorZero(x: word)
    ensures Xor(x, 0) == x && Xor(0, x) == x
  {}

  lemma XorSelf(x: word, y: word)
    ensures Xor(x, Xor(x, y)) == y
  {}

  lemma NotIsXor(x: word)
    ensures Not(x) == Xor(x, 0xffffffff) && Not(Not(x)) == x
  {}

  lemma ByteIndex(b: byte)
    ensures (b as int) as byte == b
  {}

  /** Bytes as table indexes, and back. */
  function Index(b: byte): (i: nat)
    ensures i < 256
  {
    b as int
  }

  function ByteAt(i: nat): byte
    requires i < 256
  {
    i as byte
  }

  lemma ByteAtIndex(b: byte)
    ensures ByteAt(Index(b)) == b
  {}

  lemma NextByte(b: byte)
    requires b != 255
    ensures (b + 1) as int == b as int + 1
  {}

  lemma {:induction false} ByteOfInt(i: nat) returns (b: byte)
    requires i < 256
    ensures b as int == i
  {
    if i == 0 {
      b := 0;
    } else {
      var c := ByteOfInt(i - 1);
      NextByte(c);
      b := c + 1;
    }
  }

  lemma IndexByteAt(i: nat)
    requires i < 256
    ensures Index(ByteAt(i)) == i
  {
    var b := ByteOfInt(i);
    ByteIndex(b);
  }

  lemma LittleWordBytes(b0: byte, b1: byte, b2: byte, b3: byte)
    ensures var w := LittleWord(b0, b1, b2, b3);
      Byte0(w) == b0 && Byte1(w) == b1 && Byte2(w) == b2 && Byte3(w) == b3
  {}

  lemma BytesOfShifts(w: word)
    ensures Byte1(w) == Byte0(Shr8(w)) && Byte2(w) == Byte0(Shr8(Shr8(w)))
    ensures Widen(Byte3(w)) == Shr8(Shr8(Shr8(w)))
  {}
}
