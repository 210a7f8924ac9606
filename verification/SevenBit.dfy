/** Seven-bit values in a byte whose top bit is a flag of its own. */
module SevenBit {
  import opened Words

  function WithTop(c: byte): byte { c | 0x80 }
  function Low7(b: byte): byte { b & 0x7f }
  predicate TopBit(b: byte) { b & 0x80 != 0 }
  predicate Seven(c: byte) { c & 0x80 == 0 }

  lemma TopLaws(c: byte)
    requires Seven(c)
    ensures !TopBit(c) && Low7(c) == c && TopBit(WithTop(c)) && Low7(WithTop(c)) == c
  {}

  lemma NextSeven(b: byte)
    requires Seven(b) && b != 127
    ensures Seven(b + 1)
  {}

  lemma {:induction false} SevenByteAt(i: nat)
    requires i < 128
    ensures Seven(ByteAt(i))
  {
    if i > 0 {
      hide Seven;
      SevenByteAt(i - 1);
      var b := ByteAt(i - 1);
      IndexByteAt(i - 1);
      IndexByteAt(127);
      NextByte(b);
      NextSeven(b);
      IndexByteAt(i);
      assert Index(b + 1) == i;
      ByteAtIndex(b + 1);
    } else {
      assert ByteAt(0) == 0;
    }
  }
}
