/** The examples of section 5.7 of RFC 6455. */
module WsSamples {
  import opened Words
  import opened Octets
  import opened Options
  import opened WsFrame

  const HELLO: seq<byte> := [0x48, 0x65, 0x6c, 0x6c, 0x6f]
  const MASK: Key := [0x37, 0xfa, 0x21, 0x3d]

  lemma MaskedHello()
    ensures Masked(MASK, 0, HELLO) == [0x7f, 0x9f, 0x4d, 0x51, 0x58]
  {
    var m := Masked(MASK, 0, HELLO);
    assert m[0] == 0x7f && m[1] == 0x9f && m[2] == 0x4d && m[3] == 0x51 && m[4] == 0x58;
  }

  lemma ShortLengths()
    ensures ByteAt(5) == 5 && ByteAt(3) == 3 && ByteAt(2) == 2
  {}

  /** A single text, the same in fragments, a ping and its pong, unmasked and masked. */
  lemma HelloFrames()
    ensures Wire(Frame(true, 1, None, HELLO)) == [0x81, 0x05, 0x48, 0x65, 0x6c, 0x6c, 0x6f]
    ensures Wire(Frame(true, 1, Some(MASK), HELLO))
      == [0x81, 0x85, 0x37, 0xfa, 0x21, 0x3d, 0x7f, 0x9f, 0x4d, 0x51, 0x58]
    ensures Wire(Frame(false, 1, None, HELLO[..3])) == [0x01, 0x03, 0x48, 0x65, 0x6c]
    ensures Wire(Frame(true, 0, None, HELLO[3..])) == [0x80, 0x02, 0x6c, 0x6f]
    ensures Wire(Frame(true, 9, None, HELLO)) == [0x89, 0x05, 0x48, 0x65, 0x6c, 0x6c, 0x6f]
    ensures Wire(Frame(true, 10, Some(MASK), HELLO))
      == [0x8a, 0x85, 0x37, 0xfa, 0x21, 0x3d, 0x7f, 0x9f, 0x4d, 0x51, 0x58]
  {
    hide Masked, ByteAt;
    ShortLengths();
    MaskedHello();
  }

  /** Binary data of 256 bytes and of 64 KiB. */
  lemma LongHeaders(p: seq<byte>)
    ensures |p| == 256 ==> Header(Frame(true, 2, None, p)) == [0x82, 0x7e, 0x01, 0x00]
    ensures |p| == 65536 ==> Header(Frame(true, 2, None, p)) == [0x82, 0x7f, 0, 0, 0, 0, 0, 0x01, 0, 0]
  {
    hide Shift8, ByteAt, OctetsFrom;
    if |p| == 256 {
      ShiftsOf(256, 1);
      TwoOctetsOf(256);
    } else if |p| == 65536 {
      ShiftsOf(65536, 2);
      TwoOctetsOf(65536);
      EightOctetsOf(65536);
    }
    SmallBytes();
  }

  lemma SmallBytes()
    ensures ByteAt(0) == 0 && ByteAt(1) == 1
  {}

  /** The octets of 256 to the k. */
  lemma ShiftsOf(n: nat, k: nat)
    requires (n == 256 && k == 1) || (n == 65536 && k == 2)
    ensures Shift8(n, 0) % 256 == 0 && (k == 2 ==> Shift8(n, 1) % 256 == 0) && Shift8(n, k) == 1
    ensures forall j | k < j < 8 :: Shift8(n, j) == 0
  {
    Shift8Next(n, 0); Shift8Next(n, 1); Shift8Next(n, 2); Shift8Next(n, 3);
    Shift8Next(n, 4); Shift8Next(n, 5); Shift8Next(n, 6);
  }

  lemma TwoOctetsOf(n: nat)
    ensures OctetsFrom(n, 2) == [Octet(n, 1), Octet(n, 0)]
  {
    hide Octet;
    assert OctetsFrom(n, 1) == [Octet(n, 0)];
  }

  lemma OneMoreOctet(n: nat, k: nat)
    ensures OctetsFrom(n, k + 1) == [Octet(n, k)] + OctetsFrom(n, k)
  {
    hide Octet;
  }

  lemma EightOctetsOf(n: nat)
    ensures OctetsFrom(n, 8) == [Octet(n, 7), Octet(n, 6), Octet(n, 5), Octet(n, 4)]
                                + [Octet(n, 3), Octet(n, 2), Octet(n, 1), Octet(n, 0)]
  {
    hide Octet, OctetsFrom;
    TwoOctetsOf(n);
    OneMoreOctet(n, 2); OneMoreOctet(n, 3); OneMoreOctet(n, 4);
    OneMoreOctet(n, 5); OneMoreOctet(n, 6); OneMoreOctet(n, 7);
    TwoInFront(Octet(n, 3), Octet(n, 2), [Octet(n, 1), Octet(n, 0)]);
    FourInFront(Octet(n, 7), Octet(n, 6), Octet(n, 5), Octet(n, 4), OctetsFrom(n, 4));
    assert OctetsFrom(n, 4) == [Octet(n, 3), Octet(n, 2)] + [Octet(n, 1), Octet(n, 0)];
    TwoAndTwo(Octet(n, 3), Octet(n, 2), Octet(n, 1), Octet(n, 0));
  }

  lemma TwoAndTwo(a: byte, b: byte, c: byte, d: byte)
    ensures [a, b] + [c, d] == [a, b, c, d]
  {}

  lemma TwoInFront(a: byte, b: byte, s: seq<byte>)
    ensures [a] + ([b] + s) == [a, b] + s
  {}

  lemma FourInFront(a: byte, b: byte, c: byte, d: byte, s: seq<byte>)
    ensures [a] + ([b] + ([c] + ([d] + s))) == [a, b, c, d] + s
  {}
}
