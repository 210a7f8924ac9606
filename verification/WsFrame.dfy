/** WebSocket frames on the wire: section 5.2 of RFC 6455. */
module WsFrame {
  import opened Words
  import opened Octets
  import opened Options
  import opened SevenBit

  const CONTINUATION: byte := 0
  const TEXT: byte := 1
  const BINARY: byte := 2
  const CLOSE: byte := 8
  const PING: byte := 9
  const PONG: byte := 10

  type Key = k: seq<byte> | |k| == 4 witness [0, 0, 0, 0]

  /** The opcode nibble, the reserved bits and FIN of the first byte. */
  function OpOf(c: byte): byte { c & 0xf }
  function RsvOf(c: byte): byte { c & 0x70 }
  predicate FinOf(c: byte) { (c >> 7) & 1 != 0 }
  predicate IsControl(op: byte) { op & 8 != 0 }
  predicate Nibble(op: byte) { op & 0xf == op }

  function FirstByte(op: byte, fin: bool): byte { if fin then op | 0x80 else op }

  lemma FirstByteLaws(op: byte, fin: bool)
    requires Nibble(op)
    ensures OpOf(FirstByte(op, fin)) == op && RsvOf(FirstByte(op, fin)) == 0 && FinOf(FirstByte(op, fin)) == fin
  {}

  function Mix(b: byte, k: byte): byte { b ^ k }

  lemma MixTwice(b: byte, k: byte)
    ensures Mix(Mix(b, k), k) == b && Mix(b, 0) == b
  {}

  datatype Frame = Frame(fin: bool, opcode: byte, key: Option<Key>, payload: seq<byte>)

  const LIMIT63: nat := 0x8000_0000_0000_0000

  function WithFlag(c: byte, flag: bool): byte { if flag then WithTop(c) else c }

  /** The length in its shortest form, with the mask flag. */
  function LengthField(n: nat, masked: bool): seq<byte> {
    if n < 126 then [WithFlag(ByteAt(n), masked)]
    else if n < 65536 then [WithFlag(126, masked)] + OctetsFrom(n, 2)
    else [WithFlag(127, masked)] + OctetsFrom(n, 8)
  }

  /** Octets k - 1 to 0 of n: k bytes in network order. */
  function OctetsFrom(n: nat, k: nat): (r: seq<byte>)
    ensures |r| == k
    decreases k
  {
    if k == 0 then [] else [Octet(n, k - 1)] + OctetsFrom(n, k - 1)
  }

  /** Octet i of the transformed data: section 5.3. */
  function Masked(k: Key, i: nat, p: seq<byte>): (r: seq<byte>)
    ensures |r| == |p|
  {
    seq(|p|, j requires 0 <= j < |p| => Mix(p[j], k[(i + j) % 4]))
  }

  function KeyAndData(key: Option<Key>, p: seq<byte>): seq<byte> {
    match key
    case None => p
    case Some(k) => k + Masked(k, 0, p)
  }

  function Header(f: Frame): seq<byte> {
    [FirstByte(f.opcode, f.fin)] + LengthField(|f.payload|, f.key.Some?)
  }

  function Wire(f: Frame): seq<byte> {
    Header(f) + KeyAndData(f.key, f.payload)
  }

  function WireAll(fs: seq<Frame>): seq<byte>
    decreases |fs|
  {
    if fs == [] then [] else Wire(fs[0]) + WireAll(fs[1..])
  }

  /** Frames the sender may put on the wire. */
  predicate Legal(f: Frame) {
    Nibble(f.opcode) && |f.payload| < LIMIT63 && (IsControl(f.opcode) ==> |f.payload| < 126)
  }

  lemma MaskedNext(k: Key, i: nat, p: seq<byte>)
    requires p != []
    ensures Masked(k, i, p) == [Mix(p[0], k[i % 4])] + Masked(k, i + 1, p[1..])
  {
    hide Mix;
  }

  // ----- length octets, ored into place one by one

  function Pow256(k: nat): nat
    decreases k
  {
    if k == 0 then 1 else 256 * Pow256(k - 1)
  }

  lemma {:induction false} ShiftBelow(n: nat, k: nat)
    ensures Shift8(n, k) * Pow256(k) <= n
    decreases k
  {
    if k > 0 {
      ShiftBelow(n, k - 1);
      var q, p := Shift8(n, k), Pow256(k - 1);
      assert q * 256 <= Shift8(n, k - 1);
      assert (q * 256) * p <= Shift8(n, k - 1) * p;
      assert q * Pow256(k) == (q * 256) * p;
    }
  }

  lemma OctetIndex(n: nat, k: nat)
    ensures Index(Octet(n, k)) == Shift8(n, k) % 256
  {
    hide Index, ByteAt, Shift8;
    IndexByteAt(Shift8(n, k) % 256);
  }

  lemma OctetBelow(n: nat, k: nat)
    ensures Index(Octet(n, k)) * Pow256(k) <= n
  {
    hide Index, Octet, Shift8, Pow256;
    OctetIndex(n, k);
    ShiftBelow(n, k);
    assert (Shift8(n, k) % 256) * Pow256(k) <= Shift8(n, k) * Pow256(k);
  }

  /** n |= (size_t)c << 8 * k: octet k of n becomes its union with c. */
  function OrOctet(n: nat, c: byte, k: nat): nat {
    OctetBelow(n, k);
    n - Index(Octet(n, k)) * Pow256(k) + Index(Octet(n, k) | c) * Pow256(k)
  }

  lemma {:induction false} ShiftOfMultiple(x: nat, k: nat, i: nat)
    requires i <= k
    ensures Shift8(x * Pow256(k), i) == x * Pow256(k - i)
    decreases i
  {
    hide Pow256, Shift8;
    if i > 0 {
      ShiftOfMultiple(x, k, i - 1);
      PowNext(k - i);
      Shift8Next(x * Pow256(k), i - 1);
      Regrouped(x, Pow256(k - i));
    } else {
      ShiftNone(x * Pow256(k));
    }
  }

  lemma ShiftNone(n: nat)
    ensures Shift8(n, 0) == n
  {}

  lemma Regrouped(x: nat, p: nat)
    ensures x * (256 * p) == 256 * (x * p) && (256 * (x * p)) / 256 == x * p
  {}

  lemma OrZero(c: byte)
    ensures 0 | c == c
  {}

  /** Where the octet is still zero, or-ing adds. */
  lemma OrAdds(x: nat, c: byte, k: nat)
    ensures OrOctet(x * Pow256(k + 1), c, k) == x * Pow256(k + 1) + Index(c) * Pow256(k)
  {
    hide Pow256, Index, ByteAt;
    ShiftOfMultiple(x, k + 1, k);
    PowOne();
    SplitByte(x, 0);
    assert Octet(x * Pow256(k + 1), k) == ByteAt(0);
    ZeroByte();
    OrZero(c);
  }

  lemma PowOne()
    ensures Pow256(0) == 1 && Pow256(1) == 256
  {}

  lemma ZeroByte()
    ensures ByteAt(0) == 0 && Index(0) == 0
  {}

  /** One more octet of n, below the ones that are in place. */
  lemma OctetInPlace(n: nat, k: nat)
    ensures OrOctet(Shift8(n, k + 1) * Pow256(k + 1), Octet(n, k), k) == Shift8(n, k) * Pow256(k)
  {
    hide Pow256, Index, ByteAt, Shift8, Octet;
    OrAdds(Shift8(n, k + 1), Octet(n, k), k);
    Shift8Next(n, k);
    OctetIndex(n, k);
    PowNext(k);
    var q, r, p := Shift8(n, k + 1), Shift8(n, k) % 256, Pow256(k);
    assert q * (256 * p) + r * p == (q * 256 + r) * p;
  }

  lemma PowNext(k: nat)
    ensures Pow256(k + 1) == 256 * Pow256(k)
  {}

  lemma TopOctet(n: nat)
    requires n < LIMIT63
    ensures Shift8(n, 7) < 128
  {
    hide Shift8;
    Shift8Next(n, 0);
    Shift8Next(n, 1);
    Shift8Next(n, 2);
    Shift8Next(n, 3);
    Shift8Next(n, 4);
    Shift8Next(n, 5);
    Shift8Next(n, 6);
  }
}
