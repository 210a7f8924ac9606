/** CBC, CFB128 and CFB8 over an arbitrary block function. */
module CipherModes {
  import opened Words
  import opened Gf256

  type Block = b: seq<byte> | |b| == 16 witness seq(16, _ => 0)

  lemma AddTwice(x: byte, y: byte)
    ensures Add(Add(x, y), y) == x
  {}

  function XorBlock(a: Block, b: Block): Block {
    seq(16, i requires 0 <= i < 16 => Add(a[i], b[i]))
  }

  lemma XorBlockTwice(a: Block, b: Block)
    ensures XorBlock(XorBlock(a, b), b) == a
  {
    hide Add;
    forall i | 0 <= i < 16
      ensures XorBlock(XorBlock(a, b), b)[i] == a[i]
    {
      AddTwice(a[i], b[i]);
    }
  }

  /** The last 16 bytes seen: what the chaining register holds after s. */
  function Tail(iv: Block, s: seq<byte>): Block {
    (iv + s)[|s|..]
  }

  // ----- CBC

  function CbcEncrypt(E: Block -> Block, iv: Block, p: seq<byte>): (c: seq<byte>)
    requires |p| % 16 == 0
    ensures |c| == |p|
    decreases |p|
  {
    if p == [] then []
    else
      var c: Block := E(XorBlock(p[..16], iv));
      c + CbcEncrypt(E, c, p[16..])
  }

  function CbcDecrypt(D: Block -> Block, iv: Block, c: seq<byte>): (p: seq<byte>)
    requires |c| % 16 == 0
    ensures |p| == |c|
    decreases |c|
  {
    if c == [] then []
    else XorBlock(D(c[..16]), iv) + CbcDecrypt(D, c[..16], c[16..])
  }

  lemma {:induction false} CbcRoundTrip(E: Block -> Block, D: Block -> Block, iv: Block, p: seq<byte>)
    requires |p| % 16 == 0
    requires forall b: Block :: D(E(b)) == b
    ensures CbcDecrypt(D, iv, CbcEncrypt(E, iv, p)) == p
    decreases |p|
  {
    hide XorBlock;
    if p != [] {
      var x: Block := XorBlock(p[..16], iv);
      var c: Block := E(x);
      var rest := CbcEncrypt(E, c, p[16..]);
      CbcRoundTrip(E, D, c, p[16..]);
      assert (c + rest)[..16] == c && (c + rest)[16..] == rest;
      assert D(E(x)) == x;
      XorBlockTwice(p[..16], iv);
    }
  }

  /** Block k is the encrypted sum of block k and the block before its result, the first of these being the vector. */
  lemma {:induction false} CbcBlockAt(E: Block -> Block, iv: Block, p: seq<byte>, k: nat)
    requires |p| % 16 == 0 && 16 * k < |p|
    ensures var c := CbcEncrypt(E, iv, p);
      c[16 * k..][..16] == E(seq(16, i requires 0 <= i < 16 => p[16 * k + i] ^ (iv + c)[16 * k + i]))
    decreases k
  {
    var c: Block := E(XorBlock(p[..16], iv));
    var rest := CbcEncrypt(E, c, p[16..]);
    var all := CbcEncrypt(E, iv, p);
    assert all == c + rest;
    if k == 0 {
      var sum := seq(16, i requires 0 <= i < 16 => p[i] ^ (iv + all)[i]);
      assert sum == XorBlock(p[..16], iv);
      assert all[0..][..16] == c;
      assert sum == seq(16, i requires 0 <= i < 16 => p[16 * k + i] ^ (iv + all)[16 * k + i]);
    } else {
      CbcBlockAt(E, c, p[16..], k - 1);
      NextBlock(iv, p, c, rest, k);
      assert all[16 * k..] == rest[16 * (k - 1)..];
    }
  }

  lemma NextBlock(iv: Block, p: seq<byte>, c: Block, rest: seq<byte>, k: nat)
    requires k > 0 && 16 * k + 16 <= |p| && |p| == 16 + |rest|
    ensures seq(16, i requires 0 <= i < 16 => p[16 * k + i] ^ (iv + (c + rest))[16 * k + i])
         == seq(16, i requires 0 <= i < 16 => p[16..][16 * (k - 1) + i] ^ (c + rest)[16 * (k - 1) + i])
  {}

  // ----- CFB128: the register is re-encrypted every 16 bytes and takes in the ciphertext

  datatype Cfb = Cfb(iv: Block, off: nat)

  /** The register as it is used for the next byte. */
  function Ready(E: Block -> Block, s: Cfb): Block {
    if s.off == 0 then E(s.iv) else s.iv
  }

  function CfbByte(E: Block -> Block, s: Cfb, b: byte): byte
    requires s.off < 16
  {
    Add(b, Ready(E, s)[s.off])
  }

  function CfbNext(E: Block -> Block, decrypt: bool, s: Cfb, b: byte): (t: Cfb)
    requires s.off < 16
    ensures t.off == (s.off + 1) % 16
  {
    Cfb(Ready(E, s)[s.off := if decrypt then b else CfbByte(E, s, b)], (s.off + 1) % 16)
  }

  /** The output of one call, and the iv and iv_off it leaves. */
  function CfbOut(E: Block -> Block, decrypt: bool, s: Cfb, data: seq<byte>): (out: seq<byte>)
    requires s.off < 16
    ensures |out| == |data|
    decreases |data|
  {
    if data == [] then []
    else [CfbByte(E, s, data[0])] + CfbOut(E, decrypt, CfbNext(E, decrypt, s, data[0]), data[1..])
  }

  function CfbEnd(E: Block -> Block, decrypt: bool, s: Cfb, data: seq<byte>): (t: Cfb)
    requires s.off < 16
    ensures t.off == (s.off + |data|) % 16
    decreases |data|
  {
    if data == [] then s else CfbEnd(E, decrypt, CfbNext(E, decrypt, s, data[0]), data[1..])
  }

  function Flatten(chunks: seq<seq<byte>>): seq<byte>
    decreases |chunks|
  {
    if chunks == [] then [] else chunks[0] + Flatten(chunks[1..])
  }

  /** One call for each chunk, carrying iv and iv_off from call to call. */
  function CfbCalls(E: Block -> Block, decrypt: bool, s: Cfb, chunks: seq<seq<byte>>): seq<byte>
    requires s.off < 16
    decreases |chunks|
  {
    if chunks == [] then []
    else CfbOut(E, decrypt, s, chunks[0]) + CfbCalls(E, decrypt, CfbEnd(E, decrypt, s, chunks[0]), chunks[1..])
  }

  lemma {:induction false} CfbConcat(E: Block -> Block, decrypt: bool, s: Cfb, a: seq<byte>, b: seq<byte>)
    requires s.off < 16
    ensures CfbOut(E, decrypt, s, a + b) == CfbOut(E, decrypt, s, a) + CfbOut(E, decrypt, CfbEnd(E, decrypt, s, a), b)
    ensures CfbEnd(E, decrypt, s, a + b) == CfbEnd(E, decrypt, CfbEnd(E, decrypt, s, a), b)
    decreases |a|
  {
    hide CfbByte, CfbNext;
    if a == [] {
      assert a + b == b;
    } else {
      assert (a + b)[1..] == a[1..] + b;
      CfbConcat(E, decrypt, CfbNext(E, decrypt, s, a[0]), a[1..], b);
    }
  }

  /** However the data is cut into calls, the output is that of one call. */
  lemma {:induction false} CfbChunking(E: Block -> Block, decrypt: bool, s: Cfb, chunks: seq<seq<byte>>)
    requires s.off < 16
    ensures CfbCalls(E, decrypt, s, chunks) == CfbOut(E, decrypt, s, Flatten(chunks))
    decreases |chunks|
  {
    hide CfbByte, CfbNext;
    if chunks != [] {
      CfbConcat(E, decrypt, s, chunks[0], Flatten(chunks[1..]));
      CfbChunking(E, decrypt, CfbEnd(E, decrypt, s, chunks[0]), chunks[1..]);
    }
  }

  lemma {:induction false} CfbDecrypts(E: Block -> Block, s: Cfb, p: seq<byte>)
    requires s.off < 16
    ensures CfbOut(E, true, s, CfbOut(E, false, s, p)) == p
    ensures CfbEnd(E, true, s, CfbOut(E, false, s, p)) == CfbEnd(E, false, s, p)
    decreases |p|
  {
    hide Ready, Add;
    if p != [] {
      var c := CfbByte(E, s, p[0]);
      var t := CfbNext(E, false, s, p[0]);
      AddTwice(p[0], Ready(E, s)[s.off]);
      assert CfbNext(E, true, s, c) == t;
      CfbDecrypts(E, t, p[1..]);
      assert CfbOut(E, false, s, p)[1..] == CfbOut(E, false, t, p[1..]);
    }
  }

  /** Decryption undoes encryption whatever the two sides' call boundaries are. */
  lemma CfbRoundTrip(E: Block -> Block, s: Cfb, sent: seq<seq<byte>>, received: seq<seq<byte>>)
    requires s.off < 16
    requires Flatten(received) == CfbCalls(E, false, s, sent)
    ensures CfbCalls(E, true, s, received) == Flatten(sent)
  {
    CfbChunking(E, false, s, sent);
    CfbChunking(E, true, s, received);
    CfbDecrypts(E, s, Flatten(sent));
  }

  /** The register after the first k bytes c of the ciphertext. */
  function Register(E: Block -> Block, iv: Block, c: seq<byte>, k: nat): Block
    requires k <= |c|
  {
    var at := k - k % 16;
    if at == k then (iv + c)[k..][..16] else c[at..k] + E((iv + c)[at..][..16])[k % 16..]
  }

  lemma {:induction false} Registers(E: Block -> Block, decrypt: bool, iv: Block, data: seq<byte>, k: nat)
    requires k <= |data|
    ensures var out := CfbOut(E, decrypt, Cfb(iv, 0), data); var c := if decrypt then data else out;
      CfbEnd(E, decrypt, Cfb(iv, 0), data[..k]) == Cfb(Register(E, iv, c, k), k % 16)
    decreases k
  {
    hide CfbByte, CfbNext, Register;
    var s := Cfb(iv, 0);
    var out := CfbOut(E, decrypt, s, data);
    var c := if decrypt then data else out;
    if k == 0 {
      RegisterNone(E, iv, c);
    } else {
      Registers(E, decrypt, iv, data, k - 1);
      OneMore(E, decrypt, s, data, k - 1);
      RegisterNext(E, decrypt, iv, c, k - 1, data[k - 1]);
      assert data[..k] == data[..k - 1] + [data[k - 1]];
    }
  }

  lemma RegisterNone(E: Block -> Block, iv: Block, c: seq<byte>)
    ensures Register(E, iv, c, 0) == iv
  {
    assert (iv + c)[0..][..16] == iv;
  }

  /** The byte at k is put out from the state after the bytes before it. */
  lemma OneMore(E: Block -> Block, decrypt: bool, s: Cfb, data: seq<byte>, k: nat)
    requires s.off < 16 && k < |data|
    ensures var t := CfbEnd(E, decrypt, s, data[..k]);
      && CfbOut(E, decrypt, s, data)[k] == CfbByte(E, t, data[k])
      && CfbEnd(E, decrypt, s, data[..k] + [data[k]]) == CfbNext(E, decrypt, t, data[k])
  {
    hide CfbByte, CfbNext;
    var t := CfbEnd(E, decrypt, s, data[..k]);
    CfbConcat(E, decrypt, s, data[..k], data[k..]);
    CfbConcat(E, decrypt, s, data[..k], [data[k]]);
    assert data == data[..k] + data[k..];
    assert [data[k]][1..] == [];
    CfbNone(E, decrypt, CfbNext(E, decrypt, t, data[k]), [data[k]][1..]);
  }

  lemma CfbNone(E: Block -> Block, decrypt: bool, s: Cfb, none: seq<byte>)
    requires s.off < 16 && none == []
    ensures CfbEnd(E, decrypt, s, none) == s
  {}

  lemma RegisterNext(E: Block -> Block, decrypt: bool, iv: Block, c: seq<byte>, k: nat, b: byte)
    requires k < |c|
    requires c[k] == if decrypt then b else CfbByte(E, Cfb(Register(E, iv, c, k), k % 16), b)
    ensures CfbNext(E, decrypt, Cfb(Register(E, iv, c, k), k % 16), b) == Cfb(Register(E, iv, c, k + 1), (k + 1) % 16)
  {
    hide CfbByte, CfbNext, Register;
    RegisterMoves(E, decrypt, iv, c, k - k % 16, k % 16, b);
  }

  lemma RegisterMoves(E: Block -> Block, decrypt: bool, iv: Block, c: seq<byte>, at: nat, o: nat, b: byte)
    requires at % 16 == 0 && o < 16 && at + o < |c|
    requires c[at + o] == if decrypt then b else CfbByte(E, Cfb(Register(E, iv, c, at + o), o), b)
    ensures CfbNext(E, decrypt, Cfb(Register(E, iv, c, at + o), o), b)
         == Cfb(Register(E, iv, c, at + o + 1), (o + 1) % 16)
  {
    hide CfbByte, CfbNext, Register;
    var s := Cfb(Register(E, iv, c, at + o), o);
    var e := E((iv + c)[at..][..16]);
    RegisterIs(E, iv, c, at, o);
    assert c[at..at + o + 1] == c[at..at + o] + [c[at + o]];
    assert Ready(E, s) == c[at..at + o] + e[o..];
    TakenIn(E, decrypt, s, c[at..at + o], e, b, c[at + o]);
    if o == 15 {
      BlockTaken(iv, c, at, e);
      RegisterIs(E, iv, c, at + 16, 0);
    } else {
      RegisterIs(E, iv, c, at, o + 1);
    }
  }

  lemma BlockTaken(iv: Block, c: seq<byte>, at: nat, e: Block)
    requires at + 16 <= |c|
    ensures c[at..at + 16] + e[16..] == (iv + c)[at + 16..][..16]
  {}

  lemma RegisterIs(E: Block -> Block, iv: Block, c: seq<byte>, at: nat, o: nat)
    requires at % 16 == 0 && o < 16 && at + o <= |c|
    ensures Register(E, iv, c, at + o)
         == if o == 0 then (iv + c)[at..][..16] else c[at..at + o] + E((iv + c)[at..][..16])[o..]
  {
    assert (at + o) % 16 == o;
  }

  lemma TakenIn(E: Block -> Block, decrypt: bool, s: Cfb, head: seq<byte>, e: Block, b: byte, taken: byte)
    requires s.off < 16 && |head| == s.off && Ready(E, s) == head + e[s.off..]
    requires taken == if decrypt then b else CfbByte(E, s, b)
    ensures CfbNext(E, decrypt, s, b) == Cfb(head + [taken] + e[s.off + 1..], (s.off + 1) % 16)
  {
    hide CfbByte, Ready;
  }

  /** A call from offset 0, byte by byte: the key stream is the encrypted vector, then each encrypted block of the
      ciphertext. */
  lemma CfbByteAt(E: Block -> Block, decrypt: bool, iv: Block, data: seq<byte>, k: nat)
    requires k < |data|
    ensures var out := CfbOut(E, decrypt, Cfb(iv, 0), data); var c := if decrypt then data else out;
      out[k] == data[k] ^ E((iv + c)[k - k % 16..][..16])[k % 16]
  {
    hide CfbOut, CfbEnd, Register;
    var out := CfbOut(E, decrypt, Cfb(iv, 0), data);
    var c := if decrypt then data else out;
    Registers(E, decrypt, iv, data, k);
    OneMore(E, decrypt, Cfb(iv, 0), data, k);
    ReadyAt(E, iv, c, k);
  }

  lemma ReadyAt(E: Block -> Block, iv: Block, c: seq<byte>, k: nat)
    requires k < |c|
    ensures Ready(E, Cfb(Register(E, iv, c, k), k % 16))[k % 16] == E((iv + c)[k - k % 16..][..16])[k % 16]
  {}

  // ----- CFB8: one encryption a byte, the ciphertext byte shifted into the register

  function Cfb8Byte(E: Block -> Block, iv: Block, b: byte): byte {
    Add(b, E(iv)[0])
  }

  function ShiftIn(iv: Block, c: byte): Block { iv[1..] + [c] }

  function Cfb8Encrypt(E: Block -> Block, iv: Block, p: seq<byte>): (c: seq<byte>)
    ensures |c| == |p|
    decreases |p|
  {
    if p == [] then []
    else
      var c := Cfb8Byte(E, iv, p[0]);
      [c] + Cfb8Encrypt(E, ShiftIn(iv, c), p[1..])
  }

  function Cfb8Decrypt(E: Block -> Block, iv: Block, c: seq<byte>): (p: seq<byte>)
    ensures |p| == |c|
    decreases |c|
  {
    if c == [] then []
    else [Cfb8Byte(E, iv, c[0])] + Cfb8Decrypt(E, ShiftIn(iv, c[0]), c[1..])
  }

  lemma {:induction false} Cfb8RoundTrip(E: Block -> Block, iv: Block, p: seq<byte>)
    ensures Cfb8Decrypt(E, iv, Cfb8Encrypt(E, iv, p)) == p
    decreases |p|
  {
    hide ShiftIn, Add;
    if p != [] {
      var c := Cfb8Byte(E, iv, p[0]);
      AddTwice(p[0], E(iv)[0]);
      Cfb8RoundTrip(E, ShiftIn(iv, c), p[1..]);
      assert Cfb8Encrypt(E, iv, p)[1..] == Cfb8Encrypt(E, ShiftIn(iv, c), p[1..]);
    }
  }

  lemma TailShift(iv: Block, c: byte, s: seq<byte>)
    ensures Tail(ShiftIn(iv, c), s) == Tail(iv, [c] + s)
  {
    assert (ShiftIn(iv, c) + s) == (iv + ([c] + s))[1..];
  }

  lemma {:induction false} Cfb8At(E: Block -> Block, iv: Block, c: seq<byte>, k: nat)
    requires k < |c|
    ensures Cfb8Decrypt(E, iv, c)[k] == Cfb8Byte(E, Tail(iv, c[..k]), c[k])
    decreases k
  {
    hide ShiftIn, Add, Tail, Cfb8Byte;
    if k == 0 {
      TailNone(iv, c[..0]);
    } else {
      Cfb8At(E, ShiftIn(iv, c[0]), c[1..], k - 1);
      assert c[1..][..k - 1] == c[1..k];
      TailShift(iv, c[0], c[1..k]);
      assert [c[0]] + c[1..k] == c[..k];
    }
  }

  /** Byte k is decrypted with the first byte of the encrypted 16 bytes before it, the vector's bytes coming first. */
  lemma Cfb8ByteAt(E: Block -> Block, iv: Block, c: seq<byte>, k: nat)
    requires k < |c|
    ensures Cfb8Decrypt(E, iv, c)[k] == c[k] ^ E((iv + c)[k..][..16])[0]
  {
    hide Cfb8Decrypt;
    Cfb8At(E, iv, c, k);
    assert (iv + c)[k..][..16] == Tail(iv, c[..k]);
  }

  lemma TailNone(iv: Block, s: seq<byte>)
    requires s == []
    ensures Tail(iv, s) == iv
  {
    assert iv + s == iv;
  }

  lemma TailFull(iv: Block, s: seq<byte>)
    requires |s| >= 16
    ensures Tail(iv, s) == s[|s| - 16..]
  {}

  /** A wrong initial register costs only the first 16 bytes. */
  lemma Cfb8SelfSynchronizes(E: Block -> Block, iv: Block, wrong: Block, p: seq<byte>, k: nat)
    requires 16 <= k < |p|
    ensures Cfb8Decrypt(E, wrong, Cfb8Encrypt(E, iv, p))[k] == p[k]
  {
    hide Tail, Cfb8Byte;
    var c := Cfb8Encrypt(E, iv, p);
    Cfb8RoundTrip(E, iv, p);
    Cfb8At(E, iv, c, k);
    Cfb8At(E, wrong, c, k);
    TailFull(iv, c[..k]);
    TailFull(wrong, c[..k]);
  }
}
