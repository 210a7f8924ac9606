/** aes_crypt_cbc, aes_crypt_cfb128 and aes_crypt_cfb8: buffers may be the same memory, iv is separate. */
module AesModes {
  import opened Words
  import opened Gf256
  import opened AesCipher
  import opened AesContext
  import opened CipherModes

  ghost function EcbFn(keys: seq<State>, mode: int): Block -> Block
    requires |keys| >= 2
  {
    (b: Block) => CryptBlock(keys, mode, b)
  }

  // ----- CBC

  /** output[at..at + 16] := x ^ iv, where x is the block of source at the same place. */
  method XorInto(output: array<byte>, source: array<byte>, iv: array<byte>, at: nat)
    requires iv.Length == 16 && iv != output && at + 16 <= source.Length && at + 16 <= output.Length
    modifies output
    ensures output[at..at + 16] == XorBlock(old(source[at..at + 16]), iv[..])
    ensures output[..at] == old(output[..at])
    ensures forall j | at + 16 <= j < output.Length :: output[j] == old(output[j])
  {
    hide Add;
    for i := at to at + 16
      invariant forall j | i <= j < at + 16 :: source[j] == old(source[j])
      invariant forall j | at <= j < i :: output[j] == Add(old(source[j]), iv[j - at])
      invariant output[..at] == old(output[..at])
      invariant forall j | at + 16 <= j < output.Length :: output[j] == old(output[j])
    {
      output[i] := Add(source[i], iv[i - at]);
    }
  }

  method CopyBlock(target: array<byte>, source: array<byte>, at: nat)
    requires target.Length == 16 && target != source && at + 16 <= source.Length
    modifies target
    ensures target[..] == source[at..at + 16]
  {
    for i := 0 to 16
      invariant target[..i] == source[at..at + i]
    {
      target[i] := source[at + i];
    }
  }

  method CbcEncryptBlock(ctx: Context, mode: int, iv: array<byte>, input: array<byte>, output: array<byte>, at: nat)
    requires ctx.Valid() && mode != AES_DECRYPT && iv.Length == 16 && iv != input && iv != output
    requires at + 16 <= input.Length && at + 16 <= output.Length
    modifies iv, output
    ensures ctx.Valid() && ctx.Keys() == old(ctx.Keys())
    ensures output[at..at + 16] == EcbFn(ctx.Keys(), mode)(XorBlock(old(input[at..at + 16]), old(iv[..])))
    ensures iv[..] == output[at..at + 16]
    ensures output[..at + 16] == old(output[..at]) + output[at..at + 16]
    ensures forall j | at + 16 <= j < output.Length :: output[j] == old(output[j])
    ensures forall j | at + 16 <= j < input.Length :: input[j] == old(input[j])
  {
    hide CryptBlock, XorBlock, RoundKeys, Context.Ready;
    XorInto(output, input, iv, at);
    ctx.CryptEcb(mode, output, at, output, at);
    CopyBlock(iv, output, at);
    assert output[..at + 16] == output[..at] + output[at..at + 16];
  }

  method CbcDecryptBlock(ctx: Context, mode: int, iv: array<byte>, input: array<byte>, output: array<byte>, at: nat)
    requires ctx.Valid() && iv.Length == 16 && iv != input && iv != output
    requires at + 16 <= input.Length && at + 16 <= output.Length
    modifies iv, output
    ensures ctx.Valid() && ctx.Keys() == old(ctx.Keys())
    ensures output[at..at + 16] == XorBlock(EcbFn(ctx.Keys(), mode)(old(input[at..at + 16])), old(iv[..]))
    ensures iv[..] == old(input[at..at + 16])
    ensures output[..at + 16] == old(output[..at]) + output[at..at + 16]
    ensures forall j | at + 16 <= j < output.Length :: output[j] == old(output[j])
    ensures forall j | at + 16 <= j < input.Length :: input[j] == old(input[j])
  {
    hide CryptBlock, XorBlock, RoundKeys, Context.Ready;
    var temp := new byte[16];
    CopyBlock(temp, input, at);
    ctx.CryptEcb(mode, input, at, output, at);
    XorInto(output, output, iv, at);
    CopyBlock(iv, temp, 0);
    assert output[..at + 16] == output[..at] + output[at..at + 16];
  }

  lemma CbcEncryptStep(E: Block -> Block, iv: Block, iv0: Block, p: seq<byte>, at: nat, done: seq<byte>, c: Block)
    requires at + 16 <= |p| && |p| % 16 == 0 && at % 16 == 0 && |done| == at
    requires done + CbcEncrypt(E, iv, p[at..]) == CbcEncrypt(E, iv0, p)
    requires c == E(XorBlock(p[at..at + 16], iv))
    ensures (done + c) + CbcEncrypt(E, c, p[at + 16..]) == CbcEncrypt(E, iv0, p)
    ensures Tail(iv0, done + c) == c
  {
    hide XorBlock, Tail;
    assert p[at..][..16] == p[at..at + 16] && p[at..][16..] == p[at + 16..];
    TailFull(iv0, done + c);
  }

  lemma CbcDecryptStep(D: Block -> Block, iv: Block, iv0: Block, c: seq<byte>, at: nat, done: seq<byte>, p: Block)
    requires at + 16 <= |c| && |c| % 16 == 0 && at % 16 == 0 && |done| == at
    requires done + CbcDecrypt(D, iv, c[at..]) == CbcDecrypt(D, iv0, c)
    requires p == XorBlock(D(c[at..at + 16]), iv)
    ensures (done + p) + CbcDecrypt(D, c[at..at + 16], c[at + 16..]) == CbcDecrypt(D, iv0, c)
    ensures Tail(iv0, c[..at + 16]) == c[at..at + 16]
  {
    hide XorBlock, Tail;
    assert c[at..][..16] == c[at..at + 16] && c[at..][16..] == c[at + 16..];
    TailFull(iv0, c[..at + 16]);
  }

  method CbcEncryptAll(ctx: Context, mode: int, length: nat, iv: array<byte>, input: array<byte>, output: array<byte>)
    requires ctx.Valid() && mode != AES_DECRYPT && iv.Length == 16 && iv != input && iv != output
    requires length <= input.Length && length <= output.Length && length % 16 == 0
    modifies iv, output
    ensures ctx.Valid() && ctx.Keys() == old(ctx.Keys())
    ensures output[..length] == CbcEncrypt(EcbFn(ctx.Keys(), mode), old(iv[..]), old(input[..length]))
    ensures iv[..] == Tail(old(iv[..]), output[..length])
    ensures forall j | length <= j < output.Length :: output[j] == old(output[j])
  {
    hide CryptBlock, XorBlock, RoundKeys, Context.Ready, EcbFn, Tail, Context.Keys, CbcEncrypt;
    ghost var fn := EcbFn(ctx.Keys(), mode);
    ghost var iv0: Block, p := iv[..], input[..length];
    ghost var reg: Block, done: seq<byte> := iv0, [];
    TailNone(iv0, []);
    CbcEncryptStart(fn, iv0, p);
    var at := 0;
    while at < length
      invariant at <= length && at % 16 == 0 && |done| == at
      invariant ctx.Valid() && ctx.Keys() == old(ctx.Keys())
      invariant done == output[..at] && iv[..] == reg == Tail(iv0, done)
      invariant done + CbcEncrypt(fn, reg, p[at..]) == CbcEncrypt(fn, iv0, p)
      invariant forall j | at <= j < length :: input[j] == p[j]
      invariant forall j | length <= j < output.Length :: output[j] == old(output[j])
    {
      assert input[at..at + 16] == p[at..at + 16];
      CbcEncryptBlock(ctx, mode, iv, input, output, at);
      CbcEncryptStep(fn, reg, iv0, p, at, done, iv[..]);
      reg, done := iv[..], done + iv[..];
      at := at + 16;
    }
    CbcEncryptEnd(fn, reg, p[at..]);
    assert done + [] == done;
  }

  lemma CbcEncryptStart(E: Block -> Block, iv: Block, p: seq<byte>)
    requires |p| % 16 == 0
    ensures [] + CbcEncrypt(E, iv, p[0..]) == CbcEncrypt(E, iv, p)
  {
    assert p[0..] == p;
  }

  lemma CbcEncryptEnd(E: Block -> Block, iv: Block, p: seq<byte>)
    requires p == []
    ensures CbcEncrypt(E, iv, p) == []
  {}

  method CbcDecryptAll(ctx: Context, mode: int, length: nat, iv: array<byte>, input: array<byte>, output: array<byte>)
    requires ctx.Valid() && iv.Length == 16 && iv != input && iv != output
    requires length <= input.Length && length <= output.Length && length % 16 == 0
    modifies iv, output
    ensures ctx.Valid() && ctx.Keys() == old(ctx.Keys())
    ensures output[..length] == CbcDecrypt(EcbFn(ctx.Keys(), mode), old(iv[..]), old(input[..length]))
    ensures iv[..] == Tail(old(iv[..]), old(input[..length]))
    ensures forall j | length <= j < output.Length :: output[j] == old(output[j])
  {
    hide CryptBlock, XorBlock, RoundKeys, Context.Ready, EcbFn, Tail, Context.Keys, CbcDecrypt;
    ghost var fn := EcbFn(ctx.Keys(), mode);
    ghost var iv0: Block, c := iv[..], input[..length];
    ghost var reg: Block, done: seq<byte> := iv0, [];
    TailNone(iv0, c[..0]);
    CbcDecryptStart(fn, iv0, c);
    var at := 0;
    while at < length
      invariant at <= length && at % 16 == 0 && |done| == at
      invariant ctx.Valid() && ctx.Keys() == old(ctx.Keys())
      invariant done == output[..at] && iv[..] == reg == Tail(iv0, c[..at])
      invariant done + CbcDecrypt(fn, reg, c[at..]) == CbcDecrypt(fn, iv0, c)
      invariant forall j | at <= j < length :: input[j] == c[j]
      invariant forall j | length <= j < output.Length :: output[j] == old(output[j])
    {
      assert input[at..at + 16] == c[at..at + 16];
      CbcDecryptBlock(ctx, mode, iv, input, output, at);
      CbcDecryptStep(fn, reg, iv0, c, at, done, output[at..at + 16]);
      reg, done := iv[..], done + output[at..at + 16];
      at := at + 16;
    }
    CbcDecryptEnd(fn, reg, c[at..]);
    assert done + [] == done && c[..at] == c;
  }

  lemma CbcDecryptStart(D: Block -> Block, iv: Block, c: seq<byte>)
    requires |c| % 16 == 0
    ensures [] + CbcDecrypt(D, iv, c[0..]) == CbcDecrypt(D, iv, c)
  {
    assert c[0..] == c;
  }

  lemma CbcDecryptEnd(D: Block -> Block, iv: Block, c: seq<byte>)
    requires c == []
    ensures CbcDecrypt(D, iv, c) == []
  {}

  /** aes_crypt_cbc */
  method CryptCbc(ctx: Context, mode: int, length: nat, iv: array<byte>, input: array<byte>, output: array<byte>)
    returns (ret: int)
    requires ctx.Valid() && iv.Length == 16 && iv != input && iv != output
    requires length <= input.Length && length <= output.Length
    modifies iv, output
    ensures ctx.Valid() && ctx.Keys() == old(ctx.Keys())
    ensures length % 16 != 0 ==>
      ret == ERR_INVALID_INPUT_LENGTH && iv[..] == old(iv[..]) && output[..] == old(output[..])
    ensures length % 16 == 0 && mode != AES_DECRYPT ==>
      && ret == 0
      && output[..length] == CbcEncrypt(EcbFn(ctx.Keys(), mode), old(iv[..]), old(input[..length]))
      && iv[..] == Tail(old(iv[..]), output[..length])
    ensures length % 16 == 0 && mode == AES_DECRYPT ==>
      && ret == 0
      && output[..length] == CbcDecrypt(EcbFn(ctx.Keys(), mode), old(iv[..]), old(input[..length]))
      && iv[..] == Tail(old(iv[..]), old(input[..length]))
    ensures forall j | length <= j < output.Length :: output[j] == old(output[j])
  {
    hide CryptBlock, RoundKeys, Context.Ready, EcbFn, Tail, Context.Keys, CbcEncrypt, CbcDecrypt;
    if length % 16 != 0 {
      return ERR_INVALID_INPUT_LENGTH;
    }
    if mode == AES_DECRYPT {
      CbcDecryptAll(ctx, mode, length, iv, input, output);
    } else {
      CbcEncryptAll(ctx, mode, length, iv, input, output);
    }
    return 0;
  }

  /** With the two schedules of one key, CBC decryption undoes CBC encryption. */
  lemma CbcDecrypts(key: seq<byte>, keysize: nat, iv: Block, p: seq<byte>)
    requires KeySize(keysize) && 8 * |key| >= keysize && |p| % 16 == 0
    ensures var keys := EncKeys(key, keysize);
      CbcDecrypt(EcbFn(InvKeys(keys), AES_DECRYPT), iv, CbcEncrypt(EcbFn(keys, AES_ENCRYPT), iv, p)) == p
  {
    hide CbcEncrypt, CbcDecrypt, InvKeys, EncryptBlock, DecryptBlock;
    var keys := EncKeys(key, keysize);
    var E, D := EcbFn(keys, AES_ENCRYPT), EcbFn(InvKeys(keys), AES_DECRYPT);
    forall b: Block
      ensures D(E(b)) == b
    {
      DecryptsBlock(keys, b);
    }
    CbcRoundTrip(E, D, iv, p);
  }

  // ----- CFB128

  /** One byte of either direction; n is the offset into iv. */
  method CfbOne(ctx: Context, mode: int, n: nat, iv: array<byte>, input: array<byte>, output: array<byte>, at: nat)
    requires ctx.Valid() && n < 16 && iv.Length == 16 && iv != input && iv != output
    requires at < input.Length && at < output.Length
    modifies iv, output
    ensures ctx.Valid() && ctx.Keys() == old(ctx.Keys())
    ensures var fn, s := EcbFn(ctx.Keys(), AES_ENCRYPT), Cfb(old(iv[..]), n);
      && output[at] == CfbByte(fn, s, old(input[at]))
      && iv[..] == CfbNext(fn, mode == AES_DECRYPT, s, old(input[at])).iv
    ensures forall j | 0 <= j < output.Length && j != at :: output[j] == old(output[j])
  {
    hide EncryptBlock, RoundKeys, Context.Ready, Add;
    if n == 0 {
      ctx.CryptEcb(AES_ENCRYPT, iv, 0, iv, 0);
      assert old(iv[0..16]) == old(iv[..]) && iv[0..16] == iv[..];
    }
    if mode == AES_DECRYPT {
      var c := input[at];
      output[at] := Add(c, iv[n]);
      iv[n] := c;
    } else {
      var c := Add(input[at], iv[n]);
      output[at] := c;
      iv[n] := c;
    }
  }

  /** aes_crypt_cfb128; ivOff is *iv_off on entry and off on return. */
  method CryptCfb128(ctx: Context, mode: int, length: nat, ivOff: nat, iv: array<byte>, input: array<byte>,
                     output: array<byte>)
    returns (ret: int, off: nat)
    requires ctx.Valid() && ivOff < 16 && iv.Length == 16 && iv != input && iv != output
    requires length <= input.Length && length <= output.Length
    modifies iv, output
    ensures ctx.Valid() && ctx.Keys() == old(ctx.Keys())
    ensures var fn, s := EcbFn(ctx.Keys(), AES_ENCRYPT), Cfb(old(iv[..]), ivOff);
      var p, dec := old(input[..length]), mode == AES_DECRYPT;
      && ret == 0
      && output[..length] == CfbOut(fn, dec, s, p)
      && Cfb(iv[..], off) == CfbEnd(fn, dec, s, p)
    ensures forall j | length <= j < output.Length :: output[j] == old(output[j])
  {
    hide CryptBlock, RoundKeys, Context.Ready, EcbFn, Context.Keys, CfbOut, CfbEnd, CfbByte, CfbNext;
    ghost var fn := EcbFn(ctx.Keys(), AES_ENCRYPT);
    ghost var dec := mode == AES_DECRYPT;
    ghost var s0, p := Cfb(iv[..], ivOff), input[..length];
    ghost var s, done: seq<byte> := s0, [];
    CfbStart(fn, dec, s0, p);
    off := ivOff;
    var at := 0;
    while at < length
      invariant at <= length && |done| == at
      invariant ctx.Valid() && ctx.Keys() == old(ctx.Keys())
      invariant s.off < 16 && s == Cfb(iv[..], off) && done == output[..at]
      invariant done + CfbOut(fn, dec, s, p[at..]) == CfbOut(fn, dec, s0, p)
      invariant CfbEnd(fn, dec, s, p[at..]) == CfbEnd(fn, dec, s0, p)
      invariant forall j | at <= j < length :: input[j] == p[j]
      invariant forall j | length <= j < output.Length :: output[j] == old(output[j])
    {
      CfbOne(ctx, mode, off, iv, input, output, at);
      CfbStep(fn, dec, s, p, at);
      off := (off + 1) % 16;
      s, done := CfbNext(fn, dec, s, p[at]), done + [output[at]];
      at := at + 1;
    }
    CfbStop(fn, dec, s, p[at..]);
    assert done + [] == done;
    ret := 0;
  }

  lemma CfbStart(E: Block -> Block, dec: bool, s: Cfb, p: seq<byte>)
    requires s.off < 16
    ensures [] + CfbOut(E, dec, s, p[0..]) == CfbOut(E, dec, s, p) && CfbEnd(E, dec, s, p[0..]) == CfbEnd(E, dec, s, p)
  {
    assert p[0..] == p;
  }

  lemma CfbStop(E: Block -> Block, dec: bool, s: Cfb, p: seq<byte>)
    requires s.off < 16 && p == []
    ensures CfbOut(E, dec, s, p) == [] && CfbEnd(E, dec, s, p) == s
  {}

  lemma CfbStep(E: Block -> Block, dec: bool, s: Cfb, p: seq<byte>, at: nat)
    requires s.off < 16 && at < |p|
    ensures var t := CfbNext(E, dec, s, p[at]);
      && CfbOut(E, dec, s, p[at..]) == [CfbByte(E, s, p[at])] + CfbOut(E, dec, t, p[at + 1..])
      && CfbEnd(E, dec, s, p[at..]) == CfbEnd(E, dec, t, p[at + 1..])
  {
    hide CfbNext, CfbByte;
    assert p[at..][1..] == p[at + 1..];
  }

  // ----- CFB8

  /** memcpy(ov, iv, 16) */
  method SaveRegister(iv: array<byte>) returns (ov: array<byte>)
    requires iv.Length == 16
    ensures fresh(ov) && ov.Length == 17 && ov[..16] == iv[..]
  {
    ov := new byte[17];
    for i := 0 to 16
      invariant ov[..i] == iv[..i]
    {
      ov[i] := iv[i];
    }
  }

  /** memcpy(iv, ov + 1, 16) */
  method ShiftRegister(iv: array<byte>, ov: array<byte>)
    requires iv.Length == 16 && ov.Length == 17 && iv != ov
    modifies iv
    ensures iv[..] == ov[1..]
  {
    for i := 0 to 16
      invariant iv[..i] == ov[1..i + 1]
    {
      iv[i] := ov[i + 1];
    }
  }

  method Cfb8One(ctx: Context, mode: int, iv: array<byte>, input: array<byte>, output: array<byte>, at: nat)
    requires ctx.Valid() && mode in {AES_ENCRYPT, AES_DECRYPT} && iv.Length == 16 && iv != input && iv != output
    requires at < input.Length && at < output.Length
    modifies iv, output
    ensures ctx.Valid() && ctx.Keys() == old(ctx.Keys())
    ensures output[at] == Cfb8Byte(EcbFn(ctx.Keys(), AES_ENCRYPT), old(iv[..]), old(input[at]))
    ensures iv[..] == ShiftIn(old(iv[..]), if mode == AES_DECRYPT then old(input[at]) else output[at])
    ensures forall j | 0 <= j < output.Length && j != at :: output[j] == old(output[j])
  {
    hide EncryptBlock, RoundKeys, Context.Ready, Add;
    ghost var reg := iv[..];
    var ov := SaveRegister(iv);
    ctx.CryptEcb(AES_ENCRYPT, iv, 0, iv, 0);
    assert old(iv[0..16]) == reg && iv[0..16] == iv[..];
    if mode == AES_DECRYPT {
      ov[16] := input[at];
    }
    var c := Add(input[at], iv[0]);
    output[at] := c;
    if mode == AES_ENCRYPT {
      ov[16] := c;
    }
    assert ov[..] == reg + [ov[16]];
    ShiftRegister(iv, ov);
  }

  /** aes_crypt_cfb8 */
  method CryptCfb8(ctx: Context, mode: int, length: nat, iv: array<byte>, input: array<byte>, output: array<byte>)
    returns (ret: int)
    requires ctx.Valid() && mode in {AES_ENCRYPT, AES_DECRYPT} && iv.Length == 16 && iv != input && iv != output
    requires length <= input.Length && length <= output.Length
    modifies iv, output
    ensures ctx.Valid() && ctx.Keys() == old(ctx.Keys())
    ensures var fn, reg, p := EcbFn(ctx.Keys(), AES_ENCRYPT), old(iv[..]), old(input[..length]);
      && ret == 0
      && output[..length] == (if mode == AES_DECRYPT then Cfb8Decrypt(fn, reg, p) else Cfb8Encrypt(fn, reg, p))
      && iv[..] == Tail(reg, if mode == AES_DECRYPT then p else output[..length])
    ensures forall j | length <= j < output.Length :: output[j] == old(output[j])
  {
    hide CryptBlock, RoundKeys, Context.Ready, EcbFn, Context.Keys, Cfb8Encrypt, Cfb8Decrypt, Cfb8Byte, ShiftIn, Tail;
    ghost var fn := EcbFn(ctx.Keys(), AES_ENCRYPT);
    ghost var reg0: Block, p := iv[..], input[..length];
    ghost var reg: Block, done: seq<byte>, sent: seq<byte> := reg0, [], [];
    TailNone(reg0, []);
    assert p[0..] == p;
    var at := 0;
    while at < length
      invariant at <= length && |done| == at && |sent| == at
      invariant ctx.Valid() && ctx.Keys() == old(ctx.Keys())
      invariant iv[..] == reg == Tail(reg0, sent) && done == output[..at]
      invariant sent == if mode == AES_DECRYPT then p[..at] else done
      invariant done + Cfb8Run(fn, mode, reg, p[at..]) == Cfb8Run(fn, mode, reg0, p)
      invariant forall j | at <= j < length :: input[j] == p[j]
      invariant forall j | length <= j < output.Length :: output[j] == old(output[j])
    {
      Cfb8One(ctx, mode, iv, input, output, at);
      ghost var c := if mode == AES_DECRYPT then p[at] else output[at];
      Cfb8Step(fn, mode, reg, p, at);
      TailPush(reg0, sent, c);
      reg, done, sent := iv[..], done + [output[at]], sent + [c];
      at := at + 1;
    }
    Cfb8Stop(fn, mode, reg, p[at..]);
    assert done + [] == done && p[..at] == p;
    ret := 0;
  }

  ghost function Cfb8Run(E: Block -> Block, mode: int, reg: Block, p: seq<byte>): seq<byte> {
    if mode == AES_DECRYPT then Cfb8Decrypt(E, reg, p) else Cfb8Encrypt(E, reg, p)
  }

  lemma Cfb8Step(E: Block -> Block, mode: int, reg: Block, p: seq<byte>, at: nat)
    requires at < |p|
    ensures var o := Cfb8Byte(E, reg, p[at]);
      Cfb8Run(E, mode, reg, p[at..])
      == [o] + Cfb8Run(E, mode, ShiftIn(reg, if mode == AES_DECRYPT then p[at] else o), p[at + 1..])
  {
    hide ShiftIn, Cfb8Byte;
    assert p[at..][1..] == p[at + 1..];
  }

  lemma Cfb8Stop(E: Block -> Block, mode: int, reg: Block, p: seq<byte>)
    requires p == []
    ensures Cfb8Run(E, mode, reg, p) == []
  {}

  lemma TailPush(iv: Block, s: seq<byte>, c: byte)
    ensures Tail(iv, s + [c]) == ShiftIn(Tail(iv, s), c)
  {
    assert iv + (s + [c]) == (iv + s) + [c];
  }
}
