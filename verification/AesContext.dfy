/** aes_setkey_enc, aes_setkey_dec and aes_crypt_ecb on the context's round-key buffer. */
module AesContext {
  import opened Words
  import opened AesTables
  import opened AesCipher
  import opened AesRounds
  import opened AesKeySchedule

  const AES_ENCRYPT: int := 1
  const AES_DECRYPT: int := 0
  const ERR_INVALID_KEY_LENGTH: int := -0x20
  const ERR_INVALID_INPUT_LENGTH: int := -0x22

  // ----- blocks of 16 bytes

  function LoadState(b: seq<byte>): State
    requires |b| == 16
  {
    State(LittleWord(b[0], b[1], b[2], b[3]), LittleWord(b[4], b[5], b[6], b[7]),
          LittleWord(b[8], b[9], b[10], b[11]), LittleWord(b[12], b[13], b[14], b[15]))
  }

  function WordBytes(w: word): seq<byte> {
    [Byte0(w), Byte1(w), Byte2(w), Byte3(w)]
  }

  function StoreState(s: State): (b: seq<byte>)
    ensures |b| == 16
  {
    WordBytes(s.x0) + WordBytes(s.x1) + WordBytes(s.x2) + WordBytes(s.x3)
  }

  lemma StoreOfLoad(b: seq<byte>)
    requires |b| == 16
    ensures StoreState(LoadState(b)) == b
  {
    hide LittleWord, Byte0, Byte1, Byte2, Byte3;
    LittleWordBytes(b[0], b[1], b[2], b[3]);
    LittleWordBytes(b[4], b[5], b[6], b[7]);
    LittleWordBytes(b[8], b[9], b[10], b[11]);
    LittleWordBytes(b[12], b[13], b[14], b[15]);
  }

  lemma LoadOfStore(s: State)
    ensures LoadState(StoreState(s)) == s
  {
    hide LittleWord, Byte0, Byte1, Byte2, Byte3;
    WordOfBytes(s.x0);
    WordOfBytes(s.x1);
    WordOfBytes(s.x2);
    WordOfBytes(s.x3);
  }

  function RoundKeys(w: seq<word>, nr: nat): (keys: seq<State>)
    requires 4 * (nr + 1) <= |w|
    ensures |keys| == nr + 1
  {
    seq(nr + 1, r requires 0 <= r <= nr => KeyAt(w, 4 * r))
  }

  ghost function EncryptBlock(keys: seq<State>, b: seq<byte>): (c: seq<byte>)
    requires |keys| >= 2 && |b| == 16
    ensures |c| == 16
  {
    StoreState(Cipher(keys, LoadState(b)))
  }

  ghost function DecryptBlock(keys: seq<State>, b: seq<byte>): (c: seq<byte>)
    requires |keys| >= 2 && |b| == 16
    ensures |c| == 16
  {
    StoreState(EqInvCipher(keys, LoadState(b)))
  }

  ghost function CryptBlock(keys: seq<State>, mode: int, b: seq<byte>): (c: seq<byte>)
    requires |keys| >= 2 && |b| == 16
    ensures |c| == 16
  {
    if mode == AES_DECRYPT then DecryptBlock(keys, b) else EncryptBlock(keys, b)
  }

  /** Decryption under the inverted schedule undoes encryption of every block. */
  lemma DecryptsBlock(keys: seq<State>, b: seq<byte>)
    requires |keys| >= 2 && |b| == 16
    ensures DecryptBlock(InvKeys(keys), EncryptBlock(keys, b)) == b
  {
    hide LoadState, StoreState, Cipher, EqInvCipher, InvKeys;
    LoadOfStore(Cipher(keys, LoadState(b)));
    DecryptsCipher(keys, LoadState(b));
    StoreOfLoad(b);
  }

  // ----- the schedules of a key

  ghost predicate KeySize(keysize: nat) { keysize in {128, 192, 256} }

  ghost function EncKeys(key: seq<byte>, keysize: nat): (keys: seq<State>)
    requires KeySize(keysize) && 8 * |key| >= keysize
    ensures |keys| == keysize / 32 + 7
  {
    RoundKeys(seq(4 * (keysize / 32 + 7), i requires 0 <= i => KeyWord(key, keysize / 32, i)), keysize / 32 + 6)
  }

  /** Word j of the decryption schedule. */
  function DecWord(w: seq<word>, nr: nat, j: nat): word
    requires 4 * (nr + 1) <= |w| && j < 4 * (nr + 1)
  {
    var k := w[4 * (nr - j / 4) + j % 4];
    if j / 4 == 0 || j / 4 == nr then k else InvMixColumn(k)
  }

  lemma DecWordAt(w: seq<word>, nr: nat, r: nat, c: nat)
    requires 4 * (nr + 1) <= |w| && r <= nr && c < 4
    ensures DecWord(w, nr, 4 * r + c)
         == if r == 0 || r == nr then w[4 * (nr - r) + c] else InvMixColumn(w[4 * (nr - r) + c])
  {
    hide InvMixColumn;
    assert (4 * r + c) / 4 == r && (4 * r + c) % 4 == c;
  }

  lemma DecWordsAreInvKeys(w: seq<word>, d: seq<word>, nr: nat)
    requires nr > 0 && 4 * (nr + 1) <= |w| && 4 * (nr + 1) <= |d|
    requires forall j | 0 <= j < 4 * (nr + 1) :: d[j] == DecWord(w, nr, j)
    ensures RoundKeys(d, nr) == InvKeys(RoundKeys(w, nr))
  {
    hide InvMixColumn, DecWord;
    var dk, ik := RoundKeys(d, nr), InvKeys(RoundKeys(w, nr));
    forall r | 0 <= r <= nr
      ensures dk[r] == ik[r]
    {
      DecWordAt(w, nr, r, 0);
      DecWordAt(w, nr, r, 1);
      DecWordAt(w, nr, r, 2);
      DecWordAt(w, nr, r, 3);
      assert d[4 * r + 0] == DecWord(w, nr, 4 * r + 0) && d[4 * r + 1] == DecWord(w, nr, 4 * r + 1);
      assert d[4 * r + 2] == DecWord(w, nr, 4 * r + 2) && d[4 * r + 3] == DecWord(w, nr, 4 * r + 3);
      var k := KeyAt(w, 4 * (nr - r));
      assert RoundKeys(w, nr)[nr - r] == k;
      assert dk[r] == KeyAt(d, 4 * r);
      if r == 0 || r == nr {
        assert ik[r] == k;
      } else {
        assert ik[r] == InvMixColumns(k);
      }
    }
  }

  class Context {
    const t: Tables
    const buf: array<word>
    var nr: nat

    /** The tables are built and the buffer exists; the key may not be set yet. */
    ghost predicate Ready() {
      t.Valid() && buf.Length == 68
    }

    ghost predicate Valid()
      reads this
    {
      Ready() && nr in {10, 12, 14}
    }

    ghost function Keys(): (keys: seq<State>)
      requires Valid()
      reads this, buf
      ensures |keys| == nr + 1
    {
      RoundKeys(buf[..], nr)
    }

    constructor (t: Tables)
      requires t.Valid()
      ensures Ready() && this.t == t && fresh(buf)
    {
      this.t := t;
      buf := new word[68];
      nr := 0;
    }

    // ----- aes_setkey_enc

    /** The first n words of the buffer hold the schedule of the key. */
    ghost predicate Filled(key: seq<byte>, nk: nat, n: nat)
      reads buf
    {
      && buf.Length == 68 && n <= 68 && nk > 0 && 4 * nk <= |key|
      && forall j | 0 <= j < n :: buf[j] == KeyWord(key, nk, j)
    }

    method Put(ghost key: seq<byte>, ghost nk: nat, j: nat, w: word)
      requires Filled(key, nk, j) && j < 68 && w == KeyWord(key, nk, j)
      modifies buf
      ensures Filled(key, nk, j + 1)
    {
      hide KeyWord;
      buf[j] := w;
    }

    method SetKeyEnc(key: seq<byte>, keysize: nat) returns (ret: int)
      requires Ready() && (KeySize(keysize) ==> 8 * |key| >= keysize)
      modifies this`nr, buf
      ensures KeySize(keysize) ==> ret == 0 && Valid() && Keys() == EncKeys(key, keysize)
      ensures !KeySize(keysize) ==>
        ret == ERR_INVALID_KEY_LENGTH && nr == old(nr) && buf[..] == old(buf[..])
    {
      hide Tables.Valid, KeyWord;
      if keysize == 128 {
        nr := 10;
      } else if keysize == 192 {
        nr := 12;
      } else if keysize == 256 {
        nr := 14;
      } else {
        return ERR_INVALID_KEY_LENGTH;
      }
      LoadKey(key, keysize / 32);
      if nr == 10 {
        Expand128(key);
      } else if nr == 12 {
        Expand192(key);
      } else {
        Expand256(key);
      }
      assert Keys() == EncKeys(key, keysize);
      return 0;
    }

    method LoadKey(key: seq<byte>, nk: nat)
      requires Ready() && 0 < nk <= 8 && 4 * nk <= |key|
      modifies buf
      ensures Filled(key, nk, nk)
    {
      hide LittleWord;
      for i := 0 to nk
        invariant Filled(key, nk, i)
      {
        Put(key, nk, i, LittleWord(key[4 * i], key[4 * i + 1], key[4 * i + 2], key[4 * i + 3]));
      }
    }

    method Next(ghost key: seq<byte>, ghost nk: nat, ghost r: nat, ghost c: nat, j: nat, below: nat)
      requires nk in {4, 6, 8} && 0 < c < nk && !(nk > 6 && c == 4) && j == nk * r + nk + c < 68 && below == nk * r + c
      requires Filled(key, nk, j)
      modifies buf
      ensures Filled(key, nk, j + 1)
    {
      hide KeyWord, Xor;
      RowNext(key, nk, r, c);
      Put(key, nk, j, Xor(buf[below], buf[j - 1]));
    }

    method Start(ghost key: seq<byte>, nk: nat, i: nat)
      requires Ready() && nk in {4, 6, 8} && i < 10 && nk * i + nk < 68 && Filled(key, nk, nk * i + nk)
      modifies buf
      ensures Filled(key, nk, nk * i + nk + 1)
    {
      hide KeyWord, Xor, SubWord, RotWord, IsFSbox, IsRSbox, IsForward, IsReverse, Rcon, Widen;
      var rk := nk * i;
      RowStart(key, nk, i);
      var core := Core(t, buf[rk + nk - 1]);
      Put(key, nk, rk + nk, Xor(Xor(buf[rk], t.rcon[i]), core));
    }

    method Expand128(key: seq<byte>)
      requires Ready() && Filled(key, 4, 4)
      modifies buf
      ensures Filled(key, 4, 44)
    {
      hide Tables.Valid, Filled;
      for i := 0 to 10
        invariant Filled(key, 4, 4 * i + 4)
      {
        Start(key, 4, i);
        Next(key, 4, i, 1, 4 * i + 5, 4 * i + 1);
        Next(key, 4, i, 2, 4 * i + 6, 4 * i + 2);
        Next(key, 4, i, 3, 4 * i + 7, 4 * i + 3);
      }
    }

    method Expand192(key: seq<byte>)
      requires Ready() && Filled(key, 6, 6)
      modifies buf
      ensures Filled(key, 6, 52)
    {
      hide Tables.Valid;
      for i := 0 to 8
        invariant Filled(key, 6, 6 * i + 6)
      {
        Start(key, 6, i);
        Next(key, 6, i, 1, 6 * i + 7, 6 * i + 1);
        Next(key, 6, i, 2, 6 * i + 8, 6 * i + 2);
        Next(key, 6, i, 3, 6 * i + 9, 6 * i + 3);
        Next(key, 6, i, 4, 6 * i + 10, 6 * i + 4);
        Next(key, 6, i, 5, 6 * i + 11, 6 * i + 5);
      }
    }

    method Middle(key: seq<byte>, i: nat)
      requires Ready() && i < 7 && Filled(key, 8, 8 * i + 12)
      modifies buf
      ensures Filled(key, 8, 8 * i + 13)
    {
      hide KeyWord, Xor, SubWord, Tables.Valid;
      RowMiddle(key, i);
      var s := SubOfWord(t, buf[8 * i + 11]);
      Put(key, 8, 8 * i + 12, Xor(buf[8 * i + 4], s));
    }

    method Expand256(key: seq<byte>)
      requires Ready() && Filled(key, 8, 8)
      modifies buf
      ensures Filled(key, 8, 60)
    {
      hide Tables.Valid;
      for i := 0 to 7
        invariant Filled(key, 8, 8 * i + 8)
      {
        Start(key, 8, i);
        Next(key, 8, i, 1, 8 * i + 9, 8 * i + 1);
        Next(key, 8, i, 2, 8 * i + 10, 8 * i + 2);
        Next(key, 8, i, 3, 8 * i + 11, 8 * i + 3);
        Middle(key, i);
        Next(key, 8, i, 5, 8 * i + 13, 8 * i + 5);
        Next(key, 8, i, 6, 8 * i + 14, 8 * i + 6);
        Next(key, 8, i, 7, 8 * i + 15, 8 * i + 7);
      }
    }

    // ----- aes_setkey_dec

    method SetKeyDec(key: seq<byte>, keysize: nat) returns (ret: int)
      requires Ready() && (KeySize(keysize) ==> 8 * |key| >= keysize)
      modifies this`nr, buf
      ensures KeySize(keysize) ==> ret == 0 && Valid() && Keys() == InvKeys(EncKeys(key, keysize))
      ensures !KeySize(keysize) ==>
        ret == ERR_INVALID_KEY_LENGTH && nr == old(nr) && buf[..] == old(buf[..])
    {
      hide Tables.Valid, KeyWord, EncKeys, InvMixColumn, DecWord, RoundKeys;
      if keysize == 128 {
        nr := 10;
      } else if keysize == 192 {
        nr := 12;
      } else if keysize == 256 {
        nr := 14;
      } else {
        return ERR_INVALID_KEY_LENGTH;
      }
      var cty := new Context(t);
      ret := cty.SetKeyEnc(key, keysize);
      if ret != 0 {
        return;
      }
      InvertKeys(cty.buf);
      DecWordsAreInvKeys(cty.buf[..], buf[..], nr);
      return 0;
    }

    /** The inner loop over the row of round i, with InvMixColumns on every word. */
    method InvertRow(src: array<word>, i: nat)
      requires Valid() && src != buf && src.Length == 68 && 0 < i < nr
      requires forall m | 0 <= m < 4 * (nr - i) :: buf[m] == DecWord(src[..], nr, m)
      modifies buf
      ensures forall m | 0 <= m < 4 * (nr - i) + 4 :: buf[m] == DecWord(src[..], nr, m)
    {
      hide Tables.Valid, InvMixColumn;
      var rk, sk := 4 * (nr - i), 4 * i;
      for j := 0 to 4
        invariant rk == 4 * (nr - i) + j && sk == 4 * i + j
        invariant forall m | 0 <= m < rk :: buf[m] == DecWord(src[..], nr, m)
      {
        buf[rk] := InvMixLookups(t, src[sk]);
        rk, sk := rk + 1, sk + 1;
      }
    }

    /** Copies the outer round keys and mixes the inner ones, last round first. */
    method InvertKeys(src: array<word>)
      requires Valid() && src != buf && src.Length == 68
      modifies buf
      ensures forall j | 0 <= j < 4 * (nr + 1) :: buf[j] == DecWord(src[..], nr, j)
    {
      hide Tables.Valid, InvMixColumn;
      var rk, sk: int := 0, nr * 4;
      for j := 0 to 4
        invariant rk == j && sk == nr * 4 + j
        invariant forall m | 0 <= m < rk :: buf[m] == DecWord(src[..], nr, m)
      {
        buf[rk] := src[sk];
        rk, sk := rk + 1, sk + 1;
      }
      sk := sk - 8;
      var i := nr - 1;
      while i > 0
        invariant 0 <= i < nr && rk == 4 * (nr - i) && sk == 4 * i
        invariant forall m | 0 <= m < rk :: buf[m] == DecWord(src[..], nr, m)
      {
        InvertRow(src, i);
        rk, sk := rk + 4, sk - 4;
        i := i - 1;
      }
      for j := 0 to 4
        invariant rk == 4 * nr + j && sk == j
        invariant forall m | 0 <= m < rk :: buf[m] == DecWord(src[..], nr, m)
      {
        buf[rk] := src[sk];
        rk, sk := rk + 1, sk + 1;
      }
    }

    /** The round key under the RK pointer, when RK stands at round r. */
    method KeyOf(r: nat, ghost keys: seq<State>) returns (k: State)
      requires Valid() && r <= nr && keys == Keys()
      ensures k == keys[r]
    {
      k := State(buf[4 * r], buf[4 * r + 1], buf[4 * r + 2], buf[4 * r + 3]);
    }

    method EncryptState(x: State) returns (r: State)
      requires Valid()
      ensures r == Cipher(Keys(), x)
    {
      hide Tables.Valid, AddRoundKey, Round, FinalRound, Keys;
      ghost var keys := Keys();
      var k := KeyOf(0, keys);
      var s := AddRoundKey(x, k);
      var rk := 0;
      var i := nr / 2 - 1;
      while i > 0
        invariant 0 <= i < nr / 2 && rk == nr - 2 - 2 * i
        invariant s == AfterRounds(keys, rk, x)
      {
        k := KeyOf(rk + 1, keys);
        var y := FRound(t, k, s);
        k := KeyOf(rk + 2, keys);
        s := FRound(t, k, y);
        rk := rk + 2;
        i := i - 1;
      }
      k := KeyOf(rk + 1, keys);
      var y := FRound(t, k, s);
      k := KeyOf(rk + 2, keys);
      r := FFinal(t, k, y);
    }

    method DecryptState(x: State) returns (r: State)
      requires Valid()
      ensures r == EqInvCipher(Keys(), x)
    {
      hide Tables.Valid, AddRoundKey, InvRound, InvFinalRound, Keys;
      ghost var keys := Keys();
      var k := KeyOf(0, keys);
      var s := AddRoundKey(x, k);
      var rk := 0;
      var i := nr / 2 - 1;
      while i > 0
        invariant 0 <= i < nr / 2 && rk == nr - 2 - 2 * i
        invariant s == AfterInvRounds(keys, rk, x)
      {
        k := KeyOf(rk + 1, keys);
        var y := RRound(t, k, s);
        k := KeyOf(rk + 2, keys);
        s := RRound(t, k, y);
        rk := rk + 2;
        i := i - 1;
      }
      k := KeyOf(rk + 1, keys);
      var y := RRound(t, k, s);
      k := KeyOf(rk + 2, keys);
      r := RFinal(t, k, y);
    }

    /** aes_crypt_ecb on input[inAt..inAt + 16]; the output block may be the same memory. */
    method CryptEcb(mode: int, input: array<byte>, inAt: nat, output: array<byte>, outAt: nat)
      requires Valid() && inAt + 16 <= input.Length && outAt + 16 <= output.Length
      modifies output
      ensures Valid() && Keys() == old(Keys())
      ensures output[outAt..outAt + 16] == CryptBlock(Keys(), mode, old(input[inAt..inAt + 16]))
      ensures output[..outAt] == old(output[..outAt]) && output[outAt + 16..] == old(output[outAt + 16..])
    {
      hide Tables.Valid, LoadState, StoreState, RoundKeys, Cipher, EqInvCipher;
      var x := LoadState(input[inAt..inAt + 16]);
      if mode == AES_DECRYPT {
        x := DecryptState(x);
      } else {
        x := EncryptState(x);
      }
      var block := StoreState(x);
      for i := 0 to 16
        invariant output[outAt..outAt + i] == block[..i]
        invariant output[..outAt] == old(output[..outAt]) && output[outAt + 16..] == old(output[outAt + 16..])
        invariant buf[..] == old(buf[..])
      {
        output[outAt + i] := block[i];
      }
      assert block[..16] == block;
    }
  }
}
