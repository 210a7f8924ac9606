/** The cipher of FIPS 197 on four little-endian columns, and the equivalent inverse cipher of section 5.3.5. */
module AesCipher {
  import opened Words
  import opened Gf256
  import opened AesTables

  /** The state; word c is column c, row 0 in its low byte. */
  datatype State = State(x0: word, x1: word, x2: word, x3: word)

  ghost function SubWord(w: word): word {
    LittleWord(Sub(Byte0(w)), Sub(Byte1(w)), Sub(Byte2(w)), Sub(Byte3(w)))
  }

  ghost function InvSubWord(w: word): word {
    LittleWord(InvSub(Byte0(w)), InvSub(Byte1(w)), InvSub(Byte2(w)), InvSub(Byte3(w)))
  }

  ghost function SubBytes(s: State): State {
    State(SubWord(s.x0), SubWord(s.x1), SubWord(s.x2), SubWord(s.x3))
  }

  ghost function InvSubBytes(s: State): State {
    State(InvSubWord(s.x0), InvSubWord(s.x1), InvSubWord(s.x2), InvSubWord(s.x3))
  }

  /** Row r of column c comes from column c + r. */
  function ShiftRows(s: State): State {
    State(LittleWord(Byte0(s.x0), Byte1(s.x1), Byte2(s.x2), Byte3(s.x3)),
          LittleWord(Byte0(s.x1), Byte1(s.x2), Byte2(s.x3), Byte3(s.x0)),
          LittleWord(Byte0(s.x2), Byte1(s.x3), Byte2(s.x0), Byte3(s.x1)),
          LittleWord(Byte0(s.x3), Byte1(s.x0), Byte2(s.x1), Byte3(s.x2)))
  }

  function InvShiftRows(s: State): State {
    State(LittleWord(Byte0(s.x0), Byte1(s.x3), Byte2(s.x2), Byte3(s.x1)),
          LittleWord(Byte0(s.x1), Byte1(s.x0), Byte2(s.x3), Byte3(s.x2)),
          LittleWord(Byte0(s.x2), Byte1(s.x1), Byte2(s.x0), Byte3(s.x3)),
          LittleWord(Byte0(s.x3), Byte1(s.x2), Byte2(s.x1), Byte3(s.x0)))
  }

  /** One row of a matrix over GF(2^8) times a column. */
  function Dot(c0: byte, c1: byte, c2: byte, c3: byte, b0: byte, b1: byte, b2: byte, b3: byte): byte {
    Add(Add(Mul(c0, b0), Mul(c1, b1)), Add(Mul(c2, b2), Mul(c3, b3)))
  }

  function MixColumn(w: word): word {
    var b0, b1, b2, b3 := Byte0(w), Byte1(w), Byte2(w), Byte3(w);
    LittleWord(Dot(2, 3, 1, 1, b0, b1, b2, b3), Dot(1, 2, 3, 1, b0, b1, b2, b3),
               Dot(1, 1, 2, 3, b0, b1, b2, b3), Dot(3, 1, 1, 2, b0, b1, b2, b3))
  }

  function InvMixColumn(w: word): word {
    var b0, b1, b2, b3 := Byte0(w), Byte1(w), Byte2(w), Byte3(w);
    LittleWord(Dot(14, 11, 13, 9, b0, b1, b2, b3), Dot(9, 14, 11, 13, b0, b1, b2, b3),
               Dot(13, 9, 14, 11, b0, b1, b2, b3), Dot(11, 13, 9, 14, b0, b1, b2, b3))
  }

  function MixColumns(s: State): State {
    State(MixColumn(s.x0), MixColumn(s.x1), MixColumn(s.x2), MixColumn(s.x3))
  }

  function InvMixColumns(s: State): State {
    State(InvMixColumn(s.x0), InvMixColumn(s.x1), InvMixColumn(s.x2), InvMixColumn(s.x3))
  }

  function AddRoundKey(s: State, k: State): State {
    State(Xor(k.x0, s.x0), Xor(k.x1, s.x1), Xor(k.x2, s.x2), Xor(k.x3, s.x3))
  }

  // ----- the ciphers; keys[r] is the round key of round r

  ghost function Round(s: State, k: State): State {
    AddRoundKey(MixColumns(ShiftRows(SubBytes(s))), k)
  }

  ghost function FinalRound(s: State, k: State): State {
    AddRoundKey(ShiftRows(SubBytes(s)), k)
  }

  ghost function InvRound(s: State, k: State): State {
    AddRoundKey(InvMixColumns(InvShiftRows(InvSubBytes(s))), k)
  }

  ghost function InvFinalRound(s: State, k: State): State {
    AddRoundKey(InvShiftRows(InvSubBytes(s)), k)
  }

  ghost function AfterRounds(keys: seq<State>, r: nat, input: State): State
    requires r < |keys|
  {
    if r == 0 then AddRoundKey(input, keys[0]) else Round(AfterRounds(keys, r - 1, input), keys[r])
  }

  ghost function AfterInvRounds(keys: seq<State>, r: nat, input: State): State
    requires r < |keys|
  {
    if r == 0 then AddRoundKey(input, keys[0]) else InvRound(AfterInvRounds(keys, r - 1, input), keys[r])
  }

  ghost function Cipher(keys: seq<State>, input: State): State
    requires |keys| >= 2
  {
    FinalRound(AfterRounds(keys, |keys| - 2, input), keys[|keys| - 1])
  }

  ghost function EqInvCipher(keys: seq<State>, input: State): State
    requires |keys| >= 2
  {
    InvFinalRound(AfterInvRounds(keys, |keys| - 2, input), keys[|keys| - 1])
  }

  /** The decryption schedule: reversed, with the inner round keys mixed backwards. */
  function InvKeys(keys: seq<State>): (dk: seq<State>)
    requires |keys| >= 2
    ensures |dk| == |keys|
  {
    seq(|keys|, r requires 0 <= r < |keys| =>
      if r == 0 || r == |keys| - 1 then keys[|keys| - 1 - r] else InvMixColumns(keys[|keys| - 1 - r]))
  }

  // ----- each step has an inverse

  lemma InvSubShift(s: State)
    ensures InvShiftRows(InvSubBytes(ShiftRows(SubBytes(s)))) == s
  {
    hide Byte0, Byte1, Byte2, Byte3, LittleWord, Sub, InvSub;
    SubWordBytes(s.x0);
    SubWordBytes(s.x1);
    SubWordBytes(s.x2);
    SubWordBytes(s.x3);
    var t := SubBytes(s);
    LittleWordBytes(Byte0(t.x0), Byte1(t.x1), Byte2(t.x2), Byte3(t.x3));
    LittleWordBytes(Byte0(t.x1), Byte1(t.x2), Byte2(t.x3), Byte3(t.x0));
    LittleWordBytes(Byte0(t.x2), Byte1(t.x3), Byte2(t.x0), Byte3(t.x1));
    LittleWordBytes(Byte0(t.x3), Byte1(t.x0), Byte2(t.x1), Byte3(t.x2));
    var u := ShiftRows(t);
    InvSubWordBytes(u.x0);
    InvSubWordBytes(u.x1);
    InvSubWordBytes(u.x2);
    InvSubWordBytes(u.x3);
  }

  /** Substituting the bytes of a word, and undoing it byte by byte. */
  lemma SubWordBytes(w: word)
    ensures var v := SubWord(w);
      && InvSub(Byte0(v)) == Byte0(w) && InvSub(Byte1(v)) == Byte1(w)
      && InvSub(Byte2(v)) == Byte2(w) && InvSub(Byte3(v)) == Byte3(w)
    ensures LittleWord(Byte0(w), Byte1(w), Byte2(w), Byte3(w)) == w
  {
    hide Byte0, Byte1, Byte2, Byte3, LittleWord, Sub, InvSub;
    LittleWordBytes(Sub(Byte0(w)), Sub(Byte1(w)), Sub(Byte2(w)), Sub(Byte3(w)));
    SubInverse(Byte0(w));
    SubInverse(Byte1(w));
    SubInverse(Byte2(w));
    SubInverse(Byte3(w));
    WordOfBytes(w);
  }

  lemma InvSubWordBytes(w: word)
    ensures var v := InvSubWord(w);
      && Byte0(v) == InvSub(Byte0(w)) && Byte1(v) == InvSub(Byte1(w))
      && Byte2(v) == InvSub(Byte2(w)) && Byte3(v) == InvSub(Byte3(w))
  {
    hide Byte0, Byte1, Byte2, Byte3, LittleWord, InvSub;
    LittleWordBytes(InvSub(Byte0(w)), InvSub(Byte1(w)), InvSub(Byte2(w)), InvSub(Byte3(w)));
  }

  lemma WordOfBytes(w: word)
    ensures LittleWord(Byte0(w), Byte1(w), Byte2(w), Byte3(w)) == w
  {}

  /** Matrix rows compose: row (e0..e3) after the four rows of MixColumn is the product row. */
  lemma DotScale(e: byte, c0: byte, c1: byte, c2: byte, c3: byte, b0: byte, b1: byte, b2: byte, b3: byte)
    ensures Mul(e, Dot(c0, c1, c2, c3, b0, b1, b2, b3))
         == Dot(Mul(e, c0), Mul(e, c1), Mul(e, c2), Mul(e, c3), b0, b1, b2, b3)
  {
    hide Mul, Add;
    MulAdd(Add(Mul(c0, b0), Mul(c1, b1)), Add(Mul(c2, b2), Mul(c3, b3)), e);
    MulAdd(Mul(c0, b0), Mul(c1, b1), e);
    MulAdd(Mul(c2, b2), Mul(c3, b3), e);
    MulAssoc(e, c0, b0);
    MulAssoc(e, c1, b1);
    MulAssoc(e, c2, b2);
    MulAssoc(e, c3, b3);
  }

  lemma DotAdd(c0: byte, c1: byte, c2: byte, c3: byte, d0: byte, d1: byte, d2: byte, d3: byte,
               b0: byte, b1: byte, b2: byte, b3: byte)
    ensures Add(Dot(c0, c1, c2, c3, b0, b1, b2, b3), Dot(d0, d1, d2, d3, b0, b1, b2, b3))
         == Dot(Add(c0, d0), Add(c1, d1), Add(c2, d2), Add(c3, d3), b0, b1, b2, b3)
  {
    hide Mul, Add;
    MulAdd(c0, d0, b0);
    MulAdd(c1, d1, b1);
    MulAdd(c2, d2, b2);
    MulAdd(c3, d3, b3);
    AddSwap(Add(Mul(c0, b0), Mul(c1, b1)), Add(Mul(c2, b2), Mul(c3, b3)),
            Add(Mul(d0, b0), Mul(d1, b1)), Add(Mul(d2, b2), Mul(d3, b3)));
    AddSwap(Mul(c0, b0), Mul(c1, b1), Mul(d0, b0), Mul(d1, b1));
    AddSwap(Mul(c2, b2), Mul(c3, b3), Mul(d2, b2), Mul(d3, b3));
  }

  /** Coefficient of one input byte after a row (e0..e3) meets a column (m0..m3). */
  function Entry(e0: byte, e1: byte, e2: byte, e3: byte, m0: byte, m1: byte, m2: byte, m3: byte): byte {
    Add(Add(Mul(e0, m0), Mul(e1, m1)), Add(Mul(e2, m2), Mul(e3, m3)))
  }

  lemma RowAfterMix(e0: byte, e1: byte, e2: byte, e3: byte, b0: byte, b1: byte, b2: byte, b3: byte)
    ensures Dot(e0, e1, e2, e3, Dot(2, 3, 1, 1, b0, b1, b2, b3), Dot(1, 2, 3, 1, b0, b1, b2, b3),
                                Dot(1, 1, 2, 3, b0, b1, b2, b3), Dot(3, 1, 1, 2, b0, b1, b2, b3))
         == Dot(Entry(e0, e1, e2, e3, 2, 1, 1, 3), Entry(e0, e1, e2, e3, 3, 2, 1, 1),
                Entry(e0, e1, e2, e3, 1, 3, 2, 1), Entry(e0, e1, e2, e3, 1, 1, 3, 2), b0, b1, b2, b3)
  {
    hide Mul, Add;
    DotScale(e0, 2, 3, 1, 1, b0, b1, b2, b3);
    DotScale(e1, 1, 2, 3, 1, b0, b1, b2, b3);
    DotScale(e2, 1, 1, 2, 3, b0, b1, b2, b3);
    DotScale(e3, 3, 1, 1, 2, b0, b1, b2, b3);
    hide Dot;
    DotAdd(Mul(e0, 2), Mul(e0, 3), Mul(e0, 1), Mul(e0, 1), Mul(e1, 1), Mul(e1, 2), Mul(e1, 3), Mul(e1, 1),
           b0, b1, b2, b3);
    DotAdd(Mul(e2, 1), Mul(e2, 1), Mul(e2, 2), Mul(e2, 3), Mul(e3, 3), Mul(e3, 1), Mul(e3, 1), Mul(e3, 2),
           b0, b1, b2, b3);
    DotAdd(Add(Mul(e0, 2), Mul(e1, 1)), Add(Mul(e0, 3), Mul(e1, 2)), Add(Mul(e0, 1), Mul(e1, 3)),
           Add(Mul(e0, 1), Mul(e1, 1)),
           Add(Mul(e2, 1), Mul(e3, 3)), Add(Mul(e2, 1), Mul(e3, 1)), Add(Mul(e2, 2), Mul(e3, 1)),
           Add(Mul(e2, 3), Mul(e3, 2)),
           b0, b1, b2, b3);
    DotUnfold(e0, e1, e2, e3, Dot(2, 3, 1, 1, b0, b1, b2, b3), Dot(1, 2, 3, 1, b0, b1, b2, b3),
              Dot(1, 1, 2, 3, b0, b1, b2, b3), Dot(3, 1, 1, 2, b0, b1, b2, b3));
  }

  lemma DotUnfold(c0: byte, c1: byte, c2: byte, c3: byte, b0: byte, b1: byte, b2: byte, b3: byte)
    ensures Dot(c0, c1, c2, c3, b0, b1, b2, b3)
         == Add(Add(Mul(c0, b0), Mul(c1, b1)), Add(Mul(c2, b2), Mul(c3, b3)))
  {
    hide Mul, Add;
  }

  /** The two coefficient matrices are inverse. */
  lemma MatrixProduct()
    ensures Entry(14, 11, 13, 9, 2, 1, 1, 3) == 1 && Entry(14, 11, 13, 9, 3, 2, 1, 1) == 0
    ensures Entry(14, 11, 13, 9, 1, 3, 2, 1) == 0 && Entry(14, 11, 13, 9, 1, 1, 3, 2) == 0
    ensures Entry(9, 14, 11, 13, 2, 1, 1, 3) == 0 && Entry(9, 14, 11, 13, 3, 2, 1, 1) == 1
    ensures Entry(9, 14, 11, 13, 1, 3, 2, 1) == 0 && Entry(9, 14, 11, 13, 1, 1, 3, 2) == 0
    ensures Entry(13, 9, 14, 11, 2, 1, 1, 3) == 0 && Entry(13, 9, 14, 11, 3, 2, 1, 1) == 0
    ensures Entry(13, 9, 14, 11, 1, 3, 2, 1) == 1 && Entry(13, 9, 14, 11, 1, 1, 3, 2) == 0
    ensures Entry(11, 13, 9, 14, 2, 1, 1, 3) == 0 && Entry(11, 13, 9, 14, 3, 2, 1, 1) == 0
    ensures Entry(11, 13, 9, 14, 1, 3, 2, 1) == 0 && Entry(11, 13, 9, 14, 1, 1, 3, 2) == 1
  {
    SmallProducts();
    hide Mul;
  }

  lemma SmallProducts()
    ensures Mul(14, 1) == 14 && Mul(11, 1) == 11 && Mul(13, 1) == 13 && Mul(9, 1) == 9
    ensures Mul(14, 2) == 28 && Mul(11, 2) == 22 && Mul(13, 2) == 26 && Mul(9, 2) == 18
    ensures Mul(14, 3) == 18 && Mul(11, 3) == 29 && Mul(13, 3) == 23 && Mul(9, 3) == 27
  {}

  lemma InvMixOfMix(w: word)
    ensures InvMixColumn(MixColumn(w)) == w
  {
    hide Byte0, Byte1, Byte2, Byte3, LittleWord, Dot, Entry;
    var b0, b1, b2, b3 := Byte0(w), Byte1(w), Byte2(w), Byte3(w);
    LittleWordBytes(Dot(2, 3, 1, 1, b0, b1, b2, b3), Dot(1, 2, 3, 1, b0, b1, b2, b3),
                    Dot(1, 1, 2, 3, b0, b1, b2, b3), Dot(3, 1, 1, 2, b0, b1, b2, b3));
    MatrixProduct();
    RowAfterMix(14, 11, 13, 9, b0, b1, b2, b3);
    RowAfterMix(9, 14, 11, 13, b0, b1, b2, b3);
    RowAfterMix(13, 9, 14, 11, b0, b1, b2, b3);
    RowAfterMix(11, 13, 9, 14, b0, b1, b2, b3);
    DotUnit(b0, b1, b2, b3);
    WordOfBytes(w);
  }

  lemma DotUnit(b0: byte, b1: byte, b2: byte, b3: byte)
    ensures Dot(1, 0, 0, 0, b0, b1, b2, b3) == b0 && Dot(0, 1, 0, 0, b0, b1, b2, b3) == b1
    ensures Dot(0, 0, 1, 0, b0, b1, b2, b3) == b2 && Dot(0, 0, 0, 1, b0, b1, b2, b3) == b3
  {
    hide Mul, Add;
    MulOne(b0); MulOne(b1); MulOne(b2); MulOne(b3);
    MulZeros(0, b0); MulZeros(0, b1); MulZeros(0, b2); MulZeros(0, b3);
    AddLaws(b0, 0, 0); AddLaws(b1, 0, 0); AddLaws(b2, 0, 0); AddLaws(b3, 0, 0); AddLaws(0, 0, 0);
  }

  // ----- inverse mixing is linear, so it can be moved across a round key

  lemma InvMixXor(v: word, w: word)
    ensures InvMixColumn(Xor(v, w)) == Xor(InvMixColumn(v), InvMixColumn(w))
  {
    hide Xor, Byte0, Byte1, Byte2, Byte3, LittleWord, Dot, Add;
    XorBytes(v, w);
    var a0, a1, a2, a3 := Byte0(v), Byte1(v), Byte2(v), Byte3(v);
    var b0, b1, b2, b3 := Byte0(w), Byte1(w), Byte2(w), Byte3(w);
    DotXor(14, 11, 13, 9, a0, a1, a2, a3, b0, b1, b2, b3);
    DotXor(9, 14, 11, 13, a0, a1, a2, a3, b0, b1, b2, b3);
    DotXor(13, 9, 14, 11, a0, a1, a2, a3, b0, b1, b2, b3);
    DotXor(11, 13, 9, 14, a0, a1, a2, a3, b0, b1, b2, b3);
    LittleWordXor(Dot(14, 11, 13, 9, a0, a1, a2, a3), Dot(9, 14, 11, 13, a0, a1, a2, a3),
                  Dot(13, 9, 14, 11, a0, a1, a2, a3), Dot(11, 13, 9, 14, a0, a1, a2, a3),
                  Dot(14, 11, 13, 9, b0, b1, b2, b3), Dot(9, 14, 11, 13, b0, b1, b2, b3),
                  Dot(13, 9, 14, 11, b0, b1, b2, b3), Dot(11, 13, 9, 14, b0, b1, b2, b3));
  }

  lemma DotXor(c0: byte, c1: byte, c2: byte, c3: byte, a0: byte, a1: byte, a2: byte, a3: byte,
               b0: byte, b1: byte, b2: byte, b3: byte)
    ensures Dot(c0, c1, c2, c3, Add(a0, b0), Add(a1, b1), Add(a2, b2), Add(a3, b3))
         == Add(Dot(c0, c1, c2, c3, a0, a1, a2, a3), Dot(c0, c1, c2, c3, b0, b1, b2, b3))
  {
    hide Mul, Add;
    MulAdd(a0, b0, c0);
    MulAdd(a1, b1, c1);
    MulAdd(a2, b2, c2);
    MulAdd(a3, b3, c3);
    AddSwap(Mul(c0, a0), Mul(c0, b0), Mul(c1, a1), Mul(c1, b1));
    AddSwap(Mul(c2, a2), Mul(c2, b2), Mul(c3, a3), Mul(c3, b3));
    AddSwap(Add(Mul(c0, a0), Mul(c1, a1)), Add(Mul(c0, b0), Mul(c1, b1)),
            Add(Mul(c2, a2), Mul(c3, a3)), Add(Mul(c2, b2), Mul(c3, b3)));
  }

  lemma XorBytes(v: word, w: word)
    ensures Byte0(Xor(v, w)) == Add(Byte0(v), Byte0(w)) && Byte1(Xor(v, w)) == Add(Byte1(v), Byte1(w))
    ensures Byte2(Xor(v, w)) == Add(Byte2(v), Byte2(w)) && Byte3(Xor(v, w)) == Add(Byte3(v), Byte3(w))
  {
    hide Xor, Byte0, Byte1, Byte2, Byte3, LittleWord, Add;
    var a0, a1, a2, a3 := Byte0(v), Byte1(v), Byte2(v), Byte3(v);
    var b0, b1, b2, b3 := Byte0(w), Byte1(w), Byte2(w), Byte3(w);
    WordOfBytes(v);
    WordOfBytes(w);
    LittleWordXor(a0, a1, a2, a3, b0, b1, b2, b3);
    LittleWordBytes(Add(a0, b0), Add(a1, b1), Add(a2, b2), Add(a3, b3));
  }

  lemma LittleWordXor(a0: byte, a1: byte, a2: byte, a3: byte, b0: byte, b1: byte, b2: byte, b3: byte)
    ensures LittleWord(Add(a0, b0), Add(a1, b1), Add(a2, b2), Add(a3, b3))
         == Xor(LittleWord(a0, a1, a2, a3), LittleWord(b0, b1, b2, b3))
  {}

  lemma InvMixAfterRoundKey(s: State, k: State)
    ensures InvMixColumns(AddRoundKey(MixColumns(s), k)) == AddRoundKey(s, InvMixColumns(k))
  {
    hide Xor, MixColumn, InvMixColumn;
    InvMixXor(k.x0, MixColumn(s.x0));
    InvMixXor(k.x1, MixColumn(s.x1));
    InvMixXor(k.x2, MixColumn(s.x2));
    InvMixXor(k.x3, MixColumn(s.x3));
    InvMixOfMix(s.x0);
    InvMixOfMix(s.x1);
    InvMixOfMix(s.x2);
    InvMixOfMix(s.x3);
  }

  lemma AddRoundKeyTwice(s: State, k: State)
    ensures AddRoundKey(AddRoundKey(s, k), k) == s
  {
    hide Xor;
    XorSelf(k.x0, s.x0);
    XorSelf(k.x1, s.x1);
    XorSelf(k.x2, s.x2);
    XorSelf(k.x3, s.x3);
  }

  // ----- the equivalent inverse cipher undoes the cipher

  /** After r inverse rounds the state is what the cipher held inside round n - r, n the number of rounds. */
  lemma {:induction false} InverseRounds(keys: seq<State>, input: State, r: nat)
    requires |keys| >= 2 && r <= |keys| - 2
    ensures AfterInvRounds(InvKeys(keys), r, Cipher(keys, input))
         == ShiftRows(SubBytes(AfterRounds(keys, |keys| - 2 - r, input)))
  {
    hide ShiftRows, SubBytes, InvShiftRows, InvSubBytes, AddRoundKey, MixColumns, InvMixColumns;
    var n := |keys| - 1;
    if r == 0 {
      AddRoundKeyTwice(ShiftRows(SubBytes(AfterRounds(keys, n - 1, input))), keys[n]);
    } else {
      InverseRounds(keys, input, r - 1);
      var inner := AfterRounds(keys, n - r, input);
      InvSubShift(inner);
      var before := ShiftRows(SubBytes(AfterRounds(keys, n - 1 - r, input)));
      assert inner == AddRoundKey(MixColumns(before), keys[n - r]);
      InvMixAfterRoundKey(before, keys[n - r]);
      AddRoundKeyTwice(before, InvMixColumns(keys[n - r]));
    }
  }

  lemma DecryptsCipher(keys: seq<State>, input: State)
    requires |keys| >= 2
    ensures EqInvCipher(InvKeys(keys), Cipher(keys, input)) == input
  {
    hide ShiftRows, SubBytes, InvShiftRows, InvSubBytes, AddRoundKey, Round, InvRound, FinalRound;
    InverseRounds(keys, input, |keys| - 2);
    InvSubShift(AfterRounds(keys, 0, input));
    AddRoundKeyTwice(input, keys[0]);
  }
}
