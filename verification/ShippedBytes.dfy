/** The byte table that parsers.c carries. */
module ShippedBytes {
  import opened Words
  import opened SevenBit
  import opened Lextable
  import opened Headers

  // ----- the table, eight options a line

  const T0: seq<byte> :=
    [0x47, 0x07, 0x48, 0x0a, 0x43, 0x0f, 0x53, 0x19, 0x55, 0x3f, 0x4f, 0x46, 0x8d, 0x52, 0xc5, 0x01]
  const T1: seq<byte> :=
    [0xd4, 0x01, 0xa0, 0x01, 0x80, 0x00, 0x6f, 0x02, 0xd4, 0x76, 0xf3, 0x01, 0xf4, 0x01, 0xba, 0x01]
  const T2: seq<byte> :=
    [0x81, 0x00, 0xef, 0x01, 0xee, 0x01, 0xee, 0x01, 0xe5, 0x01, 0xe3, 0x01, 0xf4, 0x01, 0xe9, 0x01]
  const T3: seq<byte> :=
    [0xef, 0x01, 0xee, 0x01, 0xba, 0x01, 0x82, 0x00, 0xe5, 0x01, 0xe3, 0x01, 0xad, 0x01, 0xd7, 0x01]
  const T4: seq<byte> :=
    [0xe5, 0x01, 0xe2, 0x01, 0xd3, 0x01, 0xef, 0x01, 0xe3, 0x01, 0xeb, 0x01, 0xe5, 0x01, 0xf4, 0x01]
  const T5: seq<byte> :=
    [0xad, 0x01, 0x4b, 0x08, 0x50, 0x10, 0x44, 0x27, 0x56, 0x2f, 0x4f, 0x36, 0x45, 0x3c, 0x41, 0x46]
  const T6: seq<byte> :=
    [0xce, 0x4c, 0xe5, 0x01, 0xf9, 0x01, 0x31, 0x03, 0x32, 0x04, 0xba, 0x25, 0xba, 0x01, 0x83, 0x00]
  const T7: seq<byte> :=
    [0xba, 0x01, 0x84, 0x00, 0xf2, 0x01, 0xef, 0x01, 0xf4, 0x01, 0xef, 0x01, 0xe3, 0x01, 0xef, 0x01]
  const T8: seq<byte> :=
    [0xec, 0x01, 0xba, 0x01, 0x85, 0x00, 0xf0, 0x01, 0xe7, 0x01, 0xf2, 0x01, 0xe1, 0x01, 0xe4, 0x01]
  const T9: seq<byte> :=
    [0xe5, 0x01, 0xba, 0x01, 0x86, 0x00, 0xf2, 0x01, 0xe9, 0x01, 0xe7, 0x01, 0xe9, 0x01, 0xee, 0x01]
  const T10: seq<byte> :=
    [0xba, 0x01, 0x87, 0x00, 0xf2, 0x01, 0xe1, 0x01, 0xe6, 0x01, 0xf4, 0x01, 0xba, 0x01, 0x88, 0x00]
  const T11: seq<byte> :=
    [0x8a, 0x01, 0x89, 0x00, 0x8a, 0x00, 0xe5, 0x01, 0xf2, 0x01, 0xf3, 0x01, 0xe9, 0x01, 0xef, 0x01]
  const T12: seq<byte> :=
    [0xee, 0x01, 0xba, 0x01, 0x8b, 0x00, 0xf2, 0x01, 0xe9, 0x01, 0xe7, 0x01, 0xe9, 0x01, 0xee, 0x01]
  const T13: seq<byte> :=
    [0xba, 0x01, 0x8c, 0x00, 0xf8, 0x01, 0xf4, 0x01, 0xe5, 0x01, 0xee, 0x01, 0xf3, 0x01, 0xe9, 0x01]
  const T14: seq<byte> :=
    [0xef, 0x01, 0xee, 0x01, 0xf3, 0x01, 0xba, 0x01, 0x8d, 0x00, 0xe3, 0x01, 0xe3, 0x01, 0xe5, 0x01]
  const T15: seq<byte> :=
    [0xf0, 0x01, 0xf4, 0x01, 0xba, 0x01, 0x8e, 0x00, 0xef, 0x01, 0xee, 0x01, 0xe3, 0x01, 0xe5, 0x01]
  const T16: seq<byte> :=
    [0xba, 0x01, 0x8f, 0x00, 0xd4, 0x01, 0xd0, 0x01, 0xaf, 0x01, 0xb1, 0x01, 0xae, 0x01, 0xb1, 0x01]
  const T17: seq<byte> :=
    [0xa0, 0x01, 0x90, 0x00]

  const PIECES: seq<seq<byte>> := [T0, T1, T2, T3, T4, T5, T6, T7, T8,
                                   T9, T10, T11, T12, T13, T14, T15, T16, T17]
  const TABLE: seq<byte> := Joined(PIECES)

  function Joined(parts: seq<seq<byte>>): seq<byte>
    decreases |parts|
  {
    if parts == [] then [] else parts[0] + Joined(parts[1..])
  }

  lemma {:induction false} PieceAt(parts: seq<seq<byte>>, k: nat)
    requires k < |parts| && forall j | 0 <= j < |parts| - 1 :: |parts[j]| == 16
    ensures |Joined(parts)| == 16 * (|parts| - 1) + |parts[|parts| - 1]|
    ensures 16 * k + |parts[k]| <= |Joined(parts)| && Joined(parts)[16 * k..][..|parts[k]|] == parts[k]
    decreases |parts|
  {
    if |parts| == 1 {
      assert parts[1..] == [];
    } else {
      PieceAt(parts[1..], if k == 0 then 0 else k - 1);
    }
  }

  lemma PieceSizes()
    ensures |PIECES| == 18 && |PIECES[17]| == 4
    ensures forall j | 0 <= j < 17 :: |PIECES[j]| == 16
  {}

  lemma PiecesAre()
    ensures PIECES[0] == T0 && PIECES[1] == T1 && PIECES[2] == T2 && PIECES[3] == T3 && PIECES[4] == T4
    ensures PIECES[5] == T5 && PIECES[6] == T6 && PIECES[7] == T7 && PIECES[8] == T8 && PIECES[9] == T9
    ensures PIECES[10] == T10 && PIECES[11] == T11 && PIECES[12] == T12 && PIECES[13] == T13 && PIECES[14] == T14
    ensures PIECES[15] == T15 && PIECES[16] == T16 && PIECES[17] == T17
  {
    hide Joined;
    assert |PIECES| == 18;
  }

  lemma Four(t: seq<byte>, at: nat, s: seq<byte>)
    requires at + 4 <= |t| && |s| == 4 && t[at..][..4] == s
    ensures t[at] == s[0] && t[at + 1] == s[1] && t[at + 2] == s[2] && t[at + 3] == s[3]
  {}

  lemma Sixteen(t: seq<byte>, at: nat, s: seq<byte>)
    requires at + 16 <= |t| && |s| == 16 && t[at..][..16] == s
    ensures t[at] == s[0] && t[at + 1] == s[1] && t[at + 2] == s[2] && t[at + 3] == s[3]
    ensures t[at + 4] == s[4] && t[at + 5] == s[5] && t[at + 6] == s[6] && t[at + 7] == s[7]
    ensures t[at + 8] == s[8] && t[at + 9] == s[9] && t[at + 10] == s[10] && t[at + 11] == s[11]
    ensures t[at + 12] == s[12] && t[at + 13] == s[13] && t[at + 14] == s[14] && t[at + 15] == s[15]
  {}

  lemma Piece(t: seq<byte>, k: nat)
    requires t == TABLE && k < 18
    ensures |t| == 276 && 16 * k + |PIECES[k]| <= |t| && t[16 * k..][..|PIECES[k]|] == PIECES[k]
  {
    hide Joined;
    PieceSizes();
    PieceAt(PIECES, k);
  }

  lemma Bytes0(t: seq<byte>)
    requires t == TABLE
    ensures |t| == 276
    ensures t[0] == 0x47 && t[1] == 0x07 && t[2] == 0x48 && t[3] == 0x0a
    ensures t[4] == 0x43 && t[5] == 0x0f && t[6] == 0x53 && t[7] == 0x19
    ensures t[8] == 0x55 && t[9] == 0x3f && t[10] == 0x4f && t[11] == 0x46
    ensures t[12] == 0x8d && t[13] == 0x52 && t[14] == 0xc5 && t[15] == 0x01
  {
    hide TABLE, PIECES, Joined;
    Piece(t, 0);
    PiecesAre();
    Sixteen(t, 0, T0);
  }

  lemma Bytes1(t: seq<byte>)
    requires t == TABLE
    ensures |t| == 276
    ensures t[16] == 0xd4 && t[17] == 0x01 && t[18] == 0xa0 && t[19] == 0x01
    ensures t[20] == 0x80 && t[21] == 0x00 && t[22] == 0x6f && t[23] == 0x02
    ensures t[24] == 0xd4 && t[25] == 0x76 && t[26] == 0xf3 && t[27] == 0x01
    ensures t[28] == 0xf4 && t[29] == 0x01 && t[30] == 0xba && t[31] == 0x01
  {
    hide TABLE, PIECES, Joined;
    Piece(t, 1);
    PiecesAre();
    Sixteen(t, 16, T1);
  }

  lemma Bytes2(t: seq<byte>)
    requires t == TABLE
    ensures |t| == 276
    ensures t[32] == 0x81 && t[33] == 0x00 && t[34] == 0xef && t[35] == 0x01
    ensures t[36] == 0xee && t[37] == 0x01 && t[38] == 0xee && t[39] == 0x01
    ensures t[40] == 0xe5 && t[41] == 0x01 && t[42] == 0xe3 && t[43] == 0x01
    ensures t[44] == 0xf4 && t[45] == 0x01 && t[46] == 0xe9 && t[47] == 0x01
  {
    hide TABLE, PIECES, Joined;
    Piece(t, 2);
    PiecesAre();
    Sixteen(t, 32, T2);
  }

  lemma Bytes3(t: seq<byte>)
    requires t == TABLE
    ensures |t| == 276
    ensures t[48] == 0xef && t[49] == 0x01 && t[50] == 0xee && t[51] == 0x01
    ensures t[52] == 0xba && t[53] == 0x01 && t[54] == 0x82 && t[55] == 0x00
    ensures t[56] == 0xe5 && t[57] == 0x01 && t[58] == 0xe3 && t[59] == 0x01
    ensures t[60] == 0xad && t[61] == 0x01 && t[62] == 0xd7 && t[63] == 0x01
  {
    hide TABLE, PIECES, Joined;
    Piece(t, 3);
    PiecesAre();
    Sixteen(t, 48, T3);
  }

  lemma Bytes4(t: seq<byte>)
    requires t == TABLE
    ensures |t| == 276
    ensures t[64] == 0xe5 && t[65] == 0x01 && t[66] == 0xe2 && t[67] == 0x01
    ensures t[68] == 0xd3 && t[69] == 0x01 && t[70] == 0xef && t[71] == 0x01
    ensures t[72] == 0xe3 && t[73] == 0x01 && t[74] == 0xeb && t[75] == 0x01
    ensures t[76] == 0xe5 && t[77] == 0x01 && t[78] == 0xf4 && t[79] == 0x01
  {
    hide TABLE, PIECES, Joined;
    Piece(t, 4);
    PiecesAre();
    Sixteen(t, 64, T4);
  }

  lemma Bytes5(t: seq<byte>)
    requires t == TABLE
    ensures |t| == 276
    ensures t[80] == 0xad && t[81] == 0x01 && t[82] == 0x4b && t[83] == 0x08
    ensures t[84] == 0x50 && t[85] == 0x10 && t[86] == 0x44 && t[87] == 0x27
    ensures t[88] == 0x56 && t[89] == 0x2f && t[90] == 0x4f && t[91] == 0x36
    ensures t[92] == 0x45 && t[93] == 0x3c && t[94] == 0x41 && t[95] == 0x46
  {
    hide TABLE, PIECES, Joined;
    Piece(t, 5);
    PiecesAre();
    Sixteen(t, 80, T5);
  }

  lemma Bytes6(t: seq<byte>)
    requires t == TABLE
    ensures |t| == 276
    ensures t[96] == 0xce && t[97] == 0x4c && t[98] == 0xe5 && t[99] == 0x01
    ensures t[100] == 0xf9 && t[101] == 0x01 && t[102] == 0x31 && t[103] == 0x03
    ensures t[104] == 0x32 && t[105] == 0x04 && t[106] == 0xba && t[107] == 0x25
    ensures t[108] == 0xba && t[109] == 0x01 && t[110] == 0x83 && t[111] == 0x00
  {
    hide TABLE, PIECES, Joined;
    Piece(t, 6);
    PiecesAre();
    Sixteen(t, 96, T6);
  }

  lemma Bytes7(t: seq<byte>)
    requires t == TABLE
    ensures |t| == 276
    ensures t[112] == 0xba && t[113] == 0x01 && t[114] == 0x84 && t[115] == 0x00
    ensures t[116] == 0xf2 && t[117] == 0x01 && t[118] == 0xef && t[119] == 0x01
    ensures t[120] == 0xf4 && t[121] == 0x01 && t[122] == 0xef && t[123] == 0x01
    ensures t[124] == 0xe3 && t[125] == 0x01 && t[126] == 0xef && t[127] == 0x01
  {
    hide TABLE, PIECES, Joined;
    Piece(t, 7);
    PiecesAre();
    Sixteen(t, 112, T7);
  }

  lemma Bytes8(t: seq<byte>)
    requires t == TABLE
    ensures |t| == 276
    ensures t[128] == 0xec && t[129] == 0x01 && t[130] == 0xba && t[131] == 0x01
    ensures t[132] == 0x85 && t[133] == 0x00 && t[134] == 0xf0 && t[135] == 0x01
    ensures t[136] == 0xe7 && t[137] == 0x01 && t[138] == 0xf2 && t[139] == 0x01
    ensures t[140] == 0xe1 && t[141] == 0x01 && t[142] == 0xe4 && t[143] == 0x01
  {
    hide TABLE, PIECES, Joined;
    Piece(t, 8);
    PiecesAre();
    Sixteen(t, 128, T8);
  }

  lemma Bytes9(t: seq<byte>)
    requires t == TABLE
    ensures |t| == 276
    ensures t[144] == 0xe5 && t[145] == 0x01 && t[146] == 0xba && t[147] == 0x01
    ensures t[148] == 0x86 && t[149] == 0x00 && t[150] == 0xf2 && t[151] == 0x01
    ensures t[152] == 0xe9 && t[153] == 0x01 && t[154] == 0xe7 && t[155] == 0x01
    ensures t[156] == 0xe9 && t[157] == 0x01 && t[158] == 0xee && t[159] == 0x01
  {
    hide TABLE, PIECES, Joined;
    Piece(t, 9);
    PiecesAre();
    Sixteen(t, 144, T9);
  }

  lemma Bytes10(t: seq<byte>)
    requires t == TABLE
    ensures |t| == 276
    ensures t[160] == 0xba && t[161] == 0x01 && t[162] == 0x87 && t[163] == 0x00
    ensures t[164] == 0xf2 && t[165] == 0x01 && t[166] == 0xe1 && t[167] == 0x01
    ensures t[168] == 0xe6 && t[169] == 0x01 && t[170] == 0xf4 && t[171] == 0x01
    ensures t[172] == 0xba && t[173] == 0x01 && t[174] == 0x88 && t[175] == 0x00
  {
    hide TABLE, PIECES, Joined;
    Piece(t, 10);
    PiecesAre();
    Sixteen(t, 160, T10);
  }

  lemma Bytes11(t: seq<byte>)
    requires t == TABLE
    ensures |t| == 276
    ensures t[176] == 0x8a && t[177] == 0x01 && t[178] == 0x89 && t[179] == 0x00
    ensures t[180] == 0x8a && t[181] == 0x00 && t[182] == 0xe5 && t[183] == 0x01
    ensures t[184] == 0xf2 && t[185] == 0x01 && t[186] == 0xf3 && t[187] == 0x01
    ensures t[188] == 0xe9 && t[189] == 0x01 && t[190] == 0xef && t[191] == 0x01
  {
    hide TABLE, PIECES, Joined;
    Piece(t, 11);
    PiecesAre();
    Sixteen(t, 176, T11);
  }

  lemma Bytes12(t: seq<byte>)
    requires t == TABLE
    ensures |t| == 276
    ensures t[192] == 0xee && t[193] == 0x01 && t[194] == 0xba && t[195] == 0x01
    ensures t[196] == 0x8b && t[197] == 0x00 && t[198] == 0xf2 && t[199] == 0x01
    ensures t[200] == 0xe9 && t[201] == 0x01 && t[202] == 0xe7 && t[203] == 0x01
    ensures t[204] == 0xe9 && t[205] == 0x01 && t[206] == 0xee && t[207] == 0x01
  {
    hide TABLE, PIECES, Joined;
    Piece(t, 12);
    PiecesAre();
    Sixteen(t, 192, T12);
  }

  lemma Bytes13(t: seq<byte>)
    requires t == TABLE
    ensures |t| == 276
    ensures t[208] == 0xba && t[209] == 0x01 && t[210] == 0x8c && t[211] == 0x00
    ensures t[212] == 0xf8 && t[213] == 0x01 && t[214] == 0xf4 && t[215] == 0x01
    ensures t[216] == 0xe5 && t[217] == 0x01 && t[218] == 0xee && t[219] == 0x01
    ensures t[220] == 0xf3 && t[221] == 0x01 && t[222] == 0xe9 && t[223] == 0x01
  {
    hide TABLE, PIECES, Joined;
    Piece(t, 13);
    PiecesAre();
    Sixteen(t, 208, T13);
  }

  lemma Bytes14(t: seq<byte>)
    requires t == TABLE
    ensures |t| == 276
    ensures t[224] == 0xef && t[225] == 0x01 && t[226] == 0xee && t[227] == 0x01
    ensures t[228] == 0xf3 && t[229] == 0x01 && t[230] == 0xba && t[231] == 0x01
    ensures t[232] == 0x8d && t[233] == 0x00 && t[234] == 0xe3 && t[235] == 0x01
    ensures t[236] == 0xe3 && t[237] == 0x01 && t[238] == 0xe5 && t[239] == 0x01
  {
    hide TABLE, PIECES, Joined;
    Piece(t, 14);
    PiecesAre();
    Sixteen(t, 224, T14);
  }

  lemma Bytes15(t: seq<byte>)
    requires t == TABLE
    ensures |t| == 276
    ensures t[240] == 0xf0 && t[241] == 0x01 && t[242] == 0xf4 && t[243] == 0x01
    ensures t[244] == 0xba && t[245] == 0x01 && t[246] == 0x8e && t[247] == 0x00
    ensures t[248] == 0xef && t[249] == 0x01 && t[250] == 0xee && t[251] == 0x01
    ensures t[252] == 0xe3 && t[253] == 0x01 && t[254] == 0xe5 && t[255] == 0x01
  {
    hide TABLE, PIECES, Joined;
    Piece(t, 15);
    PiecesAre();
    Sixteen(t, 240, T15);
  }

  lemma Bytes16(t: seq<byte>)
    requires t == TABLE
    ensures |t| == 276
    ensures t[256] == 0xba && t[257] == 0x01 && t[258] == 0x8f && t[259] == 0x00
    ensures t[260] == 0xd4 && t[261] == 0x01 && t[262] == 0xd0 && t[263] == 0x01
    ensures t[264] == 0xaf && t[265] == 0x01 && t[266] == 0xb1 && t[267] == 0x01
    ensures t[268] == 0xae && t[269] == 0x01 && t[270] == 0xb1 && t[271] == 0x01
  {
    hide TABLE, PIECES, Joined;
    Piece(t, 16);
    PiecesAre();
    Sixteen(t, 256, T16);
  }

  lemma Bytes17(t: seq<byte>)
    requires t == TABLE
    ensures |t| == 276
    ensures t[272] == 0xa0 && t[273] == 0x01 && t[274] == 0x90 && t[275] == 0x00
  {
    hide TABLE, PIECES, Joined;
    Piece(t, 17);
    PiecesAre();
    Four(t, 272, T17);
  }

  // ----- every option stays inside the table

  predicate Fine(t: seq<byte>, p: nat) {
    p + 2 <= |t| && RowOk(t[p], t[p + 1], p, |t|) && (t[p + 1] == 0 ==> Index(Low7(t[p])) < NAMES)
  }

  lemma Fine0(t: seq<byte>, p: nat)
    requires t == TABLE && 0 <= p < 48 && p % 2 == 0
    ensures Fine(t, p)
  {
    hide TABLE;
    Bytes0(t); Bytes1(t); Bytes2(t);
  }

  lemma Fine1(t: seq<byte>, p: nat)
    requires t == TABLE && 48 <= p < 96 && p % 2 == 0
    ensures Fine(t, p)
  {
    hide TABLE;
    Bytes3(t); Bytes4(t); Bytes5(t);
  }

  lemma Fine2(t: seq<byte>, p: nat)
    requires t == TABLE && 96 <= p < 144 && p % 2 == 0
    ensures Fine(t, p)
  {
    hide TABLE;
    Bytes6(t); Bytes7(t); Bytes8(t);
  }

  lemma Fine3(t: seq<byte>, p: nat)
    requires t == TABLE && 144 <= p < 192 && p % 2 == 0
    ensures Fine(t, p)
  {
    hide TABLE;
    Bytes9(t); Bytes10(t); Bytes11(t);
  }

  lemma Fine4(t: seq<byte>, p: nat)
    requires t == TABLE && 192 <= p < 240 && p % 2 == 0
    ensures Fine(t, p)
  {
    hide TABLE;
    Bytes12(t); Bytes13(t); Bytes14(t);
  }

  lemma Fine5(t: seq<byte>, p: nat)
    requires t == TABLE && 240 <= p < 276 && p % 2 == 0
    ensures Fine(t, p)
  {
    hide TABLE;
    Bytes15(t); Bytes16(t); Bytes17(t);
  }

  lemma AllFine(t: seq<byte>, p: nat)
    requires t == TABLE && p < 276 && p % 2 == 0
    ensures Fine(t, p)
  {
    hide Fine, TABLE;
    if p < 48 { Fine0(t, p); }
    else if p < 96 { Fine1(t, p); }
    else if p < 144 { Fine2(t, p); }
    else if p < 192 { Fine3(t, p); }
    else if p < 240 { Fine4(t, p); }
    else { Fine5(t, p); }
  }

  lemma TableClosed(t: seq<byte>)
    requires t == TABLE
    ensures Closed(t) && Place(t, 0)
    ensures forall p: nat | Place(t, p) && t[p + 1] == 0 :: Index(Low7(t[p])) < NAMES
  {
    hide TABLE, RowOk, Index;
    Bytes0(t);
    forall p | 0 <= p && p + 1 < |t| && p % 2 == 0
      ensures RowOk(t[p], t[p + 1], p, |t|) && (t[p + 1] == 0 ==> Index(Low7(t[p])) < NAMES)
    {
      AllFine(t, p);
    }
  }
}
