/** The two examples of appendix A and B of FIPS 180-1, and what its rotations and constants are. */
module Sha1Samples {
  import opened Words
  import opened Octets
  import opened Sha1
  import opened Sha1Lib
  import opened Sha1Agree

  // ----- rotations and constants

  function Turned(x: word, n: nat): word
    decreases n
  {
    if n == 0 then x else Rotl1(Turned(x, n - 1))
  }

  /** A rotation by one place moves the top bit to the bottom and the others up. */
  lemma RotationMoves(x: word)
    ensures Rotl1(x) >> 1 == x & 0x7fffffff && Rotl1(x) & 1 == x >> 31
  {}

  lemma TurnedNext(x: word, n: nat)
    ensures Turned(x, 0) == x && Turned(x, n + 1) == Rotl1(Turned(x, n))
  {
    hide Rotl1;
  }

  lemma FiveTimes(x: word)
    ensures Rotl1(Rotl1(Rotl1(Rotl1(Rotl1(x))))) == Rotl5(x)
  {}

  lemma SixFives(x: word)
    ensures Rotl5(Rotl5(Rotl5(Rotl5(Rotl5(Rotl5(x)))))) == Rotl30(x)
  {}

  lemma {:induction false} TurnedAdd(x: word, m: nat, n: nat)
    ensures Turned(x, m + n) == Turned(Turned(x, m), n)
    decreases n
  {
    hide Rotl1;
    if n > 0 {
      TurnedAdd(x, m, n - 1);
    }
  }

  lemma TurnedFive(x: word)
    ensures Turned(x, 5) == Rotl5(x)
  {
    hide Rotl1, Rotl5, Turned;
    FiveTimes(x);
    TurnedNext(x, 0);
    TurnedNext(x, 1);
    TurnedNext(x, 2);
    TurnedNext(x, 3);
    TurnedNext(x, 4);
  }

  /** The rotations by 5 and by 30 places are the one by a single place, so many times. */
  lemma RotationsAre(x: word)
    ensures Turned(x, 5) == Rotl5(x) && Turned(x, 30) == Rotl30(x)
  {
    hide Rotl1, Rotl5, Rotl30, Turned;
    var x1 := Rotl5(x);
    var x2 := Rotl5(x1);
    var x3 := Rotl5(x2);
    var x4 := Rotl5(x3);
    TurnedFive(x);
    TurnedFive(x1);
    TurnedFive(x2);
    TurnedFive(x3);
    TurnedFive(x4);
    TurnedFive(Rotl5(x4));
    TurnedAdd(x, 5, 5);
    TurnedAdd(x, 10, 5);
    TurnedAdd(x, 15, 5);
    TurnedAdd(x, 20, 5);
    TurnedAdd(x, 25, 5);
    SixFives(x);
  }

  /** k is the whole part of 2^30 times the root of n. */
  predicate IsRoot(k: int, n: int) { k * k <= n * 0x1000_0000_0000_0000 < (k + 1) * (k + 1) }

  /** The constants are the square roots of 2, 3, 5 and 10, times 2^30. */
  lemma ConstantsAreRoots()
    ensures K0 == 0x5a827999 && IsRoot(0x5a827999, 2) && K1 == 0x6ed9eba1 && IsRoot(0x6ed9eba1, 3)
    ensures K2 == 0x8f1bbcdc && IsRoot(0x8f1bbcdc, 5) && K3 == 0xca62c1d6 && IsRoot(0xca62c1d6, 10)
  {}

  // ----- steps of a computation

  predicate Grows(m: seq<word>, t: nat)
    requires |m| == 16 && t >= 16
  {
    Schedule(m, t) == Rotl1(Xor4(Schedule(m, t - 3), Schedule(m, t - 8), Schedule(m, t - 14), Schedule(m, t - 16)))
  }

  lemma Grown(m: seq<word>, t: nat)
    requires |m| == 16 && t >= 16
    ensures Grows(m, t)
  {
    hide Rotl1, Xor4, Schedule;
    ScheduleAt(m, t);
  }

  /** Sixteen more words of the schedule. */
  lemma MoreWords(m: seq<word>, t: nat)
    requires |m| == 16 && t >= 16
    ensures Grows(m, t) && Grows(m, t + 1) && Grows(m, t + 2) && Grows(m, t + 3)
    ensures Grows(m, t + 4) && Grows(m, t + 5) && Grows(m, t + 6) && Grows(m, t + 7)
    ensures Grows(m, t + 8) && Grows(m, t + 9) && Grows(m, t + 10) && Grows(m, t + 11)
    ensures Grows(m, t + 12) && Grows(m, t + 13) && Grows(m, t + 14) && Grows(m, t + 15)
  {
    hide Grows;
    Grown(m, t); Grown(m, t + 1); Grown(m, t + 2); Grown(m, t + 3);
    Grown(m, t + 4); Grown(m, t + 5); Grown(m, t + 6); Grown(m, t + 7);
    Grown(m, t + 8); Grown(m, t + 9); Grown(m, t + 10); Grown(m, t + 11);
    Grown(m, t + 12); Grown(m, t + 13); Grown(m, t + 14); Grown(m, t + 15);
  }

  function FiveSteps(t: nat, a: word, b: word, c: word, d: word, e: word, r: Regs): Regs {
    Step(t + 4, e, Step(t + 3, d, Step(t + 2, c, Step(t + 1, b, Step(t, a, r)))))
  }

  lemma RoundsNext(m: seq<word>, t: nat, h: Regs)
    requires |m| == 16
    ensures Rounds(m, 0, h) == h && Rounds(m, t + 1, h) == Step(t, Schedule(m, t), Rounds(m, t, h))
  {
    hide Step, Schedule;
  }

  lemma Five(m: seq<word>, h: Regs, t: nat, a: word, b: word, c: word, d: word, e: word, r: Regs)
    requires |m| == 16 && Rounds(m, t, h) == r && Schedule(m, t) == a && Schedule(m, t + 1) == b
    requires Schedule(m, t + 2) == c && Schedule(m, t + 3) == d && Schedule(m, t + 4) == e
    ensures Rounds(m, t + 5, h) == FiveSteps(t, a, b, c, d, e, r)
  {
    hide Step, Schedule, Rounds;
    RoundsNext(m, t, h);
    RoundsNext(m, t + 1, h);
    RoundsNext(m, t + 2, h);
    RoundsNext(m, t + 3, h);
    RoundsNext(m, t + 4, h);
  }

  // ----- "abc"

  /** The words of the block. */
  predicate AbcBlock(m: seq<word>) {
    && |m| == 16
    && m[0] == 0x61626380 && m[1] == 0x00000000 && m[2] == 0x00000000 && m[3] == 0x00000000
    && m[4] == 0x00000000 && m[5] == 0x00000000 && m[6] == 0x00000000 && m[7] == 0x00000000
    && m[8] == 0x00000000 && m[9] == 0x00000000 && m[10] == 0x00000000 && m[11] == 0x00000000
    && m[12] == 0x00000000 && m[13] == 0x00000000 && m[14] == 0x00000000 && m[15] == 0x00000018
  }

  lemma AbcWords0(m: seq<word>)
    requires AbcBlock(m) && |m| == 16
    ensures Schedule(m, 0) == 0x61626380 && Schedule(m, 1) == 0x00000000
    ensures Schedule(m, 2) == 0x00000000 && Schedule(m, 3) == 0x00000000
    ensures Schedule(m, 4) == 0x00000000 && Schedule(m, 5) == 0x00000000
    ensures Schedule(m, 6) == 0x00000000 && Schedule(m, 7) == 0x00000000
    ensures Schedule(m, 8) == 0x00000000 && Schedule(m, 9) == 0x00000000
    ensures Schedule(m, 10) == 0x00000000 && Schedule(m, 11) == 0x00000000
    ensures Schedule(m, 12) == 0x00000000 && Schedule(m, 13) == 0x00000000
    ensures Schedule(m, 14) == 0x00000000 && Schedule(m, 15) == 0x00000018
  {
  }

  lemma AbcWords1(m: seq<word>)
    requires AbcBlock(m) && |m| == 16
    ensures Schedule(m, 16) == 0xc2c4c700 && Schedule(m, 17) == 0x00000000
    ensures Schedule(m, 18) == 0x00000030 && Schedule(m, 19) == 0x85898e01
    ensures Schedule(m, 20) == 0x00000000 && Schedule(m, 21) == 0x00000060
    ensures Schedule(m, 22) == 0x0b131c03 && Schedule(m, 23) == 0x00000030
    ensures Schedule(m, 24) == 0x85898ec1 && Schedule(m, 25) == 0x16263806
    ensures Schedule(m, 26) == 0x00000000 && Schedule(m, 27) == 0x00000180
    ensures Schedule(m, 28) == 0x2c4c700c && Schedule(m, 29) == 0x000000f0
    ensures Schedule(m, 30) == 0x93afb507 && Schedule(m, 31) == 0x5898e048
  {
    hide Schedule, AbcBlock;
    AbcWords0(m);
    MoreWords(m, 16);
  }

  lemma AbcWords2(m: seq<word>)
    requires AbcBlock(m) && |m| == 16
    ensures Schedule(m, 32) == 0x8e9a9202 && Schedule(m, 33) == 0x00000600
    ensures Schedule(m, 34) == 0xb131c0f0 && Schedule(m, 35) == 0x16263bc6
    ensures Schedule(m, 36) == 0x4ebed41e && Schedule(m, 37) == 0x626380a1
    ensures Schedule(m, 38) == 0x16263806 && Schedule(m, 39) == 0x000018c0
    ensures Schedule(m, 40) == 0xd2e138c4 && Schedule(m, 41) == 0x00000f00
    ensures Schedule(m, 42) == 0x3afb5079 && Schedule(m, 43) == 0x898e04e5
    ensures Schedule(m, 44) == 0xe2ba3c2b && Schedule(m, 45) == 0x000060c0
    ensures Schedule(m, 46) == 0x053a37cd && Schedule(m, 47) == 0x74458547
  {
    hide Schedule, AbcBlock;
    AbcWords1(m);
    MoreWords(m, 32);
  }

  lemma AbcWords3(m: seq<word>)
    requires AbcBlock(m) && |m| == 16
    ensures Schedule(m, 48) == 0xda9415ed && Schedule(m, 49) == 0x26380a16
    ensures Schedule(m, 50) == 0x626383a1 && Schedule(m, 51) == 0x4ebf54de
    ensures Schedule(m, 52) == 0x3835b44b && Schedule(m, 53) == 0x0000f600
    ensures Schedule(m, 54) == 0x1e84c7a3 && Schedule(m, 55) == 0x98e04d98
    ensures Schedule(m, 56) == 0x651d16a0 && Schedule(m, 57) == 0x62658ca1
    ensures Schedule(m, 58) == 0x458544d6 && Schedule(m, 59) == 0x44584cb7
    ensures Schedule(m, 60) == 0x7ba06619 && Schedule(m, 61) == 0x6380aea2
    ensures Schedule(m, 62) == 0x0ae55269 && Schedule(m, 63) == 0x627b49a1
  {
    hide Schedule, AbcBlock;
    AbcWords2(m);
    MoreWords(m, 48);
  }

  lemma AbcWords4(m: seq<word>)
    requires AbcBlock(m) && |m| == 16
    ensures Schedule(m, 64) == 0x7cd45c9d && Schedule(m, 65) == 0x000f0000
    ensures Schedule(m, 66) == 0xfb50753a && Schedule(m, 67) == 0xec6765e8
    ensures Schedule(m, 68) == 0xba3c2be2 && Schedule(m, 69) == 0x0060c000
    ensures Schedule(m, 70) == 0x3a37cd05 && Schedule(m, 71) == 0x458546f4
    ensures Schedule(m, 72) == 0xb8599dd6 && Schedule(m, 73) == 0x380a1a26
    ensures Schedule(m, 74) == 0x01e02203 && Schedule(m, 75) == 0xe7cc3456
    ensures Schedule(m, 76) == 0xe6e60b69 && Schedule(m, 77) == 0x00f60a00
    ensures Schedule(m, 78) == 0x5795ef4f && Schedule(m, 79) == 0x822e0879
  {
    hide Schedule, AbcBlock;
    AbcWords3(m);
    MoreWords(m, 64);
  }

  lemma AbcRounds0(m: seq<word>, h: Regs)
    requires AbcBlock(m) && |m| == 16 && h == Regs(0x67452301, 0xefcdab89, 0x98badcfe, 0x10325476, 0xc3d2e1f0)
    ensures Rounds(m, 20, h) == Regs(0xfd9e1d7d, 0xdc64901d, 0x20aa99ca, 0xd3a49608, 0xc82f758b)
  {
    hide Schedule, Rounds, AbcBlock;
    RoundsNext(m, 0, h);
    AbcWords0(m);
    AbcWords1(m);
    Five(m, h, 0, 0x61626380, 0x00000000, 0x00000000, 0x00000000, 0x00000000,
         Regs(0x67452301, 0xefcdab89, 0x98badcfe, 0x10325476, 0xc3d2e1f0));
    Five(m, h, 5, 0x00000000, 0x00000000, 0x00000000, 0x00000000, 0x00000000,
         Regs(0xcfd499de, 0xcdd8e11b, 0x284e43c2, 0x626414db, 0xc045bf0c));
    Five(m, h, 10, 0x00000000, 0x00000000, 0x00000000, 0x00000000, 0x00000000,
         Regs(0x8351f929, 0x4b6ae328, 0x27a301f5, 0x664f8c30, 0x0ff1f290));
    Five(m, h, 15, 0x00000018, 0xc2c4c700, 0x00000000, 0x00000030, 0x85898e01,
         Regs(0x196bee77, 0x9128f695, 0x1181ed99, 0x18c623f9, 0x7ef6a7a2));
  }

  lemma AbcRounds1(m: seq<word>, h: Regs)
    requires AbcBlock(m) && |m| == 16 && h == Regs(0x67452301, 0xefcdab89, 0x98badcfe, 0x10325476, 0xc3d2e1f0)
    ensures Rounds(m, 40, h) == Regs(0x32de1cba, 0x4c986405, 0xf718e5cf, 0x03d447f6, 0xf72eec32)
  {
    hide Schedule, Rounds, AbcBlock;
    AbcRounds0(m, h);
    AbcWords1(m);
    AbcWords2(m);
    Five(m, h, 20, 0x00000000, 0x00000060, 0x0b131c03, 0x00000030, 0x85898ec1,
         Regs(0xfd9e1d7d, 0xdc64901d, 0x20aa99ca, 0xd3a49608, 0xc82f758b));
    Five(m, h, 25, 0x16263806, 0x00000000, 0x00000180, 0x2c4c700c, 0x000000f0,
         Regs(0xc7567dc6, 0xd541f12d, 0x884a0d21, 0x0ce88eff, 0x868dec32));
    Five(m, h, 30, 0x93afb507, 0x5898e048, 0x8e9a9202, 0x00000600, 0xb131c0f0,
         Regs(0xc5fbaf5d, 0x8370b52e, 0xd2aa1365, 0x6f8d7ef5, 0x12104ee9));
    Five(m, h, 35, 0x16263bc6, 0x4ebed41e, 0x626380a1, 0x16263806, 0x000018c0,
         Regs(0x21796ad4, 0x2c0ebc11, 0x811bea82, 0xcee1174c, 0xc499ed01));
  }

  lemma AbcRounds2(m: seq<word>, h: Regs)
    requires AbcBlock(m) && |m| == 16 && h == Regs(0x67452301, 0xefcdab89, 0x98badcfe, 0x10325476, 0xc3d2e1f0)
    ensures Rounds(m, 60, h) == Regs(0x3f52de5a, 0x09d785fd, 0x3498bfd4, 0xf211824f, 0xd79915ab)
  {
    hide Schedule, Rounds, AbcBlock;
    AbcRounds1(m, h);
    AbcWords2(m);
    AbcWords3(m);
    Five(m, h, 40, 0xd2e138c4, 0x00000f00, 0x3afb5079, 0x898e04e5, 0xe2ba3c2b,
         Regs(0x32de1cba, 0x4c986405, 0xf718e5cf, 0x03d447f6, 0xf72eec32));
    Five(m, h, 45, 0x000060c0, 0x053a37cd, 0x74458547, 0xda9415ed, 0x26380a16,
         Regs(0x40f28e09, 0xee1b1aaf, 0x5fc64f71, 0x25c28357, 0xff21f7b7));
    Five(m, h, 50, 0x626383a1, 0x4ebf54de, 0x3835b44b, 0x0000f600, 0x1e84c7a3,
         Regs(0x120731c5, 0xbaf39337, 0xafab40b2, 0x2806e11b, 0x8714787c));
    Five(m, h, 55, 0x98e04d98, 0x651d16a0, 0x62658ca1, 0x458544d6, 0x44584cb7,
         Regs(0x7b71f76d, 0x27e9f1d8, 0x792410db, 0x8e11eb59, 0x99076cb3));
  }

  lemma AbcRounds3(m: seq<word>, h: Regs)
    requires AbcBlock(m) && |m| == 16 && h == Regs(0x67452301, 0xefcdab89, 0x98badcfe, 0x10325476, 0xc3d2e1f0)
    ensures Rounds(m, 80, h) == Regs(0x42541b35, 0x5738d5e1, 0x21834873, 0x681e6df6, 0xd8fdf6ad)
  {
    hide Schedule, Rounds, AbcBlock;
    AbcRounds2(m, h);
    AbcWords3(m);
    AbcWords4(m);
    Five(m, h, 60, 0x7ba06619, 0x6380aea2, 0x0ae55269, 0x627b49a1, 0x7cd45c9d,
         Regs(0x3f52de5a, 0x09d785fd, 0x3498bfd4, 0xf211824f, 0xd79915ab));
    Five(m, h, 65, 0x000f0000, 0xfb50753a, 0xec6765e8, 0xba3c2be2, 0x0060c000,
         Regs(0x19dfa7ac, 0x6b61c9e1, 0xed9b0082, 0x9523272c, 0xf5d5b051));
    Five(m, h, 70, 0x3a37cd05, 0x458546f4, 0xb8599dd6, 0x380a1a26, 0x01e02203,
         Regs(0x3f2588c2, 0x497093c0, 0xde37534a, 0x030f7cad, 0x4405957e));
    Five(m, h, 75, 0xe7cc3456, 0xe6e60b69, 0x00f60a00, 0x5795ef4f, 0x822e0879,
         Regs(0x5ee76897, 0x11793f6f, 0x3b6d0b79, 0xce616779, 0xf0667e31));
  }

  // ----- the longer message, first block

  /** The words of the block. */
  predicate LongBlock(m: seq<word>) {
    && |m| == 16
    && m[0] == 0x61626364 && m[1] == 0x62636465 && m[2] == 0x63646566 && m[3] == 0x64656667
    && m[4] == 0x65666768 && m[5] == 0x66676869 && m[6] == 0x6768696a && m[7] == 0x68696a6b
    && m[8] == 0x696a6b6c && m[9] == 0x6a6b6c6d && m[10] == 0x6b6c6d6e && m[11] == 0x6c6d6e6f
    && m[12] == 0x6d6e6f70 && m[13] == 0x6e6f7071 && m[14] == 0x80000000 && m[15] == 0x00000000
  }

  lemma LongWords0(m: seq<word>)
    requires LongBlock(m) && |m| == 16
    ensures Schedule(m, 0) == 0x61626364 && Schedule(m, 1) == 0x62636465
    ensures Schedule(m, 2) == 0x63646566 && Schedule(m, 3) == 0x64656667
    ensures Schedule(m, 4) == 0x65666768 && Schedule(m, 5) == 0x66676869
    ensures Schedule(m, 6) == 0x6768696a && Schedule(m, 7) == 0x68696a6b
    ensures Schedule(m, 8) == 0x696a6b6c && Schedule(m, 9) == 0x6a6b6c6d
    ensures Schedule(m, 10) == 0x6b6c6d6e && Schedule(m, 11) == 0x6c6d6e6f
    ensures Schedule(m, 12) == 0x6d6e6f70 && Schedule(m, 13) == 0x6e6f7071
    ensures Schedule(m, 14) == 0x80000000 && Schedule(m, 15) == 0x00000000
  {
  }

  lemma LongWords1(m: seq<word>)
    requires LongBlock(m) && |m| == 16
    ensures Schedule(m, 16) == 0x0a063a3e && Schedule(m, 17) == 0xd8dadcdf
    ensures Schedule(m, 18) == 0xdadcdec0 && Schedule(m, 19) == 0xc8d2b4be
    ensures Schedule(m, 20) == 0x6f757b5b && Schedule(m, 21) == 0x757b5967
    ensures Schedule(m, 22) == 0x8da16d70 && Schedule(m, 23) == 0xdaeefaba
    ensures Schedule(m, 24) == 0xfaf6cab6 && Schedule(m, 25) == 0xa6fb675a
    ensures Schedule(m, 26) == 0x0c604cc8 && Schedule(m, 27) == 0x604cc02c
    ensures Schedule(m, 28) == 0x49c0e6e2 && Schedule(m, 29) == 0x2ee8cbbc
    ensures Schedule(m, 30) == 0xcfd72ec4 && Schedule(m, 31) == 0x97e9810e
  {
    hide Schedule, LongBlock;
    LongWords0(m);
    MoreWords(m, 16);
  }

  lemma LongWords2(m: seq<word>)
    requires LongBlock(m) && |m| == 16
    ensures Schedule(m, 32) == 0x0989cbe8 && Schedule(m, 33) == 0xf24843fe
    ensures Schedule(m, 34) == 0x5c40d0ba && Schedule(m, 35) == 0xa8d9cc3b
    ensures Schedule(m, 36) == 0xb2b9666e && Schedule(m, 37) == 0xba7b71b7
    ensures Schedule(m, 38) == 0x20b28a72 && Schedule(m, 39) == 0xb28af500
    ensures Schedule(m, 40) == 0x8ac87842 && Schedule(m, 41) == 0x289addf4
    ensures Schedule(m, 42) == 0x56d51f21 && Schedule(m, 43) == 0xd96b7fd2
    ensures Schedule(m, 44) == 0x3868e778 && Schedule(m, 45) == 0xab5e4848
    ensures Schedule(m, 46) == 0x7f0e2118 && Schedule(m, 47) == 0xde87a111
  {
    hide Schedule, LongBlock;
    LongWords1(m);
    MoreWords(m, 32);
  }

  lemma LongWords3(m: seq<word>)
    requires LongBlock(m) && |m| == 16
    ensures Schedule(m, 48) == 0xe8be56b0 && Schedule(m, 49) == 0x1a0ae652
    ensures Schedule(m, 50) == 0xcd5611c8 && Schedule(m, 51) == 0x46ef29dc
    ensures Schedule(m, 52) == 0x60d3da6d && Schedule(m, 53) == 0xddf3ba6e
    ensures Schedule(m, 54) == 0x2737f5e9 && Schedule(m, 55) == 0x4888a710
    ensures Schedule(m, 56) == 0xd2a1177b && Schedule(m, 57) == 0x9999633b
    ensures Schedule(m, 58) == 0xd6c69d03 && Schedule(m, 59) == 0xccf6127b
    ensures Schedule(m, 60) == 0x7c58fe6d && Schedule(m, 61) == 0xfdd99c68
    ensures Schedule(m, 62) == 0xf8e32074 && Schedule(m, 63) == 0xe0ba3c7d
  {
    hide Schedule, LongBlock;
    LongWords2(m);
    MoreWords(m, 48);
  }

  lemma LongWords4(m: seq<word>)
    requires LongBlock(m) && |m| == 16
    ensures Schedule(m, 64) == 0x152198d6 && Schedule(m, 65) == 0x7b3f1982
    ensures Schedule(m, 66) == 0x37f2d5b7 && Schedule(m, 67) == 0x8596323e
    ensures Schedule(m, 68) == 0x810790d6 && Schedule(m, 69) == 0xbea0a942
    ensures Schedule(m, 70) == 0x11c7e1b1 && Schedule(m, 71) == 0x6158d101
    ensures Schedule(m, 72) == 0x5fcd77d9 && Schedule(m, 73) == 0x7f2f12e6
    ensures Schedule(m, 74) == 0xf868cfb1 && Schedule(m, 75) == 0xd6e997e9
    ensures Schedule(m, 76) == 0xf526b852 && Schedule(m, 77) == 0xb7578dcc
    ensures Schedule(m, 78) == 0x55d99df4 && Schedule(m, 79) == 0x1ff69958
  {
    hide Schedule, LongBlock;
    LongWords3(m);
    MoreWords(m, 64);
  }

  lemma LongRounds0(m: seq<word>, h: Regs)
    requires LongBlock(m) && |m| == 16 && h == Regs(0x67452301, 0xefcdab89, 0x98badcfe, 0x10325476, 0xc3d2e1f0)
    ensures Rounds(m, 20, h) == Regs(0x6c445652, 0x944b1bd1, 0x509ae70d, 0x1ac1a012, 0x5098df8e)
  {
    hide Schedule, Rounds, LongBlock;
    RoundsNext(m, 0, h);
    LongWords0(m);
    LongWords1(m);
    Five(m, h, 0, 0x61626364, 0x62636465, 0x63646566, 0x64656667, 0x65666768,
         Regs(0x67452301, 0xefcdab89, 0x98badcfe, 0x10325476, 0xc3d2e1f0));
    Five(m, h, 5, 0x66676869, 0x6768696a, 0x68696a6b, 0x696a6b6c, 0x6a6b6c6d,
         Regs(0x33f4ae5b, 0x2c4f6eac, 0x9442644e, 0xbafced14, 0xc045bf05));
    Five(m, h, 10, 0x6b6c6d6e, 0x6c6d6e6f, 0x6d6e6f70, 0x6e6f7071, 0x80000000,
         Regs(0x6350afda, 0xc565c35e, 0xd160cfc3, 0x36c132d6, 0x65ae1462));
    Five(m, h, 15, 0x00000000, 0x0a063a3e, 0xd8dadcdf, 0xdadcdec0, 0xc8d2b4be,
         Regs(0xb2e7a8be, 0x32f94a85, 0xa180d207, 0xb867b2a8, 0xe264fa9d));
  }

  lemma LongRounds1(m: seq<word>, h: Regs)
    requires LongBlock(m) && |m| == 16 && h == Regs(0x67452301, 0xefcdab89, 0x98badcfe, 0x10325476, 0xc3d2e1f0)
    ensures Rounds(m, 40, h) == Regs(0xadeb7478, 0x24957f22, 0x50fe1eba, 0x564cff26, 0xaadf0cbb)
  {
    hide Schedule, Rounds, LongBlock;
    LongRounds0(m, h);
    LongWords1(m);
    LongWords2(m);
    Five(m, h, 20, 0x6f757b5b, 0x757b5967, 0x8da16d70, 0xdaeefaba, 0xfaf6cab6,
         Regs(0x6c445652, 0x944b1bd1, 0x509ae70d, 0x1ac1a012, 0x5098df8e));
    Five(m, h, 25, 0xa6fb675a, 0x0c604cc8, 0x604cc02c, 0x49c0e6e2, 0x2ee8cbbc,
         Regs(0xeeb82d9a, 0xfd224575, 0x38ae4b71, 0xc254445d, 0x6560db69));
    Five(m, h, 30, 0xcfd72ec4, 0x97e9810e, 0x0989cbe8, 0xf24843fe, 0x5c40d0ba,
         Regs(0x05b457b2, 0xe1122421, 0x3549a991, 0xca5cbdf1, 0x96850b06));
    Five(m, h, 35, 0xa8d9cc3b, 0xb2b9666e, 0xba7b71b7, 0x20b28a72, 0xb28af500,
         Regs(0xe9ac987c, 0x31c756a9, 0x16bcc90b, 0x14b8c7d8, 0x2a7212fb));
  }

  lemma LongRounds2(m: seq<word>, h: Regs)
    requires LongBlock(m) && |m| == 16 && h == Regs(0x67452301, 0xefcdab89, 0x98badcfe, 0x10325476, 0xc3d2e1f0)
    ensures Rounds(m, 60, h) == Regs(0x9ef775c3, 0xf03d3782, 0xeb029e53, 0xe9a06dc8, 0x1ddb0e44)
  {
    hide Schedule, Rounds, LongBlock;
    LongRounds1(m, h);
    LongWords2(m);
    LongWords3(m);
    Five(m, h, 40, 0x8ac87842, 0x289addf4, 0x56d51f21, 0xd96b7fd2, 0x3868e778,
         Regs(0xadeb7478, 0x24957f22, 0x50fe1eba, 0x564cff26, 0xaadf0cbb));
    Five(m, h, 45, 0xab5e4848, 0x7f0e2118, 0xde87a111, 0xe8be56b0, 0x1a0ae652,
         Regs(0x98c1ea64, 0x633e9561, 0xbe6f2e37, 0x1e6f3ec2, 0x35c39404));
    Five(m, h, 50, 0xcd5611c8, 0x46ef29dc, 0x60d3da6d, 0xddf3ba6e, 0x2737f5e9,
         Regs(0x7e846f58, 0x88341600, 0x3229a424, 0xa8ab53c0, 0xb1ba8907));
    Five(m, h, 55, 0x4888a710, 0xd2a1177b, 0x9999633b, 0xd6c69d03, 0xccf6127b,
         Regs(0x36d1230a, 0xedea95b1, 0x33a24b84, 0x234b9db2, 0xa1b8d62e));
  }

  lemma LongRounds3(m: seq<word>, h: Regs)
    requires LongBlock(m) && |m| == 16 && h == Regs(0x67452301, 0xefcdab89, 0x98badcfe, 0x10325476, 0xc3d2e1f0)
    ensures Rounds(m, 80, h) == Regs(0x8ce34517, 0xd3ad7c25, 0x6b4e1883, 0x74351cd2, 0x86838382)
  {
    hide Schedule, Rounds, LongBlock;
    LongRounds2(m, h);
    LongWords3(m);
    LongWords4(m);
    Five(m, h, 60, 0x7c58fe6d, 0xfdd99c68, 0xf8e32074, 0xe0ba3c7d, 0x152198d6,
         Regs(0x9ef775c3, 0xf03d3782, 0xeb029e53, 0xe9a06dc8, 0x1ddb0e44));
    Five(m, h, 65, 0x7b3f1982, 0x37f2d5b7, 0x8596323e, 0x810790d6, 0xbea0a942,
         Regs(0xe5895c81, 0x513f9ca0, 0x0afebdea, 0x10203537, 0xcd8952c4));
    Five(m, h, 70, 0x11c7e1b1, 0x6158d101, 0x5fcd77d9, 0x7f2f12e6, 0xf868cfb1,
         Regs(0xfdf6efff, 0x2c7b07bd, 0x5b45f27f, 0x452a0b6a, 0x440df4b5));
    Five(m, h, 75, 0xd6e997e9, 0xf526b852, 0xb7578dcc, 0x55d99df4, 0x1ff69958,
         Regs(0x352d9f4b, 0xc5210e35, 0x6ae27edc, 0xa10195c4, 0xc44ae5b8));
  }

  // ----- the longer message, second block

  /** The words of the block. */
  predicate LastBlock(m: seq<word>) {
    && |m| == 16
    && m[0] == 0x00000000 && m[1] == 0x00000000 && m[2] == 0x00000000 && m[3] == 0x00000000
    && m[4] == 0x00000000 && m[5] == 0x00000000 && m[6] == 0x00000000 && m[7] == 0x00000000
    && m[8] == 0x00000000 && m[9] == 0x00000000 && m[10] == 0x00000000 && m[11] == 0x00000000
    && m[12] == 0x00000000 && m[13] == 0x00000000 && m[14] == 0x00000000 && m[15] == 0x000001c0
  }

  lemma LastWords0(m: seq<word>)
    requires LastBlock(m) && |m| == 16
    ensures Schedule(m, 0) == 0x00000000 && Schedule(m, 1) == 0x00000000
    ensures Schedule(m, 2) == 0x00000000 && Schedule(m, 3) == 0x00000000
    ensures Schedule(m, 4) == 0x00000000 && Schedule(m, 5) == 0x00000000
    ensures Schedule(m, 6) == 0x00000000 && Schedule(m, 7) == 0x00000000
    ensures Schedule(m, 8) == 0x00000000 && Schedule(m, 9) == 0x00000000
    ensures Schedule(m, 10) == 0x00000000 && Schedule(m, 11) == 0x00000000
    ensures Schedule(m, 12) == 0x00000000 && Schedule(m, 13) == 0x00000000
    ensures Schedule(m, 14) == 0x00000000 && Schedule(m, 15) == 0x000001c0
  {
  }

  lemma LastWords1(m: seq<word>)
    requires LastBlock(m) && |m| == 16
    ensures Schedule(m, 16) == 0x00000000 && Schedule(m, 17) == 0x00000000
    ensures Schedule(m, 18) == 0x00000380 && Schedule(m, 19) == 0x00000000
    ensures Schedule(m, 20) == 0x00000000 && Schedule(m, 21) == 0x00000700
    ensures Schedule(m, 22) == 0x00000000 && Schedule(m, 23) == 0x00000380
    ensures Schedule(m, 24) == 0x00000e00 && Schedule(m, 25) == 0x00000000
    ensures Schedule(m, 26) == 0x00000000 && Schedule(m, 27) == 0x00001c00
    ensures Schedule(m, 28) == 0x00000000 && Schedule(m, 29) == 0x00000d80
    ensures Schedule(m, 30) == 0x00003800 && Schedule(m, 31) == 0x00000480
  {
    hide Schedule, LastBlock;
    LastWords0(m);
    MoreWords(m, 16);
  }

  lemma LastWords2(m: seq<word>)
    requires LastBlock(m) && |m| == 16
    ensures Schedule(m, 32) == 0x00000000 && Schedule(m, 33) == 0x00007000
    ensures Schedule(m, 34) == 0x00000e00 && Schedule(m, 35) == 0x00003600
    ensures Schedule(m, 36) == 0x0000e000 && Schedule(m, 37) == 0x00000e00
    ensures Schedule(m, 38) == 0x00000000 && Schedule(m, 39) == 0x0001ce00
    ensures Schedule(m, 40) == 0x00000000 && Schedule(m, 41) == 0x0000d800
    ensures Schedule(m, 42) == 0x00038000 && Schedule(m, 43) == 0x00004f00
    ensures Schedule(m, 44) == 0x00000000 && Schedule(m, 45) == 0x00070e00
    ensures Schedule(m, 46) == 0x0000ee00 && Schedule(m, 47) == 0x00037500
  {
    hide Schedule, LastBlock;
    LastWords1(m);
    MoreWords(m, 32);
  }

  lemma LastWords3(m: seq<word>)
    requires LastBlock(m) && |m| == 16
    ensures Schedule(m, 48) == 0x000e0000 && Schedule(m, 49) == 0x0000e000
    ensures Schedule(m, 50) == 0x00003600 && Schedule(m, 51) == 0x001cee00
    ensures Schedule(m, 52) == 0x00000000 && Schedule(m, 53) == 0x000df000
    ensures Schedule(m, 54) == 0x00380000 && Schedule(m, 55) == 0x0004c600
    ensures Schedule(m, 56) == 0x0000e000 && Schedule(m, 57) == 0x0070ee00
    ensures Schedule(m, 58) == 0x000ee000 && Schedule(m, 59) == 0x00369e00
    ensures Schedule(m, 60) == 0x00e00000 && Schedule(m, 61) == 0x000ed600
    ensures Schedule(m, 62) == 0x0000e000 && Schedule(m, 63) == 0x01cea600
  {
    hide Schedule, LastBlock;
    LastWords2(m);
    MoreWords(m, 48);
  }

  lemma LastWords4(m: seq<word>)
    requires LastBlock(m) && |m| == 16
    ensures Schedule(m, 64) == 0x00000000 && Schedule(m, 65) == 0x00d80000
    ensures Schedule(m, 66) == 0x0380e000 && Schedule(m, 67) == 0x004f0000
    ensures Schedule(m, 68) == 0x00000000 && Schedule(m, 69) == 0x070e0000
    ensures Schedule(m, 70) == 0x00ee0000 && Schedule(m, 71) == 0x03751c00
    ensures Schedule(m, 72) == 0x0e000000 && Schedule(m, 73) == 0x00e0e000
    ensures Schedule(m, 74) == 0x00363800 && Schedule(m, 75) == 0x1cee9000
    ensures Schedule(m, 76) == 0x00000000 && Schedule(m, 77) == 0x0df09000
    ensures Schedule(m, 78) == 0x3800e000 && Schedule(m, 79) == 0x04c77400
  {
    hide Schedule, LastBlock;
    LastWords3(m);
    MoreWords(m, 64);
  }

  lemma LastRounds0(m: seq<word>, h: Regs)
    requires LastBlock(m) && |m| == 16 && h == Regs(0xf4286818, 0xc37b27ae, 0x0408f581, 0x84677148, 0x4a566572)
    ensures Rounds(m, 20, h) == Regs(0xd8992153, 0xc2eb709f, 0x2946d62f, 0x9541f6db, 0x365dc8d8)
  {
    hide Schedule, Rounds, LastBlock;
    RoundsNext(m, 0, h);
    LastWords0(m);
    LastWords1(m);
    Five(m, h, 0, 0x00000000, 0x00000000, 0x00000000, 0x00000000, 0x00000000,
         Regs(0xf4286818, 0xc37b27ae, 0x0408f581, 0x84677148, 0x4a566572));
    Five(m, h, 5, 0x00000000, 0x00000000, 0x00000000, 0x00000000, 0x00000000,
         Regs(0x41e34277, 0xeef743c6, 0x70d4aec1, 0xd34f7163, 0x4b7c95fa));
    Five(m, h, 10, 0x00000000, 0x00000000, 0x00000000, 0x00000000, 0x00000000,
         Regs(0xb8538aca, 0xfdde1de1, 0xf1a51a04, 0xf9fe80dd, 0x1510e457));
    Five(m, h, 15, 0x000001c0, 0x00000000, 0x00000000, 0x00000380, 0x00000000,
         Regs(0x258b0baa, 0xa2604ca8, 0xffb35eef, 0xd0e89e4b, 0xdaea53d8));
  }

  lemma LastRounds1(m: seq<word>, h: Regs)
    requires LastBlock(m) && |m| == 16 && h == Regs(0xf4286818, 0xc37b27ae, 0x0408f581, 0x84677148, 0x4a566572)
    ensures Rounds(m, 40, h) == Regs(0x03bb6310, 0x84e2a5f2, 0x21f56e03, 0xb3bd6b84, 0x1a5b6901)
  {
    hide Schedule, Rounds, LastBlock;
    LastRounds0(m, h);
    LastWords1(m);
    LastWords2(m);
    Five(m, h, 20, 0x00000000, 0x00000700, 0x00000000, 0x00000380, 0x00000e00,
         Regs(0xd8992153, 0xc2eb709f, 0x2946d62f, 0x9541f6db, 0x365dc8d8));
    Five(m, h, 25, 0x00000000, 0x00000000, 0x00001c00, 0x00000000, 0x00000d80,
         Regs(0x88fb5867, 0x8fbaa5b9, 0x66b5652e, 0x7ba1c02f, 0xcdd20bd7));
    Five(m, h, 30, 0x00003800, 0x00000480, 0x00000000, 0x00007000, 0x00000e00,
         Regs(0x0a2fb108, 0x2429be5f, 0xd7105b6b, 0x142f390d, 0x7bb14148));
    Five(m, h, 35, 0x00003600, 0x0000e000, 0x00000e00, 0x00000000, 0x0001ce00,
         Regs(0x295cc25b, 0xf15f04f3, 0xdad8a664, 0x2292bce1, 0xc5e61888));
  }

  lemma LastRounds2(m: seq<word>, h: Regs)
    requires LastBlock(m) && |m| == 16 && h == Regs(0xf4286818, 0xc37b27ae, 0x0408f581, 0x84677148, 0x4a566572)
    ensures Rounds(m, 60, h) == Regs(0xa65818f7, 0x5b086c42, 0xb9e15956, 0xea1256a6, 0xdb69cb9f)
  {
    hide Schedule, Rounds, LastBlock;
    LastRounds1(m, h);
    LastWords2(m);
    LastWords3(m);
    Five(m, h, 40, 0x00000000, 0x0000d800, 0x00038000, 0x00004f00, 0x00000000,
         Regs(0x03bb6310, 0x84e2a5f2, 0x21f56e03, 0xb3bd6b84, 0x1a5b6901));
    Five(m, h, 45, 0x00070e00, 0x0000ee00, 0x00037500, 0x000e0000, 0x0000e000,
         Regs(0x3caed7af, 0xec1d3d61, 0x8a162454, 0x2fec95da, 0xf0b63dd7));
    Five(m, h, 50, 0x00003600, 0x001cee00, 0x00000000, 0x000df000, 0x00380000,
         Regs(0x850d411c, 0xdc8e7f26, 0x11be4eda, 0x9cc5815a, 0xb0f40cfa));
    Five(m, h, 55, 0x0004c600, 0x0000e000, 0x0070ee00, 0x000ee000, 0x00369e00,
         Regs(0x2bdbb8cb, 0x431d65bc, 0x05e5f88a, 0x627ef507, 0x1f919cb0));
  }

  lemma LastRounds3(m: seq<word>, h: Regs)
    requires LastBlock(m) && |m| == 16 && h == Regs(0xf4286818, 0xc37b27ae, 0x0408f581, 0x84677148, 0x4a566572)
    ensures Rounds(m, 80, h) == Regs(0x906fd62c, 0x58c0aac0, 0xb6a55520, 0x74e9b89d, 0x9af00b7f)
  {
    hide Schedule, Rounds, LastBlock;
    LastRounds2(m, h);
    LastWords3(m);
    LastWords4(m);
    Five(m, h, 60, 0x00e00000, 0x000ed600, 0x0000e000, 0x01cea600, 0x00000000,
         Regs(0xa65818f7, 0x5b086c42, 0xb9e15956, 0xea1256a6, 0xdb69cb9f));
    Five(m, h, 65, 0x00d80000, 0x0380e000, 0x004f0000, 0x00000000, 0x070e0000,
         Regs(0x60a9da62, 0xd504902b, 0x3d9b66fd, 0x24d85327, 0xdeaac406));
    Five(m, h, 70, 0x00ee0000, 0x03751c00, 0x0e000000, 0x00e0e000, 0x00363800,
         Regs(0x989dd165, 0x76c0563b, 0xfd889aef, 0xc20fa430, 0x62da1e06));
    Five(m, h, 75, 0x1cee9000, 0x00000000, 0x0df09000, 0x3800e000, 0x04c77400,
         Regs(0xd28d83ad, 0x16f3babb, 0xb2861037, 0xeb86e39e, 0xe2cb1d5c));
  }

  // ----- the messages and their digests

  const ABC: seq<byte> := [0x61, 0x62, 0x63]

  /** "abcdbcdecdefdefgefghfghighijhijkijkljklmklmnlmnomnopnopq": four letters from a on, four from b on, and so on. */
  const LONG: seq<byte> := seq(56, i requires 0 <= i < 56 => ByteAt(0x61 + i / 4 + i % 4))

  lemma PaddedAt(msg: seq<byte>, i: nat)
    requires i < |msg| + 9 + PadZeroes(|msg|)
    ensures |Padded(msg)| == |msg| + 9 + PadZeroes(|msg|)
    ensures Padded(msg)[i]
      == if i < |msg| then msg[i]
         else if i == |msg| then 0x80
         else if i < |msg| + 1 + PadZeroes(|msg|) then 0
         else LengthBytes(8 * |msg|)[i - |msg| - 1 - PadZeroes(|msg|)]
  {
    hide LengthBytes, PadZeroes;
  }

  lemma LengthsAre()
    ensures LengthBytes(24) == [0, 0, 0, 0, 0, 0, 0, 24] && LengthBytes(448) == [0, 0, 0, 0, 0, 0, 1, 0xc0]
  {
    hide Shift8, ByteAt;
    SmallShifts(24);
    SmallShifts(448);
    SmallBytes();
  }

  lemma SmallShifts(n: nat)
    requires n < 65536
    ensures Shift8(n, 0) == n && Shift8(n, 1) == n / 256 && Shift8(n, 2) == 0 && Shift8(n, 3) == 0
    ensures Shift8(n, 4) == 0 && Shift8(n, 5) == 0 && Shift8(n, 6) == 0 && Shift8(n, 7) == 0
  {
    hide Shift8;
    Shift8Next(n, 0); Shift8Next(n, 1); Shift8Next(n, 2); Shift8Next(n, 3);
    Shift8Next(n, 4); Shift8Next(n, 5); Shift8Next(n, 6);
  }

  lemma SmallBytes()
    ensures ByteAt(0) == 0 && ByteAt(1) == 1 && ByteAt(24) == 24 && ByteAt(0xc0) == 0xc0
  {}

  /** Byte i of the padded "abc", and of the padded longer message. */
  function AbcByte(i: nat): byte
    requires i < 64
  {
    if i < 3 then ByteAt(0x61 + i) else if i == 3 then 0x80 else if i < 63 then 0 else 24
  }

  function LongByte(i: nat): byte
    requires i < 128
  {
    if i < 56 then ByteAt(0x61 + i / 4 + i % 4) else if i == 56 then 0x80
    else if i < 126 then 0 else if i == 126 then 1 else 0xc0
  }

  lemma AbcPadded(i: nat)
    requires i < 64
    ensures |Padded(ABC)| == 64 && Padded(ABC)[i] == AbcByte(i)
  {
    hide Padded, LengthBytes;
    LengthsAre();
    LettersAre();
    PaddedAt(ABC, i);
  }

  lemma LongPadded(i: nat)
    requires i < 128
    ensures |Padded(LONG)| == 128 && Padded(LONG)[i] == LongByte(i)
  {
    hide Padded, LengthBytes, ByteAt;
    LengthsAre();
    PaddedAt(LONG, i);
  }

  /** Word i of the longer message, for a first letter a. */
  lemma LongLetters(i: nat, a: nat)
    requires i < 14 && a == 0x61 + i
    ensures |Padded(LONG)| == 128
    ensures BlockWords(Padded(LONG)[0..64])[i] == BigWord(ByteAt(a), ByteAt(a + 1), ByteAt(a + 2), ByteAt(a + 3))
  {
    hide ByteAt, BigWord, Padded;
    LongWord(0, i);
  }

  lemma LettersAre()
    ensures ByteAt(0x61) == 0x61 && ByteAt(0x62) == 0x62 && ByteAt(0x63) == 0x63 && ByteAt(0x64) == 0x64
    ensures ByteAt(0x65) == 0x65 && ByteAt(0x66) == 0x66 && ByteAt(0x67) == 0x67 && ByteAt(0x68) == 0x68
    ensures ByteAt(0x69) == 0x69 && ByteAt(0x6a) == 0x6a && ByteAt(0x6b) == 0x6b && ByteAt(0x6c) == 0x6c
    ensures ByteAt(0x6d) == 0x6d && ByteAt(0x6e) == 0x6e && ByteAt(0x6f) == 0x6f && ByteAt(0x70) == 0x70
    ensures ByteAt(0x71) == 0x71
  {}

  lemma AbcWord(i: nat)
    requires i < 16
    ensures |Padded(ABC)| == 64
    ensures BlockWords(Padded(ABC)[0..64])[i]
      == BigWord(AbcByte(4 * i), AbcByte(4 * i + 1), AbcByte(4 * i + 2), AbcByte(4 * i + 3))
  {
    hide Padded, BigWord, AbcByte;
    AbcPadded(4 * i);
    AbcPadded(4 * i + 1);
    AbcPadded(4 * i + 2);
    AbcPadded(4 * i + 3);
  }

  lemma LongWord(k: nat, i: nat)
    requires k < 2 && i < 16
    ensures |Padded(LONG)| == 128
    ensures var at := 64 * k + 4 * i;
      BlockWords(Padded(LONG)[64 * k..64 * k + 64])[i]
      == BigWord(LongByte(at), LongByte(at + 1), LongByte(at + 2), LongByte(at + 3))
  {
    hide Padded, BigWord, LongByte;
    var at := 64 * k + 4 * i;
    LongPadded(at);
    LongPadded(at + 1);
    LongPadded(at + 2);
    LongPadded(at + 3);
  }

  lemma AbcLoaded()
    ensures |Padded(ABC)| == 64 && AbcBlock(BlockWords(Padded(ABC)[0..64]))
  {
    hide Padded, BlockWords, ByteAt;
    LettersAre();
    AbcWord(0); AbcWord(1); AbcWord(2); AbcWord(3);
    AbcWord(4); AbcWord(5); AbcWord(6); AbcWord(7);
    AbcWord(8); AbcWord(9); AbcWord(10); AbcWord(11);
    AbcWord(12); AbcWord(13); AbcWord(14); AbcWord(15);
  }

  lemma LongLoaded()
    ensures |Padded(LONG)| == 128 && LongBlock(BlockWords(Padded(LONG)[0..64]))
  {
    hide Padded, BlockWords, ByteAt;
    LettersAre();
    LongLetters(0, 0x61); LongLetters(1, 0x62); LongLetters(2, 0x63); LongLetters(3, 0x64);
    LongLetters(4, 0x65); LongLetters(5, 0x66); LongLetters(6, 0x67); LongLetters(7, 0x68);
    LongLetters(8, 0x69); LongLetters(9, 0x6a); LongLetters(10, 0x6b); LongLetters(11, 0x6c);
    LongLetters(12, 0x6d); LongLetters(13, 0x6e); LongWord(0, 14); LongWord(0, 15);
  }

  lemma LastLoaded()
    ensures |Padded(LONG)| == 128 && LastBlock(BlockWords(Padded(LONG)[64..128]))
  {
    hide Padded, BlockWords, ByteAt;
    LettersAre();
    LongWord(1, 0); LongWord(1, 1); LongWord(1, 2); LongWord(1, 3);
    LongWord(1, 4); LongWord(1, 5); LongWord(1, 6); LongWord(1, 7);
    LongWord(1, 8); LongWord(1, 9); LongWord(1, 10); LongWord(1, 11);
    LongWord(1, 12); LongWord(1, 13); LongWord(1, 14); LongWord(1, 15);
  }

  lemma FoldOfOne(p: seq<byte>)
    requires |p| == 64
    ensures Fold(IV, p) == Compress(IV, p[0..64])
  {
    hide Compress;
    assert p[..64] == p[0..64] && p[64..] == [];
  }

  lemma FoldOfTwo(p: seq<byte>)
    requires |p| == 128
    ensures Fold(IV, p) == Compress(Compress(IV, p[0..64]), p[64..128])
  {
    hide Compress;
    assert p[..64] == p[0..64] && p[64..][..64] == p[64..128];
    FoldBlock(IV, p[0..64], p[64..128]);
    FoldOfOne(p[0..64]);
    assert p[0..64] + p[64..128] == p && p[0..64][0..64] == p[0..64];
  }

  /** The digest of "abc". */
  lemma AbcDigest()
    ensures Hash(ABC) == Regs(0xa9993e36, 0x4706816a, 0xba3e2571, 0x7850c26c, 0x9cd0d89d)
    ensures DigestBytes(Hash(ABC))
      == [0xa9, 0x99, 0x3e, 0x36, 0x47, 0x06, 0x81, 0x6a, 0xba, 0x3e,
          0x25, 0x71, 0x78, 0x50, 0xc2, 0x6c, 0x9c, 0xd0, 0xd8, 0x9d]
  {
    hide Padded, BlockWords, Rounds, AbcBlock;
    AbcLoaded();
    AbcRounds3(BlockWords(Padded(ABC)[0..64]), Regs(0x67452301, 0xefcdab89, 0x98badcfe, 0x10325476, 0xc3d2e1f0));
    FoldOfOne(Padded(ABC));
  }

  /** The digest of the longer message. */
  lemma LongDigest()
    ensures Hash(LONG) == Regs(0x84983e44, 0x1c3bd26e, 0xbaae4aa1, 0xf95129e5, 0xe54670f1)
    ensures DigestBytes(Hash(LONG))
      == [0x84, 0x98, 0x3e, 0x44, 0x1c, 0x3b, 0xd2, 0x6e, 0xba, 0xae,
          0x4a, 0xa1, 0xf9, 0x51, 0x29, 0xe5, 0xe5, 0x46, 0x70, 0xf1]
  {
    hide Padded, BlockWords, Rounds, LongBlock, LastBlock;
    LongLoaded();
    LongRounds3(BlockWords(Padded(LONG)[0..64]), Regs(0x67452301, 0xefcdab89, 0x98badcfe, 0x10325476, 0xc3d2e1f0));
    LastLoaded();
    LastRounds3(BlockWords(Padded(LONG)[64..128]), Regs(0xf4286818, 0xc37b27ae, 0x0408f581, 0x84677148, 0x4a566572));
    FoldOfTwo(Padded(LONG));
  }

  /** Both implementations return the digests of the examples, however the messages are cut. */
  method Digests(abc: seq<seq<byte>>, long: seq<seq<byte>>) returns (md: seq<byte>, d: Regs, md2: seq<byte>, d2: Regs)
    requires Joined(abc) == ABC && Joined(long) == LONG
    ensures md == [0xa9, 0x99, 0x3e, 0x36, 0x47, 0x06, 0x81, 0x6a, 0xba, 0x3e,
                   0x25, 0x71, 0x78, 0x50, 0xc2, 0x6c, 0x9c, 0xd0, 0xd8, 0x9d]
    ensures d == Regs(0xa9993e36, 0x4706816a, 0xba3e2571, 0x7850c26c, 0x9cd0d89d)
    ensures md2 == [0x84, 0x98, 0x3e, 0x44, 0x1c, 0x3b, 0xd2, 0x6e, 0xba, 0xae,
                    0x4a, 0xa1, 0xf9, 0x51, 0x29, 0xe5, 0xe5, 0x46, 0x70, 0xf1]
    ensures d2 == Regs(0x84983e44, 0x1c3bd26e, 0xbaae4aa1, 0xf95129e5, 0xe54670f1)
  {
    hide Hash, DigestBytes, Joined;
    AbcDigest();
    LongDigest();
    Lengths();
    md := LibDigest(abc);
    md2 := LibDigest(long);
    var r;
    r, d := AppDigest(abc);
    r, d2 := AppDigest(long);
  }

  lemma Lengths()
    ensures |ABC| == 3 && |LONG| == 56
  {}
}
