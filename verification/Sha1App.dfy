/** app/sha1.c: SHA1Reset, SHA1Input, SHA1Result and the 80-word compression. */
module Sha1App {
  import opened Octets
  import opened Words
  import opened Sha1

  method Expand(block: array<byte>) returns (w: array<word>)
    requires block.Length == 64
    ensures w.Length == 80 && forall t | 0 <= t < 80 :: w[t] == Schedule(BlockWords(block[..]), t)
  {
    hide Rotl1, Xor4, BigWord, Schedule;
    ghost var m := BlockWords(block[..]);
    w := new word[80];
    for t := 0 to 16
      invariant forall j | 0 <= j < t :: w[j] == Schedule(m, j)
    {
      ScheduleAt(m, t);
      w[t] := BigWord(block[t * 4], block[t * 4 + 1], block[t * 4 + 2], block[t * 4 + 3]);
    }
    for t := 16 to 80
      invariant forall j | 0 <= j < t :: w[j] == Schedule(m, j)
    {
      ScheduleAt(m, t);
      w[t] := Rotl1(Xor4(w[t - 3], w[t - 8], w[t - 14], w[t - 16]));
    }
  }

  /** SHA1ProcessMessageBlock's 80-word schedule and its four loops of 20 rounds. */
  method ProcessBlock(h: Regs, block: array<byte>) returns (r: Regs)
    requires block.Length == 64
    ensures r == Compress(h, block[..])
  {
    hide Turn, Choose, Parity, Majority, AddRegs, Schedule, BlockWords, K0, K1, K2, K3;
    ghost var m := BlockWords(block[..]);
    var w := Expand(block);
    var s := h;
    for t := 0 to 20
      invariant s == Rounds(m, t, h)
    {
      s := Turn(Choose(s.b, s.c, s.d), K0, w[t], s);
    }
    for t := 20 to 40
      invariant s == Rounds(m, t, h)
    {
      s := Turn(Parity(s.b, s.c, s.d), K1, w[t], s);
    }
    for t := 40 to 60
      invariant s == Rounds(m, t, h)
    {
      s := Turn(Majority(s.b, s.c, s.d), K2, w[t], s);
    }
    for t := 60 to 80
      invariant s == Rounds(m, t, h)
    {
      s := Turn(Parity(s.b, s.c, s.d), K3, w[t], s);
    }
    r := AddRegs(h, s);
  }

  const TWO32: nat := 0x1_0000_0000
  /** Messages must be shorter than 2^64 bits. */
  const LIMIT: nat := 0x2000_0000_0000_0000

  /** A bit count that is eight times a byte count has a low word divisible by eight. */
  lemma Aligned(n: nat, high: nat, low: nat)
    requires 8 * n == high * TWO32 + low
    ensures low % 8 == 0
  {
    assert low == 8 * (n - high * 0x2000_0000);
  }

  class SHA1Context {
    var digest: Regs
    var low: nat
    var high: nat
    const block: array<byte>
    var index: nat
    var computed: bool
    var corrupted: bool
    /** The bytes SHA1Input has accepted, and the whole blocks that have been compressed. */
    ghost var msg: seq<byte>
    ghost var done: seq<byte>

    ghost predicate Tracks()
      reads this, block
    {
      block.Length == 64 && index <= 64 && |done| % 64 == 0 && digest == Fold(IV, done)
    }

    /** Everything that has entered the block so far. */
    ghost function Fed(): seq<byte>
      requires Tracks()
      reads this, block
    {
      done + block[..index]
    }

    ghost predicate Collecting()
      reads this, block
    {
      Tracks() && index < 64 && Fed() == msg && 8 * |msg| == high * TWO32 + low
    }

    ghost predicate Valid()
      reads this, block
    {
      && block.Length == 64 && low < TWO32 && high < TWO32
      && (!corrupted && !computed ==> Collecting())
      && (!corrupted && computed ==> |msg| < LIMIT && digest == Hash(msg))
    }

    /** SHA1Reset */
    constructor ()
      ensures Valid() && fresh(block) && msg == [] && !computed && !corrupted
    {
      low, high, index := 0, 0, 0;
      digest := IV;
      computed, corrupted := false, false;
      block := new byte[64];
      msg, done := [], [];
    }

    /** Message_Block[Message_Block_Index++] = b */
    method Append(b: byte)
      requires Tracks() && index < 64
      modifies this`index, block
      ensures Tracks() && index == old(index) + 1
      ensures Fed() == old(Fed()) + [b]
    {
      hide Fold;
      block[index] := b;
      index := index + 1;
      assert block[..index] == old(block[..index]) + [b];
    }

    method Process()
      requires Tracks()
      modifies this`digest, this`index, this`done
      ensures Tracks() && index == 0 && done == old(done) + block[..]
    {
      hide Fold, Compress;
      FoldBlock(IV, done, block[..]);
      digest := ProcessBlock(digest, block);
      index := 0;
      done := done + block[..];
    }

    /** The carry of the two length words; true when the count leaves 64 bits. */
    method CountByte() returns (overflow: bool)
      requires low < TWO32 && high < TWO32 && low % 8 == 0
      modifies this`low, this`high
      ensures low < TWO32 && high < TWO32
      ensures overflow <==> old(high) * TWO32 + old(low) + 8 == TWO32 * TWO32
      ensures !overflow ==> high * TWO32 + low == old(high) * TWO32 + old(low) + 8
    {
      overflow := false;
      low := (low + 8) % TWO32;
      if low == 0 {
        high := (high + 1) % TWO32;
        if high == 0 {
          overflow := true;
        }
      }
    }

    /** Processes the block if it is full. */
    method Flush()
      requires Tracks()
      modifies this`digest, this`index, this`done
      ensures Tracks() && index == old(index) % 64 && Fed() == old(Fed())
    {
      hide Fold;
      if index == 64 {
        assert block[..64] == block[..];
        Process();
        assert done + block[..0] == done;
      }
    }

    /** The loop body of SHA1Input. */
    method InputByte(b: byte)
      requires Collecting() && low < TWO32 && high < TWO32
      modifies this, block
      ensures computed == old(computed) && msg == old(msg) + [b] && low < TWO32 && high < TWO32
      ensures corrupted <==> old(corrupted) || |msg| == LIMIT
      ensures |msg| == LIMIT || Collecting()
    {
      hide Fold;
      Aligned(|msg|, high, low);
      Append(b);
      msg := msg + [b];
      var overflow := CountByte();
      if overflow {
        corrupted := true;
      }
      Flush();
    }

    lemma CollectingIsShort()
      requires Collecting() && low < TWO32 && high < TWO32
      ensures |msg| < LIMIT
    {}

    /** SHA1Input */
    method Input(bytes: seq<byte>)
      requires Valid()
      modifies this, block
      ensures Valid() && computed == old(computed)
      ensures bytes == [] ==> msg == old(msg) && corrupted == old(corrupted)
      ensures bytes != [] && old(computed || corrupted) ==> corrupted && msg == old(msg) && digest == old(digest)
      ensures bytes != [] && !old(computed || corrupted) ==>
        && (corrupted <==> |old(msg)| + |bytes| >= LIMIT)
        && (!corrupted ==> msg == old(msg) + bytes)
    {
      hide Hash, Collecting;
      if |bytes| == 0 {
        return;
      }
      if computed || corrupted {
        corrupted := true;
        return;
      }
      InputLoop(bytes);
    }

    method InputLoop(bytes: seq<byte>)
      requires Collecting() && low < TWO32 && high < TWO32 && !corrupted
      modifies this, block
      ensures computed == old(computed) && low < TWO32 && high < TWO32
      ensures corrupted <==> |old(msg)| + |bytes| >= LIMIT
      ensures !corrupted ==> Collecting() && msg == old(msg) + bytes
    {
      hide Collecting, Tracks;
      var i := 0;
      ghost var before := msg;
      assert before + bytes[..0] == before;
      CollectingIsShort();
      while i < |bytes| && !corrupted
        invariant i <= |bytes| && computed == old(computed) && low < TWO32 && high < TWO32
        invariant msg == before + bytes[..i]
        invariant if corrupted then |msg| == LIMIT else |msg| < LIMIT && Collecting()
      {
        InputByte(bytes[i]);
        assert before + bytes[..i] + [bytes[i]] == before + bytes[..i + 1];
        if !corrupted {
          CollectingIsShort();
        }
        i := i + 1;
      }
      assert bytes[..|bytes|] == bytes;
    }

    method AppendZeroes(until: nat)
      requires Tracks() && index <= until <= 64
      modifies this`index, block
      ensures Tracks() && index == until && Fed() == old(Fed()) + Zeroes(until - old(index))
    {
      hide Fold, Zeroes;
      ghost var before, from := Fed(), index;
      ZeroesNext(0);
      assert before + [] == before;
      while index < until
        invariant Tracks() && from <= index <= until
        invariant Fed() == before + Zeroes(index - from)
      {
        ZeroesNext(index - from);
        assert before + Zeroes(index - from) + [0] == before + (Zeroes(index - from) + [0]);
        Append(0);
      }
    }

    lemma FedLength()
      requires Tracks()
      ensures index <= |Fed()| && (|Fed()| - index) % 64 == 0
    {
      assert |Fed()| == |done| + index;
    }

    /** The 0x80 byte and the zeroes, up to the place of the length. */
    method PadBlock()
      requires Tracks() && index < 64
      modifies this`digest, this`index, this`done, block
      ensures Tracks() && index == 56
      ensures Fed() == old(Fed()) + [0x80] + Zeroes(PadZeroes(|old(Fed())|))
    {
      hide Tracks, Fed, Zeroes, PadZeroes;
      FedLength();
      ghost var before, k := Fed(), index;
      PadCount(|before|, k);
      if index > 55 {
        Append(0x80);
        AppendZeroes(64);
        Flush();
        AppendZeroes(56);
        ZeroesAdd(63 - k, 56);
        assert before + [0x80] + Zeroes(63 - k) + Zeroes(56) == before + [0x80] + (Zeroes(63 - k) + Zeroes(56));
      } else {
        Append(0x80);
        AppendZeroes(56);
      }
    }

    method StoreWord(at: nat, w: nat)
      requires block.Length == 64 && at + 4 <= 64
      modifies block
      ensures block[..]
        == old(block[..at]) + [Octet(w, 3), Octet(w, 2), Octet(w, 1), Octet(w, 0)] + old(block[at + 4..])
    {
      hide Octet;
      block[at] := Octet(w, 3);
      block[at + 1] := Octet(w, 2);
      block[at + 2] := Octet(w, 1);
      block[at + 3] := Octet(w, 0);
    }

    method StoreLength()
      requires block.Length == 64 && low < TWO32 && high < TWO32
      modifies block
      ensures block[..] == old(block[..56]) + LengthBytes(high * TWO32 + low)
    {
      hide Octet;
      LengthHalves(high, low);
      StoreWord(56, high);
      StoreWord(60, low);
    }

    /** SHA1PadMessage */
    method PadMessage()
      requires Collecting() && low < TWO32 && high < TWO32
      modifies this`digest, this`index, this`done, block
      ensures digest == Hash(msg)
    {
      hide Fold, Zeroes, PadZeroes, LengthBytes;
      PadBlock();
      ghost var padded := Fed();
      StoreLength();
      Process();
      assert done == padded + LengthBytes(8 * |msg|);
    }

    /** SHA1Result */
    method Result() returns (r: int)
      requires Valid()
      modifies this, block
      ensures Valid() && corrupted == old(corrupted) && msg == old(msg)
      ensures corrupted ==> r == 0 && digest == old(digest) && computed == old(computed)
      ensures !corrupted ==> r == 1 && computed && digest == Hash(msg)
    {
      hide Hash, Collecting;
      if corrupted {
        return 0;
      }
      if !computed {
        CollectingIsShort();
        PadMessage();
        computed := true;
      }
      return 1;
    }
  }
}
