/** lib/sha-1.c on a little-endian machine: sha1_loop, sha1_pad, sha1_result and the circular compression. */
module Sha1Lib {
  import opened Octets
  import opened Words
  import opened Sha1

  /** Before round t the 16 slots hold the schedule words from Oldest(t) on, word j in slot j mod 16. */
  function Oldest(t: nat): nat { if t <= 16 then 0 else t - 16 }

  ghost predicate Window(w: seq<word>, m: seq<word>, t: nat)
    requires |m| == 16
  {
    |w| == 16 && forall j | Oldest(t) <= j < Oldest(t) + 16 :: w[j % 16] == Schedule(m, j)
  }

  lemma Mod16(n: nat, q: int, r: nat)
    requires n == 16 * q + r && r < 16
    ensures n % 16 == r
  {}

  /** The slot d places behind slot t mod 16, as the source computes it. */
  lemma SlotBack(t: nat, d: nat)
    requires 1 <= d <= 16 <= t
    ensures (t % 16 + 16 - d) % 16 == (t - d) % 16
    ensures d < 16 ==> (t - d) % 16 != t % 16
  {
    var q, s := t / 16, t % 16;
    if s >= d {
      Mod16(t - d, q, s - d);
      Mod16(s + 16 - d, 1, s - d);
    } else {
      Mod16(t - d, q - 1, s + 16 - d);
      Mod16(s + 16 - d, 0, s + 16 - d);
    }
  }

  lemma WindowMoves(w: seq<word>, m: seq<word>, t: nat)
    requires |m| == 16 && t >= 16 && Window(w, m, t)
    ensures Window(w[t % 16 := Schedule(m, t)], m, t + 1)
  {
    hide Schedule;
    var v := w[t % 16 := Schedule(m, t)];
    forall j | t - 15 <= j < t + 1
      ensures v[j % 16] == Schedule(m, j)
    {
      if j < t {
        SlotBack(t, t - j);
      }
    }
  }

  /** Replaces the slot of round t; the other slots still hold the previous 15 words. */
  method Refresh(w: array<word>, ghost m: seq<word>, t: nat)
    requires |m| == 16 && t < 80 && w.Length == 16 && Window(w[..], m, t)
    modifies w
    ensures Window(w[..], m, t + 1) && w[t % 16] == Schedule(m, t)
  {
    hide Schedule, Rotl1, Xor4;
    var s := t % 16;
    ScheduleAt(m, t);
    if t >= 16 {
      ghost var before := w[..];
      SlotBack(t, 3);
      SlotBack(t, 8);
      SlotBack(t, 14);
      SlotBack(t, 16);
      assert before[(t - 3) % 16] == Schedule(m, t - 3) && before[(t - 8) % 16] == Schedule(m, t - 8);
      assert before[(t - 14) % 16] == Schedule(m, t - 14) && before[(t - 16) % 16] == Schedule(m, t - 16);
      WindowMoves(before, m, t);
      hide Window;
      w[s] := Rotl1(Xor4(w[(s + 13) % 16], w[(s + 8) % 16], w[(s + 2) % 16], w[s]));
      assert w[..] == before[s := Schedule(m, t)];
    } else {
      assert w[..][t % 16] == Schedule(m, t);
      WindowStart(w[..], m, t);
    }
  }

  lemma WindowStart(w: seq<word>, m: seq<word>, t: nat)
    requires |m| == 16 && t < 16 && Window(w, m, t)
    ensures Window(w, m, t + 1)
  {}

  /** The four loops of sha1_step on the b32 view of the block. */
  method CircularRounds(h: Regs, w: array<word>) returns (r: Regs)
    requires w.Length == 16
    modifies w
    ensures r == AddRegs(h, Rounds(old(w[..]), 80, h))
  {
    hide Turn, Choose, Parity, Majority, AddRegs, Schedule, K0, K1, K2, K3, Window;
    ghost var m := w[..];
    WindowInit(m);
    var s := h;
    for t := 0 to 20
      invariant s == Rounds(m, t, h) && Window(w[..], m, t)
    {
      Refresh(w, m, t);
      s := Turn(Choose(s.b, s.c, s.d), K0, w[t % 16], s);
    }
    for t := 20 to 40
      invariant s == Rounds(m, t, h) && Window(w[..], m, t)
    {
      Refresh(w, m, t);
      s := Turn(Parity(s.b, s.c, s.d), K1, w[t % 16], s);
    }
    for t := 40 to 60
      invariant s == Rounds(m, t, h) && Window(w[..], m, t)
    {
      Refresh(w, m, t);
      s := Turn(Majority(s.b, s.c, s.d), K2, w[t % 16], s);
    }
    for t := 60 to 80
      invariant s == Rounds(m, t, h) && Window(w[..], m, t)
    {
      Refresh(w, m, t);
      s := Turn(Parity(s.b, s.c, s.d), K3, w[t % 16], s);
    }
    r := AddRegs(h, s);
  }

  lemma WindowInit(m: seq<word>)
    requires |m| == 16
    ensures Window(m, m, 0)
  {}

  lemma SwappedLoad(b0: byte, b1: byte, b2: byte, b3: byte)
    ensures LittleWord(b3, b2, b1, b0) == BigWord(b0, b1, b2, b3)
  {}

  function Swapped(b: seq<byte>): (r: seq<byte>)
    requires |b| == 64
    ensures |r| == 64
  {
    seq(64, k requires 0 <= k < 64 => b[k / 4 * 4 + 3 - k % 4])
  }

  lemma SwappedAt(b: seq<byte>, i: nat)
    requires |b| == 64 && i < 16
    ensures var r := Swapped(b);
      && r[4 * i] == b[4 * i + 3] && r[4 * i + 1] == b[4 * i + 2]
      && r[4 * i + 2] == b[4 * i + 1] && r[4 * i + 3] == b[4 * i]
  {}

  const TWO64: nat := 0x1_0000_0000_0000_0000

  /** The digest in the order sha1_result stores it. */
  function DigestBytes(h: Regs): seq<byte> {
    [Byte3(h.a), Byte2(h.a), Byte1(h.a), Byte0(h.a), Byte3(h.b), Byte2(h.b), Byte1(h.b), Byte0(h.b),
     Byte3(h.c), Byte2(h.c), Byte1(h.c), Byte0(h.c), Byte3(h.d), Byte2(h.d), Byte1(h.d), Byte0(h.d),
     Byte3(h.e), Byte2(h.e), Byte1(h.e), Byte0(h.e)]
  }

  class Sha1Ctxt {
    var h: Regs
    /** The bit count c.b64[0] and the byte offset count. */
    var c: nat
    const m: array<byte>
    var count: nat
    ghost var done: seq<byte>

    ghost predicate Tracks()
      reads this, m
    {
      m.Length == 64 && count < 64 && |done| % 64 == 0 && h == Fold(IV, done)
    }

    /** Everything that has entered the block so far. */
    ghost function Fed(): seq<byte>
      requires Tracks()
      reads this, m
    {
      done + m[..count]
    }

    ghost predicate Valid()
      reads this, m
    {
      Tracks() && c == 8 * |Fed()| % TWO64
    }

    /** sha1_init */
    constructor ()
      ensures Valid() && fresh(m) && Fed() == []
    {
      m := new byte[64];
      c, count := 0, 0;
      h := IV;
      done := [];
    }

    /** memcpy to a local copy, then every word of the block is stored byte-reversed. */
    method SwapBytes()
      requires m.Length == 64
      modifies m
      ensures m[..] == Swapped(old(m[..]))
    {
      var t := m[..];
      forall k | 0 <= k < 64 {
        m[k] := t[k / 4 * 4 + 3 - k % 4];
      }
    }

    /** The b32 view of the swapped block. */
    method LoadWords() returns (w: array<word>)
      requires m.Length == 64
      modifies m
      ensures fresh(w) && w.Length == 16 && w[..] == BlockWords(old(m[..]))
    {
      hide LittleWord, BigWord, Swapped;
      ghost var b := m[..];
      SwapBytes();
      w := new word[16];
      for i := 0 to 16
        invariant forall j | 0 <= j < i :: w[j] == BlockWords(b)[j]
        invariant m[..] == Swapped(b)
      {
        SwappedLoad(b[4 * i], b[4 * i + 1], b[4 * i + 2], b[4 * i + 3]);
        SwappedAt(b, i);
        w[i] := LittleWord(m[..][4 * i], m[..][4 * i + 1], m[..][4 * i + 2], m[..][4 * i + 3]);
      }
    }

    /** sha1_step */
    method Step()
      requires m.Length == 64 && |done| % 64 == 0 && h == Fold(IV, done)
      modifies this`h, this`done, m
      ensures m[..] == Zeroes(64) && done == old(done) + old(m[..]) && h == Fold(IV, done)
    {
      hide Fold, BlockWords, Rounds, AddRegs;
      ghost var b := m[..];
      FoldBlock(IV, done, b);
      var w := LoadWords();
      h := CircularRounds(h, w);
      done := done + b;
      forall k | 0 <= k < 64 {
        m[k] := 0;
      }
    }

    /** COUNT %= 64, and sha1_step when it reaches 0; in m the bytes up to filled are the pending ones. */
    method Advance(filled: nat)
      requires Tracks() && count <= filled <= 64
      modifies this`h, this`done, this`count, m
      ensures Tracks() && Fed() == old(done + m[..filled]) && count == filled % 64
    {
      hide Fold;
      count := filled % 64;
      if count == 0 && filled == 64 {
        assert m[..64] == m[..];
        Step();
        assert done + m[..0] == done;
      }
    }

    /** PUTPAD */
    method PutPad(x: byte)
      requires Tracks()
      modifies this`h, this`done, this`count, m
      ensures Tracks() && Fed() == old(Fed()) + [x]
      ensures count == (old(count) + 1) % 64
    {
      hide Fold;
      m[count] := x;
      assert done + m[..count + 1] == old(done + m[..count]) + [x];
      Advance(count + 1);
    }

    /** bzero(&m.b8[count], n) followed by COUNT += n */
    method PadZero(n: nat)
      requires Tracks() && count + n <= 64
      modifies this`h, this`done, this`count, m
      ensures Tracks() && Fed() == old(Fed()) + Zeroes(n)
      ensures count == (old(count) + n) % 64
    {
      hide Fold;
      forall k | count <= k < count + n {
        m[k] := 0;
      }
      assert done + m[..count + n] == old(done + m[..count]) + Zeroes(n);
      Advance(count + n);
    }

    /** sha1_loop */
    method Loop(input: seq<byte>)
      requires Valid()
      modifies this, m
      ensures Valid() && Fed() == old(Fed()) + input
    {
      hide Fold;
      var off := 0;
      ghost var before := Fed();
      assert before + input[..0] == before;
      while off < |input|
        invariant off <= |input| && Valid() && Fed() == before + input[..off]
      {
        var gap := 64 - count;
        var copy := if gap < |input| - off then gap else |input| - off;
        LoopStep(input[off..off + copy]);
        assert before + input[..off] + input[off..off + copy] == before + input[..off + copy];
        off := off + copy;
      }
      assert input[..off] == input;
    }

    /** The memcpy of sha1_loop and its bookkeeping. */
    method LoopStep(piece: seq<byte>)
      requires Valid() && count + |piece| <= 64
      modifies this, m
      ensures Valid() && Fed() == old(Fed()) + piece
    {
      hide Fold;
      forall k | 0 <= k < |piece| {
        m[count + k] := piece[k];
      }
      assert done + m[..count + |piece|] == old(done + m[..count]) + piece;
      Advance(count + |piece|);
      CountAdds(|old(Fed())|, |piece|);
      c := (c + |piece| * 8) % TWO64;
    }

    lemma FedLength()
      requires Tracks()
      ensures count < 64 && count <= |Fed()| && (|Fed()| - count) % 64 == 0
      ensures count == 0 ==> Fed() == done
    {
      assert done + m[..0] == done;
    }

    /** The 0x80 byte and the zeroes of sha1_pad. */
    method PadGap()
      requires Tracks()
      modifies this`h, this`done, this`count, m
      ensures Tracks() && count == 56
      ensures Fed() == old(Fed()) + [0x80] + Zeroes(PadZeroes(|old(Fed())|))
    {
      hide Tracks, Fed, Zeroes, PadZeroes;
      FedLength();
      ghost var before, k := Fed(), count;
      PadCount(|before|, k);
      PutPad(0x80);
      FedLength();
      var padlen := 64 - count;
      if padlen < 8 {
        PadZero(padlen);
        ZeroesAdd(63 - k, 56);
        assert before + [0x80] + Zeroes(63 - k) + Zeroes(56) == before + [0x80] + (Zeroes(63 - k) + Zeroes(56));
        PadZero(56);
      } else {
        PadZero(padlen - 8);
      }
    }

    method PutFour(x0: byte, x1: byte, x2: byte, x3: byte)
      requires Tracks() && count % 4 == 0
      modifies this`h, this`done, this`count, m
      ensures Tracks() && count == (old(count) + 4) % 64 && Fed() == old(Fed()) + [x0, x1, x2, x3]
    {
      hide Tracks, Fed;
      FedLength();
      PutPad(x0);
      PutPad(x1);
      PutPad(x2);
      PutPad(x3);
    }

    /** The eight PUTPADs of the bit count, most significant byte first. */
    method PadLength()
      requires Tracks() && count == 56
      modifies this`h, this`done, this`count, m
      ensures Tracks() && count == 0 && Fed() == old(Fed()) + LengthBytes(c)
    {
      hide Tracks, Fed, Octet;
      ghost var before := Fed();
      PutFour(Octet(c, 7), Octet(c, 6), Octet(c, 5), Octet(c, 4));
      PutFour(Octet(c, 3), Octet(c, 2), Octet(c, 1), Octet(c, 0));
      assert LengthBytes(c) == [Octet(c, 7), Octet(c, 6), Octet(c, 5), Octet(c, 4)]
        + [Octet(c, 3), Octet(c, 2), Octet(c, 1), Octet(c, 0)];
    }

    /** sha1_pad */
    method Pad()
      requires Valid()
      modifies this`h, this`done, this`count, m
      ensures Tracks() && count == 0 && done == Padded(old(Fed()))
    {
      hide Tracks, Fed, Zeroes, PadZeroes, LengthBytes;
      LengthWraps(8 * |Fed()|);
      PadGap();
      PadLength();
      FedLength();
    }

    /** sha1_result */
    method Result() returns (digest: seq<byte>)
      requires Valid()
      modifies this`h, this`done, this`count, m
      ensures digest == DigestBytes(Hash(old(Fed())))
    {
      hide Fold, Padded;
      Pad();
      digest := DigestBytes(h);
    }
  }

  lemma CountAdds(n: nat, k: nat)
    ensures (8 * n % TWO64 + k * 8) % TWO64 == 8 * (n + k) % TWO64
  {}

  /** libwebsockets_SHA1 */
  method SHA1(d: seq<byte>) returns (md: seq<byte>)
    ensures md == DigestBytes(Hash(d))
  {
    hide Hash, DigestBytes;
    var ctx := new Sha1Ctxt();
    assert [] + d == d;
    ctx.Loop(d);
    md := ctx.Result();
  }
}
