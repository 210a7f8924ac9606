/** The table of parsers.c recognises exactly the header names. */
module ShippedTable {
  import opened Words
  import opened Options
  import opened SevenBit
  import opened Lextable
  import opened Headers
  import opened HeaderLines
  import opened HeaderRequest
  import opened HeaderSet
  import opened ShippedBytes

  // ----- walks

  /** The walk from a place it has just come to. */
  function Reach(t: seq<byte>, p: nat, s: seq<byte>): Option<nat>
    requires Closed(t) && Place(t, p)
  {
    if t[p + 1] == 0 then Some(Index(Low7(t[p]))) else Run(t, p, s)
  }

  /** States with one option each, which spell w. */
  predicate Spells(t: seq<byte>, p: nat, w: seq<byte>) {
    && p % 2 == 0 && p + 2 * |w| + 2 <= |t|
    && forall k | 0 <= k < |w| :: t[p + 2 * k] == WithTop(w[k]) && Seven(w[k]) && t[p + 2 * k + 1] == 1
  }

  /** What one option does. */
  lemma Fork(t: seq<byte>, p: nat, jump: nat, s: seq<byte>)
    requires Closed(t) && Place(t, p) && t[p + 1] != 0 && Index(t[p + 1]) == jump
    requires !TopBit(t[p]) ==> Place(t, p + 2) && t[p + 3] != 0
    ensures Place(t, p + 2 * jump)
    ensures Reach(t, p, s) ==
      if s == [] then None
      else if s[0] == Low7(t[p]) then Reach(t, p + 2 * jump, s[1..])
      else if TopBit(t[p]) then None
      else Reach(t, p + 2, s)
  {
    hide Index, Low7, TopBit, Closed;
    JumpLands(t, p);
  }

  lemma {:induction false} Along(t: seq<byte>, p: nat, w: seq<byte>, s: seq<byte>)
    requires Closed(t) && Spells(t, p, w)
    ensures Reach(t, p, s) == if w <= s then Reach(t, p + 2 * |w|, s[|w|..]) else None
    decreases |w|
  {
    hide Index, Low7, TopBit, Seven, WithTop, Closed, Run;
    if w == [] {
      assert s[0..] == s;
    } else {
      assert t[p + 2 * 0] == WithTop(w[0]) && t[p + 2 * 0 + 1] == 1;
      TopLaws(w[0]);
      One();
      Fork(t, p, 1, s);
      SpellsOn(t, p, w);
      if s != [] && s[0] == w[0] {
        Along(t, p + 2, w[1..], s[1..]);
        assert w <= s <==> w[1..] <= s[1..] by {
          assert w == [w[0]] + w[1..] && s == [s[0]] + s[1..];
        }
        if w <= s {
          assert s[1..][|w| - 1..] == s[|w|..];
        }
      }
    }
  }

  lemma One()
    ensures Index(1) == 1
  {}

  lemma SpellsOn(t: seq<byte>, p: nat, w: seq<byte>)
    requires Spells(t, p, w) && w != []
    ensures Spells(t, p + 2, w[1..])
  {
    hide WithTop, Seven;
    var v := w[1..];
    forall k | 0 <= k < |v|
      ensures t[p + 2 + 2 * k] == WithTop(v[k]) && Seven(v[k]) && t[p + 2 + 2 * k + 1] == 1
    {
      assert t[p + 2 * (k + 1)] == WithTop(w[k + 1]) && t[p + 2 * (k + 1) + 1] == 1;
    }
  }

  lemma Leaf(t: seq<byte>, p: nat, w: seq<byte>, n: nat, s: seq<byte>)
    requires Closed(t) && Spells(t, p, w) && t[p + 2 * |w| + 1] == 0 && Index(Low7(t[p + 2 * |w|])) == n
    ensures Reach(t, p, s) == if w <= s then Some(n) else None
  {
    hide Index, Low7, Closed, Run, Spells;
    Along(t, p, w, s);
  }

  lemma Prefixed(n: seq<byte>, a: seq<byte>, b: seq<byte>, s: seq<byte>)
    requires n == a + b
    ensures n <= s <==> a <= s && b <= s[|a|..]
  {
    if n <= s {
      assert s[..|n|] == n && s[..|a|] == a && s[|a|..][..|b|] == b;
    }
    if a <= s && b <= s[|a|..] {
      assert s[..|n|] == s[..|a|] + s[|a|..][..|b|];
    }
  }

  lemma Starts(n: seq<byte>, c: byte, b: seq<byte>, s: seq<byte>)
    requires n == [c] + b
    ensures n <= s <==> s != [] && s[0] == c && b <= s[1..]
  {
    Prefixed(n, [c], b, s);
  }

  lemma Letters()
    ensures WithTop(0x0a) == 0x8a && WithTop(0x0d) == 0x8d && WithTop(0x20) == 0xa0 && WithTop(0x2d) == 0xad
    ensures WithTop(0x2e) == 0xae && WithTop(0x2f) == 0xaf && WithTop(0x31) == 0xb1 && WithTop(0x32) == 0xb2
    ensures WithTop(0x3a) == 0xba && WithTop(0x41) == 0xc1 && WithTop(0x43) == 0xc3 && WithTop(0x44) == 0xc4
    ensures WithTop(0x45) == 0xc5 && WithTop(0x47) == 0xc7 && WithTop(0x48) == 0xc8 && WithTop(0x4b) == 0xcb
    ensures WithTop(0x4e) == 0xce && WithTop(0x4f) == 0xcf && WithTop(0x50) == 0xd0 && WithTop(0x53) == 0xd3
    ensures WithTop(0x54) == 0xd4 && WithTop(0x55) == 0xd5 && WithTop(0x56) == 0xd6 && WithTop(0x57) == 0xd7
    ensures WithTop(0x61) == 0xe1 && WithTop(0x62) == 0xe2 && WithTop(0x63) == 0xe3 && WithTop(0x64) == 0xe4
    ensures WithTop(0x65) == 0xe5 && WithTop(0x66) == 0xe6 && WithTop(0x67) == 0xe7 && WithTop(0x69) == 0xe9
    ensures WithTop(0x6b) == 0xeb && WithTop(0x6c) == 0xec && WithTop(0x6e) == 0xee && WithTop(0x6f) == 0xef
    ensures WithTop(0x70) == 0xf0 && WithTop(0x72) == 0xf2 && WithTop(0x73) == 0xf3 && WithTop(0x74) == 0xf4
    ensures WithTop(0x78) == 0xf8 && WithTop(0x79) == 0xf9
    ensures Seven(0x0a) && Seven(0x0d) && Seven(0x20) && Seven(0x2d) && Seven(0x2e) && Seven(0x2f)
    ensures Seven(0x31) && Seven(0x32) && Seven(0x3a) && Seven(0x41) && Seven(0x43) && Seven(0x44)
    ensures Seven(0x45) && Seven(0x47) && Seven(0x48) && Seven(0x4b) && Seven(0x4e) && Seven(0x4f)
    ensures Seven(0x50) && Seven(0x53) && Seven(0x54) && Seven(0x55) && Seven(0x56) && Seven(0x57)
    ensures Seven(0x61) && Seven(0x62) && Seven(0x63) && Seven(0x64) && Seven(0x65) && Seven(0x66)
    ensures Seven(0x67) && Seven(0x69) && Seven(0x6b) && Seven(0x6c) && Seven(0x6e) && Seven(0x6f)
    ensures Seven(0x70) && Seven(0x72) && Seven(0x73) && Seven(0x74) && Seven(0x78) && Seven(0x79)
  {}

  lemma Markers()
    ensures Index(Low7(0x80)) == 0 && Index(Low7(0x81)) == 1 && Index(Low7(0x82)) == 2
    ensures Index(Low7(0x83)) == 3 && Index(Low7(0x84)) == 4 && Index(Low7(0x85)) == 5
    ensures Index(Low7(0x86)) == 6 && Index(Low7(0x87)) == 7 && Index(Low7(0x88)) == 8
    ensures Index(Low7(0x89)) == 9 && Index(Low7(0x8a)) == 10 && Index(Low7(0x8b)) == 11
    ensures Index(Low7(0x8c)) == 12 && Index(Low7(0x8d)) == 13 && Index(Low7(0x8e)) == 14
    ensures Index(Low7(0x8f)) == 15 && Index(Low7(0x90)) == 16
  {}

  lemma From14(t: seq<byte>, s: seq<byte>)
    requires t == TABLE && Closed(t)
    ensures Place(t, 14) && Reach(t, 14, s) == if [0x45, 0x54, 0x20] <= s then Some(0) else None
  {
    hide TABLE, Closed, WithTop, Seven, Index, Low7, Run;
    Bytes0(t); Bytes1(t);
    Letters();
    Markers();
    Leaf(t, 14, [0x45, 0x54, 0x20], 0, s);
  }

  lemma From26(t: seq<byte>, s: seq<byte>)
    requires t == TABLE && Closed(t)
    ensures Place(t, 26) && Reach(t, 26, s) == if [0x73, 0x74, 0x3a] <= s then Some(1) else None
  {
    hide TABLE, Closed, WithTop, Seven, Index, Low7, Run;
    Bytes1(t); Bytes2(t);
    Letters();
    Markers();
    Leaf(t, 26, [0x73, 0x74, 0x3a], 1, s);
  }

  lemma From34(t: seq<byte>, s: seq<byte>)
    requires t == TABLE && Closed(t)
    ensures Place(t, 34)
    ensures Reach(t, 34, s)
         == if [0x6f, 0x6e, 0x6e, 0x65, 0x63, 0x74, 0x69, 0x6f, 0x6e, 0x3a] <= s then Some(2) else None
  {
    hide TABLE, Closed, WithTop, Seven, Index, Low7, Run;
    Bytes2(t); Bytes3(t);
    Letters();
    Markers();
    Leaf(t, 34, [0x6f, 0x6e, 0x6e, 0x65, 0x63, 0x74, 0x69, 0x6f, 0x6e, 0x3a], 2, s);
  }

  lemma From108(t: seq<byte>, s: seq<byte>)
    requires t == TABLE && Closed(t)
    ensures Place(t, 108) && Reach(t, 108, s) == if [0x3a] <= s then Some(3) else None
  {
    hide TABLE, Closed, WithTop, Seven, Index, Low7, Run;
    Bytes6(t);
    Letters();
    Markers();
    Leaf(t, 108, [0x3a], 3, s);
  }

  lemma From112(t: seq<byte>, s: seq<byte>)
    requires t == TABLE && Closed(t)
    ensures Place(t, 112) && Reach(t, 112, s) == if [0x3a] <= s then Some(4) else None
  {
    hide TABLE, Closed, WithTop, Seven, Index, Low7, Run;
    Bytes7(t);
    Letters();
    Markers();
    Leaf(t, 112, [0x3a], 4, s);
  }

  lemma From116(t: seq<byte>, s: seq<byte>)
    requires t == TABLE && Closed(t)
    ensures Place(t, 116)
    ensures Reach(t, 116, s)
         == if [0x72, 0x6f, 0x74, 0x6f, 0x63, 0x6f, 0x6c, 0x3a] <= s then Some(5) else None
  {
    hide TABLE, Closed, WithTop, Seven, Index, Low7, Run;
    Bytes7(t); Bytes8(t);
    Letters();
    Markers();
    Leaf(t, 116, [0x72, 0x6f, 0x74, 0x6f, 0x63, 0x6f, 0x6c, 0x3a], 5, s);
  }

  lemma From134(t: seq<byte>, s: seq<byte>)
    requires t == TABLE && Closed(t)
    ensures Place(t, 134)
    ensures Reach(t, 134, s)
         == if [0x70, 0x67, 0x72, 0x61, 0x64, 0x65, 0x3a] <= s then Some(6) else None
  {
    hide TABLE, Closed, WithTop, Seven, Index, Low7, Run;
    Bytes8(t); Bytes9(t);
    Letters();
    Markers();
    Leaf(t, 134, [0x70, 0x67, 0x72, 0x61, 0x64, 0x65, 0x3a], 6, s);
  }

  lemma From150(t: seq<byte>, s: seq<byte>)
    requires t == TABLE && Closed(t)
    ensures Place(t, 150) && Reach(t, 150, s) == if [0x72, 0x69, 0x67, 0x69, 0x6e, 0x3a] <= s then Some(7) else None
  {
    hide TABLE, Closed, WithTop, Seven, Index, Low7, Run;
    Bytes9(t); Bytes10(t);
    Letters();
    Markers();
    Leaf(t, 150, [0x72, 0x69, 0x67, 0x69, 0x6e, 0x3a], 7, s);
  }

  lemma From164(t: seq<byte>, s: seq<byte>)
    requires t == TABLE && Closed(t)
    ensures Place(t, 164) && Reach(t, 164, s) == if [0x72, 0x61, 0x66, 0x74, 0x3a] <= s then Some(8) else None
  {
    hide TABLE, Closed, WithTop, Seven, Index, Low7, Run;
    Bytes10(t);
    Letters();
    Markers();
    Leaf(t, 164, [0x72, 0x61, 0x66, 0x74, 0x3a], 8, s);
  }

  lemma From178(t: seq<byte>, s: seq<byte>)
    requires t == TABLE && Closed(t)
    ensures Place(t, 178) && Reach(t, 178, s) == if [] <= s then Some(9) else None
  {
    hide TABLE, Closed, WithTop, Seven, Index, Low7, Run;
    Bytes11(t);
    Letters();
    Markers();
    Leaf(t, 178, [], 9, s);
  }

  lemma From180(t: seq<byte>, s: seq<byte>)
    requires t == TABLE && Closed(t)
    ensures Place(t, 180) && Reach(t, 180, s) == if [] <= s then Some(10) else None
  {
    hide TABLE, Closed, WithTop, Seven, Index, Low7, Run;
    Bytes11(t);
    Letters();
    Markers();
    Leaf(t, 180, [], 10, s);
  }

  lemma From182(t: seq<byte>, s: seq<byte>)
    requires t == TABLE && Closed(t)
    ensures Place(t, 182)
    ensures Reach(t, 182, s)
         == if [0x65, 0x72, 0x73, 0x69, 0x6f, 0x6e, 0x3a] <= s then Some(11) else None
  {
    hide TABLE, Closed, WithTop, Seven, Index, Low7, Run;
    Bytes11(t); Bytes12(t);
    Letters();
    Markers();
    Leaf(t, 182, [0x65, 0x72, 0x73, 0x69, 0x6f, 0x6e, 0x3a], 11, s);
  }

  lemma From198(t: seq<byte>, s: seq<byte>)
    requires t == TABLE && Closed(t)
    ensures Place(t, 198) && Reach(t, 198, s) == if [0x72, 0x69, 0x67, 0x69, 0x6e, 0x3a] <= s then Some(12) else None
  {
    hide TABLE, Closed, WithTop, Seven, Index, Low7, Run;
    Bytes12(t); Bytes13(t);
    Letters();
    Markers();
    Leaf(t, 198, [0x72, 0x69, 0x67, 0x69, 0x6e, 0x3a], 12, s);
  }

  lemma From212(t: seq<byte>, s: seq<byte>)
    requires t == TABLE && Closed(t)
    ensures Place(t, 212)
    ensures Reach(t, 212, s)
         == if [0x78, 0x74, 0x65, 0x6e, 0x73, 0x69, 0x6f, 0x6e, 0x73, 0x3a] <= s then Some(13) else None
  {
    hide TABLE, Closed, WithTop, Seven, Index, Low7, Run;
    Bytes13(t); Bytes14(t);
    Letters();
    Markers();
    Leaf(t, 212, [0x78, 0x74, 0x65, 0x6e, 0x73, 0x69, 0x6f, 0x6e, 0x73, 0x3a], 13, s);
  }

  lemma From234(t: seq<byte>, s: seq<byte>)
    requires t == TABLE && Closed(t)
    ensures Place(t, 234) && Reach(t, 234, s) == if [0x63, 0x63, 0x65, 0x70, 0x74, 0x3a] <= s then Some(14) else None
  {
    hide TABLE, Closed, WithTop, Seven, Index, Low7, Run;
    Bytes14(t); Bytes15(t);
    Letters();
    Markers();
    Leaf(t, 234, [0x63, 0x63, 0x65, 0x70, 0x74, 0x3a], 14, s);
  }

  lemma From248(t: seq<byte>, s: seq<byte>)
    requires t == TABLE && Closed(t)
    ensures Place(t, 248) && Reach(t, 248, s) == if [0x6f, 0x6e, 0x63, 0x65, 0x3a] <= s then Some(15) else None
  {
    hide TABLE, Closed, WithTop, Seven, Index, Low7, Run;
    Bytes15(t); Bytes16(t);
    Letters();
    Markers();
    Leaf(t, 248, [0x6f, 0x6e, 0x63, 0x65, 0x3a], 15, s);
  }

  lemma From260(t: seq<byte>, s: seq<byte>)
    requires t == TABLE && Closed(t)
    ensures Place(t, 260)
    ensures Reach(t, 260, s)
         == if [0x54, 0x50, 0x2f, 0x31, 0x2e, 0x31, 0x20] <= s then Some(16) else None
  {
    hide TABLE, Closed, WithTop, Seven, Index, Low7, Run;
    Bytes16(t); Bytes17(t);
    Letters();
    Markers();
    Leaf(t, 260, [0x54, 0x50, 0x2f, 0x31, 0x2e, 0x31, 0x20], 16, s);
  }

  lemma Options22()
    ensures Low7(0x6f) == 0x6f && Index(0x02) == 2 && Low7(0xd4) == 0x54 && Index(0x76) == 118
    ensures !TopBit(0x6f) && TopBit(0xd4)
  {}

  lemma From22(t: seq<byte>, s: seq<byte>)
    requires t == TABLE && Closed(t)
    ensures Place(t, 22) && Reach(t, 22, s) ==
      if [0x6f, 0x73, 0x74, 0x3a] <= s then Some(1)
      else if [0x54, 0x54, 0x50, 0x2f, 0x31, 0x2e, 0x31, 0x20] <= s then Some(16)
      else None
  {
    hide TABLE, Closed, Index, Low7, TopBit, Run, Reach;
    Bytes1(t);
    Options22();
    Fork(t, 22, 2, s);
    Fork(t, 24, 118, s);
    if s != [] {
      From26(t, s[1..]);
      From260(t, s[1..]);
    }
    Starts([0x6f, 0x73, 0x74, 0x3a], 0x6f, [0x73, 0x74, 0x3a], s);
    Starts([0x54, 0x54, 0x50, 0x2f, 0x31, 0x2e, 0x31, 0x20], 0x54, [0x54, 0x50, 0x2f, 0x31, 0x2e, 0x31, 0x20], s);
  }

  lemma Options102()
    ensures Low7(0x31) == 0x31 && Index(0x03) == 3 && Low7(0x32) == 0x32 && Index(0x04) == 4
    ensures Low7(0xba) == 0x3a && Index(0x25) == 37
    ensures !TopBit(0x31) && !TopBit(0x32) && TopBit(0xba)
  {}

  lemma From102(t: seq<byte>, s: seq<byte>)
    requires t == TABLE && Closed(t)
    ensures Place(t, 102) && Reach(t, 102, s) ==
      if [0x31, 0x3a] <= s then Some(3)
      else if [0x32, 0x3a] <= s then Some(4)
      else if [0x3a] <= s then Some(10)
      else None
  {
    hide TABLE, Closed, Index, Low7, TopBit, Run, Reach;
    Bytes6(t);
    Options102();
    Fork(t, 102, 3, s);
    Fork(t, 104, 4, s);
    Fork(t, 106, 37, s);
    if s != [] {
      From108(t, s[1..]);
      From112(t, s[1..]);
      From180(t, s[1..]);
    }
    Starts([0x31, 0x3a], 0x31, [0x3a], s);
    Starts([0x32, 0x3a], 0x32, [0x3a], s);
    Starts([0x3a], 0x3a, [], s);
  }

  lemma From98(t: seq<byte>, s: seq<byte>)
    requires t == TABLE && Closed(t)
    ensures Place(t, 98) && Reach(t, 98, s) ==
      if [0x65, 0x79, 0x31, 0x3a] <= s then Some(3)
      else if [0x65, 0x79, 0x32, 0x3a] <= s then Some(4)
      else if [0x65, 0x79, 0x3a] <= s then Some(10)
      else None
  {
    hide TABLE, Closed, WithTop, Seven, Run, Reach;
    Bytes6(t);
    Letters();
    Along(t, 98, [0x65, 0x79], s);
    if [0x65, 0x79] <= s {
      From102(t, s[2..]);
    }
    Prefixed([0x65, 0x79, 0x31, 0x3a], [0x65, 0x79], [0x31, 0x3a], s);
    Prefixed([0x65, 0x79, 0x32, 0x3a], [0x65, 0x79], [0x32, 0x3a], s);
    Prefixed([0x65, 0x79, 0x3a], [0x65, 0x79], [0x3a], s);
  }

  /** The index of the name whose part behind "Sec-WebSocket-" stands at the start of u. */
  function AfterSec(u: seq<byte>): Option<nat> {
    if [0x4b, 0x65, 0x79, 0x31, 0x3a] <= u then Some(3)
    else if [0x4b, 0x65, 0x79, 0x32, 0x3a] <= u then Some(4)
    else if [0x4b, 0x65, 0x79, 0x3a] <= u then Some(10)
    else if [0x50, 0x72, 0x6f, 0x74, 0x6f, 0x63, 0x6f, 0x6c, 0x3a] <= u then Some(5)
    else if [0x44, 0x72, 0x61, 0x66, 0x74, 0x3a] <= u then Some(8)
    else if [0x56, 0x65, 0x72, 0x73, 0x69, 0x6f, 0x6e, 0x3a] <= u then Some(11)
    else if [0x4f, 0x72, 0x69, 0x67, 0x69, 0x6e, 0x3a] <= u then Some(12)
    else if [0x45, 0x78, 0x74, 0x65, 0x6e, 0x73, 0x69, 0x6f, 0x6e, 0x73, 0x3a] <= u then Some(13)
    else if [0x41, 0x63, 0x63, 0x65, 0x70, 0x74, 0x3a] <= u then Some(14)
    else if [0x4e, 0x6f, 0x6e, 0x63, 0x65, 0x3a] <= u then Some(15)
    else None
  }

  lemma Starts82(s: seq<byte>)
    ensures [0x4b, 0x65, 0x79, 0x31, 0x3a] <= s <==>
      s != [] && s[0] == 0x4b && [0x65, 0x79, 0x31, 0x3a] <= s[1..]
    ensures [0x4b, 0x65, 0x79, 0x32, 0x3a] <= s <==>
      s != [] && s[0] == 0x4b && [0x65, 0x79, 0x32, 0x3a] <= s[1..]
    ensures [0x4b, 0x65, 0x79, 0x3a] <= s <==>
      s != [] && s[0] == 0x4b && [0x65, 0x79, 0x3a] <= s[1..]
    ensures [0x50, 0x72, 0x6f, 0x74, 0x6f, 0x63, 0x6f, 0x6c, 0x3a] <= s <==>
      s != [] && s[0] == 0x50 && [0x72, 0x6f, 0x74, 0x6f, 0x63, 0x6f, 0x6c, 0x3a] <= s[1..]
    ensures [0x44, 0x72, 0x61, 0x66, 0x74, 0x3a] <= s <==>
      s != [] && s[0] == 0x44 && [0x72, 0x61, 0x66, 0x74, 0x3a] <= s[1..]
    ensures [0x56, 0x65, 0x72, 0x73, 0x69, 0x6f, 0x6e, 0x3a] <= s <==>
      s != [] && s[0] == 0x56 && [0x65, 0x72, 0x73, 0x69, 0x6f, 0x6e, 0x3a] <= s[1..]
    ensures [0x4f, 0x72, 0x69, 0x67, 0x69, 0x6e, 0x3a] <= s <==>
      s != [] && s[0] == 0x4f && [0x72, 0x69, 0x67, 0x69, 0x6e, 0x3a] <= s[1..]
    ensures [0x45, 0x78, 0x74, 0x65, 0x6e, 0x73, 0x69, 0x6f, 0x6e, 0x73, 0x3a] <= s <==>
      s != [] && s[0] == 0x45 && [0x78, 0x74, 0x65, 0x6e, 0x73, 0x69, 0x6f, 0x6e, 0x73, 0x3a] <= s[1..]
    ensures [0x41, 0x63, 0x63, 0x65, 0x70, 0x74, 0x3a] <= s <==>
      s != [] && s[0] == 0x41 && [0x63, 0x63, 0x65, 0x70, 0x74, 0x3a] <= s[1..]
    ensures [0x4e, 0x6f, 0x6e, 0x63, 0x65, 0x3a] <= s <==>
      s != [] && s[0] == 0x4e && [0x6f, 0x6e, 0x63, 0x65, 0x3a] <= s[1..]
  {
    Starts([0x4b, 0x65, 0x79, 0x31, 0x3a], 0x4b, [0x65, 0x79, 0x31, 0x3a], s);
    Starts([0x4b, 0x65, 0x79, 0x32, 0x3a], 0x4b, [0x65, 0x79, 0x32, 0x3a], s);
    Starts([0x4b, 0x65, 0x79, 0x3a], 0x4b, [0x65, 0x79, 0x3a], s);
    Starts([0x50, 0x72, 0x6f, 0x74, 0x6f, 0x63, 0x6f, 0x6c, 0x3a], 0x50,
           [0x72, 0x6f, 0x74, 0x6f, 0x63, 0x6f, 0x6c, 0x3a], s);
    Starts([0x44, 0x72, 0x61, 0x66, 0x74, 0x3a], 0x44, [0x72, 0x61, 0x66, 0x74, 0x3a], s);
    Starts([0x56, 0x65, 0x72, 0x73, 0x69, 0x6f, 0x6e, 0x3a], 0x56, [0x65, 0x72, 0x73, 0x69, 0x6f, 0x6e, 0x3a], s);
    Starts([0x4f, 0x72, 0x69, 0x67, 0x69, 0x6e, 0x3a], 0x4f, [0x72, 0x69, 0x67, 0x69, 0x6e, 0x3a], s);
    Starts([0x45, 0x78, 0x74, 0x65, 0x6e, 0x73, 0x69, 0x6f, 0x6e, 0x73, 0x3a], 0x45,
           [0x78, 0x74, 0x65, 0x6e, 0x73, 0x69, 0x6f, 0x6e, 0x73, 0x3a], s);
    Starts([0x41, 0x63, 0x63, 0x65, 0x70, 0x74, 0x3a], 0x41, [0x63, 0x63, 0x65, 0x70, 0x74, 0x3a], s);
    Starts([0x4e, 0x6f, 0x6e, 0x63, 0x65, 0x3a], 0x4e, [0x6f, 0x6e, 0x63, 0x65, 0x3a], s);
  }

  lemma Options82()
    ensures Low7(0x4b) == 0x4b && Index(0x08) == 8 && Low7(0x50) == 0x50 && Index(0x10) == 16
    ensures Low7(0x44) == 0x44 && Index(0x27) == 39 && Low7(0x56) == 0x56 && Index(0x2f) == 47
    ensures Low7(0x4f) == 0x4f && Index(0x36) == 54 && Low7(0x45) == 0x45 && Index(0x3c) == 60
    ensures Low7(0x41) == 0x41 && Index(0x46) == 70 && Low7(0xce) == 0x4e && Index(0x4c) == 76
    ensures !TopBit(0x4b) && !TopBit(0x50) && !TopBit(0x44) && !TopBit(0x56) && !TopBit(0x4f) && !TopBit(0x45)
    ensures !TopBit(0x41) && TopBit(0xce)
  {}

  lemma From82(t: seq<byte>, s: seq<byte>)
    requires t == TABLE && Closed(t)
    ensures Place(t, 82) && Reach(t, 82, s) == AfterSec(s)
  {
    hide TABLE, Closed, Index, Low7, TopBit, Run, Reach;
    Bytes5(t); Bytes6(t);
    Options82();
    Fork(t, 82, 8, s);
    Fork(t, 84, 16, s);
    Fork(t, 86, 39, s);
    Fork(t, 88, 47, s);
    Fork(t, 90, 54, s);
    Fork(t, 92, 60, s);
    Fork(t, 94, 70, s);
    Fork(t, 96, 76, s);
    if s != [] {
      From98(t, s[1..]);
      From116(t, s[1..]);
      From164(t, s[1..]);
      From182(t, s[1..]);
      From198(t, s[1..]);
      From212(t, s[1..]);
      From234(t, s[1..]);
      From248(t, s[1..]);
    }
    Starts82(s);
  }

  lemma From56(t: seq<byte>, s: seq<byte>)
    requires t == TABLE && Closed(t)
    ensures Place(t, 56) && Reach(t, 56, s) == if SEC[1..] <= s then AfterSec(s[13..]) else None
  {
    hide TABLE, Closed, WithTop, Seven, Run, Reach, AfterSec;
    Bytes3(t); Bytes4(t); Bytes5(t);
    Letters();
    var w: seq<byte> := [0x65, 0x63, 0x2d, 0x57, 0x65, 0x62, 0x53, 0x6f, 0x63, 0x6b, 0x65, 0x74, 0x2d];
    assert w == SEC[1..];
    Along(t, 56, w, s);
    if w <= s {
      From82(t, s[13..]);
    }
  }

  /** The index of the name that stands at the start of s. */
  function Named(s: seq<byte>): Option<nat> {
    if GET <= s then Some(0)
    else if HOST <= s then Some(1)
    else if HTTP_NAME <= s then Some(16)
    else if CONNECTION <= s then Some(2)
    else if UPGRADE <= s then Some(6)
    else if ORIGIN_NAME <= s then Some(7)
    else if END <= s then Some(9)
    else if SEC <= s then AfterSec(s[14..])
    else None
  }

  lemma Starts0(s: seq<byte>)
    ensures GET <= s <==> s != [] && s[0] == 0x47 && [0x45, 0x54, 0x20] <= s[1..]
    ensures HOST <= s <==> s != [] && s[0] == 0x48 && [0x6f, 0x73, 0x74, 0x3a] <= s[1..]
    ensures HTTP_NAME <= s <==>
      s != [] && s[0] == 0x48 && [0x54, 0x54, 0x50, 0x2f, 0x31, 0x2e, 0x31, 0x20] <= s[1..]
    ensures CONNECTION <= s <==>
      s != [] && s[0] == 0x43 && [0x6f, 0x6e, 0x6e, 0x65, 0x63, 0x74, 0x69, 0x6f, 0x6e, 0x3a] <= s[1..]
    ensures UPGRADE <= s <==> s != [] && s[0] == 0x55 && [0x70, 0x67, 0x72, 0x61, 0x64, 0x65, 0x3a] <= s[1..]
    ensures ORIGIN_NAME <= s <==> s != [] && s[0] == 0x4f && [0x72, 0x69, 0x67, 0x69, 0x6e, 0x3a] <= s[1..]
    ensures END <= s <==> s != [] && s[0] == 0x0d && [0x0a] <= s[1..]
    ensures SEC <= s <==> s != [] && s[0] == 0x53 && SEC[1..] <= s[1..]
    ensures SEC <= s ==> |s| >= 14 && s[1..][13..] == s[14..]
  {
    Starts(GET, 0x47, [0x45, 0x54, 0x20], s);
    Starts(HOST, 0x48, [0x6f, 0x73, 0x74, 0x3a], s);
    Starts(HTTP_NAME, 0x48, [0x54, 0x54, 0x50, 0x2f, 0x31, 0x2e, 0x31, 0x20], s);
    Starts(CONNECTION, 0x43, [0x6f, 0x6e, 0x6e, 0x65, 0x63, 0x74, 0x69, 0x6f, 0x6e, 0x3a], s);
    Starts(UPGRADE, 0x55, [0x70, 0x67, 0x72, 0x61, 0x64, 0x65, 0x3a], s);
    Starts(ORIGIN_NAME, 0x4f, [0x72, 0x69, 0x67, 0x69, 0x6e, 0x3a], s);
    Starts(END, 0x0d, [0x0a], s);
    Starts(SEC, 0x53, SEC[1..], s);
  }

  lemma From176(t: seq<byte>, s: seq<byte>)
    requires t == TABLE && Closed(t)
    ensures Place(t, 176) && Reach(t, 176, s) == if [0x0a] <= s then Some(9) else None
  {
    hide TABLE, Closed, WithTop, Seven, Index, Low7, Run;
    Bytes11(t);
    Letters();
    Markers();
    Leaf(t, 176, [0x0a], 9, s);
  }

  lemma Options0()
    ensures Low7(0x47) == 0x47 && Index(0x07) == 7 && Low7(0x48) == 0x48 && Index(0x0a) == 10
    ensures Low7(0x43) == 0x43 && Index(0x0f) == 15 && Low7(0x53) == 0x53 && Index(0x19) == 25
    ensures Low7(0x55) == 0x55 && Index(0x3f) == 63 && Low7(0x4f) == 0x4f && Index(0x46) == 70
    ensures Low7(0x8d) == 0x0d && Index(0x52) == 82
    ensures !TopBit(0x47) && !TopBit(0x48) && !TopBit(0x43) && !TopBit(0x53) && !TopBit(0x55) && !TopBit(0x4f)
    ensures TopBit(0x8d)
  {}

  lemma From0(t: seq<byte>, s: seq<byte>)
    requires t == TABLE && Closed(t)
    ensures Place(t, 0) && Reach(t, 0, s) == Named(s)
  {
    hide TABLE, Closed, Index, Low7, TopBit, Run, Reach, AfterSec, GET, HOST, HTTP_NAME, CONNECTION,
         UPGRADE, ORIGIN_NAME, END, SEC;
    Bytes0(t);
    Options0();
    Fork(t, 0, 7, s);
    Fork(t, 2, 10, s);
    Fork(t, 4, 15, s);
    Fork(t, 6, 25, s);
    Fork(t, 8, 63, s);
    Fork(t, 10, 70, s);
    Fork(t, 12, 82, s);
    if s != [] {
      From14(t, s[1..]);
      From22(t, s[1..]);
      From34(t, s[1..]);
      From56(t, s[1..]);
      From134(t, s[1..]);
      From150(t, s[1..]);
      From176(t, s[1..]);
    }
    Starts0(s);
  }

  // ----- the names

  lemma SetIs()
    ensures |SET| == NAMES
    ensures SET[0] == GET && SET[1] == HOST && SET[2] == CONNECTION
    ensures SET[3] == KEY1 && SET[4] == KEY2 && SET[5] == PROTOCOL
    ensures SET[6] == UPGRADE && SET[7] == ORIGIN_NAME && SET[8] == DRAFT
    ensures SET[9] == END && SET[10] == KEY && SET[11] == VERSION
    ensures SET[12] == SWORIGIN_NAME && SET[13] == EXTENSIONS && SET[14] == ACCEPT
    ensures SET[15] == NONCE && SET[16] == HTTP_NAME
  {}

  predicate NoSecName(s: seq<byte>) {
    && !(KEY1 <= s) && !(KEY2 <= s) && !(KEY <= s) && !(PROTOCOL <= s) && !(DRAFT <= s)
    && !(VERSION <= s) && !(SWORIGIN_NAME <= s) && !(EXTENSIONS <= s) && !(ACCEPT <= s) && !(NONCE <= s)
  }

  lemma NoSec(s: seq<byte>)
    requires !(SEC <= s)
    ensures NoSecName(s)
  {
    SecFirst(KEY1, s); SecFirst(KEY2, s); SecFirst(KEY, s); SecFirst(PROTOCOL, s); SecFirst(DRAFT, s);
    SecFirst(VERSION, s); SecFirst(SWORIGIN_NAME, s); SecFirst(EXTENSIONS, s); SecFirst(ACCEPT, s); SecFirst(NONCE, s);
  }

  lemma AfterSecIs(s: seq<byte>)
    requires SEC <= s
    ensures match AfterSec(s[14..])
      case Some(i) => i < NAMES && SET[i] <= s
      case None => NoSecName(s)
  {
    hide SET;
    SetIs();
    Prefixed(KEY1, SEC, [0x4b, 0x65, 0x79, 0x31, 0x3a], s);
    Prefixed(KEY2, SEC, [0x4b, 0x65, 0x79, 0x32, 0x3a], s);
    Prefixed(KEY, SEC, [0x4b, 0x65, 0x79, 0x3a], s);
    Prefixed(PROTOCOL, SEC, [0x50, 0x72, 0x6f, 0x74, 0x6f, 0x63, 0x6f, 0x6c, 0x3a], s);
    Prefixed(DRAFT, SEC, [0x44, 0x72, 0x61, 0x66, 0x74, 0x3a], s);
    Prefixed(VERSION, SEC, [0x56, 0x65, 0x72, 0x73, 0x69, 0x6f, 0x6e, 0x3a], s);
    Prefixed(SWORIGIN_NAME, SEC, [0x4f, 0x72, 0x69, 0x67, 0x69, 0x6e, 0x3a], s);
    Prefixed(EXTENSIONS, SEC, [0x45, 0x78, 0x74, 0x65, 0x6e, 0x73, 0x69, 0x6f, 0x6e, 0x73, 0x3a], s);
    Prefixed(ACCEPT, SEC, [0x41, 0x63, 0x63, 0x65, 0x70, 0x74, 0x3a], s);
    Prefixed(NONCE, SEC, [0x4e, 0x6f, 0x6e, 0x63, 0x65, 0x3a], s);
  }

  lemma NamedSome(s: seq<byte>)
    requires Named(s).Some?
    ensures Named(s).value < NAMES && SET[Named(s).value] <= s
  {
    hide AfterSec, SET;
    SetIs();
    if SEC <= s {
      AfterSecIs(s);
    }
  }

  lemma NamedNone(s: seq<byte>, i: nat)
    requires Named(s).None? && i < NAMES
    ensures !(SET[i] <= s)
  {
    hide AfterSec, SET, SEC, GET, HOST, CONNECTION, KEY1, KEY2, PROTOCOL, UPGRADE, ORIGIN_NAME, DRAFT,
         END, KEY, VERSION, SWORIGIN_NAME, EXTENSIONS, ACCEPT, NONCE, HTTP_NAME;
    SetIs();
    if SEC <= s {
      AfterSecIs(s);
    } else {
      NoSec(s);
    }
    if i == 0 { assert SET[i] == GET; }
    else if i == 1 { assert SET[i] == HOST; }
    else if i == 2 { assert SET[i] == CONNECTION; }
    else if i == 3 { assert SET[i] == KEY1; }
    else if i == 4 { assert SET[i] == KEY2; }
    else if i == 5 { assert SET[i] == PROTOCOL; }
    else if i == 6 { assert SET[i] == UPGRADE; }
    else if i == 7 { assert SET[i] == ORIGIN_NAME; }
    else if i == 8 { assert SET[i] == DRAFT; }
    else if i == 9 { assert SET[i] == END; }
    else if i == 10 { assert SET[i] == KEY; }
    else if i == 11 { assert SET[i] == VERSION; }
    else if i == 12 { assert SET[i] == SWORIGIN_NAME; }
    else if i == 13 { assert SET[i] == EXTENSIONS; }
    else if i == 14 { assert SET[i] == ACCEPT; }
    else if i == 15 { assert SET[i] == NONCE; }
    else { assert SET[i] == HTTP_NAME; }
  }

  lemma SecFirst(n: seq<byte>, s: seq<byte>)
    requires SEC <= n
    ensures n <= s ==> SEC <= s
  {}

  lemma RunNothing(t: seq<byte>, s: seq<byte>)
    requires Closed(t) && Place(t, 0) && s == []
    ensures Run(t, 0, s) == None
  {
    hide Closed;
  }

  /** Two names in front of the same text are one. */
  lemma OneName(s: seq<byte>, i: nat, j: nat)
    requires i < |SET| && j < |SET| && SET[i] <= s && SET[j] <= s
    ensures i == j
  {
    hide SET;
    SetPrefixFree();
    Comparable(SET[i], SET[j], s);
  }

  lemma Comparable(a: seq<byte>, b: seq<byte>, s: seq<byte>)
    requires a <= s && b <= s
    ensures a <= b || b <= a
  {
    assert a == s[..|a|] && b == s[..|b|];
  }

  /** The table that ships recognises the names, each with its own index, and nothing else. */
  lemma ShippedRecognises()
    ensures NameTable(TABLE, SET)
  {
    hide TABLE, SET, Closed, Run, Named, Index, Low7;
    var t := TABLE;
    SetIs();
    TableClosed(t);
    Bytes0(t);
    forall s, i: nat
      ensures Run(t, 0, s) == Some(i) <==> s != [] && i < |SET| && SET[i] <= s
    {
      From0(t, s);
      if Named(s).Some? {
        NamedSome(s);
      } else if i < NAMES {
        NamedNone(s, i);
      }
      if s == [] {
        RunNothing(t, s);
      }
      if i < |SET| && SET[i] <= s && Named(s).Some? {
        OneName(s, i, Named(s).value);
      }
    }
  }

  /** RequestValue with the table that ships, which is the one the library reads its headers with. */
  method ShippedValue(es: seq<Entry>, h: nat, dest: array<byte>) returns (ok: bool, ret: int)
    requires AllWellFormed(SET, es) && h < TOKENS
    modifies dest
    ensures ok <==> AllTaken(es)
    ensures ok ==> ValueRead(Merged(h, ValuesOf(KnownLines(es), h)), HasValue(es, h), old(dest[..]), dest[..], ret)
  {
    hide TABLE, SET, AllTaken, AllWellFormed, Merged, ValuesOf, KnownLines, NameTable, HeaderNames, ValueRead, HasValue;
    ShippedRecognises();
    RepositoryNames();
    ok, ret := ReadValue(TABLE, SET, es, h, dest);
  }
}
