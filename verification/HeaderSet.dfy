/** The header names of the repository, in token order, and that they meet what the compiler and the parser need. */
module HeaderSet {
  import opened Words
  import opened SevenBit
  import opened Lextable
  import opened Headers
  import opened Minilex
  import opened MinilexTool
  import opened HeaderRequest

  /** "Sec-WebSocket-" */
  const SEC: seq<byte> := [0x53, 0x65, 0x63, 0x2d, 0x57, 0x65, 0x62, 0x53, 0x6f, 0x63, 0x6b, 0x65, 0x74, 0x2d]
  /** "GET " */
  const GET: seq<byte> := [0x47, 0x45, 0x54, 0x20]
  /** "Host:" */
  const HOST: seq<byte> := [0x48, 0x6f, 0x73, 0x74, 0x3a]
  /** "Connection:" */
  const CONNECTION: seq<byte> := [0x43, 0x6f, 0x6e, 0x6e, 0x65, 0x63, 0x74, 0x69, 0x6f, 0x6e, 0x3a]
  /** "Sec-WebSocket-Key1:" */
  const KEY1: seq<byte> := SEC + [0x4b, 0x65, 0x79, 0x31, 0x3a]
  /** "Sec-WebSocket-Key2:" */
  const KEY2: seq<byte> := SEC + [0x4b, 0x65, 0x79, 0x32, 0x3a]
  /** "Sec-WebSocket-Protocol:" */
  const PROTOCOL: seq<byte> := SEC + [0x50, 0x72, 0x6f, 0x74, 0x6f, 0x63, 0x6f, 0x6c, 0x3a]
  /** "Upgrade:" */
  const UPGRADE: seq<byte> := [0x55, 0x70, 0x67, 0x72, 0x61, 0x64, 0x65, 0x3a]
  /** "Origin:" */
  const ORIGIN_NAME: seq<byte> := [0x4f, 0x72, 0x69, 0x67, 0x69, 0x6e, 0x3a]
  /** "Sec-WebSocket-Draft:" */
  const DRAFT: seq<byte> := SEC + [0x44, 0x72, 0x61, 0x66, 0x74, 0x3a]
  /** the empty line */
  const END: seq<byte> := [0x0d, 0x0a]
  /** "Sec-WebSocket-Key:" */
  const KEY: seq<byte> := SEC + [0x4b, 0x65, 0x79, 0x3a]
  /** "Sec-WebSocket-Version:" */
  const VERSION: seq<byte> := SEC + [0x56, 0x65, 0x72, 0x73, 0x69, 0x6f, 0x6e, 0x3a]
  /** "Sec-WebSocket-Origin:" */
  const SWORIGIN_NAME: seq<byte> := SEC + [0x4f, 0x72, 0x69, 0x67, 0x69, 0x6e, 0x3a]
  /** "Sec-WebSocket-Extensions:" */
  const EXTENSIONS: seq<byte> := SEC + [0x45, 0x78, 0x74, 0x65, 0x6e, 0x73, 0x69, 0x6f, 0x6e, 0x73, 0x3a]
  /** "Sec-WebSocket-Accept:" */
  const ACCEPT: seq<byte> := SEC + [0x41, 0x63, 0x63, 0x65, 0x70, 0x74, 0x3a]
  /** "Sec-WebSocket-Nonce:" */
  const NONCE: seq<byte> := SEC + [0x4e, 0x6f, 0x6e, 0x63, 0x65, 0x3a]
  /** "HTTP/1.1 " */
  const HTTP_NAME: seq<byte> := [0x48, 0x54, 0x54, 0x50, 0x2f, 0x31, 0x2e, 0x31, 0x20]

  const SET: seq<seq<byte>> := [
    GET, HOST, CONNECTION, KEY1, KEY2, PROTOCOL, UPGRADE, ORIGIN_NAME,
    DRAFT, END, KEY, VERSION, SWORIGIN_NAME, EXTENSIONS, ACCEPT, NONCE, HTTP_NAME]

  // ----- counting prefixes and continuations

  lemma CardMono<T>(a: set<T>, b: set<T>)
    requires a <= b
    ensures |a| <= |b|
  {
    assert a + (b - a) == b;
  }

  /** The prefixes of w longer than c. */
  function Beyond(w: seq<byte>, c: nat): set<seq<byte>>
    requires c <= |w|
  {
    set m | c < m <= |w| :: w[..m]
  }

  lemma {:induction false} BeyondCount(w: seq<byte>, c: nat)
    requires c <= |w|
    ensures |Beyond(w, c)| <= |w| - c
    decreases |w| - c
  {
    if c == |w| {
      assert Beyond(w, c) == {};
    } else {
      BeyondCount(w, c + 1);
      assert Beyond(w, c) == Beyond(w, c + 1) + {w[..c + 1]};
    }
  }

  /** A name adds as many prefixes as it has characters behind what it shares with an earlier name. */
  lemma PrefixStep(names: seq<seq<byte>>, w: seq<byte>, j: nat, c: nat)
    requires j < |names| && c <= |w| && c <= |names[j]| && w[..c] == names[j][..c]
    ensures |Prefixes(names + [w])| <= |Prefixes(names)| + |w| - c
  {
    BeyondCount(w, c);
    var all := names + [w];
    forall x | x in Prefixes(all)
      ensures x in Prefixes(names) + Beyond(w, c)
    {
      var i, m := PrefixOf(all, x);
      if i < |names| {
        IsPrefix(names, i, m);
      } else if m <= c {
        assert x == w[..c][..m] == names[j][..m];
        IsPrefix(names, j, m);
      }
    }
    CardMono(Prefixes(all), Prefixes(names) + Beyond(w, c));
  }

  lemma PrefixFirst(w: seq<byte>)
    ensures |Prefixes([w])| <= |w| + 1
  {
    BeyondCount(w, 0);
    forall x | x in Prefixes([w])
      ensures x in {[]} + Beyond(w, 0)
    {
      var i, m := PrefixOf([w], x);
      assert m == 0 ==> x == [];
    }
    CardMono(Prefixes([w]), {[]} + Beyond(w, 0));
  }

  /** A prefix is followed by at most one character in each name. */
  lemma {:induction false} NextsCount(names: seq<seq<byte>>, p: seq<byte>)
    ensures |Nexts(names, p)| <= |names|
    decreases |names|
  {
    if names == [] {
      assert Nexts(names, p) == {};
    } else {
      var before, w := names[..|names| - 1], names[|names| - 1];
      NextsCount(before, p);
      var last: set<byte> := if |p| < |w| then {w[|p|]} else {};
      forall x | x in Nexts(names, p)
        ensures x in Nexts(before, p) + last
      {
        var i, m :| 0 <= i < |names| && 0 <= m < |names[i]| && names[i][..m] == p && names[i][m] == x;
        if i < |before| {
          IsNext(before, i, m);
        }
      }
      CardMono(Nexts(names, p), Nexts(before, p) + last);
    }
  }

  // ----- the set itself

  /** The length of name i. */
  function Length(i: nat): nat {
    if i == 0 then 4 else if i == 1 then 5 else if i == 2 then 11 else if i in {3, 4} then 19 else
    if i == 5 then 23 else if i == 6 then 8 else if i == 7 then 7 else if i in {8, 15} then 20 else
    if i == 9 then 2 else if i == 10 then 18 else if i == 11 then 22 else if i == 13 then 25 else
    if i == 16 then 9 else 21
  }

  /** A place where name i differs from every other that reaches so far. */
  function Mark(i: nat): nat {
    if i in {0, 2, 6, 7, 9} then 0 else if i == 1 then 2 else if i in {3, 4, 10} then 17 else
    if i == 16 then 1 else 14
  }

  /** The character of name i at place 0, 0 behind its end. */
  function Column0(i: nat): byte {
    if i == 0 then 0x47 else if i in {1, 16} then 0x48 else if i == 2 then 0x43 else
    if i == 6 then 0x55 else if i == 7 then 0x4f else if i == 9 then 0x0d else 0x53
  }

  /** The character of name i at place 1, 0 behind its end. */
  function Column1(i: nat): byte {
    if i == 0 then 0x45 else if i in {1, 2} then 0x6f else if i == 6 then 0x70 else
    if i == 7 then 0x72 else if i == 9 then 0x0a else if i == 16 then 0x54 else 0x65
  }

  /** The character of name i at place 2, 0 behind its end. */
  function Column2(i: nat): byte {
    if i in {0, 16} then 0x54 else if i == 1 then 0x73 else if i == 2 then 0x6e else
    if i == 6 then 0x67 else if i == 7 then 0x69 else if i == 9 then 0 else 0x63
  }

  /** The character of name i at place 14, 0 behind its end. */
  function Column14(i: nat): byte {
    if i in {3, 4, 10} then 0x4b else if i == 5 then 0x50 else if i == 8 then 0x44 else
    if i == 11 then 0x56 else if i == 12 then 0x4f else if i == 13 then 0x45 else
    if i == 14 then 0x41 else if i == 15 then 0x4e else 0
  }

  /** The character of name i at place 17, 0 behind its end. */
  function Column17(i: nat): byte {
    if i == 3 then 0x31 else if i == 4 then 0x32 else if i == 5 then 0x74 else if i == 8 then 0x66 else
    if i == 10 then 0x3a else if i == 11 then 0x73 else if i == 12 then 0x67 else
    if i in {13, 14} then 0x65 else if i == 15 then 0x63 else 0
  }

  /** Name i has the length and, where it reaches, the five characters of the columns. */
  predicate Fits(w: seq<byte>, i: nat) {
    && |w| == Length(i)
    && (0 < |w| ==> w[0] == Column0(i))
    && (1 < |w| ==> w[1] == Column1(i))
    && (2 < |w| ==> w[2] == Column2(i))
    && (14 < |w| ==> w[14] == Column14(i))
    && (17 < |w| ==> w[17] == Column17(i))
  }

  lemma NameFits(i: nat)
    requires i < NAMES
    ensures Fits(SET[i], i)
  {
    if i == 0 {
      assert SET[i] == GET;
    } else if i == 1 {
      assert SET[i] == HOST;
    } else if i == 2 {
      assert SET[i] == CONNECTION;
    } else if i == 3 {
      assert SET[i] == KEY1;
    } else if i == 4 {
      assert SET[i] == KEY2;
    } else if i == 5 {
      assert SET[i] == PROTOCOL;
    } else if i == 6 {
      assert SET[i] == UPGRADE;
    } else if i == 7 {
      assert SET[i] == ORIGIN_NAME;
    } else if i == 8 {
      assert SET[i] == DRAFT;
    } else if i == 9 {
      assert SET[i] == END;
    } else if i == 10 {
      assert SET[i] == KEY;
    } else if i == 11 {
      assert SET[i] == VERSION;
    } else if i == 12 {
      assert SET[i] == SWORIGIN_NAME;
    } else if i == 13 {
      assert SET[i] == EXTENSIONS;
    } else if i == 14 {
      assert SET[i] == ACCEPT;
    } else if i == 15 {
      assert SET[i] == NONCE;
    } else if i == 16 {
      assert SET[i] == HTTP_NAME;
    }
  }

  lemma MarksDiffer(i: nat, j: nat)
    requires i < NAMES && j < NAMES && i != j
    ensures Mark(i) < Length(i)
    ensures Mark(i) == 0 ==> Column0(i) != Column0(j)
    ensures Mark(i) == 1 ==> Column1(i) != Column1(j)
    ensures Mark(i) == 2 ==> Column2(i) != Column2(j)
    ensures Mark(i) == 14 ==> Column14(i) != Column14(j)
    ensures Mark(i) == 17 ==> Column17(i) != Column17(j)
    ensures Mark(i) in {0, 1, 2, 14, 17}
  {}

  lemma SetPrefixFree()
    ensures PrefixFree(SET)
  {
    hide Column0, Column1, Column2, Column14, Column17, Mark, Length;
    forall i, j | 0 <= i < |SET| && 0 <= j < |SET| && SET[i] <= SET[j]
      ensures i == j
    {
      if i != j {
        MarksDiffer(i, j);
        NameFits(i);
        NameFits(j);
      }
    }
  }

  predicate Text(w: seq<byte>) {
    forall m | 0 <= m < |w| :: Seven(w[m]) && w[m] != 0
  }

  lemma TextAppend(a: seq<byte>, b: seq<byte>)
    requires Text(a) && Text(b)
    ensures Text(a + b)
  {}

  lemma PlainText(i: nat)
    requires i in {0, 1, 2, 6, 7, 9, 16}
    ensures Text(SET[i])
  {
    if i == 0 {
      assert Text(GET);
    } else if i == 1 {
      assert Text(HOST);
    } else if i == 2 {
      assert Text(CONNECTION);
    } else if i == 6 {
      assert Text(UPGRADE);
    } else if i == 7 {
      assert Text(ORIGIN_NAME);
    } else if i == 9 {
      assert Text(END);
    } else if i == 16 {
      assert Text(HTTP_NAME);
    }
  }

  lemma SecText(i: nat)
    requires i in {3, 4, 5, 8, 10, 11, 12, 13, 14, 15}
    ensures Text(SET[i])
  {
    assert Text(SEC);
    if i == 3 {
      TextAppend(SEC, [0x4b, 0x65, 0x79, 0x31, 0x3a]);
    } else if i == 4 {
      TextAppend(SEC, [0x4b, 0x65, 0x79, 0x32, 0x3a]);
    } else if i == 5 {
      TextAppend(SEC, [0x50, 0x72, 0x6f, 0x74, 0x6f, 0x63, 0x6f, 0x6c, 0x3a]);
    } else if i == 8 {
      TextAppend(SEC, [0x44, 0x72, 0x61, 0x66, 0x74, 0x3a]);
    } else if i == 10 {
      TextAppend(SEC, [0x4b, 0x65, 0x79, 0x3a]);
    } else if i == 11 {
      TextAppend(SEC, [0x56, 0x65, 0x72, 0x73, 0x69, 0x6f, 0x6e, 0x3a]);
    } else if i == 12 {
      TextAppend(SEC, [0x4f, 0x72, 0x69, 0x67, 0x69, 0x6e, 0x3a]);
    } else if i == 13 {
      TextAppend(SEC, [0x45, 0x78, 0x74, 0x65, 0x6e, 0x73, 0x69, 0x6f, 0x6e, 0x73, 0x3a]);
    } else if i == 14 {
      TextAppend(SEC, [0x41, 0x63, 0x63, 0x65, 0x70, 0x74, 0x3a]);
    } else if i == 15 {
      TextAppend(SEC, [0x4e, 0x6f, 0x6e, 0x63, 0x65, 0x3a]);
    }
  }

  lemma NameText(i: nat)
    requires i < NAMES
    ensures Text(SET[i])
  {
    hide Text;
    if i in {0, 1, 2, 6, 7, 9, 16} {
      PlainText(i);
    } else {
      SecText(i);
    }
  }

  lemma SetUsable()
    ensures Usable(SET)
  {
    hide PrefixFree, Text;
    SetPrefixFree();
    forall i, m | 0 <= i < |SET| && 0 <= m < |SET[i]|
      ensures Seven(SET[i][m]) && SET[i][m] != 0
    {
      NameText(i);
      TextAt(SET[i], m);
    }
  }

  lemma TextAt(w: seq<byte>, m: nat)
    requires Text(w) && m < |w|
    ensures Seven(w[m]) && w[m] != 0
  {}

  /** How many characters name i shares with name 3. */
  function Shared(i: nat): nat {
    if i in {4, 5, 8, 10, 11, 12, 13, 14, 15} then 14 else 0
  }

  lemma SharesSec(i: nat)
    requires i < NAMES
    ensures Shared(i) <= |SET[i]| && Shared(i) <= |SET[3]|
    ensures SET[i][..Shared(i)] == SET[3][..Shared(i)]
  {
    assert KEY1[..14] == SEC;
    if i == 4 {
      assert KEY2[..14] == SEC;
    } else if i == 5 {
      assert PROTOCOL[..14] == SEC;
    } else if i == 8 {
      assert DRAFT[..14] == SEC;
    } else if i == 10 {
      assert KEY[..14] == SEC;
    } else if i == 11 {
      assert VERSION[..14] == SEC;
    } else if i == 12 {
      assert SWORIGIN_NAME[..14] == SEC;
    } else if i == 13 {
      assert EXTENSIONS[..14] == SEC;
    } else if i == 14 {
      assert ACCEPT[..14] == SEC;
    } else if i == 15 {
      assert NONCE[..14] == SEC;
    }
  }

  /** The characters the first k names bring, and one for the empty prefix. */
  function Brought(k: nat): int {
    if k == 0 then 1 else Brought(k - 1) + Length(k - 1) - Shared(k - 1)
  }

  lemma PrefixStepAt(names: seq<seq<byte>>, k: nat, j: nat, c: nat)
    requires j < k < |names| && c <= |names[k]| && c <= |names[j]| && names[k][..c] == names[j][..c]
    ensures |Prefixes(names[..k + 1])| <= |Prefixes(names[..k])| + |names[k]| - c
  {
    assert names[..k + 1] == names[..k] + [names[k]];
    assert names[..k][j] == names[j];
    PrefixStep(names[..k], names[k], j, c);
  }

  lemma {:induction false} PrefixCount(k: nat)
    requires 1 <= k <= NAMES
    ensures |Prefixes(SET[..k])| <= Brought(k)
  {
    hide Fits, Length, Shared, Prefixes;
    NameFits(k - 1);
    NameLength(SET[k - 1], k - 1);
    if k == 1 {
      PrefixFirst(SET[0]);
      assert SET[..1] == [SET[0]];
      FirstBrought();
    } else {
      PrefixCount(k - 1);
      SharesSec(k - 1);
      if k > 4 {
        PrefixStepAt(SET, k - 1, 3, Shared(k - 1));
      } else {
        NothingShared(k - 1);
        PrefixStepAt(SET, k - 1, 0, 0);
      }
    }
  }

  lemma NameLength(w: seq<byte>, i: nat)
    requires Fits(w, i)
    ensures |w| == Length(i)
  {}

  lemma FirstBrought()
    ensures Brought(1) == 1 + Length(0)
  {}

  lemma NothingShared(i: nat)
    requires i <= 3
    ensures Shared(i) == 0
  {}

  /** The set the repository compiles meets the limits of the compiler and what the header parser needs of its table.
      The names it treats specially are "GET ", "Origin:", the empty line, "Sec-WebSocket-Origin:" and "HTTP/1.1 ". */
  lemma RepositoryNames()
    ensures HeaderNames(SET)
    ensures SET[GET_URI] == [0x47, 0x45, 0x54, 0x20]
    ensures SET[ORIGIN] == [0x4f, 0x72, 0x69, 0x67, 0x69, 0x6e, 0x3a]
    ensures SET[CHALLENGE] == [0x0d, 0x0a]
    ensures SET[SWORIGIN] == [0x53, 0x65, 0x63, 0x2d, 0x57, 0x65, 0x62, 0x53, 0x6f, 0x63, 0x6b, 0x65, 0x74, 0x2d,
                              0x4f, 0x72, 0x69, 0x67, 0x69, 0x6e, 0x3a]
    ensures SET[HTTP] == [0x48, 0x54, 0x54, 0x50, 0x2f, 0x31, 0x2e, 0x31, 0x20]
  {
    hide Usable, Prefixes, Nexts, Brought;
    SetUsable();
    PrefixCount(NAMES);
    assert SET[..NAMES] == SET;
    AllBrought();
    forall p | p in Prefixes(SET)
      ensures |Nexts(SET, p)| <= PARALLEL
    {
      NextsCount(SET, p);
    }
    forall i | 0 <= i < NAMES
      ensures SET[i] != []
    {
      NameFits(i);
    }
  }

  lemma AllBrought()
    ensures Brought(NAMES) == 129
  {
    assert Brought(4) == 40;
    assert Brought(8) == 69;
  }
}
