/** The byte table that minilex emits and lextable_decode walks: two bytes per option.  The first byte is the
    character, with bit 7 set on the last option of a state; the second is half the forward jump in bytes,
    or 0 on a terminal, whose first byte then holds the index of the name. */
module Lextable {
  import opened Words
  import opened Options
  import opened SevenBit

  /** Option p of a table of total bytes neither runs nor jumps off the end. */
  predicate RowOk(c: byte, jump: byte, p: nat, total: nat) {
    && (jump == 0 || TopBit(c) || p + 4 <= total)
    && p + 2 * Index(jump) + 2 <= total
  }

  predicate Closed(t: seq<byte>) {
    |t| % 2 == 0 && forall p | 0 <= p && p + 1 < |t| && p % 2 == 0 :: RowOk(t[p], t[p + 1], p, |t|)
  }

  predicate Place(t: seq<byte>, pos: nat) {
    pos % 2 == 0 && pos + 2 <= |t|
  }

  /** A jump lands on a later place. */
  lemma JumpLands(t: seq<byte>, pos: nat)
    requires Closed(t) && Place(t, pos) && t[pos + 1] != 0
    ensures Place(t, pos + 2 * Index(t[pos + 1])) && Index(t[pos + 1]) > 0
  {
    hide Index;
    RowInside(t, pos);
    Jumps(t[pos + 1]);
  }

  lemma NextPlace(t: seq<byte>, pos: nat)
    requires Closed(t) && Place(t, pos) && t[pos + 1] != 0 && !TopBit(t[pos])
    ensures Place(t, pos + 2)
  {
    hide Index, TopBit;
    RowInside(t, pos);
  }

  lemma RowInside(t: seq<byte>, pos: nat)
    requires Closed(t) && Place(t, pos)
    ensures RowOk(t[pos], t[pos + 1], pos, |t|)
  {}

  /** What lextable_decode returns from place pos for character c: a new place, or None for its -1. */
  function Decode(t: seq<byte>, pos: nat, c: byte): (r: Option<nat>)
    requires Closed(t) && Place(t, pos)
    ensures r.Some? ==> Place(t, r.value) && (r.value > pos || t[pos + 1] == 0)
    decreases |t| - pos
  {
    hide Low7, TopBit, Index, Closed, Place;
    if t[pos + 1] == 0 then Some(pos)
    else if Low7(t[pos]) == c then
      JumpLands(t, pos); Some(pos + 2 * Index(t[pos + 1]))
    else if TopBit(t[pos]) then None
    else NextPlace(t, pos); Decode(t, pos + 2, c)
  }

  lemma Jumps(b: byte)
    requires b != 0
    ensures Index(b) > 0
  {
    ByteAtIndex(b);
    assert ByteAt(0) == 0;
  }

  method LextableDecode(t: seq<byte>, start: nat, c: byte) returns (r: Option<nat>)
    requires Closed(t) && Place(t, start)
    ensures r == Decode(t, start, c)
  {
    hide Low7, TopBit, Index;
    var pos := start;
    while true
      invariant Place(t, pos) && Decode(t, start, c) == Decode(t, pos, c)
      decreases |t| - pos
    {
      assert RowOk(t[pos], t[pos + 1], pos, |t|);
      if t[pos + 1] == 0 {
        return Some(pos);
      }
      if Low7(t[pos]) == c {
        return Some(pos + 2 * Index(t[pos + 1]));
      }
      if TopBit(t[pos]) {
        return None;
      }
      pos := pos + 2;
    }
  }

  /** Feeds s one character at a time from place pos until a terminal is reached: the index found there. */
  function Run(t: seq<byte>, pos: nat, s: seq<byte>): Option<nat>
    requires Closed(t) && Place(t, pos)
    decreases |s|
  {
    if s == [] then None
    else
      match Decode(t, pos, s[0])
      case None => None
      case Some(p) => if t[p + 1] == 0 then Some(Index(Low7(t[p]))) else Run(t, p, s[1..])
  }

  /** A walk never looks past the terminal it stops at. */
  lemma {:induction false} RunExtends(t: seq<byte>, pos: nat, s: seq<byte>, more: seq<byte>)
    requires Closed(t) && Place(t, pos) && Run(t, pos, s).Some?
    ensures Run(t, pos, s + more) == Run(t, pos, s)
    decreases |s|
  {
    hide Decode, Closed;
    var p := Decode(t, pos, s[0]).value;
    if t[p + 1] != 0 {
      RunExtends(t, p, s[1..], more);
      assert (s + more)[1..] == s[1..] + more;
    }
  }

  predicate PrefixFree(names: seq<seq<byte>>) {
    forall i, j | 0 <= i < |names| && 0 <= j < |names| && names[i] <= names[j] :: i == j
  }

  /** No table at all can send every name to its own index unless the names are prefix-free. */
  lemma OwnIndexNeedsPrefixFree(t: seq<byte>, names: seq<seq<byte>>)
    requires Closed(t) && Place(t, 0)
    requires forall i | 0 <= i < |names| :: Run(t, 0, names[i]) == Some(i)
    ensures PrefixFree(names)
  {
    hide Run, Closed;
    forall i, j | 0 <= i < |names| && 0 <= j < |names| && names[i] <= names[j]
      ensures i == j
    {
      assert names[j] == names[i] + names[j][|names[i]|..];
      RunExtends(t, 0, names[i], names[j][|names[i]|..]);
    }
  }
}
