/** A whole request: from the names that minilex compiles to the value that lws_hdr_copy returns. */
module HeaderRequest {
  import opened Words
  import opened Lextable
  import opened Headers
  import opened HeaderLines
  import opened HeaderParser
  import Minilex
  import MinilexTool

  method ReadAll(p: Table, s: seq<byte>) returns (ok: bool)
    requires p.Valid()
    modifies p, p.frags, p.fragIndex, p.data
    ensures match Feed(p.table, old(p.View()), s)
      case None => !ok
      case Some(n) => ok && p.Valid() && p.View() == n
  {
    hide Step, Sound, Feed, Table.Valid;
    ghost var start := p.View();
    p.ValidSound();
    assert s[0..] == s;
    for i := 0 to |s|
      invariant p.Valid() && Place(p.table, 0) && Sound(p.table, start) && Sound(p.table, p.View())
      invariant Feed(p.table, start, s) == Feed(p.table, p.View(), s[i..])
    {
      FeedFirst(p.table, p.View(), s[i], s[i + 1..]);
      assert s[i..] == [s[i]] + s[i + 1..];
      var more := p.Parse(s[i]);
      if !more {
        return false;
      }
      p.ValidSound();
    }
    FeedNone(p.table, p.View());
    assert s[|s|..] == [];
    ok := true;
  }

  /** The header names in table order: non-empty 7-bit strings, none a prefix of another, the empty line in its
      place. */
  ghost predicate HeaderNames(names: seq<seq<byte>>) {
    && |names| == NAMES && Minilex.Usable(names) && MinilexTool.Small(names)
    && |MinilexTool.Prefixes(names)| + |names| <= 257 && names[CHALLENGE] == [CR, LF]
    && forall i | 0 <= i < NAMES :: names[i] != []
  }

  /** The texts of the fragments hold what was in the values, and spaces. */
  lemma {:induction false} RestNulFree(k: nat, isFirst: bool, empty: bool, v: seq<byte>)
    requires 0 !in v
    ensures 0 !in Rest(k, isFirst, empty, v)
    decreases |v|
  {
    if v != [] {
      RestNulFree(k, isFirst, empty, v[1..]);
      RestNulFree(k, isFirst, empty && !isFirst, v[1..]);
    }
  }

  lemma {:induction false} LinesNulFree(ls: seq<Line>)
    requires forall i | 0 <= i < |ls| :: 0 !in ls[i].value
    ensures NulFree(AddLines(ls))
    decreases |ls|
  {
    hide Rest, Has, FirstEmpty;
    if ls != [] {
      var frags, l := AddLines(ls[..|ls| - 1]), ls[|ls| - 1];
      LinesNulFree(ls[..|ls| - 1]);
      RestNulFree(Token(l.name), true, true, l.value);
      if Has(frags, Token(l.name)) {
        RestNulFree(Token(l.name), false, FirstEmpty(frags, Token(l.name)), l.value);
      }
    }
  }

  lemma {:induction false} KnownNulFree(names: seq<seq<byte>>, es: seq<Entry>)
    requires AllWellFormed(names, es)
    ensures forall i | 0 <= i < |KnownLines(es)| :: 0 !in KnownLines(es)[i].value
    decreases |es|
  {
    if es != [] {
      KnownNulFree(names, es[..|es| - 1]);
      assert WellFormed(names, es[|es| - 1]);
    }
  }

  /** Some line brings a value for token h. */
  predicate HasValue(es: seq<Entry>, h: nat) { ValuesOf(KnownLines(es), h) != [] }

  /** What lws_hdr_copy does with value v: -1 when it does not fit with its terminator, no change when there is none. */
  predicate ValueRead(v: seq<byte>, has: bool, was: seq<byte>, dest: seq<byte>, ret: int) {
    if |v| >= |dest| then ret == -1
    else if !has then ret == 0 && dest == was
    else ret == |v| && dest[..|v|] == v && dest[|v|] == 0
  }

  /** Parses the lines, whether their names are in the table or not, and the empty line behind them, and copies the
      value of token h. */
  method ReadValue(t: seq<byte>, names: seq<seq<byte>>, es: seq<Entry>, h: nat, dest: array<byte>)
    returns (ok: bool, ret: int)
    requires NameTable(t, names) && HeaderNames(names) && AllWellFormed(names, es) && h < TOKENS
    modifies dest
    ensures ok <==> AllTaken(es)
    ensures ok ==> ValueRead(Merged(h, ValuesOf(KnownLines(es), h)), HasValue(es, h), old(dest[..]), dest[..], ret)
  {
    hide MinilexTool.Small, MinilexTool.Prefixes, MinilexTool.Nexts, PrefixFree, Closed, Run, AllTaken, AllWellFormed,
         Merged, ValuesOf, Feed, RequestWire, Sound, Table.Valid, Has, ValueFrom, FirstEmpty, Opening, AddLines,
         KnownLines, NulFree;
    NameTableSound(t, names);
    RequestFed(t, names, es);
    ghost var ls := KnownLines(es);
    ValueIsMerged(ls, h);
    KnownNulFree(names, es);
    LinesNulFree(ls);
    FeedAppend(t, START, RequestWire(names, es), [CR, LF]);
    var p := new Table(t);
    ret := 0;
    ok := ReadAll(p, RequestWire(names, es) + [CR, LF]);
    if AllTaken(es) {
      EndFed(t, names, Hdr(NamePart(0), AddLines(ls)));
      ret := p.Copy(dest, dest.Length, h);
    }
  }

  /** Compiles the names first. */
  method RequestValue(names: seq<seq<byte>>, es: seq<Entry>, h: nat, dest: array<byte>) returns (ok: bool, ret: int)
    requires HeaderNames(names) && AllWellFormed(names, es) && h < TOKENS
    modifies dest
    ensures ok <==> AllTaken(es)
    ensures ok ==> ValueRead(Merged(h, ValuesOf(KnownLines(es), h)), HasValue(es, h), old(dest[..]), dest[..], ret)
  {
    hide MinilexTool.Small, MinilexTool.Prefixes, MinilexTool.Nexts, PrefixFree, Closed, Run, AllTaken, AllWellFormed,
         Merged, ValuesOf, KnownLines, ValueRead, HasValue;
    var compiled, t := MinilexTool.Compile(names);
    assert NameTable(t, names);
    ok, ret := ReadValue(t, names, es, h, dest);
  }
}
