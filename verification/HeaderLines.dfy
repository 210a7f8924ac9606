/** Whole header lines fed to libwebsocket_parse, and the values that come out. */
module HeaderLines {
  import opened Words
  import opened Options
  import opened SevenBit
  import opened Lextable
  import opened Headers

  function Feed(t: seq<byte>, h: Hdr, s: seq<byte>): (r: Option<Hdr>)
    requires Sound(t, h) && Place(t, 0)
    ensures r.Some? ==> Sound(t, r.value)
    decreases |s|
  {
    hide Step, Sound;
    if s == [] then Some(h)
    else
      match Step(t, h, s[0])
      case None => None
      case Some(next) => StepKeeps(t, h, s[0]); Feed(t, next, s[1..])
  }

  lemma {:induction false} FeedAppend(t: seq<byte>, h: Hdr, s: seq<byte>, u: seq<byte>)
    requires Sound(t, h) && Place(t, 0)
    ensures var r := Feed(t, h, s);
      Feed(t, h, s + u) == match r case None => None case Some(n) => Feed(t, n, u)
    decreases |s|
  {
    hide Step, Sound;
    if s == [] {
      assert s + u == u;
    } else {
      assert (s + u)[0] == s[0] && (s + u)[1..] == s[1..] + u;
      var n := Step(t, h, s[0]);
      if n.Some? {
        StepKeeps(t, h, s[0]);
        FeedAppend(t, n.value, s[1..], u);
      }
    }
  }

  lemma FeedFirst(t: seq<byte>, h: Hdr, c: byte, s: seq<byte>)
    requires Sound(t, h) && Place(t, 0)
    ensures match Step(t, h, c)
      case None => Feed(t, h, [c] + s) == None
      case Some(n) => Sound(t, n) && Feed(t, h, [c] + s) == Feed(t, n, s)
  {
    hide Step, Sound;
    var all := [c] + s;
    assert all[0] == c && all[1..] == s;
    if Step(t, h, c).Some? {
      StepKeeps(t, h, c);
    }
  }

  lemma FeedNone(t: seq<byte>, h: Hdr)
    requires Sound(t, h) && Place(t, 0)
    ensures Feed(t, h, []) == Some(h)
  {
    hide Step, Sound;
  }

  // ----- values

  /** No carriage return and no NUL. */
  predicate Clean(v: seq<byte>) { forall i | 0 <= i < |v| :: v[i] != CR && v[i] != 0 }

  /** What v adds to the last fragment of token k, when the first one of k is or is not that last one, and is or is not
      still empty. */
  function Rest(k: nat, isFirst: bool, empty: bool, v: seq<byte>): seq<byte>
    decreases |v|
  {
    if v == [] then []
    else if empty && v[0] == SPACE then Rest(k, isFirst, empty, v[1..])
    else if k == GET_URI && v[0] == SPACE then []
    else [v[0]] + Rest(k, isFirst, empty && !isFirst, v[1..])
  }

  function AddText(frags: seq<Frag>, s: seq<byte>): seq<Frag>
    requires frags != []
  {
    var last := frags[|frags| - 1];
    frags[..|frags| - 1] + [Frag(last.owner, last.text + s)]
  }

  lemma AddTextTwice(frags: seq<Frag>, c: byte, s: seq<byte>)
    requires frags != []
    ensures AddText(Longer(frags, c), s) == AddText(frags, [c] + s) && AddText(frags, []) == frags
  {
    var last := frags[|frags| - 1];
    assert last.text + [c] + s == last.text + ([c] + s);
    assert last.text + [] == last.text;
    assert Longer(frags, c)[..|frags| - 1] == frags[..|frags| - 1];
  }

  /** Whether the first fragment of the value's token is the one being filled, and whether it is empty. */
  predicate FirstIs(h: Hdr, isFirst: bool, empty: bool)
    requires h.state.Value? && h.frags != [] && Has(h.frags, h.state.token)
  {
    var f := From(h.frags, 0, h.state.token).value;
    isFirst == (f == |h.frags| - 1) && empty == (h.frags[f].text == [])
  }

  lemma {:induction false} FromLonger(frags: seq<Frag>, c: byte, k: nat, token: nat)
    requires frags != [] && k <= |frags|
    ensures From(Longer(frags, c), k, token) == From(frags, k, token)
    decreases |frags| - k
  {
    if k < |frags| {
      FromLonger(frags, c, k + 1, token);
    }
  }

  lemma FirstIsNext(h: Hdr, isFirst: bool, empty: bool, c: byte)
    requires h.state.Value? && h.frags != [] && Has(h.frags, h.state.token) && FirstIs(h, isFirst, empty)
    ensures var n := h.(frags := Longer(h.frags, c));
      Has(n.frags, n.state.token) && FirstIs(n, isFirst, empty && !isFirst)
  {
    FromLonger(h.frags, c, 0, h.state.token);
  }

  lemma {:induction false} SkipFed(t: seq<byte>, h: Hdr, v: seq<byte>)
    requires Sound(t, h) && Place(t, 0) && h.state == Skipping && Clean(v)
    ensures Feed(t, h, v + [CR]) == Some(h.(state := SawCr))
    decreases |v|
  {
    hide Closed;
    if v == [] {
      assert v + [CR] == [CR] + [];
      FeedFirst(t, h, CR, []);
      FeedNone(t, h.(state := SawCr));
    } else {
      assert v + [CR] == [v[0]] + (v[1..] + [CR]);
      FeedFirst(t, h, v[0], v[1..] + [CR]);
      SkipFed(t, h, v[1..]);
    }
  }

  /** A value up to its end of line: it is stored when the arena has room for it and its terminator. */
  lemma {:induction false} ValueFed(t: seq<byte>, h: Hdr, v: seq<byte>, isFirst: bool, empty: bool)
    requires Sound(t, h) && Place(t, 0) && h.state.Value? && Clean(v)
    requires Has(h.frags, h.state.token) && FirstIs(h, isFirst, empty)
    ensures var s := Rest(h.state.token, isFirst, empty, v);
      Feed(t, h, v + [CR])
        == if Pos(h) + |s| + 1 <= ARENA then Some(Hdr(SawCr, AddText(h.frags, s))) else None
    decreases |v|
  {
    hide Closed, Has, From, FirstIs, Longer, Used, AddText;
    var k := h.state.token;
    AddTextTwice(h.frags, CR, []);
    if v == [] {
      assert v + [CR] == [CR] + [];
      FeedFirst(t, h, CR, []);
      ValueStep(t, h, CR, isFirst, empty);
      if Pos(h) < ARENA {
        FeedNone(t, h.(state := SawCr));
      }
    } else {
      var c, more := v[0], v[1..];
      assert v + [CR] == [c] + (more + [CR]);
      FeedFirst(t, h, c, more + [CR]);
      ValueStep(t, h, c, isFirst, empty);
      if empty && c == SPACE {
        ValueFed(t, h, more, isFirst, empty);
      } else if k == GET_URI && c == SPACE {
        if Pos(h) < ARENA {
          SkipFed(t, h.(state := Skipping), more);
        }
      } else if Pos(h) < ARENA {
        var n := h.(frags := Longer(h.frags, c));
        FirstIsNext(h, isFirst, empty, c);
        UsedLonger(h.frags, c);
        AddTextTwice(h.frags, c, Rest(k, isFirst, empty && !isFirst, more));
        ValueFed(t, n, more, isFirst, empty && !isFirst);
      }
    }
  }

  lemma ValueStep(t: seq<byte>, h: Hdr, c: byte, isFirst: bool, empty: bool)
    requires Sound(t, h) && h.state.Value? && Has(h.frags, h.state.token) && FirstIs(h, isFirst, empty)
    ensures Step(t, h, c)
      == if empty && c == SPACE then Some(h)
         else if Pos(h) == ARENA then None
         else if h.state.token == GET_URI && c == SPACE then Some(h.(state := Skipping))
         else if c == CR then Some(h.(state := SawCr))
         else Some(h.(frags := Longer(h.frags, c)))
  {
    hide Closed, Has, From, Longer, Used;
  }

  // ----- names

  predicate Stops(t: seq<byte>, lex: nat, s: seq<byte>, i: nat)
    requires Closed(t) && Place(t, lex)
  {
    Run(t, lex, s) == Some(i) && forall m | 0 <= m < |s| :: Run(t, lex, s[..m]) == None
  }

  /** A walk that stops at the last character of s has not stopped before. */
  lemma StopsNext(t: seq<byte>, lex: nat, s: seq<byte>, i: nat)
    requires Closed(t) && Place(t, lex) && s != [] && Stops(t, lex, s, i)
    ensures Decode(t, lex, s[0]).Some?
    ensures var p := Decode(t, lex, s[0]).value;
      if t[p + 1] == 0 then |s| == 1 && Index(Low7(t[p])) == i else |s| > 1 && Stops(t, p, s[1..], i)
  {
    hide Closed, Decode, Low7, Index;
    assert s[..1] == [s[0]];
    RunOne(t, lex, s[0]);
    var p := Decode(t, lex, s[0]).value;
    if t[p + 1] != 0 {
      RunEmpty(t, p);
      forall m | 0 <= m < |s[1..]|
        ensures Run(t, p, s[1..][..m]) == None
      {
        assert s[..m + 1][0] == s[0] && s[..m + 1][1..] == s[1..][..m];
        assert Run(t, lex, s[..m + 1]) == None;
      }
    }
  }

  /** The characters of a name: nothing happens before the last one. */
  lemma {:induction false} NameFed(t: seq<byte>, h: Hdr, s: seq<byte>, i: nat, u: seq<byte>)
    requires Sound(t, h) && Place(t, 0) && h.state.NamePart? && s != [] && Stops(t, h.state.lex, s, i)
    ensures match Named(h, i)
      case None => Feed(t, h, s + u) == None
      case Some(n) => Sound(t, n) && Feed(t, h, s + u) == Feed(t, n, u)
    decreases |s|
  {
    hide Closed, Named, Used, Stops, Feed, Low7, Index;
    StopsNext(t, h.state.lex, s, i);
    var p := Decode(t, h.state.lex, s[0]).value;
    assert s + u == [s[0]] + (s[1..] + u);
    FeedFirst(t, h, s[0], s[1..] + u);
    if t[p + 1] == 0 {
      assert s[1..] + u == u;
    } else {
      NameFed(t, h.(state := NamePart(p)), s[1..], i, u);
      SameNamed(h, h.(state := NamePart(p)), i);
    }
  }

  lemma SameNamed(h: Hdr, other: Hdr, i: nat)
    requires h.frags == other.frags
    ensures Named(h, i) == Named(other, i)
  {}

  lemma RunEmpty(t: seq<byte>, lex: nat)
    requires Closed(t) && Place(t, lex)
    ensures Run(t, lex, []) == None
  {}

  lemma RunOne(t: seq<byte>, lex: nat, c: byte)
    requires Closed(t) && Place(t, lex)
    ensures Run(t, lex, [c])
      == match Decode(t, lex, c)
         case None => None
         case Some(p) => if t[p + 1] == 0 then Some(Index(Low7(t[p]))) else None
  {
    hide Decode, Closed, Place;
    assert [c][1..] == [];
    if Decode(t, lex, c).Some? {
      RunEmpty(t, Decode(t, lex, c).value);
    }
  }

  lemma PrefixIndex(t: seq<byte>, names: seq<seq<byte>>, i: nat, j: nat)
    requires NameTable(t, names) && i < NAMES && j < NAMES && names[i] != [] && names[j] <= names[i]
    ensures i == j
  {
    hide Closed, Run;
    assert Run(t, 0, names[i]) == Some(i) && Run(t, 0, names[i]) == Some(j);
  }

  lemma NameStops(t: seq<byte>, names: seq<seq<byte>>, i: nat)
    requires NameTable(t, names) && i < NAMES && names[i] != []
    ensures Stops(t, 0, names[i], i)
  {
    hide Closed, Run;
    var s := names[i];
    assert Run(t, 0, s) == Some(i);
    forall m | 0 <= m < |s|
      ensures Run(t, 0, s[..m]) == None
    {
      if Run(t, 0, s[..m]).Some? {
        var j := Run(t, 0, s[..m]).value;
        assert Run(t, 0, s[..m]) == Some(j);
        PrefixIndex(t, names, i, j);
      }
    }
  }

  // ----- lines

  /** A header line: the name with this index and what follows it up to the end of line. */
  datatype Line = Line(name: nat, value: seq<byte>)

  function Token(name: nat): nat { if name == SWORIGIN then ORIGIN else name }

  predicate Proper(l: Line) { l.name < NAMES && l.name != CHALLENGE && Clean(l.value) }

  function LineWire(names: seq<seq<byte>>, l: Line): seq<byte>
    requires |names| == NAMES && l.name < NAMES
  {
    names[l.name] + l.value + [CR, LF]
  }

  predicate FirstEmpty(frags: seq<Frag>, k: nat)
    requires Has(frags, k)
  {
    frags[From(frags, 0, k).value].text == []
  }

  /** The text of the fragment that a line makes. */
  function LineText(frags: seq<Frag>, k: nat, v: seq<byte>): seq<byte> {
    if Has(frags, k) then [SPACE] + Rest(k, false, FirstEmpty(frags, k), v) else Rest(k, true, true, v)
  }

  function AddLine(frags: seq<Frag>, l: Line): seq<Frag> {
    frags + [Frag(Token(l.name), LineText(frags, Token(l.name), l.value))]
  }

  /** What a line needs: a fragment, room for its text and terminator, and no earlier request line. */
  predicate Fits(frags: seq<Frag>, l: Line) {
    && |frags| + 1 < MAX_FRAGS && Used(AddLine(frags, l)) <= ARENA
    && !(l.name == GET_URI && Has(frags, GET_URI))
  }

  lemma {:induction false} FromMore(frags: seq<Frag>, f: Frag, k: nat, token: nat)
    requires k <= |frags|
    ensures From(frags + [f], k, token)
      == if From(frags, k, token).Some? then From(frags, k, token)
         else if f.owner == token then Some(|frags|) else None
    decreases |frags| - k
  {
    var all := frags + [f];
    if k < |frags| {
      assert all[k] == frags[k];
      FromMore(frags, f, k + 1, token);
    } else {
      assert all[k] == f;
      FromEnd(all, k + 1, token);
    }
  }

  lemma FromEnd(frags: seq<Frag>, k: nat, token: nat)
    requires k == |frags|
    ensures From(frags, k, token) == None
  {}

  /** A fresh fragment is the first of its token, and empty, or not the first. */
  lemma StartedFirst(frags: seq<Frag>, k: nat)
    ensures var h := Hdr(Value(k), frags + [Frag(k, if Has(frags, k) then [SPACE] else [])]);
      Has(h.frags, k) && FirstIs(h, !Has(frags, k), if Has(frags, k) then FirstEmpty(frags, k) else true)
  {
    hide From;
    FromMore(frags, Frag(k, if Has(frags, k) then [SPACE] else []), 0, k);
  }

  lemma AddToLast(frags: seq<Frag>, f: Frag, s: seq<byte>)
    ensures AddText(frags + [f], s) == frags + [Frag(f.owner, f.text + s)]
  {
    assert (frags + [f])[..|frags|] == frags;
  }

  /** A whole line from the name part on. */
  lemma LineFed(t: seq<byte>, names: seq<seq<byte>>, h: Hdr, l: Line)
    requires NameTable(t, names) && Sound(t, h) && h.state == NamePart(0) && Proper(l) && names[l.name] != []
    ensures Feed(t, h, LineWire(names, l))
      == if Fits(h.frags, l) then Some(Hdr(NamePart(0), AddLine(h.frags, l))) else None
  {
    hide Closed, Run, Feed, Used, From, Has, Clean, Rest, AddText, FirstIs, FirstEmpty, Stops;
    var s, k, rest := names[l.name], Token(l.name), l.value + [CR] + [LF];
    assert LineWire(names, l) == s + rest;
    NameStops(t, names, l.name);
    NameFed(t, h, s, l.name, rest);
    var text := LineText(h.frags, k, l.value);
    UsedMore(h.frags, Frag(k, text));
    if Named(h, l.name).Some? {
      var started := Named(h, l.name).value;
      var f := Frag(k, if Has(h.frags, k) then [SPACE] else []);
      StartedFirst(h.frags, k);
      UsedMore(h.frags, f);
      var isFirst, empty := !Has(h.frags, k), if Has(h.frags, k) then FirstEmpty(h.frags, k) else true;
      ValueFed(t, started, l.value, isFirst, empty);
      AddToLast(h.frags, f, Rest(k, isFirst, empty, l.value));
      assert [] + Rest(k, true, true, l.value) == Rest(k, true, true, l.value);
      FeedAppend(t, started, l.value + [CR], [LF]);
      if Feed(t, started, l.value + [CR]).Some? {
        LineEnds(t, Feed(t, started, l.value + [CR]).value);
      }
    }
  }

  lemma LineEnds(t: seq<byte>, h: Hdr)
    requires Sound(t, h) && Place(t, 0) && h.state == SawCr
    ensures Feed(t, h, [LF]) == Some(h.(state := NamePart(0)))
  {
    hide Closed, Used;
    assert [LF] == [LF] + [];
    FeedFirst(t, h, LF, []);
    FeedNone(t, h.(state := NamePart(0)));
  }

  // ----- lines with a name that is not in the table

  /** The walk from place lex leaves the table inside s. */
  predicate Lost(t: seq<byte>, lex: nat, s: seq<byte>)
    requires Closed(t) && Place(t, lex)
    decreases |s|
  {
    s != [] &&
    match Decode(t, lex, s[0])
    case None => true
    case Some(p) => t[p + 1] != 0 && Lost(t, p, s[1..])
  }

  /** From every place a walk can go on to a terminal. */
  lemma {:induction false} Leads(t: seq<byte>, lex: nat) returns (u: seq<byte>)
    requires Closed(t) && Place(t, lex) && t[lex + 1] != 0
    ensures u != [] && Run(t, lex, u).Some?
    decreases |t| - lex
  {
    hide Low7, TopBit, Index, Closed;
    var c := Low7(t[lex]);
    var p := Decode(t, lex, c).value;
    u := [c];
    RunOne(t, lex, c);
    if t[p + 1] != 0 {
      var more := Leads(t, p);
      u := [c] + more;
      assert u[0] == c && u[1..] == more;
    }
  }

  /** A walk that is not lost in s can end behind s. */
  lemma {:induction false} StaysOrLost(t: seq<byte>, lex: nat, s: seq<byte>) returns (u: seq<byte>)
    requires Closed(t) && Place(t, lex) && t[lex + 1] != 0
    ensures !Lost(t, lex, s) ==> Run(t, lex, s + u).Some?
    decreases |s|
  {
    hide Low7, TopBit, Index, Closed, Decode;
    u := [];
    if s == [] {
      u := Leads(t, lex);
      assert s + u == u;
    } else if Decode(t, lex, s[0]).Some? {
      var p := Decode(t, lex, s[0]).value;
      if t[p + 1] != 0 {
        u := StaysOrLost(t, p, s[1..]);
      }
      assert (s + u)[0] == s[0] && (s + u)[1..] == s[1..] + u;
    }
  }

  lemma {:induction false} LostFindsNothing(t: seq<byte>, lex: nat, s: seq<byte>, u: seq<byte>)
    requires Closed(t) && Place(t, lex) && Lost(t, lex, s)
    ensures Run(t, lex, s + u) == None
    decreases |s|
  {
    hide Closed, Decode;
    assert (s + u)[0] == s[0] && (s + u)[1..] == s[1..] + u;
    var r := Decode(t, lex, s[0]);
    if r.Some? {
      LostFindsNothing(t, r.value, s[1..], u);
    }
  }

  /** No name is the beginning of s, or the other way round. */
  predicate Foreign(names: seq<seq<byte>>, s: seq<byte>) {
    forall i | 0 <= i < |names| :: !(names[i] <= s) && !(s <= names[i])
  }

  lemma RootIsInner(t: seq<byte>, names: seq<seq<byte>>)
    requires NameTable(t, names) && forall i | 0 <= i < NAMES :: names[i] != []
    ensures t[1] != 0
  {
    hide Closed, Decode, NameTable, Run;
    NameTableSound(t, names);
    if t[1] == 0 {
      RunAtTerminal(t, 0);
      RunAtTerminal(t, 1);
      OneByteName(t, names, 0);
      OneByteName(t, names, 1);
    }
  }

  /** A walk that stops after one byte has found the name that is this byte. */
  lemma OneByteName(t: seq<byte>, names: seq<seq<byte>>, c: byte)
    requires NameTable(t, names) && (forall i | 0 <= i < NAMES :: names[i] != []) && Run(t, 0, [c]).Some?
    ensures Run(t, 0, [c]).value < |names| && names[Run(t, 0, [c]).value][..1] == [c]
  {
    hide Closed, Run;
    var i := Run(t, 0, [c]).value;
    assert Run(t, 0, [c]) == Some(i);
  }

  lemma RunAtTerminal(t: seq<byte>, c: byte)
    requires Closed(t) && Place(t, 0) && t[1] == 0
    ensures Run(t, 0, [c]) == Some(Index(Low7(t[0])))
  {
    hide Closed, Low7, Index;
    RunOne(t, 0, c);
  }

  lemma NameFound(t: seq<byte>, names: seq<seq<byte>>, i: nat, s: seq<byte>)
    requires NameTable(t, names) && i < NAMES && names[i] != [] && names[i] <= s
    ensures Run(t, 0, s) == Some(i)
  {
    hide Closed, Run;
  }

  lemma LostApart(t: seq<byte>, names: seq<seq<byte>>, s: seq<byte>, i: nat)
    requires NameTable(t, names) && i < NAMES && names[i] != [] && Lost(t, 0, s)
    ensures !(names[i] <= s) && !(s <= names[i])
  {
    hide Closed, Run, Lost, NameTable;
    NameTableSound(t, names);
    if s <= names[i] {
      NameFound(t, names, i, names[i]);
      assert s + names[i][|s|..] == names[i];
      LostFindsNothing(t, 0, s, names[i][|s|..]);
    } else if names[i] <= s {
      NameFound(t, names, i, s);
      assert s + [] == s;
      LostFindsNothing(t, 0, s, []);
    }
  }

  /** A text is lost in the table exactly when no name has to do with it. */
  lemma LostIsForeign(t: seq<byte>, names: seq<seq<byte>>, s: seq<byte>)
    requires NameTable(t, names) && forall i | 0 <= i < NAMES :: names[i] != []
    ensures Lost(t, 0, s) <==> Foreign(names, s)
  {
    hide Closed, Run, Lost;
    RootIsInner(t, names);
    if Lost(t, 0, s) {
      forall i | 0 <= i < |names|
        ensures !(names[i] <= s) && !(s <= names[i])
      {
        LostApart(t, names, s, i);
      }
    } else {
      var u := StaysOrLost(t, 0, s);
      var i := Run(t, 0, s + u).value;
      assert Run(t, 0, s + u) == Some(i);
      EitherPrefix(names[i], s, u);
    }
  }

  lemma EitherPrefix(w: seq<byte>, s: seq<byte>, u: seq<byte>)
    requires w <= s + u
    ensures w <= s || s <= w
  {}

  /** Such a line is skipped once the request line has been seen, and refused before. */
  lemma {:induction false} UnknownFed(t: seq<byte>, h: Hdr, s: seq<byte>)
    requires Sound(t, h) && Place(t, 0) && h.state.NamePart? && Lost(t, h.state.lex, s) && Clean(s)
    ensures Feed(t, h, s + [CR] + [LF])
      == if Has(h.frags, GET_URI) || Has(h.frags, HTTP) then Some(h.(state := NamePart(0))) else None
    decreases |s|
  {
    hide Closed, Feed, Used, Has, Named, Decode;
    assert s + [CR] + [LF] == [s[0]] + (s[1..] + [CR] + [LF]);
    FeedFirst(t, h, s[0], s[1..] + [CR] + [LF]);
    match Decode(t, h.state.lex, s[0]) {
      case None =>
        if Has(h.frags, GET_URI) || Has(h.frags, HTTP) {
          var skipping := h.(state := Skipping);
          SkipFed(t, skipping, s[1..]);
          FeedAppend(t, skipping, s[1..] + [CR], [LF]);
          LineEnds(t, skipping.(state := SawCr));
        }
      case Some(p) => UnknownFed(t, h.(state := NamePart(p)), s[1..]);
    }
  }

  lemma LostIs(t: seq<byte>, lex: nat, s: seq<byte>)
    requires Closed(t) && Place(t, lex)
    ensures s == [] ==> !Lost(t, lex, s)
    ensures s != [] ==> (Lost(t, lex, s) <==>
      match Decode(t, lex, s[0]) case None => true case Some(p) => t[p + 1] != 0 && Lost(t, p, s[1..]))
  {
    hide Closed, Decode;
  }

  /** A walk that is lost at the last character of w and not before. */
  lemma {:induction false} LostAtLast(t: seq<byte>, h: Hdr, w: seq<byte>, c: byte)
    requires Sound(t, h) && Place(t, 0) && h.state.NamePart?
    requires Lost(t, h.state.lex, w + [c]) && !Lost(t, h.state.lex, w)
    ensures Feed(t, h, w + [c])
      == if Has(h.frags, GET_URI) || Has(h.frags, HTTP) then Some(h.(state := Skipping)) else None
    decreases |w|
  {
    hide Closed, Feed, Used, Has, Named, Decode, Lost;
    var skipping := h.(state := Skipping);
    LostIs(t, h.state.lex, w);
    LostIs(t, h.state.lex, w + [c]);
    if w == [] {
      assert w + [c] == [c] == [c] + [];
      FeedFirst(t, h, c, []);
      LostNotEmpty(t, h.state.lex, c);
      if Has(h.frags, GET_URI) || Has(h.frags, HTTP) {
        FeedNone(t, skipping);
      }
    } else {
      assert (w + [c])[0] == w[0] && (w + [c])[1..] == w[1..] + [c];
      assert w + [c] == [w[0]] + (w[1..] + [c]);
      var p := Decode(t, h.state.lex, w[0]).value;
      FeedFirst(t, h, w[0], w[1..] + [c]);
      LostAtLast(t, h.(state := NamePart(p)), w[1..], c);
    }
  }

  lemma LostNotEmpty(t: seq<byte>, lex: nat, c: byte)
    requires Closed(t) && Place(t, lex) && Lost(t, lex, [c])
    ensures Decode(t, lex, c) == None
  {
    hide Closed, Decode;
  }

  /** A line that ends inside a name is not only skipped: it swallows the line v behind it. */
  lemma StubFed(t: seq<byte>, names: seq<seq<byte>>, h: Hdr, s: seq<byte>, v: seq<byte>)
    requires NameTable(t, names) && (forall i | 0 <= i < NAMES :: names[i] != []) && Sound(t, h)
    requires h.state == NamePart(0)
    requires !Foreign(names, s) && Foreign(names, s + [CR]) && Clean(v) && (Has(h.frags, GET_URI) || Has(h.frags, HTTP))
    ensures Feed(t, h, s + [CR] + ([LF] + v + [CR]) + [LF]) == Some(h)
  {
    hide Closed, Run, Feed, Used, Has, Lost, Foreign, Decode;
    LostIsForeign(t, names, s);
    LostIsForeign(t, names, s + [CR]);
    LostAtLast(t, h, s, CR);
    var skipping := h.(state := Skipping);
    SkipFed(t, skipping, [LF] + v);
    LineEnds(t, h.(state := SawCr));
    FeedAppend(t, h, s + [CR], [LF] + v + [CR]);
    FeedAppend(t, h, s + [CR] + ([LF] + v + [CR]), [LF]);
  }

  // ----- requests

  /** A line with a name of the table, or the text of any other line. */
  datatype Entry = Known(line: Line) | Other(text: seq<byte>)

  predicate WellFormed(names: seq<seq<byte>>, e: Entry) {
    match e
    case Known(l) => Proper(l)
    case Other(s) => Clean(s) && Foreign(names, s)
  }

  predicate AllWellFormed(names: seq<seq<byte>>, es: seq<Entry>) {
    forall i | 0 <= i < |es| :: WellFormed(names, es[i])
  }

  function EntryWire(names: seq<seq<byte>>, e: Entry): seq<byte>
    requires |names| == NAMES && WellFormed(names, e)
  {
    match e
    case Known(l) => LineWire(names, l)
    case Other(s) => s + [CR] + [LF]
  }

  function RequestWire(names: seq<seq<byte>>, es: seq<Entry>): seq<byte>
    requires |names| == NAMES && AllWellFormed(names, es)
    decreases |es|
  {
    if es == [] then [] else RequestWire(names, es[..|es| - 1]) + EntryWire(names, es[|es| - 1])
  }

  /** The lines with a name of the table, in order. */
  function KnownLines(es: seq<Entry>): seq<Line>
    decreases |es|
  {
    if es == [] then []
    else KnownLines(es[..|es| - 1]) + (if es[|es| - 1].Known? then [es[|es| - 1].line] else [])
  }

  function AddLines(ls: seq<Line>): seq<Frag>
    decreases |ls|
  {
    if ls == [] then [] else AddLine(AddLines(ls[..|ls| - 1]), ls[|ls| - 1])
  }

  /** Whether the parser takes one more line: other lines only once a request or status line has been seen. */
  predicate Takes(frags: seq<Frag>, e: Entry) {
    match e
    case Known(l) => Fits(frags, l)
    case Other(_) => Has(frags, GET_URI) || Has(frags, HTTP)
  }

  predicate AllTaken(es: seq<Entry>)
    decreases |es|
  {
    es == [] || (AllTaken(es[..|es| - 1]) && Takes(AddLines(KnownLines(es[..|es| - 1])), es[|es| - 1]))
  }

  lemma EntryFed(t: seq<byte>, names: seq<seq<byte>>, h: Hdr, e: Entry)
    requires NameTable(t, names) && Sound(t, h) && h.state == NamePart(0) && WellFormed(names, e)
    requires forall i | 0 <= i < NAMES :: names[i] != []
    ensures Feed(t, h, EntryWire(names, e))
      == if !Takes(h.frags, e) then None
         else if e.Known? then Some(Hdr(NamePart(0), AddLine(h.frags, e.line)))
         else Some(h)
  {
    hide Sound, Feed, Has, Fits, AddLine, LineWire, Lost, Clean, Foreign;
    NameTableSound(t, names);
    match e
    case Known(l) => LineFed(t, names, h, l);
    case Other(s) =>
      LostIsForeign(t, names, s);
      UnknownFed(t, h, s);
  }

  /** Any run of header lines is either refused or leaves one fragment for each line with a name of the table. */
  lemma {:induction false} RequestFed(t: seq<byte>, names: seq<seq<byte>>, es: seq<Entry>)
    requires NameTable(t, names) && Sound(t, START) && (forall i | 0 <= i < NAMES :: names[i] != [])
    requires AllWellFormed(names, es)
    ensures Feed(t, START, RequestWire(names, es))
      == if AllTaken(es) then Some(Hdr(NamePart(0), AddLines(KnownLines(es)))) else None
    decreases |es|
  {
    hide NameTable, Sound, EntryWire, Takes, AddLine, WellFormed;
    NameTableSound(t, names);
    if es == [] {
      FeedNone(t, START);
    } else {
      var before, e := es[..|es| - 1], es[|es| - 1];
      RequestFed(t, names, before);
      FeedAppend(t, START, RequestWire(names, before), EntryWire(names, e));
      if AllTaken(before) {
        EntryFed(t, names, Hdr(NamePart(0), AddLines(KnownLines(before))), e);
        AddLinesMore(KnownLines(before), e);
      }
    }
  }

  lemma AddLinesMore(ls: seq<Line>, e: Entry)
    ensures e.Known? ==> AddLines(ls + [e.line]) == AddLine(AddLines(ls), e.line)
    ensures ls + [] == ls
  {
    hide AddLine;
    if e.Known? {
      assert (ls + [e.line])[..|ls|] == ls;
    }
  }

  lemma NameTableSound(t: seq<byte>, names: seq<seq<byte>>)
    requires NameTable(t, names)
    ensures |names| == NAMES && Place(t, 0) && Closed(t) && Sound(t, START)
  {
    hide Closed, Run;
  }

  /** The empty line ends the headers. */
  lemma EndFed(t: seq<byte>, names: seq<seq<byte>>, h: Hdr)
    requires NameTable(t, names) && Sound(t, h) && h.state == NamePart(0) && names[CHALLENGE] == [CR, LF]
    ensures Feed(t, h, [CR, LF]) == Some(h.(state := Complete))
  {
    hide Closed, Run, Feed, Used, Stops;
    NameStops(t, names, CHALLENGE);
    NameFed(t, h, [CR, LF], CHALLENGE, []);
    assert [CR, LF] + [] == [CR, LF];
    FeedNone(t, h.(state := Complete));
  }

  // ----- what a token's value is in the end

  /** The texts of the fragments of a token, from place k on, one after the other. */
  function ValueFrom(frags: seq<Frag>, k: nat, token: nat): seq<byte>
    requires k <= |frags|
    decreases |frags| - k
  {
    if k == |frags| then []
    else (if frags[k].owner == token then frags[k].text else []) + ValueFrom(frags, k + 1, token)
  }

  lemma {:induction false} ValueMore(frags: seq<Frag>, f: Frag, k: nat, token: nat)
    requires k <= |frags|
    ensures ValueFrom(frags + [f], k, token)
      == ValueFrom(frags, k, token) + (if f.owner == token then f.text else [])
    decreases |frags| - k
  {
    var all := frags + [f];
    if k < |frags| {
      assert all[k] == frags[k];
      ValueMore(frags, f, k + 1, token);
    } else {
      assert all[k] == f;
      assert ValueFrom(all, k + 1, token) == [];
    }
  }

  /** The raw values of the lines for a token, in order. */
  function ValuesOf(ls: seq<Line>, token: nat): seq<seq<byte>>
    decreases |ls|
  {
    if ls == [] then []
    else ValuesOf(ls[..|ls| - 1], token) + (if Token(ls[|ls| - 1].name) == token then [ls[|ls| - 1].value] else [])
  }

  /** The first value as it is stored. */
  function Opening(token: nat, v: seq<byte>): seq<byte> { Rest(token, true, true, v) }

  /** The first value, then a space and the value of each later line. */
  function Merged(token: nat, vs: seq<seq<byte>>): seq<byte>
    decreases |vs|
  {
    if vs == [] then []
    else if |vs| == 1 then Opening(token, vs[0])
    else Merged(token, vs[..|vs| - 1]) + ([SPACE] + Rest(token, false, Opening(token, vs[0]) == [], vs[|vs| - 1]))
  }

  lemma FirstEmptyMore(frags: seq<Frag>, f: Frag, k: nat)
    ensures Has(frags + [f], k) <==> Has(frags, k) || f.owner == k
    ensures Has(frags + [f], k) ==>
      FirstEmpty(frags + [f], k) == if Has(frags, k) then FirstEmpty(frags, k) else f.text == []
  {
    hide From;
    FromMore(frags, f, 0, k);
  }

  /** The fragments of a token spell its merged value; whether later lines keep their spaces depends on the first. */
  lemma {:induction false} ValueIsMerged(ls: seq<Line>, token: nat)
    ensures var frags, vs := AddLines(ls), ValuesOf(ls, token);
      && ValueFrom(frags, 0, token) == Merged(token, vs)
      && (Has(frags, token) <==> vs != [])
      && (vs != [] ==> FirstEmpty(frags, token) == (Opening(token, vs[0]) == []))
    decreases |ls|
  {
    hide Has, FirstEmpty, Rest, LineText;
    if ls == [] {
      NoneHas(token);
    } else {
      var before, l := ls[..|ls| - 1], ls[|ls| - 1];
      var frags, vs := AddLines(before), ValuesOf(before, token);
      ValueIsMerged(before, token);
      var f := Frag(Token(l.name), LineText(frags, Token(l.name), l.value));
      ValueMore(frags, f, 0, token);
      FirstEmptyMore(frags, f, token);
      TextOfLine(frags, Token(l.name), l.value);
      if Token(l.name) == token {
        assert (vs + [l.value])[..|vs|] == vs;
        if vs == [] {
          assert vs + [l.value] == [l.value];
        }
      } else {
        assert vs + [] == vs;
      }
    }
  }

  lemma NoneHas(token: nat)
    ensures !Has([], token)
  {}

  lemma TextOfLine(frags: seq<Frag>, k: nat, v: seq<byte>)
    ensures LineText(frags, k, v)
      == if Has(frags, k) then [SPACE] + Rest(k, false, FirstEmpty(frags, k), v) else Opening(k, v)
  {}

  // ----- the merged value in plain terms

  function Strip(v: seq<byte>): seq<byte>
    decreases |v|
  {
    if v != [] && v[0] == SPACE then Strip(v[1..]) else v
  }

  function SpacesOut(v: seq<byte>): seq<byte>
    decreases |v|
  {
    if v == [] then [] else (if v[0] == SPACE then [] else [v[0]]) + SpacesOut(v[1..])
  }

  function ToSpace(v: seq<byte>): seq<byte>
    decreases |v|
  {
    if v == [] || v[0] == SPACE then [] else [v[0]] + ToSpace(v[1..])
  }

  /** Strip takes away the spaces in front and nothing else. */
  lemma {:induction false} StripIs(v: seq<byte>)
    ensures |Strip(v)| <= |v| && v[|v| - |Strip(v)|..] == Strip(v) && (Strip(v) != [] ==> Strip(v)[0] != 0x20)
    ensures forall i | 0 <= i < |v| - |Strip(v)| :: v[i] == 0x20
    decreases |v|
  {
    if v != [] && v[0] == SPACE {
      StripIs(v[1..]);
    }
  }

  /** ToSpace keeps what stands before the first space. */
  lemma {:induction false} ToSpaceIs(v: seq<byte>)
    ensures ToSpace(v) <= v && 0x20 !in ToSpace(v) && (ToSpace(v) == v || v[|ToSpace(v)|] == 0x20)
    decreases |v|
  {
    if v != [] && v[0] != SPACE {
      ToSpaceIs(v[1..]);
      assert v == [v[0]] + v[1..];
    }
  }

  lemma SpaceJoinedIs(vs: seq<seq<byte>>, v: seq<byte>)
    ensures SpaceJoined([]) == [] && SpaceJoined(vs + [v]) == SpaceJoined(vs) + [0x20] + v
  {
    assert (vs + [v])[..|vs|] == vs;
  }

  /** The request's URI ends at the first space behind it; every other first value loses its leading spaces, and a later
      one loses none, or all when the first was empty. */
  lemma {:induction false} RestIs(k: nat, v: seq<byte>)
    ensures Rest(k, true, true, v) == if k == GET_URI then ToSpace(Strip(v)) else Strip(v)
    ensures k != GET_URI ==> Rest(k, true, false, v) == v && Rest(k, false, false, v) == v
    ensures k == GET_URI ==> Rest(k, true, false, v) == ToSpace(v)
    ensures k != GET_URI ==> Rest(k, false, true, v) == SpacesOut(v)
    decreases |v|
  {
    if v != [] {
      RestIs(k, v[1..]);
      assert [v[0]] + v[1..] == v;
    }
  }

  function SpaceJoined(vs: seq<seq<byte>>): seq<byte>
    decreases |vs|
  {
    if vs == [] then [] else SpaceJoined(vs[..|vs| - 1]) + ([SPACE] + vs[|vs| - 1])
  }

  /** When the first value is not blank: it without its leading spaces, then each later value raw behind one space. */
  lemma {:induction false} MergedIs(token: nat, vs: seq<seq<byte>>)
    requires token != GET_URI && vs != [] && Strip(vs[0]) != []
    ensures Merged(token, vs) == Strip(vs[0]) + SpaceJoined(vs[1..])
    decreases |vs|
  {
    hide Rest, Strip;
    RestIs(token, vs[0]);
    if |vs| == 1 {
      assert vs[1..] == [];
    } else {
      var before, last := vs[..|vs| - 1], vs[|vs| - 1];
      MergedIs(token, before);
      RestIs(token, last);
      assert vs[1..][..|vs| - 2] == before[1..] && vs[1..][|vs| - 2] == last;
      assert Strip(vs[0]) + SpaceJoined(before[1..]) + ([SPACE] + last)
        == Strip(vs[0]) + (SpaceJoined(before[1..]) + ([SPACE] + last));
    }
  }

  /** The later values without any of their spaces, each behind one space. */
  function SqueezedJoined(vs: seq<seq<byte>>): seq<byte>
    decreases |vs|
  {
    if vs == [] then [] else SqueezedJoined(vs[..|vs| - 1]) + ([SPACE] + SpacesOut(vs[|vs| - 1]))
  }

  /** When the first value is blank: the later ones without any of their spaces. */
  lemma {:induction false} MergedBlank(token: nat, vs: seq<seq<byte>>)
    requires token != GET_URI && vs != [] && Strip(vs[0]) == []
    ensures Merged(token, vs) == SqueezedJoined(vs[1..])
    decreases |vs|
  {
    hide Rest, Strip, SpacesOut;
    RestIs(token, vs[0]);
    if |vs| == 1 {
      assert vs[1..] == [];
    } else {
      var before, last := vs[..|vs| - 1], vs[|vs| - 1];
      MergedBlank(token, before);
      RestIs(token, last);
      assert vs[1..][..|vs| - 2] == before[1..] && vs[1..][|vs| - 2] == last;
    }
  }

  lemma {:induction false} SpacesOutIs(v: seq<byte>)
    ensures |SpacesOut(v)| <= |v| && (|SpacesOut(v)| == |v| <==> SPACE !in v) && (SPACE !in v ==> SpacesOut(v) == v)
    decreases |v|
  {
    if v != [] {
      SpacesOutIs(v[1..]);
      assert v == [v[0]] + v[1..];
    }
  }

  predicate NoSpaces(vs: seq<seq<byte>>) { forall i | 0 <= i < |vs| :: SPACE !in vs[i] }

  lemma {:induction false} SqueezedIs(vs: seq<seq<byte>>)
    ensures |SqueezedJoined(vs)| <= |SpaceJoined(vs)|
    ensures |SqueezedJoined(vs)| == |SpaceJoined(vs)| <==> NoSpaces(vs)
    ensures NoSpaces(vs) ==> SqueezedJoined(vs) == SpaceJoined(vs)
    decreases |vs|
  {
    hide SpacesOut;
    if vs != [] {
      SqueezedIs(vs[..|vs| - 1]);
      SpacesOutIs(vs[|vs| - 1]);
      assert NoSpaces(vs) <==> NoSpaces(vs[..|vs| - 1]) && SPACE !in vs[|vs| - 1] by {
        assert forall i | 0 <= i < |vs| - 1 :: vs[i] == vs[..|vs| - 1][i];
      }
    }
  }

  /** The value is what it is promised to be exactly when the first one is not blank or no later one holds a space. */
  lemma MergedRight(token: nat, vs: seq<seq<byte>>)
    requires token != GET_URI && vs != []
    ensures Merged(token, vs) == Strip(vs[0]) + SpaceJoined(vs[1..])
      <==> Strip(vs[0]) != [] || forall i | 1 <= i < |vs| :: SPACE !in vs[i]
  {
    hide Merged, Strip, SpaceJoined, SqueezedJoined;
    if Strip(vs[0]) != [] {
      MergedIs(token, vs);
    } else {
      MergedBlank(token, vs);
      SqueezedIs(vs[1..]);
      assert [] + SpaceJoined(vs[1..]) == SpaceJoined(vs[1..]);
      assert NoSpaces(vs[1..]) <==> forall i | 1 <= i < |vs| :: SPACE !in vs[i] by {
        assert forall i | 1 <= i < |vs| :: vs[i] == vs[1..][i - 1];
        assert forall i | 0 <= i < |vs| - 1 :: vs[1..][i] == vs[i + 1];
      }
    }
  }
}
