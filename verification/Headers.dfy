/** libwebsocket_parse on values: the header fragments it collects from a stream of characters. */
module Headers {
  import opened Words
  import opened Options
  import opened SevenBit
  import opened Lextable

  // tokens: their numbers are the indexes of the names in the byte table
  const GET_URI: nat := 0
  const ORIGIN: nat := 7
  const CHALLENGE: nat := 9
  const SWORIGIN: nat := 12
  const HTTP: nat := 16
  /** How many names the table knows, and how many tokens have storage. */
  const NAMES: nat := 17
  const TOKENS: nat := 23

  const SPACE: byte := 0x20
  const CR: byte := 0x0d
  const LF: byte := 0x0a

  /** Sizes of struct allocated_headers: fragment 0 is never used. */
  const MAX_FRAGS: nat := 46
  const ARENA: nat := 1024

  /** parser_state; a name part carries lextable_pos. */
  datatype PState = Value(token: nat) | NamePart(lex: nat) | Skipping | SawCr | Complete

  datatype Frag = Frag(owner: nat, text: seq<byte>)

  datatype Hdr = Hdr(state: PState, frags: seq<Frag>)

  const START := Hdr(NamePart(0), [])

  /** A table as minilex compiles it for the names. */
  ghost predicate NameTable(t: seq<byte>, names: seq<seq<byte>>) {
    && |names| == NAMES && Closed(t) && Place(t, 0)
    && (forall p: nat | Place(t, p) && t[p + 1] == 0 :: Index(Low7(t[p])) < NAMES)
    && (forall s, i: nat :: Run(t, 0, s) == Some(i) <==> s != [] && i < |names| && names[i] <= s)
  }

  /** Arena bytes of fragments that all have their terminator. */
  function Used(frags: seq<Frag>): nat
    decreases |frags|
  {
    if frags == [] then 0 else Used(frags[..|frags| - 1]) + |frags[|frags| - 1].text| + 1
  }

  /** The first fragment of a token from place k on. */
  function From(frags: seq<Frag>, k: nat, token: nat): (r: Option<nat>)
    requires k <= |frags|
    ensures r.Some? ==> k <= r.value < |frags| && frags[r.value].owner == token
    ensures r.Some? ==> forall j | k <= j < r.value :: frags[j].owner != token
    ensures r.None? ==> forall j | k <= j < |frags| :: frags[j].owner != token
    decreases |frags| - k
  {
    if k == |frags| then None else if frags[k].owner == token then Some(k) else From(frags, k + 1, token)
  }

  predicate Has(frags: seq<Frag>, token: nat) { From(frags, 0, token).Some? }

  ghost predicate Sound(t: seq<byte>, h: Hdr) {
    && Closed(t) && (forall p: nat | Place(t, p) && t[p + 1] == 0 :: Index(Low7(t[p])) < NAMES)
    && |h.frags| < MAX_FRAGS && Pos(h) <= ARENA
    && (match h.state
        case Value(k) => k < NAMES && h.frags != [] && h.frags[|h.frags| - 1].owner == k
        case NamePart(lex) => Place(t, lex)
        case _ => true)
  }

  /** pos: the fragment of an unfinished value has no terminator yet. */
  function Pos(h: Hdr): int { Used(h.frags) - (if h.state.Value? then 1 else 0) }

  function Longer(frags: seq<Frag>, c: byte): seq<Frag>
    requires frags != []
  {
    var last := frags[|frags| - 1];
    frags[..|frags| - 1] + [Frag(last.owner, last.text + [c])]
  }

  function StepValue(h: Hdr, c: byte): Option<Hdr>
    requires h.state.Value? && Has(h.frags, h.state.token) && h.frags != []
  {
    var k := h.state.token;
    if h.frags[From(h.frags, 0, k).value].text == [] && c == SPACE then Some(h)
    else if Pos(h) == ARENA then None
    else if k == GET_URI && c == SPACE then Some(h.(state := Skipping))
    else if c == CR then Some(h.(state := SawCr))
    else Some(h.(frags := Longer(h.frags, c)))
  }

  function StartFragment(frags: seq<Frag>, token: nat): Option<Hdr> {
    if |frags| + 1 == MAX_FRAGS then None
    else if !Has(frags, token) then Some(Hdr(Value(token), frags + [Frag(token, [])]))
    else if Used(frags) == ARENA then None
    else Some(Hdr(Value(token), frags + [Frag(token, [SPACE])]))
  }

  /** A complete name: the obsolete origin header counts as the new one. */
  function Named(h: Hdr, n: nat): Option<Hdr> {
    if n == GET_URI && Has(h.frags, GET_URI) then None
    else
      var token := if n == SWORIGIN then ORIGIN else n;
      if token == CHALLENGE then Some(h.(state := Complete)) else StartFragment(h.frags, token)
  }

  function StepName(t: seq<byte>, h: Hdr, c: byte): Option<Hdr>
    requires h.state.NamePart? && Closed(t) && Place(t, h.state.lex)
  {
    match Decode(t, h.state.lex, c)
    case None => if Has(h.frags, GET_URI) || Has(h.frags, HTTP) then Some(h.(state := Skipping)) else None
    case Some(p) => if t[p + 1] == 0 then Named(h, Index(Low7(t[p]))) else Some(h.(state := NamePart(p)))
  }

  lemma OwnerHas(frags: seq<Frag>, k: nat)
    requires k < |frags|
    ensures Has(frags, frags[k].owner)
  {}

  /** One character; None is the return value -1. */
  function Step(t: seq<byte>, h: Hdr, c: byte): Option<Hdr>
    requires Sound(t, h)
  {
    match h.state
    case Value(_) => OwnerHas(h.frags, |h.frags| - 1); StepValue(h, c)
    case NamePart(_) => StepName(t, h, c)
    case Skipping => Some(if c == CR then h.(state := SawCr) else h)
    case SawCr => Some(h.(state := if c == LF then NamePart(0) else Skipping))
    case Complete => Some(h)
  }

  lemma UsedLonger(frags: seq<Frag>, c: byte)
    requires frags != []
    ensures Used(Longer(frags, c)) == Used(frags) + 1
  {
    var n := |frags| - 1;
    assert Longer(frags, c)[..n] == frags[..n];
  }

  lemma UsedMore(frags: seq<Frag>, f: Frag)
    ensures Used(frags + [f]) == Used(frags) + |f.text| + 1
  {
    assert (frags + [f])[..|frags|] == frags;
  }

  lemma StepKeeps(t: seq<byte>, h: Hdr, c: byte)
    requires Sound(t, h) && Place(t, 0) && Step(t, h, c).Some?
    ensures Sound(t, Step(t, h, c).value)
  {
    hide Closed, Decode, Has, From, Used, Low7, Index, Longer;
    if h.state.Value? {
      UsedLonger(h.frags, c);
      LongerOwner(h.frags, c);
    } else if h.state.NamePart? {
      var r := Decode(t, h.state.lex, c);
      if r.Some? && t[r.value + 1] == 0 {
        var n := Index(Low7(t[r.value]));
        var token := if n == SWORIGIN then ORIGIN else n;
        UsedMore(h.frags, Frag(token, []));
        UsedMore(h.frags, Frag(token, [SPACE]));
      }
    }
  }

  lemma LongerOwner(frags: seq<Frag>, c: byte)
    requires frags != []
    ensures |Longer(frags, c)| == |frags| && Longer(frags, c)[|frags| - 1].owner == frags[|frags| - 1].owner
  {}
}
