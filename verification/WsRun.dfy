/** What a frame does to the receive state machine, part by part: header, masking key, payload. */
module WsRun {
  import opened Words
  import opened Octets
  import opened SevenBit
  import opened WsFrame
  import opened WsRx
  import opened WsStep

  // ----- the header

  /** The machine behind the header of f. */
  function AfterHeader(side: Side, rx: Rx, f: Frame): Rx {
    FirstHeader(rx, FirstByte(f.opcode, f.fin)).(allZero := rx.allZero || side.Server?, masked := f.key.Some?,
      length := |f.payload|, state := if f.key.Some? then KeyByte(1) else Payload)
  }

  lemma FlagLaws(c: byte, flag: bool)
    requires Seven(c)
    ensures Low7(WithFlag(c, flag)) == c && TopBit(WithFlag(c, flag)) == flag
  {
    TopLaws(c);
  }

  lemma NoFlag(c: byte)
    ensures WithFlag(c, false) == c
  {}

  lemma SevenConstants()
    ensures Seven(126) && Seven(127)
  {}

  lemma ShortIs(n: nat)
    requires n < 126
    ensures Seven(ByteAt(n)) && ByteAt(n) != 126 && ByteAt(n) != 127 && Index(ByteAt(n)) == n
  {
    SevenByteAt(n);
    IndexByteAt(n);
    assert Index(126) == 126 && Index(127) == 127;
  }

  lemma StepLow(side: Side, rx: Rx, limit: nat, k: OneToEight, c: byte, env: Env)
    requires k < 8 && rx.state == Len64(k) && (k > 1 || OrOctet(rx.length, c, 0) > 0)
    ensures Step(side, rx, limit, c, env)
      == Out(rx.(length := OrOctet(rx.length, c, k - 1),
                 state := if k > 1 then Len64(k - 1) else if rx.masked then KeyByte(1) else Payload), 0, Nothing)
  {
    hide OrOctet, CollectKey, CollectData, LengthByte, Spill;
  }

  /** Len64(k) waits for octet k - 1 with the octets above it in place. */
  lemma {:induction false} LowOctets(side: Side, rx: Rx, limit: nat, n: nat, k: OneToEight, env: Env)
    requires k < 8 && rx.state == Len64(k) && rx.length == Shift8(n, k) * Pow256(k) && n > 0
    ensures Feed(side, rx, limit, OctetsFrom(n, k), env)
      == Trace(rx.(length := n, state := if rx.masked then KeyByte(1) else Payload), [], true, true)
    decreases k
  {
    hide OrOctet, Pow256, Shift8, Octet, Step, Feed;
    var c := Octet(n, k - 1);
    OctetInPlace(n, k - 1);
    Shift8Next(n, 0);
    PowOne();
    StepLow(side, rx, limit, k, c, env);
    if k > 1 {
      FeedQuiet(side, rx, limit, c, OctetsFrom(n, k - 1), env);
      LowOctets(side, Step(side, rx, limit, c, env).rx, limit, n, k - 1, env);
    } else {
      assert OctetsFrom(n, 1) == [c];
      FeedOne(side, rx, limit, c, env);
    }
  }

  lemma SevenIsLow(b: byte)
    requires Seven(b)
    ensures !TopBit(b)
  {}

  /** All eight octets of a length below 2^63. */
  lemma EightOctets(side: Side, rx: Rx, limit: nat, n: nat, env: Env)
    requires rx.state == Len64(8) && 0 < n < LIMIT63
    ensures Feed(side, rx, limit, OctetsFrom(n, 8), env)
      == Trace(rx.(length := n, state := if rx.masked then KeyByte(1) else Payload), [], true, true)
  {
    hide OrOctet, Pow256, Shift8, Seven, TopBit, Index, ByteAt, Feed, CollectKey, CollectData, LengthByte;
    TopOctet(n);
    SevenByteAt(Shift8(n, 7));
    SevenIsLow(Octet(n, 7));
    IndexByteAt(Shift8(n, 7));
    FeedQuiet(side, rx, limit, Octet(n, 7), OctetsFrom(n, 7), env);
    LowOctets(side, rx.(length := Shift8(n, 7) * Pow256(7), state := Len64(7)), limit, n, 7, env);
  }

  lemma StepLen16(side: Side, rx: Rx, limit: nat, c: byte, env: Env)
    ensures rx.state == Len16High ==> Step(side, rx, limit, c, env) == Out(Len16Start(rx, c), 0, Nothing)
    ensures rx.state == Len16Low ==>
      Step(side, rx, limit, c, env) == AfterLength(side, rx.(length := OrOctet(rx.length, c, 0)), env)
  {
    hide OrOctet, CollectKey, CollectData, LengthByte, Len16Start, AfterLength;
  }

  lemma Len16Value(n: nat)
    requires n < 65536
    ensures OrOctet(Index(Octet(n, 1)) * 256, Octet(n, 0), 0) == n
  {
    hide OrOctet, Pow256, Shift8, Index, ByteAt;
    Shift8Next(n, 0);
    IndexByteAt(Shift8(n, 1));
    PowOne();
    OctetInPlace(n, 0);
  }

  lemma TwoOctets(side: Side, rx: Rx, limit: nat, n: nat, env: Env)
    requires rx.state == Len16High && 0 < n < 65536
    ensures Feed(side, rx, limit, OctetsFrom(n, 2), env)
      == Trace(rx.(length := n, state := if rx.masked then KeyByte(1) else Payload), [], true, true)
  {
    hide OrOctet, Index, Octet, Feed, Step;
    var c, d := Octet(n, 1), Octet(n, 0);
    Len16Value(n);
    assert OctetsFrom(n, 1) == [d];
    assert OctetsFrom(n, 2) == [c] + [d];
    StepLen16(side, rx, limit, c, env);
    FeedQuiet(side, rx, limit, c, [d], env);
    var low := Len16Start(rx, c);
    StepLen16(side, low, limit, d, env);
    FeedOne(side, low, limit, d, env);
  }

  lemma ShortLength(side: Side, rx: Rx, limit: nat, n: nat, masked: bool, env: Env)
    requires rx.state == HdrLen && n < 126 && (side.Client? ==> n > 0 && !masked)
    ensures Step(side, rx, limit, WithFlag(ByteAt(n), masked), env)
      == Out(rx.(masked := masked, length := n, state := if masked then KeyByte(1) else Payload), 0, Nothing)
  {
    hide Index, ByteAt, WithFlag, Low7, TopBit, Seven, Spill;
    ShortIs(n);
    FlagLaws(ByteAt(n), masked);
    NoFlag(ByteAt(n));
  }

  lemma LengthMarker(side: Side, rx: Rx, limit: nat, masked: bool, env: Env)
    requires rx.state == HdrLen && !IsControl(rx.opcode)
    ensures Step(side, rx, limit, WithFlag(126, masked), env)
      == Out(rx.(masked := masked, state := Len16High), 0, Nothing)
    ensures Step(side, rx, limit, WithFlag(127, masked), env)
      == Out(rx.(masked := masked, state := Len64(8)), 0, Nothing)
  {
    hide Index, WithFlag, Low7, TopBit, Seven, IsControl;
    SevenConstants();
    FlagLaws(126, masked);
    FlagLaws(127, masked);
  }

  lemma LengthFed(side: Side, rx: Rx, limit: nat, n: nat, masked: bool, env: Env)
    requires rx.state == HdrLen && n < LIMIT63 && (IsControl(rx.opcode) ==> n < 126)
    requires side.Client? ==> n > 0 && (masked ==> n >= 126)
    ensures Feed(side, rx, limit, LengthField(n, masked), env)
      == Trace(rx.(masked := masked, length := n, state := if masked then KeyByte(1) else Payload), [], true, true)
  {
    hide OctetsFrom, ByteAt, Feed, Step, WithFlag, IsControl;
    if n < 126 {
      ShortLength(side, rx, limit, n, masked, env);
      FeedOne(side, rx, limit, WithFlag(ByteAt(n), masked), env);
    } else {
      LengthMarker(side, rx, limit, masked, env);
      if n < 65536 {
        FeedQuiet(side, rx, limit, WithFlag(126, masked), OctetsFrom(n, 2), env);
        TwoOctets(side, rx.(masked := masked, state := Len16High), limit, n, env);
      } else {
        FeedQuiet(side, rx, limit, WithFlag(127, masked), OctetsFrom(n, 8), env);
        EightOctets(side, rx.(masked := masked, state := Len64(8)), limit, n, env);
      }
    }
  }

  /** All three length encodings bring the machine to the same place. */
  lemma HeaderFed(side: Side, rx: Rx, limit: nat, f: Frame, env: Env)
    requires rx.state == New && Legal(f)
    requires side.Client? ==> f.payload != [] && (f.key.Some? ==> |f.payload| >= 126)
    ensures Feed(side, rx, limit, Header(f), env) == Trace(AfterHeader(side, rx, f), [], true, true)
  {
    hide LengthField, Feed, OpOf, RsvOf, FinOf, FirstByte, IsControl, CollectKey, CollectData, LengthByte, Nibble;
    var c := FirstByte(f.opcode, f.fin);
    FirstByteLaws(f.opcode, f.fin);
    FeedQuiet(side, rx, limit, c, LengthField(|f.payload|, f.key.Some?), env);
    LengthFed(side, Step(side, rx, limit, c, env).rx, limit, |f.payload|, f.key.Some?, env);
  }

  // ----- the masking key

  predicate ZeroFrom(k: Key, j: nat) {
    forall i | j <= i < 4 :: k[i] == 0
  }

  lemma ZeroKeyMasks(k: Key, i: nat, p: seq<byte>)
    requires ZeroFrom(k, 0)
    ensures Masked(k, i, p) == p
  {
    hide Mix;
    forall j | 0 <= j < |p|
      ensures Masked(k, i, p)[j] == p[j]
    {
      MixTwice(p[j], 0);
    }
  }

  lemma KeyStep(side: Side, rx: Rx, limit: nat, j: OneToFour, c: byte, env: Env)
    requires rx.state == KeyByte(j) && rx.length > 0
    ensures Step(side, rx, limit, c, env)
      == Out(rx.(nonce := rx.nonce[j - 1 := c], allZero := rx.allZero && c == 0,
                 state := if j < 4 then KeyByte(j + 1) else Payload,
                 maskIndex := if j < 4 || side.Client? then rx.maskIndex else 0), 0, Nothing)
  {
    hide Spill;
  }

  /** The key bytes from place j on, of a frame that has data; only the server starts the mask index anew. */
  lemma {:induction false} KeyFed(side: Side, rx: Rx, limit: nat, k: Key, j: nat, env: Env)
    requires j < 4 && rx.state == KeyByte(j + 1) && rx.length > 0 && rx.nonce[..j] == k[..j]
    ensures Feed(side, rx, limit, k[j..], env)
      == Trace(rx.(nonce := k, allZero := rx.allZero && ZeroFrom(k, j), state := Payload,
                   maskIndex := if side.Client? then rx.maskIndex else 0), [], true, false)
    decreases 4 - j
  {
    hide Feed, Step;
    KeyStep(side, rx, limit, j + 1, k[j], env);
    var next := Step(side, rx, limit, k[j], env).rx;
    assert k[j..][1..] == k[j + 1..];
    FeedFirst(side, rx, limit, k[j..], env);
    if j < 3 {
      KeyFed(side, next, limit, k, j + 1, env);
    } else {
      FeedNone(side, next, limit, env);
      assert next.nonce == k;
    }
  }

  // ----- the payload

  /** What one spill of a frame produces. */
  function Shown(side: Side, op: byte, fin: bool, binary: bool, chunk: seq<byte>, remaining: nat): seq<Event> {
    if op == PING then [SendPong(chunk)]
    else if op == PONG && side.Client? then [ReceivePong(chunk)]
    else if IsData(op) then [Receive(chunk, op, fin, binary, remaining)]
    else []
  }

  /** A payload arrives in pieces of the buffer size, the last one shorter or equal. */
  function Pieces(side: Side, op: byte, fin: bool, binary: bool, p: seq<byte>, limit: nat): seq<Event>
    requires limit > 0
    decreases |p|
  {
    if |p| <= limit then Shown(side, op, fin, binary, p, 0)
    else Shown(side, op, fin, binary, p[..limit], |p| - limit) + Pieces(side, op, fin, binary, p[limit..], limit)
  }

  /** s is the wire form of p, from byte i of the frame on, that the machine in state rx undoes. */
  predicate Undoes(side: Side, rx: Rx, i: nat, s: seq<byte>, p: seq<byte>) {
    if Raw(side, rx) then s == p else s == Masked(rx.nonce, i, p) && Slot(rx.maskIndex) == i % 4
  }

  /** No pong of the client's own comes into the middle of a masked frame. */
  predicate Clear(side: Side, rx: Rx) { side.Client? && rx.masked ==> rx.opcode != PING }

  predicate Willing(env: Env) { env.callback >= 0 && env.write >= 0 }

  /** Everything but the fields that a client's pong changes. */
  predicate Alike(side: Side, a: Rx, b: Rx) {
    if side.Server? || b.opcode != PING then a == b else a == b.(nonce := a.nonce, maskIndex := a.maskIndex)
  }

  lemma SpillShows(side: Side, rx: Rx, env: Env)
    requires rx.opcode != CLOSE && rx.data != [] && Willing(env)
    ensures var o := Spill(side, rx, env);
      && o.ret >= 0 && Alike(side, o.rx, rx.(data := []))
      && Noted(o.event) == Shown(side, rx.opcode, rx.final, rx.binary, rx.data, rx.length)
  {}

  /** The byte stored is the next payload byte, and the rest of the wire form is undone from there on. */
  lemma PlainIs(side: Side, rx: Rx, i: nat, s: seq<byte>, p: seq<byte>)
    requires p != [] && |s| == |p| && Undoes(side, rx, i, s, p)
    ensures Plain(side, rx, s[0]) == p[0]
  {
    hide Mix, Masked, Slot;
    if !Raw(side, rx) {
      MaskedNext(rx.nonce, i, p);
      MixTwice(p[0], rx.nonce[i % 4]);
    }
  }

  lemma UndoesNext(side: Side, rx: Rx, next: Rx, i: nat, s: seq<byte>, p: seq<byte>)
    requires p != [] && |s| == |p| && Undoes(side, rx, i, s, p) && Clear(side, rx)
    requires next.allZero == rx.allZero && next.masked == rx.masked
    requires side.Server? || rx.opcode != PING ==> next.nonce == rx.nonce && next.maskIndex == NextIndex(side, rx)
    ensures Undoes(side, next, i + 1, s[1..], p[1..])
  {
    hide Mix, Masked, Slot;
    if !Raw(side, rx) {
      MaskedNext(rx.nonce, i, p);
      SlotNext(rx.maskIndex);
      SlotOfNext(i);
    }
  }

  /** The state behind a stored byte b: the data is gone when the frame is complete or the buffer full. */
  function Moved(side: Side, rx: Rx, limit: nat, b: byte): Rx
    requires rx.length > 0
  {
    rx.(maskIndex := NextIndex(side, rx), length := rx.length - 1,
        data := if rx.length == 1 || |rx.data| + 1 == limit then [] else rx.data + [b],
        state := if rx.length == 1 then New else rx.state)
  }

  predicate Collected(side: Side, rx: Rx, limit: nat, b: byte, o: Out)
    requires rx.length > 0
  {
    && o.ret >= 0 && Alike(side, o.rx, Moved(side, rx, limit, b))
    && Noted(o.event)
       == if rx.length == 1 || |rx.data| + 1 == limit then
            Shown(side, rx.opcode, rx.final, rx.binary, rx.data + [b], rx.length - 1)
          else []
  }

  lemma DataStep(side: Side, rx: Rx, limit: nat, c: byte, env: Env)
    requires rx.state == Payload && rx.opcode != CLOSE && Willing(env) && rx.length > 0
    ensures Collected(side, rx, limit, Plain(side, rx, c), Step(side, rx, limit, c, env))
  {
    hide Shown, CollectKey, LengthByte, Spill, Willing, Plain, NextIndex;
    var full := rx.(data := rx.data + [Plain(side, rx, c)], maskIndex := NextIndex(side, rx), length := rx.length - 1);
    SpillShows(side, full, env);
    SpillShows(side, full.(state := New), env);
  }

  lemma PiecesNext(side: Side, op: byte, fin: bool, binary: bool, pre: seq<byte>, p: seq<byte>, limit: nat)
    requires |pre| < limit && p != []
    ensures var data := pre + [p[0]];
      Pieces(side, op, fin, binary, pre + p, limit)
        == if |p| == 1 then Shown(side, op, fin, binary, data, 0)
           else if |data| == limit then
             Shown(side, op, fin, binary, data, |p| - 1) + Pieces(side, op, fin, binary, [] + p[1..], limit)
           else Pieces(side, op, fin, binary, data + p[1..], limit)
  {
    hide Shown;
    var all, data := pre + p, pre + [p[0]];
    assert all == data + p[1..];
    if |p| == 1 {
      assert all == data;
    } else if |data| == limit {
      assert all[..limit] == data && all[limit..] == [] + p[1..];
    }
  }

  /** What is left of rx when its frame is done. */
  function Done(rx: Rx, t: Rx): Rx {
    rx.(state := New, data := [], length := 0, maskIndex := t.maskIndex, nonce := t.nonce, allZero := t.allZero)
  }

  lemma AlikeKeeps(side: Side, a: Rx, b: Rx)
    requires Alike(side, a, b)
    ensures a.state == b.state && a.length == b.length && a.data == b.data && a.masked == b.masked
    ensures a.allZero == b.allZero
    ensures side.Server? || b.opcode != PING ==> a == b
    ensures a == b.(nonce := a.nonce, maskIndex := a.maskIndex)
  {}

  lemma CollectedIs(side: Side, rx: Rx, limit: nat, b: byte, o: Out)
    requires rx.state == Payload && rx.length > 0 && |rx.data| < limit && Collected(side, rx, limit, b, o)
    ensures o.ret >= 0 && Done(rx, o.rx) == Done(o.rx, o.rx) && o.rx.masked == rx.masked && o.rx.allZero == rx.allZero
    ensures side.Server? || rx.opcode != PING ==> o.rx.nonce == rx.nonce && o.rx.maskIndex == NextIndex(side, rx)
    ensures o.rx.length == rx.length - 1 && o.rx.state == (if rx.length == 1 then New else Payload)
    ensures rx.length == 1 ==> o.rx == Done(rx, o.rx)
    ensures o.rx.data == if rx.length == 1 || |rx.data| + 1 == limit then [] else rx.data + [b]
    ensures Noted(o.event)
      == if rx.length == 1 || |rx.data| + 1 == limit then
           Shown(side, rx.opcode, rx.final, rx.binary, rx.data + [b], rx.length - 1)
         else []
  {
    hide Shown, NextIndex, Alike, Noted;
    AlikeKeeps(side, o.rx, Moved(side, rx, limit, b));
  }

  /** One byte of the payload, seen from the whole of it. */
  lemma DataNext(side: Side, rx: Rx, limit: nat, i: nat, s: seq<byte>, p: seq<byte>, env: Env)
    requires rx.state == Payload && rx.opcode != CLOSE && Willing(env) && Clear(side, rx)
    requires |rx.data| < limit && p != [] && rx.length == |p| && |s| == |p| && Undoes(side, rx, i, s, p)
    ensures var o := Step(side, rx, limit, s[0], env);
      var all := Pieces(side, rx.opcode, rx.final, rx.binary, rx.data + p, limit);
      && o.ret >= 0 && Done(rx, o.rx) == Done(o.rx, o.rx)
      && (if |p| == 1 then o.rx == Done(rx, o.rx) && all == Noted(o.event)
          else
            && o.rx.state == Payload && |o.rx.data| < limit && o.rx.length == |p| - 1
            && Undoes(side, o.rx, i + 1, s[1..], p[1..])
            && all == Noted(o.event) + Pieces(side, rx.opcode, rx.final, rx.binary, o.rx.data + p[1..], limit))
  {
    hide Step, Shown, Undoes, Willing, Plain, NextIndex, Pieces, Collected, Done, Noted;
    DataStep(side, rx, limit, s[0], env);
    CollectedIs(side, rx, limit, Plain(side, rx, s[0]), Step(side, rx, limit, s[0], env));
    PlainIs(side, rx, i, s, p);
    PiecesNext(side, rx.opcode, rx.final, rx.binary, rx.data, p, limit);
    UndoesNext(side, rx, Step(side, rx, limit, s[0], env).rx, i, s, p);
  }

  /** The rest of a frame whose first bytes wait in the buffer. */
  lemma {:induction false} DataFed(side: Side, rx: Rx, limit: nat, i: nat, s: seq<byte>, p: seq<byte>, env: Env)
    requires rx.state == Payload && rx.opcode != CLOSE && Willing(env) && Clear(side, rx)
    requires |rx.data| < limit && p != [] && rx.length == |p| && |s| == |p| && Undoes(side, rx, i, s, p)
    ensures var t := Feed(side, rx, limit, s, env);
      && t.ok && t.rx == Done(rx, t.rx) && t.keyless == !rx.masked
      && t.events == Pieces(side, rx.opcode, rx.final, rx.binary, rx.data + p, limit)
    decreases |p|
  {
    hide Step, Undoes, Willing, Pieces, Feed, Noted;
    DataNext(side, rx, limit, i, s, p, env);
    FeedFirst(side, rx, limit, s, env);
    var o := Step(side, rx, limit, s[0], env);
    if |p| == 1 {
      assert s[1..] == [];
      FeedNone(side, o.rx, limit, env);
    } else {
      DataFed(side, o.rx, limit, i + 1, s[1..], p[1..], env);
    }
  }

  // ----- whole frames

  /** frame_is_binary behind the header of f. */
  function Binary(before: bool, f: Frame): bool {
    if f.opcode == TEXT then false else if f.opcode == BINARY then true else before
  }

  lemma HeaderShows(side: Side, rx: Rx, f: Frame)
    requires Legal(f)
    ensures AfterHeader(side, rx, f)
      == rx.(state := if f.key.Some? then KeyByte(1) else Payload, opcode := f.opcode, rsv := 0, final := f.fin,
             binary := Binary(rx.binary, f), masked := f.key.Some?, allZero := rx.allZero || side.Server?,
             length := |f.payload|)
  {
    hide OpOf, RsvOf, FinOf, FirstByte, IsControl, Nibble;
    FirstByteLaws(f.opcode, f.fin);
  }

  predicate Sendable(f: Frame) { Legal(f) && f.opcode != CLOSE && f.payload != [] }

  /** What a list of frames shows, each in its pieces. */
  function AllPieces(side: Side, fs: seq<Frame>, binary: bool, limit: nat): seq<Event>
    requires limit > 0
    decreases |fs|
  {
    if fs == [] then []
    else
      var b := Binary(binary, fs[0]);
      Pieces(side, fs[0].opcode, fs[0].fin, b, fs[0].payload, limit) + AllPieces(side, fs[1..], b, limit)
  }

  // ----- what the pieces are

  function DataOf(e: Event): seq<byte> {
    match e
    case Nothing => []
    case Receive(d, _, _, _, _) => d
    case ReceivePong(d) => d
    case SendPong(d) => d
    case SendClose(d) => d
  }

  function Joined(es: seq<Event>): seq<byte>
    decreases |es|
  {
    if es == [] then [] else DataOf(es[0]) + Joined(es[1..])
  }

  /** Piece k of a data frame: its opcode and FIN, at most a buffer full of data, and how much is still to come. */
  predicate Carries(es: seq<Event>, k: nat, op: byte, fin: bool, binary: bool, limit: nat)
    requires k < |es|
  {
    && es[k].Receive? && 0 < |es[k].data| <= limit && es[k].opcode == op && es[k].final == fin && es[k].binary == binary
    && es[k].remaining == |Joined(es[k + 1..])|
  }

  lemma CarriesLater(e: Event, es: seq<Event>, k: nat, op: byte, fin: bool, binary: bool, limit: nat)
    requires k < |es| && Carries(es, k, op, fin, binary, limit)
    ensures Carries([e] + es, k + 1, op, fin, binary, limit)
  {
    hide Joined;
    var fs := [e] + es;
    assert fs[k + 1] == es[k] && fs[k + 2..] == es[k + 1..];
  }

  /** The pieces of a data frame make up exactly its payload. */
  lemma {:induction false} PiecesCarry(side: Side, op: byte, fin: bool, binary: bool, p: seq<byte>, limit: nat)
    requires limit > 0 && IsData(op) && p != []
    ensures var es := Pieces(side, op, fin, binary, p, limit);
      Joined(es) == p && es != [] && forall k | 0 <= k < |es| :: Carries(es, k, op, fin, binary, limit)
    decreases |p|
  {
    hide IsData, Shown;
    if |p| <= limit {
      DataShown(side, op, fin, binary, p, 0);
      OnePiece(Receive(p, op, fin, binary, 0), op, fin, binary, limit);
    } else {
      PiecesCarry(side, op, fin, binary, p[limit..], limit);
      var rest := Pieces(side, op, fin, binary, p[limit..], limit);
      var e := Receive(p[..limit], op, fin, binary, |p| - limit);
      DataShown(side, op, fin, binary, p[..limit], |p| - limit);
      MorePieces(e, rest, op, fin, binary, limit);
      assert p[..limit] + p[limit..] == p;
    }
  }

  lemma OnePiece(e: Event, op: byte, fin: bool, binary: bool, limit: nat)
    requires e.Receive? && 0 < |e.data| <= limit && e.opcode == op && e.final == fin && e.binary == binary
    requires e.remaining == 0
    ensures Joined([e]) == e.data && Carries([e], 0, op, fin, binary, limit)
  {
    assert [e][1..] == [];
    assert Joined([]) == [];
    assert e.data + [] == e.data;
  }

  lemma MorePieces(e: Event, rest: seq<Event>, op: byte, fin: bool, binary: bool, limit: nat)
    requires e.Receive? && 0 < |e.data| <= limit && e.opcode == op && e.final == fin && e.binary == binary
    requires e.remaining == |Joined(rest)| && forall k | 0 <= k < |rest| :: Carries(rest, k, op, fin, binary, limit)
    ensures Joined([e] + rest) == e.data + Joined(rest)
    ensures forall k | 0 <= k < |rest| + 1 :: Carries([e] + rest, k, op, fin, binary, limit)
  {
    var es := [e] + rest;
    assert es[1..] == rest;
    hide Joined, Carries;
    forall k | 0 <= k < |es|
      ensures Carries(es, k, op, fin, binary, limit)
    {
      if k > 0 {
        CarriesLater(e, rest, k - 1, op, fin, binary, limit);
      } else {
        FirstCarries(e, rest, op, fin, binary, limit);
      }
    }
  }

  lemma FirstCarries(e: Event, rest: seq<Event>, op: byte, fin: bool, binary: bool, limit: nat)
    requires e.Receive? && 0 < |e.data| <= limit && e.opcode == op && e.final == fin && e.binary == binary
    requires e.remaining == |Joined(rest)|
    ensures Carries([e] + rest, 0, op, fin, binary, limit)
  {
    hide Joined;
    assert ([e] + rest)[1..] == rest;
  }

  lemma DataShown(side: Side, op: byte, fin: bool, binary: bool, chunk: seq<byte>, remaining: nat)
    requires IsData(op)
    ensures Shown(side, op, fin, binary, chunk, remaining) == [Receive(chunk, op, fin, binary, remaining)]
  {}
}
