/** A client writes messages with libwebsocket_write; a server reads the byte stream. */
module WsExchange {
  import opened Words
  import opened Options
  import opened WsFrame
  import opened WsRx
  import opened WsSend
  import opened WsStep
  import opened WsRun
  import opened WsServer
  import opened RxLoop
  import opened RxFlow
  import opened WsDelivery

  /** One call of libwebsocket_write, with the key that the random device yields for it. */
  datatype Message = Message(protocol: Protocol, data: seq<byte>, key: Key)

  predicate Ordinary(m: Message) {
    && m.protocol.kind in {WriteText, WriteBinary, WriteContinuation, WritePing, WritePong}
    && 0 < |m.data| && |m.data| + 4 < INT_LIMIT && (m.protocol.kind in {WritePing, WritePong} ==> |m.data| < 126)
  }

  function FrameOf(m: Message): Frame
    requires Ordinary(m)
  {
    Frame(!m.protocol.noFin, Opcode(m.protocol.kind).value, Some(m.key), m.data)
  }

  function FramesOf(ms: seq<Message>): (fs: seq<Frame>)
    requires forall i | 0 <= i < |ms| :: Ordinary(ms[i])
    ensures |fs| == |ms| && forall i | 0 <= i < |ms| :: fs[i] == FrameOf(ms[i])
    decreases |ms|
  {
    if ms == [] then [] else FramesOf(ms[..|ms| - 1]) + [FrameOf(ms[|ms| - 1])]
  }

  lemma OpcodeLaws()
    ensures Nibble(TEXT) && Nibble(BINARY) && Nibble(CONTINUATION) && Nibble(PING) && Nibble(PONG)
    ensures !IsControl(TEXT) && !IsControl(BINARY) && !IsControl(CONTINUATION)
  {}

  lemma OrdinaryIsSendable(m: Message)
    requires Ordinary(m)
    ensures Sendable(FrameOf(m))
  {
    hide Nibble, IsControl;
    OpcodeLaws();
  }

  lemma {:induction false} WireAllNext(fs: seq<Frame>, f: Frame)
    ensures WireAll(fs + [f]) == WireAll(fs) + Wire(f)
    decreases |fs|
  {
    hide Wire;
    if fs == [] {
      assert fs + [f] == [f] && [f][1..] == [];
      assert WireAll([]) == [];
      assert Wire(f) + [] == [] + Wire(f);
    } else {
      assert (fs + [f])[0] == fs[0] && (fs + [f])[1..] == fs[1..] + [f];
      WireAllNext(fs[1..], f);
    }
  }

  method SendOne(m: Message, w: Writer) returns (sent: seq<byte>)
    requires Ordinary(m) && w.Valid() && w.client && w.established
    modifies w, w.nonce
    ensures w.Valid() && w.established && sent == Wire(FrameOf(m))
  {
    hide Wire;
    var buf := new byte[PRE_PADDING + |m.data| + POST_PADDING];
    forall i | 0 <= i < |m.data| {
      buf[PRE_PADDING + i] := m.data[i];
    }
    assert buf[PRE_PADDING..PRE_PADDING + |m.data|] == m.data;
    var ret;
    ret, sent := w.Write(buf, PRE_PADDING, |m.data|, m.protocol, Some(m.key));
  }

  method SendAll(ms: seq<Message>, w: Writer) returns (stream: seq<byte>)
    requires w.Valid() && w.client && w.established && forall i | 0 <= i < |ms| :: Ordinary(ms[i])
    modifies w, w.nonce
    ensures stream == WireAll(FramesOf(ms))
  {
    hide Wire, FrameOf, Ordinary;
    stream := [];
    for n := 0 to |ms|
      invariant w.Valid() && w.established && stream == WireAll(FramesOf(ms[..n]))
    {
      var sent := SendOne(ms[n], w);
      assert ms[..n + 1][..n] == ms[..n];
      WireAllNext(FramesOf(ms[..n]), FrameOf(ms[n]));
      stream := stream + sent;
    }
    assert ms[..|ms|] == ms;
  }

  lemma AllSendable(ms: seq<Message>)
    requires forall i | 0 <= i < |ms| :: Ordinary(ms[i])
    ensures forall i | 0 <= i < |ms| :: Sendable(FramesOf(ms)[i])
  {
    hide Ordinary, Sendable, FrameOf;
    forall i | 0 <= i < |ms|
      ensures Sendable(FramesOf(ms)[i])
    {
      OrdinaryIsSendable(ms[i]);
    }
  }

  /** What the messages should bring to the user on the other side: texts, binary data and continuations under the
      opcodes 1, 2 and 0. */
  function WantedBy(ms: seq<Message>): seq<Want>
    decreases |ms|
  {
    if ms == [] then []
    else
      var m := ms[|ms| - 1];
      WantedBy(ms[..|ms| - 1])
      + match m.protocol.kind
        case WriteText => [Want(1, !m.protocol.noFin, m.data)]
        case WriteBinary => [Want(2, !m.protocol.noFin, m.data)]
        case WriteContinuation => [Want(0, !m.protocol.noFin, m.data)]
        case _ => []
  }

  lemma {:induction false} WantedLast(fs: seq<Frame>, f: Frame)
    ensures WantedOf(fs + [f]) == WantedOf(fs) + WantedOf([f])
    decreases |fs|
  {
    if fs == [] {
      assert fs + [f] == [f] && WantedOf([]) == [];
    } else {
      assert (fs + [f])[0] == fs[0] && (fs + [f])[1..] == fs[1..] + [f];
      WantedLast(fs[1..], f);
    }
  }

  lemma WantedOne(m: Message)
    requires Ordinary(m)
    ensures WantedOf([FrameOf(m)]) == WantedBy([m])
  {
    assert [FrameOf(m)][1..] == [] && [m][..0] == [];
  }

  lemma {:induction false} WantedSame(ms: seq<Message>)
    requires forall i | 0 <= i < |ms| :: Ordinary(ms[i])
    ensures WantedOf(FramesOf(ms)) == WantedBy(ms)
    decreases |ms|
  {
    hide Ordinary, FrameOf, WantedOf;
    if ms == [] {
      NoneWanted();
    } else {
      var before, m := ms[..|ms| - 1], ms[|ms| - 1];
      WantedSame(before);
      WantedLast(FramesOf(before), FrameOf(m));
      WantedOne(m);
      assert [m][..0] == [];
    }
  }

  lemma NoneWanted()
    ensures WantedOf([]) == []
  {}

  /** A user who never calls flow control and keeps the connection. */
  ghost predicate Indifferent(acts: nat -> Act) { forall n :: Keeping(acts(n)) && acts(n).enables == [] }

  /** Every list of messages, with any keys, reaches the server in order: it shows their payloads in pieces of its
      buffer size with the right opcode and FIN, and waits for the next frame. */
  method Exchange(ms: seq<Message>, w: Writer, f: Flow, acts: nat -> Act) returns (ret: int)
    requires w.Valid() && w.client && w.established && forall i | 0 <= i < |ms| :: Ordinary(ms[i])
    requires f.Settled() && !f.closed && f.allow && f.rx.state == New && f.rx.head == 0 && Indifferent(acts)
    requires w.nonce != f.rx.nonce && w.nonce != f.rx.buffer
    modifies w, w.nonce, f, f.rx, f.rx.nonce, f.rx.buffer
    ensures f.rx.Valid() && ret == 0 && f.rx.state == New && f.rx.head == 0
    ensures f.events
      == old(f.events) + AllPieces(Server, FramesOf(ms), old(f.rx.frameIsBinary), Limit(f.rx.rxBufferSize))
    ensures BringsAll(Received(f.events[|old(f.events)|..]), WantedBy(ms), Limit(f.rx.rxBufferSize))
  {
    hide WireAll, AllPieces, Feed, Step, Ordinary, Sendable, FrameOf, Loop, Flow.Behind, Limit, Received, BringsAll,
         WantedBy;
    ghost var rx, limit := f.rx.View(), Limit(f.rx.rxBufferSize);
    var stream := SendAll(ms, w);
    var given := seq(|stream|, k requires 0 <= k < |stream| => acts(k));
    AllSendable(ms);
    ServerDelivers(rx, limit, FramesOf(ms), QUIET);
    Brought(rx, limit, ms);
    LoopTakesAll(rx, f.State(), limit, stream, given);
    FeedAppend(Server, f.start, limit, f.fed, stream, QUIET);
    assert stream[..|stream|] == stream;
    ret := f.Interpret(stream, given);
  }

  lemma Brought(rx: Rx, limit: nat, ms: seq<Message>)
    requires rx.state == New && rx.data == [] && limit > 0 && forall i | 0 <= i < |ms| :: Ordinary(ms[i])
    ensures BringsAll(Received(AllPieces(Server, FramesOf(ms), rx.binary, limit)), WantedBy(ms), limit)
  {
    hide Ordinary, FrameOf, Sendable, Feed, Received, BringsAll, WantedBy, WantedOf, AllPieces;
    AllSendable(ms);
    ServerDelivers(rx, limit, FramesOf(ms), QUIET);
    ServerBrings(rx, limit, FramesOf(ms), QUIET);
    WantedSame(ms);
  }

  /** The same with a user who pauses and resumes reception: the server has always shown a beginning of the pieces, and
      all of them once everything has gone in. */
  method ExchangeThrottled(ms: seq<Message>, w: Writer, f: Flow, turns: seq<Turn>, ghost first: nat)
    returns (taken: nat)
    requires w.Valid() && w.client && w.established && forall i | 0 <= i < |ms| :: Ordinary(ms[i])
    requires f.Settled() && !f.closed && f.received == [] && f.start.state == New && f.start.data == []
    requires forall i | 0 <= i < |turns| :: GoodTurn(turns[i]) && KeepingTurn(turns[i])
    requires w.nonce != f.rx.nonce && w.nonce != f.rx.buffer && w.nonce != f.rxflowBuffer
    modifies w, w.nonce, f, f.rx, f.rx.nonce, f.rx.buffer
    ensures f.Settled() && !f.closed
    ensures var all := WireAll(FramesOf(ms));
      var shown := AllPieces(Server, FramesOf(ms), f.start.binary, Limit(f.rx.rxBufferSize));
      && taken <= |all| && f.fed + f.Unread() == all[..taken] && f.events <= shown
      && (Resuming(turns, first, |all|) ==> f.fed == all)
      && (f.fed == all ==> f.events == shown && f.rx.state == New && f.rx.head == 0)
      && (f.fed == all ==> BringsAll(Received(f.events), WantedBy(ms), Limit(f.rx.rxBufferSize)))
  {
    hide WireAll, AllPieces, Feed, Step, Ordinary, Sendable, FrameOf, Limit, GoodTurn, KeepingTurn, Flow.Logged,
         Resuming, Received, BringsAll, WantedBy;
    var stream := SendAll(ms, w);
    AllSendable(ms);
    Brought(f.start, Limit(f.rx.rxBufferSize), ms);
    taken := Deliver(f, FramesOf(ms), stream, turns, first);
  }
}
