/** A client connection that receives and writes in turns, both directions sharing the nonce and the mask index. */
module WsClientRun {
  import opened Words
  import opened Options
  import opened WsFrame
  import opened WsRx
  import opened WsSend
  import opened WsStep
  import opened WsClient
  import opened WsClientConn
  import opened WsExchange
  import opened WsDelivery

  /** A received byte, with the random bytes for an answer to it, or a call of libwebsocket_write with those for it. */
  datatype Deed =
    | Take(c: byte, random: Option<Key>)
    | Give(data: seq<byte>, protocol: Protocol, random: Option<Key>)

  predicate Doable(d: Deed) { d.Give? ==> |d.data| + 6 < INT_LIMIT }

  function Taken(ds: seq<Deed>): seq<byte>
    decreases |ds|
  {
    if ds == [] then [] else (if ds[0].Take? then [ds[0].c] else []) + Taken(ds[1..])
  }

  /** The write stands for a frame, and there are random bytes for whatever is sent. */
  predicate Regular(d: Deed) {
    d.random.Some? && (d.Give? ==> Ordinary(Message(d.protocol, d.data, d.random.value)))
  }

  predicate AllRegular(ds: seq<Deed>) { forall i | 0 <= i < |ds| :: Regular(ds[i]) }

  /** What the client sends: its own messages and the pongs, in the order of the deeds. */
  function Outgoing(a: Rx, limit: nat, ds: seq<Deed>): seq<Frame>
    requires AllRegular(ds)
    decreases |ds|
  {
    if ds == [] then []
    else
      assert Regular(ds[0]);
      match ds[0]
      case Give(data, protocol, random) =>
        [FrameOf(Message(protocol, data, random.value))] + Outgoing(a, limit, ds[1..])
      case Take(c, random) =>
        var o := Step(Client, a, limit, c, IDLE);
        (if o.event.SendPong? then [Frame(true, PONG, random, o.event.data)] else []) + Outgoing(o.rx, limit, ds[1..])
  }

  lemma OutgoingGive(a: Rx, limit: nat, ds: seq<Deed>)
    requires AllRegular(ds) && ds != [] && ds[0].Give?
    ensures AllRegular(ds[1..]) && Regular(ds[0])
    ensures WireAll(Outgoing(a, limit, ds))
      == Wire(FrameOf(Message(ds[0].protocol, ds[0].data, ds[0].random.value))) + WireAll(Outgoing(a, limit, ds[1..]))
  {
    hide Wire, FrameOf, Step, Ordinary;
    assert Regular(ds[0]);
    WireAllFirst(FrameOf(Message(ds[0].protocol, ds[0].data, ds[0].random.value)), Outgoing(a, limit, ds[1..]));
  }

  lemma OutgoingTake(a: Rx, limit: nat, ds: seq<Deed>)
    requires AllRegular(ds) && ds != [] && ds[0].Take?
    ensures AllRegular(ds[1..]) && ds[0].random.Some?
    ensures var o := Step(Client, a, limit, ds[0].c, IDLE);
      WireAll(Outgoing(a, limit, ds))
        == (if o.event.SendPong? then Wire(Frame(true, PONG, ds[0].random, o.event.data)) else [])
           + WireAll(Outgoing(o.rx, limit, ds[1..]))
  {
    hide Wire, FrameOf, Step, Ordinary;
    assert Regular(ds[0]);
    var o := Step(Client, a, limit, ds[0].c, IDLE);
    if o.event.SendPong? {
      WireAllFirst(Frame(true, PONG, ds[0].random, o.event.data), Outgoing(o.rx, limit, ds[1..]));
    } else {
      assert [] + Outgoing(o.rx, limit, ds[1..]) == Outgoing(o.rx, limit, ds[1..]);
    }
  }

  lemma WireAllFirst(f: Frame, fs: seq<Frame>)
    ensures WireAll([f] + fs) == Wire(f) + WireAll(fs)
  {
    hide Wire;
    assert ([f] + fs)[0] == f && ([f] + fs)[1..] == fs;
  }

  /** After sent there is still to come what the deeds from a on send. */
  predicate StillTo(all: seq<byte>, sent: seq<byte>, a: Rx, limit: nat, ds: seq<Deed>) {
    AllRegular(ds) && all == sent + WireAll(Outgoing(a, limit, ds))
  }

  lemma SentMore(sent: seq<byte>, more: seq<byte>, all: seq<byte>, regular: bool, a: Rx, limit: nat, ds: seq<Deed>)
    requires regular ==> AllRegular(ds) && all == sent + (more + WireAll(Outgoing(a, limit, ds)))
    ensures regular ==> StillTo(all, sent + more, a, limit, ds)
  {
    if regular {
      assert sent + (more + WireAll(Outgoing(a, limit, ds))) == sent + more + WireAll(Outgoing(a, limit, ds));
    }
  }

  const IDLE := Env(0, 0, [0, 0, 0, 0], 0)

  /** The connection is where machine a is, which nobody writes from, but for the key fields. */
  ghost predicate Follows(conn: ClientConn, a: Rx)
    reads conn, conn.tx, conn.tx.nonce, conn.buffer
  {
    conn.Valid() && conn.head < Limit(conn.rxBufferSize) && conn.View() == With(a, conn.tx.nonce[..], conn.tx.maskIndex)
  }

  /** Bytes s are accepted from a on, without a step that uses the key, and show es. */
  predicate Ahead(a: Rx, limit: nat, s: seq<byte>, es: seq<Event>, end: Rx) {
    var t := Feed(Client, a, limit, s, IDLE);
    t.ok && t.keyless && t.events == es && t.rx == end
  }

  lemma AheadNext(a: Rx, limit: nat, s: seq<byte>, es: seq<Event>, end: Rx)
    requires s != [] && Ahead(a, limit, s, es, end)
    ensures var o := Step(Client, a, limit, s[0], IDLE);
      && Keyless(a) && o.ret >= 0 && Noted(o.event) <= es
      && Ahead(o.rx, limit, s[1..], es[|Noted(o.event)|..], end)
  {
    hide Step, Feed, Keyless;
    var o := Step(Client, a, limit, s[0], IDLE);
    if o.ret < 0 {
      FeedStop(Client, a, limit, s, IDLE);
    } else {
      FeedFirst(Client, a, limit, s, IDLE);
      var t := Feed(Client, o.rx, limit, s[1..], IDLE);
      assert (Noted(o.event) + t.events)[|Noted(o.event)|..] == t.events;
    }
  }

  /** One received byte: the connection follows the undisturbed machine through the step. */
  method TakeByte(conn: ClientConn, c: byte, random: Option<Key>, ghost a: Rx) returns (event: Event, sent: seq<byte>)
    requires Follows(conn, a) && Keyless(a) && Step(Client, a, Limit(conn.rxBufferSize), c, IDLE).ret >= 0
    modifies conn, conn.tx, conn.tx.nonce, conn.buffer
    ensures var o := Step(Client, a, Limit(conn.rxBufferSize), c, IDLE); Follows(conn, o.rx) && event == o.event
    ensures conn.tx.established == old(conn.tx.established)
    ensures !event.SendPong? ==> sent == []
    ensures event.SendPong? && random.Some? && conn.tx.established ==>
      sent == Wire(Frame(true, PONG, random, event.data))
  {
    hide Step, Keyless, ClientConn.Valid, Wire;
    ghost var limit, k, m := Limit(conn.rxBufferSize), conn.tx.nonce[..], conn.tx.maskIndex;
    var ret;
    ret, event, sent := conn.RxSm(c, random);
    StepAlike(a, k, m, limit, c, IDLE, conn.Left());
  }

  /** A write of the client's own, which only changes the key fields. */
  method GiveData(conn: ClientConn, data: seq<byte>, protocol: Protocol, random: Option<Key>, ghost a: Rx)
    returns (sent: seq<byte>)
    requires Follows(conn, a) && |data| + 6 < INT_LIMIT
    modifies conn.tx, conn.tx.nonce
    ensures Follows(conn, a) && conn.tx.established == old(conn.tx.established)
    ensures conn.tx.established && Regular(Give(data, protocol, random)) ==>
      sent == Wire(FrameOf(Message(protocol, data, random.value)))
  {
    hide Wire;
    var buf := new byte[PRE_PADDING + |data| + POST_PADDING];
    forall i | 0 <= i < |data| {
      buf[PRE_PADDING + i] := data[i];
    }
    assert buf[PRE_PADDING..PRE_PADDING + |data|] == data;
    var ret;
    ret, sent := conn.tx.Write(buf, PRE_PADDING, |data|, protocol, random);
  }

  /** Every list of unmasked frames is recovered by the connection, which is then ready for the next one, whatever the
      client writes between any two received bytes, and whether its answers find random bytes or not. */
  method Converse(conn: ClientConn, fs: seq<Frame>, ds: seq<Deed>) returns (events: seq<Event>, sent: seq<byte>)
    requires conn.Valid() && conn.state == New && conn.head == 0 && forall i | 0 <= i < |ds| :: Doable(ds[i])
    requires Taken(ds) == WireAll(fs) && forall i | 0 <= i < |fs| :: FromServer(fs[i])
    modifies conn, conn.tx, conn.tx.nonce, conn.buffer
    ensures conn.Valid() && conn.state == New && conn.head == 0 && conn.conn == old(conn.conn)
    ensures events == AllEvents(fs, old(conn.frameIsBinary), Limit(conn.rxBufferSize))
    ensures BringsAll(Received(events), WantedOf(fs), Limit(conn.rxBufferSize))
    ensures old(conn.tx.established) && AllRegular(ds) ==>
      sent == WireAll(Outgoing(old(conn.View()), Limit(conn.rxBufferSize), ds))
  {
    hide Step, Feed, AllEvents, WireAll, FromServer, Keyless, Follows, Ahead, Limit, Noted, Outgoing, Wire, FrameOf,
         Regular, Received, BringsAll, WantedOf;
    ghost var limit, a := Limit(conn.rxBufferSize), conn.View();
    ghost var all := AllEvents(fs, conn.frameIsBinary, limit);
    AllEventsBring(fs, conn.frameIsBinary, limit);
    ClientDelivers(a, limit, fs, IDLE);
    ghost var end := Feed(Client, a, limit, WireAll(fs), IDLE).rx;
    Starts(conn, a, limit, fs, all, end);
    events, sent := [], [];
    assert ds[0..] == ds && all[0..] == all;
    ghost var regular := conn.tx.established && AllRegular(ds);
    ghost var out := if regular then WireAll(Outgoing(a, limit, ds)) else [];
    for n := 0 to |ds|
      invariant Follows(conn, a) && events <= all
      invariant Ahead(a, limit, Taken(ds[n..]), all[|events|..], end)
      invariant regular ==> conn.tx.established && StillTo(out, sent, a, limit, ds[n..])
    {
      assert ds[n..][1..] == ds[n + 1..] && Doable(ds[n]);
      match ds[n] {
        case Take(c, random) =>
          ghost var s := Taken(ds[n..]);
          assert s[0] == c && s[1..] == Taken(ds[n + 1..]);
          AheadNext(a, limit, s, all[|events|..], end);
          if regular {
            OutgoingTake(a, limit, ds[n..]);
          }
          var event, answer := TakeByte(conn, c, random, a);
          MoreShown(all, events, Noted(event));
          a := Step(Client, a, limit, c, IDLE).rx;
          events := events + Noted(event);
          SentMore(sent, answer, out, regular, a, limit, ds[n + 1..]);
          sent := sent + answer;
        case Give(data, protocol, random) =>
          assert Taken(ds[n..]) == Taken(ds[n + 1..]);
          if regular {
            OutgoingGive(a, limit, ds[n..]);
          }
          var wrote := GiveData(conn, data, protocol, random, a);
          SentMore(sent, wrote, out, regular, a, limit, ds[n + 1..]);
          sent := sent + wrote;
      }
    }
    assert ds[|ds|..] == [];
    if regular {
      NothingOut(a, limit);
    }
    Ended(conn, a, limit, all[|events|..], end);
  }

  lemma NothingOut(a: Rx, limit: nat)
    ensures WireAll(Outgoing(a, limit, [])) == []
  {}

  lemma MoreShown(all: seq<Event>, es: seq<Event>, more: seq<Event>)
    requires es <= all && more <= all[|es|..]
    ensures es + more <= all && all[|es|..][|more|..] == all[|es + more|..]
  {
    assert es + all[|es|..] == all;
  }

  lemma Starts(conn: ClientConn, a: Rx, limit: nat, fs: seq<Frame>, es: seq<Event>, end: Rx)
    requires conn.Valid() && conn.head == 0 && a == conn.View()
    requires var t := Feed(Client, a, limit, WireAll(fs), IDLE); t.ok && t.keyless && t.events == es && t.rx == end
    ensures Follows(conn, a) && Ahead(a, limit, WireAll(fs), es, end)
  {
    hide Feed, WireAll;
  }

  lemma Ended(conn: ClientConn, a: Rx, limit: nat, es: seq<Event>, end: Rx)
    requires Follows(conn, a) && Ahead(a, limit, [], es, end)
    ensures es == [] && conn.Valid() && conn.state == end.state && conn.head == |end.data| && conn.conn == end.conn
  {
    hide Feed;
    FeedNone(Client, a, limit, IDLE);
  }
}
