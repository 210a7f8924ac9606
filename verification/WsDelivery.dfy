/** What reaches the user, told by the opcode numbers of section 5.2 of RFC 6455 and without the notions of the receive
    machines: every text, binary and continuation frame arrives, and nothing else does. */
module WsDelivery {
  import opened Words
  import opened WsFrame
  import opened WsRx
  import opened WsStep
  import opened WsRun
  import opened WsServer
  import opened WsClient

  /** Data that should reach the user. */
  datatype Want = Want(opcode: byte, fin: bool, data: seq<byte>)

  /** Opcodes 0, 1 and 2 carry data: a continuation, text and binary data. */
  function WantedOf(fs: seq<Frame>): seq<Want>
    decreases |fs|
  {
    if fs == [] then []
    else
      var f := fs[0];
      (if (f.opcode == 0 || f.opcode == 1 || f.opcode == 2) && f.payload != [] then [Want(f.opcode, f.fin, f.payload)]
       else []) + WantedOf(fs[1..])
  }

  /** The events that are user callbacks with data. */
  function Received(es: seq<Event>): seq<Event>
    decreases |es|
  {
    if es == [] then [] else (if es[0].Receive? then [es[0]] else []) + Received(es[1..])
  }

  function DataFrom(es: seq<Event>): seq<byte>
    decreases |es|
  {
    if es == [] then [] else (if es[0].Receive? then es[0].data else []) + DataFrom(es[1..])
  }

  /** One or more callbacks with the opcode, FIN and, all together, the data of w, none larger than the buffer; text and
      binary frames are told apart. */
  predicate Brings(es: seq<Event>, w: Want, limit: nat) {
    && es != [] && DataFrom(es) == w.data
    && forall k | 0 <= k < |es| ::
         && es[k].Receive? && es[k].opcode == w.opcode && es[k].final == w.fin && 0 < |es[k].data| <= limit
         && (w.opcode == 1 ==> !es[k].binary) && (w.opcode == 2 ==> es[k].binary)
  }

  /** es falls into one run of callbacks for each of ws, in order. */
  ghost predicate BringsAll(es: seq<Event>, ws: seq<Want>, limit: nat)
    decreases |ws|
  {
    if ws == [] then es == []
    else exists n :: 0 <= n <= |es| && Brings(es[..n], ws[0], limit) && BringsAll(es[n..], ws[1..], limit)
  }

  lemma {:induction false} ReceivedAppend(a: seq<Event>, b: seq<Event>)
    ensures Received(a + b) == Received(a) + Received(b)
    decreases |a|
  {
    if a == [] {
      assert a + b == b;
    } else {
      assert (a + b)[0] == a[0] && (a + b)[1..] == a[1..] + b;
      ReceivedAppend(a[1..], b);
    }
  }

  lemma {:induction false} AllReceived(es: seq<Event>)
    requires forall k | 0 <= k < |es| :: es[k].Receive?
    ensures Received(es) == es && DataFrom(es) == Joined(es)
    decreases |es|
  {
    if es != [] {
      AllReceived(es[1..]);
      assert [es[0]] + es[1..] == es;
    }
  }

  lemma BringsFirst(es: seq<Event>, more: seq<Event>, w: Want, ws: seq<Want>, limit: nat)
    requires Brings(es, w, limit) && BringsAll(more, ws, limit)
    ensures BringsAll(es + more, [w] + ws, limit)
  {
    hide Brings;
    assert (es + more)[..|es|] == es && (es + more)[|es|..] == more;
    assert ([w] + ws)[0] == w && ([w] + ws)[1..] == ws;
  }

  /** The callbacks of one frame with data. */
  lemma PiecesBring(side: Side, f: Frame, before: bool, limit: nat)
    requires limit > 0 && f.payload != [] && (f.opcode == 0 || f.opcode == 1 || f.opcode == 2)
    ensures var es := Pieces(side, f.opcode, f.fin, Binary(before, f), f.payload, limit);
      Received(es) == es && Brings(es, Want(f.opcode, f.fin, f.payload), limit)
  {
    hide Pieces, Joined, Received, DataFrom;
    var es := Pieces(side, f.opcode, f.fin, Binary(before, f), f.payload, limit);
    PiecesCarry(side, f.opcode, f.fin, Binary(before, f), f.payload, limit);
    forall k | 0 <= k < |es|
      ensures es[k].Receive? && es[k].opcode == f.opcode && es[k].final == f.fin && 0 < |es[k].data| <= limit
      ensures es[k].binary == Binary(before, f)
    {
      assert Carries(es, k, f.opcode, f.fin, Binary(before, f), limit);
    }
    AllReceived(es);
  }

  /** A frame with another opcode brings none. */
  lemma {:induction false} PiecesSilent(side: Side, op: byte, fin: bool, binary: bool, p: seq<byte>, limit: nat)
    requires limit > 0 && op != 0 && op != 1 && op != 2
    ensures Received(Pieces(side, op, fin, binary, p, limit)) == []
    decreases |p|
  {
    hide Received;
    if |p| <= limit {
      ShownSilent(side, op, fin, binary, p, 0);
    } else {
      ShownSilent(side, op, fin, binary, p[..limit], |p| - limit);
      PiecesSilent(side, op, fin, binary, p[limit..], limit);
      ReceivedAppend(Shown(side, op, fin, binary, p[..limit], |p| - limit),
                     Pieces(side, op, fin, binary, p[limit..], limit));
    }
  }

  lemma ShownSilent(side: Side, op: byte, fin: bool, binary: bool, chunk: seq<byte>, remaining: nat)
    requires op != 0 && op != 1 && op != 2
    ensures Received(Shown(side, op, fin, binary, chunk, remaining)) == []
  {}

  /** The pieces of all frames bring their data. */
  lemma {:induction false} AllPiecesBring(side: Side, fs: seq<Frame>, binary: bool, limit: nat)
    requires limit > 0 && forall i | 0 <= i < |fs| :: fs[i].payload != []
    ensures BringsAll(Received(AllPieces(side, fs, binary, limit)), WantedOf(fs), limit)
    decreases |fs|
  {
    hide Pieces, Received, Brings, Binary;
    if fs == [] {
      NoneReceived();
    } else {
      var f, b := fs[0], Binary(binary, fs[0]);
      var es := Pieces(side, f.opcode, f.fin, b, f.payload, limit);
      AllPiecesBring(side, fs[1..], b, limit);
      ReceivedAppend(es, AllPieces(side, fs[1..], b, limit));
      OneMore(side, f, binary, limit, Received(AllPieces(side, fs[1..], b, limit)), WantedOf(fs[1..]));
    }
  }

  lemma NoneReceived()
    ensures Received([]) == []
  {}

  lemma OneMore(side: Side, f: Frame, before: bool, limit: nat, more: seq<Event>, ws: seq<Want>)
    requires limit > 0 && f.payload != [] && BringsAll(more, ws, limit)
    ensures var es := Pieces(side, f.opcode, f.fin, Binary(before, f), f.payload, limit);
      BringsAll(Received(es) + more, WantedOf([f]) + ws, limit)
  {
    hide Pieces, Received, Brings, Binary, BringsAll;
    assert [f][1..] == [];
    var es := Pieces(side, f.opcode, f.fin, Binary(before, f), f.payload, limit);
    if f.opcode == 0 || f.opcode == 1 || f.opcode == 2 {
      PiecesBring(side, f, before, limit);
      assert WantedOf([f]) == [Want(f.opcode, f.fin, f.payload)];
      BringsFirst(es, more, Want(f.opcode, f.fin, f.payload), ws, limit);
    } else {
      PiecesSilent(side, f.opcode, f.fin, Binary(before, f), f.payload, limit);
      assert WantedOf([f]) == [] && [] + more == more && [] + ws == ws;
    }
  }

  /** Every list of frames with data other than CLOSE brings the server's user exactly its text, binary and continuation
      frames. */
  lemma ServerBrings(rx: Rx, limit: nat, fs: seq<Frame>, env: Env)
    requires rx.state == New && rx.data == [] && limit > 0 && Willing(env)
    requires forall i | 0 <= i < |fs| :: Sendable(fs[i])
    ensures BringsAll(Received(Feed(Server, rx, limit, WireAll(fs), env).events), WantedOf(fs), limit)
  {
    hide Feed, Received, WireAll, WantedOf, AllPieces;
    assert forall i | 0 <= i < |fs| :: Sendable(fs[i]) && fs[i].payload != [];
    ServerDelivers(rx, limit, fs, env);
    AllPiecesBring(Server, fs, rx.binary, limit);
  }

  lemma {:induction false} AllEventsBring(fs: seq<Frame>, binary: bool, limit: nat)
    requires limit > 0
    ensures BringsAll(Received(AllEvents(fs, binary, limit)), WantedOf(fs), limit)
    decreases |fs|
  {
    hide Pieces, Received, Brings, Binary;
    if fs == [] {
      NoneReceived();
    } else {
      var f, b := fs[0], Binary(binary, fs[0]);
      AllEventsBring(fs[1..], b, limit);
      ReceivedAppend(FrameEvents(f, b, limit), AllEvents(fs[1..], b, limit));
      var more, ws := Received(AllEvents(fs[1..], b, limit)), WantedOf(fs[1..]);
      if f.payload != [] {
        OneMore(Client, f, binary, limit, more, ws);
      } else {
        EmptySilent(f, b, limit);
        assert [] + more == more && [] + ws == ws;
      }
    }
  }

  lemma EmptySilent(f: Frame, binary: bool, limit: nat)
    requires limit > 0 && f.payload == []
    ensures Received(FrameEvents(f, binary, limit)) == []
  {}

  /** And so for the client's user, with frames that may be empty. */
  lemma ClientBrings(rx: Rx, limit: nat, fs: seq<Frame>, env: Env)
    requires rx.state == New && rx.data == [] && limit > 0 && Willing(env)
    requires forall i | 0 <= i < |fs| :: FromServer(fs[i])
    ensures BringsAll(Received(Feed(Client, rx, limit, WireAll(fs), env).events), WantedOf(fs), limit)
  {
    hide Feed, Received, WireAll, WantedOf, AllEvents, FromServer;
    ClientDelivers(rx, limit, fs, env);
    AllEventsBring(fs, rx.binary, limit);
  }
}
