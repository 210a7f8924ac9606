/** A server connection with receive flow control: what is read from the socket while the user has paused reception
    waits in a stash, and everything else goes byte by byte into the receive state machine. */
module RxFlow {
  import opened Words
  import opened Options
  import opened WsFrame
  import opened WsRx
  import opened WsStep
  import opened WsRun
  import opened WsServer
  import opened WsServerConn
  import opened RxLoop

  class Flow {
    /** LWS_RXFLOW_ALLOW and LWS_RXFLOW_PENDING_CHANGE in rxflow_change_to. */
    var allow: bool
    var pending: bool
    var rxflowBuffer: array?<byte>
    var rxflowLen: nat
    var rxflowPos: nat
    /** POLLIN and POLLOUT in the events of the connection's pollfd. */
    var pollin: bool
    var pollout: bool
    /** The receive state machine. */
    const rx: ServerConn
    var closed: bool
    /** What the machine has shown. */
    var events: seq<Event>
    /** Bytes the machine has been given, and bytes read from the socket. */
    ghost var fed: seq<byte>
    ghost var received: seq<byte>
    /** The machine at the start. */
    ghost const start: Rx

    ghost function Unread(): seq<byte>
      requires Shaped()
      reads this, rxflowBuffer
    {
      if rxflowBuffer == null then [] else rxflowBuffer[rxflowPos..]
    }

    ghost function Stash(): Option<seq<byte>>
      requires Shaped()
      reads this, rxflowBuffer
    {
      if rxflowBuffer == null then None else Some(Unread())
    }

    ghost predicate Shaped()
      reads this
    {
      rxflowBuffer != null ==>
        && rxflowPos <= rxflowLen == rxflowBuffer.Length
        && rxflowBuffer != rx.buffer && rxflowBuffer != rx.nonce
    }

    ghost function State(): Control
      reads this`allow, this`pending, this`pollin, this`pollout
    {
      Control(allow, pending, pollin, pollout)
    }

    /** The machine has shown what it shows for the bytes it was given, and while ok it is in the state they lead to. */
    ghost predicate Logged(ok: bool)
      reads this`fed, this`events, rx, rx.nonce, rx.buffer
    {
      && rx.Valid()
      && var t := Feed(Server, start, Limit(rx.rxBufferSize), fed, QUIET);
         t.events == events && (ok ==> t.ok && t.rx == rx.View() && rx.head < Limit(rx.rxBufferSize))
    }

    ghost predicate Valid()
      reads this
    {
      Shaped() && Armed(State(), rxflowBuffer != null)
    }

    /** Between services of an open connection a stash only exists while reception is paused, and no byte is lost or out
        of order. */
    ghost predicate Settled()
      reads this, rxflowBuffer, rx, rx.nonce, rx.buffer
    {
      && Logged(!closed) && fed <= received
      && (!closed ==> Valid() && (rxflowBuffer != null ==> !allow) && fed + Unread() == received)
    }

    /** The same within a service, when reception may have been resumed beside a stash. */
    ghost predicate Settling()
      reads this, rxflowBuffer, rx, rx.nonce, rx.buffer
    {
      !closed && Logged(true) && Valid() && fed + Unread() == received
    }

    /** The machine has refused a byte. */
    ghost predicate Refused()
      reads this`fed, rx
    {
      !Feed(Server, start, Limit(rx.rxBufferSize), fed, QUIET).ok
    }

    constructor (rx: ServerConn)
      requires rx.Valid() && rx.head < Limit(rx.rxBufferSize)
      ensures Settled() && allow && pollin && rxflowBuffer == null && !closed && received == [] && events == []
      ensures this.rx == rx && start == rx.View()
    {
      allow, pending, rxflowBuffer, rxflowLen, rxflowPos := true, false, null, 0, 0;
      pollin, pollout, closed, fed, received, events := true, false, false, [], [], [];
      this.rx, start := rx, rx.View();
      new;
      FeedNone(Server, start, Limit(rx.rxBufferSize), QUIET);
    }

    /** libwebsocket_rx_flow_control */
    method RxFlowControl(enable: int)
      modifies this`allow, this`pending
      ensures State() == AfterCall(old(State()), enable)
    {
      if enable == (if allow then 1 else 0) {
        return;
      }
      allow, pending := enable != 0, true;
    }

    /** _libwebsocket_rx_flow_control */
    method Apply()
      modifies this`pending, this`pollin, this`pollout
      ensures State() == Applied(old(State()), rxflowBuffer != null)
    {
      if !pending {
        return;
      }
      if rxflowBuffer != null {
        pollout := true;
        return;
      }
      pending := false;
      pollin := allow;
    }

    /** user_callback_handle_rxflow */
    method Callback(act: Act)
      modifies this`allow, this`pending, this`pollin, this`pollout
      ensures State() == AfterCallback(old(State()), rxflowBuffer != null, act)
    {
      var enables := act.enables;
      while enables != []
        invariant AfterCalls(State(), enables) == AfterCalls(old(State()), act.enables)
        decreases |enables|
      {
        RxFlowControl(enables[0]);
        enables := enables[1..];
      }
      if act.ret == 0 {
        Apply();
      }
    }

    /** What the loop does with the rest of a buffer once reception is paused: stash it, unless there is a stash. */
    method Refuse(rest: seq<byte>)
      requires Shaped()
      modifies this`rxflowBuffer, this`rxflowLen, this`rxflowPos
      ensures Shaped() && rxflowBuffer != null
      ensures old(rxflowBuffer) == null ==> fresh(rxflowBuffer) && Unread() == rest
      ensures old(rxflowBuffer) != null ==> rxflowBuffer == old(rxflowBuffer) && Unread() == old(Unread())
    {
      if rxflowBuffer == null {
        var stash := new byte[|rest|](i requires 0 <= i < |rest| => rest[i]);
        rxflowBuffer, rxflowLen, rxflowPos := stash, |rest|, 0;
      }
    }

    lemma LogNext(b: byte, env: Env, s: seq<byte>, es: seq<Event>, view: Rx)
      requires var t := Feed(Server, start, Limit(rx.rxBufferSize), s, QUIET); t.ok && t.rx == view && t.events == es
      ensures var t := Feed(Server, start, Limit(rx.rxBufferSize), s + [b], QUIET);
        var o := Step(Server, view, Limit(rx.rxBufferSize), b, env);
        t.events == es + Noted(o.event) && (o.ret >= 0 ==> t.ok && t.rx == o.rx)
    {
      hide Step, Feed, Keyless;
      var limit := Limit(rx.rxBufferSize);
      FeedAppend(Server, start, limit, s, [b], QUIET);
      FeedOne(Server, view, limit, b, QUIET);
      StepAgrees(view, limit, b, env);
    }

    /** One byte into the receive state machine, accounted for in the stash if it comes from there. */
    method FeedByte(b: byte, act: Act) returns (m: int)
      requires Shaped() && Logged(true) && (rxflowBuffer != null ==> rxflowPos < rxflowLen)
      modifies this`rxflowPos, this`fed, this`events, this`allow, this`pending, this`pollin, this`pollout,
               rx, rx.nonce, rx.buffer
      ensures Shaped() && Logged(m >= 0) && fed == old(fed) + [b]
      ensures rxflowPos == old(rxflowPos) + (if rxflowBuffer != null then 1 else 0)
      ensures var o := Step(Server, old(rx.View()), Limit(rx.rxBufferSize), b, EnvOf(act));
        && m == o.ret && rx.View() == o.rx && State() == AfterByte(old(State()), rxflowBuffer != null, act, o.event)
    {
      hide Step, Feed, AfterCallback, ServerConn.Valid, ServerConn.View;
      ghost var was := rx.View();
      if rxflowBuffer != null {
        rxflowPos := rxflowPos + 1;
      }
      LogNext(b, EnvOf(act), fed, events, was);
      var event;
      m, event := rx.RxSm(b, EnvOf(act));
      fed, events := fed + [b], events + Noted(event);
      if event.Receive? {
        Callback(act);
      }
    }

    /** The loop stands before byte n of buf and will end as r. */
    ghost predicate Before(buf: seq<byte>, acts: seq<Act>, n: nat, r: Ran)
      reads this, rx, rx.nonce, rx.buffer
    {
      && Shaped() && Logged(true) && n <= r.taken <= |buf| == |acts|
      && Loop(rx.View(), State(), rxflowBuffer != null, Limit(rx.rxBufferSize), buf[n..], acts[n..])
         == r.(taken := r.taken - n)
    }

    ghost predicate Behind(r: Ran)
      reads this`fed, this`events, this`allow, this`pending, this`pollin, this`pollout, rx, rx.nonce, rx.buffer
    {
      Logged(r.ret >= 0) && State() == r.control && rx.View() == r.rx
    }

    /** One round of the loop. */
    method Take(buf: seq<byte>, acts: seq<Act>, n: nat, ghost r: Ran) returns (m: int)
      requires Before(buf, acts, n, r) && n < |buf| && allow && (rxflowBuffer != null ==> rxflowPos < rxflowLen)
      modifies this`rxflowPos, this`fed, this`events, this`allow, this`pending, this`pollin, this`pollout,
               rx, rx.nonce, rx.buffer
      ensures n < r.taken <= |buf| && fed == old(fed) + [buf[n]]
      ensures rxflowPos == old(rxflowPos) + (if rxflowBuffer != null then 1 else 0)
      ensures Shaped() && if m < 0 then Behind(r) && r.ret == -1 && r.taken == n + 1 else Before(buf, acts, n + 1, r)
    {
      hide Step, Feed, AfterByte, ServerConn.Valid, ServerConn.View, Logged, Loop, EnvOf, Limit;
      LoggedValid(true);
      LoopIs(rx.View(), State(), rxflowBuffer != null, Limit(rx.rxBufferSize), buf[n..], acts[n..]);
      assert buf[n..][1..] == buf[n + 1..] && acts[n..][1..] == acts[n + 1..];
      m := FeedByte(buf[n], acts[n]);
      LoggedValid(m >= 0);
    }

    lemma Ends(buf: seq<byte>, acts: seq<Act>, n: nat, r: Ran)
      requires Before(buf, acts, n, r) && (n == |buf| || !allow)
      ensures Behind(r) && r.taken == n && r.ret == if n == |buf| then 0 else 1
    {
      hide Step, AfterByte, Feed, Limit;
      LoopIs(rx.View(), State(), rxflowBuffer != null, Limit(rx.rxBufferSize), buf[n..], acts[n..]);
    }

    lemma Begins(buf: seq<byte>, acts: seq<Act>)
      requires Shaped() && Logged(true) && |acts| == |buf|
      ensures rx.Valid()
      ensures Before(buf, acts, 0, Loop(rx.View(), State(), rxflowBuffer != null, Limit(rx.rxBufferSize), buf, acts))
    {
      hide Step, AfterByte, Feed, Limit;
      assert buf[0..] == buf && acts[0..] == acts;
    }

    /** libwebsocket_interpret_incoming_packet; buf is the unread part of the stash, if there is one and reception is
        not paused. */
    method Interpret(buf: seq<byte>, acts: seq<Act>) returns (ret: int)
      requires Shaped() && Logged(true) && |acts| == |buf| && (rxflowBuffer != null ==> buf == Unread() || !allow)
      modifies this, rx, rx.nonce, rx.buffer
      ensures Shaped() && Logged(ret >= 0) && received == old(received) && closed == old(closed)
      ensures var r := Loop(old(rx.View()), old(State()), old(rxflowBuffer) != null, Limit(rx.rxBufferSize), buf, acts);
        && ret == r.ret && Behind(r) && fed == old(fed) + buf[..r.taken]
        && (if old(rxflowBuffer) == null then
              && (rxflowBuffer != null <==> ret == 1)
              && (ret == 1 ==> fresh(rxflowBuffer) && Unread() == buf[r.taken..])
            else
              rxflowBuffer == old(rxflowBuffer) && r.taken <= |old(Unread())| && Unread() == old(Unread())[r.taken..])
    {
      hide Step, Feed, ServerConn.Valid, ServerConn.View, Logged, Loop, Limit, Before, Behind, State;
      Begins(buf, acts);
      ghost var r := Loop(rx.View(), State(), rxflowBuffer != null, Limit(rx.rxBufferSize), buf, acts);
      ghost var before, pos := fed, rxflowPos;
      var n := 0;
      while n < |buf|
        invariant Before(buf, acts, n, r) && n <= |buf| && Shaped()
        invariant fed == before + buf[..n] && received == old(received) && closed == old(closed)
        invariant rxflowBuffer == old(rxflowBuffer)
        invariant rxflowBuffer != null ==>
          rxflowPos == pos + n && rxflowLen == old(rxflowLen) && (|buf| == rxflowLen - pos || (n == 0 && !allow))
      {
        if !allow {
          Ends(buf, acts, n, r);
          BehindLogged(r);
          Refuse(buf[n..]);
          return 1;
        }
        BeforeLogged(buf, acts, n, r);
        assert buf[..n + 1] == buf[..n] + [buf[n]];
        var m := Take(buf, acts, n, r);
        n := n + 1;
        if m < 0 {
          BehindLogged(r);
          return -1;
        }
        BeforeLogged(buf, acts, n, r);
      }
      Ends(buf, acts, n, r);
      BehindLogged(r);
      ret := 0;
    }

    lemma BehindState(r: Ran)
      requires Behind(r)
      ensures State() == r.control
    {}

    lemma BeforeLogged(buf: seq<byte>, acts: seq<Act>, n: nat, r: Ran)
      requires Before(buf, acts, n, r)
      ensures Shaped() && Logged(true) && rx.Valid()
    {}

    lemma BehindLogged(r: Ran)
      requires Behind(r)
      ensures Logged(r.ret >= 0) && rx.Valid()
    {}

    lemma LoggedValid(ok: bool)
      requires Logged(ok)
      ensures rx.Valid()
    {}

    lemma FedMore(was: seq<byte>, more: seq<byte>, view: Rx)
      requires var t := Feed(Server, start, Limit(rx.rxBufferSize), was, QUIET); t.ok && t.rx == view
      requires !Feed(Server, view, Limit(rx.rxBufferSize), more, QUIET).ok
      ensures !Feed(Server, start, Limit(rx.rxBufferSize), was + more, QUIET).ok
    {
      hide Feed, Step;
      FeedAppend(Server, start, Limit(rx.rxBufferSize), was, more, QUIET);
    }

    lemma LoggedFeed()
      requires Logged(true)
      ensures rx.Valid()
      ensures var t := Feed(Server, start, Limit(rx.rxBufferSize), fed, QUIET); t.ok && t.rx == rx.View()
    {
      hide Feed, Step;
    }

    lemma LogStays()
      requires Logged(true)
      ensures Logged(false)
    {
      hide Feed, Step;
    }

    /** The service has come out as v says, from a connection that had been given the bytes was. */
    ghost predicate Serves(v: Served, was: seq<byte>)
      reads this, rxflowBuffer, rx, rx.nonce, rx.buffer
    {
      && Shaped() && Logged(!closed) && State() == v.control && rx.View() == v.rx && fed == was + v.fed
      && closed == v.closed && (!closed ==> Stash() == v.stash)
    }

    /** The established case of libwebsocket_read: buf is what is left of the stash, or all that recv returned. */
    method Read(buf: seq<byte>, acts: seq<Act>)
      requires !closed && Shaped() && Logged(true) && |acts| == |buf| && (rxflowBuffer != null ==> buf == Unread())
      modifies this, rx, rx.nonce, rx.buffer
      ensures received == old(received)
      ensures Serves(ReadOf(old(rx.View()), old(State()), old(rxflowBuffer) != null, Limit(rx.rxBufferSize), buf, acts),
                     old(fed))
    {
      hide Step, Feed, ServerConn.Valid, ServerConn.View, Limit, Logged, Loop;
      LoggedFeed();
      var ret := Interpret(buf, acts);
      LoggedValid(ret >= 0);
      if ret < 0 {
        closed := true;
      }
    }

    /** The part of libwebsocket_service_fd behind the label drain. */
    method Drain(acts: seq<Act>)
      requires !closed && Shaped() && Logged(true) && rxflowBuffer != null && |acts| == |Unread()|
      modifies this, rx, rx.nonce, rx.buffer
      ensures received == old(received)
      ensures Serves(DrainOf(old(rx.View()), old(State()), Limit(rx.rxBufferSize), old(Unread()), acts), old(fed))
    {
      hide Logged, Feed, Step, Limit, ReadOf, ServerConn.View;
      LoggedValid(true);
      Read(rxflowBuffer[rxflowPos..rxflowLen], acts);
      LoggedValid(!closed);
      if closed {
        return;
      }
      if rxflowBuffer != null && rxflowPos == rxflowLen {
        rxflowBuffer := null;
        Apply();
      }
    }

    /** libwebsocket_service_fd on an established connection: a writable event with what its callback does, and the
        bytes that recv returns if the descriptor is readable; read tells whether recv was called.  poll reports
        readable only while POLLIN is armed. */
    method Service(writable: Option<Act>, readable: Option<seq<byte>>, acts: seq<Act>) returns (read: bool)
      requires Settled() && !closed && (readable.Some? ==> pollin)
      requires |acts| == |Unread()| + (if readable.Some? then |readable.value| else 0)
      modifies this, rx, rx.nonce, rx.buffer
      ensures var v := ServiceOf(old(rx.View()), old(State()), old(Stash()), Limit(rx.rxBufferSize), writable, readable,
                                 acts);
        Serves(v, old(fed)) && read == v.read && (read ==> readable.Some?)
      ensures received == if read then old(received) + Bytes(readable) else old(received)
      ensures (old(rxflowBuffer) != null && writable.Some? && Resumes(writable.value) && writable.value.ret >= 0
               && NonePauses(acts) && AllKeeping(acts)
               && Feed(Server, old(rx.View()), Limit(rx.rxBufferSize), old(Unread()), QUIET).ok)
        ==> rxflowBuffer == null && pollin && allow && fed == old(fed) + old(Unread())
      ensures FineService(writable, acts, false) ==> Settled() && (!read && readable.Some? ==> closed)
      ensures FineService(writable, acts, true) && closed ==> Refused()
    {
      hide Logged, Feed, Step, AllGood, AllKeeping, Limit, DrainOf, ReadOf, ServerConn.View, ServiceOf;
      LoggedFeed();
      ghost var view, c, stash, limit, was := rx.View(), State(), Stash(), Limit(rx.rxBufferSize), fed;
      ghost var v := ServiceOf(view, c, stash, limit, writable, readable, acts);
      if FineService(writable, acts, false) {
        ServiceKeeps(view, c, stash, limit, writable, readable, acts);
      }
      if stash.Some? && writable.Some? && Resumes(writable.value) && writable.value.ret >= 0 && NonePauses(acts)
         && AllKeeping(acts) && Feed(Server, view, limit, stash.value, QUIET).ok {
        ResumeDrains(view, c, stash.value, limit, writable.value, acts);
      }
      read := Serve(writable, readable, acts);
      if FineService(writable, acts, false) {
        Settles(v, was, Bytes(stash) + (if v.read then Bytes(readable) else []));
      }
      if FineService(writable, acts, true) && closed {
        FedMore(was, v.fed, view);
      }
    }

    /** What it does. */
    method Serve(writable: Option<Act>, readable: Option<seq<byte>>, acts: seq<Act>) returns (read: bool)
      requires !closed && Shaped() && Logged(true) && (rxflowBuffer == null || readable.None?)
      requires |acts| == |Unread()| + |Bytes(readable)|
      modifies this, rx, rx.nonce, rx.buffer
      ensures var v := ServiceOf(old(rx.View()), old(State()), old(Stash()), Limit(rx.rxBufferSize), writable, readable,
                                 acts);
        Serves(v, old(fed)) && read == v.read && (read ==> readable.Some?)
      ensures received == if read then old(received) + Bytes(readable) else old(received)
    {
      hide Logged, Feed, Step, Limit, DrainOf, ReadOf, ServerConn.View, AfterCallback;
      LoggedValid(true);
      assert fed + [] == fed;
      if writable.Some? {
        pollout := false;
        Callback(writable.value);
        if writable.value.ret < 0 {
          LogStays();
          closed := true;
          return false;
        }
      }
      if rxflowBuffer != null && allow {
        NotRead(old(rx.View()), old(State()), old(Stash()), Limit(rx.rxBufferSize), writable, acts);
        Drain(acts);
        return false;
      }
      if readable.None? {
        return false;
      }
      received := received + readable.value;
      Read(readable.value, acts);
      return true;
    }

    lemma SettledIs()
      requires Settled() && !closed
      ensures Shaped() && rx.Valid() && Logged(true) && fed + Unread() == received && (pollin ==> rxflowBuffer == null)
    {
      hide Logged;
      LoggedValid(true);
    }

    /** Nothing is stashed and reception is on. */
    ghost predicate Going()
      reads this
    {
      !closed && rxflowBuffer == null && allow && pollin
    }

    /** What comes next in an accepted stream is accepted. */
    lemma NextAccepted(more: seq<byte>, stream: seq<byte>)
      requires Logged(true) && fed + more <= stream && Feed(Server, start, Limit(rx.rxBufferSize), stream, QUIET).ok
      ensures rx.Valid() && Feed(Server, rx.View(), Limit(rx.rxBufferSize), more, QUIET).ok
    {
      hide Feed, Step, ServerConn.View;
      LoggedFeed();
      PrefixAccepted(start, Limit(rx.rxBufferSize), fed + more, stream);
      FeedAppend(Server, start, Limit(rx.rxBufferSize), fed, more, QUIET);
    }

    /** A service that resumes and never pauses leaves nothing behind. */
    lemma Resumed(act: Act, readable: Option<seq<byte>>, acts: seq<Act>, stream: seq<byte>)
      requires Settled() && !closed && (readable.Some? ==> pollin) && |acts| == |Unread()| + |Bytes(readable)|
      requires FineService(Some(act), acts, true) && Resumes(act) && NonePauses(acts)
      requires Feed(Server, start, Limit(rx.rxBufferSize), stream, QUIET).ok
      requires fed + (Unread() + Bytes(readable)) <= stream
      ensures rx.Valid()
      ensures var v := ServiceOf(rx.View(), State(), Stash(), Limit(rx.rxBufferSize), Some(act), readable, acts);
        !v.closed && v.stash == None && v.control.allow && v.control.pollin && v.read == readable.Some?
    {
      hide Logged, Feed, Step, AllGood, AllKeeping, NonePauses, Limit, ServerConn.View, ServiceOf;
      LoggedValid(true);
      var limit := Limit(rx.rxBufferSize);
      if rxflowBuffer != null {
        assert Unread() + Bytes(readable) == Unread();
        NextAccepted(Unread(), stream);
        ResumeDrains(rx.View(), State(), Unread(), limit, act, acts);
        NotRead(rx.View(), State(), Stash(), limit, Some(act), acts);
      } else if readable.Some? {
        assert Unread() + Bytes(readable) == readable.value;
        NextAccepted(readable.value, stream);
        ArrivalFeeds(rx.View(), State(), limit, Some(act), readable.value, acts);
      } else {
        assert acts == [];
        WritableSets(rx.View(), State(), limit, act);
        NotRead(rx.View(), State(), Stash(), limit, Some(act), acts);
      }
    }

    lemma ServedIs(v: Served, was: seq<byte>)
      requires Serves(v, was)
      ensures State() == v.control && closed == v.closed && (!closed ==> (rxflowBuffer == null <==> v.stash == None))
    {
      hide Logged;
    }

    lemma Settles(v: Served, was: seq<byte>, all: seq<byte>)
      requires Serves(v, was) && v.fed <= all && received == was + all
      requires !v.closed ==> Resting(v.control, v.stash) && v.fed + Bytes(v.stash) == all
      ensures Settled()
    {
      hide Logged;
      assert was + (v.fed + Bytes(v.stash)) == was + v.fed + Bytes(v.stash);
      assert was + all == was + v.fed + all[|v.fed|..];
    }
  }

  /** Callbacks are good, and none of them or of the writes asks for the end if keeping. */
  predicate FineService(writable: Option<Act>, acts: seq<Act>, keeping: bool) {
    && AllGood(acts) && (writable.Some? ==> Good(writable.value))
    && (keeping ==> AllKeeping(acts) && (writable.Some? ==> Keeping(writable.value)))
  }

  /** One turn of the service loop: how many bytes recv would return, and what the outside would do for each byte. */
  datatype Turn = Turn(writable: Option<Act>, size: nat, acts: nat -> Act)

  ghost predicate GoodTurn(t: Turn) {
    (forall n :: Good(t.acts(n))) && (t.writable.Some? ==> Good(t.writable.value))
  }

  ghost predicate KeepingTurn(t: Turn) {
    (forall n :: Keeping(t.acts(n))) && (t.writable.Some? ==> Keeping(t.writable.value))
  }

  /** A turn that resumes reception and does not pause it again. */
  ghost predicate EagerTurn(t: Turn) {
    t.writable.Some? && Resumes(t.writable.value) && forall n :: !Pauses(t.acts(n))
  }

  /** How many bytes the turns from first on offer to read. */
  function Offered(turns: seq<Turn>, first: nat, end: nat): nat
    requires end <= |turns|
    decreases end
  {
    if end <= first then 0 else Offered(turns, first, end - 1) + turns[end - 1].size
  }

  /** One turn of the loop: at most as many bytes as are left of the stream are read. */
  method DoTurn(f: Flow, t: Turn, stream: seq<byte>, taken: nat) returns (count: nat)
    requires f.Settled() && !f.closed && GoodTurn(t) && taken <= |stream| && f.received == stream[..taken]
    modifies f, f.rx, f.rx.nonce, f.rx.buffer
    ensures f.Settled() && count <= t.size && taken + count <= |stream| && f.received == stream[..taken + count]
    ensures KeepingTurn(t) && f.closed ==> f.Refused()
    ensures KeepingTurn(t) && EagerTurn(t) && Feed(Server, f.start, Limit(f.rx.rxBufferSize), stream, QUIET).ok ==>
      && f.Going()
      && (old(f.Going()) ==> count == t.size || taken + count == |stream|)
  {
    hide Flow.Logged, Feed, Limit, Step, Keeping, Good, AllKeeping, AllGood, NonePauses, ServiceOf, Flow.Settled,
         Flow.Serves, FineService, GoodTurn, KeepingTurn, EagerTurn;
    f.SettledIs();
    var size := if t.size < |stream| - taken then t.size else |stream| - taken;
    var readable := if f.pollin && size > 0 then Some(stream[taken..taken + size]) else None;
    var acts := Gather(f, t, readable);
    assert stream[..taken] + stream[taken..taken + size] == stream[..taken + size];
    ghost var v := ServiceOf(f.rx.View(), f.State(), f.Stash(), Limit(f.rx.rxBufferSize), t.writable, readable, acts);
    ghost var was := f.fed;
    if KeepingTurn(t) && EagerTurn(t) && Feed(Server, f.start, Limit(f.rx.rxBufferSize), stream, QUIET).ok {
      EagerIs(t);
      f.Resumed(t.writable.value, readable, acts, stream);
    }
    var read := f.Service(t.writable, readable, acts);
    f.ServedIs(v, was);
    count := if read then size else 0;
  }

  lemma EagerIs(t: Turn)
    requires EagerTurn(t)
    ensures t.writable.Some? && Resumes(t.writable.value)
  {}

  /** What the outside does for the bytes of a turn. */
  method Gather(f: Flow, t: Turn, readable: Option<seq<byte>>) returns (acts: seq<Act>)
    requires f.Shaped() && GoodTurn(t)
    ensures |acts| == |f.Unread()| + |Bytes(readable)|
    ensures FineService(t.writable, acts, false) && (KeepingTurn(t) ==> FineService(t.writable, acts, true))
    ensures EagerTurn(t) ==> NonePauses(acts)
  {
    hide GoodTurn, FineService, KeepingTurn, EagerTurn, NonePauses;
    var left := if f.rxflowBuffer == null then 0 else f.rxflowLen - f.rxflowPos;
    var n := left + |Bytes(readable)|;
    acts := seq(n, k requires 0 <= k < n => t.acts(k));
    GivenActs(t, acts);
  }

  lemma GivenActs(t: Turn, acts: seq<Act>)
    requires GoodTurn(t) && forall k | 0 <= k < |acts| :: acts[k] == t.acts(k)
    ensures FineService(t.writable, acts, false) && (KeepingTurn(t) ==> FineService(t.writable, acts, true))
    ensures EagerTurn(t) ==> NonePauses(acts)
  {
    hide Good, Keeping;
  }

  /** Any run of arrivals, pauses, resumes and partial drains: at every moment between services of an open connection
      the bytes given to the receive machine, followed by the unread part of the stash, are the bytes taken from the
      stream so far, and the machine has shown what it shows for the bytes it was given, however they were cut.  When
      the turns from first on resume reception, and together offer to read as much as there is, everything goes in. */
  method Run(f: Flow, stream: seq<byte>, turns: seq<Turn>, ghost first: nat) returns (taken: nat)
    requires f.Settled() && !f.closed && f.received == [] && forall i | 0 <= i < |turns| :: GoodTurn(turns[i])
    modifies f, f.rx, f.rx.nonce, f.rx.buffer
    ensures f.Settled() && taken <= |stream| && f.fed <= stream[..taken]
    ensures !f.closed ==> f.fed + f.Unread() == stream[..taken] && (f.pollin ==> f.fed == stream[..taken])
    ensures AllKeepingTurns(turns) && f.closed ==> f.Refused()
    ensures Through(f.start, Limit(f.rx.rxBufferSize), stream, turns, first) ==>
      !f.closed && f.fed == stream && taken == |stream|
  {
    hide Flow.Logged, Feed, Limit, KeepingTurn, EagerTurn, GoodTurn, Flow.Settled, Flow.Going;
    taken := 0;
    var i := 0;
    while i < |turns| && !f.closed
      invariant i <= |turns| && f.Settled() && taken <= |stream| && f.received == stream[..taken]
      invariant AllKeepingTurns(turns) && f.closed ==> f.Refused()
      invariant Through(f.start, Limit(f.rx.rxBufferSize), stream, turns, first) && i > first ==>
        f.Going() && (taken == |stream| || taken >= Offered(turns, first + 1, i))
    {
      var count := DoTurn(f, turns[i], stream, taken);
      taken := taken + count;
      i := i + 1;
    }
    Ends(f, stream, taken);
  }

  /** What a run that has come to rest has fed. */
  lemma Ends(f: Flow, stream: seq<byte>, taken: nat)
    requires f.Settled() && taken <= |stream| && f.received == stream[..taken]
    ensures f.fed <= stream[..taken]
    ensures !f.closed ==> f.fed + f.Unread() == stream[..taken] && (f.pollin ==> f.fed == stream[..taken])
    ensures f.Going() ==> !f.closed && f.pollin
    ensures taken == |stream| ==> stream[..taken] == stream
    ensures Feed(Server, f.start, Limit(f.rx.rxBufferSize), stream, QUIET).ok ==> !f.Refused()
  {
    hide Flow.Logged, Feed, Step, Limit;
    if Feed(Server, f.start, Limit(f.rx.rxBufferSize), stream, QUIET).ok {
      assert f.fed <= stream[..taken] <= stream;
      PrefixAccepted(f.start, Limit(f.rx.rxBufferSize), f.fed, stream);
    }
  }

  ghost predicate AllKeepingTurns(turns: seq<Turn>) { forall i | 0 <= i < |turns| :: KeepingTurn(turns[i]) }

  /** The turns from first on resume reception, and those behind it offer to read size bytes. */
  ghost predicate Resuming(turns: seq<Turn>, first: nat, size: nat) {
    && first < |turns| && (forall i | first <= i < |turns| :: EagerTurn(turns[i]))
    && Offered(turns, first + 1, |turns|) >= size
  }

  ghost predicate Through(start: Rx, limit: nat, stream: seq<byte>, turns: seq<Turn>, first: nat) {
    AllKeepingTurns(turns) && Resuming(turns, first, |stream|) && Feed(Server, start, limit, stream, QUIET).ok
  }

  /** Frames with data, arriving in any cuts while the user pauses and resumes reception: what has been shown is
      always a beginning of the pieces of all frames, and it is all of them once the whole stream has gone in. */
  method Deliver(f: Flow, fs: seq<Frame>, stream: seq<byte>, turns: seq<Turn>, ghost first: nat) returns (taken: nat)
    requires f.Settled() && !f.closed && f.received == [] && f.start.state == New && f.start.data == []
    requires stream == WireAll(fs) && forall i | 0 <= i < |fs| :: Sendable(fs[i])
    requires forall i | 0 <= i < |turns| :: GoodTurn(turns[i]) && KeepingTurn(turns[i])
    modifies f, f.rx, f.rx.nonce, f.rx.buffer
    ensures f.Settled() && !f.closed && taken <= |stream| && f.fed + f.Unread() == stream[..taken]
    ensures f.events <= AllPieces(Server, fs, f.start.binary, Limit(f.rx.rxBufferSize))
    ensures Resuming(turns, first, |stream|) ==> f.fed == stream
    ensures f.fed == stream ==>
      && f.events == AllPieces(Server, fs, f.start.binary, Limit(f.rx.rxBufferSize))
      && f.rx.state == New && f.rx.head == 0
  {
    hide Feed, Step, Limit, Sendable, AllPieces, WireAll, GoodTurn, KeepingTurn, Resuming;
    ServerDelivers(f.start, Limit(f.rx.rxBufferSize), fs, QUIET);
    taken := Run(f, stream, turns, first);
    PrefixAccepted(f.start, Limit(f.rx.rxBufferSize), f.fed, stream);
  }

  // ----- callbacks that change the flow state and do not return 0

  /** The first callback that pauses is not that of the last byte of buf and does not return 0. */
  predicate Untimely(rx: Rx, limit: nat, buf: seq<byte>, acts: seq<Act>)
    requires |acts| == |buf|
  {
    var k := FirstPause(rx, limit, buf, acts);
    k.Some? && k.value + 1 < |buf| && acts[k.value].ret != 0
  }

  /** Bytes arriving at a running connection, with callbacks of any kind: a stash beside an armed POLLIN is left exactly
      when the pause is untimely. */
  method Arrive(f: Flow, buf: seq<byte>, acts: seq<Act>) returns (ret: int)
    requires f.Settled() && !f.closed && f.allow && |acts| == |buf|
    modifies f, f.rx, f.rx.nonce, f.rx.buffer
    ensures f.rxflowBuffer != null && f.pollin
      <==> Untimely(old(f.rx.View()), Limit(f.rx.rxBufferSize), buf, acts)
    ensures f.Shaped() && f.Logged(ret >= 0) && f.received == old(f.received)
    ensures ret >= 0 ==> f.fed + f.Unread() == old(f.fed) + buf
    ensures (f.rxflowBuffer != null <==> ret == 1) && (ret == 1 ==> !f.allow)
  {
    hide Feed, Step, Loop, Limit, FirstPause, Flow.Behind, ServerConn.View, Flow.Logged, Untimely, ServerConn.Valid;
    f.LoggedFeed();
    ghost var limit := Limit(f.rx.rxBufferSize);
    UntimelyIs(f.rx.View(), limit, buf, acts);
    LoopStashes(f.rx.View(), f.State(), limit, buf, acts);
    ghost var r, was := Loop(f.rx.View(), f.State(), false, limit, buf, acts), f.fed;
    assert was + buf == was + buf[..r.taken] + buf[r.taken..];
    ret := f.Interpret(buf, acts);
    f.BehindState(r);
  }

  lemma UntimelyIs(rx: Rx, limit: nat, buf: seq<byte>, acts: seq<Act>)
    requires |acts| == |buf|
    ensures var k := FirstPause(rx, limit, buf, acts);
      Untimely(rx, limit, buf, acts) <==> k.Some? && k.value + 1 < |buf| && acts[k.value].ret != 0
  {}

  /** Then the bytes that arrive next are read from the socket and lost. */
  method ArriveTwice(f: Flow, buf: seq<byte>, acts: seq<Act>, later: seq<byte>, laterActs: seq<Act>)
    requires f.Settled() && !f.closed && f.allow && |acts| == |buf| && |laterActs| == |later| && later != []
    requires Untimely(f.rx.View(), Limit(f.rx.rxBufferSize), buf, acts)
    modifies f, f.rx, f.rx.nonce, f.rx.buffer
    ensures f.Shaped() && f.rxflowBuffer != null && f.pollin && f.received == old(f.received) + buf + later
    ensures f.fed + f.Unread() == old(f.fed) + buf
  {
    hide Feed, Step, Loop, Limit, FirstPause, Flow.Behind, ServerConn.View, Flow.Logged, Untimely, ServerConn.Valid;
    var ret := Arrive(f, buf, acts);
    f.LoggedFeed();
    LoopPaused(f.rx.View(), f.State(), true, Limit(f.rx.rxBufferSize), later, laterActs);
    f.received := f.received + buf + later;
    ghost var r := Loop(f.rx.View(), f.State(), true, Limit(f.rx.rxBufferSize), later, laterActs);
    ret := f.Interpret(later, laterActs);
    f.BehindState(r);
  }
}
