/** libwebsocket_interpret_incoming_packet on values: the byte loop with its flow control and the receive machine. */
module RxLoop {
  import opened Words
  import opened Options
  import opened WsFrame
  import opened WsRx
  import opened WsStep

  /** What the outside does while a byte goes in or a writable event is served: the arguments of the calls of
      libwebsocket_rx_flow_control that the user callback makes for its own connection, what it returns, and what
      writing a pong returns. */
  datatype Act = Act(enables: seq<int>, ret: int, write: int)

  /** What the outside does, as the receive machine sees it. */
  function EnvOf(act: Act): Env { Env(act.ret, act.write, [0, 0, 0, 0], 0) }

  const QUIET := Env(0, 0, [0, 0, 0, 0], 0)

  /** A callback that calls flow control returns 0, or an error that ends the connection. */
  predicate Good(act: Act) { act.ret > 0 ==> act.enables == [] }

  /** Neither the callback nor a write asks for the end of the connection. */
  predicate Keeping(act: Act) { act.ret >= 0 && act.write >= 0 }

  predicate AllGood(acts: seq<Act>) { forall i | 0 <= i < |acts| :: Good(acts[i]) }

  predicate AllKeeping(acts: seq<Act>) { forall i | 0 <= i < |acts| :: Keeping(acts[i]) }

  /** LWS_RXFLOW_ALLOW and LWS_RXFLOW_PENDING_CHANGE in rxflow_change_to, POLLIN and POLLOUT in the pollfd's events. */
  datatype Control = Control(allow: bool, pending: bool, pollin: bool, pollout: bool)

  function Bit(allow: bool): int { if allow then 1 else 0 }

  function AfterCall(c: Control, enable: int): Control {
    if enable == Bit(c.allow) then c else c.(allow := enable != 0, pending := true)
  }

  function AfterCalls(c: Control, enables: seq<int>): Control
    decreases |enables|
  {
    if enables == [] then c else AfterCalls(AfterCall(c, enables[0]), enables[1..])
  }

  function Applied(c: Control, stashed: bool): Control {
    if !c.pending then c
    else if stashed then c.(pollout := true)
    else c.(pending := false, pollin := c.allow)
  }

  function AfterCallback(c: Control, stashed: bool, act: Act): Control {
    var d := AfterCalls(c, act.enables);
    if act.ret == 0 then Applied(d, stashed) else d
  }

  /** A stash never exists while POLLIN is armed; without one, POLLIN says what the user wants. */
  predicate Armed(c: Control, stashed: bool) {
    if stashed then !c.pollin && (c.allow ==> c.pending) else !c.pending && c.pollin == c.allow
  }

  /** Some call asks for another state than the one there is. */
  predicate Changes(allow: bool, enables: seq<int>)
    decreases |enables|
  {
    enables != [] && (enables[0] != Bit(allow) || Changes(allow, enables[1..]))
  }

  predicate Pauses(act: Act) { act.enables != [] && act.enables[|act.enables| - 1] == 0 }

  lemma {:induction false} CallsAre(c: Control, enables: seq<int>)
    ensures var d := AfterCalls(c, enables);
      && d.allow == (if enables == [] then c.allow else enables[|enables| - 1] != 0)
      && d.pending == (c.pending || Changes(c.allow, enables)) && d.pollin == c.pollin && d.pollout == c.pollout
      && (!Changes(c.allow, enables) ==> d == c)
    decreases |enables|
  {
    if enables != [] {
      CallsAre(AfterCall(c, enables[0]), enables[1..]);
    }
  }

  /** A callback breaks the invariant exactly when it changes the flow state while nothing is stashed and does not
      return 0. */
  lemma CallbackKeeps(c: Control, stashed: bool, act: Act)
    requires Armed(c, stashed)
    ensures Armed(AfterCallback(c, stashed, act), stashed)
      <==> act.ret == 0 || stashed || !Changes(c.allow, act.enables)
  {
    hide AfterCalls, Changes;
    CallsAre(c, act.enables);
  }

  // ----- the byte loop on values

  /** Machine and flow state behind the loop, how many bytes it took, and what it returned. */
  datatype Ran = Ran(rx: Rx, control: Control, taken: nat, ret: int)

  function AfterByte(c: Control, stashed: bool, act: Act, event: Event): Control {
    if event.Receive? then AfterCallback(c, stashed, act) else c
  }

  function Loop(rx: Rx, c: Control, stashed: bool, limit: nat, buf: seq<byte>, acts: seq<Act>): (r: Ran)
    requires |acts| == |buf|
    ensures -1 <= r.ret <= 1 && r.taken <= |buf| && (r.ret == 0 ==> r.taken == |buf|)
    ensures r.ret == 1 ==> r.taken < |buf|
    decreases |buf|
  {
    if buf == [] then Ran(rx, c, 0, 0)
    else if !c.allow then Ran(rx, c, 0, 1)
    else
      var o := Step(Server, rx, limit, buf[0], EnvOf(acts[0]));
      var d := AfterByte(c, stashed, acts[0], o.event);
      if o.ret < 0 then Ran(o.rx, d, 1, -1)
      else
        var r := Loop(o.rx, d, stashed, limit, buf[1..], acts[1..]);
        r.(taken := r.taken + 1)
  }

  lemma LoopIs(rx: Rx, c: Control, stashed: bool, limit: nat, buf: seq<byte>, acts: seq<Act>)
    requires |acts| == |buf|
    ensures buf == [] ==> Loop(rx, c, stashed, limit, buf, acts) == Ran(rx, c, 0, 0)
    ensures buf != [] && !c.allow ==> Loop(rx, c, stashed, limit, buf, acts) == Ran(rx, c, 0, 1)
    ensures buf != [] && c.allow ==>
      var o := Step(Server, rx, limit, buf[0], EnvOf(acts[0]));
      var r, d := Loop(rx, c, stashed, limit, buf, acts), AfterByte(c, stashed, acts[0], o.event);
      if o.ret < 0 then r == Ran(o.rx, d, 1, -1)
      else r.taken > 0 && Loop(o.rx, d, stashed, limit, buf[1..], acts[1..]) == r.(taken := r.taken - 1)
  {
    hide Step, AfterByte;
  }

  /** With good callbacks the loop keeps the invariant, also with what it puts into a stash. */
  lemma {:induction false} LoopKeeps(rx: Rx, c: Control, stashed: bool, limit: nat, buf: seq<byte>, acts: seq<Act>)
    requires |acts| == |buf| && Armed(c, stashed) && AllGood(acts)
    ensures var r := Loop(rx, c, stashed, limit, buf, acts);
      r.ret >= 0 ==> Armed(r.control, stashed || r.ret == 1) && (r.ret == 1 ==> !r.control.allow)
    decreases |buf|
  {
    hide Step, AfterCallback;
    if buf != [] && c.allow {
      var o := Step(Server, rx, limit, buf[0], EnvOf(acts[0]));
      if o.ret >= 0 {
        assert Good(acts[0]);
        CallbackKeeps(c, stashed, acts[0]);
        StepAgrees(rx, limit, buf[0], EnvOf(acts[0]));
        LoopKeeps(o.rx, AfterByte(c, stashed, acts[0], o.event), stashed, limit, buf[1..], acts[1..]);
      }
    }
  }

  /** Outcome o under env against outcome q under QUIET: the same is shown, and what is not refused leads to the same
      state; only the user callback and the write of a pong may refuse what the machine accepts. */
  predicate Agrees(o: Out, q: Out, env: Env) {
    && o.event == q.event && (o.ret >= 0 ==> q.ret >= 0 && o.rx == q.rx)
    && (env.callback >= 0 && env.write >= 0 && q.ret >= 0 ==> o.ret >= 0)
    && (o.event.Receive? ==> o.ret == env.callback)
  }

  lemma StepAgrees(rx: Rx, limit: nat, c: byte, env: Env)
    ensures Agrees(Step(Server, rx, limit, c, env), Step(Server, rx, limit, c, QUIET), env)
  {
    hide CollectData, CollectKey, AfterLength, LengthByte, FirstHeader, OrOctet, Pow256;
    match rx.state {
      case Payload => DataAgrees(rx, limit, c, env);
      case KeyByte(j) => KeyAgrees(rx, j, c, env);
      case HdrLen => LengthAgrees(rx, c, env);
      case _ => LengthEnds(rx.(length := OrOctet(rx.length, c, 0)), env);
    }
  }

  lemma SpillAgrees(rx: Rx, env: Env)
    ensures Agrees(Spill(Server, rx, env), Spill(Server, rx, QUIET), env)
  {}

  lemma DataAgrees(rx: Rx, limit: nat, c: byte, env: Env)
    ensures Agrees(CollectData(Server, rx, limit, c, env), CollectData(Server, rx, limit, c, QUIET), env)
  {
    hide Spill, Plain, NextIndex;
    var data := rx.data + [Plain(Server, rx, c)];
    var next := rx.(data := data, maskIndex := NextIndex(Server, rx), length := Less(rx.length));
    SpillAgrees(next, env);
    SpillAgrees(next.(state := New), env);
  }

  lemma KeyAgrees(rx: Rx, j: OneToFour, c: byte, env: Env)
    ensures Agrees(CollectKey(Server, rx, j, c, env), CollectKey(Server, rx, j, c, QUIET), env)
  {
    hide Spill;
    var keyed := rx.(nonce := rx.nonce[j - 1 := c], allZero := rx.allZero && c == 0);
    SpillAgrees(keyed.(state := Payload, maskIndex := 0), env);
  }

  lemma LengthAgrees(rx: Rx, c: byte, env: Env)
    ensures Agrees(LengthByte(Server, rx, c, env), LengthByte(Server, rx, c, QUIET), env)
  {
    hide Spill;
  }

  lemma LengthEnds(rx: Rx, env: Env)
    ensures Agrees(AfterLength(Server, rx, env), AfterLength(Server, rx, QUIET), env)
  {
    hide Spill;
  }

  /** The place of the first byte whose callback leaves reception paused. */
  function FirstPause(rx: Rx, limit: nat, buf: seq<byte>, acts: seq<Act>): (r: Option<nat>)
    requires |acts| == |buf|
    ensures r.Some? ==> r.value < |buf|
    decreases |buf|
  {
    if buf == [] then None
    else
      var o := Step(Server, rx, limit, buf[0], EnvOf(acts[0]));
      if o.ret < 0 then None
      else if o.event.Receive? && Pauses(acts[0]) then Some(0)
      else
        match FirstPause(o.rx, limit, buf[1..], acts[1..])
        case None => None
        case Some(k) => Some(k + 1)
  }

  /** From a running connection without a stash: bytes are put aside exactly when a callback other than that of the last
      byte pauses, and POLLIN stays armed beside them exactly when that callback does not return 0. */
  lemma {:induction false} LoopStashes(rx: Rx, c: Control, limit: nat, buf: seq<byte>, acts: seq<Act>)
    requires |acts| == |buf| && c.allow && c.pollin
    ensures var r, k := Loop(rx, c, false, limit, buf, acts), FirstPause(rx, limit, buf, acts);
      && (r.ret == 1 <==> k.Some? && k.value + 1 < |buf|)
      && (r.ret == 1 ==> r.taken == k.value + 1 && !r.control.allow)
      && (r.ret == 1 && r.control.pollin <==> k.Some? && k.value + 1 < |buf| && acts[k.value].ret != 0)
      && (k.None? ==> r.control.allow || r.ret < 0)
    decreases |buf|
  {
    hide Step, AfterCalls, Changes;
    if buf != [] {
      var o := Step(Server, rx, limit, buf[0], EnvOf(acts[0]));
      CallsAre(c, acts[0].enables);
      var d := AfterByte(c, false, acts[0], o.event);
      if o.ret >= 0 {
        if o.event.Receive? && Pauses(acts[0]) {
          LoopPaused(o.rx, d, false, limit, buf[1..], acts[1..]);
        } else {
          LoopStashes(o.rx, d, limit, buf[1..], acts[1..]);
        }
      }
    }
  }

  lemma LoopPaused(rx: Rx, c: Control, stashed: bool, limit: nat, buf: seq<byte>, acts: seq<Act>)
    requires |acts| == |buf| && !c.allow
    ensures Loop(rx, c, stashed, limit, buf, acts) == Ran(rx, c, 0, if buf == [] then 0 else 1)
  {}

  /** While neither callbacks nor writes ask for the end, only bytes that the machine refuses end the connection. */
  lemma {:induction false} LoopKeepsOpen(rx: Rx, c: Control, stashed: bool, limit: nat, buf: seq<byte>, acts: seq<Act>)
    requires |acts| == |buf| && AllKeeping(acts)
    ensures var r := Loop(rx, c, stashed, limit, buf, acts);
      r.ret < 0 ==> !Feed(Server, rx, limit, buf[..r.taken], QUIET).ok
    decreases |buf|
  {
    hide Step, AfterCallback, Feed, Keyless, Noted;
    var r := Loop(rx, c, stashed, limit, buf, acts);
    if r.ret < 0 {
      assert Keeping(acts[0]);
      StepAgrees(rx, limit, buf[0], EnvOf(acts[0]));
      var o, s := Step(Server, rx, limit, buf[0], EnvOf(acts[0])), buf[..r.taken];
      if o.ret < 0 {
        FeedStop(Server, rx, limit, s, QUIET);
      } else {
        LoopKeepsOpen(o.rx, AfterByte(c, stashed, acts[0], o.event), stashed, limit, buf[1..], acts[1..]);
        FeedFirst(Server, rx, limit, s, QUIET);
        assert s[1..] == buf[1..][..r.taken - 1];
      }
    }
  }

  lemma {:induction false} NoPause(rx: Rx, limit: nat, buf: seq<byte>, acts: seq<Act>)
    requires |acts| == |buf| && forall i | 0 <= i < |acts| :: acts[i].enables == []
    ensures FirstPause(rx, limit, buf, acts) == None
    decreases |buf|
  {
    hide Step;
    if buf != [] {
      NoPause(Step(Server, rx, limit, buf[0], EnvOf(acts[0])).rx, limit, buf[1..], acts[1..]);
    }
  }

  /** A stream the machine accepts goes in completely when the user never pauses and keeps the connection. */
  lemma LoopTakesAll(rx: Rx, c: Control, limit: nat, buf: seq<byte>, acts: seq<Act>)
    requires |acts| == |buf| && c.allow && c.pollin && AllKeeping(acts) && Feed(Server, rx, limit, buf, QUIET).ok
    requires forall i | 0 <= i < |acts| :: acts[i].enables == []
    ensures var r := Loop(rx, c, false, limit, buf, acts); r.ret == 0 && r.taken == |buf|
  {
    hide Loop, Feed, Step, FirstPause, AllKeeping;
    NoPause(rx, limit, buf, acts);
    LoopStashes(rx, c, limit, buf, acts);
    LoopKeepsOpen(rx, c, false, limit, buf, acts);
    var k := Loop(rx, c, false, limit, buf, acts).taken;
    PrefixAccepted(rx, limit, buf[..k], buf);
  }

  /** A beginning of an accepted stream is accepted, and what it shows comes first. */
  lemma PrefixAccepted(rx: Rx, limit: nat, s: seq<byte>, all: seq<byte>)
    requires s <= all && Feed(Server, rx, limit, all, QUIET).ok
    ensures var t, u := Feed(Server, rx, limit, s, QUIET), Feed(Server, rx, limit, all, QUIET);
      t.ok && t.events <= u.events
  {
    hide Feed, Step;
    assert all == s + all[|s|..];
    FeedAppend(Server, rx, limit, s, all[|s|..], QUIET);
  }

  // ----- a whole service on values

  /** What a service leaves: machine and flow state, the unread part of the stash if there is one, the bytes that went
      into the machine, whether the connection was closed, and whether recv was called. */
  datatype Served = Served(rx: Rx, control: Control, stash: Option<seq<byte>>, fed: seq<byte>, closed: bool, read: bool)

  /** The established case of libwebsocket_read; buf is the stash if there is one. */
  function ReadOf(rx: Rx, c: Control, stashed: bool, limit: nat, buf: seq<byte>, acts: seq<Act>): Served
    requires |acts| == |buf|
  {
    var r := Loop(rx, c, stashed, limit, buf, acts);
    Served(r.rx, r.control, if stashed || r.ret == 1 then Some(buf[r.taken..]) else None, buf[..r.taken], r.ret < 0,
           false)
  }

  /** From the label drain on, with a stash. */
  function DrainOf(rx: Rx, c: Control, limit: nat, stash: seq<byte>, acts: seq<Act>): Served
    requires |acts| == |stash|
  {
    var s := ReadOf(rx, c, true, limit, stash, acts);
    if !s.closed && s.stash == Some([]) then s.(stash := None, control := Applied(s.control, false)) else s
  }

  /** The flow state behind a writable event. */
  function AfterWritable(c: Control, stashed: bool, writable: Option<Act>): Control {
    if writable.None? then c else AfterCallback(c.(pollout := false), stashed, writable.value)
  }

  function Bytes(s: Option<seq<byte>>): seq<byte> { if s.None? then [] else s.value }

  function ServiceOf(rx: Rx, c: Control, stash: Option<seq<byte>>, limit: nat, writable: Option<Act>,
                     readable: Option<seq<byte>>, acts: seq<Act>): Served
    requires |acts| == |Bytes(stash)| + |Bytes(readable)| && (stash.None? || readable.None?)
  {
    var d := AfterWritable(c, stash.Some?, writable);
    if writable.Some? && writable.value.ret < 0 then Served(rx, d, stash, [], true, false)
    else if stash.Some? && d.allow then DrainOf(rx, d, limit, stash.value, acts)
    else if readable.None? then Served(rx, d, stash, [], false, false)
    else ReadOf(rx, d, false, limit, readable.value, acts).(read := true)
  }

  /** The last call of the callback asks for reception. */
  predicate Resumes(act: Act) { act.enables != [] && act.enables[|act.enables| - 1] != 0 }

  predicate NonePauses(acts: seq<Act>) { forall i | 0 <= i < |acts| :: !Pauses(acts[i]) }

  /** Bytes that the machine accepts go in completely, with or without a stash, while nobody pauses. */
  lemma {:induction false} LoopGoesOn(rx: Rx, c: Control, stashed: bool, limit: nat, buf: seq<byte>, acts: seq<Act>)
    requires |acts| == |buf| && c.allow && NonePauses(acts) && AllKeeping(acts)
    requires Feed(Server, rx, limit, buf, QUIET).ok
    ensures var r := Loop(rx, c, stashed, limit, buf, acts);
      && r.ret == 0 && r.taken == |buf| && r.control.allow
      && (stashed && c.pending ==> r.control.pending) && (!stashed && c.pollin ==> r.control.pollin)
    decreases |buf|
  {
    hide Step, AfterCalls, Changes, Feed, Noted, Keyless;
    LoopIs(rx, c, stashed, limit, buf, acts);
    if buf != [] {
      var env := EnvOf(acts[0]);
      assert Keeping(acts[0]) && !Pauses(acts[0]);
      StepAgrees(rx, limit, buf[0], env);
      CallsAre(c, acts[0].enables);
      if Step(Server, rx, limit, buf[0], QUIET).ret < 0 {
        FeedStop(Server, rx, limit, buf, QUIET);
      } else {
        FeedFirst(Server, rx, limit, buf, QUIET);
        var o := Step(Server, rx, limit, buf[0], env);
        LoopGoesOn(o.rx, AfterByte(c, stashed, acts[0], o.event), stashed, limit, buf[1..], acts[1..]);
      }
    }
  }

  /** A resume takes effect: the stash goes into the machine completely, and POLLIN is armed again. */
  lemma ResumeDrains(rx: Rx, c: Control, stash: seq<byte>, limit: nat, act: Act, acts: seq<Act>)
    requires Armed(c, true) && Resumes(act) && act.ret >= 0
    requires |acts| == |stash| && NonePauses(acts) && AllKeeping(acts) && Feed(Server, rx, limit, stash, QUIET).ok
    ensures var s := ServiceOf(rx, c, Some(stash), limit, Some(act), None, acts);
      s.stash == None && s.fed == stash && !s.closed && s.control.allow && s.control.pollin && !s.control.pending
  {
    hide Feed, Step, AfterCalls, Changes, NonePauses, AllKeeping, Loop;
    CallsAre(c.(pollout := false), act.enables);
    var d := AfterWritable(c, true, Some(act));
    LoopGoesOn(rx, d, true, limit, stash, acts);
    assert stash[|stash|..] == [] && stash[..|stash|] == stash;
  }

  /** A resume in any other callback waits for that: it only asks for a writable event. */
  lemma ResumeAsks(c: Control, act: Act)
    requires Armed(c, true) && Resumes(act) && act.ret == 0
    ensures var d := AfterCallback(c, true, act); d.allow && d.pollout && !d.pollin && Armed(d, true)
  {
    hide AfterCalls, Changes;
    CallsAre(c, act.enables);
  }

  /** Without a stash a callback leaves POLLIN as its last call asks, or as it was. */
  lemma WritableSets(rx: Rx, c: Control, limit: nat, act: Act)
    requires Armed(c, false) && Good(act) && act.ret >= 0
    ensures var s := ServiceOf(rx, c, None, limit, Some(act), None, []);
      && s.stash == None && s.fed == [] && !s.closed && s.rx == rx
      && s.control.allow == (if act.enables == [] then c.allow else act.enables[|act.enables| - 1] != 0)
      && s.control.pollin == s.control.allow && !s.control.pending && !s.control.pollout
  {
    hide AfterCalls, Changes;
    CallsAre(c.(pollout := false), act.enables);
    ChangesNone(c.allow);
  }

  lemma ChangesNone(allow: bool)
    ensures !Changes(allow, [])
  {}

  /** Bytes that arrive while reception is on, after what the callback of a writable event asks for, go in
      completely. */
  lemma ArrivalFeeds(rx: Rx, c: Control, limit: nat, writable: Option<Act>, buf: seq<byte>, acts: seq<Act>)
    requires Armed(c, false) && (writable.Some? ==> Good(writable.value) && writable.value.ret >= 0)
    requires if writable.None? || writable.value.enables == [] then c.allow else Resumes(writable.value)
    requires |acts| == |buf| && NonePauses(acts) && AllKeeping(acts) && Feed(Server, rx, limit, buf, QUIET).ok
    ensures var s := ServiceOf(rx, c, None, limit, writable, Some(buf), acts);
      s.stash == None && s.fed == buf && !s.closed && s.control.allow && s.control.pollin && s.read
  {
    hide Feed, Step, AfterCalls, Changes, NonePauses, AllKeeping, Loop;
    if writable.Some? {
      CallsAre(c.(pollout := false), writable.value.enables);
      ChangesNone(c.allow);
    }
    LoopGoesOn(rx, AfterWritable(c, false, writable), false, limit, buf, acts);
    assert buf[..|buf|] == buf;
  }

  /** While reception stays paused a stash is left alone. */
  lemma PauseHolds(rx: Rx, c: Control, stash: seq<byte>, limit: nat, writable: Option<Act>, acts: seq<Act>)
    requires |acts| == |stash| && (writable.Some? ==> writable.value.ret >= 0)
    requires if writable.None? || writable.value.enables == [] then !c.allow else !Resumes(writable.value)
    ensures var s := ServiceOf(rx, c, Some(stash), limit, writable, None, acts);
      && s.stash == Some(stash) && s.fed == [] && !s.closed && s.rx == rx
      && !s.control.allow && s.control.pollin == c.pollin
  {
    hide AfterCalls, Changes;
    if writable.Some? {
      CallsAre(c.(pollout := false), writable.value.enables);
    }
  }

  /** Between services a stash exists only while reception is paused. */
  predicate Resting(c: Control, stash: Option<seq<byte>>) {
    Armed(c, stash.Some?) && (stash.Some? ==> !c.allow)
  }

  lemma ReadKeeps(rx: Rx, c: Control, stashed: bool, limit: nat, buf: seq<byte>, acts: seq<Act>)
    requires |acts| == |buf| && Armed(c, stashed) && AllGood(acts)
    ensures var s := ReadOf(rx, c, stashed, limit, buf, acts);
      && s.fed <= buf && (!s.closed ==> s.fed + Bytes(s.stash) == buf)
      && (!s.closed ==> Armed(s.control, s.stash.Some?) && (s.stash.Some? && s.control.allow ==> s.stash.value == []))
      && (!s.closed && !stashed && s.stash.Some? ==> !s.control.allow)
      && (stashed && !s.closed ==> s.stash.Some?)
  {
    hide Step, Armed, AllGood, Loop;
    LoopKeeps(rx, c, stashed, limit, buf, acts);
    var r := Loop(rx, c, stashed, limit, buf, acts);
    assert buf[..r.taken] + buf[r.taken..] == buf;
    assert r.ret == 0 ==> buf[r.taken..] == [];
  }

  lemma ReadClosed(rx: Rx, c: Control, stashed: bool, limit: nat, buf: seq<byte>, acts: seq<Act>)
    requires |acts| == |buf| && AllKeeping(acts)
    ensures var s := ReadOf(rx, c, stashed, limit, buf, acts); s.closed ==> !Feed(Server, rx, limit, s.fed, QUIET).ok
  {
    hide Step, Feed, Loop, AllKeeping;
    LoopKeepsOpen(rx, c, stashed, limit, buf, acts);
  }

  /** With good callbacks a service keeps the invariant and loses no byte; while nobody asks for the end, only a byte
      that the machine refuses closes the connection. */
  lemma ServiceKeeps(rx: Rx, c: Control, stash: Option<seq<byte>>, limit: nat, writable: Option<Act>,
                     readable: Option<seq<byte>>, acts: seq<Act>)
    requires |acts| == |Bytes(stash)| + |Bytes(readable)| && (stash.None? || readable.None?)
    requires Resting(c, stash) && AllGood(acts) && (writable.Some? ==> Good(writable.value))
    ensures var s := ServiceOf(rx, c, stash, limit, writable, readable, acts);
      var all := Bytes(stash) + (if s.read then Bytes(readable) else []);
      && s.fed <= all && (!s.closed ==> Resting(s.control, s.stash) && s.fed + Bytes(s.stash) == all)
      && (!s.read && readable.Some? ==> s.closed)
      && (AllKeeping(acts) && (writable.Some? ==> Keeping(writable.value)) && s.closed ==>
            !Feed(Server, rx, limit, s.fed, QUIET).ok)
  {
    hide Step, Feed, ReadOf, AllGood, AllKeeping, AfterCalls, Changes;
    if writable.Some? {
      CallbackKeeps(c.(pollout := false), stash.Some?, writable.value);
      ChangesNone(c.allow);
    }
    var d := AfterWritable(c, stash.Some?, writable);
    if writable.None? || writable.value.ret >= 0 {
      if stash.Some? && d.allow {
        ReadKeeps(rx, d, true, limit, stash.value, acts);
        if AllKeeping(acts) {
          ReadClosed(rx, d, true, limit, stash.value, acts);
        }
      } else if readable.Some? {
        ReadKeeps(rx, d, false, limit, readable.value, acts);
        if AllKeeping(acts) {
          ReadClosed(rx, d, false, limit, readable.value, acts);
        }
      }
    }
  }

  lemma NotRead(rx: Rx, c: Control, stash: Option<seq<byte>>, limit: nat, writable: Option<Act>, acts: seq<Act>)
    requires |acts| == |Bytes(stash)|
    ensures !ServiceOf(rx, c, stash, limit, writable, None, acts).read
  {
    hide Loop;
  }
}
