/** libwebsocket_write in output.c: the frame header, the key and the masking go into the caller's buffer in place. */
module WsSend {
  import opened Words
  import opened Octets
  import opened Options
  import opened SevenBit
  import opened WsFrame
  import opened WsRx

  /** The low nibble of enum libwebsocket_write_protocol, and LWS_WRITE_NO_FIN. */
  datatype Kind = WriteText | WriteBinary | WriteContinuation | WriteHttp | WriteClose | WritePing | WritePong | Unknown
  datatype Protocol = Protocol(kind: Kind, noFin: bool)

  /** The masking loop counts in an int up to the length and four more. */
  const INT_LIMIT: nat := 0x8000_0000

  const PRE_PADDING: nat := 18
  const POST_PADDING: nat := 4

  function Opcode(kind: Kind): Option<byte> {
    match kind
    case WriteText => Some(TEXT)
    case WriteBinary => Some(BINARY)
    case WriteContinuation => Some(CONTINUATION)
    case WriteClose => Some(CLOSE)
    case WritePing => Some(PING)
    case WritePong => Some(PONG)
    case WriteHttp => None
    case Unknown => None
  }

  /** The payload of the frame: a CLOSE starts with its reason code. */
  function Body(kind: Kind, reason: nat, p: seq<byte>): seq<byte> {
    if kind == WriteClose && reason != 0 then OctetsFrom(reason, 2) + p else p
  }

  predicate Reasoned(kind: Kind, reason: nat) { kind == WriteClose && reason != 0 }

  function ReasonLen(kind: Kind, reason: nat): (n: nat)
    ensures n <= 2
  {
    if Reasoned(kind, reason) then 2 else 0
  }

  /** The frame a write stands for. */
  function Meant(protocol: Protocol, reason: nat, key: Option<Key>, p: seq<byte>): Frame
    requires Opcode(protocol.kind).Some?
  {
    Frame(!protocol.noFin, Opcode(protocol.kind).value, key, Body(protocol.kind, reason, p))
  }

  /** What leaves a client for a CLOSE with a reason: the key sits two bytes late, over the reason, behind two bytes
      the buffer held before. */
  function Misplaced(f: Frame, key: Key, stale: seq<byte>, p: seq<byte>): seq<byte> {
    Header(f) + stale + key + Masked(key, 0, p)
  }

  predicate Displaces(client: bool, protocol: Protocol, reason: nat) {
    client && protocol.kind == WriteClose && reason != 0
  }

  /** What a write sends when it gets as far as sending a frame. */
  function Sent(client: bool, reason: nat, protocol: Protocol, random: Option<Key>, stale: seq<byte>,
                p: seq<byte>): seq<byte>
    requires Opcode(protocol.kind).Some? && (client ==> random.Some?)
  {
    var f := Meant(protocol, reason, if client then random else None, p);
    if Displaces(client, protocol, reason) then Misplaced(f, random.value, stale, p) else Wire(f)
  }

  /** A client's CLOSE with a reason never has the wire form of its frame. */
  lemma MisplacedIsWrong(protocol: Protocol, reason: nat, key: Key, stale: seq<byte>, p: seq<byte>)
    requires protocol.kind == WriteClose && 0 < reason < 65536 && |stale| == 2
    ensures var f := Meant(protocol, reason, Some(key), p); Misplaced(f, key, stale, p) != Wire(f)
  {
    hide Header, Octet, Mix;
    var f := Meant(protocol, reason, Some(key), p);
    var body := OctetsFrom(reason, 2) + p;
    var late, right := stale + key + Masked(key, 0, p), key + Masked(key, 0, body);
    assert OctetsFrom(reason, 2) == [Octet(reason, 1), Octet(reason, 0)] by {
      assert OctetsFrom(reason, 1) == [Octet(reason, 0)];
    }
    assert Misplaced(f, key, stale, p) == Header(f) + late;
    if late == right {
      assert late[2] == key[0] && late[3] == key[1] && late[4] == key[2] && late[5] == key[3];
      assert right[2] == key[2] && right[3] == key[3];
      assert right[4] == Mix(Octet(reason, 1), key[0]) && right[5] == Mix(Octet(reason, 0), key[1]);
      MixSelf(Octet(reason, 1), key[0]);
      MixSelf(Octet(reason, 0), key[1]);
      ZeroReason(reason);
    }
    SameTail(Header(f), late, right);
  }

  /** What a write sends has the wire form of the frame that was meant exactly when it is not a client's CLOSE with a
      reason. */
  lemma WireUnlessDisplaced(client: bool, reason: nat, protocol: Protocol, random: Option<Key>, stale: seq<byte>,
                            p: seq<byte>)
    requires Opcode(protocol.kind).Some? && (client ==> random.Some?) && reason < 65536 && |stale| == 2
    ensures var f := Meant(protocol, reason, if client then random else None, p);
      (Sent(client, reason, protocol, random, stale, p) == Wire(f)) <==> !Displaces(client, protocol, reason)
  {
    hide Wire, Misplaced, Meant;
    if Displaces(client, protocol, reason) {
      MisplacedIsWrong(protocol, reason, random.value, stale, p);
    }
  }

  /** The first byte on the wire for each kind of write: the opcodes of section 11.8 of RFC 6455, and FIN. */
  lemma SentFirst(client: bool, reason: nat, protocol: Protocol, random: Option<Key>, stale: seq<byte>, p: seq<byte>)
    requires Opcode(protocol.kind).Some? && (client ==> random.Some?)
    ensures var sent := Sent(client, reason, protocol, random, stale, p); var more := protocol.noFin;
      |sent| > 0 && match protocol.kind
        case WriteContinuation => sent[0] == if more then 0x00 else 0x80
        case WriteText => sent[0] == if more then 0x01 else 0x81
        case WriteBinary => sent[0] == if more then 0x02 else 0x82
        case WriteClose => sent[0] == if more then 0x08 else 0x88
        case WritePing => sent[0] == if more then 0x09 else 0x89
        case WritePong => sent[0] == if more then 0x0a else 0x8a
        case _ => false
  {
    hide Body, LengthField, Masked, FirstByte;
    FirstBytes();
  }

  lemma FirstBytes()
    ensures FirstByte(0, false) == 0x00 && FirstByte(1, false) == 0x01 && FirstByte(2, false) == 0x02
    ensures FirstByte(8, false) == 0x08 && FirstByte(9, false) == 0x09 && FirstByte(10, false) == 0x0a
    ensures FirstByte(0, true) == 0x80 && FirstByte(1, true) == 0x81 && FirstByte(2, true) == 0x82
    ensures FirstByte(8, true) == 0x88 && FirstByte(9, true) == 0x89 && FirstByte(10, true) == 0x8a
  {}

  lemma SameTail(h: seq<byte>, a: seq<byte>, b: seq<byte>)
    ensures h + a == h + b ==> a == b
  {
    assert (h + a)[|h|..] == a && (h + b)[|h|..] == b;
  }

  lemma MixSelf(b: byte, k: byte)
    ensures Mix(b, k) == k ==> b == 0
  {}

  /** Only reason 0 has two zero octets. */
  lemma ZeroReason(reason: nat)
    requires reason < 65536 && Octet(reason, 1) == 0 && Octet(reason, 0) == 0
    ensures reason == 0
  {
    hide Shift8, Index, ByteAt;
    OctetIndex(reason, 1);
    OctetIndex(reason, 0);
    ZeroByte();
    Shift8Next(reason, 0);
  }

  lemma {:induction false} OctetsAt(n: nat, k: nat, i: nat)
    requires i < k
    ensures OctetsFrom(n, k)[i] == Octet(n, k - 1 - i)
    decreases k
  {
    hide Octet;
    if i > 0 {
      OctetsAt(n, k - 1, i - 1);
    }
  }

  lemma SevenAnd(b: byte)
    requires Seven(b)
    ensures Low7(b) == b
  {}

  lemma TopOctetSeven(n: nat)
    requires n < LIMIT63
    ensures Low7(Octet(n, 7)) == Octet(n, 7)
  {
    hide Shift8, Seven, Low7, ByteAt;
    TopOctet(n);
    SevenByteAt(Shift8(n, 7));
    SevenAnd(Octet(n, 7));
  }

  /** The fields libwebsocket_write uses; nonce and maskIndex are those the receive side uses too. */
  class Writer {
    const client: bool
    var established: bool
    var insideFrame: bool
    var closeReason: nat
    const nonce: array<byte>
    var maskIndex: byte

    ghost predicate Valid()
      reads this
    {
      nonce.Length == 4 && closeReason < 65536 && !insideFrame
    }

    constructor (client: bool, nonce: array<byte>)
      requires nonce.Length == 4
      ensures Valid() && this.client == client && this.nonce == nonce && established && closeReason == 0
    {
      this.client, this.nonce := client, nonce;
      established, insideFrame, closeReason, maskIndex := true, false, 0, 0;
    }

    /** len >> 8 * k, for k from n - 1 down to 0, from place at on. */
    method PutOctets(buf: array<byte>, at: nat, len: nat, n: nat)
      requires at + n <= buf.Length
      modifies buf
      ensures buf[at..at + n] == OctetsFrom(len, n)
      ensures forall j | 0 <= j < buf.Length && !(at <= j < at + n) :: buf[j] == old(buf[j])
    {
      hide Octet;
      ghost var before := buf[..];
      for i := 0 to n
        invariant forall j | 0 <= j < i :: buf[at + j] == OctetsFrom(len, n)[j]
        invariant forall j | 0 <= j < buf.Length && !(at <= j < at + i) :: buf[j] == before[j]
      {
        OctetsAt(len, n, i);
        buf[at + i] := Octet(len, n - 1 - i);
      }
    }

    method PutShort(buf: array<byte>, end: nat, first: byte, len: nat)
      requires 10 <= end <= buf.Length && len < 126
      modifies buf
      ensures buf[end - 2..end] == [first] + LengthField(len, client)
      ensures forall j | 0 <= j < buf.Length && !(end - 2 <= j < end) :: buf[j] == old(buf[j])
    {
      hide ByteAt, WithFlag;
      buf[end - 2] := first;
      buf[end - 1] := WithFlag(ByteAt(len), client);
      assert buf[end - 2..end] == [first] + [WithFlag(ByteAt(len), client)];
    }

    method PutMedium(buf: array<byte>, end: nat, first: byte, len: nat)
      requires 10 <= end <= buf.Length && 126 <= len < 65536
      modifies buf
      ensures buf[end - 4..end] == [first] + LengthField(len, client)
      ensures forall j | 0 <= j < buf.Length && !(end - 4 <= j < end) :: buf[j] == old(buf[j])
    {
      hide WithFlag, OctetsFrom;
      buf[end - 4] := first;
      buf[end - 3] := WithFlag(126, client);
      PutOctets(buf, end - 2, len, 2);
      assert buf[end - 4..end] == [first] + ([WithFlag(126, client)] + buf[end - 2..end]);
    }

    /** The most significant octet of the length is stored without its top bit. */
    method PutLong(buf: array<byte>, end: nat, first: byte, len: nat)
      requires 10 <= end <= buf.Length && 65536 <= len < LIMIT63
      modifies buf
      ensures buf[end - 10..end] == [first] + LengthField(len, client)
      ensures forall j | 0 <= j < buf.Length && !(end - 10 <= j < end) :: buf[j] == old(buf[j])
    {
      hide WithFlag, OctetsFrom, Octet, Low7;
      TopOctetSeven(len);
      OctetsNext(len, 7);
      buf[end - 10] := first;
      buf[end - 9] := WithFlag(127, client);
      buf[end - 8] := Low7(Octet(len, 7));
      PutOctets(buf, end - 7, len, 7);
      assert buf[end - 10..end] == [first] + ([WithFlag(127, client)] + ([Octet(len, 7)] + buf[end - 7..end]));
    }

    /** The first byte and the length, ending where the key or the payload starts. */
    method PutHeader(buf: array<byte>, end: nat, first: byte, len: nat) returns (pre: nat)
      requires 10 <= end <= buf.Length && len < LIMIT63
      modifies buf
      ensures pre <= 10 && buf[end - pre..end] == [first] + LengthField(len, client)
      ensures Outside(old(buf[..]), buf[..], end - pre, end)
    {
      hide LengthField;
      if len < 126 {
        pre := 2;
        PutShort(buf, end, first, len);
      } else if len < 65536 {
        pre := 4;
        PutMedium(buf, end, first, len);
      } else {
        pre := 10;
        PutLong(buf, end, first, len);
      }
    }

    /** The masking loop. */
    method MaskLoop(buf: array<byte>, at: nat, len: nat)
      requires nonce.Length == 4 && nonce != buf && at + len <= buf.Length && maskIndex == 0 && len + 4 < INT_LIMIT
      modifies this`maskIndex, buf
      ensures forall j | 0 <= j < len :: buf[at + j] == Mix(old(buf[at + j]), nonce[j % 4])
      ensures forall j | 0 <= j < buf.Length && !(at <= j < at + len) :: buf[j] == old(buf[j])
    {
      hide Mix, Slot;
      SlotNext(0);
      ghost var before := buf[..];
      for n := 0 to len
        invariant Slot(maskIndex) == n % 4
        invariant forall j | 0 <= j < n :: buf[at + j] == Mix(before[at + j], nonce[j % 4])
        invariant forall j | 0 <= j < buf.Length && !(at <= j < at + n) :: buf[j] == before[j]
      {
        SlotNext(maskIndex);
        SlotOfNext(n);
        buf[at + n] := Mix(buf[at + n], nonce[Slot(maskIndex)]);
        maskIndex := maskIndex + 1;
      }
    }

    method MaskInPlace(buf: array<byte>, at: nat, len: nat)
      requires nonce.Length == 4 && nonce != buf && at + len <= buf.Length && maskIndex == 0 && len + 4 < INT_LIMIT
      modifies this`maskIndex, buf
      ensures buf[at..at + len] == Masked(nonce[..], 0, old(buf[at..at + len]))
      ensures forall j | 0 <= j < buf.Length && !(at <= j < at + len) :: buf[j] == old(buf[j])
    {
      hide Mix;
      ghost var p, k: Key := buf[at..at + len], nonce[..];
      MaskLoop(buf, at, len);
      forall j | 0 <= j < len
        ensures buf[at + j] == Masked(k, 0, p)[j]
      {
        assert p[j] == old(buf[at + j]);
      }
    }

    /** libwebsocket_0405_frame_mask_generate, with the random bytes given; None when there are none. */
    method GenerateMask(random: Option<Key>) returns (failed: bool)
      requires nonce.Length == 4
      modifies this`maskIndex, nonce
      ensures failed <==> random.None?
      ensures random.Some? ==> nonce[..] == random.value && maskIndex == 0
      ensures random.None? ==> unchanged(this) && unchanged(nonce)
    {
      if random.None? {
        return true;
      }
      forall i | 0 <= i < 4 {
        nonce[i] := random.value[i];
      }
      maskIndex := 0;
      return false;
    }

    /** Masks body bytes from place at on and stores the key right before them. */
    method MaskAndKey(buf: array<byte>, at: nat, len: nat)
      requires nonce.Length == 4 && nonce != buf && 4 <= at && at + len <= buf.Length && maskIndex == 0
      requires len + 4 < INT_LIMIT
      modifies this`maskIndex, buf
      ensures buf[at - 4..at] == nonce[..]
      ensures buf[at..at + len] == Masked(nonce[..], 0, old(buf[at..at + len]))
      ensures Outside(old(buf[..]), buf[..], at - 4, at + len)
    {
      hide Masked;
      ghost var k: Key := nonce[..];
      MaskInPlace(buf, at, len);
      assert nonce[..] == k;
      ghost var masked := buf[at..at + len];
      forall i | 0 <= i < 4 {
        buf[at - 4 + i] := nonce[i];
      }
      assert nonce[..] == k && buf[at - 4..at] == k;
      assert buf[at..at + len] == masked;
    }

    /** reason codes count as data bytes: they go right before the payload. */
    method PutReason(buf: array<byte>, at: nat)
      requires 2 <= at <= buf.Length && closeReason < 65536
      modifies buf
      ensures buf[at - 2..at] == OctetsFrom(closeReason, 2)
      ensures forall j | 0 <= j < buf.Length && !(at - 2 <= j < at) :: buf[j] == old(buf[j])
    {
      PutOctets(buf, at - 2, closeReason, 2);
    }

    function KeyLen(): nat { if client then 4 else 0 }

    /** Header, and then masking and key on the client, of a body of total bytes that starts at base; the key goes
        right before place at. */
    method Frame(buf: array<byte>, at: nat, base: nat, total: nat, first: byte, random: Option<Key>)
      returns (failed: bool, pre: nat)
      requires Valid() && nonce != buf && 18 <= at <= base + 2 && base <= at && at + total <= buf.Length
      requires total < LIMIT63
      requires client ==> total + 4 < INT_LIMIT
      modifies this`maskIndex, nonce, buf
      ensures failed <==> client && random.None?
      ensures !client || failed ==> unchanged(this`maskIndex) && unchanged(nonce)
      ensures client && !failed ==> nonce[..] == random.value
      ensures KeyLen() <= pre <= KeyLen() + 10
      ensures !failed ==> Framed(old(buf[..]), buf[..], client, at, base, total, pre, first, random)
    {
      hide LengthField, Masked, Outside;
      ghost var b0 := buf[..];
      pre := KeyLen();
      var h := PutHeader(buf, base - pre, first, total);
      ghost var b1 := buf[..];
      ghost var header := [first] + LengthField(total, client);
      pre := pre + h;
      failed := false;
      if client {
        failed := GenerateMask(random);
        if !failed {
          MaskAndKey(buf, at, total);
          FramedByClient(b0, b1, buf[..], base - pre, base, at, at + total, header, random.value);
        }
      } else {
        FramedByServer(b0, b1, base - pre, base, base + total, header);
      }
    }

    /** reason codes go in front of the payload, which buf then points to. */
    method PlaceReason(buf: array<byte>, at: nat, len: nat, kind: Kind) returns (base: nat, total: nat)
      requires closeReason < 65536 && PRE_PADDING <= at && at + len <= buf.Length
      modifies buf
      ensures base == at - ReasonLen(kind, closeReason) && total == len + ReasonLen(kind, closeReason)
      ensures Placed(old(buf[..]), buf[..], at, len, kind, closeReason)
    {
      hide OctetsFrom;
      base, total := at, len;
      if kind == WriteClose && closeReason != 0 {
        PutReason(buf, at);
        base := base - 2;
        total := total + 2;
        assert buf[at..at + len] == old(buf[at..at + len]);
        Join(buf[..], at - 2, at, at + len);
        assert buf[at - 6..at - 4] == old(buf[at - 6..at - 4]);
      }
    }

    /** The part of libwebsocket_write that builds a frame. */
    method WriteFrame(buf: array<byte>, at: nat, len: nat, protocol: Protocol, random: Option<Key>)
      returns (failed: bool, sent: seq<byte>)
      requires Valid() && nonce != buf && PRE_PADDING <= at && at + len + POST_PADDING <= buf.Length
      requires len + 2 < LIMIT63
      requires client ==> len + ReasonLen(protocol.kind, closeReason) + 4 < INT_LIMIT
      requires Opcode(protocol.kind).Some?
      modifies this`maskIndex, nonce, buf
      ensures failed <==> client && random.None?
      ensures !client || failed ==> unchanged(this`maskIndex) && unchanged(nonce)
      ensures client && !failed ==> nonce[..] == random.value
      ensures !failed ==>
        sent == Sent(client, closeReason, protocol, random, old(buf[at - 6..at - 4]), old(buf[at..at + len]))
    {
      hide FirstByte, Opcode, Sent, ReasonLen, Placed, Framed;
      ghost var a := buf[..];
      var base, total := PlaceReason(buf, at, len, protocol.kind);
      ghost var b := buf[..];
      var pre;
      failed, pre := Frame(buf, at, base, total, FirstByte(Opcode(protocol.kind).value, !protocol.noFin), random);
      if failed {
        return true, [];
      }
      Assembled(a, b, buf[..], client, at, len, pre, protocol, closeReason, random);
      sent := buf[base - pre..base + total];
    }

    /** libwebsocket_write on a connection whose writes are accepted in full. */
    method Write(buf: array<byte>, at: nat, len: nat, protocol: Protocol, random: Option<Key>)
      returns (ret: int, sent: seq<byte>)
      requires Valid() && nonce != buf && PRE_PADDING <= at && at + len + POST_PADDING <= buf.Length
      requires len + 2 < LIMIT63
      requires client ==> len + ReasonLen(protocol.kind, closeReason) + 4 < INT_LIMIT
      modifies this, nonce, buf
      ensures Valid() && established == old(established) && closeReason == old(closeReason)
      ensures len == 0 && !(protocol.kind in {WriteClose, WritePing, WritePong} && !protocol.noFin) ==>
        ret == 0 && sent == []
      ensures len > 0 && protocol == Protocol(WriteHttp, false) ==> ret == len && sent == old(buf[at..at + len])
      ensures Frames(len, protocol) && !(established && Opcode(protocol.kind).Some? && (client ==> random.Some?)) ==>
        ret == -1 && sent == []
      ensures Frames(len, protocol) && established && Opcode(protocol.kind).Some? && (client ==> random.Some?) ==>
        && sent == old(Sent(client, closeReason, protocol, random, buf[at - 6..at - 4], buf[at..at + len]))
        && ret == if protocol.kind in {WriteClose, WritePing, WritePong} && !protocol.noFin then |sent| else len
      ensures sent != [] && protocol.kind == WriteText ==> sent[0] == if protocol.noFin then 0x01 else 0x81
      ensures sent != [] && protocol.kind == WriteBinary ==> sent[0] == if protocol.noFin then 0x02 else 0x82
      ensures sent != [] && protocol.kind == WriteContinuation ==> sent[0] == if protocol.noFin then 0x00 else 0x80
      ensures sent != [] && client && protocol != Protocol(WriteHttp, false) ==> nonce[..] == random.value
      ensures !client ==> unchanged(this) && unchanged(nonce)
    {
      hide Sent;
      if len == 0 && protocol != Protocol(WriteClose, false) && protocol != Protocol(WritePing, false)
         && protocol != Protocol(WritePong, false) {
        return 0, [];
      }
      if protocol == Protocol(WriteHttp, false) {
        return len, buf[at..at + len];
      }
      if !established {
        return -1, [];
      }
      if Opcode(protocol.kind).None? {
        return -1, [];
      }
      var failed;
      failed, sent := WriteFrame(buf, at, len, protocol, random);
      if failed {
        return -1, [];
      }
      if protocol == Protocol(WriteClose, false) || protocol == Protocol(WritePing, false)
         || protocol == Protocol(WritePong, false) {
        return |sent|, sent;
      }
      SentFirst(client, closeReason, protocol, random, old(buf[at - 6..at - 4]), old(buf[at..at + len]));
      insideFrame := true;
      insideFrame := false;
      return len, sent;
    }
  }

  /** The writes that reach the framing code. */
  predicate Frames(len: nat, protocol: Protocol) {
    && protocol != Protocol(WriteHttp, false)
    && (len == 0 ==> protocol.kind in {WriteClose, WritePing, WritePong} && !protocol.noFin)
  }

  lemma Join(b: seq<byte>, x: int, y: int, z: int)
    requires 0 <= x <= y <= z <= |b|
    ensures b[x..z] == b[x..y] + b[y..z]
  {}

  lemma MaskedFirst(k: Key, tail: seq<byte>, n: nat)
    requires n <= |tail|
    ensures Masked(k, 0, tail)[..n] == Masked(k, 0, tail[..n])
  {
    hide Mix;
  }

  /** b is a with the reason, if any, right before the payload at place at. */
  predicate Placed(a: seq<byte>, b: seq<byte>, at: nat, len: nat, kind: Kind, reason: nat) {
    && |a| == |b| && 6 <= at && at + len <= |b|
    && b[at - ReasonLen(kind, reason)..at + len] == Body(kind, reason, a[at..at + len])
    && b[at - 6..at - 4] == a[at - 6..at - 4] && b[at..at + len] == a[at..at + len]
  }

  /** d is b with header, key and masking around total bytes from base on, the key right before place at. */
  predicate Framed(b: seq<byte>, d: seq<byte>, client: bool, at: nat, base: nat, total: nat, pre: nat, first: byte,
                   random: Option<Key>) {
    && |b| == |d| && pre <= base <= at && at + total <= |b| && (client ==> random.Some? && 4 <= base)
    && if client then
         d[base - pre..at + total]
           == [first] + LengthField(total, true) + b[base - 4..at - 4]
              + (random.value + Masked(random.value, 0, b[at..at + total]))
       else d[base - pre..base + total] == [first] + LengthField(total, false) + b[base..base + total]
  }

  lemma Assembled(a: seq<byte>, b: seq<byte>, d: seq<byte>, client: bool, at: nat, len: nat, pre: nat,
                  protocol: Protocol, reason: nat, random: Option<Key>)
    requires Opcode(protocol.kind).Some? && Placed(a, b, at, len, protocol.kind, reason) && 14 <= at
    requires var extra := ReasonLen(protocol.kind, reason);
      var first := FirstByte(Opcode(protocol.kind).value, !protocol.noFin);
      at + len + extra <= |b| && Framed(b, d, client, at, at - extra, len + extra, pre, first, random)
    ensures var base := at - ReasonLen(protocol.kind, reason);
      pre <= base && at + len <= |d| && (client ==> random.Some?)
      && d[base - pre..at + len] == Sent(client, reason, protocol, random, a[at - 6..at - 4], a[at..at + len])
  {
    hide FirstByte, Opcode, Sent, ReasonLen, LengthField, Masked, Body;
    var extra := ReasonLen(protocol.kind, reason);
    var p, stale := a[at..at + len], a[at - 6..at - 4];
    if client {
      var tail := b[at..at + len + extra];
      First(b, at, at + len, at + len + extra);
      StaleEnd(b, at, extra);
      SentByClient(protocol, reason, random.value, stale, p, tail);
      First(d, at - extra - pre, at + len, at + len + extra);
    } else {
      SentByServer(protocol, reason, random, stale, p);
    }
  }

  lemma SentByServer(protocol: Protocol, reason: nat, random: Option<Key>, stale: seq<byte>, p: seq<byte>)
    requires Opcode(protocol.kind).Some?
    ensures var body := Body(protocol.kind, reason, p);
      && |body| == |p| + ReasonLen(protocol.kind, reason)
      && Sent(false, reason, protocol, random, stale, p)
         == [FirstByte(Opcode(protocol.kind).value, !protocol.noFin)] + LengthField(|body|, false) + body
  {
    hide LengthField, OctetsFrom, FirstByte, Opcode;
  }

  lemma SentPlain(protocol: Protocol, reason: nat, k: Key, stale: seq<byte>, p: seq<byte>)
    requires Opcode(protocol.kind).Some? && !Reasoned(protocol.kind, reason)
    ensures Sent(true, reason, protocol, Some(k), stale, p)
      == [FirstByte(Opcode(protocol.kind).value, !protocol.noFin)] + LengthField(|p|, true) + (k + Masked(k, 0, p))
  {
    hide LengthField, FirstByte, Opcode, Masked;
  }

  lemma SentDisplaced(protocol: Protocol, reason: nat, k: Key, stale: seq<byte>, p: seq<byte>)
    requires Opcode(protocol.kind).Some? && Reasoned(protocol.kind, reason)
    ensures Sent(true, reason, protocol, Some(k), stale, p)
      == [FirstByte(Opcode(protocol.kind).value, !protocol.noFin)] + LengthField(|p| + 2, true)
         + (stale + (k + Masked(k, 0, p)))
  {
    hide LengthField, FirstByte, Opcode, Masked, OctetsFrom;
  }

  /** The bytes of a client's frame, which end before the masking does when a reason has moved the payload. */
  lemma SentByClient(protocol: Protocol, reason: nat, k: Key, stale: seq<byte>, p: seq<byte>, tail: seq<byte>)
    requires Opcode(protocol.kind).Some? && |stale| == 2
    requires |tail| == |p| + ReasonLen(protocol.kind, reason) && tail[..|p|] == p
    ensures var extra := ReasonLen(protocol.kind, reason);
      var header := [FirstByte(Opcode(protocol.kind).value, !protocol.noFin)] + LengthField(|tail|, true);
      var all := header + stale[2 - extra..] + (k + Masked(k, 0, tail));
      all[..|header| + extra + 4 + |p|] == Sent(true, reason, protocol, Some(k), stale, p)
  {
    hide LengthField, FirstByte, Opcode, Masked, Sent;
    MaskedFirst(k, tail, |p|);
    if Reasoned(protocol.kind, reason) {
      assert stale[0..] == stale;
      SentDisplaced(protocol, reason, k, stale, p);
    } else {
      assert stale[2..] == [];
      SentPlain(protocol, reason, k, stale, p);
    }
  }

  /** c is b but for places x to y. */
  predicate Outside(b: seq<byte>, c: seq<byte>, x: int, y: int) {
    |b| == |c| && forall j | 0 <= j < |b| && !(x <= j < y) :: c[j] == b[j]
  }

  lemma FramedByServer(b: seq<byte>, c: seq<byte>, x: int, y: int, z: int, header: seq<byte>)
    requires 0 <= x <= y <= z <= |b| && Outside(b, c, x, y) && c[x..y] == header
    ensures c[x..z] == header + b[y..z]
  {
    SliceSame(b, c, y, z);
    Join(c, x, y, z);
  }

  lemma FramedByClient(b: seq<byte>, c: seq<byte>, d: seq<byte>, x: int, base: int, at: int, end: int,
                       header: seq<byte>, k: Key)
    requires 0 <= x <= base - 4 && base <= at <= end <= |b|
    requires Outside(b, c, x, base - 4) && c[x..base - 4] == header
    requires Outside(c, d, at - 4, end) && d[at - 4..at] == k && d[at..end] == Masked(k, 0, c[at..end])
    ensures d[x..end] == header + b[base - 4..at - 4] + (k + Masked(k, 0, b[at..end]))
  {
    hide Masked, Outside;
    OutsideSlice(b, c, x, base - 4, at, end);
    OutsideSlice(b, c, x, base - 4, base - 4, at - 4);
    OutsideSlice(c, d, at - 4, end, base - 4, at - 4);
    OutsideSlice(c, d, at - 4, end, x, base - 4);
    FourParts(d, x, base - 4, at - 4, at, end, header, b[base - 4..at - 4], k, Masked(k, 0, b[at..end]));
  }

  lemma FourParts(d: seq<byte>, x: int, p: int, q: int, r: int, end: int,
                  a: seq<byte>, b: seq<byte>, c: seq<byte>, e: seq<byte>)
    requires 0 <= x <= p <= q <= r <= end <= |d|
    requires d[x..p] == a && d[p..q] == b && d[q..r] == c && d[r..end] == e
    ensures d[x..end] == a + b + (c + e)
  {
    Join(d, x, p, q);
    Join(d, q, r, end);
    Join(d, x, q, end);
  }

  lemma OutsideSlice(b: seq<byte>, c: seq<byte>, x: int, y: int, v: int, w: int)
    requires Outside(b, c, x, y) && 0 <= v <= w <= |b| && (w <= x || y <= v)
    ensures |c| == |b| && c[v..w] == b[v..w]
  {}

  lemma SliceSame(b: seq<byte>, c: seq<byte>, x: int, y: int)
    requires 0 <= x <= y <= |b| && |b| == |c| && forall j | x <= j < y :: b[j] == c[j]
    ensures b[x..y] == c[x..y]
  {}

  lemma StaleEnd(b: seq<byte>, at: nat, n: nat)
    requires 6 <= at <= |b| && n <= 2
    ensures b[at - 4 - n..at - 4] == b[at - 6..at - 4][2 - n..]
  {}

  lemma First(b: seq<byte>, x: int, y: int, z: int)
    requires 0 <= x <= y <= z <= |b|
    ensures b[x..y] == b[x..z][..y - x]
  {}

  lemma OctetsNext(n: nat, k: nat)
    ensures OctetsFrom(n, k + 1) == [Octet(n, k)] + OctetsFrom(n, k)
  {}
}
