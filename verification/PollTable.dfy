/** The poll table of a context: insert_wsi_socket_into_fds, remove_wsi_socket_from_fds and the event masks. */
module PollTable {

  /** struct pollfd; events holds POLLIN and POLLOUT. */
  datatype PollFd = PollFd(fd: int, pollin: bool, pollout: bool, revents: bool)

  /** The fields of struct libwebsocket the table works on. */
  class Wsi {
    const sock: int
    var position: int

    constructor (sock: int)
      ensures this.sock == sock && position == -1
    {
      this.sock, position := sock, -1;
    }
  }

  class Context {
    const maxFds: nat
    const fds: array<PollFd>
    const lookup: array<Wsi?>
    var fdsCount: nat
    /** The connections that have been inserted and not removed. */
    ghost var live: set<Wsi>

    ghost predicate Shaped()
      reads this`fdsCount
    {
      fds.Length == maxFds && lookup.Length == maxFds && fdsCount <= maxFds
    }

    /** The connection at index i of fds. */
    ghost predicate Slot(i: nat)
      requires Shaped() && i < fdsCount
      reads this, fds, lookup, live
    {
      var fd := fds[i].fd;
      && 0 <= fd < maxFds
      && var w := lookup[fd]; w != null && w in live && w.sock == fd && w.position == i
    }

    ghost predicate Holds(w: Wsi)
      requires Shaped()
      reads this, fds, lookup, live
    {
      && 0 <= w.sock < maxFds && lookup[w.sock] == w
      && (w in live ==> 0 <= w.position < fdsCount && fds[w.position].fd == w.sock)
    }

    /** Every used slot belongs to a live connection that knows its place, and every live connection has one. */
    ghost predicate Valid()
      reads this, fds, lookup, live
    {
      && Shaped()
      && (forall i | 0 <= i < fdsCount :: Slot(i))
      && (forall w | w in live :: Holds(w))
    }

    /** What poll is asked to watch for on a live connection. */
    ghost function Watched(w: Wsi): (bool, bool)
      requires Valid() && w in live
      reads this, fds, lookup, live
    {
      assert Holds(w);
      (fds[w.position].pollin, fds[w.position].pollout)
    }

    constructor (max: nat)
      ensures Valid() && live == {} && maxFds == max && fresh(fds) && fresh(lookup)
    {
      maxFds, fdsCount, live := max, 0, {};
      fds := new PollFd[max](_ => PollFd(0, false, false, false));
      lookup := new Wsi?[max](_ => null);
    }

    /** The descriptors of the table are distinct, and they are those of the live connections. */
    lemma Descriptors(i: nat, j: nat)
      requires Valid() && i < fdsCount && j < fdsCount
      ensures fds[i].fd == fds[j].fd ==> i == j
      ensures exists w :: w in live && w.sock == fds[i].fd && w.position == i
    {
      assert Slot(i) && Slot(j);
      assert lookup[fds[i].fd] in live;
    }

    lemma LiveHaveDescriptors(w: Wsi)
      requires Valid() && w in live
      ensures 0 <= w.position < fdsCount && fds[w.position].fd == w.sock && lookup[w.sock] == w
    {
      assert Holds(w);
    }

    /** insert_wsi_socket_into_fds: a connection that is not in the table, on a descriptor no live one has.  The
        operating system hands out descriptors below max_fds. */
    method Insert(w: Wsi) returns (ret: int)
      requires Valid() && w !in live && 0 <= w.sock && w.sock != maxFds && forall v | v in live :: v.sock != w.sock
      modifies this, fds, lookup, w
      ensures Valid() && (ret == 0 || ret == 1)
      ensures ret == 1 <==> old(fdsCount) >= maxFds || w.sock > maxFds
      ensures ret == 1 ==> live == old(live)
      ensures ret == 0 ==> live == old(live) + {w} && Watched(w) == (true, false) && w.position == old(fdsCount)
      ensures forall v | v in old(live) :: Watched(v) == old(Watched(v)) && v.position == old(v.position)
    {
      if fdsCount >= maxFds {
        return 1;
      }
      if w.sock > maxFds {
        return 1;
      }
      ghost var before := live;
      lookup[w.sock] := w;
      w.position := fdsCount;
      fds[fdsCount] := PollFd(w.sock, true, false, false);
      fdsCount := fdsCount + 1;
      live := live + {w};
      forall i | 0 <= i < fdsCount
        ensures Slot(i)
      {
        if i < fdsCount - 1 {
          assert old(Slot(i));
        }
      }
      forall v | v in live
        ensures Holds(v)
      {
        if v != w {
          assert old(Holds(v));
        }
      }
      forall v | v in before
        ensures Watched(v) == old(Watched(v)) && v.position == old(v.position)
      {
        assert old(Holds(v));
      }
      ret := 0;
    }

    /** remove_wsi_socket_from_fds: the last entry moves into the vacant slot.  When the table becomes empty nothing is
        cleared, so that the look-up slot of the removed connection goes stale. */
    method Remove(w: Wsi) returns (ret: int)
      requires Valid() && w in live
      modifies this, fds, lookup, live
      ensures Valid() && ret == 0 && live == old(live) - {w} && fdsCount == old(fdsCount) - 1
      ensures forall v | v in live :: Watched(v) == old(Watched(v))
      ensures forall v | v in live && old(v.position) < fdsCount :: v.position == old(v.position)
      ensures if old(fdsCount) == 1 then lookup[w.sock] == w && w.position == 0
              else lookup[w.sock] == null && w.position == -1
    {
      assert Holds(w);
      assert Slot(w.position) && Slot(fdsCount - 1);
      fdsCount := fdsCount - 1;
      if fdsCount == 0 {
        OnlyOne(w);
        live := {};
        return 0;
      }
      if w.sock > maxFds {
        return 1;
      }
      ghost var before, last := live, lookup[fds[fdsCount].fd];
      var m := w.position;
      fds[m] := fds[fdsCount];
      lookup[fds[fdsCount].fd].position := m;
      lookup[w.sock] := null;
      w.position := -1;
      live := live - {w};
      forall i | 0 <= i < fdsCount
        ensures Slot(i)
      {
        assert old(Slot(i)) && old(Slot(fdsCount - 1));
      }
      forall v | v in live
        ensures Holds(v)
      {
        assert old(Holds(v));
      }
      forall v | v in live
        ensures Watched(v) == old(Watched(v)) && (old(v.position) < fdsCount ==> v.position == old(v.position))
      {
        assert old(Holds(v));
      }
      ret := 0;
    }

    twostate lemma OnlyOne(w: Wsi)
      requires old(Valid()) && old(fdsCount) == 1 && w in old(live)
      ensures old(live) == {w}
    {
      forall v | v in old(live)
        ensures v == w
      {
        assert old(Holds(v)) && old(Holds(w));
      }
    }

    /** libwebsocket_callback_on_writable, without extensions: the slot at w's position is watched for writing, which is
        w's own if w is live; the last connection that was removed still has position 0, and what it asks for goes to
        whoever has that slot now. */
    method OnWritable(w: Wsi) returns (ret: int)
      requires Valid() && (w in live || w.position < fds.Length)
      modifies fds
      ensures Valid()
      ensures w.position < 0 ==> ret == -1 && fds[..] == old(fds[..])
      ensures w.position >= 0 ==> ret == 1
      ensures w in live ==> Watched(w) == (old(Watched(w)).0, true)
      ensures forall v | v in live ::
        Watched(v) == if v.position == w.position then (old(Watched(v)).0, true) else old(Watched(v))
    {
      if w.position < 0 {
        assert forall v | v in live :: Holds(v);
        return -1;
      }
      assert w in live ==> Holds(w);
      fds[w.position] := fds[w.position].(pollout := true);
      forall i | 0 <= i < fdsCount
        ensures Slot(i)
      {
        assert old(Slot(i));
      }
      forall v | v in live
        ensures Holds(v)
        ensures Watched(v) == if v.position == w.position then (old(Watched(v)).0, true) else old(Watched(v))
      {
        assert old(Holds(v)) && old(Slot(v.position));
      }
      ret := 1;
    }
  }
}
