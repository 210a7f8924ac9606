/** The two SHA-1 implementations side by side, fed the same message in different pieces. */
module Sha1Agree {
  import opened Words
  import opened Sha1
  import App = Sha1App
  import Lib = Sha1Lib

  function Joined(pieces: seq<seq<byte>>): seq<byte>
    decreases |pieces|
  {
    if pieces == [] then [] else Joined(pieces[..|pieces| - 1]) + pieces[|pieces| - 1]
  }

  lemma JoinedNext(pieces: seq<seq<byte>>, i: nat)
    requires i < |pieces|
    ensures Joined(pieces[..i + 1]) == Joined(pieces[..i]) + pieces[i]
  {
    assert pieces[..i + 1][..i] == pieces[..i];
  }

  /** sha1_init, one sha1_loop per piece, sha1_result. */
  method LibDigest(pieces: seq<seq<byte>>) returns (md: seq<byte>)
    ensures md == Lib.DigestBytes(Hash(Joined(pieces)))
  {
    hide Hash, Lib.DigestBytes;
    var ctx := new Lib.Sha1Ctxt();
    for i := 0 to |pieces|
      invariant ctx.Valid() && fresh(ctx) && fresh(ctx.m) && ctx.Fed() == Joined(pieces[..i])
    {
      JoinedNext(pieces, i);
      ctx.Loop(pieces[i]);
    }
    assert pieces[..|pieces|] == pieces;
    md := ctx.Result();
  }

  /** SHA1Reset, one SHA1Input per piece, SHA1Result; the result is 0 exactly when the message is too long. */
  method AppDigest(pieces: seq<seq<byte>>) returns (r: int, digest: Regs)
    ensures r == if |Joined(pieces)| < App.LIMIT then 1 else 0
    ensures r == 1 ==> digest == Hash(Joined(pieces))
  {
    hide Hash;
    var ctx := new App.SHA1Context();
    for i := 0 to |pieces|
      invariant ctx.Valid() && fresh(ctx) && fresh(ctx.block) && !ctx.computed
      invariant ctx.corrupted <==> |Joined(pieces[..i])| >= App.LIMIT
      invariant !ctx.corrupted ==> ctx.msg == Joined(pieces[..i])
    {
      JoinedNext(pieces, i);
      ctx.Input(pieces[i]);
    }
    assert pieces[..|pieces|] == pieces;
    r := ctx.Result();
    digest := ctx.digest;
  }

  /** Runs both implementations on one message, cut in two ways. */
  method Compare(forLib: seq<seq<byte>>, forApp: seq<seq<byte>>) returns (agree: bool)
    requires Joined(forLib) == Joined(forApp)
    ensures agree <==> |Joined(forLib)| < App.LIMIT
  {
    hide Hash, Lib.DigestBytes;
    var md := LibDigest(forLib);
    var r, digest := AppDigest(forApp);
    agree := r == 1 && Lib.DigestBytes(digest) == md;
  }
}
