/** What the theorems about the machine say of the object's own bytes: of what the splice has been
    sent and has written, at any moment of any run. */
module SpliceEnds {
  import opened Bytes
  import opened Stream
  import opened Decoded
  import opened Http2
  import opened Session
  import opened Ledger
  import opened Marking
  import opened Forwarding
  import opened EndToEnd
  import opened Splice

  lemma OnSomeRun(sp: SessionSplice)
    requires sp.Valid()
    ensures Reachable(sp.cfg, sp.m)
  {
  }

  lemma LeftToRead(sp: SessionSplice)
    requires sp.Valid()
    ensures Wire(sp.m.log.downIn) <= sp.cliAll && Wire(sp.m.log.upIn) <= sp.upAll
    ensures !sp.m.down.Failing? && !sp.m.down.Done? ==> Wire(sp.m.log.downIn) + sp.cliR.Rest() == sp.cliAll
    ensures sp.toDaemon == Wire(sp.m.log.downOut) && sp.toClient == Wire(sp.m.log.upOut)
    ensures sp.connWin == sp.m.sh.connWin
  {
  }

  lemma {:induction false} WirePrefix(a: seq<Frame>, b: seq<Frame>)
    requires a <= b
    ensures Wire(a) <= Wire(b)
    decreases |b|
  {
    if |a| == |b| {
      assert a == b;
    } else {
      WirePrefix(a, b[..|b| - 1]);
      WireAppend(b[..|b| - 1], b[|b| - 1]);
      assert b[..|b| - 1] + [b[|b| - 1]] == b;
    }
  }

  /** The client's side: its bytes from the splice are the daemon's, unchanged, as far as they came. */
  lemma ClientSeesDaemon(sp: SessionSplice)
    requires sp.Valid()
    ensures sp.toClient <= sp.upAll
  {
    hide Wire;
    OnSomeRun(sp);
    LeftToRead(sp);
    ForwardedVerbatim(sp.cfg, sp.m);
    WirePrefix(sp.m.log.upOut, sp.m.log.upIn);
  }

  /** The daemon's side: its bytes are whole readable frames, and their DATA is within the window it
      has granted, even between a write and its accounting. */
  lemma DaemonSeesFrames(sp: SessionSplice)
    requires sp.Valid()
    ensures Frames(sp.toDaemon) == Some(sp.m.log.downOut)
    ensures DataBytes(sp.m.log.downOut) <= WINDOW + ConnCredit(sp.m.log.upIn) && Wire(sp.m.log.upIn) <= sp.upAll
    ensures sp.connWin >= 0
  {
    hide Wire, DataBytes, ConnCredit, Frames;
    OnSomeRun(sp);
    LeftToRead(sp);
    DaemonReadsFrames(sp.cfg, sp.m);
    ConnectionSafety(sp.cfg, sp.m);
  }

  /** Apart from the data of marked streams the daemon's side is the client's side: the frames read back
      from the daemon's bytes are, those aside, the first of the client's, and all of them between two
      client frames. */
  lemma DaemonSeesOthers(sp: SessionSplice)
    requires sp.Valid()
    ensures Frames(sp.toDaemon).Some?
    ensures var got, ts := Frames(sp.toDaemon).value, sp.m.sh.targets;
            && Wire(sp.m.log.downIn) <= sp.cliAll
            && Others(got, ts) <= Others(sp.m.log.downIn, ts)
            && (sp.m.down.Reading? ==>
                  Wire(sp.m.log.downIn) + sp.cliR.Rest() == sp.cliAll && Others(got, ts) == Others(sp.m.log.downIn, ts))
  {
    hide Wire, Frames, Others;
    OnSomeRun(sp);
    LeftToRead(sp);
    DaemonReadsFrames(sp.cfg, sp.m);
    OthersVerbatim(sp.cfg, sp.m, sp.m.sh.targets);
  }

  /** End to end, on the object's bytes: between two client frames, if no message write has failed,
      what the daemon decodes on a target stream from the bytes it was sent is the edited decoding of
      the client's whole messages so far. */
  lemma DaemonGetsEdit(sp: SessionSplice, sid: nat)
    requires sp.Valid() && sid !in sp.m.log.rawData && Drained(sp.m)
    requires Encodable(sp.m.log.Taken(sid), sp.cfg.edit)
    ensures var ms := sp.m.log.Taken(sid);
            && Wire(sp.m.log.downIn) + sp.cliR.Rest() == sp.cliAll
            && PayloadOn(sp.m.log.downIn, sid) == Flatten(ms) + sp.m.sh.Buffered(sid)
            && Received(sp.toDaemon, sid) == Some(Rewrite(ms, None, sp.cfg.edit))
            && DecodeAll(Rewrite(ms, None, sp.cfg.edit)) == EditAll(DecodeAll(ms), None, sp.cfg.edit)
  {
    hide Wire, Rewrite, PayloadOn, Received, Encodable, EditAll, DecodeAll, Flatten;
    OnSomeRun(sp);
    LeftToRead(sp);
    DaemonDecodesEdit(sp.cfg, sp.m, sid);
  }
}
