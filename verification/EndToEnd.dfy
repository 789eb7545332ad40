/** The session splice as seen from its two ends: what the daemon decodes is the edited decoding of
    what the client sent. */
module EndToEnd {
  import opened Bytes
  import opened Records
  import opened Grpc
  import opened Stream
  import opened Decoded
  import opened Http2
  import opened Headers
  import opened Session
  import opened StreamContent
  import opened Marking

  lemma ReachableContent(cfg: Config, s: State, sid: nat)
    requires Reachable(cfg, s)
    ensures PumpOk(s)
    ensures sid !in s.log.rawData ==> InputOk(s, sid) && OutputOk(cfg, s, sid)
  {
    var steps :| Run(cfg, START, steps) == Some(s);
    RunKeepsContent(cfg, steps);
  }

  /** The daemon reads back, frame by frame, exactly the frames written. */
  lemma DaemonReadsFrames(cfg: Config, s: State)
    requires Reachable(cfg, s)
    ensures Frames(Wire(s.log.downOut)) == Some(s.log.downOut)
  {
    ReachableContent(cfg, s, 0);
    WireReadsBack(s.log.downOut);
  }

  /** At every moment of every run, failed or not: the client's bytes on the stream are whole
      messages followed by what is still held; and what was sent is the rewrite of those messages
      up to the part in hand, or after a failure a prefix of it made of whole frames. */
  lemma EveryMoment(cfg: Config, s: State, sid: nat)
    requires Reachable(cfg, s) && sid !in s.log.rawData
    ensures var ms := s.log.Taken(sid);
            && Messages(Flatten(ms), MAX_GRPC) == Some(ms)
            && PayloadOn(s.log.downIn, sid) == Flatten(ms) + s.sh.Buffered(sid) + Unbuffered(s.down, sid)
            && PayloadOn(s.log.downOut, sid) <= Flatten(Rewrite(ms, None, cfg.edit))
            && (!s.log.lost ==>
                ms == Begun(ms, Todo(s.down, sid)) + Todo(s.down, sid)
                && PayloadOn(s.log.downOut, sid) + InHand(s.down, sid)
                   == Flatten(Rewrite(Begun(ms, Todo(s.down, sid)), None, cfg.edit)))
  {
    hide Rewrite, Messages, PayloadOn, Flatten, StatAfter;
    ReachableContent(cfg, s, sid);
    var ms := s.log.Taken(sid);
    MessagesOfJoin(ms, MAX_GRPC);
    if !s.log.lost {
      OutputGrows(cfg, Begun(ms, Todo(s.down, sid)), Todo(s.down, sid));
    }
  }

  /** The pump is between client frames and no message write has failed. */
  predicate Drained(s: State) {
    s.down.Reading? && !s.log.lost
  }

  /** Every rewritten message keeps a length its 32-bit length field can hold. */
  predicate Encodable(ms: seq<bytes>, edit: Option<Edit>) {
    forall k | 0 <= k < |ms| :: |Rewrite(ms, None, edit)[k]| < 5 + TWO32
  }

  /** The receiver's side of one stream: read the frames, join the DATA of the stream, split it
      into messages. */
  function Received(wire: bytes, sid: nat): Option<seq<bytes>> {
    match Frames(wire)
    case None => None
    case Some(fs) => Messages(PayloadOn(fs, sid), UNCAPPED)
  }

  lemma RewriteDecodes(ms: seq<bytes>, edit: Option<Edit>)
    requires AllMessages(ms, MAX_GRPC) && Encodable(ms, edit)
    ensures Messages(Flatten(Rewrite(ms, None, edit)), UNCAPPED) == Some(Rewrite(ms, None, edit))
    ensures DecodeAll(Rewrite(ms, None, edit)) == EditAll(DecodeAll(ms), None, edit)
  {
    hide Rewrite, Messages, IsMessage;
    var outs := Rewrite(ms, None, edit);
    forall k | 0 <= k < |outs| ensures IsMessage(outs[k], UNCAPPED) {
      assert IsMessage(ms[k], MAX_GRPC);
      RewriteIsFramed(ms, k, None, edit);
    }
    MessagesOfJoin(outs, UNCAPPED);
    EditAllCommutes(ms, None, edit);
  }

  /** End to end: for any split of the client's bytes into DATA frames, any interleaving with other
      streams and with the daemon's frames, and any credit schedule, the daemon decodes from the
      wire the rewrite of the whole messages the client has sent, whose decoding is the edited
      decoding of those messages; the rest of the client's bytes is in the buffer. */
  lemma DaemonDecodesEdit(cfg: Config, s: State, sid: nat)
    requires Reachable(cfg, s) && sid !in s.log.rawData && Drained(s)
    requires Encodable(s.log.Taken(sid), cfg.edit)
    ensures var ms := s.log.Taken(sid);
            var outs := Received(Wire(s.log.downOut), sid);
            && PayloadOn(s.log.downIn, sid) == Flatten(ms) + s.sh.Buffered(sid)
            && Messages(Flatten(ms), MAX_GRPC) == Some(ms)
            && outs == Some(Rewrite(ms, None, cfg.edit))
            && DecodeAll(outs.value) == EditAll(DecodeAll(ms), None, cfg.edit)
  {
    hide Rewrite, Messages, PayloadOn, Flatten, Frames, Encodable, EditAll, DecodeAll, AllMessages;
    EveryMoment(cfg, s, sid);
    ReachableContent(cfg, s, sid);
    DaemonReadsFrames(cfg, s);
    var ms := s.log.Taken(sid);
    RewriteDecodes(ms, cfg.edit);
    assert Begun(ms, []) == ms;
    assert PayloadOn(s.log.downOut, sid) + [] == PayloadOn(s.log.downOut, sid);
    assert Flatten(ms) + s.sh.Buffered(sid) + [] == Flatten(ms) + s.sh.Buffered(sid);
  }

  /** When the client's bytes end on a message boundary nothing is held back: the messages parsed
      are all of them. */
  lemma BoundaryFlushes(cfg: Config, s: State, sid: nat)
    requires Reachable(cfg, s) && sid !in s.log.rawData && Drained(s)
    requires Messages(PayloadOn(s.log.downIn, sid), MAX_GRPC).Some?
    ensures s.sh.Buffered(sid) == []
    ensures Messages(PayloadOn(s.log.downIn, sid), MAX_GRPC) == Some(s.log.Taken(sid))
  {
    hide Rewrite, Messages, PayloadOn, Flatten, AllMessages;
    EveryMoment(cfg, s, sid);
    ReachableContent(cfg, s, sid);
    var ms, b := s.log.Taken(sid), s.sh.Buffered(sid);
    assert Flatten(ms) + b + [] == Flatten(ms) + b;
    MessagesAppend(Flatten(ms), b, MAX_GRPC);
    assert b == [];
    assert Flatten(ms) + [] == Flatten(ms);
  }

  /** The whole stream: client bytes that end on a message boundary arrive as their rewrite. */
  lemma WholeStream(cfg: Config, s: State, sid: nat, ms: seq<bytes>)
    requires Reachable(cfg, s) && sid !in s.log.rawData && Drained(s)
    requires Messages(PayloadOn(s.log.downIn, sid), MAX_GRPC) == Some(ms) && Encodable(ms, cfg.edit)
    ensures Received(Wire(s.log.downOut), sid) == Some(Rewrite(ms, None, cfg.edit))
    ensures DecodeAll(Rewrite(ms, None, cfg.edit)) == EditAll(DecodeAll(ms), None, cfg.edit)
  {
    hide Rewrite, Messages, PayloadOn, Flatten, Frames, Encodable, EditAll, DecodeAll, Received;
    BoundaryFlushes(cfg, s, sid);
    DaemonDecodesEdit(cfg, s, sid);
  }

  /** The same, from the protocol's point of view: an obedient client and plain headers on a stream
      whose request asks for the Dockerfile. */
  lemma DockerfileStreamIsEdited(cfg: Config, s: State, sid: nat, ms: seq<bytes>)
    requires Reachable(cfg, s) && Drained(s)
    requires s.log.obeys && Contiguous(s.log.upIn) && AllPlain(s.log.upIn)
    requires FirstVerdict(cfg, HeaderBlocks(s.log.upIn), sid) == Some(true)
    requires Messages(PayloadOn(s.log.downIn, sid), MAX_GRPC) == Some(ms) && Encodable(ms, cfg.edit)
    ensures Received(Wire(s.log.downOut), sid) == Some(Rewrite(ms, None, cfg.edit))
    ensures DecodeAll(Rewrite(ms, None, cfg.edit)) == EditAll(DecodeAll(ms), None, cfg.edit)
  {
    hide Rewrite, Messages, PayloadOn, Encodable, EditAll, DecodeAll, Received, HeaderBlocks, FirstVerdict;
    MarkedBeforeForwarded(cfg, s, sid);
    WholeStream(cfg, s, sid, ms);
  }

  predicate OneWithin(a: bytes, b: bytes) {
    a <= b || b <= a
  }

  lemma WithinWhole(a: bytes, b: bytes, whole: bytes)
    requires a <= whole && b <= whole
    ensures OneWithin(a, b)
  {
    assert a == whole[..|a|] && b == whole[..|b|];
  }

  /** The messages of a prefix that ends on a message boundary come first. */
  lemma MessagesWithin(a: seq<bytes>, b: seq<bytes>)
    requires AllMessages(a, MAX_GRPC) && AllMessages(b, MAX_GRPC) && Flatten(a) <= Flatten(b)
    ensures a <= b
  {
    hide IsMessage, Messages, Flatten;
    var rest := Flatten(b)[|Flatten(a)|..];
    MessagesOfJoin(a, MAX_GRPC);
    MessagesOfJoin(b, MAX_GRPC);
    assert Flatten(a) + rest == Flatten(b);
    MessagesAppend(Flatten(a), rest, MAX_GRPC);
  }

  lemma OutputWithin(cfg: Config, a: seq<bytes>, b: seq<bytes>)
    requires a <= b
    ensures Output(cfg, a) <= Output(cfg, b)
  {
    hide Output;
    assert a + b[|a|..] == b;
    OutputGrows(cfg, a, b[|a|..]);
  }

  /** What is parsed and what is sent of a stream, in any reachable state. */
  lemma SentOf(cfg: Config, s: State, sid: nat)
    requires Reachable(cfg, s) && sid !in s.log.rawData
    ensures AllMessages(s.log.Taken(sid), MAX_GRPC)
    ensures Flatten(s.log.Taken(sid)) <= PayloadOn(s.log.downIn, sid)
    ensures PayloadOn(s.log.downOut, sid) <= Output(cfg, s.log.Taken(sid))
  {
    hide Rewrite, Messages, PayloadOn, Flatten, StatAfter;
    EveryMoment(cfg, s, sid);
    ReachableContent(cfg, s, sid);
  }

  /** Non-interference: in any two states of any two runs, failed or not, in the middle of a frame or
      between two, if the client's bytes on the stream in one are a prefix of those in the other, then
      so are the bytes sent to the daemon, one way or the other.  The splits, the other streams, the
      credit and the timing decide how much is sent, never what. */
  lemma NonInterference(cfg: Config, s: State, t: State, sid: nat)
    requires Reachable(cfg, s) && sid !in s.log.rawData
    requires Reachable(cfg, t) && sid !in t.log.rawData
    requires PayloadOn(s.log.downIn, sid) <= PayloadOn(t.log.downIn, sid)
    ensures OneWithin(PayloadOn(s.log.downOut, sid), PayloadOn(t.log.downOut, sid))
  {
    hide PayloadOn, Flatten, Output, AllMessages, OneWithin;
    SentOf(cfg, s, sid);
    SentOf(cfg, t, sid);
    var a, b := s.log.Taken(sid), t.log.Taken(sid);
    WithinWhole(Flatten(a), Flatten(b), PayloadOn(t.log.downIn, sid));
    if Flatten(a) <= Flatten(b) {
      MessagesWithin(a, b);
      OutputWithin(cfg, a, b);
      WithinWhole(PayloadOn(s.log.downOut, sid), PayloadOn(t.log.downOut, sid), Output(cfg, b));
    } else {
      assert Flatten(b) <= Flatten(a) by { EitherWay(Flatten(a), Flatten(b)); }
      MessagesWithin(b, a);
      OutputWithin(cfg, b, a);
      WithinWhole(PayloadOn(s.log.downOut, sid), PayloadOn(t.log.downOut, sid), Output(cfg, a));
    }
  }

  lemma EitherWay(a: bytes, b: bytes)
    requires OneWithin(a, b) && !(a <= b)
    ensures b <= a
  {
  }

  /** Between two client frames, on a message boundary and with nothing failed, the amount is decided
      as well: the same client bytes give the same bytes to the daemon. */
  lemma SameBytesSame(cfg: Config, s: State, t: State, sid: nat)
    requires Reachable(cfg, s) && sid !in s.log.rawData && Drained(s)
    requires Reachable(cfg, t) && sid !in t.log.rawData && Drained(t)
    requires PayloadOn(s.log.downIn, sid) == PayloadOn(t.log.downIn, sid)
    requires Messages(PayloadOn(s.log.downIn, sid), MAX_GRPC).Some?
    ensures PayloadOn(s.log.downOut, sid) == PayloadOn(t.log.downOut, sid)
  {
    hide Rewrite, Messages, PayloadOn, Flatten;
    BoundaryFlushes(cfg, s, sid);
    BoundaryFlushes(cfg, t, sid);
    EveryMoment(cfg, s, sid);
    EveryMoment(cfg, t, sid);
    var ms := s.log.Taken(sid);
    assert Begun(ms, []) == ms;
    assert PayloadOn(s.log.downOut, sid) + [] == PayloadOn(s.log.downOut, sid);
    assert PayloadOn(t.log.downOut, sid) + [] == PayloadOn(t.log.downOut, sid);
  }
}
