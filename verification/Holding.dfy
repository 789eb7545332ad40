/** What the downstream pump holds back: `pumpDownstream` parses a stream's buffer only as a whole
    (internal/proxy/sessionsplice.go, lines 413-429), so messages leave it only at a frame end that is also
    a message boundary. */
module Holding {
  import opened Bytes
  import opened Grpc
  import opened Stream
  import opened Http2
  import opened Session
  import opened StreamContent
  import opened EndToEnd

  /** The client's frames the pump has dealt with: all it has read, short of the one it is looking at. */
  function Handled(s: State): seq<Frame> {
    if s.down.Checked? && s.log.downIn != [] then s.log.downIn[..|s.log.downIn| - 1] else s.log.downIn
  }

  /** The bytes of stream `sid` up to some frame end. */
  ghost predicate IsCut(fs: seq<Frame>, sid: nat, b: bytes) {
    exists k | 0 <= k <= |fs| :: b == PayloadOn(fs[..k], sid)
  }

  /** `ms` are the messages up to the last frame end that is also a message boundary. */
  ghost predicate LastWhole(fs: seq<Frame>, sid: nat, ms: seq<bytes>) {
    && AllMessages(ms, MAX_GRPC) && IsCut(fs, sid, Flatten(ms))
    && forall b | IsCut(fs, sid, b) && Messages(b, MAX_GRPC).Some? :: |b| <= |Flatten(ms)|
  }

  ghost predicate HoldInv(s: State) {
    && (s.down.Checked? ==> s.log.downIn != [] && s.log.downIn[|s.log.downIn| - 1] == s.down.f)
    && forall sid | sid !in s.log.rawData :: LastWhole(Handled(s), sid, s.log.Taken(sid))
  }

  lemma CutSnoc(fs: seq<Frame>, f: Frame, sid: nat, b: bytes)
    ensures IsCut(fs + [f], sid, b) <==> IsCut(fs, sid, b) || b == PayloadOn(fs + [f], sid)
  {
    hide PayloadOn;
    var all := fs + [f];
    assert all[..|all|] == all && forall k | 0 <= k <= |fs| :: all[..k] == fs[..k];
    if IsCut(all, sid, b) {
      var k :| 0 <= k <= |all| && b == PayloadOn(all[..k], sid);
      assert k <= |fs| ==> all[..k] == fs[..k];
    }
    if IsCut(fs, sid, b) {
      var k :| 0 <= k <= |fs| && b == PayloadOn(fs[..k], sid);
      assert b == PayloadOn(all[..k], sid);
    }
    if b == PayloadOn(all, sid) {
      assert b == PayloadOn(all[..|all|], sid);
    }
  }

  lemma {:induction false} CutsAreShorter(fs: seq<Frame>, sid: nat, b: bytes)
    requires IsCut(fs, sid, b)
    ensures |b| <= |PayloadOn(fs, sid)| && IsCut(fs, sid, PayloadOn(fs, sid))
  {
    hide PayloadOn;
    var k :| 0 <= k <= |fs| && b == PayloadOn(fs[..k], sid);
    assert fs[..k] + fs[k..] == fs && fs[..|fs|] == fs;
    PayloadOnAppend(fs[..k], fs[k..], sid);
  }

  /** One frame more: a boundary at its end takes everything, otherwise nothing moves. */
  lemma LastWholeSnoc(fs: seq<Frame>, f: Frame, sid: nat, ms: seq<bytes>)
    requires LastWhole(fs, sid, ms)
    ensures var p := PayloadOn(fs + [f], sid);
            if p == PayloadOn(fs, sid) || Messages(p, MAX_GRPC).None? then LastWhole(fs + [f], sid, ms)
            else LastWhole(fs + [f], sid, Messages(p, MAX_GRPC).value)
  {
    hide PayloadOn, Messages, Flatten, IsCut, AllMessages;
    var all, p := fs + [f], PayloadOn(fs + [f], sid);
    CutsAreShorter(fs, sid, Flatten(ms));
    forall b ensures IsCut(all, sid, b) <==> IsCut(fs, sid, b) || b == p {
      CutSnoc(fs, f, sid, b);
    }
    if p != PayloadOn(fs, sid) && Messages(p, MAX_GRPC).Some? {
      MessagesJoin(p, MAX_GRPC);
      forall b | IsCut(all, sid, b) ensures |b| <= |p| {
        CutsAreShorter(all, sid, b);
      }
    }
  }

  lemma UpKeeps(cfg: Config, s: State, step: Step)
    requires HoldInv(s) && IsUpStep(step) && NextUp(cfg, s, step).Some?
    ensures HoldInv(NextUp(cfg, s, step).value)
  {
    hide NextUp, LastWhole;
    UpSameContent(cfg, s, step);
  }

  /** Only reading and routing touch what has been read, dealt with or taken. */
  lemma OthersLeave(cfg: Config, s: State, step: Step)
    requires !IsUpStep(step) && !step.Read? && !step.RouteFrame? && NextDown(cfg, s, step).Some?
    ensures var t := NextDown(cfg, s, step).value;
            && !s.down.Checked? && !t.down.Checked?
            && t.log.downIn == s.log.downIn && t.log.taken == s.log.taken && t.log.rawData == s.log.rawData
  {
    hide Chunk, Noted, EmittedFor;
  }

  lemma ReadKeeps(s: State, f: Frame)
    requires HoldInv(s) && s.down.Reading?
    ensures HoldInv(ReadClient(s, f))
  {
    hide LastWhole, Opened;
    var t := ReadClient(s, f);
    assert Handled(t) == Handled(s);
  }

  lemma RouteSame(s: State, f: Frame, target: bool)
    requires s.down == Checked(f, target)
    ensures var t := Route(s, f, target);
            !t.down.Checked? && t.log.downIn == s.log.downIn && t.log.rawData == s.log.rawData
  {
    hide Messages;
  }

  lemma RouteTaken(s: State, f: Frame, target: bool, sid: nat)
    requires s.down == Checked(f, target)
    ensures var b := s.sh.Buffered(sid) + f.payload;
            Route(s, f, target).log.Taken(sid) ==
            if target && f.typ == DATA && f.sid == sid && Messages(b, MAX_GRPC).Some?
            then s.log.Taken(sid) + Messages(b, MAX_GRPC).value else s.log.Taken(sid)
  {
    hide Messages;
  }

  /** A frame of the stream joins what is buffered. */
  lemma MoreOfStream(fs: seq<Frame>, f: Frame, sid: nat, ms: seq<bytes>, buffered: bytes)
    requires LastWhole(fs, sid, ms) && f.typ == DATA && f.sid == sid
    requires PayloadOn(fs + [f], sid) == Flatten(ms) + buffered + f.payload
    requires buffered == [] || Messages(buffered, MAX_GRPC).None?
    ensures var more := Messages(buffered + f.payload, MAX_GRPC);
            LastWhole(fs + [f], sid, if more.Some? then ms + more.value else ms)
  {
    LastWholeSnoc(fs, f, sid, ms);
    PayloadSnoc(fs, f, sid);
    assert AllMessages(ms, MAX_GRPC);
    hide LastWhole, PayloadOn, Messages, Flatten, AllMessages;
    var b := buffered + f.payload;
    Regroup(Flatten(ms), buffered, f.payload);
    MessagesOfJoin(ms, MAX_GRPC);
    MessagesAppend(Flatten(ms), b, MAX_GRPC);
    if f.payload == [] && Messages(b, MAX_GRPC).Some? {
      assert b == buffered;
      NothingMore(ms);
    }
  }

  /** An empty frame completes nothing: the buffer was empty, or not on a boundary before. */
  lemma NothingMore(ms: seq<bytes>)
    ensures Messages([], MAX_GRPC) == Some([]) && ms + [] == ms
  {
  }

  lemma RouteKeeps(s: State, f: Frame, target: bool, sid: nat)
    requires HoldInv(s) && PumpOk(s) && s.down == Checked(f, target) && sid !in s.log.rawData && InputOk(s, sid)
    ensures LastWhole(s.log.downIn, sid, Route(s, f, target).log.Taken(sid))
  {
    var ms, fs := s.log.Taken(sid), Handled(s);
    assert s.log.downIn == fs + [f];
    assert f.typ == DATA && f.sid == sid ==> target;
    RouteTaken(s, f, target, sid);
    hide LastWhole, PayloadOn, Messages, Flatten, AllMessages, Readable, Route, PumpOk, HoldInv;
    if f.typ == DATA && f.sid == sid {
      MoreOfStream(fs, f, sid, ms, s.sh.Buffered(sid));
    } else {
      LastWholeSnoc(fs, f, sid, ms);
      PayloadSnoc(fs, f, sid);
      Regroup(PayloadOn(fs, sid), [], []);
    }
  }

  lemma DownKeeps(cfg: Config, s: State, step: Step)
    requires HoldInv(s) && ContentInv(cfg, s) && !IsUpStep(step) && NextDown(cfg, s, step).Some?
    ensures HoldInv(NextDown(cfg, s, step).value)
  {
    hide LastWhole, Readable, Route, ReadClient, InputOk, OutputOk, PumpOk;
    if step.Read? {
      ReadKeeps(s, step.f);
    } else if step.RouteFrame? {
      RouteSame(s, s.down.f, s.down.target);
      forall sid | sid !in s.log.rawData
        ensures LastWhole(s.log.downIn, sid, Route(s, s.down.f, s.down.target).log.Taken(sid))
      {
        RouteKeeps(s, s.down.f, s.down.target, sid);
      }
    } else {
      OthersLeave(cfg, s, step);
      hide NextDown;
    }
  }

  lemma StartHolds()
    ensures HoldInv(START)
  {
    forall sid: nat ensures LastWhole([], sid, []) {
      var none: seq<Frame> := [];
      assert none[..0] == none && PayloadOn(none, sid) == [];
      assert IsCut([], sid, []);
    }
  }

  lemma {:induction false} RunHolds(cfg: Config, steps: seq<Step>)
    requires Run(cfg, START, steps).Some?
    ensures HoldInv(Run(cfg, START, steps).value)
  {
    hide NextUp, NextDown, HoldInv, ContentInv;
    if steps == [] {
      StartHolds();
    } else {
      var before := steps[..|steps| - 1];
      RunHolds(cfg, before);
      var s := Run(cfg, START, before).value;
      if IsUpStep(steps[|steps| - 1]) {
        UpKeeps(cfg, s, steps[|steps| - 1]);
      } else {
        RunKeepsContent(cfg, before);
        DownKeeps(cfg, s, steps[|steps| - 1]);
      }
    }
  }

  /** Exactly what is held back, in every reachable state: the messages taken end at the last frame end
      that was also a message boundary, and the buffer holds all that has come behind it, whole messages
      included. */
  lemma HeldBack(cfg: Config, s: State, sid: nat)
    requires Reachable(cfg, s) && sid !in s.log.rawData
    ensures LastWhole(Handled(s), sid, s.log.Taken(sid))
    ensures PayloadOn(Handled(s), sid) == Flatten(s.log.Taken(sid)) + s.sh.Buffered(sid)
  {
    hide LastWhole, NextUp, NextDown, Messages, Flatten, AllMessages, ContentInv;
    var steps :| Run(cfg, START, steps) == Some(s);
    RunHolds(cfg, steps);
    RunKeepsContent(cfg, steps);
    HeldBytes(cfg, s, sid);
  }

  lemma HeldBytes(cfg: Config, s: State, sid: nat)
    requires HoldInv(s) && ContentInv(cfg, s) && sid !in s.log.rawData
    ensures PayloadOn(Handled(s), sid) == Flatten(s.log.Taken(sid)) + s.sh.Buffered(sid)
  {
    hide LastWhole, PayloadOn, Messages, Flatten, AllMessages, Readable, OutputIs;
    var taken := Flatten(s.log.Taken(sid));
    assert InputOk(s, sid);
    if s.down.Checked? {
      assert s.log.downIn == Handled(s) + [s.down.f];
      PayloadSnoc(Handled(s), s.down.f, sid);
      SameFront(PayloadOn(Handled(s), sid), taken + s.sh.Buffered(sid), Unbuffered(s.down, sid));
    } else {
      assert taken + s.sh.Buffered(sid) + [] == taken + s.sh.Buffered(sid);
    }
  }

  lemma SameFront(a: bytes, b: bytes, c: bytes)
    requires a + c == b + c
    ensures a == b
  {
    assert |a + c| == |b + c|;
    assert a == (a + c)[..|a|] && b == (b + c)[..|b|];
  }

  lemma LastWholeUnique(fs: seq<Frame>, gs: seq<Frame>, sid: nat, a: seq<bytes>, b: seq<bytes>)
    requires LastWhole(fs, sid, a) && LastWhole(gs, sid, b)
    requires forall c :: IsCut(fs, sid, c) <==> IsCut(gs, sid, c)
    ensures a == b
  {
    hide Messages, Flatten, AllMessages, PayloadOn;
    MessagesOfJoin(a, MAX_GRPC);
    MessagesOfJoin(b, MAX_GRPC);
    assert |Flatten(a)| == |Flatten(b)|;
    CutsNest(fs, sid, Flatten(a), Flatten(b));
  }

  lemma CutsNest(fs: seq<Frame>, sid: nat, a: bytes, b: bytes)
    requires IsCut(fs, sid, a) && IsCut(fs, sid, b) && |a| == |b|
    ensures a == b
  {
    CutIsPrefix(fs, sid, a);
    CutIsPrefix(fs, sid, b);
  }

  lemma CutIsPrefix(fs: seq<Frame>, sid: nat, a: bytes)
    requires IsCut(fs, sid, a)
    ensures a <= PayloadOn(fs, sid)
  {
    hide PayloadOn;
    var k :| 0 <= k <= |fs| && a == PayloadOn(fs[..k], sid);
    assert fs[..k] + fs[k..] == fs;
    PayloadOnAppend(fs[..k], fs[k..], sid);
  }

  /** The split decides the amount, and nothing else does: two runs whose frames on the stream end at the
      same bytes send the daemon the same bytes on it, once both are between frames with nothing failed. */
  lemma SameSplitSame(cfg: Config, s: State, t: State, sid: nat)
    requires Reachable(cfg, s) && sid !in s.log.rawData && Drained(s)
    requires Reachable(cfg, t) && sid !in t.log.rawData && Drained(t)
    requires forall b :: IsCut(s.log.downIn, sid, b) <==> IsCut(t.log.downIn, sid, b)
    ensures PayloadOn(s.log.downOut, sid) == PayloadOn(t.log.downOut, sid)
  {
    hide Rewrite, LastWhole, PayloadOn, Flatten, Messages, IsCut;
    HeldBack(cfg, s, sid);
    HeldBack(cfg, t, sid);
    LastWholeUnique(s.log.downIn, t.log.downIn, sid, s.log.Taken(sid), t.log.Taken(sid));
    EveryMoment(cfg, s, sid);
    EveryMoment(cfg, t, sid);
    var ms := s.log.Taken(sid);
    assert Begun(ms, []) == ms;
    assert PayloadOn(s.log.downOut, sid) + [] == PayloadOn(s.log.downOut, sid);
    assert PayloadOn(t.log.downOut, sid) + [] == PayloadOn(t.log.downOut, sid);
  }
}
