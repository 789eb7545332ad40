/** Padding and flow control: RFC 7540 section 6.9.1 counts the padding of a DATA frame, the splice's
    windows do not (internal/proxy/sessionsplice.go, lines 294-301 and 433-437). */
module Padding {
  import opened Bytes
  import opened Grpc
  import opened Stream
  import opened Http2
  import opened Session
  import opened StreamContent
  import opened Ledger
  import StreamLedger

  /** What RFC 7540 section 6.9.1 counts for a DATA frame: its whole body, padding included. */
  function FlowLen(f: Frame): nat {
    if f.typ == DATA && f.sid != 0 && |f.raw| >= 9 then |f.raw| - 9 else 0
  }

  function FlowBytes(fs: seq<Frame>): nat {
    if fs == [] then 0 else FlowBytes(fs[..|fs| - 1]) + FlowLen(fs[|fs| - 1])
  }

  /** The padding on the wire (RFC 7540 section 6.1): with the PADDED flag, the pad length byte in front
      of the data and as many bytes behind it. */
  function WirePad(f: Frame): nat {
    if f.typ == DATA && f.sid != 0 && Bit(f.flags, PADDED) && |f.raw| > 9 then 1 + f.raw[9] as int else 0
  }

  function PadBytes(fs: seq<Frame>): nat {
    if fs == [] then 0 else PadBytes(fs[..|fs| - 1]) + WirePad(fs[|fs| - 1])
  }

  /** The body of a frame that reads back is its payload and its padding. */
  lemma PadOnWire(f: Frame)
    requires Readable(f)
    ensures FlowLen(f) == Cost(f) + WirePad(f)
  {
    var n := BE24(f.raw[..3]);
    var body := f.raw[9..9 + n];
    hide BE24, BE32, Bit;
    assert |f.raw| == 9 + n && f.raw[..9][4] == f.raw[4];
    if body != [] { assert body[0] == f.raw[9]; }
  }

  lemma {:induction false} FlowSplits(fs: seq<Frame>)
    requires forall i | 0 <= i < |fs| :: Readable(fs[i])
    ensures FlowBytes(fs) == DataBytes(fs) + PadBytes(fs)
  {
    hide Readable, FlowLen, Cost, WirePad;
    if fs != [] {
      FlowSplits(fs[..|fs| - 1]);
      PadOnWire(fs[|fs| - 1]);
    }
  }

  lemma {:induction false} NoPadBytes(fs: seq<Frame>)
    requires forall i | 0 <= i < |fs| :: WirePad(fs[i]) == 0
    ensures PadBytes(fs) == 0
  {
    if fs != [] { NoPadBytes(fs[..|fs| - 1]); }
  }

  /** What the pump holds and has sent came from the client, apart from frames without padding; and
      while the connection is whole the ledger of spent bytes is exact. */
  predicate PadInv(s: State) {
    && (HeldFrame(s.down).Some? ==> HeldFrame(s.down).value in s.log.downIn)
    && (forall i | 0 <= i < |s.log.downOut| :: s.log.downOut[i] in s.log.downIn || WirePad(s.log.downOut[i]) == 0)
    && (!s.broken && 0 !in s.sh.targets ==>
          DataBytes(s.log.downOut) + Promised(s.down) == s.log.spent + Unspent(s.down))
  }

  lemma UpKeeps(cfg: Config, s: State, step: Step)
    requires PadInv(s) && IsUpStep(step) && NextUp(cfg, s, step).Some?
    ensures PadInv(NextUp(cfg, s, step).value)
  {
    hide NextUp, WirePad, DataBytes, Cost;
    UpSameContent(cfg, s, step);
    StreamLedger.UpHas(cfg, s, step);
  }

  lemma ReadKeeps(s: State, f: Frame)
    requires PadInv(s) && s.down.Reading?
    ensures PadInv(ReadClient(s, f))
  {
    hide WirePad, DataBytes, Opened;
  }

  lemma RouteKeeps(s: State, f: Frame, target: bool)
    requires PadInv(s) && s.down == Checked(f, target)
    ensures PadInv(Route(s, f, target))
  {
    hide WirePad, DataBytes, Messages;
  }

  lemma TakeKeeps(cfg: Config, s: State, sid: nat, todo: seq<bytes>)
    requires PadInv(s) && s.down == Emitting(sid, todo)
    ensures PadInv(Take(cfg, s, sid, todo))
  {
    hide WirePad, DataBytes, EmittedFor, Noted;
  }

  lemma SpendKeeps(s: State, job: Job)
    requires PadInv(s) && GoodJob(job)
    requires (s.down == Written(job) && job.Msg?) || (s.down == Approved(job) && job.Raw?)
    ensures PadInv(Spend(s, job))
  {
    hide WirePad, DataBytes;
  }

  lemma SendKeeps(s: State, f: Frame, next: Down)
    requires PadInv(s) && (f in s.log.downIn || WirePad(f) == 0)
    requires HeldFrame(next).None? && Promised(next) == 0
    requires !s.broken && 0 !in s.sh.targets ==> Unspent(next) == Cost(f) - Promised(s.down) + Unspent(s.down)
    ensures PadInv(Send(s, f, next))
  {
    hide WirePad, DataBytes, Cost;
    SendEffect(s, f, next);
  }

  lemma ChunkHasNoPad(job: Job)
    requires job.Msg?
    ensures WirePad(Chunk(job)) == 0
    ensures job.sid != 0 ==> Cost(Chunk(job)) == job.Need()
  {
    hide Image;
    assert !Bit(0, PADDED);
  }

  lemma DownKeeps(cfg: Config, s: State, step: Step)
    requires PadInv(s) && Jobs(s.down) && StreamLedger.HeldMarked(s) && !IsUpStep(step) && NextDown(cfg, s, step).Some?
    ensures PadInv(NextDown(cfg, s, step).value)
  {
    hide WirePad, DataBytes, Readable, Chunk, ReadClient, Route, Take, Check, Spend, Send, Cost;
    match step
    case Read(f) => ReadKeeps(s, f);
    case RouteFrame => RouteKeeps(s, s.down.f, s.down.target);
    case TakeMessage => TakeKeeps(cfg, s, s.down.sid, s.down.todo);
    case CheckWindow => CheckKeeps(s, s.down.job);
    case SpendBytes => SpendKeeps(s, s.down.job);
    case Write(ok) =>
      if ok && s.down.Forwarding? {
        SendKeeps(s, s.down.f, Reading);
      } else if ok {
        ChunkHasNoPad(s.down.job);
        SendKeeps(s, Chunk(s.down.job), Written(s.down.job));
      }
    case End =>
    case Close =>
  }

  lemma CheckKeeps(s: State, job: Job)
    requires PadInv(s) && s.down == Waiting(job, false)
    ensures PadInv(Check(s, job))
  {
    hide WirePad, DataBytes;
  }

  lemma {:induction false} RunKeepsPad(cfg: Config, steps: seq<Step>)
    requires Run(cfg, START, steps).Some?
    ensures PadInv(Run(cfg, START, steps).value)
  {
    hide NextUp, NextDown, PadInv, StreamLedger.SpentInv, ConnInv, StreamInv, WakeInv;
    if steps == [] {
      assert PadInv(START) by { StartPad(); }
    } else {
      var before := steps[..|steps| - 1];
      RunKeepsPad(cfg, before);
      var s := Run(cfg, START, before).value;
      if IsUpStep(steps[|steps| - 1]) {
        UpKeeps(cfg, s, steps[|steps| - 1]);
      } else {
        HandsAreMarked(cfg, before);
        DownKeeps(cfg, s, steps[|steps| - 1]);
      }
    }
  }

  lemma StartPad()
    ensures PadInv(START)
  {
  }

  lemma HandsAreMarked(cfg: Config, steps: seq<Step>)
    requires Run(cfg, START, steps).Some?
    ensures Jobs(Run(cfg, START, steps).value.down) && StreamLedger.HeldMarked(Run(cfg, START, steps).value)
  {
    hide NextUp, NextDown;
    RunKeeps(cfg, steps);
    StreamLedger.RunKeepsSpent(cfg, steps);
  }

  lemma ReachablePad(cfg: Config, s: State)
    requires Reachable(cfg, s)
    ensures PadInv(s) && ConnInv(s)
    ensures FlowBytes(s.log.downOut) == DataBytes(s.log.downOut) + PadBytes(s.log.downOut)
  {
    hide PadInv, ContentInv, Readable;
    var steps :| Run(cfg, START, steps) == Some(s);
    RunKeepsPad(cfg, steps);
    ReachableKeeps(cfg, s);
    RunKeepsContent(cfg, steps);
    assert forall i | 0 <= i < |s.log.downOut| :: Readable(s.log.downOut[i]) by { AllReadable(cfg, s); }
    FlowSplits(s.log.downOut);
  }

  lemma AllReadable(cfg: Config, s: State)
    requires ContentInv(cfg, s)
    ensures forall i | 0 <= i < |s.log.downOut| :: Readable(s.log.downOut[i])
  {
    hide Readable;
  }

  /** In the protocol's count, what is sent is what the splice counts and the padding forwarded, so the
      grant is exceeded by at most that padding. */
  lemma FlowWithinGrantPlusPadding(cfg: Config, s: State)
    requires Reachable(cfg, s)
    ensures FlowBytes(s.log.downOut) == DataBytes(s.log.downOut) + PadBytes(s.log.downOut)
    ensures FlowBytes(s.log.downOut) <= WINDOW + ConnCredit(s.log.upIn) + PadBytes(s.log.downOut)
  {
    ReachablePad(cfg, s);
    ConnectionSafety(cfg, s);
  }

  /** A client that pads none of its DATA gets the guarantee of RFC 7540 section 6.9.1 in full. */
  lemma UnpaddedWithinGrant(cfg: Config, s: State)
    requires Reachable(cfg, s)
    requires forall f | f in s.log.downIn && f.typ == DATA :: !Bit(f.flags, PADDED)
    ensures FlowBytes(s.log.downOut) <= WINDOW + ConnCredit(s.log.upIn)
  {
    ReachablePad(cfg, s);
    ConnectionSafety(cfg, s);
    NoPadBytes(s.log.downOut);
  }

  /** Exactly when the grant is exceeded, while the connection is whole and stream 0 is not marked: when
      the padding sent so far is more than the window left to the splice, counting what it has taken
      but not sent and sent but not taken. */
  lemma GrantExceededIff(cfg: Config, s: State)
    requires Reachable(cfg, s) && !s.broken && 0 !in s.sh.targets
    ensures FlowBytes(s.log.downOut) > WINDOW + ConnCredit(s.log.upIn) <==>
            PadBytes(s.log.downOut) > s.sh.connWin + Promised(s.down) - Unspent(s.down)
  {
    hide FlowBytes, DataBytes, PadBytes, ConnCredit;
    ReachablePad(cfg, s);
  }

  /** The guard that is missing at the write of a frame: the grant is exceeded by it exactly if the padding
      so far and this frame's are more than the connection window left. */
  lemma WriteExceedsIff(cfg: Config, s: State, f: Frame)
    requires Reachable(cfg, s) && s.down == Forwarding(f) && !s.broken && 0 !in s.sh.targets
    ensures var t := Send(s, f, Reading);
            && NextDown(cfg, s, Write(true)) == Some(t)
            && (FlowBytes(t.log.downOut) > WINDOW + ConnCredit(t.log.upIn) <==>
                PadBytes(s.log.downOut) + WirePad(f) > s.sh.connWin)
  {
    hide FlowBytes, DataBytes, PadBytes, ConnCredit, WirePad, Cost, FlowLen, Readable;
    ReachablePad(cfg, s);
    FlowSnoc(s.log.downOut, f);
    HeldReadable(cfg, s);
    PadOnWire(f);
  }

  lemma HeldReadable(cfg: Config, s: State)
    requires Reachable(cfg, s) && s.down.Forwarding?
    ensures Readable(s.down.f)
  {
    hide Readable;
    var steps :| Run(cfg, START, steps) == Some(s);
    RunKeepsContent(cfg, steps);
  }

  lemma FlowSnoc(fs: seq<Frame>, f: Frame)
    ensures FlowBytes(fs + [f]) == FlowBytes(fs) + FlowLen(f)
  {
    assert (fs + [f])[..|fs|] == fs;
  }
}
