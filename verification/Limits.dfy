/** Where the guarantees of the session splice end: the exact role of each hypothesis, with an input
    that shows it is needed. */
module Limits {
  import opened Bytes
  import opened Http2
  import opened Headers
  import opened Session
  import opened Ledger
  import opened Overdraft
  import opened Padding
  import opened Growth

  /** SETTINGS_INITIAL_WINDOW_SIZE = 131070, which opens the stream window before any mark. */
  const RAISE: bytes := [0, 4, 0, 1, 255, 254]

  const SETTINGS_FRAME := Frame(Image(SETTINGS, 0, 0, RAISE), SETTINGS, 0, 0, RAISE)

  /** A DATA frame on stream 1: 65535 bytes of data and 256 bytes of padding. */
  const PADDED_BODY: bytes := [255] + Zeros(65535) + Zeros(255)

  const PADDED_FRAME := Frame(Image(DATA, 8, 1, PADDED_BODY), DATA, 8, 1, Zeros(65535))

  lemma PaddedFrameReadable()
    ensures Readable(PADDED_FRAME) && FlowLen(PADDED_FRAME) == 65791
  {
    hide Readable;
    assert PADDED_BODY[0] == 255 && Bit(8, PADDED);
    assert PADDED_BODY[1..|PADDED_BODY| - 255] == Zeros(65535);
    assert Unpadded(8, PADDED_BODY) == Some(Zeros(65535));
    ImageReadable(DATA, 8, 1, PADDED_BODY);
  }

  lemma SettingsReadable()
    ensures Readable(SETTINGS_FRAME)
  {
    hide Readable, Image;
    ImageReadable(SETTINGS, 0, 0, RAISE);
  }

  lemma RaiseOpens()
    ensures Configured(NEW_SESSION, RAISE) == NEW_SESSION.(initWin := 131070, strmWin := 65535)
  {
    assert RAISE[2..6] == [0, 1, 255, 254];
    assert BE32([0, 1, 255, 254]) == 131070;
    assert RAISE[6..] == [];
  }

  /** DATA of an unmarked stream goes out as it came, given both windows in the splice's count. */
  lemma ForeignGoesOut(cfg: Config, s: State, f: Frame) returns (t: State)
    requires Reachable(cfg, s) && s.down.Reading? && !s.sh.closed && !s.broken
    requires Readable(f) && f.typ == DATA && f.sid != 0 && f.payload != [] && f.sid !in s.sh.targets
    requires !s.sh.Short(|f.payload|)
    ensures Reachable(cfg, t) && t.down.Reading? && !t.broken
    ensures t.sh == s.sh.(connWin := s.sh.connWin - |f.payload|)
    ensures t.log.downOut == s.log.downOut + [f] && t.log.upIn == s.log.upIn
    ensures t.log.downIn == s.log.downIn + [f] && t.log.obeys == (s.log.obeys && Opened(s.log.upOut, f.sid))
  {
    hide Reachable, Readable, Run, Opened;
    var s1 := Onward(cfg, s, Read(f));
    var s2 := Onward(cfg, s1, RouteFrame);
    var s3 := Onward(cfg, s2, CheckWindow);
    var s4 := Onward(cfg, s3, SpendBytes);
    t := Onward(cfg, s4, Write(true));
  }

  lemma RaiseTraced(cfg: Config)
    ensures var t := Trace(cfg, START, SETTINGS_FRAME);
            && t.sh == NEW_SESSION.(initWin := 131070, strmWin := 65535)
            && t.down.Reading? && !t.broken && t.log.downOut == [] && t.log.upIn == []
  {
    hide Image, Configured, SettingsWake;
    RaiseOpens();
    assert !Bit(0, 1);
  }

  /** The daemon has raised the initial window, and nothing else has happened. */
  lemma Raised(cfg: Config) returns (s: State)
    ensures Reachable(cfg, s) && s.down.Reading? && !s.broken
    ensures s.sh == NEW_SESSION.(initWin := 131070, strmWin := 65535)
    ensures s.log.downOut == [] && s.log.upIn == [SETTINGS_FRAME]
  {
    hide Reachable, Readable, Run, Trace;
    StartReachable(cfg);
    SettingsReadable();
    RaiseTraced(cfg);
    s := Onward(cfg, START, UpRead(SETTINGS_FRAME));
  }

  /** Padding does escape the ledger: one padded frame, within the window in the splice's count,
      exceeds the daemon's connection window in the protocol's count. */
  lemma PaddingExceedsGrant(cfg: Config)
    ensures exists s: State :: Reachable(cfg, s) && FlowBytes(s.log.downOut) > WINDOW + ConnCredit(s.log.upIn)
  {
    hide Reachable, Readable, ConnCredit, FlowBytes, FlowLen, Image;
    PaddedFrameReadable();
    var s := Raised(cfg);
    assert |Zeros(65535)| == 65535;
    var t := ForeignGoesOut(cfg, s, PADDED_FRAME);
    assert t.log.downOut == [PADDED_FRAME];
    OneFlow(PADDED_FRAME);
    NoCredit(SETTINGS_FRAME);
  }

  lemma OneFlow(f: Frame)
    ensures FlowBytes([f]) == FlowLen(f)
  {
    assert [f][..0] == [];
    assert FlowBytes([f][..0]) == 0;
  }

  lemma NoCredit(f: Frame)
    requires Grant(f) == 0
    ensures ConnCredit([f]) == 0
  {
    assert [f][..0] == [];
    assert ConnCredit([f][..0]) == 0;
  }

  const FOREIGN := DataFrame(3, [0])

  /** A daemon HEADERS frame with a whole block. */
  function Request(sid: nat, block: bytes): Frame {
    Frame(Image(HEADERS, 4, sid, block), HEADERS, 4, sid, block)
  }

  lemma RequestReadable(sid: nat, block: bytes)
    requires |block| < 0x100_0000 && sid < TWO31
    ensures Readable(Request(sid, block)) && EndHeaders(Request(sid, block))
  {
    hide Image, Readable;
    assert !Bit(4, PADDED) && Bit(4, END_HEADERS);
    ImageReadable(HEADERS, 4, sid, block);
  }

  /** `markTarget` does not broadcast: for any decoder that reads a Dockerfile request out of some block,
      DATA of another stream, put to sleep before that request, sleeps on with both windows wide open. */
  lemma MarkWakesNobody(cfg: Config, block: bytes)
    requires |block| < 0x100_0000 && Verdict(cfg, [], Block(1, block))
    ensures exists s: State :: Reachable(cfg, s) && Asleep(s.down) && !s.sh.Short(s.down.job.Need()) && s.log.marks == 1
  {
    hide Reachable, Readable, Run, Opened, Verdict;
    StartReachable(cfg);
    assert Readable(FOREIGN) by { DataFrameReadable(3, [0]); }
    RequestReadable(1, block);
    hide Image;
    var s1 := Onward(cfg, START, Read(FOREIGN));
    var s2 := Onward(cfg, s1, RouteFrame);
    var s3 := Onward(cfg, s2, CheckWindow);
    assert Asleep(s3.down);
    var s4 := Onward(cfg, s3, UpRead(Request(1, block)));
    assert s4.sh.strmWin == s4.sh.connWin == WINDOW;
  }

  /** The request arrives, is traced, and goes on to the client. */
  lemma Requested(cfg: Config, s: State, sid: nat, block: bytes) returns (t: State)
    requires Reachable(cfg, s) && s.up.UpReading? && !Asleep(s.down)
    requires |block| < 0x100_0000 && sid < TWO31
    ensures Reachable(cfg, t)
    ensures t == (if Verdict(cfg, s.seen, Block(sid, block)) then Mark(s, sid) else s)
                 .(up := UpReading, seen := s.seen + [Block(sid, block)], log := t.log)
    ensures t.log == (if Verdict(cfg, s.seen, Block(sid, block)) then Mark(s, sid) else s)
                     .log.(upIn := s.log.upIn + [Request(sid, block)], upOut := s.log.upOut + [Request(sid, block)])
  {
    hide Reachable, Readable, Run, Verdict;
    RequestReadable(sid, block);
    hide Image;
    var s1 := Onward(cfg, s, UpRead(Request(sid, block)));
    t := Onward(cfg, s1, UpWrite(true));
  }

  lemma OpensIts(fs: seq<Frame>, sid: nat, block: bytes)
    ensures Opened(fs + [Request(sid, block)], sid)
  {
    hide Image;
    var all := fs + [Request(sid, block)];
    assert all[..|fs|] == fs && !Bit(4, PRIORITY) && Bit(4, END_HEADERS);
    assert HeaderBlocks(all)[|HeaderBlocks(fs)|] == Block(sid, block);
  }

  lemma OpenedStays(fs: seq<Frame>, f: Frame, sid: nat)
    requires Opened(fs, sid)
    ensures Opened(fs + [f], sid)
  {
    hide OpenBlock, Completed;
    var i :| 0 <= i < |HeaderBlocks(fs)| && HeaderBlocks(fs)[i].sid == sid;
    assert (fs + [f])[..|fs|] == fs;
    assert HeaderBlocks(fs + [f])[i] == HeaderBlocks(fs)[i];
  }

  /** The daemon asks for a Dockerfile on stream 1 and for something else on stream 3, by requests a decoder
      reads that way. */
  predicate AsksOnce(cfg: Config, block: bytes, other: bytes) {
    && |block| < 0x100_0000 && |other| < 0x100_0000
    && Verdict(cfg, [], Block(1, block)) && !Verdict(cfg, [Block(1, block)], Block(3, other))
  }

  /** It asks for a Dockerfile on both streams. */
  predicate AsksTwice(cfg: Config, block: bytes, other: bytes) {
    && |block| < 0x100_0000 && |other| < 0x100_0000
    && Verdict(cfg, [], Block(1, block)) && Verdict(cfg, [Block(1, block)], Block(3, other))
  }

  /** One byte of data and 256 bytes of padding, on stream 3. */
  const NIBBLE_BODY: bytes := [255, 0] + Zeros(255)

  const NIBBLE := Frame(Image(DATA, 8, 3, NIBBLE_BODY), DATA, 8, 3, [0])

  lemma NibbleReadable()
    ensures Readable(NIBBLE) && |NIBBLE.raw| == 266 && WirePad(NIBBLE) == 256
  {
    hide Readable, PutBE32;
    assert NIBBLE_BODY[0] == 255 && Bit(8, PADDED) && |Zeros(255)| == 255;
    assert NIBBLE_BODY[1..|NIBBLE_BODY| - 255] == [0];
    assert Unpadded(8, NIBBLE_BODY) == Some([0]);
    ImageReadable(DATA, 8, 3, NIBBLE_BODY);
    assert NIBBLE.raw[9] == 255;
  }

  /** A client that keeps to the protocol: DATA only on streams whose headers it has, at most 16384 bytes a
      frame, and altogether less than the first window. */
  predicate ClientKeeps(s: State) {
    && s.log.obeys && FlowBytes(s.log.downIn) < WINDOW
    && forall i | 0 <= i < |s.log.downIn| :: |s.log.downIn[i].raw| <= 9 + MAX_FRAME
  }

  lemma FlowTwo(f: Frame, g: Frame)
    ensures FlowBytes([f, g]) == FlowLen(f) + FlowLen(g)
  {
    hide FlowLen;
    assert [f, g] == [f] + [g];
    OneFlow(f);
    FlowSnoc([f], g);
  }

  /** The same for a client that does nothing wrong: the rewrite makes an empty Dockerfile large, and then
      one small padded frame of the client's, well within what the daemon granted the client, goes over
      what the daemon granted the connection. */
  lemma GrowthMakesPaddingExceed(cfg: Config, block: bytes, other: bytes)
    requires AsksOnce(cfg, block, other) && GrowsTo(cfg.edit, LARGE)
    ensures exists s: State ::
              Reachable(cfg, s) && ClientKeeps(s) && FlowBytes(s.log.downOut) > WINDOW + ConnCredit(s.log.upIn)
  {
    hide Reachable, Readable, Verdict, Opened, FlowBytes, PadBytes, FlowLen, WirePad, ConnCredit, PayloadOn, Image,
         Serving, GrowsTo;
    StartReachable(cfg);
    var s1 := Requested(cfg, START, 1, block);
    assert [] + [Block(1, block)] == [Block(1, block)];
    var s2 := Requested(cfg, s1, 3, other);
    OpensIts([], 1, block);
    OpenedStays(s1.log.upOut, Request(3, other), 1);
    OpensIts(s1.log.upOut, 3, other);
    NothingServed(cfg, s2, 1);
    var s3 := ServesEmpty(cfg, s2, 1, 0);
    NibbleReadable();
    ServingIs(1);
    var s4 := ForeignGoesOut(cfg, s3, NIBBLE);
    PadSnoc(s3.log.downOut, NIBBLE);
    GrantExceededIff(cfg, s4);
    assert s4.log.downIn == [Serving(1), NIBBLE];
    FlowTwo(Serving(1), NIBBLE);
    SmallFlow(Serving(1));
    SmallFlow(NIBBLE);
  }

  lemma NothingServed(cfg: Config, s: State, sid: nat)
    requires Reachable(cfg, s) && s.down.Reading? && !s.sh.closed && !s.broken && s.log.downIn == []
    requires sid in s.sh.targets && sid !in s.log.rawData
    ensures Between(cfg, s, sid, 0)
  {
    hide Reachable;
  }

  lemma SmallFlow(f: Frame)
    ensures FlowLen(f) <= |f.raw|
  {
  }

  lemma PadSnoc(fs: seq<Frame>, f: Frame)
    ensures PadBytes(fs + [f]) == PadBytes(fs) + WirePad(f)
  {
    assert (fs + [f])[..|fs|] == fs;
  }

  const CREDIT := Frame(Image(WINDOW_UPDATE, 0, 0, PutBE32(65535)), WINDOW_UPDATE, 0, 0, PutBE32(65535))

  lemma CreditReadable()
    ensures Readable(CREDIT) && BE32(CREDIT.payload[..4]) % TWO31 == 65535
  {
    hide Readable, Image, PutBE32, BE32;
    ImageReadable(WINDOW_UPDATE, 0, 0, PutBE32(65535));
    assert !Bit(0, PADDED) && CREDIT.payload[..4] == PutBE32(65535);
  }

  /** The connection gets 65535 bytes more. */
  lemma Credited65535(cfg: Config, s: State) returns (t: State)
    requires Reachable(cfg, s) && s.up.UpReading? && !Asleep(s.down)
    ensures Reachable(cfg, t)
    ensures t == s.(sh := s.sh.(connWin := s.sh.connWin + 65535),
                    log := s.log.(upIn := s.log.upIn + [CREDIT], upOut := s.log.upOut + [CREDIT]))
  {
    hide Reachable, Readable, Run, BE32;
    CreditReadable();
    hide Image, PutBE32;
    var s1 := Onward(cfg, s, UpRead(CREDIT));
    t := Onward(cfg, s1, UpWrite(true));
  }

  /** The one-target hypothesis is needed: a mark of a second stream refills the stream window, and the
      first stream goes over its own initial window and credit, for a client that does nothing wrong. */
  lemma SecondMarkOverdraws(cfg: Config, block: bytes, other: bytes)
    requires AsksTwice(cfg, block, other) && GrowsTo(cfg.edit, LARGE)
    ensures exists s: State ::
              && Reachable(cfg, s) && ClientKeeps(s) && s.log.marks == 2 && 1 in s.sh.targets && s.sh.initWin == WINDOW
              && |PayloadOn(s.log.downOut, 1)| > WINDOW + StreamCredit(s.log.upIn, 1)
  {
    hide Reachable, Readable, Verdict, Opened, FlowBytes, FlowLen, StreamCredit, PayloadOn, Image, Serving, GrowsTo,
         PutBE32;
    StartReachable(cfg);
    var s1 := Requested(cfg, START, 1, block);
    OpensIts([], 1, block);
    var s2 := Credited65535(cfg, s1);
    OpenedStays(s1.log.upOut, CREDIT, 1);
    NothingServed(cfg, s2, 1);
    var s3 := ServesEmpty(cfg, s2, 1, 0);
    assert [] + [Block(1, block)] == [Block(1, block)];
    var s4 := Requested(cfg, s3, 3, other);
    OpenedStays(s3.log.upOut, Request(3, other), 1);
    assert Between(cfg, s4, 1, 1);
    var s5 := ServesEmpty(cfg, s4, 1, 1);
    ServingIs(1);
    assert s5.log.downIn == [Serving(1), Serving(1)];
    FlowTwo(Serving(1), Serving(1));
    SmallFlow(Serving(1));
    assert s5.log.upIn == [Request(1, block), CREDIT, Request(3, other)];
    NoStreamCredit(Request(1, block), CREDIT, Request(3, other));
  }

  lemma NoStreamCredit(f: Frame, g: Frame, h: Frame)
    requires f.typ != WINDOW_UPDATE && g.sid == 0 && h.typ != WINDOW_UPDATE
    ensures StreamCredit([f, g, h], 1) == 0
  {
    assert [f, g, h][..2] == [f, g] && [f, g][..1] == [f] && [f][..0] == [];
    assert StreamCredit([f][..0], 1) == 0;
    assert StreamCredit([f, g][..1], 1) == 0;
    assert StreamCredit([f, g, h][..2], 1) == 0;
  }
}
