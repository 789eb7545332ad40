/** The session splice as the code has it: an object whose methods update its fields, with two pumps
    (internal/proxy/sessionsplice.go).  A ghost copy of the state machine follows every lock region,
    read and write, so each method is proved to be a schedule of the machine's steps; the upstream
    pump may run any number of steps wherever the downstream pump does not hold the lock. */
module Splice {
  import opened Bytes
  import opened Io
  import opened Records
  import opened Fsutil
  import opened Grpc
  import opened Stream
  import opened Http2
  import opened Headers
  import opened Session
  import opened StreamContent
  import opened Steps

  /** `bytes.Buffer` as the splice uses it: `Reset` keeps the storage and its contents. */
  class ByteBuffer {
    var data: array<byte>
    var len: nat

    ghost predicate Valid()
      reads this
    {
      len <= data.Length
    }

    ghost function Contents(): bytes
      requires Valid()
      reads this, data
    {
      data[..len]
    }

    constructor ()
      ensures Valid() && Contents() == [] && fresh(data)
    {
      data := new byte[0];
      len := 0;
    }

    /** New storage with room for `n` more bytes. */
    method Grow(n: nat)
      requires Valid()
      modifies this`data
      ensures Valid() && Contents() == old(Contents())
      ensures fresh(data) && len + n <= data.Length
    {
      var bigger := new byte[2 * data.Length + n](_ => 0);
      forall k | 0 <= k < len { bigger[k] := data[k]; }
      assert bigger[..len] == data[..len];
      data := bigger;
    }

    method Write(p: bytes)
      requires Valid()
      modifies this, data
      ensures Valid() && Contents() == old(Contents()) + p
      ensures data == old(data) || fresh(data)
    {
      if len + |p| > data.Length {
        Grow(|p|);
      }
      forall k | 0 <= k < |p| { data[len + k] := p[k]; }
      len := len + |p|;
      assert data[..len] == data[..old(len)] + data[old(len)..len];
      assert data[old(len)..len] == p;
    }

    method Reset()
      modifies this`len
      ensures Valid() && Contents() == []
    {
      len := 0;
    }
  }

  /** Of the bytes `all` a peer sends, the frames `fs` have been read and `left` is to come; once the
      pump has given up, some of the rest may have been dropped. */
  predicate ReadSoFar(fs: seq<Frame>, left: bytes, all: bytes, gaveUp: bool) {
    if gaveUp then Wire(fs) <= all && |Wire(fs)| + |left| <= |all| && IsTail(left, all) else Wire(fs) + left == all
  }

  lemma ReadOn(fs: seq<Frame>, left: bytes, all: bytes, f: Frame, left': bytes)
    requires ReadSoFar(fs, left, all, false) && f.raw + left' == left
    ensures ReadSoFar(fs + [f], left', all, false)
  {
    hide Wire;
    WireAppend(fs, f);
    assert (Wire(fs) + f.raw) + left' == Wire(fs) + (f.raw + left');
  }

  lemma ReadNoMore(fs: seq<Frame>, left: bytes, all: bytes, gaveUp: bool, left': bytes)
    requires ReadSoFar(fs, left, all, gaveUp) && IsTail(left', left)
    ensures ReadSoFar(fs, left', all, true)
  {
    hide Wire;
    if !gaveUp { TailOf(Wire(fs), left, all); }
    TailOfTail(left', left, all);
  }

  /** `readH2F` for one side: the next frame of what is to come, and the account of what has been read. */
  method ReadNext(src: Source, ghost fs: seq<Frame>, ghost all: bytes) returns (f: Option<Frame>)
    requires src.Valid() && ReadSoFar(fs, src.Rest(), all, false)
    modifies src
    ensures src.Valid() && f == FirstFrame(old(src.Rest())) && IsTail(src.Rest(), old(src.Rest()))
    ensures f.Some? ==> Readable(f.value) && |f.value.raw| >= 9 && f.value.raw + src.Rest() == old(src.Rest())
    ensures if f.Some? then ReadSoFar(fs + [f.value], src.Rest(), all, false) else ReadSoFar(fs, src.Rest(), all, true)
  {
    hide Readable, FirstFrame, ReadSoFar, IsTail;
    ghost var b := src.Rest();
    f := ReadH2F(src);
    if f.Some? {
      ParsedIsReadable(b);
      FrameHasHeader(f.value);
      ReadOn(fs, b, all, f.value, src.Rest());
    } else {
      ReadNoMore(fs, b, all, false, src.Rest());
    }
  }

  lemma FrameHasHeader(f: Frame)
    requires Readable(f)
    ensures |f.raw| >= 9
  {
  }

  function Part(view: map<nat, bytes>, sid: nat): bytes {
    if sid in view then view[sid] else []
  }

  lemma Updated(view: map<nat, bytes>, sid: nat, old_: bytes, p: bytes)
    ensures view[sid := old_][sid := Part(view[sid := old_], sid) + p] == view[sid := old_ + p]
    ensures Part(view[sid := old_ + p], sid) == old_ + p
    ensures view[sid := old_ + p][sid := []] == view[sid := []]
  {
  }

  lemma OneUpdated(was: map<nat, bytes>, view: map<nat, bytes>, sid: nat, p: bytes)
    requires sid in was && view.Keys == was.Keys && view[sid] == was[sid] + p
    requires forall k | k in was && k != sid :: view[k] == was[k]
    ensures view == was[sid := Part(was, sid) + p] && Part(view, sid) == was[sid] + p
  {
  }

  /** Messages on the wire, one after the other. */
  function WireOf(sid: nat, ms: seq<bytes>): bytes {
    if ms == [] then [] else Wire(MessageFrames(sid, ms[0])) + WireOf(sid, ms[1..])
  }

  lemma OneMoreOut(sid: nat, msg: bytes, rest: seq<bytes>, cur: Option<Stat>, edit: Option<Edit>, sent: bytes)
    ensures sent + WireOf(sid, Rewrite([msg] + rest, cur, edit)) ==
            sent + Wire(MessageFrames(sid, EmittedFor(msg, cur, edit)))
              + WireOf(sid, Rewrite(rest, NextStat(msg, cur), edit))
  {
    hide Wire, MessageFrames, EmittedFor, NextStat;
    RewriteCons(msg, rest, cur, edit);
    var e := EmittedFor(msg, cur, edit);
    var more := Rewrite(rest, NextStat(msg, cur), edit);
    hide Rewrite;
    assert ([e] + more)[1..] == more;
    Assoc(sent, Wire(MessageFrames(sid, e)), WireOf(sid, more));
  }

  lemma NoneLeftOut(sid: nat, cur: Option<Stat>, edit: Option<Edit>, sent: bytes)
    ensures sent + WireOf(sid, Rewrite([], cur, edit)) == sent
  {
  }

  lemma BytesOfFrame(raw: bytes, sid: nat, piece: bytes)
    requires |raw| == 9 + |piece| && raw[5..9] == PutBE32(sid) && raw[9..] == piece
    requires raw[0] == |piece| / 0x1_0000 % 256 && raw[1] == |piece| / 0x100 % 256 && raw[2] == |piece| % 256
    requires raw[3] == DATA && raw[4] == 0
    ensures raw == DataFrame(sid, piece).raw
  {
    hide PutBE32;
    assert raw[..3] == Len24(|piece|) && raw[3..5] == [DATA, 0];
    assert raw == raw[..3] + raw[3..5] + raw[5..9] + raw[9..];
  }

  lemma LoopAwake(job: Job)
    requires job.Msg?
    ensures !Loop(job).Failing? && !Loop(job).Done? && !Asleep(Loop(job))
  {
  }

  /** Between `before` and `after`, the first frames of `all` have been written, and no more. */
  ghost predicate StartSent(all: seq<Frame>, before: bytes, after: bytes) {
    exists k | 0 <= k <= |all| :: after == before + Wire(all[..k])
  }

  /** Between `before` and `after`, the first `k` frames of `all` have been written, and no more. */
  ghost predicate SentUpTo(all: seq<Frame>, k: nat, before: bytes, after: bytes) {
    k <= |all| && after == before + Wire(all[..k])
  }

  lemma SentSome(all: seq<Frame>, k: nat, before: bytes, after: bytes)
    requires SentUpTo(all, k, before, after)
    ensures StartSent(all, before, after)
  {
  }

  lemma NothingWritten(all: seq<Frame>, before: bytes)
    ensures all[0..] == all && SentUpTo(all, 0, before, before)
  {
    assert before + [] == before;
  }

  lemma SplitWindow(buf: array<byte>, lo: nat, mid: nat, hi: nat)
    requires lo <= mid <= hi <= buf.Length
    ensures buf[lo..hi][..mid - lo] == buf[lo..mid] && buf[lo..hi][mid - lo..] == buf[mid..hi]
  {
  }

  /** The length of the next piece of a message. */
  function NextPiece(rest: bytes): (n: nat)
    ensures n <= |rest|
  {
    if |rest| <= MAX_FRAME then |rest| else MAX_FRAME
  }

  lemma FirstFrameOf(sid: nat, rest: bytes)
    requires rest != []
    ensures var n := NextPiece(rest);
            MessageFrames(sid, rest) == [DataFrame(sid, rest[..n])] + MessageFrames(sid, rest[n..])
  {
    hide DataFrame;
    var n := NextPiece(rest);
    assert Chunks(rest) == [rest[..n]] + Chunks(rest[n..]) by {
      if |rest| <= MAX_FRAME { assert rest[..n] == rest && rest[n..] == []; }
    }
  }

  lemma OneMoreSent(all: seq<Frame>, k: nat, before: bytes, sent: bytes)
    requires SentUpTo(all, k, before, sent) && k < |all|
    ensures SentUpTo(all, k + 1, before, sent + all[k].raw)
  {
    hide Wire;
    assert all[..k + 1] == all[..k] + [all[k]];
    WireAppend(all[..k], all[k]);
    Assoc(before, Wire(all[..k]), all[k].raw);
  }

  /** One more piece: the frames of the rest are the frames left. */
  lemma FramesGoOut(sid: nat, rest: bytes, all: seq<Frame>, k: nat, before: bytes, after: bytes)
    requires k <= |all| && MessageFrames(sid, rest) == all[k..] && rest != []
    requires var n := NextPiece(rest);
             exists sent: bytes :: SentUpTo(all, k, before, sent) && after == sent + DataFrame(sid, rest[..n]).raw
    ensures var n := NextPiece(rest);
            && k < |all| && SentUpTo(all, k + 1, before, after)
            && MessageFrames(sid, rest[n..]) == all[k + 1..]
  {
    var n := NextPiece(rest);
    var sent: bytes :| SentUpTo(all, k, before, sent) && after == sent + DataFrame(sid, rest[..n]).raw;
    FirstFrameOf(sid, rest);
    hide SentUpTo, DataFrame, MessageFrames, NextPiece;
    assert all[k] == all[k..][0] && all[k..][1..] == all[k + 1..];
    OneMoreSent(all, k, before, sent);
  }

  lemma FramesAreOut(sid: nat, all: seq<Frame>, k: nat, before: bytes, after: bytes)
    requires k <= |all| && MessageFrames(sid, []) == all[k..] && SentUpTo(all, k, before, after)
    ensures after == before + Wire(all) && StartSent(all, before, after)
  {
    assert all[..k] == all;
  }

  /** The guard of `emitMessages`: only an uncompressed message with a whole header is looked into. */
  method LookInto(msg: bytes) returns (pk: Option<Packet>)
    ensures pk == Seen(msg)
  {
    hide Classified;
    if |msg| < 5 || Bit(msg[0], 1) {
      return None;
    }
    pk := ClassifyPacket(msg[5..]);
  }

  /** The message to write: for an edited Data a fresh frame with the original flags. */
  method EditedMessage(msg: Slice, whole: bytes, pk: Option<Packet>, cur: Option<Stat>, edit: Option<Edit>)
    returns (out: Slice)
    requires msg.Valid() && whole == msg.View() && pk == Seen(whole)
    ensures out.Valid() && out.View() == EmittedFor(whole, cur, edit)
  {
    hide Classified, Framed, DiffCopyRewrite;
    out := msg;
    if pk.Some? && pk.value.DataPacket? && cur.Some? {
      var d := RewriteDiffCopyData(whole[5..], cur, edit);
      if d.changed {
        var framed := GrpcFrame(whole[0], d.out);
        out := Slice(framed, 0, framed.Length);
      }
    }
  }

  /** Only for a Data does the stored Stat matter. */
  lemma UnlicensedStays(msg: bytes, cur: Option<Stat>, cur': Option<Stat>, edit: Option<Edit>)
    requires IsData(msg) ==> cur == cur'
    ensures EmittedFor(msg, cur, edit) == EmittedFor(msg, cur', edit)
  {
  }

  /** How a call that may wait or write comes back.  `Unseen` is no return at all: the observed part
      of the run ends while the caller is asleep. */
  datatype Outcome = Ok | Failed | Unseen

  class SessionSplice {
    const cfg: Config
    const cliR: Source
    const upR: Source

    var closed: bool
    var targets: set<nat>
    var stat: map<nat, Stat>
    var buf: map<nat, ByteBuffer>
    var connWin: int
    var strmWin: int
    var initWin: int

    var hb: Assembly             // `hb` and `hbSid` of pumpUpstream
    var seen: seq<Block>         // the HPACK decoder's past
    var up: Up                   // where pumpUpstream is, with the frame it holds
    var toDaemon: bytes          // what upConn has accepted
    var toClient: bytes          // what cliConn has accepted
    var broken: bool             // upConn has failed
    var sleeping: bool           // pumpDownstream sleeps on winCond

    ghost var mem: set<array<byte>>   // the storage of the buffers
    ghost var m: State
    ghost var trace: seq<Step>
    ghost const cliAll: bytes    // all that cliR will deliver
    ghost const upAll: bytes     // all that upR will deliver

    ghost predicate Buffers()
      reads this`buf, this`mem, buf.Values
    {
      && (forall sid | sid in buf :: buf[sid].Valid() && buf[sid].data in mem)
      && (forall i, j | i in buf && j in buf && i != j :: buf[i] != buf[j] && buf[i].data != buf[j].data)
    }

    ghost function BufferView(): map<nat, bytes>
      requires Buffers()
      reads this`buf, this`mem, buf.Values, mem
    {
      map sid | sid in buf :: buf[sid].Contents()
    }

    ghost function View(): Shared
      requires Buffers()
      reads this`closed, this`targets, this`stat, this`connWin, this`strmWin, this`initWin
      reads this`buf, this`mem, buf.Values, mem
    {
      Shared(closed, targets, stat, BufferView(), connWin, strmWin, initWin)
    }

    /** The ghost machine has come here by its own steps. */
    ghost predicate OnSchedule()
      reads this`m, this`trace
    {
      Run(cfg, START, trace) == Some(m)
    }

    /** The object is in the machine's state. */
    ghost predicate Coupled()
      requires Buffers()
      reads this, buf.Values, mem
    {
      && m.sh == View()
      && m.asm == hb && m.seen == seen && m.broken == broken
      && (sleeping <==> Asleep(m.down))
      && m.up == up
    }

    /** The bytes written and read so far are those of the machine's frames. */
    ghost predicate Wired()
      requires cliR.Valid() && upR.Valid()
      reads this, cliR, upR
    {
      && toDaemon == Wire(m.log.downOut) && toClient == Wire(m.log.upOut)
      && ReadSoFar(m.log.downIn, cliR.Rest(), cliAll, m.down.Failing? || m.down.Done?)
      && ReadSoFar(m.log.upIn, upR.Rest(), upAll, m.up.UpFailed? || m.up.UpDone?)
    }

    ghost predicate Valid()
      reads this, buf.Values, mem
      reads cliR, upR
    {
      && Buffers() && OnSchedule() && Coupled()
      && cliR.Valid() && upR.Valid() && cliR != upR && Wired()
    }

    /** `serveSession` builds the splice, then `initWindows`. */
    constructor (cfg: Config, cliR: Source, upR: Source)
      requires cliR.Valid() && upR.Valid() && cliR != upR
      ensures Valid() && m == START && trace == []
      ensures this.cfg == cfg && this.cliR == cliR && this.upR == upR
      ensures cliAll == cliR.Rest() && upAll == upR.Rest()
    {
      this.cfg, this.cliR, this.upR := cfg, cliR, upR;
      cliAll, upAll := cliR.Rest(), upR.Rest();
      closed, targets, stat, buf := false, {}, map[], map[];
      connWin, strmWin, initWin := WINDOW, 0, WINDOW;
      hb, seen, up := NO_BLOCK, [], UpReading;
      toDaemon, toClient, broken, sleeping := [], [], false, false;
      m, trace, mem := START, [], {};
      new;
      assert BufferView() == map[];
      assert Wire([]) + cliAll == cliAll && Wire([]) + upAll == upAll;
    }

    /** Record one step of the machine. */
    ghost method Do(step: Step)
      requires OnSchedule() && Next(cfg, m, step).Some?
      modifies this`m, this`trace
      ensures OnSchedule() && m == Next(cfg, old(m), step).value && trace == old(trace) + [step]
    {
      m := Next(cfg, m, step).value;
      trace := trace + [step];
      assert trace[..|trace| - 1] == old(trace);
    }

    /** `isTarget`. */
    method IsTarget(sid: nat) returns (r: bool)
      ensures r == (sid in targets)
    {
      r := sid in targets;
    }

    /** `markTarget`. */
    method MarkTarget(sid: nat)
      requires Buffers()
      modifies this`targets, this`strmWin
      ensures Buffers() && View() == Marked(old(View()), sid)
    {
      targets := targets + {sid};
      strmWin := initWin;
    }

    /** `applyWindowUpdate`: credit one window and wake the waiter. */
    method ApplyWindowUpdate(sid: nat, inc: nat)
      requires Buffers()
      modifies this`connWin, this`strmWin, this`sleeping
      ensures Buffers() && View() == Credited(old(View()), sid, inc)
      ensures sleeping == (old(sleeping) && !CreditWakes(old(View()), sid))
    {
      hide Buffers, BufferView;
      if sid == 0 {
        connWin := connWin + inc;
        sleeping := false;
        return;
      }
      if sid in targets {
        strmWin := strmWin + inc;
        sleeping := false;
      }
    }

    /** `applySettings`: entry by entry, waking the waiter at each initial window size. */
    method ApplySettings(payload: bytes)
      requires Buffers()
      modifies this`initWin, this`strmWin, this`sleeping
      ensures Buffers() && View() == Configured(old(View()), payload)
      ensures sleeping == (old(sleeping) && !SettingsWake(payload))
    {
      hide BE32, Buffers, BufferView;
      var i := 0;
      assert payload[0..] == payload;
      while i + 6 <= |payload|
        invariant 0 <= i <= |payload| && Buffers()
        invariant BufferView() == old(BufferView())
        invariant Configured(View(), payload[i..]) == Configured(old(View()), payload)
        invariant (sleeping && !SettingsWake(payload[i..])) == (old(sleeping) && !SettingsWake(payload))
      {
        ghost var entry := payload[i..];
        assert payload[i + 2..i + 6] == entry[2..6] && entry[6..] == payload[i + 6..];
        if payload[i] == 0 && payload[i + 1] == 4 {
          var val := BE32(payload[i + 2..i + 6]);
          var delta := val - initWin;
          initWin := val;
          strmWin := strmWin + delta;
          sleeping := false;
        }
        i := i + 6;
      }
    }

    /** `spendWindow`. */
    method SpendWindow(sid: nat, n: nat)
      requires Buffers()
      modifies this`connWin, this`strmWin
      ensures Buffers() && View() == Spent(old(View()), sid, n)
    {
      hide Buffers, BufferView;
      connWin := connWin - n;
      if sid in targets {
        strmWin := strmWin - n;
      }
    }

    /** `markClosed`: no waiter sleeps on. */
    method MarkClosed()
      requires Buffers()
      modifies this`closed, this`sleeping
      ensures Buffers() && View() == old(View()).(closed := true) && !sleeping
    {
      hide Buffers, BufferView;
      closed := true;
      sleeping := false;
    }

    /** `identify`. */
    method IdentifyBlock(b: Block)
      requires Buffers()
      modifies this`seen, this`targets, this`strmWin
      ensures Buffers() && seen == old(seen) + [b]
      ensures View() == if Verdict(cfg, old(seen), b) then Marked(old(View()), b.sid) else old(View())
    {
      hide Buffers, BufferView, IsDockerfileSync;
      var hdrs := cfg.hpack(seen, b);
      seen := seen + [b];
      if hdrs.None? {
        return;
      }
      var sync := Inspect(hdrs.value);
      if sync {
        MarkTarget(b.sid);
      }
    }

    /** The `switch f.typ` of `pumpUpstream`. */
    method TraceFrame(f: Frame)
      requires Buffers() && m.sh == View() && m.asm == hb && m.seen == seen && (sleeping <==> Asleep(m.down))
      modifies this`hb, this`seen, this`targets, this`connWin, this`strmWin, this`initWin, this`sleeping
      ensures Buffers()
      ensures var t := Trace(cfg, m, f);
              View() == t.sh && hb == t.asm && seen == t.seen && (sleeping <==> Asleep(t.down))
    {
      hide Assemble, BE32, Configured, Verdict, SettingsWake, Buffers, BufferView;
      if f.typ == HEADERS || f.typ == CONTINUATION {
        var (a, block) := Assemble(hb, f);
        hb := a;
        if block.Some? {
          IdentifyBlock(block.value);
        }
      } else if f.typ == SETTINGS {
        if !Bit(f.flags, 1) {
          ApplySettings(f.payload);
        }
      } else if f.typ == WINDOW_UPDATE {
        if |f.payload| >= 4 {
          ApplyWindowUpdate(f.sid, BE32(f.payload[..4]) % TWO31);
        }
      }
    }

    /** `readH2F` at the end of the daemon's bytes; what is left of a broken frame is never used. */
    method EndOfDaemon()
      requires Buffers() && OnSchedule() && Coupled() && up.UpReading?
      modifies this`up, this`m, this`trace
      ensures old(trace) <= trace
      ensures Buffers() && OnSchedule() && Coupled() && up.UpFailed? && SameContent(old(m), m)
      ensures m == old(m).(up := UpFailed)
    {
      hide Next, SameContent, Buffers, OnSchedule, BufferView;
      up := UpFailed;
      UpEndStep(cfg, m);
      Do(UpEnd);
    }

    /** The trace of one daemon frame, which is then held for the client. */
    method TraceAndHold(f: Frame)
      requires Buffers() && OnSchedule() && Coupled() && up.UpReading? && Readable(f)
      modifies this`hb, this`seen, this`targets, this`connWin, this`strmWin, this`initWin, this`sleeping
      modifies this`up, this`m, this`trace
      ensures old(trace) <= trace
      ensures Buffers() && OnSchedule() && Coupled() && up == UpWriting(f) && SameContent(old(m), m)
      ensures m.log.upIn == old(m).log.upIn + [f] && m.log.upOut == old(m).log.upOut
    {
      hide Trace, Readable, View, BufferView, Next, SameContent, Buffers, OnSchedule;
      TraceFrame(f);
      up := UpWriting(f);
      UpReadStep(cfg, m, f);
      Do(UpRead(f));
    }

    /** `readH2F` and the trace of one daemon frame in `pumpUpstream`; false at the end. */
    method UpstreamRead() returns (more: bool)
      requires Valid() && up.UpReading?
      modifies this`hb, this`seen, this`targets, this`connWin, this`strmWin, this`initWin, this`sleeping
      modifies this`up, this`m, this`trace, upR
      ensures old(trace) <= trace
      ensures Valid() && SameContent(old(m), m) && closed == old(closed)
      ensures more <==> FirstFrame(old(upR.Rest())).Some?
      ensures more ==> up.UpWriting? && |up.f.raw| >= 9 && up.f.raw + upR.Rest() == old(upR.Rest())
      ensures !more ==> up.UpFailed? && m.log.upIn == old(m).log.upIn && IsTail(upR.Rest(), old(upR.Rest()))
    {
      hide SameContent, Readable, FirstFrame, Wire, Buffers, OnSchedule, ReadSoFar, View, IsTail, BufferView;
      var f := ReadNext(upR, m.log.upIn, upAll);
      if f.None? {
        EndOfDaemon();
        return false;
      }
      TraceAndHold(f.value);
      SameContentDown(old(m), m);
      return true;
    }

    /** The write of `pumpUpstream` toward the client. */
    method UpstreamWrite() returns (ok: bool)
      requires Valid() && up.UpWriting?
      modifies this`up, this`toClient, this`m, this`trace
      ensures old(trace) <= trace
      ensures Valid() && SameContent(old(m), m)
      ensures ok ==> up.UpReading? && toClient == old(toClient) + old(up).f.raw
      ensures !ok ==> up.UpFailed? && toClient == old(toClient)
    {
      hide Readable, View, BufferView, Wire, Next, SameContent, Buffers, OnSchedule, ReadSoFar;
      ok := *;
      UpWriteStep(cfg, m, ok);
      ReadNoMore(m.log.upIn, upR.Rest(), upAll, false, upR.Rest());
      if ok {
        toClient := toClient + up.f.raw;
        WireAppend(m.log.upOut, up.f);
        up := UpReading;
      } else {
        up := UpFailed;
      }
      Do(UpWrite(ok));
    }

    /** The deferred `markClosed` of `pumpUpstream`. */
    method UpstreamClose()
      requires Valid() && up.UpFailed?
      modifies this`closed, this`sleeping, this`up, this`m, this`trace
      ensures old(trace) <= trace
      ensures Valid() && SameContent(old(m), m) && up.UpDone? && closed
    {
      hide Readable, BufferView, Wire, Next, SameContent, Buffers, OnSchedule, ReadSoFar;
      MarkClosed();
      up := UpDone;
      UpCloseStep(cfg, m);
      Do(UpClose);
    }

    /** `pumpUpstream`, run to its end: the client gets the daemon's bytes, as they are. */
    method PumpUpstream()
      requires Valid() && up.UpReading?
      modifies this`hb, this`seen, this`targets, this`connWin, this`strmWin, this`initWin, this`sleeping
      modifies this`up, this`toClient, this`closed, this`m, this`trace, upR
      ensures old(trace) <= trace
      ensures Valid() && up.UpDone? && closed
      ensures old(toClient) <= toClient <= old(toClient) + old(upR.Rest())
    {
      hide SameContent, BufferView, Buffers, OnSchedule, Coupled;
      ghost var all := toClient + upR.Rest();
      var more := true;
      while more
        invariant Valid() && old(trace) <= trace && (if more then up.UpReading? else up.UpFailed?)
        invariant old(toClient) <= toClient
        invariant if more then toClient + upR.Rest() == all else toClient <= all
        decreases more, |upR.Rest()|
      {
        ghost var rest := upR.Rest();
        more := UpstreamRead();
        if more {
          assert toClient + up.f.raw + upR.Rest() == toClient + rest;
          more := UpstreamWrite();
        }
      }
      UpstreamClose();
    }

    /** Anything the upstream pump can do while the downstream pump is between two lock regions, in
        the middle of a write, or asleep. */
    method Interfere()
      requires Valid()
      modifies this`hb, this`seen, this`targets, this`connWin, this`strmWin, this`initWin, this`sleeping
      modifies this`up, this`toClient, this`closed, this`m, this`trace, upR
      ensures old(trace) <= trace
      ensures Valid() && SameContent(old(m), m) && (old(closed) ==> closed)
    {
      hide SameContent, Coupled, OnSchedule, Buffers;
      var turns: nat := *;
      SameContentRefl(m);
      while turns > 0
        invariant Valid() && SameContent(old(m), m) && old(trace) <= trace && (old(closed) ==> closed)
      {
        turns := turns - 1;
        ghost var before := m;
        SameContentRefl(m);
        match up {
          case UpReading => var _ := UpstreamRead();
          case UpWriting(_) => var _ := UpstreamWrite();
          case UpFailed => UpstreamClose();
          case UpDone =>
        }
        SameContentTrans(old(m), before, m);
      }
    }

    /** `writeF` toward the daemon: all of the frame or nothing, and a failed connection stays failed. */
    method WriteF(raw: bytes) returns (ok: bool)
      modifies this`toDaemon, this`broken
      ensures ok ==> !old(broken) && !broken && toDaemon == old(toDaemon) + raw
      ensures !ok ==> broken && toDaemon == old(toDaemon)
    {
      ok := *;
      if broken {
        ok := false;
      }
      if ok {
        toDaemon := toDaemon + raw;
      } else {
        broken := true;
      }
    }

    /** The downstream pump only moves on. */
    ghost method Move(step: Step, down: Down)
      requires Valid() && Next(cfg, m, step).Some? && Moved(m, Next(cfg, m, step).value, down)
      requires (sleeping <==> Asleep(down))
      requires !down.Failing? ==> !m.down.Failing? && !m.down.Done?
      modifies this`m, this`trace
      ensures old(trace) <= trace
      ensures Valid() && Moved(old(m), m, down)
    {
      hide Next, Wire, Buffers, OnSchedule, View;
      ReadNoMore(m.log.downIn, cliR.Rest(), cliAll, m.down.Failing? || m.down.Done?, cliR.Rest());
      Do(step);
    }

    /** `winCond.Wait` up to the point where the lock is released. */
    method FallAsleep(ghost job: Job)
      requires Valid() && m.down == Waiting(job, false) && m.sh.Short(job.Need()) && !m.sh.closed
      modifies this`sleeping, this`m, this`trace
      ensures old(trace) <= trace
      ensures Valid() && sleeping && m.down == Waiting(job, true) && DownOnly(old(m), m)
    {
      hide Next, Wire, Buffers, OnSchedule, View, ReadSoFar;
      CheckStep(cfg, m, job);
      Do(CheckWindow);
      sleeping := true;
    }

    /** `waitWindow`: wait until both windows cover `n` bytes or the session is closed. */
    method WaitWindow(n: nat, ghost job: Job) returns (r: Outcome)
      requires Valid() && m.down == Waiting(job, false) && n == job.Need()
      modifies this`hb, this`seen, this`targets, this`connWin, this`strmWin, this`initWin, this`sleeping
      modifies this`up, this`toClient, this`closed, this`m, this`trace, upR
      ensures old(trace) <= trace
      ensures Valid()
      ensures r.Ok? ==> !closed && connWin >= n && strmWin >= n && m.down == Approved(job)
      ensures r.Failed? ==> closed && m.down == AfterFailure(job)
      ensures r.Unseen? ==> m.down.Waiting? && m.down.job == job
      ensures old(closed) ==> closed
    {
      hide Wired, OnSchedule, Buffers, SameContent, Next;
      var patience: nat :| patience >= 0;
      Interfere();
      SameContentDown(old(m), m);
      while connWin < n || strmWin < n
        invariant Valid() && m.down == Waiting(job, false) && old(trace) <= trace && (old(closed) ==> closed)
        decreases patience
      {
        CheckStep(cfg, m, job);
        if closed {
          Move(CheckWindow, AfterFailure(job));
          return Failed;
        }
        if patience == 0 {
          return Unseen;
        }
        patience := patience - 1;
        FallAsleep(job);
        label asleep:
        Interfere();
        SameContentDown(old@asleep(m), m);
        if sleeping {
          return Unseen;
        }
      }
      CheckStep(cfg, m, job);
      Move(CheckWindow, if closed then AfterFailure(job) else Approved(job));
      return if closed then Failed else Ok;
    }

    /** One DATA frame of `writeMessage`, filled in place. */
    static method BuildFrame(sid: nat, piece: bytes) returns (raw: array<byte>)
      ensures fresh(raw) && raw[..] == DataFrame(sid, piece).raw
    {
      hide PutBE32;
      var n := |piece|;
      raw := new byte[9 + n](_ => 0);
      raw[0], raw[1], raw[2] := n / 0x1_0000 % 256, n / 0x100 % 256, n % 256;
      raw[3] := DATA;
      var id := PutBE32(sid);
      forall k | 0 <= k < 4 { raw[5 + k] := id[k]; }
      forall k | 0 <= k < n { raw[9 + k] := piece[k]; }
      assert raw[5..9] == id;
      assert raw[9..] == piece;
      BytesOfFrame(raw[..], sid, piece);
    }

    /** A frame goes to the daemon, or fails to. */
    method Deliver(raw: bytes, ghost f: Frame) returns (ok: bool)
      requires Valid() && raw == f.raw
      requires Lands(cfg, m, f, false) && (!m.broken ==> Lands(cfg, m, f, true))
      modifies this`toDaemon, this`broken, this`m, this`trace
      ensures old(trace) <= trace
      ensures Valid() && (ok ==> !old(m).broken) && Lands(cfg, old(m), f, ok) && m == Next(cfg, old(m), Write(ok)).value
      ensures toDaemon == old(toDaemon) + (if ok then f.raw else []) && broken == !ok && (old(broken) ==> broken)
    {
      hide Next, Wire, Buffers, OnSchedule, View, ReadSoFar;
      ok := WriteF(raw);
      assert toDaemon == old(toDaemon) + if ok then f.raw else [] by { assert old(toDaemon) + [] == old(toDaemon); }
      WireAppend(m.log.downOut, f);
      assert m.log.downOut + [] == m.log.downOut;
      ReadNoMore(m.log.downIn, cliR.Rest(), cliAll, false, cliR.Rest());
      Do(Write(ok));
    }

    /** The write of an approved piece of a message. */
    method PutChunk(sid: nat, piece: bytes, ghost job: Job) returns (ok: bool)
      requires Valid() && m.down == Approved(job) && job.Msg? && job.sid == sid && piece == job.rest[..job.Need()]
      modifies this`toDaemon, this`broken, this`m, this`trace
      ensures old(trace) <= trace
      ensures Valid()
      ensures ok ==> m.down == Written(job) && toDaemon == old(toDaemon) + DataFrame(sid, piece).raw
      ensures !ok ==> broken && m.down == AfterFailure(job) && toDaemon == old(toDaemon)
      ensures old(broken) ==> broken
    {
      hide Valid, Next, DataFrame;
      var raw := BuildFrame(sid, piece);
      ChunkStep(cfg, m, job, false);
      if !m.broken { ChunkStep(cfg, m, job, true); }
      ok := Deliver(raw[..], Chunk(job));
      ChunkStep(cfg, old(m), job, ok);
    }

    /** The lock region of `spendWindow` after a wait has been granted. */
    method SpendNow(sid: nat, n: nat, ghost job: Job)
      requires Valid() && m.down == (if job.Raw? then Approved(job) else Written(job))
      requires sid == job.Stream() && n == job.Need()
      modifies this`connWin, this`strmWin, this`m, this`trace
      ensures old(trace) <= trace
      ensures Valid()
      ensures m.down == if job.Raw? then Forwarding(job.f) else Loop(job.(rest := job.rest[job.Need()..]))
    {
      hide Next, Wire, Buffers, OnSchedule, ReadSoFar, View, Loop;
      SpendStep(cfg, m, job);
      SpendWindow(sid, n);
      if job.Msg? { LoopAwake(job.(rest := job.rest[job.Need()..])); }
      Do(SpendBytes);
    }

    /** One turn of the loop of `writeMessage`: wait, write, account. */
    method WritePiece(sid: nat, piece: bytes, ghost job: Job) returns (r: Outcome)
      requires Valid() && m.down == Waiting(job, false)
      requires job.Msg? && job.sid == sid && |piece| == job.Need() && piece == job.rest[..|piece|]
      modifies this`hb, this`seen, this`targets, this`connWin, this`strmWin, this`initWin, this`sleeping
      modifies this`up, this`toClient, this`closed, this`toDaemon, this`broken, this`m, this`trace, upR
      ensures old(trace) <= trace
      ensures Valid()
      ensures r.Ok? ==> m.down == Loop(job.(rest := job.rest[|piece|..]))
      ensures r.Ok? ==> toDaemon == old(toDaemon) + DataFrame(sid, piece).raw
      ensures !r.Ok? ==> toDaemon == old(toDaemon)
      ensures r.Failed? ==> (closed || broken) && m.down == AfterFailure(job)
      ensures (old(closed) ==> closed) && (old(broken) ==> broken)
    {
      hide Wired, OnSchedule, Buffers, Next, Coupled, DataFrame, Loop;
      r := WaitWindow(|piece|, job);
      if !r.Ok? {
        return;
      }
      label granted:
      Interfere();
      SameContentDown(old@granted(m), m);
      var ok := PutChunk(sid, piece, job);
      if !ok {
        return Failed;
      }
      Interfere();
      SpendNow(sid, |piece|, job);
    }

    /** `writeMessage`: the message goes out as the frames of its pieces; when it cannot be finished,
        the frames written are the first ones. */
    method WriteMessage(sid: nat, msg: Slice, ghost isStat: bool, ghost todo: seq<bytes>) returns (r: Outcome)
      requires Valid() && msg.Valid() && m.down == Loop(Msg(sid, msg.View(), isStat, todo))
      modifies this`hb, this`seen, this`targets, this`connWin, this`strmWin, this`initWin, this`sleeping
      modifies this`up, this`toClient, this`closed, this`toDaemon, this`broken, this`m, this`trace, upR
      ensures old(trace) <= trace
      ensures Valid()
      ensures r.Ok? ==> m.down == Emitting(sid, todo)
      ensures r.Failed? ==> m.down == if isStat then Emitting(sid, todo) else Failing
      ensures r.Ok? ==> toDaemon == old(toDaemon) + Wire(MessageFrames(sid, msg.View()))
      ensures StartSent(MessageFrames(sid, msg.View()), old(toDaemon), toDaemon)
      ensures r.Failed? ==> closed || broken
      ensures (old(closed) ==> closed) && (old(broken) ==> broken)
    {
      hide Valid, Wire, MessageFrames, DataFrame, SentUpTo, StartSent;
      ghost var all, before := MessageFrames(sid, msg.View()), toDaemon;
      ghost var k := 0;
      var lo := msg.lo;
      NothingWritten(all, before);
      while lo < msg.hi
        invariant msg.lo <= lo <= msg.hi && Valid()
        invariant m.down == Loop(Msg(sid, msg.buf[lo..msg.hi], isStat, todo))
        invariant 0 <= k <= |all| && MessageFrames(sid, msg.buf[lo..msg.hi]) == all[k..]
        invariant SentUpTo(all, k, before, toDaemon)
        invariant old(trace) <= trace && (old(closed) ==> closed) && (old(broken) ==> broken)
      {
        var n := if msg.hi - lo <= MAX_FRAME then msg.hi - lo else MAX_FRAME;
        ghost var rest := msg.buf[lo..msg.hi];
        SplitWindow(msg.buf, lo, lo + n, msg.hi);
        SentSome(all, k, before, toDaemon);
        r := WritePiece(sid, msg.buf[lo..lo + n], Msg(sid, rest, isStat, todo));
        if !r.Ok? {
          return;
        }
        FramesGoOut(sid, rest, all, k, before, toDaemon);
        k := k + 1;
        lo := lo + n;
      }
      FramesAreOut(sid, all, k, before, toDaemon);
      r := Ok;
    }

    /** The Stat stored for a stream. */
    function StatNow(sid: nat): Option<Stat>
      reads this`stat
    {
      if sid in stat then Some(stat[sid]) else None
    }

    /** The lock region of `emitMessages`: a Stat is stored, a Data takes the stored Stat out. */
    method NoteStat(sid: nat, ghost whole: bytes, pk: Option<Packet>) returns (cur: Option<Stat>)
      requires Buffers() && pk == Seen(whole)
      modifies this`stat
      ensures Buffers() && View() == Noted(old(View()), sid, whole)
      ensures IsData(whole) ==> cur == old(StatNow(sid))
      ensures StatNow(sid) == NextStat(whole, old(StatNow(sid)))
    {
      hide Buffers, BufferView, Classified;
      cur := None;
      if pk.Some? && pk.value.StatPacket? {
        stat := stat[sid := pk.value.st];
      } else if pk.Some? && pk.value.DataPacket? {
        cur := if sid in stat then Some(stat[sid]) else None;
        stat := stat - {sid};
      }
    }

    lemma StatIsNow(sid: nat)
      requires Buffers()
      ensures View().StatFor(sid) == StatNow(sid)
    {
      hide Buffers, BufferView;
    }

    /** A message is taken up: its Stat is noted. */
    method TakeUp(sid: nat, whole: bytes, pk: Option<Packet>, ghost todo: seq<bytes>) returns (cur: Option<Stat>)
      requires Valid() && pk == Seen(whole) && m.down == Emitting(sid, [whole] + todo)
      modifies this`stat, this`m, this`trace
      ensures old(trace) <= trace
      ensures Valid() && m.down == Loop(Msg(sid, EmittedFor(whole, old(StatNow(sid)), cfg.edit), IsStat(whole), todo))
      ensures IsData(whole) ==> cur == old(StatNow(sid))
      ensures StatNow(sid) == NextStat(whole, old(StatNow(sid)))
    {
      hide Next, Wire, Buffers, View, OnSchedule, ReadSoFar, Loop, Seen, IsStat, IsData, EmittedFor, Noted, NextStat,
           StatNow;
      assert m.sh.StatFor(sid) == StatNow(sid) by { StatIsNow(sid); }
      cur := NoteStat(sid, whole, pk);
      TakeStep(cfg, m, sid, [whole] + todo);
      assert ([whole] + todo)[1..] == todo;
      LoopAwake(Msg(sid, EmittedFor(whole, old(StatNow(sid)), cfg.edit), IsStat(whole), todo));
      Do(TakeMessage);
    }

    /** The message to be written: the Data that a Stat licenses is edited. */
    method NoteAndEdit(sid: nat, msg: Slice, whole: bytes, pk: Option<Packet>, ghost todo: seq<bytes>)
      returns (out: Slice)
      requires Valid() && msg.Valid() && whole == msg.View() && pk == Seen(whole)
      requires m.down == Emitting(sid, [whole] + todo)
      modifies this`stat, this`m, this`trace
      ensures old(trace) <= trace
      ensures Valid() && out.Valid() && m.down == Loop(Msg(sid, out.View(), IsStat(whole), todo))
      ensures out.View() == EmittedFor(whole, old(StatNow(sid)), cfg.edit)
      ensures StatNow(sid) == NextStat(whole, old(StatNow(sid)))
    {
      hide Valid, Next, Loop, Seen, IsStat, IsData, EmittedFor, Noted, NextStat, StatNow;
      var cur := TakeUp(sid, whole, pk, todo);
      out := EditedMessage(msg, whole, pk, cur, cfg.edit);
      UnlicensedStays(whole, cur, old(StatNow(sid)), cfg.edit);
    }

    /** One turn of `emitMessages`: look into the message, note a Stat, edit the Data it licenses. */
    method EmitOne(sid: nat, msg: Slice, ghost todo: seq<bytes>) returns (r: Outcome)
      requires Valid() && msg.Valid() && m.down == Emitting(sid, [msg.View()] + todo)
      modifies this`hb, this`seen, this`targets, this`connWin, this`strmWin, this`initWin, this`sleeping
      modifies this`stat, this`up, this`toClient, this`closed, this`toDaemon, this`broken, this`m, this`trace, upR
      ensures old(trace) <= trace
      ensures Valid()
      ensures r.Ok? ==> m.down == Emitting(sid, todo)
      ensures r.Failed? ==> m.down == Failing
      ensures var frames := MessageFrames(sid, EmittedFor(msg.View(), old(StatNow(sid)), cfg.edit));
              && StartSent(frames, old(toDaemon), toDaemon)
              && (r.Ok? && !closed && !broken ==> toDaemon == old(toDaemon) + Wire(frames))
      ensures StatNow(sid) == NextStat(msg.View(), old(StatNow(sid)))
      ensures (old(closed) ==> closed) && (old(broken) ==> broken)
    {
      hide Wire, MessageFrames, EmittedFor, StartSent, NextStat, Wired, OnSchedule, Buffers, Next, Coupled;
      Interfere();
      var whole := msg.buf[msg.lo..msg.hi];
      var pk := LookInto(whole);
      var out := NoteAndEdit(sid, msg, whole, pk, todo);
      r := WriteMessage(sid, out, IsStat(whole), todo);
      if r.Failed? && pk.Some? && pk.value.StatPacket? {
        r := Ok;
      }
    }

    /** `emitMessages`.  The slices are windows into the stream's buffer, which was reset before: they
        still hold the parsed bytes, since nothing is written to that buffer in between. */
    method EmitMessages(sid: nat, msgs: seq<Slice>, ghost store: array<byte>) returns (r: Outcome)
      requires Valid() && AllIn(msgs, store) && m.down == Emitting(sid, Views(msgs, store))
      modifies this`hb, this`seen, this`targets, this`connWin, this`strmWin, this`initWin, this`sleeping
      modifies this`stat, this`up, this`toClient, this`closed, this`toDaemon, this`broken, this`m, this`trace, upR
      ensures old(trace) <= trace
      ensures Valid()
      ensures r.Ok? ==> m.down.Reading?
      ensures r.Failed? ==> m.down.Failing?
      ensures r.Ok? && !closed && !broken ==>
                toDaemon == old(toDaemon) + WireOf(sid, Rewrite(Views(msgs, store), old(StatNow(sid)), cfg.edit))
    {
      hide Wired, OnSchedule, Buffers, Next, View, MessageFrames, Wire, EmittedFor, NextStat, StartSent, WireOf,
           Rewrite, StatNow;
      ghost var all := Views(msgs, store);
      ghost var sent := toDaemon + WireOf(sid, Rewrite(all, StatNow(sid), cfg.edit));
      assert all[0..] == all;
      for i := 0 to |msgs|
        invariant Valid() && Views(msgs, store) == all
        invariant m.down == Emitting(sid, all[i..]) && old(trace) <= trace
        invariant (old(closed) ==> closed) && (old(broken) ==> broken)
        invariant !closed && !broken ==> toDaemon + WireOf(sid, Rewrite(all[i..], StatNow(sid), cfg.edit)) == sent
      {
        assert all[i..] == [msgs[i].View()] + all[i + 1..];
        OneMoreOut(sid, msgs[i].View(), all[i + 1..], StatNow(sid), cfg.edit, toDaemon);
        r := EmitOne(sid, msgs[i], all[i + 1..]);
        if !r.Ok? {
          return;
        }
      }
      assert all[|msgs|..] == [];
      NoneLeftOut(sid, StatNow(sid), cfg.edit, toDaemon);
      TakenAllStep(cfg, m, sid);
      Move(TakeMessage, Reading);
      r := Ok;
    }

    lemma AwakeNow()
      requires Valid() && !Asleep(m.down)
      ensures !sleeping
    {
      hide Wired, OnSchedule, Buffers, View;
    }

    /** The wait and the spending for DATA that is not target data. */
    method ClearRaw(f: Frame) returns (r: Outcome)
      requires Valid() && m.down == Waiting(Raw(f), false)
      modifies this`hb, this`seen, this`targets, this`connWin, this`strmWin, this`initWin, this`sleeping
      modifies this`up, this`toClient, this`closed, this`m, this`trace, upR
      ensures old(trace) <= trace
      ensures Valid()
      ensures r.Ok? ==> m.down == Forwarding(f)
      ensures r.Failed? ==> m.down.Failing?
    {
      hide Wired, OnSchedule, Buffers, Next, View, Coupled, SameContent;
      r := WaitWindow(|f.payload|, Raw(f));
      if !r.Ok? {
        return;
      }
      label granted:
      Interfere();
      SameContentDown(old@granted(m), m);
      SpendNow(f.sid, |f.payload|, Raw(f));
    }

    /** The wait and the write for a frame that is not target data. */
    method ForwardFrame(f: Frame, target: bool) returns (r: Outcome)
      requires Valid() && m.down == Checked(f, target) && !(target && f.typ == DATA)
      modifies this`hb, this`seen, this`targets, this`connWin, this`strmWin, this`initWin, this`sleeping
      modifies this`up, this`toClient, this`closed, this`toDaemon, this`broken, this`m, this`trace, upR
      ensures old(trace) <= trace
      ensures Valid()
      ensures r.Ok? ==> m.down.Reading? && toDaemon == old(toDaemon) + f.raw
      ensures !r.Ok? ==> toDaemon == old(toDaemon)
      ensures r.Failed? ==> m.down.Failing?
    {
      hide Wired, OnSchedule, Buffers, Next, View, Coupled, SameContent;
      ForeignStep(cfg, m, f, target);
      AwakeNow();
      if f.typ == DATA && f.sid != 0 && f.payload != [] {
        Move(RouteFrame, Waiting(Raw(f), false));
        r := ClearRaw(f);
        if !r.Ok? {
          return;
        }
      } else {
        Move(RouteFrame, Forwarding(f));
      }
      label ready:
      Interfere();
      SameContentDown(old@ready(m), m);
      var ok := PutRaw(f);
      r := if ok then Ok else Failed;
    }

    /** The write of a frame as it came. */
    method PutRaw(f: Frame) returns (ok: bool)
      requires Valid() && m.down == Forwarding(f)
      modifies this`toDaemon, this`broken, this`m, this`trace
      ensures old(trace) <= trace
      ensures Valid()
      ensures ok ==> m.down.Reading? && toDaemon == old(toDaemon) + f.raw
      ensures !ok ==> m.down.Failing? && toDaemon == old(toDaemon)
    {
      hide Valid, Next;
      ForwardStep(cfg, m, f, false);
      if !m.broken { ForwardStep(cfg, m, f, true); }
      ok := Deliver(f.raw, f);
      ForwardStep(cfg, old(m), f, ok);
    }

    /** `readH2F` at the end of the client's bytes. */
    method EndOfClient()
      requires Buffers() && OnSchedule() && Coupled() && m.down.Reading?
      modifies this`m, this`trace
      ensures old(trace) <= trace
      ensures Buffers() && OnSchedule() && Coupled() && m == old(m).(down := Failing)
    {
      hide Next, Buffers, OnSchedule, View;
      EndStep(cfg, m);
      Do(End);
    }

    /** `isTarget` for the frame just read. */
    method TakeIn(f: Frame) returns (target: bool)
      requires Buffers() && OnSchedule() && Coupled() && m.down.Reading? && Readable(f)
      modifies this`m, this`trace
      ensures old(trace) <= trace
      ensures Buffers() && OnSchedule() && Coupled() && m.down == Checked(f, target)
      ensures m.log.downIn == old(m).log.downIn + [f] && m.log.downOut == old(m).log.downOut
      ensures m.log.upIn == old(m).log.upIn && m.log.upOut == old(m).log.upOut && m.up == old(m).up
    {
      hide Readable, Buffers, OnSchedule, BufferView, Next;
      target := IsTarget(f.sid);
      ReadStep(cfg, m, f);
      Do(Read(f));
    }

    /** `readH2F` and `isTarget` at the head of the loop of `pumpDownstream`. */
    method ReadFrame() returns (f: Option<Frame>, target: bool)
      requires Valid() && m.down.Reading?
      modifies this`m, this`trace, cliR
      ensures old(trace) <= trace
      ensures Valid()
      ensures f.Some? ==> m.down == Checked(f.value, target) && f.value.raw + cliR.Rest() == old(cliR.Rest())
      ensures f.Some? ==> |f.value.raw| >= 9
      ensures f.None? ==> m.down.Failing?
    {
      hide Readable, FirstFrame, Wire, Buffers, OnSchedule, Coupled, ReadSoFar, BufferView, View, IsTail;
      target := false;
      f := ReadNext(cliR, m.log.downIn, cliAll);
      if f.None? {
        EndOfClient();
        return;
      }
      target := TakeIn(f.value);
    }

    /** The first payload of a stream gets a new buffer. */
    method NewBuffer(sid: nat) returns (b: ByteBuffer)
      requires Buffers() && sid !in buf
      modifies this`buf, this`mem
      ensures Buffers() && buf == old(buf)[sid := b] && mem == old(mem) + {b.data} && fresh(b) && fresh(b.data)
      ensures BufferView() == old(BufferView())[sid := []]
    {
      b := new ByteBuffer();
      buf := buf[sid := b];
      mem := mem + {b.data};
    }

    /** The buffer of stream `sid`, made at the first use. */
    method BufferFor(sid: nat) returns (b: ByteBuffer)
      requires Buffers()
      modifies this`buf, this`mem
      ensures Buffers() && sid in buf && buf[sid] == b && b.data in mem
      ensures fresh(buf.Values - old(buf.Values)) && fresh(mem - old(mem))
      ensures BufferView() == old(BufferView())[sid := Part(old(BufferView()), sid)]
    {
      if sid in buf {
        b := buf[sid];
      } else {
        hide Buffers;
        b := NewBuffer(sid);
      }
    }

    /** `b.Write`: one stream's buffer grows, the others stay. */
    method Append(sid: nat, b: ByteBuffer, p: bytes)
      requires Buffers() && sid in buf && buf[sid] == b
      modifies b, b.data, this`mem
      ensures Buffers() && fresh(mem - old(mem))
      ensures BufferView() == old(BufferView())[sid := Part(old(BufferView()), sid) + p]
      ensures b.len <= b.data.Length && b.data[..b.len] == Part(BufferView(), sid)
    {
      b.Write(p);
      mem := mem + {b.data};
      assert forall k | k in buf && k != sid :: buf[k].Contents() == old(buf[k].Contents());
      OneUpdated(old(BufferView()), BufferView(), sid, p);
    }

    /** `b.Reset`: one stream's buffer is emptied; its storage is not touched. */
    method Drop(sid: nat, b: ByteBuffer)
      requires Buffers() && sid in buf && buf[sid] == b
      modifies b`len
      ensures Buffers() && BufferView() == old(BufferView())[sid := []]
    {
      b.Reset();
    }

    /** Buffer the payload; if the buffer ends on a message boundary, reset it and hand out its
        messages, which are still in its storage. */
    method StoreAndParse(sid: nat, payload: bytes) returns (msgs: Option<seq<Slice>>, ghost store: array<byte>)
      requires Buffers()
      modifies this`buf, this`mem, buf.Values, mem
      ensures Buffers() && fresh(buf.Values - old(buf.Values)) && fresh(mem - old(mem))
      ensures var whole := Part(old(BufferView()), sid) + payload;
              match Messages(whole, MAX_GRPC)
              case None => msgs.None? && BufferView() == old(BufferView())[sid := whole]
              case Some(ms) => msgs.Some? && AllIn(msgs.value, store) && Views(msgs.value, store) == ms
                               && BufferView() == old(BufferView())[sid := []]
    {
      hide *;
      ghost var before := BufferView();
      var b := BufferFor(sid);
      Append(sid, b, payload);
      Updated(before, sid, Part(before, sid), payload);
      msgs := ParseGRPCMessages(b.data, b.len);
      store := b.data;
      if msgs.Some? {
        Drop(sid, b);
      }
    }

    /** The same, as seen in the fields. */
    method StoreFrame(sid: nat, payload: bytes) returns (msgs: Option<seq<Slice>>, ghost store: array<byte>)
      requires Buffers()
      modifies this`buf, this`mem, buf.Values, mem
      ensures Buffers() && fresh(buf.Values - old(buf.Values)) && fresh(mem - old(mem))
      ensures View() == Stored(old(View()), sid, payload)
      ensures msgs.Some? ==> AllIn(msgs.value, store)
      ensures AfterStore(old(View()), sid, payload) ==
              if msgs.Some? then Emitting(sid, Views(msgs.value, store)) else Reading
    {
      hide Buffers, BufferView, Messages, Views, AllIn;
      msgs, store := StoreAndParse(sid, payload);
    }

    /** The lock region of `pumpDownstream` for target data. */
    method BufferFrame(f: Frame) returns (msgs: Option<seq<Slice>>, ghost store: array<byte>)
      requires Valid() && m.down == Checked(f, true) && f.typ == DATA
      modifies this`buf, this`mem, this`m, this`trace, buf.Values, mem
      ensures old(trace) <= trace
      ensures Valid() && fresh(buf.Values - old(buf.Values)) && fresh(mem - old(mem))
      ensures msgs.Some? ==> AllIn(msgs.value, store) && m.down == Emitting(f.sid, Views(msgs.value, store))
      ensures msgs.None? ==> m.down.Reading?
    {
      hide Next, Wire, OnSchedule, ReadSoFar, Messages, Buffers, BufferView, View, Views, AllIn, Stored, AfterStore;
      BufferStep(cfg, m, f);
      AfterStoreAwake(m.sh, f.sid, f.payload);
      msgs, store := StoreFrame(f.sid, f.payload);
      Do(RouteFrame);
    }

    /** What `pumpDownstream` does with a frame it has read. */
    method Dispatch(f: Frame, target: bool) returns (r: Outcome)
      requires Valid() && m.down == Checked(f, target)
      modifies this, buf.Values, mem, upR
      ensures old(trace) <= trace
      ensures Valid() && fresh(buf.Values - old(buf.Values)) && fresh(mem - old(mem))
      ensures r.Ok? ==> m.down.Reading?
      ensures r.Failed? ==> m.down.Failing?
    {
      hide Valid, Next;
      if target && f.typ == DATA {
        var msgs, store := BufferFrame(f);
        if msgs.None? {
          return Ok;
        }
        r := EmitMessages(f.sid, msgs.value, store);
      } else {
        r := ForwardFrame(f, target);
      }
    }

    /** One turn of the loop of `pumpDownstream`. */
    method DownstreamTurn() returns (r: Outcome)
      requires Valid() && m.down.Reading?
      modifies this, buf.Values, mem
      modifies cliR, upR
      ensures old(trace) <= trace
      ensures Valid() && fresh(buf.Values - old(buf.Values)) && fresh(mem - old(mem))
      ensures r.Ok? ==> m.down.Reading? && |cliR.Rest()| < |old(cliR.Rest())|
      ensures r.Failed? ==> m.down.Failing?
    {
      hide Wired, OnSchedule, Buffers, Next, Coupled, View, BufferView;
      Interfere();
      var f, target := ReadFrame();
      if f.None? {
        return Failed;
      }
      Interfere();
      r := Dispatch(f.value, target);
    }

    /** `pumpDownstream`, run until it returns or the observed part of the run ends: the fields follow
        a schedule of the machine, so all that is proved of the machine's runs holds of `toDaemon`. */
    method PumpDownstream() returns (r: Outcome)
      requires Valid() && m.down.Reading?
      modifies this, buf.Values, mem
      modifies cliR, upR
      ensures old(trace) <= trace
      ensures Valid() && !r.Ok?
      ensures r.Failed? ==> m.down.Done? && closed
    {
      hide Wired, OnSchedule, Buffers, Next, Coupled, View, BufferView;
      r := Ok;
      while r.Ok?
        invariant Valid() && fresh(buf.Values - old(buf.Values)) && fresh(mem - old(mem)) && old(trace) <= trace
        invariant (r.Ok? ==> m.down.Reading?) && (r.Failed? ==> m.down.Failing?)
        decreases r.Ok?, |cliR.Rest()|
      {
        r := DownstreamTurn();
      }
      if r.Failed? {
        Interfere();
        EndDownstream();
      }
    }

    /** The deferred `markClosed` of `pumpDownstream`. */
    method EndDownstream()
      requires Valid() && m.down.Failing?
      modifies this`closed, this`sleeping, this`m, this`trace
      ensures old(trace) <= trace
      ensures Valid() && m.down.Done? && closed
    {
      hide Wire, Next, OnSchedule, Buffers, BufferView, ReadSoFar;
      MarkClosed();
      CloseStep(cfg, m);
      Do(Close);
    }
  }
}
