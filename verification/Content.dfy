/** What the downstream pump does to the bytes of each target stream, over every interleaving. */
module StreamContent {
  import opened Bytes
  import opened Fsutil
  import opened Grpc
  import opened Stream
  import opened Http2
  import opened Headers
  import opened Session

  /** Parsed messages of stream `sid` that are still to be emitted. */
  function Todo(d: Down, sid: nat): seq<bytes> {
    if d.Emitting? && d.sid == sid then d.todo
    else if HasJob(d) && d.job.Msg? && d.job.sid == sid then d.job.todo
    else []
  }

  /** The part of the current message of stream `sid` that is not on the wire yet. */
  function InHand(d: Down, sid: nat): bytes {
    if HasJob(d) && d.job.Msg? && d.job.sid == sid then
      if d.Written? then d.job.rest[d.job.Need()..] else d.job.rest
    else []
  }

  /** Payload read from the client that is not in the buffer yet. */
  function Unbuffered(d: Down, sid: nat): bytes {
    if d.Checked? && d.target && d.f.typ == DATA && d.f.sid == sid then d.f.payload else []
  }

  /** The client's frame in the pump's hands. */
  function HeldFrame(d: Down): Option<Frame> {
    if d.Checked? || d.Forwarding? then Some(d.f)
    else if HasJob(d) && d.job.Raw? then Some(d.job.f)
    else None
  }

  predicate IsTargetData(d: Down) {
    d.Checked? && d.target
  }

  /** The stream of the messages in the pump's hands. */
  function HeldStream(d: Down): Option<nat> {
    if d.Emitting? then Some(d.sid)
    else if HasJob(d) && d.job.Msg? then Some(d.job.sid)
    else None
  }

  /** A held frame is as read; DATA held outside the target path is accounted as raw. */
  predicate HandsOk(d: Down, rawData: set<nat>) {
    && (HeldFrame(d).Some? ==>
        var f := HeldFrame(d).value;
        Readable(f) && f.sid < TWO31 && (f.typ == DATA && !IsTargetData(d) ==> f.sid in rawData))
    && (HeldStream(d).Some? ==> HeldStream(d).value < TWO31)
    && (d.Written? ==> d.job.Msg?)
  }

  /** A failed message write means the session is closed or the connection broken, so that no
      further message bytes can follow. */
  predicate LostOk(s: State) {
    s.log.lost ==>
      && (s.sh.closed || s.broken)
      && !s.down.Written?
      && (s.down.Approved? && s.down.job.Msg? ==> s.broken)
  }

  predicate PumpOk(s: State) {
    && HandsOk(s.down, s.log.rawData)
    && LostOk(s)
    && (forall i | 0 <= i < |s.log.downOut| :: Readable(s.log.downOut[i]))
  }

  /** What came from the client is the messages taken so far, the buffer, and the payload in hand;
      the buffer never ends on a message boundary. */
  predicate InputIs(ms: seq<bytes>, buffered: bytes, unbuffered: bytes, got: bytes) {
    && AllMessages(ms, MAX_GRPC)
    && Flatten(ms) + buffered + unbuffered == got
    && (buffered == [] || Messages(buffered, MAX_GRPC).None?)
  }

  function Output(cfg: Config, ms: seq<bytes>): bytes {
    Flatten(Rewrite(ms, None, cfg.edit))
  }

  /** Of the messages `ms`, all but the last `todo` have been begun. */
  function Begun(ms: seq<bytes>, todo: seq<bytes>): seq<bytes> {
    if |todo| <= |ms| then ms[..|ms| - |todo|] else []
  }

  /** What was sent to the daemon, with the rest of the message in hand, is the rewrite of the
      messages begun; after a failure it is a prefix of the rewrite. */
  predicate OutputIs(cfg: Config, ms: seq<bytes>, todo: seq<bytes>, stat: Option<Stat>, sent: bytes, hand: bytes,
                     lost: bool)
  {
    if lost then sent <= Output(cfg, ms)
    else
      && ms == Begun(ms, todo) + todo
      && stat == StatAfter(Begun(ms, todo), None)
      && sent + hand == Output(cfg, Begun(ms, todo))
  }

  predicate InputOk(s: State, sid: nat) {
    InputIs(s.log.Taken(sid), s.sh.Buffered(sid), Unbuffered(s.down, sid), PayloadOn(s.log.downIn, sid))
  }

  predicate OutputOk(cfg: Config, s: State, sid: nat) {
    OutputIs(cfg, s.log.Taken(sid), Todo(s.down, sid), s.sh.StatFor(sid),
             PayloadOn(s.log.downOut, sid), InHand(s.down, sid), s.log.lost)
  }

  ghost predicate ContentInv(cfg: Config, s: State) {
    && PumpOk(s)
    && forall sid | sid !in s.log.rawData :: InputOk(s, sid) && OutputOk(cfg, s, sid)
  }

  lemma OutputGrows(cfg: Config, a: seq<bytes>, b: seq<bytes>)
    ensures Output(cfg, a + b) == Output(cfg, a) + Flatten(Rewrite(b, StatAfter(a, None), cfg.edit))
    ensures Output(cfg, a) <= Output(cfg, a + b)
  {
    RewriteAppend(a, b, None, cfg.edit);
    FlattenConcat(Rewrite(a, None, cfg.edit), Rewrite(b, StatAfter(a, None), cfg.edit));
  }

  lemma OutputSnoc(cfg: Config, a: seq<bytes>, m: bytes)
    ensures Output(cfg, a + [m]) == Output(cfg, a) + EmittedFor(m, StatAfter(a, None), cfg.edit)
    ensures StatAfter(a + [m], None) == NextStat(m, StatAfter(a, None))
  {
    hide EmittedFor, NextStat;
    var e := EmittedFor(m, StatAfter(a, None), cfg.edit);
    OutputGrows(cfg, a, [m]);
    RewriteAppend(a, [m], None, cfg.edit);
    assert [m][1..] == [];
    assert Rewrite([m], StatAfter(a, None), cfg.edit) == [e];
    assert Flatten([e]) == e + Flatten<byte>([]);
    assert StatAfter([m], StatAfter(a, None)) == NextStat(m, StatAfter(a, None));
  }

  lemma PayloadSnoc(fs: seq<Frame>, f: Frame, sid: nat)
    ensures PayloadOn(fs + [f], sid) == PayloadOn(fs, sid) + if f.typ == DATA && f.sid == sid then f.payload else []
  {
    PayloadOnAppend(fs, [f], sid);
    assert [f][1..] == [];
  }

  /** The upstream pump changes nothing the content depends on. */
  predicate SameContent(s: State, t: State) {
    && t.sh.stat == s.sh.stat && t.sh.buf == s.sh.buf
    && (s.sh.closed ==> t.sh.closed)
    && t.broken == s.broken
    && (t.down == s.down || t.down == Woken(s.down))
    && t.log == s.log.(upIn := t.log.upIn, upOut := t.log.upOut,
                       strmCredit := t.log.strmCredit, strmSpent := t.log.strmSpent,
                       marks := t.log.marks, lowered := t.log.lowered, late := t.log.late)
  }

  lemma SettleSameContent(s: State, payload: bytes)
    ensures SameContent(s, Settle(s, payload))
  {
    hide Configured, SettingsWake;
    ConfiguredEffect(s.sh, payload);
  }

  lemma IdentifySameContent(cfg: Config, s: State, asm: Assembly, b: Block)
    ensures SameContent(s, Identify(cfg, s.(asm := asm), b))
  {
    hide Verdict;
  }

  lemma CreditSameContent(s: State, sid: nat, inc: nat)
    ensures SameContent(s, Credit(s, sid, inc))
  {
  }

  lemma TraceSameContent(cfg: Config, s: State, f: Frame)
    ensures SameContent(s, Trace(cfg, s, f))
  {
    hide BE32, Assemble, Identify, Settle, Credit, Bit;
    if f.typ == HEADERS || f.typ == CONTINUATION {
      if Assemble(s.asm, f).1.Some? {
        IdentifySameContent(cfg, s, Assemble(s.asm, f).0, Assemble(s.asm, f).1.value);
      }
    } else if f.typ == SETTINGS && !Bit(f.flags, 1) {
      SettleSameContent(s, f.payload);
    } else if f.typ == WINDOW_UPDATE && |f.payload| >= 4 {
      CreditSameContent(s, f.sid, BE32(f.payload[..4]) % TWO31);
    }
  }

  lemma UpSameContent(cfg: Config, s: State, step: Step)
    requires IsUpStep(step) && NextUp(cfg, s, step).Some?
    ensures SameContent(s, NextUp(cfg, s, step).value)
  {
    hide Trace, Readable;
    if step.UpRead? { TraceSameContent(cfg, s, step.f); }
  }

  lemma SameContentStream(cfg: Config, s: State, t: State, sid: nat)
    requires SameContent(s, t)
    ensures InputOk(s, sid) ==> InputOk(t, sid)
    ensures OutputOk(cfg, s, sid) ==> OutputOk(cfg, t, sid)
  {
    hide InputIs, OutputIs, PayloadOn;
    assert Todo(t.down, sid) == Todo(s.down, sid) && InHand(t.down, sid) == InHand(s.down, sid);
    assert Unbuffered(t.down, sid) == Unbuffered(s.down, sid);
  }

  lemma SameContentPump(s: State, t: State)
    requires SameContent(s, t) && PumpOk(s)
    ensures PumpOk(t)
  {
    hide Readable;
  }

  lemma UpKeepsContent(cfg: Config, s: State, step: Step)
    requires ContentInv(cfg, s) && IsUpStep(step) && NextUp(cfg, s, step).Some?
    ensures ContentInv(cfg, NextUp(cfg, s, step).value)
  {
    hide NextUp, InputOk, OutputOk, PumpOk;
    UpSameContent(cfg, s, step);
    var t := NextUp(cfg, s, step).value;
    SameContentPump(s, t);
    forall sid | sid !in t.log.rawData
      ensures InputOk(t, sid) && OutputOk(cfg, t, sid)
    {
      SameContentStream(cfg, s, t, sid);
    }
  }

  lemma ReadableSid(f: Frame)
    requires Readable(f)
    ensures f.sid < TWO31
  {
    hide BE32;
  }

  lemma RoutePump(s: State, f: Frame, target: bool)
    requires PumpOk(s) && s.down == Checked(f, target)
    ensures PumpOk(Route(s, f, target))
  {
    hide Readable, Messages;
  }

  lemma TakePump(cfg: Config, s: State, sid: nat, todo: seq<bytes>)
    requires PumpOk(s) && s.down == Emitting(sid, todo)
    ensures PumpOk(Take(cfg, s, sid, todo))
  {
    hide Readable, EmittedFor, Noted;
  }

  lemma CheckPump(s: State, job: Job)
    requires PumpOk(s) && s.down == Waiting(job, false)
    ensures PumpOk(Check(s, job))
  {
    hide Readable;
  }

  lemma SpendPump(s: State, job: Job)
    requires PumpOk(s) && (s.down == Written(job) || (s.down == Approved(job) && job.Raw?))
    ensures PumpOk(Spend(s, job))
  {
    hide Readable;
  }

  lemma SendPump(s: State, job: Job)
    requires PumpOk(s) && s.down == Approved(job) && job.Msg? && !s.broken
    ensures PumpOk(Send(s, Chunk(job), Written(job)))
  {
    DataFrameReadable(job.sid, job.rest[..job.Need()]);
    hide Readable, DataFrame;
  }

  lemma DownKeepsPump(cfg: Config, s: State, step: Step)
    requires PumpOk(s) && !IsUpStep(step) && NextDown(cfg, s, step).Some?
    ensures PumpOk(NextDown(cfg, s, step).value)
  {
    hide Readable, Opened, Chunk, Route, Take, Check, Spend;
    if step.Read? { ReadableSid(step.f); }
    if step.RouteFrame? { RoutePump(s, s.down.f, s.down.target); }
    if step.TakeMessage? { TakePump(cfg, s, s.down.sid, s.down.todo); }
    if step.CheckWindow? { CheckPump(s, s.down.job); }
    if step.SpendBytes? { SpendPump(s, s.down.job); }
    if step.Write? && step.ok && s.down.Approved? { SendPump(s, s.down.job); }
  }

  lemma ReadStream(cfg: Config, s: State, f: Frame, sid: nat)
    requires s.down.Reading? && sid !in ReadClient(s, f).log.rawData
    requires InputOk(s, sid) && OutputOk(cfg, s, sid)
    ensures InputOk(ReadClient(s, f), sid) && OutputOk(cfg, ReadClient(s, f), sid)
  {
    hide InputIs, OutputIs, PayloadOn, Opened;
    PayloadSnoc(s.log.downIn, f, sid);
    MoreInput(s.log.Taken(sid), s.sh.Buffered(sid), PayloadOn(s.log.downIn, sid),
      Unbuffered(Checked(f, f.sid in s.sh.targets), sid));
  }

  lemma MoreInput(ms: seq<bytes>, buffered: bytes, got: bytes, more: bytes)
    requires InputIs(ms, buffered, [], got)
    ensures InputIs(ms, buffered, more, got + more)
  {
    hide AllMessages, Messages, Flatten;
    assert Flatten(ms) + buffered + [] == Flatten(ms) + buffered;
  }

  lemma AllMessagesConcat(a: seq<bytes>, b: seq<bytes>)
    requires AllMessages(a, MAX_GRPC) && AllMessages(b, MAX_GRPC)
    ensures AllMessages(a + b, MAX_GRPC)
  {
    hide IsMessage;
  }

  lemma Regroup(a: bytes, b: bytes, c: bytes)
    ensures a + b + c == a + (b + c)
    ensures a + b + [] == a + b && a + [] == a
  {
  }

  /** The buffer is parsed only as a whole, so what leaves it ends on a message boundary. */
  lemma TakeInput(ms: seq<bytes>, buffered: bytes, payload: bytes, got: bytes)
    requires InputIs(ms, buffered, payload, got)
    ensures match Messages(buffered + payload, MAX_GRPC)
            case None => InputIs(ms, buffered + payload, [], got)
            case Some(more) => InputIs(ms + more, [], [], got)
  {
    hide AllMessages, Messages, Flatten;
    var b := buffered + payload;
    Regroup(Flatten(ms), buffered, payload);
    if Messages(b, MAX_GRPC).Some? {
      var more := Messages(b, MAX_GRPC).value;
      MessagesJoin(b, MAX_GRPC);
      FlattenConcat(ms, more);
      AllMessagesConcat(ms, more);
      Regroup(Flatten(ms + more), [], []);
    } else {
      Regroup(Flatten(ms), b, []);
    }
  }

  lemma MoreTodo(cfg: Config, ms: seq<bytes>, more: seq<bytes>, stat: Option<Stat>, sent: bytes, lost: bool)
    requires OutputIs(cfg, ms, [], stat, sent, [], lost)
    ensures OutputIs(cfg, ms + more, more, stat, sent, [], lost)
  {
    hide Rewrite, StatAfter, Flatten;
    OutputGrows(cfg, ms, more);
    assert Begun(ms, []) == ms && Begun(ms + more, more) == ms;
  }

  lemma BufferStream(cfg: Config, s: State, f: Frame, sid: nat)
    requires s.down == Checked(f, true) && f.typ == DATA
    requires InputOk(s, sid) && OutputOk(cfg, s, sid)
    ensures InputOk(Buffer(s, f), sid) && OutputOk(cfg, Buffer(s, f), sid)
  {
    hide InputIs, OutputIs, PayloadOn, Messages;
    var b := s.sh.Buffered(f.sid) + f.payload;
    if f.sid == sid {
      TakeInput(s.log.Taken(sid), s.sh.Buffered(sid), f.payload, PayloadOn(s.log.downIn, sid));
      if Messages(b, MAX_GRPC).Some? {
        MoreTodo(cfg, s.log.Taken(sid), Messages(b, MAX_GRPC).value, s.sh.StatFor(sid), PayloadOn(s.log.downOut, sid),
          s.log.lost);
      }
    }
  }

  lemma RouteStream(cfg: Config, s: State, f: Frame, target: bool, sid: nat)
    requires s.down == Checked(f, target)
    requires InputOk(s, sid) && OutputOk(cfg, s, sid)
    ensures InputOk(Route(s, f, target), sid) && OutputOk(cfg, Route(s, f, target), sid)
  {
    hide InputIs, OutputIs, PayloadOn, Buffer;
    if target && f.typ == DATA {
      BufferStream(cfg, s, f, sid);
    }
  }

  lemma BeginOne(cfg: Config, ms: seq<bytes>, todo: seq<bytes>, stat: Option<Stat>, sent: bytes, lost: bool)
    requires OutputIs(cfg, ms, todo, stat, sent, [], lost) && todo != []
    ensures OutputIs(cfg, ms, todo[1..], NextStat(todo[0], stat), sent, EmittedFor(todo[0], stat, cfg.edit), lost)
  {
    hide Rewrite, StatAfter, EmittedFor, NextStat, Output;
    OutputSnoc(cfg, Begun(ms, todo), todo[0]);
    if !lost {
      assert Begun(ms, todo[1..]) == Begun(ms, todo) + [todo[0]];
    }
  }

  lemma NotedStat(sh: Shared, held: nat, m: bytes, sid: nat)
    ensures Noted(sh, held, m).StatFor(sid) == if held == sid then NextStat(m, sh.StatFor(sid)) else sh.StatFor(sid)
  {
    hide Seen;
  }

  lemma TakeStream(cfg: Config, s: State, held: nat, todo: seq<bytes>, sid: nat)
    requires s.down == Emitting(held, todo)
    requires InputOk(s, sid) && OutputOk(cfg, s, sid)
    ensures InputOk(Take(cfg, s, held, todo), sid) && OutputOk(cfg, Take(cfg, s, held, todo), sid)
  {
    hide InputIs, OutputIs, PayloadOn, EmittedFor, Noted, NextStat;
    if todo != [] {
      NotedStat(s.sh, held, todo[0], sid);
      if held == sid {
        BeginOne(cfg, s.log.Taken(sid), todo, s.sh.StatFor(sid), PayloadOn(s.log.downOut, sid), s.log.lost);
      }
    }
  }

  lemma Lose(cfg: Config, ms: seq<bytes>, todo: seq<bytes>, stat: Option<Stat>, sent: bytes, hand: bytes, lost: bool,
             todo': seq<bytes>, stat': Option<Stat>, hand': bytes)
    requires OutputIs(cfg, ms, todo, stat, sent, hand, lost)
    ensures OutputIs(cfg, ms, todo', stat', sent, hand', true)
  {
    hide Rewrite, StatAfter, Flatten;
    if !lost {
      OutputGrows(cfg, Begun(ms, todo), todo);
    }
  }

  lemma GiveUpStream(cfg: Config, s: State, job: Job, sid: nat)
    requires s.down == Waiting(job, false) || s.down == Approved(job)
    requires InputOk(s, sid) && OutputOk(cfg, s, sid)
    ensures InputOk(GiveUp(s, job), sid) && OutputOk(cfg, GiveUp(s, job), sid)
  {
    hide InputIs, OutputIs, PayloadOn;
    var t := GiveUp(s, job);
    if job.Msg? {
      Lose(cfg, s.log.Taken(sid), Todo(s.down, sid), s.sh.StatFor(sid), PayloadOn(s.log.downOut, sid),
        InHand(s.down, sid),
           s.log.lost, Todo(t.down, sid), s.sh.StatFor(sid), InHand(t.down, sid));
    }
  }

  lemma CheckStream(cfg: Config, s: State, job: Job, sid: nat)
    requires s.down == Waiting(job, false)
    requires InputOk(s, sid) && OutputOk(cfg, s, sid)
    ensures InputOk(Check(s, job), sid) && OutputOk(cfg, Check(s, job), sid)
  {
    hide InputIs, OutputIs, PayloadOn, GiveUp;
    GiveUpStream(cfg, s, job, sid);
  }

  lemma SpendStream(cfg: Config, s: State, job: Job, sid: nat)
    requires s.down == Written(job) || (s.down == Approved(job) && job.Raw?)
    requires s.down.Written? ==> job.Msg?
    requires InputOk(s, sid) && OutputOk(cfg, s, sid)
    ensures InputOk(Spend(s, job), sid) && OutputOk(cfg, Spend(s, job), sid)
  {
    hide InputIs, OutputIs, PayloadOn;
  }

  lemma SendSome(cfg: Config, ms: seq<bytes>, todo: seq<bytes>, stat: Option<Stat>, sent: bytes, hand: bytes, n: nat)
    requires OutputIs(cfg, ms, todo, stat, sent, hand, false) && n <= |hand|
    ensures OutputIs(cfg, ms, todo, stat, sent + hand[..n], hand[n..], false)
  {
    hide Output, StatAfter;
    assert sent + hand[..n] + hand[n..] == sent + hand;
  }

  lemma SendStream(cfg: Config, s: State, job: Job, sid: nat)
    requires s.down == Approved(job) && job.Msg? && !s.log.lost
    requires InputOk(s, sid) && OutputOk(cfg, s, sid)
    ensures var t := Send(s, Chunk(job), Written(job)); InputOk(t, sid) && OutputOk(cfg, t, sid)
  {
    hide InputIs, OutputIs, PayloadOn, PutBE32, Len24;
    PayloadSnoc(s.log.downOut, Chunk(job), sid);
    if job.sid == sid {
      SendSome(cfg, s.log.Taken(sid), job.todo, s.sh.StatFor(sid), PayloadOn(s.log.downOut, sid), job.rest, job.Need());
    } else {
      assert PayloadOn(s.log.downOut, sid) + [] == PayloadOn(s.log.downOut, sid);
    }
  }

  lemma ForwardStream(cfg: Config, s: State, f: Frame, sid: nat)
    requires PumpOk(s) && s.down == Forwarding(f) && sid !in s.log.rawData
    requires InputOk(s, sid) && OutputOk(cfg, s, sid)
    ensures var t := Send(s, f, Reading); InputOk(t, sid) && OutputOk(cfg, t, sid)
  {
    hide InputIs, OutputIs, PayloadOn, Readable;
    PayloadSnoc(s.log.downOut, f, sid);
    assert PayloadOn(s.log.downOut, sid) + [] == PayloadOn(s.log.downOut, sid);
  }

  lemma DownKeepsStream(cfg: Config, s: State, step: Step, sid: nat)
    requires PumpOk(s) && !IsUpStep(step) && NextDown(cfg, s, step).Some?
    requires sid !in NextDown(cfg, s, step).value.log.rawData
    requires InputOk(s, sid) && OutputOk(cfg, s, sid)
    ensures InputOk(NextDown(cfg, s, step).value, sid) && OutputOk(cfg, NextDown(cfg, s, step).value, sid)
  {
    hide InputIs, OutputIs, PayloadOn, Readable, Chunk;
    hide ReadClient, Route, Take, Check, Spend, GiveUp;
    match step
    case Read(f) => ReadStream(cfg, s, f, sid);
    case RouteFrame => RouteStream(cfg, s, s.down.f, s.down.target, sid);
    case TakeMessage => TakeStream(cfg, s, s.down.sid, s.down.todo, sid);
    case CheckWindow => CheckStream(cfg, s, s.down.job, sid);
    case SpendBytes => SpendStream(cfg, s, s.down.job, sid);
    case Write(ok) =>
      if s.down.Forwarding? {
        if ok { ForwardStream(cfg, s, s.down.f, sid); }
      } else if ok {
        SendStream(cfg, s, s.down.job, sid);
      } else {
        GiveUpStream(cfg, s.(broken := true), s.down.job, sid);
      }
    case End =>
    case Close =>
  }

  lemma RawDataGrows(cfg: Config, s: State, step: Step)
    requires !IsUpStep(step) && NextDown(cfg, s, step).Some?
    ensures s.log.rawData <= NextDown(cfg, s, step).value.log.rawData
  {
    hide Readable, Opened, Chunk, Noted, EmittedFor, Messages;
  }

  lemma DownKeepsContent(cfg: Config, s: State, step: Step)
    requires ContentInv(cfg, s) && !IsUpStep(step) && NextDown(cfg, s, step).Some?
    ensures ContentInv(cfg, NextDown(cfg, s, step).value)
  {
    hide NextDown, InputOk, OutputOk, PumpOk;
    DownKeepsPump(cfg, s, step);
    RawDataGrows(cfg, s, step);
    var t := NextDown(cfg, s, step).value;
    forall sid | sid !in t.log.rawData
      ensures InputOk(t, sid) && OutputOk(cfg, t, sid)
    {
      DownKeepsStream(cfg, s, step, sid);
    }
  }

  lemma StartContent(cfg: Config)
    ensures ContentInv(cfg, START)
  {
  }

  lemma {:induction false} RunKeepsContent(cfg: Config, steps: seq<Step>)
    requires Run(cfg, START, steps).Some?
    ensures ContentInv(cfg, Run(cfg, START, steps).value)
  {
    hide NextUp, NextDown, ContentInv;
    if steps == [] {
      StartContent(cfg);
    } else {
      var before := steps[..|steps| - 1];
      RunKeepsContent(cfg, before);
      var s := Run(cfg, START, before).value;
      if IsUpStep(steps[|steps| - 1]) {
        UpKeepsContent(cfg, s, steps[|steps| - 1]);
      } else {
        DownKeepsContent(cfg, s, steps[|steps| - 1]);
      }
    }
  }
}
