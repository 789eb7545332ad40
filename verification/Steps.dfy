/** What each step of the machine does to the parts an object holds, step by step. */
module Steps {
  import opened Bytes
  import opened Grpc
  import opened Stream
  import opened Http2
  import opened Headers
  import opened Session
  import opened StreamContent

  /** The traffic recorded with the daemon and toward it is the same. */
  predicate SameTraffic(s: State, t: State) {
    && t.log.upIn == s.log.upIn && t.log.upOut == s.log.upOut
    && t.log.downIn == s.log.downIn && t.log.downOut == s.log.downOut
  }

  lemma IdentifyTraffic(cfg: Config, s: State, b: Block)
    ensures SameTraffic(s, Identify(cfg, s, b))
  {
    hide Verdict, Marked;
  }

  lemma SettleTraffic(s: State, payload: bytes)
    ensures SameTraffic(s, Settle(s, payload))
  {
    hide Configured, SettingsWake;
  }

  lemma CreditTraffic(s: State, sid: nat, inc: nat)
    ensures SameTraffic(s, Credit(s, sid, inc))
  {
    hide Credited;
  }

  lemma TraceTraffic(cfg: Config, s: State, f: Frame)
    ensures SameTraffic(s, Trace(cfg, s, f))
  {
    hide BE32, Assemble, Identify, Settle, Credit, Bit;
    if f.typ == HEADERS || f.typ == CONTINUATION {
      var s' := s.(asm := Assemble(s.asm, f).0);
      if Assemble(s.asm, f).1.Some? { IdentifyTraffic(cfg, s', Assemble(s.asm, f).1.value); }
    } else if f.typ == SETTINGS && !Bit(f.flags, 1) {
      SettleTraffic(s, f.payload);
    } else if f.typ == WINDOW_UPDATE && |f.payload| >= 4 {
      CreditTraffic(s, f.sid, BE32(f.payload[..4]) % TWO31);
    }
  }

  /** The step that reads a daemon frame: the trace, and the frame in hand. */
  lemma UpReadStep(cfg: Config, s: State, f: Frame)
    requires s.up.UpReading? && Readable(f)
    ensures Next(cfg, s, UpRead(f)).Some?
    ensures var t, r := Next(cfg, s, UpRead(f)).value, Trace(cfg, s, f);
            && SameContent(s, t)
            && t.sh == r.sh && t.asm == r.asm && t.seen == r.seen && t.down == r.down && t.up == UpWriting(f)
            && t.broken == s.broken && t.log.upIn == s.log.upIn + [f] && t.log.upOut == s.log.upOut
            && t.log.downIn == s.log.downIn && t.log.downOut == s.log.downOut
  {
    hide Trace, Readable, SameContent;
    UpSameContent(cfg, s, UpRead(f));
    TraceTraffic(cfg, s, f);
    assert SameContent(s, Next(cfg, s, UpRead(f)).value) ==> Next(cfg, s, UpRead(f)).value.broken == s.broken by {
      SameBroken(s, Next(cfg, s, UpRead(f)).value);
    }
  }

  lemma SameBroken(s: State, t: State)
    ensures SameContent(s, t) ==> t.broken == s.broken
  {
  }

  lemma UpEndStep(cfg: Config, s: State)
    requires s.up.UpReading?
    ensures Next(cfg, s, UpEnd) == Some(s.(up := UpFailed)) && SameContent(s, s.(up := UpFailed))
  {
  }

  lemma UpWriteStep(cfg: Config, s: State, ok: bool)
    requires s.up.UpWriting?
    ensures var t := if ok then s.(up := UpReading, log := s.log.(upOut := s.log.upOut + [s.up.f]))
            else s.(up := UpFailed);
            Next(cfg, s, UpWrite(ok)) == Some(t) && SameContent(s, t)
  {
  }

  lemma UpCloseStep(cfg: Config, s: State)
    requires s.up.UpFailed?
    ensures var t := CloseSession(s).(up := UpDone); Next(cfg, s, UpClose) == Some(t) && SameContent(s, t)
  {
  }

  lemma SameContentRefl(s: State)
    ensures SameContent(s, s)
  {
  }

  lemma SameContentTrans(s: State, t: State, u: State)
    requires SameContent(s, t) && SameContent(t, u)
    ensures SameContent(s, u)
  {
  }

  /** What the upstream pump leaves to the downstream pump: a writer that is awake stays where it is. */
  lemma SameContentDown(s: State, t: State)
    requires SameContent(s, t)
    ensures !Asleep(s.down) ==> t.down == s.down
    ensures Asleep(s.down) ==> t.down == s.down || t.down == Waiting(s.down.job, false)
    ensures t.log.downIn == s.log.downIn && t.log.downOut == s.log.downOut
    ensures t.sh.stat == s.sh.stat && t.sh.buf == s.sh.buf && t.broken == s.broken
    ensures s.sh.closed ==> t.sh.closed
  {
  }

  /** A downstream step leaves alone what belongs to the upstream pump. */
  predicate DownOnly(s: State, t: State) {
    t.asm == s.asm && t.seen == s.seen && t.up == s.up && t.log.upIn == s.log.upIn && t.log.upOut == s.log.upOut
  }

  lemma ReadStep(cfg: Config, s: State, f: Frame)
    requires s.down.Reading? && Readable(f)
    ensures Next(cfg, s, Read(f)).Some?
    ensures var t := Next(cfg, s, Read(f)).value;
            && DownOnly(s, t) && t.sh == s.sh && t.broken == s.broken && t.down == Checked(f, f.sid in s.sh.targets)
            && t.log.downIn == s.log.downIn + [f] && t.log.downOut == s.log.downOut
  {
    hide Readable, Opened;
  }

  lemma EndStep(cfg: Config, s: State)
    requires s.down.Reading?
    ensures Next(cfg, s, End) == Some(s.(down := Failing))
  {
  }

  /** A frame that is not target data. */
  lemma ForeignStep(cfg: Config, s: State, f: Frame, target: bool)
    requires s.down == Checked(f, target) && !(target && f.typ == DATA)
    ensures Next(cfg, s, RouteFrame) ==
            Some(s.(down := if f.typ == DATA && f.sid != 0 && f.payload != [] then Waiting(Raw(f), false)
                            else Forwarding(f)))
  {
  }

  /** The buffers after a payload has joined its stream's: emptied at a message boundary. */
  function Stored(sh: Shared, sid: nat, payload: bytes): Shared {
    var whole := sh.Buffered(sid) + payload;
    sh.(buf := sh.buf[sid := if Messages(whole, MAX_GRPC).Some? then [] else whole])
  }

  /** What the pump does then: it emits the messages, or reads on. */
  function AfterStore(sh: Shared, sid: nat, payload: bytes): Down {
    match Messages(sh.Buffered(sid) + payload, MAX_GRPC)
    case None => Reading
    case Some(ms) => Emitting(sid, ms)
  }

  lemma AfterStoreAwake(sh: Shared, sid: nat, payload: bytes)
    ensures var d := AfterStore(sh, sid, payload); !Asleep(d) && !d.Failing? && !d.Done?
  {
  }

  /** Target data joins its buffer; whole messages are taken out. */
  lemma BufferStep(cfg: Config, s: State, f: Frame)
    requires s.down == Checked(f, true) && f.typ == DATA
    ensures Next(cfg, s, RouteFrame).Some?
    ensures var t := Next(cfg, s, RouteFrame).value;
            && DownOnly(s, t) && t.broken == s.broken
            && t.log.downIn == s.log.downIn && t.log.downOut == s.log.downOut
            && t.sh == Stored(s.sh, f.sid, f.payload) && t.down == AfterStore(s.sh, f.sid, f.payload)
  {
    hide Messages;
  }

  lemma TakeStep(cfg: Config, s: State, sid: nat, todo: seq<bytes>)
    requires s.down == Emitting(sid, todo) && todo != []
    ensures Next(cfg, s, TakeMessage).Some?
    ensures var t, e := Next(cfg, s, TakeMessage).value, EmittedFor(todo[0], s.sh.StatFor(sid), cfg.edit);
            && DownOnly(s, t) && t.broken == s.broken && t.sh == Noted(s.sh, sid, todo[0])
            && t.log.downIn == s.log.downIn && t.log.downOut == s.log.downOut
            && t.down == Loop(Msg(sid, e, IsStat(todo[0]), todo[1..]))
  {
    hide EmittedFor, IsStat, Noted;
  }

  lemma TakenAllStep(cfg: Config, s: State, sid: nat)
    requires s.down == Emitting(sid, [])
    ensures Next(cfg, s, TakeMessage) == Some(s.(down := Reading))
  {
  }

  /** Where a failed wait or write leaves the pump. */
  function AfterFailure(job: Job): Down {
    if job.Msg? && job.isStat then Emitting(job.sid, job.todo) else Failing
  }

  /** Only the pump's place changes. */
  predicate Moved(s: State, t: State, down: Down) {
    && DownOnly(s, t) && t.sh == s.sh && t.broken == s.broken && t.down == down
    && t.log.downIn == s.log.downIn && t.log.downOut == s.log.downOut
  }

  lemma CheckStep(cfg: Config, s: State, job: Job)
    requires s.down == Waiting(job, false)
    ensures Next(cfg, s, CheckWindow).Some?
    ensures Moved(s, Next(cfg, s, CheckWindow).value,
                  if s.sh.closed then AfterFailure(job)
                  else if s.sh.Short(job.Need()) then Waiting(job, true) else Approved(job))
  {
  }

  lemma SpendStep(cfg: Config, s: State, job: Job)
    requires s.down == (if job.Raw? then Approved(job) else Written(job))
    ensures Next(cfg, s, SpendBytes).Some?
    ensures var t := Next(cfg, s, SpendBytes).value;
            && DownOnly(s, t) && t.broken == s.broken && t.sh == Spent(s.sh, job.Stream(), job.Need())
            && t.log.downIn == s.log.downIn && t.log.downOut == s.log.downOut
            && t.down == if job.Raw? then Forwarding(job.f) else Loop(job.(rest := job.rest[job.Need()..]))
  {
  }

  /** A foreign frame goes out as it came. */
  lemma ForwardStep(cfg: Config, s: State, f: Frame, ok: bool)
    requires s.down == Forwarding(f) && (ok ==> !s.broken)
    ensures Next(cfg, s, Write(ok)).Some?
    ensures var t := Next(cfg, s, Write(ok)).value;
            && DownOnly(s, t) && t.sh == s.sh && t.log.downIn == s.log.downIn
            && t.broken == !ok && t.down == (if ok then Reading else Failing)
            && t.log.downOut == s.log.downOut + if ok then [f] else []
  {
  }

  /** A piece of a message goes out. */
  lemma ChunkStep(cfg: Config, s: State, job: Job, ok: bool)
    requires s.down == Approved(job) && job.Msg? && (ok ==> !s.broken)
    ensures Next(cfg, s, Write(ok)).Some?
    ensures var t := Next(cfg, s, Write(ok)).value;
            && DownOnly(s, t) && t.sh == s.sh && t.log.downIn == s.log.downIn
            && t.broken == !ok && t.down == (if ok then Written(job) else AfterFailure(job))
            && t.log.downOut == s.log.downOut + if ok then [Chunk(job)] else []
  {
    hide Chunk;
  }

  /** A write toward the daemon adds the frame or breaks the connection. */
  predicate Delivered(s: State, t: State, f: Frame, ok: bool) {
    && DownOnly(s, t) && t.sh == s.sh && t.log.downIn == s.log.downIn && t.broken == !ok
    && t.log.downOut == s.log.downOut + (if ok then [f] else [])
    && !Asleep(s.down) && !Asleep(t.down) && !s.down.Failing? && !s.down.Done?
  }

  /** The write step is possible with this outcome, and delivers `f` accordingly. */
  predicate Lands(cfg: Config, s: State, f: Frame, ok: bool) {
    Next(cfg, s, Write(ok)).Some? && Delivered(s, Next(cfg, s, Write(ok)).value, f, ok)
  }

  lemma CloseStep(cfg: Config, s: State)
    requires s.down.Failing?
    ensures Next(cfg, s, Close) == Some(s.(sh := s.sh.(closed := true), down := Done))
  {
  }
}
