/** Stream flow control with any number of marked streams: the one stream window is shared, so a stream
    keeps to its own grant exactly when what the others brought in and took out allows it
    (internal/proxy/sessionsplice.go, lines 171-234). */
module Overdraft {
  import opened Bytes
  import opened Http2
  import opened Headers
  import opened Session
  import opened StreamContent
  import opened Settings
  import opened Wakeups
  import StreamLedger

  /** The credit one daemon frame grants stream `x`. */
  function StreamGrant(f: Frame, x: nat): nat {
    if f.typ == WINDOW_UPDATE && |f.payload| >= 4 && f.sid == x then BE32(f.payload[..4]) % TWO31 else 0
  }

  /** All credit the daemon has granted stream `x`. */
  function StreamCredit(fs: seq<Frame>, x: nat): nat {
    if fs == [] then 0 else StreamCredit(fs[..|fs| - 1], x) + StreamGrant(fs[|fs| - 1], x)
  }

  /** Bytes of stream `x` written but not yet taken from the window. */
  function UnspentOn(d: Down, x: nat): nat {
    if d.Written? && d.job.Stream() == x then d.job.Need() else 0
  }

  /** Bytes of stream `x` that have been sent and taken from the window. */
  function TakenFor(s: State, x: nat): int {
    |PayloadOn(s.log.downOut, x)| - UnspentOn(s.down, x)
  }

  /** What stream `x` had been sent at the last mark of the run, less the credit it had been granted. */
  function AtMark(cfg: Config, steps: seq<Step>, x: nat): int
    requires Run(cfg, START, steps).Some?
  {
    if steps == [] then 0
    else
      var before, step := steps[..|steps| - 1], steps[|steps| - 1];
      var s := Run(cfg, START, before).value;
      if Marks(cfg, s, step) then TakenFor(s, x) - StreamCredit(s.log.upIn, x) else AtMark(cfg, before, x)
  }

  /** What one step adds to the window on account of marked streams other than `x`. */
  function ForeignMove(s: State, step: Step, x: nat): int {
    match step
    case UpRead(f) => if f.sid != 0 && f.sid != x && f.sid in s.sh.targets then StreamGrant(f, f.sid) else 0
    case SpendBytes =>
      if HasJob(s.down) && s.down.job.Stream() in s.sh.targets && s.down.job.Stream() != x
      then 0 - s.down.job.Need() else 0
    case _ => 0
  }

  /** Since the last mark: the credit of the other marked streams, less what was taken for them. */
  function Foreign(cfg: Config, steps: seq<Step>, x: nat): int
    requires Run(cfg, START, steps).Some?
  {
    if steps == [] then 0
    else
      var before, step := steps[..|steps| - 1], steps[|steps| - 1];
      var s := Run(cfg, START, before).value;
      if Marks(cfg, s, step) then 0 else Foreign(cfg, before, x) + ForeignMove(s, step, x)
  }

  /** The ledger of stream `x` at a mark, the balance of the others since, and the window's own ledger. */
  predicate Balance(s: State, x: nat, atMark: int, foreign: int) {
    s.log.strmCredit - s.log.strmSpent == atMark + foreign + StreamCredit(s.log.upIn, x) - TakenFor(s, x)
  }

  /** What an upstream step does to the window's ledger. */
  predicate Traced(s: State, t: State, gain: int) {
    && t.sh.targets == s.sh.targets && t.log.strmCredit == s.log.strmCredit + gain
    && t.log.strmSpent == s.log.strmSpent
  }

  lemma SettleTraced(s: State, payload: bytes)
    ensures Traced(s, Settle(s, payload), 0)
  {
    hide Configured;
    ConfiguredEffect(s.sh, payload);
  }

  lemma IdentifyTraced(cfg: Config, s: State, asm: Assembly, b: Block)
    ensures !Verdict(cfg, s.seen, b) ==> Traced(s, Identify(cfg, s.(asm := asm), b), 0)
    ensures Verdict(cfg, s.seen, b) ==> MarkedAfresh(Identify(cfg, s.(asm := asm), b))
  {
    hide Verdict;
  }

  predicate MarkedAfresh(t: State) {
    t.log.strmCredit == 0 == t.log.strmSpent
  }

  function Gain(s: State, f: Frame): int {
    if f.sid != 0 && f.sid in s.sh.targets then StreamGrant(f, f.sid) else 0
  }

  lemma TraceTraced(cfg: Config, s: State, f: Frame)
    ensures if Marks(cfg, s, UpRead(f)) then MarkedAfresh(Trace(cfg, s, f)) && StreamGrantNone(f)
            else Traced(s, Trace(cfg, s, f), Gain(s, f))
  {
    hide BE32, Assemble, Settle, Identify, Verdict, Bit;
    if f.typ == HEADERS || f.typ == CONTINUATION {
      if Assemble(s.asm, f).1.Some? {
        IdentifyTraced(cfg, s, Assemble(s.asm, f).0, Assemble(s.asm, f).1.value);
      }
    } else if f.typ == SETTINGS && !Bit(f.flags, 1) {
      SettleTraced(s, f.payload);
    }
  }

  predicate StreamGrantNone(f: Frame) {
    f.typ != WINDOW_UPDATE
  }

  lemma CreditSnoc(fs: seq<Frame>, f: Frame, x: nat)
    ensures StreamCredit(fs + [f], x) == StreamCredit(fs, x) + StreamGrant(f, x)
  {
    assert (fs + [f])[..|fs|] == fs;
  }

  /** An upstream step leaves what was sent and charged alone. */
  lemma UpTaken(cfg: Config, s: State, step: Step, x: nat)
    requires IsUpStep(step) && NextUp(cfg, s, step).Some?
    ensures TakenFor(NextUp(cfg, s, step).value, x) == TakenFor(s, x)
  {
    hide NextUp, PayloadOn;
    UpSameContent(cfg, s, step);
  }

  lemma ReadEffect(cfg: Config, s: State, f: Frame)
    requires s.up.UpReading? && Readable(f)
    ensures var t := NextUp(cfg, s, UpRead(f)).value;
            && t.log.upIn == s.log.upIn + [f]
            && if Marks(cfg, s, UpRead(f)) then MarkedAfresh(t) && StreamGrantNone(f) else Traced(s, t, Gain(s, f))
  {
    TraceTraced(cfg, s, f);
    TraceLog(cfg, s, f);
    hide Trace, Readable, Marks, Gain;
  }

  lemma BalanceMoves(s: State, t: State, f: Frame, x: nat, atMark: int, foreign: int)
    requires Traced(s, t, Gain(s, f)) && t.log.upIn == s.log.upIn + [f] && TakenFor(t, x) == TakenFor(s, x)
    requires x != 0 && x in s.sh.targets && Balance(s, x, atMark, foreign)
    ensures Balance(t, x, atMark, foreign + ForeignMove(s, UpRead(f), x))
  {
    hide TakenFor, StreamCredit, BE32;
    CreditSnoc(s.log.upIn, f, x);
  }

  lemma BalanceStarts(s: State, t: State, f: Frame, x: nat)
    requires MarkedAfresh(t) && StreamGrantNone(f) && t.log.upIn == s.log.upIn + [f] && TakenFor(t, x) == TakenFor(s, x)
    ensures Balance(t, x, TakenFor(s, x) - StreamCredit(s.log.upIn, x), 0)
  {
    hide TakenFor, StreamCredit;
    CreditSnoc(s.log.upIn, f, x);
  }

  lemma ReadBalance(cfg: Config, s: State, f: Frame, x: nat, atMark: int, foreign: int)
    requires s.up.UpReading? && Readable(f) && x != 0
    ensures var t := NextUp(cfg, s, UpRead(f)).value;
            if Marks(cfg, s, UpRead(f)) then Balance(t, x, TakenFor(s, x) - StreamCredit(s.log.upIn, x), 0)
            else t.sh.targets == s.sh.targets
                 && (x in s.sh.targets && Balance(s, x, atMark, foreign) ==>
                     Balance(t, x, atMark, foreign + ForeignMove(s, UpRead(f), x)))
  {
    UpTaken(cfg, s, UpRead(f), x);
    ReadEffect(cfg, s, f);
    hide Readable, TakenFor, StreamCredit, Marks, Balance, ForeignMove, Gain, MarkedAfresh, StreamGrantNone;
    var t := NextUp(cfg, s, UpRead(f)).value;
    hide NextUp;
    if Marks(cfg, s, UpRead(f)) {
      BalanceStarts(s, t, f, x);
    } else if x in s.sh.targets && Balance(s, x, atMark, foreign) {
      BalanceMoves(s, t, f, x, atMark, foreign);
    }
  }

  /** Upstream, a mark starts a new balance and everything else carries the old one on. */
  lemma UpBalance(cfg: Config, s: State, step: Step, x: nat, atMark: int, foreign: int)
    requires IsUpStep(step) && NextUp(cfg, s, step).Some? && x != 0
    ensures var t := NextUp(cfg, s, step).value;
            if Marks(cfg, s, step) then Balance(t, x, TakenFor(s, x) - StreamCredit(s.log.upIn, x), 0)
            else t.sh.targets == s.sh.targets
                 && (x in s.sh.targets && Balance(s, x, atMark, foreign) ==>
                     Balance(t, x, atMark, foreign + ForeignMove(s, step, x)))
  {
    if step.UpRead? {
      ReadBalance(cfg, s, step.f, x, atMark, foreign);
    } else {
      UpTaken(cfg, s, step, x);
      NoMark(cfg, s, step);
      hide TakenFor, StreamCredit, Marks;
    }
  }

  lemma NoMark(cfg: Config, s: State, step: Step)
    requires !step.UpRead?
    ensures !Marks(cfg, s, step)
  {
  }

  lemma TraceLog(cfg: Config, s: State, f: Frame)
    ensures Trace(cfg, s, f).log.upIn == s.log.upIn
  {
    hide BE32, Assemble, Verdict, Configured, SettingsWake, Bit;
  }

  lemma SpendBalance(s: State, job: Job, x: nat, atMark: int, foreign: int)
    requires (s.down == Written(job) && job.Msg?) || (s.down == Approved(job) && job.Raw? && job.f.sid != x)
    requires x in s.sh.targets && Balance(s, x, atMark, foreign)
    ensures Balance(Spend(s, job), x, atMark, foreign + ForeignMove(s, SpendBytes, x))
  {
    hide PayloadOn, StreamCredit;
  }

  lemma SendBalance(s: State, f: Frame, next: Down, x: nat, atMark: int, foreign: int)
    requires Balance(s, x, atMark, foreign) && UnspentOn(s.down, x) == 0
    requires UnspentOn(next, x) == (if f.typ == DATA && f.sid == x then |f.payload| else 0)
    ensures Balance(Send(s, f, next), x, atMark, foreign)
  {
    hide PayloadOn, StreamCredit, UnspentOn;
    PayloadSnoc(s.log.downOut, f, x);
  }

  lemma ChunkIs(job: Job)
    requires job.Msg?
    ensures Chunk(job).typ == DATA && Chunk(job).sid == job.sid && |Chunk(job).payload| == job.Need()
  {
    hide Image;
  }

  /** Downstream, spending for stream `x` and writing its pieces leave the balance as it is. */
  lemma DownBalance(cfg: Config, s: State, step: Step, x: nat, atMark: int, foreign: int)
    requires !IsUpStep(step) && NextDown(cfg, s, step).Some?
    requires StreamLedger.HeldMarked(s) && HandsOk(s.down, s.log.rawData) && Ledger.Jobs(s.down)
    requires x in s.sh.targets && x !in s.log.rawData && Balance(s, x, atMark, foreign)
    ensures Balance(NextDown(cfg, s, step).value, x, atMark, foreign + ForeignMove(s, step, x))
  {
    if step.SpendBytes? {
      hide Balance, Readable;
      SpendBalance(s, s.down.job, x, atMark, foreign);
    } else if step.Write? && step.ok {
      hide Balance, Readable, Chunk;
      if s.down.Forwarding? {
        SendBalance(s, s.down.f, Reading, x, atMark, foreign);
      } else {
        ChunkIs(s.down.job);
        SendBalance(s, Chunk(s.down.job), Written(s.down.job), x, atMark, foreign);
      }
    } else {
      StreamLedger.QuietSame(cfg, s, step);
      QuietCredit(cfg, s, step);
      hide NextDown, PayloadOn, StreamCredit;
    }
  }

  lemma QuietCredit(cfg: Config, s: State, step: Step)
    requires !IsUpStep(step) && !step.SpendBytes? && NextDown(cfg, s, step).Some?
    ensures var t := NextDown(cfg, s, step).value;
            t.log.strmCredit == s.log.strmCredit && t.log.upIn == s.log.upIn
  {
    Ledger.DownNeutral(cfg, s, step);
    hide NextDown;
  }

  lemma {:induction false} RunBalance(cfg: Config, steps: seq<Step>, x: nat)
    requires Run(cfg, START, steps).Some? && x != 0
    ensures var s := Run(cfg, START, steps).value;
            x in s.sh.targets && x !in s.log.rawData ==> Balance(s, x, AtMark(cfg, steps, x), Foreign(cfg, steps, x))
    decreases |steps|
  {
    hide NextUp, NextDown, Balance, Marks, TakenFor, ForeignMove, ContentInv, StreamLedger.HeldMarked, HandsOk;
    if steps != [] {
      var before, step := steps[..|steps| - 1], steps[|steps| - 1];
      RunBalance(cfg, before, x);
      var s := Run(cfg, START, before).value;
      var atMark, foreign := AtMark(cfg, before, x), Foreign(cfg, before, x);
      if IsUpStep(step) {
        UpBalance(cfg, s, step, x, atMark, foreign);
        UpRaw(cfg, s, step);
      } else {
        NoMark(cfg, s, step);
        DownRaw(cfg, s, step);
        InHands(cfg, before);
        if x in s.sh.targets && x !in s.log.rawData {
          DownBalance(cfg, s, step, x, atMark, foreign);
        }
      }
    }
  }

  lemma UpRaw(cfg: Config, s: State, step: Step)
    requires IsUpStep(step) && NextUp(cfg, s, step).Some?
    ensures NextUp(cfg, s, step).value.log.rawData == s.log.rawData
  {
    hide NextUp;
    UpSameContent(cfg, s, step);
  }

  lemma DownRaw(cfg: Config, s: State, step: Step)
    requires !IsUpStep(step) && NextDown(cfg, s, step).Some?
    ensures var t := NextDown(cfg, s, step).value; s.log.rawData <= t.log.rawData && t.sh.targets == s.sh.targets
  {
    RawDataGrows(cfg, s, step);
    if !step.SpendBytes? {
      Ledger.DownNeutral(cfg, s, step);
      hide NextDown;
    }
  }

  lemma InHands(cfg: Config, steps: seq<Step>)
    requires Run(cfg, START, steps).Some?
    ensures var s := Run(cfg, START, steps).value;
            StreamLedger.HeldMarked(s) && HandsOk(s.down, s.log.rawData) && Ledger.Jobs(s.down)
  {
    hide NextUp, NextDown;
    StreamLedger.RunKeepsSpent(cfg, steps);
    Ledger.RunKeeps(cfg, steps);
  }

  /** More has been sent on stream `x` than the daemon has granted it: the initial window it has announced
      last and all its credit for the stream. */
  predicate Overdrawn(s: State, x: nat) {
    |PayloadOn(s.log.downOut, x)| > DaemonWindow(s.log.upIn) + StreamCredit(s.log.upIn, x)
  }

  /** The exact condition, for any number of marks (RFC 7540 sections 6.9.1 and 6.9.2): a marked stream is
      overdrawn if and only if what it was ahead at the last mark, the balance of the other marked streams
      since, and what it has been sent but not charged are together more than the window left. */
  lemma OverdrawnIff(cfg: Config, steps: seq<Step>, s: State, x: nat)
    requires Run(cfg, START, steps) == Some(s) && x != 0 && x in s.sh.targets && x !in s.log.rawData
    ensures var ahead := AtMark(cfg, steps, x) + Foreign(cfg, steps, x) + UnspentOn(s.down, x);
            && s.sh.strmWin + |PayloadOn(s.log.downOut, x)| ==
               DaemonWindow(s.log.upIn) + StreamCredit(s.log.upIn, x) + ahead
            && (Overdrawn(s, x) <==> ahead > s.sh.strmWin)
  {
    hide NextUp, NextDown, PayloadOn, StreamCredit, AtMark, Foreign, UnspentOn, DaemonWindow, Lowerings;
    RunBalance(cfg, steps, x);
    RunKeepsWindow(cfg, steps);
    Ledger.RunKeeps(cfg, steps);
  }

  /** The guard that is missing at the write of a piece: it overdraws its stream exactly if the piece,
      what the stream was ahead at the last mark and the others' balance are more than the window. */
  lemma PieceOverdrawsIff(cfg: Config, steps: seq<Step>, s: State, job: Job)
    requires Run(cfg, START, steps) == Some(s) && s.down == Approved(job) && job.Msg? && !s.broken
    requires job.sid != 0 && job.sid !in s.log.rawData
    ensures var t := Send(s, Chunk(job), Written(job));
            && NextDown(cfg, s, Write(true)) == Some(t)
            && (Overdrawn(t, job.sid) <==>
                AtMark(cfg, steps, job.sid) + Foreign(cfg, steps, job.sid) + job.Need() > s.sh.strmWin)
  {
    hide NextUp, PayloadOn, StreamCredit, AtMark, Foreign, Chunk, DaemonWindow;
    InHands(cfg, steps);
    OverdrawnIff(cfg, steps, s, job.sid);
    ChunkIs(job);
    PayloadSnoc(s.log.downOut, Chunk(job), job.sid);
  }

  /** What a caller can look at: since a grant left the window at least as large as the piece, a piece
      overdraws its stream only if that stream was ahead at the last mark or the others have brought in
      more than they took. */
  lemma OthersPay(cfg: Config, steps: seq<Step>, s: State, job: Job)
    requires Run(cfg, START, steps) == Some(s) && s.down == Approved(job) && job.Msg? && !s.broken
    requires job.sid != 0 && job.sid !in s.log.rawData && s.sh.strmWin >= job.Need()
    ensures Overdrawn(Send(s, Chunk(job), Written(job)), job.sid) ==>
              AtMark(cfg, steps, job.sid) > 0 || Foreign(cfg, steps, job.sid) > 0
  {
    hide Overdrawn, AtMark, Foreign, Chunk, NextUp, NextDown;
    PieceOverdrawsIff(cfg, steps, s, job);
  }

  /** Before the first mark nothing has been sent on a stream that is to be marked. */
  lemma NothingBeforeMark(s: State, x: nat)
    requires StreamLedger.SpentInv(s) && s.log.marks == 0 && x !in s.log.rawData
    ensures TakenFor(s, x) <= 0
  {
    hide PayloadOn, HandsOk;
    assert StreamLedger.SpentIs(s, x);
  }

  lemma MarksCount(cfg: Config, s: State, step: Step)
    requires IsUpStep(step) && NextUp(cfg, s, step).Some?
    ensures NextUp(cfg, s, step).value.log.marks == s.log.marks + if Marks(cfg, s, step) then 1 else 0
  {
    hide Readable, BE32, Assemble, Verdict, Configured, SettingsWake, Bit;
  }

  /** With a single mark no stream but the marked one moves the window. */
  lemma OneMarkMove(s: State, step: Step, x: nat)
    requires s.log.marks <= 1 && StreamLedger.HeldMarked(s) && x in s.sh.targets
    ensures ForeignMove(s, step, x) == 0
  {
    assert s.log.marks == 1;
    match step
    case UpRead(f) => if f.sid in s.sh.targets { StreamLedger.OneElement(s.sh.targets, x, f.sid); }
    case SpendBytes =>
      if HasJob(s.down) && s.down.job.Stream() in s.sh.targets {
        StreamLedger.OneElement(s.sh.targets, x, s.down.job.Stream());
      }
    case _ =>
  }

  lemma {:induction false} OneMarkBalance(cfg: Config, steps: seq<Step>, x: nat)
    requires Run(cfg, START, steps).Some?
    ensures var s := Run(cfg, START, steps).value;
            s.log.marks <= 1 && x in s.sh.targets && x !in s.log.rawData ==>
              AtMark(cfg, steps, x) <= 0 && Foreign(cfg, steps, x) == 0
    decreases |steps|
  {
    hide NextUp, NextDown, Marks, TakenFor, ForeignMove, HandsOk, StreamLedger.SpentIs, StreamCredit, Verdict;
    if steps != [] {
      var before, step := steps[..|steps| - 1], steps[|steps| - 1];
      OneMarkBalance(cfg, before, x);
      var s := Run(cfg, START, before).value;
      StreamLedger.RunKeepsSpent(cfg, before);
      if IsUpStep(step) {
        UpRaw(cfg, s, step);
        MarksCount(cfg, s, step);
        if !Marks(cfg, s, step) { UpBalanceTargets(cfg, s, step); }
      } else {
        NoMark(cfg, s, step);
        DownRaw(cfg, s, step);
        DownMarks(cfg, s, step);
      }
      if s.log.marks == 0 && x !in s.log.rawData { NothingBeforeMark(s, x); }
      if s.log.marks <= 1 && x in s.sh.targets { OneMarkMove(s, step, x); }
    }
  }

  lemma UpBalanceTargets(cfg: Config, s: State, step: Step)
    requires IsUpStep(step) && NextUp(cfg, s, step).Some? && !Marks(cfg, s, step)
    ensures NextUp(cfg, s, step).value.sh.targets == s.sh.targets
  {
    hide NextUp, Marks, Balance;
    UpBalance(cfg, s, step, 1, 0, 0);
  }

  lemma DownMarks(cfg: Config, s: State, step: Step)
    requires !IsUpStep(step) && NextDown(cfg, s, step).Some?
    ensures NextDown(cfg, s, step).value.log.marks == s.log.marks
  {
    if !step.SpendBytes? {
      Ledger.DownNeutral(cfg, s, step);
      hide NextDown;
    }
  }

  /** With one mark, in terms of the daemon's frames alone: the marked stream is sent at most the initial
      window announced last, its credit, and what the daemon has lowered its initial window by. */
  lemma OneMarkWithin(cfg: Config, s: State, x: nat)
    requires Reachable(cfg, s) && s.log.marks == 1 && x != 0 && x in s.sh.targets && x !in s.log.rawData
    ensures |PayloadOn(s.log.downOut, x)| <=
            DaemonWindow(s.log.upIn) + StreamCredit(s.log.upIn, x) + Lowerings(s.log.upIn)
  {
    hide NextUp, NextDown, PayloadOn, StreamCredit, AtMark, Foreign, DaemonWindow, Lowerings;
    var steps :| Run(cfg, START, steps) == Some(s);
    OverdrawnIff(cfg, steps, s, x);
    OneMarkBalance(cfg, steps, x);
    Ledger.StreamSafety(cfg, s);
    InitialWindowIsDaemons(cfg, s);
  }
}
