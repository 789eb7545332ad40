/** Flow control over every interleaving of the two pumps (RFC 7540 sections 6.9.1 and 6.9.2):
    what the daemon has granted against what the splice has sent, and who may be asleep. */
module Ledger {
  import opened Bytes
  import opened Grpc
  import opened Stream
  import opened Http2
  import opened Headers
  import opened Session

  /** Connection credit a daemon frame grants. */
  function Grant(f: Frame): nat {
    if f.typ == WINDOW_UPDATE && |f.payload| >= 4 && f.sid == 0 then BE32(f.payload[..4]) % TWO31 else 0
  }

  function ConnCredit(fs: seq<Frame>): nat {
    if fs == [] then 0 else ConnCredit(fs[..|fs| - 1]) + Grant(fs[|fs| - 1])
  }

  /** Payload bytes of DATA frames on proper streams. */
  function Cost(f: Frame): nat {
    if f.typ == DATA && f.sid != 0 then |f.payload| else 0
  }

  function DataBytes(fs: seq<Frame>): nat {
    if fs == [] then 0 else DataBytes(fs[..|fs| - 1]) + Cost(fs[|fs| - 1])
  }

  /** Bytes taken from the window for a frame that is still to be written. */
  function Promised(d: Down): nat {
    if d.Forwarding? then Cost(d.f) else 0
  }

  function Cleared(d: Down): nat {
    if d.Approved? || d.Written? then d.job.Need() else 0
  }

  /** The jobs that wait: DATA of a proper stream, or a nonempty rest of a message. */
  predicate GoodJob(job: Job) {
    if job.Raw? then job.f.typ == DATA && job.f.sid != 0 else job.rest != []
  }

  predicate Jobs(d: Down) {
    && (HasJob(d) ==> GoodJob(d.job))
    && (d.Written? ==> d.job.Msg?)
  }

  predicate ConnInv(s: State) {
    && s.sh.connWin == WINDOW + ConnCredit(s.log.upIn) - s.log.spent
    && DataBytes(s.log.downOut) + Promised(s.down) <= s.log.spent + Unspent(s.down)
    && s.sh.connWin >= Cleared(s.down)
    && Jobs(s.down)
  }

  predicate StreamInv(s: State) {
    && s.sh.strmWin == s.sh.initWin + s.log.strmCredit - s.log.strmSpent - (if s.log.marks == 0 then WINDOW else 0)
    && s.sh.initWin >= 0
    && (s.log.marks == 0 <==> s.sh.targets == {})
    && (s.log.marks == 0 ==> s.log.strmCredit == s.log.strmSpent == 0)
    && (s.log.marks <= 1 ==> s.sh.strmWin >= Cleared(s.down) - s.log.lowered)
  }

  /** A target stream's message is in the writer's hands. */
  predicate OnTarget(d: Down) {
    d.Emitting? || (d.Checked? && d.target) || (HasJob(d) && d.job.Msg?)
  }

  predicate WakeInv(s: State) {
    && (Asleep(s.down) ==> !s.sh.closed && (s.log.late || s.sh.Short(s.down.job.Need())))
    && (OnTarget(s.down) ==> s.log.marks >= 1)
    && (Asleep(s.down) && s.down.job.Msg? && s.log.late ==> s.log.marks >= 2)
  }

  /** The connection window has moved by `grant`, and no ledger of sent bytes by anything. */
  predicate Granted(s: State, t: State, grant: nat) {
    && t.sh.connWin == s.sh.connWin + grant
    && t.sh.closed == s.sh.closed
    && (t.down == s.down || t.down == Woken(s.down))
    && t.log.upIn == s.log.upIn && t.log.downOut == s.log.downOut && t.log.spent == s.log.spent
  }

  lemma IdentifyEffect(cfg: Config, s: State, asm: Assembly, b: Block)
    ensures Granted(s, Identify(cfg, s.(asm := asm), b), 0)
  {
    hide Verdict;
  }

  lemma SettleEffect(s: State, payload: bytes)
    ensures Granted(s, Settle(s, payload), 0)
  {
    hide Configured;
    ConfiguredEffect(s.sh, payload);
  }

  lemma CreditEffect(s: State, sid: nat, inc: nat)
    ensures Granted(s, Credit(s, sid, inc), if sid == 0 then inc else 0)
  {
  }

  /** One traced daemon frame: credit arrives exactly as granted, and no window is touched else. */
  lemma TraceEffect(cfg: Config, s: State, f: Frame)
    ensures Granted(s, Trace(cfg, s, f), Grant(f))
  {
    hide BE32, Assemble, Settle, Credit, Identify, Bit;
    if f.typ == HEADERS || f.typ == CONTINUATION {
      if Assemble(s.asm, f).1.Some? {
        IdentifyEffect(cfg, s, Assemble(s.asm, f).0, Assemble(s.asm, f).1.value);
      }
    } else if f.typ == SETTINGS && !Bit(f.flags, 1) {
      SettleEffect(s, f.payload);
    } else if f.typ == WINDOW_UPDATE && |f.payload| >= 4 {
      CreditEffect(s, f.sid, BE32(f.payload[..4]) % TWO31);
    }
  }

  lemma SettleStream(s: State, payload: bytes)
    requires StreamInv(s)
    ensures StreamInv(Settle(s, payload))
  {
    hide Configured;
    ConfiguredEffect(s.sh, payload);
  }

  lemma CreditStream(s: State, sid: nat, inc: nat)
    requires StreamInv(s)
    ensures StreamInv(Credit(s, sid, inc))
  {
  }

  lemma IdentifyStream(cfg: Config, s: State, b: Block)
    requires StreamInv(s)
    ensures StreamInv(Identify(cfg, s, b))
  {
    hide Verdict;
  }

  lemma TraceStream(cfg: Config, s: State, f: Frame)
    requires StreamInv(s)
    ensures StreamInv(Trace(cfg, s, f))
  {
    hide BE32, Assemble, Settle, Credit, Identify;
    if Assemble(s.asm, f).1.Some? {
      IdentifyStream(cfg, s.(asm := Assemble(s.asm, f).0), Assemble(s.asm, f).1.value);
    }
    if |f.payload| >= 4 {
      CreditStream(s, f.sid, BE32(f.payload[..4]) % TWO31);
    }
    if f.typ == SETTINGS && !Bit(f.flags, 1) {
      SettleStream(s, f.payload);
    }
  }

  lemma IdentifyWake(cfg: Config, s: State, asm: Assembly, b: Block)
    requires StreamInv(s) && WakeInv(s)
    ensures WakeInv(Identify(cfg, s.(asm := asm), b))
  {
    hide Verdict;
  }

  lemma SettleWake(s: State, payload: bytes)
    requires StreamInv(s) && WakeInv(s)
    ensures WakeInv(Settle(s, payload))
  {
    hide Configured;
    ConfiguredEffect(s.sh, payload);
  }

  lemma CreditWake(s: State, sid: nat, inc: nat)
    requires StreamInv(s) && WakeInv(s)
    ensures WakeInv(Credit(s, sid, inc))
  {
  }

  lemma TraceWake(cfg: Config, s: State, f: Frame)
    requires StreamInv(s) && WakeInv(s)
    ensures WakeInv(Trace(cfg, s, f))
  {
    hide BE32, Assemble, Settle, Credit, Identify, Bit, StreamInv;
    if f.typ == HEADERS || f.typ == CONTINUATION {
      if Assemble(s.asm, f).1.Some? {
        IdentifyWake(cfg, s, Assemble(s.asm, f).0, Assemble(s.asm, f).1.value);
      }
    } else if f.typ == SETTINGS && !Bit(f.flags, 1) {
      SettleWake(s, f.payload);
    } else if f.typ == WINDOW_UPDATE && |f.payload| >= 4 {
      CreditWake(s, f.sid, BE32(f.payload[..4]) % TWO31);
    }
  }

  lemma GrantedConn(s: State, t: State, f: Frame)
    requires ConnInv(s) && Granted(s, t, Grant(f))
    ensures ConnInv(t.(up := UpWriting(f), log := t.log.(upIn := t.log.upIn + [f])))
  {
    hide Grant, DataBytes, Cost;
    assert (s.log.upIn + [f])[..|s.log.upIn|] == s.log.upIn;
  }

  lemma ReadStepKeeps(cfg: Config, s: State, f: Frame)
    requires ConnInv(s) && StreamInv(s) && WakeInv(s) && s.up.UpReading? && Readable(f)
    ensures var t := NextUp(cfg, s, UpRead(f)).value; ConnInv(t) && StreamInv(t) && WakeInv(t)
  {
    hide Trace, Readable, ConnInv, Granted;
    TraceEffect(cfg, s, f);
    TraceStream(cfg, s, f);
    TraceWake(cfg, s, f);
    GrantedConn(s, Trace(cfg, s, f), f);
  }

  lemma UpStepKeeps(cfg: Config, s: State, step: Step)
    requires ConnInv(s) && StreamInv(s) && WakeInv(s)
    requires IsUpStep(step) && NextUp(cfg, s, step).Some?
    ensures var t := NextUp(cfg, s, step).value; ConnInv(t) && StreamInv(t) && WakeInv(t)
  {
    hide Trace, Readable, DataBytes, ConnCredit;
    if step.UpRead? {
      ReadStepKeeps(cfg, s, step.f);
    }
  }

  lemma SendEffect(s: State, f: Frame, next: Down)
    ensures DataBytes(Send(s, f, next).log.downOut) == DataBytes(s.log.downOut) + Cost(f)
  {
    assert (s.log.downOut + [f])[..|s.log.downOut|] == s.log.downOut;
  }

  /** Windows and ledgers are untouched, and a newly cleared job has room in both windows. */
  predicate Neutral(s: State, t: State) {
    && t.sh == s.sh.(stat := t.sh.stat, buf := t.sh.buf, closed := t.sh.closed)
    && t.log == s.log.(downIn := t.log.downIn, downOut := t.log.downOut, rawData := t.log.rawData,
                       taken := t.log.taken, lost := t.log.lost, late := t.log.late, obeys := t.log.obeys)
    && (Cleared(t.down) != 0 ==> Cleared(t.down) == Cleared(s.down) || !s.sh.Short(Cleared(t.down)))
  }

  lemma RouteNeutral(s: State, f: Frame, target: bool)
    ensures Neutral(s, Route(s, f, target))
  {
    hide Messages;
  }

  lemma TakeNeutral(cfg: Config, s: State, sid: nat, todo: seq<bytes>)
    ensures Neutral(s, Take(cfg, s, sid, todo))
  {
    hide EmittedFor, Noted;
  }

  lemma CheckNeutral(s: State, job: Job)
    ensures Neutral(s, Check(s, job))
  {
  }

  /** Apart from spending, the downstream pump only clears jobs there is room for. */
  lemma DownNeutral(cfg: Config, s: State, step: Step)
    requires !IsUpStep(step) && !step.SpendBytes? && NextDown(cfg, s, step).Some?
    ensures Neutral(s, NextDown(cfg, s, step).value)
  {
    hide Readable, Opened, Chunk, Route, Take, Check;
    if step.RouteFrame? { RouteNeutral(s, s.down.f, s.down.target); }
    if step.TakeMessage? { TakeNeutral(cfg, s, s.down.sid, s.down.todo); }
    if step.CheckWindow? { CheckNeutral(s, s.down.job); }
  }

  lemma DownKeepsConn(cfg: Config, s: State, step: Step)
    requires ConnInv(s) && !IsUpStep(step) && NextDown(cfg, s, step).Some?
    ensures ConnInv(NextDown(cfg, s, step).value)
  {
    hide DataBytes, ConnCredit, Readable, Messages, EmittedFor, Opened, Noted, PutBE32, Len24;
    if !step.SpendBytes? {
      DownNeutral(cfg, s, step);
    }
    if step.Write? && step.ok {
      if s.down.Forwarding? {
        SendEffect(s, s.down.f, Reading);
      } else {
        SendEffect(s, Chunk(s.down.job), Written(s.down.job));
      }
    }
  }

  lemma SpendStream(s: State, job: Job)
    requires StreamInv(s) && Cleared(s.down) == job.Need()
    ensures StreamInv(Spend(s, job))
  {
  }

  lemma DownKeepsStream(cfg: Config, s: State, step: Step)
    requires StreamInv(s) && !IsUpStep(step) && NextDown(cfg, s, step).Some?
    ensures StreamInv(NextDown(cfg, s, step).value)
  {
    if step.SpendBytes? {
      SpendStream(s, s.down.job);
    } else {
      DownNeutral(cfg, s, step);
      hide NextDown;
    }
  }

  lemma DownKeepsWake(cfg: Config, s: State, step: Step)
    requires StreamInv(s) && WakeInv(s) && !IsUpStep(step) && NextDown(cfg, s, step).Some?
    ensures WakeInv(NextDown(cfg, s, step).value)
  {
    hide Readable, Messages, EmittedFor, Opened, IsStat, IsData, Chunk;
  }

  lemma {:induction false} RunKeeps(cfg: Config, steps: seq<Step>)
    requires Run(cfg, START, steps).Some?
    ensures var s := Run(cfg, START, steps).value; ConnInv(s) && StreamInv(s) && WakeInv(s)
  {
    hide NextUp, NextDown, ConnInv, StreamInv, WakeInv;
    if steps == [] {
      assert ConnInv(START) && StreamInv(START) && WakeInv(START) by { StartHolds(); }
    } else {
      var before := steps[..|steps| - 1];
      RunKeeps(cfg, before);
      var s := Run(cfg, START, before).value;
      if IsUpStep(steps[|steps| - 1]) {
        UpStepKeeps(cfg, s, steps[|steps| - 1]);
      } else {
        DownKeepsConn(cfg, s, steps[|steps| - 1]);
        DownKeepsStream(cfg, s, steps[|steps| - 1]);
        DownKeepsWake(cfg, s, steps[|steps| - 1]);
      }
    }
  }

  lemma StartHolds()
    ensures ConnInv(START) && StreamInv(START) && WakeInv(START)
  {
  }

  lemma ReachableKeeps(cfg: Config, s: State)
    requires Reachable(cfg, s)
    ensures ConnInv(s) && StreamInv(s) && WakeInv(s)
  {
    var steps :| Run(cfg, START, steps) == Some(s);
    RunKeeps(cfg, steps);
  }

  /** Connection flow control: in every reachable state the DATA bytes sent are within the initial
      window plus all credit the daemon has granted, and the window is not overdrawn, not even
      between a write and its accounting. */
  lemma ConnectionSafety(cfg: Config, s: State)
    requires Reachable(cfg, s)
    ensures DataBytes(s.log.downOut) <= WINDOW + ConnCredit(s.log.upIn)
    ensures s.sh.connWin >= 0
    ensures s.down.Approved? || s.down.Written? ==> s.sh.connWin >= s.down.job.Need()
  {
    ReachableKeeps(cfg, s);
  }

  /** Stream flow control: since the last mark the stream window is the current initial window
      plus credit minus spending; with one mark it is overdrawn by at most what SETTINGS has lowered
      the initial window by, also under a wait that was granted. */
  lemma StreamSafety(cfg: Config, s: State)
    requires Reachable(cfg, s)
    ensures s.log.marks >= 1 ==> s.sh.strmWin == s.sh.initWin + s.log.strmCredit - s.log.strmSpent
    ensures s.log.marks <= 1 ==> s.sh.strmWin + s.log.lowered >= 0
    ensures s.log.marks <= 1 && (s.down.Approved? || s.down.Written?) ==>
            s.sh.strmWin + s.log.lowered >= s.down.job.Need()
  {
    ReachableKeeps(cfg, s);
  }

  /** No lost wakeup: a writer asleep since the last mark has a short window and a live session;
      with one mark that is every writer of target data. */
  lemma NoLostWakeup(cfg: Config, s: State)
    requires Reachable(cfg, s) && Asleep(s.down)
    ensures !s.sh.closed
    ensures !s.log.late || (s.down.job.Msg? && s.log.marks <= 1) ==> s.sh.Short(s.down.job.Need())
  {
    ReachableKeeps(cfg, s);
  }
}
