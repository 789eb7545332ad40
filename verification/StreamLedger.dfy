/** Stream flow control in terms of the bytes on the wire, for a session with one marked stream. */
module StreamLedger {
  import opened Bytes
  import opened Grpc
  import opened Stream
  import opened Http2
  import opened Headers
  import opened Session
  import opened StreamContent
  import opened Settings

  /** The stream whose messages or recognised data the pump holds. */
  function TargetHeld(d: Down): Option<nat> {
    if d.Checked? && d.target then Some(d.f.sid) else HeldStream(d)
  }

  predicate HeldMarked(s: State) {
    && (TargetHeld(s.down).Some? ==> TargetHeld(s.down).value in s.sh.targets)
    && (s.log.marks == 0 ==> s.sh.targets == {})
    && (s.log.marks == 1 ==> |s.sh.targets| == 1)
  }

  /** With at most one mark: the marked stream's ledger counts exactly its bytes on the wire, and
      no other stream has recognised data. */
  predicate SpentIs(s: State, sid: nat) {
    s.log.marks <= 1 ==>
      |PayloadOn(s.log.downOut, sid)| == if sid in s.sh.targets then s.log.strmSpent + Unspent(s.down) else 0
  }

  ghost predicate SpentInv(s: State) {
    && HandsOk(s.down, s.log.rawData)
    && HeldMarked(s)
    && forall sid | sid !in s.log.rawData :: SpentIs(s, sid)
  }

  /** What an upstream step may do to targets and stream ledger. */
  ghost predicate UpEffect(s: State, t: State) {
    && t.log.downOut == s.log.downOut && t.log.rawData == s.log.rawData
    && (t.down == s.down || t.down == Woken(s.down))
    && (|| (t.sh.targets == s.sh.targets && t.log.marks == s.log.marks && t.log.strmSpent == s.log.strmSpent)
        || (exists x :: t.sh.targets == s.sh.targets + {x} && t.log.marks == s.log.marks + 1 && t.log.strmSpent == 0))
  }

  lemma SettleEffect(s: State, payload: bytes)
    ensures UpEffect(s, Settle(s, payload))
  {
    hide Configured, SettingsWake;
    ConfiguredEffect(s.sh, payload);
  }

  lemma IdentifyEffect(cfg: Config, s: State, b: Block)
    ensures UpEffect(s, Identify(cfg, s, b))
  {
    hide Verdict;
    assert Identify(cfg, s, b).sh.targets == s.sh.targets || Identify(cfg, s, b).sh.targets == s.sh.targets + {b.sid};
  }

  lemma UpHas(cfg: Config, s: State, step: Step)
    requires IsUpStep(step) && NextUp(cfg, s, step).Some?
    ensures UpEffect(s, NextUp(cfg, s, step).value)
  {
    hide Readable, Trace;
    if step.UpRead? {
      TraceHas(cfg, s, step.f);
    }
  }

  lemma CreditEffect(s: State, sid: nat, inc: nat)
    ensures UpEffect(s, Credit(s, sid, inc))
  {
  }

  lemma TraceHas(cfg: Config, s: State, f: Frame)
    ensures UpEffect(s, Trace(cfg, s, f))
  {
    hide BE32, Settle, Credit, Identify, Assemble, UpEffect;
    assert UpEffect(s, s) && UpEffect(s, s.(asm := Assemble(s.asm, f).0)) by { NoEffect(s, Assemble(s.asm, f).0); }
    if f.typ == HEADERS || f.typ == CONTINUATION {
      var (a, b) := Assemble(s.asm, f);
      if b.Some? {
        IdentifyEffect(cfg, s.(asm := a), b.value);
        AsmEffect(s, a, Identify(cfg, s.(asm := a), b.value));
      }
    } else if f.typ == SETTINGS {
      SettleEffect(s, f.payload);
    } else if |f.payload| >= 4 {
      CreditEffect(s, f.sid, BE32(f.payload[..4]) % TWO31);
    }
  }

  lemma NoEffect(s: State, a: Assembly)
    ensures UpEffect(s, s) && UpEffect(s, s.(asm := a))
  {
  }

  lemma AsmEffect(s: State, a: Assembly, t: State)
    requires UpEffect(s.(asm := a), t)
    ensures UpEffect(s, t)
  {
  }

  lemma EffectKeeps(s: State, t: State)
    requires SpentInv(s) && UpEffect(s, t)
    ensures SpentInv(t)
  {
    hide Readable, PayloadOn;
    assert HeldFrame(t.down) == HeldFrame(s.down) && HeldStream(t.down) == HeldStream(s.down);
    assert TargetHeld(t.down) == TargetHeld(s.down) && Unspent(t.down) == Unspent(s.down);
    forall sid | sid !in t.log.rawData ensures SpentIs(t, sid) {
      assert SpentIs(s, sid);
    }
  }

  lemma UpKeeps(cfg: Config, s: State, step: Step)
    requires SpentInv(s) && IsUpStep(step) && NextUp(cfg, s, step).Some?
    ensures SpentInv(NextUp(cfg, s, step).value)
  {
    hide NextUp, SpentInv, UpEffect;
    UpHas(cfg, s, step);
    EffectKeeps(s, NextUp(cfg, s, step).value);
  }

  /** Steps other than spending and sending leave targets, ledger and wire alone. */
  lemma QuietKeeps(cfg: Config, s: State, step: Step)
    requires SpentInv(s) && PumpOk(s) && !IsUpStep(step) && !step.SpendBytes? && NextDown(cfg, s, step).Some?
    requires !(step.Write? && step.ok)
    ensures SpentInv(NextDown(cfg, s, step).value)
  {
    DownKeepsPump(cfg, s, step);
    RawDataGrows(cfg, s, step);
    QuietSame(cfg, s, step);
    var t := NextDown(cfg, s, step).value;
    hide NextDown, PayloadOn, Readable;
    forall sid | sid !in t.log.rawData ensures SpentIs(t, sid) {
      assert SpentIs(s, sid);
    }
  }

  /** The pump picks up no stream it did not hold before. */
  predicate HeldWithin(d: Down, e: Down) {
    (TargetHeld(e).Some? ==> TargetHeld(e) == TargetHeld(d)) && Unspent(e) == 0
  }

  lemma RouteHeld(s: State, f: Frame, target: bool)
    requires s.down == Checked(f, target)
    ensures HeldWithin(s.down, Route(s, f, target).down)
  {
    hide Messages;
  }

  lemma TakeHeld(cfg: Config, s: State, sid: nat, todo: seq<bytes>)
    requires s.down == Emitting(sid, todo)
    ensures HeldWithin(s.down, Take(cfg, s, sid, todo).down)
  {
    hide EmittedFor, Noted;
  }

  lemma CheckHeld(s: State, job: Job)
    requires s.down == Waiting(job, false)
    ensures HeldWithin(s.down, Check(s, job).down)
  {
  }

  lemma QuietHeld(cfg: Config, s: State, step: Step)
    requires !IsUpStep(step) && !step.SpendBytes? && !step.Read? && NextDown(cfg, s, step).Some?
    requires !(step.Write? && step.ok)
    ensures HeldWithin(s.down, NextDown(cfg, s, step).value.down)
  {
    hide Readable, Chunk, Route, Take, Check;
    if step.RouteFrame? { RouteHeld(s, s.down.f, s.down.target); }
    if step.TakeMessage? { TakeHeld(cfg, s, s.down.sid, s.down.todo); }
    if step.CheckWindow? { CheckHeld(s, s.down.job); }
  }

  lemma QuietSame(cfg: Config, s: State, step: Step)
    requires HeldMarked(s)
    requires !IsUpStep(step) && !step.SpendBytes? && NextDown(cfg, s, step).Some?
    requires !(step.Write? && step.ok)
    ensures var t := NextDown(cfg, s, step).value;
            && t.sh.targets == s.sh.targets && t.log.marks == s.log.marks && t.log.strmSpent == s.log.strmSpent
            && t.log.downOut == s.log.downOut && HeldMarked(t) && Unspent(t.down) == Unspent(s.down) == 0
  {
    Ledger.DownNeutral(cfg, s, step);
    QuietWire(cfg, s, step);
    if !step.Read? {
      QuietHeld(cfg, s, step);
      hide NextDown;
    } else {
      hide Readable, Opened;
    }
  }

  lemma QuietWire(cfg: Config, s: State, step: Step)
    requires !IsUpStep(step) && !step.SpendBytes? && NextDown(cfg, s, step).Some?
    requires !(step.Write? && step.ok)
    ensures NextDown(cfg, s, step).value.log.downOut == s.log.downOut && !s.down.Written?
  {
    hide Readable, Messages, EmittedFor, Noted, Chunk, Opened;
  }

  lemma SpendKeeps(s: State, job: Job)
    requires SpentInv(s)
    requires (s.down == Written(job) && job.Msg?) || (s.down == Approved(job) && job.Raw? && job.f.typ == DATA)
    ensures SpentInv(Spend(s, job))
  {
    hide Readable, PayloadOn;
    var t := Spend(s, job);
    forall sid | sid !in t.log.rawData ensures SpentIs(t, sid) {
      assert SpentIs(s, sid);
      if s.log.marks == 1 && job.Stream() in s.sh.targets && sid in s.sh.targets {
        OneElement(s.sh.targets, job.Stream(), sid);
      }
    }
  }

  lemma OneElement(xs: set<nat>, x: nat, y: nat)
    requires |xs| == 1 && x in xs && y in xs
    ensures x == y
  {
    if x != y {
      assert {x, y} <= xs;
      SubsetSize({x, y}, xs);
    }
  }

  lemma SubsetSize(a: set<nat>, b: set<nat>)
    requires a <= b
    ensures |a| <= |b|
    decreases |a|
  {
    if a != {} {
      var x :| x in a;
      SubsetSize(a - {x}, b - {x});
    }
  }

  lemma SendKeeps(s: State, f: Frame, next: Down)
    requires SpentInv(s) && HandsOk(next, s.log.rawData)
    requires (s.down == Forwarding(f) && next == Reading)
          || (s.down.Approved? && s.down.job.Msg? && f == Chunk(s.down.job) && next == Written(s.down.job))
    ensures SpentInv(Send(s, f, next))
  {
    hide Readable, PayloadOn, PutBE32, Len24;
    var t := Send(s, f, next);
    forall sid | sid !in t.log.rawData ensures SpentIs(t, sid) {
      assert SpentIs(s, sid);
      PayloadSnoc(s.log.downOut, f, sid);
      if s.log.marks == 1 && next.Written? && sid in s.sh.targets {
        OneElement(s.sh.targets, s.down.job.sid, sid);
      }
    }
  }

  lemma DownKeeps(cfg: Config, s: State, step: Step)
    requires SpentInv(s) && PumpOk(s) && Ledger.Jobs(s.down) && !IsUpStep(step) && NextDown(cfg, s, step).Some?
    ensures SpentInv(NextDown(cfg, s, step).value)
  {
    hide SpentInv, Spend, Chunk, Readable, PumpOk;
    if step.SpendBytes? {
      SpendKeeps(s, s.down.job);
    } else if step.Write? && step.ok {
      DownKeepsPump(cfg, s, step);
      assert HandsOk(NextDown(cfg, s, step).value.down, s.log.rawData) by { HandsAfterWrite(cfg, s, step); }
      if s.down.Forwarding? {
        SendKeeps(s, s.down.f, Reading);
      } else {
        SendKeeps(s, Chunk(s.down.job), Written(s.down.job));
      }
    } else {
      QuietKeeps(cfg, s, step);
    }
  }

  lemma HandsAfterWrite(cfg: Config, s: State, step: Step)
    requires PumpOk(s) && step.Write? && step.ok && NextDown(cfg, s, step).Some?
    ensures HandsOk(NextDown(cfg, s, step).value.down, s.log.rawData)
  {
    hide Readable;
  }

  lemma StartSpent()
    ensures SpentInv(START)
  {
  }

  lemma {:induction false} RunKeepsSpent(cfg: Config, steps: seq<Step>)
    requires Run(cfg, START, steps).Some?
    ensures SpentInv(Run(cfg, START, steps).value)
  {
    hide NextUp, NextDown, SpentInv, ContentInv;
    if steps == [] {
      StartSpent();
    } else {
      var before := steps[..|steps| - 1];
      RunKeepsSpent(cfg, before);
      var s := Run(cfg, START, before).value;
      if IsUpStep(steps[|steps| - 1]) {
        UpKeeps(cfg, s, steps[|steps| - 1]);
      } else {
        PumpAndJobs(cfg, before);
        DownKeeps(cfg, s, steps[|steps| - 1]);
      }
    }
  }

  lemma PumpAndJobs(cfg: Config, steps: seq<Step>)
    requires Run(cfg, START, steps).Some?
    ensures PumpOk(Run(cfg, START, steps).value) && Ledger.Jobs(Run(cfg, START, steps).value.down)
  {
    hide NextUp, NextDown;
    RunKeepsContent(cfg, steps);
    Ledger.RunKeeps(cfg, steps);
  }

  /** RFC 7540 sections 6.9.1 and 6.9.2 for the one marked stream: the stream ledger is exactly the
      bytes written on it, and they exceed the initial window the daemon has announced last plus the
      credit granted since the mark by at most what its SETTINGS have lowered the initial window by. */
  lemma StreamWithinCredit(cfg: Config, s: State, sid: nat)
    requires Reachable(cfg, s) && s.log.marks == 1 && sid in s.sh.targets && sid !in s.log.rawData
    ensures |PayloadOn(s.log.downOut, sid)| == s.log.strmSpent + Unspent(s.down)
    ensures s.sh.strmWin + |PayloadOn(s.log.downOut, sid)| ==
            DaemonWindow(s.log.upIn) + s.log.strmCredit + Unspent(s.down)
    ensures |PayloadOn(s.log.downOut, sid)| <= DaemonWindow(s.log.upIn) + s.log.strmCredit + Lowerings(s.log.upIn)
  {
    hide PayloadOn, NextUp, NextDown, DaemonWindow, Lowerings;
    var steps :| Run(cfg, START, steps) == Some(s);
    RunKeepsSpent(cfg, steps);
    assert SpentIs(s, sid);
    Ledger.StreamSafety(cfg, s);
    InitialWindowIsDaemons(cfg, s);
  }
}
