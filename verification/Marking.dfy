/** Dockerfile streams are recognised before any of their data arrives, over every interleaving. */
module Marking {
  import opened Bytes
  import opened Http2
  import opened Headers
  import opened Session

  /** The streams marked by the verdicts on a sequence of blocks. */
  function MarkedBy(cfg: Config, bs: seq<Block>): set<nat> {
    if bs == [] then {}
    else
      var before, b := bs[..|bs| - 1], bs[|bs| - 1];
      MarkedBy(cfg, before) + if Verdict(cfg, before, b) then {b.sid} else {}
  }

  /** The verdict on the first block of a stream: on its request headers. */
  function FirstVerdict(cfg: Config, bs: seq<Block>, sid: nat): Option<bool> {
    if bs == [] then None
    else
      var before, b := bs[..|bs| - 1], bs[|bs| - 1];
      var r := FirstVerdict(cfg, before, sid);
      if r.Some? then r else if b.sid == sid then Some(Verdict(cfg, before, b)) else None
  }

  lemma {:induction false} VerdictStable(cfg: Config, a: seq<Block>, b: seq<Block>, sid: nat)
    requires a <= b && FirstVerdict(cfg, a, sid).Some?
    ensures FirstVerdict(cfg, b, sid) == FirstVerdict(cfg, a, sid)
  {
    if a == b {
      assert a == b;
    } else {
      VerdictStable(cfg, a, b[..|b| - 1], sid);
    }
  }

  lemma {:induction false} VerdictExists(cfg: Config, bs: seq<Block>, i: nat)
    requires i < |bs|
    ensures FirstVerdict(cfg, bs, bs[i].sid).Some?
  {
    hide Verdict;
    if i < |bs| - 1 {
      VerdictExists(cfg, bs[..|bs| - 1], i);
    }
  }

  lemma {:induction false} FirstVerdictMarks(cfg: Config, bs: seq<Block>, sid: nat)
    requires FirstVerdict(cfg, bs, sid) == Some(true)
    ensures sid in MarkedBy(cfg, bs)
  {
    hide Verdict;
    var before := bs[..|bs| - 1];
    if FirstVerdict(cfg, before, sid).Some? {
      FirstVerdictMarks(cfg, before, sid);
    }
  }

  /** The daemon's frames reach the client in order, unchanged, each after it was traced. */
  predicate Forwarded(s: State) {
    match s.up
    case UpReading => s.log.upIn == s.log.upOut
    case UpWriting(f) => s.log.upIn == s.log.upOut + [f]
    case _ => s.log.upOut <= s.log.upIn
  }

  predicate TraceInv(cfg: Config, s: State) {
    && s.asm == AssemblyAfter(s.log.upIn)
    && s.seen == Identified(s.log.upIn)
    && s.sh.targets == MarkedBy(cfg, s.seen)
    && Forwarded(s)
  }

  /** DATA that was not recognised is on streams whose first header block asks for something else. */
  predicate RawInv(cfg: Config, s: State) {
    s.log.obeys && Contiguous(s.log.upIn) && AllPlain(s.log.upIn) ==>
      forall sid | sid in s.log.rawData :: FirstVerdict(cfg, s.seen, sid) == Some(false)
  }

  lemma IdentifyMarks(cfg: Config, s: State, b: Block)
    requires s.sh.targets == MarkedBy(cfg, s.seen)
    ensures var t := Identify(cfg, s, b); t.seen == s.seen + [b] && t.sh.targets == MarkedBy(cfg, t.seen)
  {
    hide Verdict;
    assert (s.seen + [b])[..|s.seen|] == s.seen;
  }

  /** Frames that carry no header block leave assembly, blocks and targets alone. */
  lemma OtherFrames(cfg: Config, s: State, f: Frame)
    requires f.typ != HEADERS && f.typ != CONTINUATION
    ensures var t := Trace(cfg, s, f);
            && t.asm == s.asm && t.seen == s.seen && t.sh.targets == s.sh.targets && t.up == s.up
            && t.log == s.log.(strmCredit := t.log.strmCredit, lowered := t.log.lowered)
  {
    hide BE32, Configured;
    ConfiguredEffect(s.sh, f.payload);
  }

  lemma TraceKeeps(cfg: Config, s: State, f: Frame)
    requires s.asm == AssemblyAfter(s.log.upIn) && s.seen == Identified(s.log.upIn)
    requires s.sh.targets == MarkedBy(cfg, s.seen)
    ensures var t := Trace(cfg, s, f);
            && t.asm == AssemblyAfter(s.log.upIn + [f])
            && t.seen == Identified(s.log.upIn + [f])
            && t.sh.targets == MarkedBy(cfg, t.seen)
            && t.up == s.up
            && t.log == s.log.(strmCredit := t.log.strmCredit, strmSpent := t.log.strmSpent,
                               marks := t.log.marks, lowered := t.log.lowered, late := t.log.late)
  {
    hide Identify, Settle, Credit, MarkedBy, BE32;
    var fs := s.log.upIn + [f];
    assert fs[..|fs| - 1] == s.log.upIn;
    assert s.seen + [] == s.seen;
    if f.typ == HEADERS || f.typ == CONTINUATION {
      var (a, b) := Assemble(s.asm, f);
      if b.Some? {
        IdentifyMarks(cfg, s.(asm := a), b.value);
        IdentifyLog(cfg, s.(asm := a), b.value);
      }
    } else {
      OtherFrames(cfg, s, f);
      hide Trace;
    }
  }

  lemma IdentifyLog(cfg: Config, s: State, b: Block)
    ensures var t := Identify(cfg, s, b);
            && t.up == s.up && t.asm == s.asm
            && t.log == s.log.(strmCredit := t.log.strmCredit, strmSpent := t.log.strmSpent, marks := t.log.marks,
               late := t.log.late)
  {
    hide Verdict;
  }

  lemma UpKeeps(cfg: Config, s: State, step: Step)
    requires TraceInv(cfg, s) && RawInv(cfg, s) && IsUpStep(step) && NextUp(cfg, s, step).Some?
    ensures TraceInv(cfg, NextUp(cfg, s, step).value) && RawInv(cfg, NextUp(cfg, s, step).value)
  {
    hide Trace, MarkedBy, Identified, AssemblyAfter, FirstVerdict, Contiguous, AllPlain, Readable;
    if step.UpRead? {
      TraceKeeps(cfg, s, step.f);
      var t := NextUp(cfg, s, step).value;
      BlocksGrow(s.log.upIn, t.log.upIn);
      forall sid | sid in s.log.rawData && FirstVerdict(cfg, s.seen, sid).Some?
        ensures FirstVerdict(cfg, t.seen, sid) == FirstVerdict(cfg, s.seen, sid)
      {
        VerdictStable(cfg, s.seen, t.seen, sid);
      }
    }
  }

  /** A client that has seen a stream's headers sends data on it only after the verdict. */
  lemma OpenedIsDecided(cfg: Config, s: State, sid: nat)
    requires TraceInv(cfg, s) && Contiguous(s.log.upIn) && AllPlain(s.log.upIn)
    requires Opened(s.log.upOut, sid) && sid !in s.sh.targets
    ensures FirstVerdict(cfg, s.seen, sid) == Some(false)
  {
    hide MarkedBy, FirstVerdict, Identified, HeaderBlocks, AssemblyAfter, Contiguous, AllPlain;
    assert s.log.upOut <= s.log.upIn;
    BlocksGrow(s.log.upOut, s.log.upIn);
    PlainBlocksIdentified(s.log.upOut);
    var i :| 0 <= i < |HeaderBlocks(s.log.upOut)| && HeaderBlocks(s.log.upOut)[i].sid == sid;
    assert s.seen[i].sid == sid;
    VerdictExists(cfg, s.seen, i);
    var v := FirstVerdict(cfg, s.seen, sid);
    assert v.Some?;
    if v.value {
      FirstVerdictMarks(cfg, s.seen, sid);
    }
  }

  /** The downstream pump does not touch what tracing depends on. */
  lemma DownSame(cfg: Config, s: State, step: Step)
    requires !IsUpStep(step) && NextDown(cfg, s, step).Some?
    ensures var t := NextDown(cfg, s, step).value;
            && t.asm == s.asm && t.seen == s.seen && t.up == s.up && t.sh.targets == s.sh.targets
            && t.log.upIn == s.log.upIn && t.log.upOut == s.log.upOut
            && (!step.Read? ==> t.log.rawData == s.log.rawData && t.log.obeys == s.log.obeys)
  {
    hide Readable, Opened, Chunk, Noted;
  }

  lemma DownKeeps(cfg: Config, s: State, step: Step)
    requires TraceInv(cfg, s) && RawInv(cfg, s) && !IsUpStep(step) && NextDown(cfg, s, step).Some?
    ensures TraceInv(cfg, NextDown(cfg, s, step).value) && RawInv(cfg, NextDown(cfg, s, step).value)
  {
    DownSame(cfg, s, step);
    if step.Read? {
      ReadKeepsRaw(cfg, s, step.f);
    }
    hide NextDown, MarkedBy, Identified, AssemblyAfter, FirstVerdict, Contiguous, AllPlain;
  }

  lemma ReadKeepsRaw(cfg: Config, s: State, f: Frame)
    requires TraceInv(cfg, s) && RawInv(cfg, s) && s.down.Reading? && Readable(f)
    ensures RawInv(cfg, NextDown(cfg, s, Read(f)).value)
  {
    hide MarkedBy, Identified, AssemblyAfter, FirstVerdict, Contiguous, AllPlain, Opened, Readable;
    var t := ReadClient(s, f);
    if t.log.obeys && Contiguous(s.log.upIn) && AllPlain(s.log.upIn) && f.typ == DATA && f.sid !in s.sh.targets {
      OpenedIsDecided(cfg, s, f.sid);
    }
  }

  lemma {:induction false} RunKeepsMarking(cfg: Config, steps: seq<Step>)
    requires Run(cfg, START, steps).Some?
    ensures TraceInv(cfg, Run(cfg, START, steps).value) && RawInv(cfg, Run(cfg, START, steps).value)
  {
    hide NextUp, NextDown;
    if steps != [] {
      var before := steps[..|steps| - 1];
      RunKeepsMarking(cfg, before);
      hide TraceInv, RawInv;
      var s := Run(cfg, START, before).value;
      if IsUpStep(steps[|steps| - 1]) {
        UpKeeps(cfg, s, steps[|steps| - 1]);
      } else {
        DownKeeps(cfg, s, steps[|steps| - 1]);
      }
    }
  }

  /** The client gets exactly the daemon's frames, in order: a prefix of what was read, short of
      at most the frame being written. */
  lemma ForwardedVerbatim(cfg: Config, s: State)
    requires Reachable(cfg, s)
    ensures s.log.upOut <= s.log.upIn
    ensures s.up.UpReading? ==> Wire(s.log.upOut) == Wire(s.log.upIn)
  {
    var steps :| Run(cfg, START, steps) == Some(s);
    RunKeepsMarking(cfg, steps);
  }

  /** The marked streams are exactly those some identified block asks a Dockerfile for. */
  lemma TargetsAreMarked(cfg: Config, s: State)
    requires Reachable(cfg, s)
    ensures s.sh.targets == MarkedBy(cfg, Identified(s.log.upIn))
  {
    var steps :| Run(cfg, START, steps) == Some(s);
    RunKeepsMarking(cfg, steps);
  }

  /** Marking before forwarding: with a client that sends DATA only on streams whose header block
      it has received, and plain daemon headers, DATA of a stream whose request asks for a
      Dockerfile is always recognised as target data, never forwarded raw. */
  lemma MarkedBeforeForwarded(cfg: Config, s: State, sid: nat)
    requires Reachable(cfg, s)
    requires s.log.obeys && Contiguous(s.log.upIn) && AllPlain(s.log.upIn)
    requires FirstVerdict(cfg, HeaderBlocks(s.log.upIn), sid) == Some(true)
    ensures sid !in s.log.rawData && sid in s.sh.targets
  {
    var steps :| Run(cfg, START, steps) == Some(s);
    RunKeepsMarking(cfg, steps);
    PlainBlocksIdentified(s.log.upIn);
    FirstVerdictMarks(cfg, s.seen, sid);
  }
}
