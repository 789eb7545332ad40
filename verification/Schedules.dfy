/** Progress under every schedule: with enough window the pump delivers however the daemon's frames are
    interleaved with its steps, and always the same. */
module Schedules {
  import opened Bytes
  import opened Grpc
  import opened Stream
  import opened Http2
  import opened Headers
  import opened Session
  import opened StreamContent
  import opened Progress
  import Wakeups

  /** A daemon frame that neither closes the session nor takes from the stream window. */
  predicate Harmless(s: State, t: State) {
    !t.sh.closed && t.sh.strmWin >= s.sh.strmWin
  }

  /** A harmless upstream step, or the pump's own next step. */
  predicate GentleStep(cfg: Config, s: State, step: Step) {
    if IsUpStep(step) then NextUp(cfg, s, step).Some? && Harmless(s, NextUp(cfg, s, step).value)
    else OwnStep(s) == Some(step)
  }

  /** A schedule from `s` of such steps, in any order and number. */
  predicate Gentle(cfg: Config, s: State, steps: seq<Step>) {
    && Run(cfg, s, steps).Some?
    && (steps != [] ==>
          var before := steps[..|steps| - 1];
          Gentle(cfg, s, before) && GentleStep(cfg, Run(cfg, s, before).value, steps[|steps| - 1]))
  }

  function OwnCount(steps: seq<Step>): nat {
    if steps == [] then 0
    else OwnCount(steps[..|steps| - 1]) + if IsUpStep(steps[|steps| - 1]) then 0 else 1
  }

  lemma IdentifyHarmless(cfg: Config, s: State, asm: Assembly, b: Block)
    requires !s.sh.closed && (Verdict(cfg, s.seen, b) ==> s.sh.initWin >= s.sh.strmWin)
    ensures Harmless(s, Identify(cfg, s.(asm := asm), b))
  {
    hide Verdict;
  }

  lemma SettleHarmless(s: State, payload: bytes)
    requires !s.sh.closed && Settle(s, payload).sh.initWin >= s.sh.initWin
    ensures Harmless(s, Settle(s, payload))
  {
    hide Configured;
    ConfiguredEffect(s.sh, payload);
  }

  /** Every upstream step is harmless that does not close, does not lower the initial window, and marks
      no stream while the stream window is larger than the initial one. */
  lemma HarmlessUnless(cfg: Config, s: State, step: Step)
    requires IsUpStep(step) && NextUp(cfg, s, step).Some? && !s.sh.closed && !step.UpClose?
    requires NextUp(cfg, s, step).value.sh.initWin >= s.sh.initWin
    requires Wakeups.Marks(cfg, s, step) ==> s.sh.initWin >= s.sh.strmWin
    ensures Harmless(s, NextUp(cfg, s, step).value)
  {
    hide BE32, Assemble, Verdict, Bit, Settle, Identify, Readable;
    if step.UpRead? {
      var f := step.f;
      if f.typ == HEADERS || f.typ == CONTINUATION {
        if Assemble(s.asm, f).1.Some? {
          IdentifyHarmless(cfg, s, Assemble(s.asm, f).0, Assemble(s.asm, f).1.value);
        }
      } else if f.typ == SETTINGS && !Bit(f.flags, 1) {
        SettleHarmless(s, f.payload);
      }
    }
  }

  /** The same work in hand, and the same done. */
  predicate SameHands(s: State, t: State) {
    && t.down == s.down && t.sh.stat == s.sh.stat && t.sh.buf == s.sh.buf && t.broken == s.broken
    && t.log.downOut == s.log.downOut && t.log.taken == s.log.taken && t.log.rawData == s.log.rawData
  }

  lemma ConnGrows(cfg: Config, s: State, step: Step)
    requires IsUpStep(step) && NextUp(cfg, s, step).Some?
    ensures NextUp(cfg, s, step).value.sh.connWin >= s.sh.connWin
  {
    hide Trace, Readable;
    if step.UpRead? { Ledger.TraceEffect(cfg, s, step.f); }
  }

  lemma SameDemand(cfg: Config, s: State, t: State)
    requires SameHands(s, t)
    ensures Demand(cfg, t) == Demand(cfg, s)
  {
    hide Rewrite, Flatten, Messages;
  }

  /** A harmless upstream step leaves the pump covered, with the same work in hand. */
  lemma UpStaysCovered(cfg: Config, s: State, step: Step)
    requires Covered(cfg, s) && IsUpStep(step) && GentleStep(cfg, s, step)
    ensures var t := NextUp(cfg, s, step).value; Covered(cfg, t) && SameHands(s, t)
  {
    hide NextUp, Demand;
    UpSameContent(cfg, s, step);
    ConnGrows(cfg, s, step);
    SameDemand(cfg, s, NextUp(cfg, s, step).value);
  }

  lemma RouteAlike(s: State, t: State, f: Frame, target: bool)
    requires SameHands(s, t)
    ensures SameHands(Route(s, f, target), Route(t, f, target))
  {
    hide Messages;
  }

  lemma TakeAlike(cfg: Config, s: State, t: State, sid: nat, todo: seq<bytes>)
    requires SameHands(s, t)
    ensures SameHands(Take(cfg, s, sid, todo), Take(cfg, t, sid, todo))
  {
    hide EmittedFor, Seen;
  }

  lemma SpendAlike(s: State, t: State, job: Job)
    requires SameHands(s, t)
    ensures SameHands(Spend(s, job), Spend(t, job))
  {
  }

  /** Windows that cover the work do not show in what the pump does next. */
  lemma OwnStepAlike(cfg: Config, s: State, t: State)
    requires Covered(cfg, s) && Covered(cfg, t) && SameHands(s, t) && OwnStep(s).Some?
    ensures OwnStep(t) == OwnStep(s)
    ensures NextDown(cfg, s, OwnStep(s).value).Some? && NextDown(cfg, t, OwnStep(s).value).Some?
    ensures SameHands(NextDown(cfg, s, OwnStep(s).value).value, NextDown(cfg, t, OwnStep(s).value).value)
  {
    CoveredStays(cfg, s);
    CoveredStays(cfg, t);
    hide Route, Take, Check, Chunk, Spend, Demand;
    match s.down
    case Checked(f, target) => RouteAlike(s, t, f, target);
    case Emitting(sid, todo) => TakeAlike(cfg, s, t, sid, todo);
    case Waiting(job, _) => CheckDemand(cfg, s, job); CheckDemand(cfg, t, job);
    case Approved(job) => if job.Raw? { SpendAlike(s, t, job); }
    case Written(job) => SpendAlike(s, t, job);
    case _ =>
  }

  /** How many steps the pump still has to take. */
  function StepsLeft(cfg: Config, s: State): nat
    requires Covered(cfg, s)
    decreases s.down.Checked?, Left(s.down), RestLen(s.down), Phase(s.down)
  {
    if OwnStep(s).None? then 0
    else
      CoveredStays(cfg, s);
      OwnStepDecreases(cfg, s);
      1 + StepsLeft(cfg, NextDown(cfg, s, OwnStep(s).value).value)
  }

  /** The same work takes as many steps and comes to the same end. */
  lemma {:induction false} SameEnd(cfg: Config, s: State, t: State)
    requires Covered(cfg, s) && Covered(cfg, t) && SameHands(s, t)
    ensures StepsLeft(cfg, t) == StepsLeft(cfg, s) && SameHands(Drive(cfg, s), Drive(cfg, t))
    decreases s.down.Checked?, Left(s.down), RestLen(s.down), Phase(s.down)
  {
    CoveredMeans(cfg, s);
    CoveredMeans(cfg, t);
    hide NextDown, Covered, Phase, RestLen, Left;
    if OwnStep(s).Some? {
      OwnStepAlike(cfg, s, t);
      CoveredStays(cfg, s);
      CoveredStays(cfg, t);
      OwnStepDecreases(cfg, s);
      var s', t' := NextDown(cfg, s, OwnStep(s).value).value, NextDown(cfg, t, OwnStep(t).value).value;
      CoveredMeans(cfg, s');
      CoveredMeans(cfg, t');
      SameEnd(cfg, s', t');
    }
  }

  lemma CoveredMeans(cfg: Config, s: State)
    requires Covered(cfg, s)
    ensures Ledger.Jobs(s.down) && !Asleep(s.down)
    ensures OwnStep(s).None? ==> s.down.Reading?
  {
  }

  /** One own step is one step less, with the same end. */
  lemma OwnStepCounts(cfg: Config, s: State)
    requires Covered(cfg, s) && OwnStep(s).Some?
    ensures NextDown(cfg, s, OwnStep(s).value).Some?
    ensures var t := NextDown(cfg, s, OwnStep(s).value).value;
            && Covered(cfg, t) && Ledger.Jobs(s.down) && Ledger.Jobs(t.down)
            && StepsLeft(cfg, s) == 1 + StepsLeft(cfg, t) && Drive(cfg, s) == Drive(cfg, t)
  {
    CoveredMeans(cfg, s);
    CoveredStays(cfg, s);
    hide NextDown, Covered;
    CoveredMeans(cfg, NextDown(cfg, s, OwnStep(s).value).value);
  }

  lemma HandsTrans(a: State, b: State, c: State)
    requires SameHands(a, b) && SameHands(b, c)
    ensures SameHands(a, c)
  {
  }

  /** Along a gentle schedule the work in hand shrinks by the pump's own steps, and where it will end does
      not change. */
  lemma {:induction false} GentleRun(cfg: Config, s: State, steps: seq<Step>)
    requires Covered(cfg, s) && Gentle(cfg, s, steps)
    ensures var t := Run(cfg, s, steps).value;
            && Covered(cfg, t) && Ledger.Jobs(s.down) && Ledger.Jobs(t.down)
            && OwnCount(steps) + StepsLeft(cfg, t) == StepsLeft(cfg, s)
            && SameHands(Drive(cfg, s), Drive(cfg, t))
    decreases |steps|
  {
    hide NextUp, NextDown, Covered, StepsLeft, Drive, SameHands, Harmless;
    CoveredMeans(cfg, s);
    if steps == [] {
      assert SameHands(Drive(cfg, s), Drive(cfg, s)) by { SameSelf(Drive(cfg, s)); }
    } else {
      var before, step := steps[..|steps| - 1], steps[|steps| - 1];
      GentleRun(cfg, s, before);
      var r, t := Run(cfg, s, before).value, Run(cfg, s, steps).value;
      if IsUpStep(step) {
        UpStaysCovered(cfg, r, step);
        SameEnd(cfg, r, t);
        CoveredMeans(cfg, t);
        HandsTrans(Drive(cfg, s), Drive(cfg, r), Drive(cfg, t));
      } else {
        OwnStepCounts(cfg, r);
      }
    }
  }

  lemma SameSelf(s: State)
    ensures SameHands(s, s)
  {
  }

  lemma StoppedIsReading(cfg: Config, t: State)
    requires Covered(cfg, t) && Ledger.Jobs(t.down)
    ensures if StepsLeft(cfg, t) == 0 then t.down.Reading? && Drive(cfg, t) == t
            else OwnStep(t).Some? && NextDown(cfg, t, OwnStep(t).value).Some?
  {
    CoveredMeans(cfg, t);
    if OwnStep(t).Some? { CoveredStays(cfg, t); }
    hide NextDown, Covered;
  }

  /** Delivery under every schedule: from any reachable state whose windows cover the work in hand, and
      whatever harmless daemon frames come between, the pump can always take its next step, needs a
      number of steps fixed at the outset, and after them has written exactly what it would have written
      alone, with everything parsed off each stream sent, rewritten. */
  lemma EveryScheduleDelivers(cfg: Config, s: State, steps: seq<Step>, sid: nat)
    requires Reachable(cfg, s) && Covered(cfg, s) && Gentle(cfg, s, steps)
    ensures Ledger.Jobs(s.down)
    ensures var t := Run(cfg, s, steps).value;
            && Reachable(cfg, t) && Covered(cfg, t)
            && OwnCount(steps) <= StepsLeft(cfg, s)
            && (OwnCount(steps) < StepsLeft(cfg, s) ==> OwnStep(t).Some? && NextDown(cfg, t, OwnStep(t).value).Some?)
            && (OwnCount(steps) == StepsLeft(cfg, s) ==>
                  && t.down.Reading? && t.log.downOut == Drive(cfg, s).log.downOut
                  && (sid !in t.log.rawData ==> Delivered(cfg, t, sid)))
  {
    hide Covered, Next, Drive, StepsLeft, Delivered, ContentInv;
    assert Run(cfg, s, steps).Some?;
    hide Gentle;
    CoveredMeans(cfg, s);
    GentleRun(cfg, s, steps);
    var t := Run(cfg, s, steps).value;
    StoppedIsReading(cfg, t);
    var a: seq<Step> :| Run(cfg, START, a) == Some(s);
    RunAppend(cfg, START, a, steps);
    RunKeepsContent(cfg, a + steps);
    if OwnCount(steps) == StepsLeft(cfg, s) && sid !in t.log.rawData {
      AllSent(cfg, t, sid);
    }
  }
}
