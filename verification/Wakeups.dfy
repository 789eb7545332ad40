/** Lost wakeups: exactly when a writer sleeps on with both windows open (internal/proxy/sessionsplice.go,
    lines 171-223). */
module Wakeups {
  import opened Bytes
  import opened Grpc
  import opened Stream
  import opened Http2
  import opened Headers
  import opened Session
  import opened StreamContent

  /** A writer is asleep although both windows cover what it waits for. */
  predicate Oversleeps(s: State) {
    Asleep(s.down) && !s.sh.Short(s.down.job.Need())
  }

  /** The daemon frame completes a header block that asks for a Dockerfile. */
  predicate Marks(cfg: Config, s: State, step: Step) {
    && step.UpRead? && (step.f.typ == HEADERS || step.f.typ == CONTINUATION)
    && Assemble(s.asm, step.f).1.Some?
    && Verdict(cfg, s.seen, Assemble(s.asm, step.f).1.value)
  }

  /** The steps that broadcast: the end of the upstream pump, a new initial window, and credit for the
      connection or a marked stream. */
  predicate Wakes(s: State, step: Step) {
    || step.UpClose?
    || (step.UpRead? && step.f.typ == SETTINGS && !Bit(step.f.flags, 1) && SettingsWake(step.f.payload))
    || (step.UpRead? && step.f.typ == WINDOW_UPDATE && |step.f.payload| >= 4 && CreditWakes(s.sh, step.f.sid))
  }

  /** What the windows would be after a mark. */
  predicate MarkCovers(s: State, n: nat) {
    s.sh.connWin >= n && s.sh.initWin >= n
  }

  lemma SettleSleeper(s: State, payload: bytes)
    requires Asleep(s.down)
    ensures Oversleeps(Settle(s, payload)) <==> Oversleeps(s) && !SettingsWake(payload)
    ensures Asleep(Settle(s, payload).down) <==> !SettingsWake(payload)
  {
    hide Configured, SettingsWake;
    ConfiguredEffect(s.sh, payload);
  }

  lemma CreditSleeper(s: State, sid: nat, inc: nat)
    requires Asleep(s.down)
    ensures Oversleeps(Credit(s, sid, inc)) <==> Oversleeps(s) && !CreditWakes(s.sh, sid)
    ensures Asleep(Credit(s, sid, inc).down) <==> !CreditWakes(s.sh, sid)
  {
  }

  lemma IdentifySleeper(cfg: Config, s: State, asm: Assembly, b: Block)
    requires Asleep(s.down)
    ensures var t := Identify(cfg, s.(asm := asm), b);
            && Asleep(t.down)
            && (Oversleeps(t) <==> if Verdict(cfg, s.seen, b) then MarkCovers(s, s.down.job.Need()) else Oversleeps(s))
  {
    hide Verdict;
  }

  /** One upstream step with a writer asleep: it leaves the writer asleep with both windows open exactly if
      it is a mark and the connection window and the initial window cover what is waited for, or if it
      neither marks nor wakes and the wakeup was lost before. */
  lemma OversleepsAfter(cfg: Config, s: State, step: Step)
    requires Asleep(s.down) && IsUpStep(step) && NextUp(cfg, s, step).Some?
    ensures var t := NextUp(cfg, s, step).value;
            && (Oversleeps(t) <==>
                if Marks(cfg, s, step) then MarkCovers(s, s.down.job.Need()) else Oversleeps(s) && !Wakes(s, step))
            && (Asleep(t.down) <==> !Wakes(s, step))
            && (Asleep(t.down) ==> t.down == s.down)
  {
    hide Identify, Settle, Credit, Assemble, Verdict, Readable, BE32, SettingsWake, CreditWakes, Bit;
    UpSameContent(cfg, s, step);
    if step.UpRead? {
      var f := step.f;
      if f.typ == HEADERS || f.typ == CONTINUATION {
        if Assemble(s.asm, f).1.Some? {
          IdentifySleeper(cfg, s, Assemble(s.asm, f).0, Assemble(s.asm, f).1.value);
        }
      } else if f.typ == SETTINGS && !Bit(f.flags, 1) {
        SettleSleeper(s, f.payload);
      } else if f.typ == WINDOW_UPDATE && |f.payload| >= 4 {
        CreditSleeper(s, f.sid, BE32(f.payload[..4]) % TWO31);
      }
    }
  }

  /** The exact condition at one step: a wakeup is lost by an upstream step if and only if the step
      completes a block that asks for a Dockerfile while the writer sleeps and both the connection window
      and the initial window cover what it waits for. */
  lemma WakeupLostIff(cfg: Config, s: State, step: Step)
    requires Asleep(s.down) && s.sh.Short(s.down.job.Need()) && IsUpStep(step) && NextUp(cfg, s, step).Some?
    ensures Oversleeps(NextUp(cfg, s, step).value) <==> Marks(cfg, s, step) && MarkCovers(s, s.down.job.Need())
  {
    hide NextUp, Marks, Wakes;
    OversleepsAfter(cfg, s, step);
  }

  /** Only the check of the windows puts a writer to sleep, and then they are short. */
  lemma DownNeverOversleeps(cfg: Config, s: State, step: Step)
    requires !IsUpStep(step) && NextDown(cfg, s, step).Some?
    ensures !Asleep(s.down) && !Oversleeps(NextDown(cfg, s, step).value)
  {
    hide Readable, Opened, Chunk, EmittedFor, Noted, Messages;
  }

  lemma AwakeStaysAwake(cfg: Config, s: State, step: Step)
    requires !Asleep(s.down) && IsUpStep(step) && NextUp(cfg, s, step).Some?
    ensures !Asleep(NextUp(cfg, s, step).value.down)
  {
    hide NextUp;
    UpSameContent(cfg, s, step);
  }

  /** The state before step `i` of a run. */
  function Before(cfg: Config, steps: seq<Step>, i: nat): Option<State>
    requires i <= |steps|
  {
    Run(cfg, START, steps[..i])
  }

  /** Step `i` marks a stream while a writer sleeps, with both windows covering it, and no later step
      marks another or broadcasts. */
  predicate LostAt(cfg: Config, steps: seq<Step>, i: nat) {
    && i < |steps| && Before(cfg, steps, i).Some?
    && (var s := Before(cfg, steps, i).value;
        Asleep(s.down) && Marks(cfg, s, steps[i]) && MarkCovers(s, s.down.job.Need()))
    && forall j | i < j < |steps| ::
         Before(cfg, steps, j).Some? && QuietStep(cfg, Before(cfg, steps, j).value, steps[j])
  }

  predicate QuietStep(cfg: Config, s: State, step: Step) {
    IsUpStep(step) && !Marks(cfg, s, step) && !Wakes(s, step)
  }

  lemma LostEarlier(cfg: Config, steps: seq<Step>, i: nat)
    requires |steps| > 0 && i < |steps| - 1
    ensures LostAt(cfg, steps, i) <==>
            && LostAt(cfg, steps[..|steps| - 1], i)
            && Before(cfg, steps, |steps| - 1).Some?
            && QuietStep(cfg, Before(cfg, steps, |steps| - 1).value, steps[|steps| - 1])
  {
    hide QuietStep, Marks, MarkCovers, Run;
    var n := |steps| - 1;
    var front := steps[..n];
    assert forall j | 0 <= j <= n :: front[..j] == steps[..j];
    if LostAt(cfg, steps, i) {
      forall j | i < j < n
        ensures Before(cfg, front, j).Some? && QuietStep(cfg, Before(cfg, front, j).value, front[j])
      {
        assert Before(cfg, front, j) == Before(cfg, steps, j);
      }
    }
    if LostAt(cfg, front, i) {
      forall j | i < j < n
        ensures Before(cfg, steps, j).Some? && QuietStep(cfg, Before(cfg, steps, j).value, steps[j])
      {
        assert Before(cfg, front, j) == Before(cfg, steps, j);
      }
    }
  }

  /** The exact condition over runs: a run ends with a writer asleep and both windows open if and only if
      some step of it marked a stream under the sleeping writer, the windows covering it, and nothing
      since has marked or broadcast. */
  lemma {:induction false} LostWakeupIff(cfg: Config, steps: seq<Step>)
    requires Run(cfg, START, steps).Some?
    ensures Oversleeps(Run(cfg, START, steps).value) <==> exists i: nat :: LostAt(cfg, steps, i)
    decreases |steps|
  {
    hide NextUp, NextDown, Marks, Wakes, MarkCovers, Oversleeps;
    if steps == [] {
      assert !Oversleeps(START) by { NobodySleepsAtFirst(); }
    } else {
      var n := |steps| - 1;
      var front, step := steps[..n], steps[n];
      var s, t := Run(cfg, START, front).value, Run(cfg, START, steps).value;
      LostWakeupIff(cfg, front);
      LastOrEarlier(cfg, steps);
      if !IsUpStep(step) {
        DownNeverOversleeps(cfg, s, step);
      } else if Asleep(s.down) {
        OversleepsAfter(cfg, s, step);
      } else {
        AwakeStaysAwake(cfg, s, step);
        NotAsleep(s);
        NotAsleep(t);
      }
    }
  }

  lemma NobodySleepsAtFirst()
    ensures !Oversleeps(START)
  {
  }

  lemma NotAsleep(s: State)
    requires !Asleep(s.down)
    ensures !Oversleeps(s)
  {
  }

  lemma LastOrEarlier(cfg: Config, steps: seq<Step>)
    requires |steps| > 0 && Run(cfg, START, steps[..|steps| - 1]).Some?
    ensures var n := |steps| - 1; var s := Run(cfg, START, steps[..n]).value;
            (exists i: nat :: LostAt(cfg, steps, i)) <==>
            || (Asleep(s.down) && Marks(cfg, s, steps[n]) && MarkCovers(s, s.down.job.Need()))
            || ((exists i: nat :: LostAt(cfg, steps[..n], i)) && QuietStep(cfg, s, steps[n]))
  {
    hide Run, Marks, MarkCovers, QuietStep;
    var n := |steps| - 1;
    var s := Run(cfg, START, steps[..n]).value;
    assert Before(cfg, steps, n) == Some(s);
    if i: nat :| LostAt(cfg, steps, i) {
      if i < n { LostEarlier(cfg, steps, i); }
    }
    if Asleep(s.down) && Marks(cfg, s, steps[n]) && MarkCovers(s, s.down.job.Need()) {
      assert LostAt(cfg, steps, n);
    }
    if i: nat :| LostAt(cfg, steps[..n], i) {
      LostEarlier(cfg, steps, i);
    }
  }
}
