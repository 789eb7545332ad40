/** Progress of the downstream pump: it stops only between frames, at the end, or asleep with a
    short window; and enough window lets everything in its hands go out. */
module Progress {
  import opened Bytes
  import opened Grpc
  import opened Stream
  import opened Http2
  import opened Session
  import opened StreamContent
  import Ledger

  /** The pump's own next step, writes succeeding while the connection is whole.  None between
      frames, at the end, and asleep. */
  function OwnStep(s: State): Option<Step> {
    match s.down
    case Reading => None
    case Checked(_, _) => Some(RouteFrame)
    case Forwarding(_) => Some(Write(!s.broken))
    case Emitting(_, _) => Some(TakeMessage)
    case Waiting(_, asleep) => if asleep then None else Some(CheckWindow)
    case Approved(job) => if job.Raw? then Some(SpendBytes) else Some(Write(!s.broken))
    case Written(_) => Some(SpendBytes)
    case Failing => Some(Close)
    case Done => None
  }

  /** Messages not begun. */
  function Left(d: Down): nat {
    if d.Emitting? then |d.todo| else if HasJob(d) && d.job.Msg? then |d.job.todo| else 0
  }

  function RestLen(d: Down): nat {
    if HasJob(d) && d.job.Msg? then |d.job.rest| else 0
  }

  function Phase(d: Down): nat {
    match d
    case Waiting(_, _) => 6
    case Approved(_) => 5
    case Written(_) => 4
    case Forwarding(_) => 3
    case Emitting(_, _) => 2
    case Failing => 1
    case _ => 0
  }

  lemma OwnStepEnabled(cfg: Config, s: State)
    requires OwnStep(s).Some? && Ledger.Jobs(s.down)
    ensures NextDown(cfg, s, OwnStep(s).value).Some?
    ensures Ledger.Jobs(NextDown(cfg, s, OwnStep(s).value).value.down)
  {
    hide Messages, EmittedFor, Noted, Chunk;
  }

  /** From `d` to `e` the pump has come closer to a stop. */
  predicate Closer(d: Down, e: Down) {
    || (d.Checked? && !e.Checked?)
    || (d.Checked? == e.Checked? && Left(e) < Left(d))
    || (d.Checked? == e.Checked? && Left(e) == Left(d) && RestLen(e) < RestLen(d))
    || (d.Checked? == e.Checked? && Left(e) == Left(d) && RestLen(e) == RestLen(d) && Phase(e) < Phase(d))
  }

  lemma RouteCloser(s: State, f: Frame, target: bool)
    requires s.down == Checked(f, target)
    ensures Closer(s.down, Route(s, f, target).down)
  {
    hide Messages, Left, RestLen, Phase;
  }

  lemma TakeCloser(cfg: Config, s: State, sid: nat, todo: seq<bytes>)
    requires s.down == Emitting(sid, todo)
    ensures Closer(s.down, Take(cfg, s, sid, todo).down)
  {
    hide EmittedFor, Noted, IsStat;
  }

  lemma CheckCloser(s: State, job: Job)
    requires s.down == Waiting(job, false)
    ensures Closer(s.down, Check(s, job).down) || Asleep(Check(s, job).down)
  {
  }

  lemma SpendCloser(s: State, job: Job)
    requires GoodHand(s, job)
    ensures Closer(s.down, Spend(s, job).down)
  {
  }

  predicate GoodHand(s: State, job: Job) {
    && Ledger.GoodJob(job)
    && ((s.down == Approved(job) && job.Raw?) || (s.down == Written(job) && job.Msg?))
  }

  lemma WriteCloser(cfg: Config, s: State, ok: bool)
    requires NextDown(cfg, s, Write(ok)).Some?
    ensures Closer(s.down, NextDown(cfg, s, Write(ok)).value.down)
  {
    hide Chunk;
  }

  /** Every own step brings the pump closer to a stop. */
  lemma OwnStepDecreases(cfg: Config, s: State)
    requires OwnStep(s).Some? && Ledger.Jobs(s.down)
    requires NextDown(cfg, s, OwnStep(s).value).Some?
    ensures var e := NextDown(cfg, s, OwnStep(s).value).value.down; Closer(s.down, e) || Asleep(e)
  {
    hide Route, Take, Check, Spend;
    match s.down
    case Checked(f, target) => hide Closer; RouteCloser(s, f, target);
    case Emitting(sid, todo) => hide Closer; TakeCloser(cfg, s, sid, todo);
    case Waiting(job, _) => hide Closer; CheckCloser(s, job);
    case Approved(job) =>
      hide Closer;
      if job.Raw? { SpendCloser(s, job); } else { WriteCloser(cfg, s, !s.broken); }
    case Written(job) => hide Closer; SpendCloser(s, job);
    case Forwarding(_) => hide Closer; WriteCloser(cfg, s, !s.broken);
    case Failing =>
  }

  /** Let the downstream pump run by itself until it stops: it always does. */
  function Drive(cfg: Config, s: State): (t: State)
    requires Ledger.Jobs(s.down)
    decreases s.down.Checked?, Left(s.down), RestLen(s.down), Phase(s.down)
  {
    if OwnStep(s).None? then s
    else
      OwnStepEnabled(cfg, s);
      OwnStepDecreases(cfg, s);
      var t := NextDown(cfg, s, OwnStep(s).value).value;
      if Asleep(t.down) then t else Drive(cfg, t)
  }

  /** Driving is a schedule of own steps, and it ends where the pump can only wait for others. */
  lemma {:induction false} DriveStops(cfg: Config, s: State)
    requires Ledger.Jobs(s.down)
    ensures var t := Drive(cfg, s);
            && OwnStep(t).None?
            && Ledger.Jobs(t.down)
            && exists steps: seq<Step> :: Run(cfg, s, steps) == Some(t)
    decreases s.down.Checked?, Left(s.down), RestLen(s.down), Phase(s.down)
  {
    hide NextUp, NextDown;
    if OwnStep(s).None? {
      assert Run(cfg, s, []) == Some(s);
    } else {
      var step := OwnStep(s).value;
      OwnStepEnabled(cfg, s);
      OwnStepDecreases(cfg, s);
      var t := NextDown(cfg, s, step).value;
      assert [step][..0] == [];
      assert Run(cfg, s, [step][..0]) == Some(s);
      assert Run(cfg, s, [step]) == Some(t);
      if !Asleep(t.down) {
        DriveStops(cfg, t);
        var steps: seq<Step> :| Run(cfg, t, steps) == Some(Drive(cfg, t));
        RunAppend(cfg, s, [step], steps);
      }
    }
  }

  /** Frames that take nothing from a window go straight through, whatever the windows are: all but DATA, and
      DATA of stream 0 or without payload. */
  lemma OthersNeverWait(cfg: Config, s: State, f: Frame, target: bool)
    requires s.down == Checked(f, target) && !s.broken
    requires f.typ != DATA || (!target && (f.sid == 0 || f.payload == []))
    ensures Ledger.Jobs(s.down)
    ensures Drive(cfg, s) == s.(down := Reading, log := s.log.(downOut := s.log.downOut + [f]))
  {
    assert Route(s, f, target) == s.(down := Forwarding(f));
    hide Route;
    var t := s.(down := Forwarding(f));
    assert NextDown(cfg, s, RouteFrame) == Some(t);
    assert NextDown(cfg, t, Write(true)) == Some(Send(t, f, Reading));
    hide NextDown;
    assert Drive(cfg, t) == Drive(cfg, Send(t, f, Reading));
  }

  /** In a closed session nothing is written of the messages in hand: the pump reads on if they are all Stats,
      whose failure nobody looks at, and ends at the first that is not. */
  lemma {:induction false} ClosedEmits(cfg: Config, s: State)
    requires s.down.Emitting? && s.sh.closed
    requires forall m | m in s.down.todo :: |m| >= 5
    ensures Ledger.Jobs(s.down)
    ensures var t := Drive(cfg, s);
            && t.log.downOut == s.log.downOut
            && t.down == if forall m | m in s.down.todo :: IsStat(m) then Reading else Done
    decreases |s.down.todo|
  {
    var todo := s.down.todo;
    hide NextDown, Drive, IsStat;
    if todo == [] {
      EmptyHands(cfg, s);
    } else {
      var m := todo[0];
      var t := GivenUp(cfg, s);
      assert forall k | k in todo :: k == m || k in todo[1..];
      assert forall k | k in todo[1..] :: k in todo;
      if IsStat(m) {
        ClosedEmits(cfg, t);
      } else {
        LeavesOff(cfg, t);
      }
    }
  }

  lemma EmptyHands(cfg: Config, s: State)
    requires s.down.Emitting? && s.down.todo == []
    ensures Drive(cfg, s) == s.(down := Reading)
  {
    assert NextDown(cfg, s, TakeMessage) == Some(s.(down := Reading));
  }

  lemma LeavesOff(cfg: Config, s: State)
    requires s.down == Failing
    ensures Drive(cfg, s).down == Done && Drive(cfg, s).log == s.log
  {
    var t := CloseSession(s).(down := Done);
    assert NextDown(cfg, s, Close) == Some(t);
    hide NextDown;
    assert Drive(cfg, t) == t;
  }

  /** The first message is taken and given up at the wait. */
  lemma GivenUp(cfg: Config, s: State) returns (t: State)
    requires s.down.Emitting? && s.sh.closed && s.down.todo != [] && |s.down.todo[0]| >= 5
    ensures t.sh.closed && t.log.downOut == s.log.downOut
    ensures t.down == if IsStat(s.down.todo[0]) then Emitting(s.down.sid, s.down.todo[1..]) else Failing
    ensures Drive(cfg, s) == Drive(cfg, t)
  {
    var todo, sid := s.down.todo, s.down.sid;
    var m := todo[0];
    var e := EmittedFor(m, s.sh.StatFor(sid), cfg.edit);
    assert e != [];
    hide EmittedFor, IsStat, Noted;
    var job := Msg(sid, e, IsStat(m), todo[1..]);
    var a := Take(cfg, s, sid, todo);
    assert a == s.(sh := Noted(s.sh, sid, m), down := Waiting(job, false));
    t := GiveUp(a, job);
    assert NextDown(cfg, s, TakeMessage) == Some(a);
    assert NextDown(cfg, a, CheckWindow) == Some(t);
    hide NextDown, Take, GiveUp;
    assert Drive(cfg, s) == Drive(cfg, a);
  }

  /** The window the pump needs to empty its hands: the rest of the message, and what the messages
      still to be emitted become; for a frame just read, what it will set going. */
  function Demand(cfg: Config, s: State): nat {
    match s.down
    case Checked(f, target) => FrameDemand(cfg, s, f, target)
    case Emitting(sid, todo) => |Flatten(Rewrite(todo, s.sh.StatFor(sid), cfg.edit))|
    case Waiting(job, _) => JobDemand(cfg, s, job)
    case Approved(job) => JobDemand(cfg, s, job)
    case Written(job) => JobDemand(cfg, s, job)
    case _ => 0
  }

  function FrameDemand(cfg: Config, s: State, f: Frame, target: bool): nat {
    if f.typ != DATA then 0
    else if !target then if f.sid != 0 then |f.payload| else 0
    else match Messages(s.sh.Buffered(f.sid) + f.payload, MAX_GRPC)
      case None => 0
      case Some(ms) => |Flatten(Rewrite(ms, s.sh.StatFor(f.sid), cfg.edit))|
  }

  function JobDemand(cfg: Config, s: State, job: Job): nat {
    if job.Raw? then |job.f.payload|
    else |job.rest| + |Flatten(Rewrite(job.todo, s.sh.StatFor(job.sid), cfg.edit))|
  }

  predicate Covered(cfg: Config, s: State) {
    && !s.sh.closed && !s.broken && !Asleep(s.down) && !s.down.Failing? && !s.down.Done?
    && Ledger.Jobs(s.down)
    && s.sh.connWin >= Demand(cfg, s) && s.sh.strmWin >= Demand(cfg, s)
  }

  /** What is taken from the connection window is exactly what is taken off the demand, from the stream
      window no more than that, and nothing else of the session's bookkeeping changes. */
  predicate Spends(cfg: Config, s: State, t: State) {
    && t.sh.connWin - Demand(cfg, t) == s.sh.connWin - Demand(cfg, s)
    && t.sh.strmWin - Demand(cfg, t) >= s.sh.strmWin - Demand(cfg, s)
    && t.sh == s.sh.(connWin := t.sh.connWin, strmWin := t.sh.strmWin, stat := t.sh.stat, buf := t.sh.buf)
    && t.log == s.log.(downOut := t.log.downOut, taken := t.log.taken,
                       spent := t.log.spent, strmSpent := t.log.strmSpent)
    && t.up == s.up && t.seen == s.seen && t.asm == s.asm && t.broken == s.broken
  }

  lemma RouteDemand(cfg: Config, s: State, f: Frame, target: bool)
    requires s.down == Checked(f, target) && Covered(cfg, s)
    ensures Covered(cfg, Route(s, f, target)) && Spends(cfg, s, Route(s, f, target))
  {
    hide Rewrite, Flatten, Messages;
    var t := Route(s, f, target);
    assert Demand(cfg, t) == Demand(cfg, s);
  }

  lemma TakeDemand(cfg: Config, s: State, sid: nat, todo: seq<bytes>)
    requires s.down == Emitting(sid, todo) && Covered(cfg, s)
    ensures Covered(cfg, Take(cfg, s, sid, todo)) && Spends(cfg, s, Take(cfg, s, sid, todo))
  {
    hide EmittedFor, NextStat, Noted, Flatten;
    if todo != [] {
      NotedStat(s.sh, sid, todo[0], sid);
      var e := EmittedFor(todo[0], s.sh.StatFor(sid), cfg.edit);
      var rest := Rewrite(todo[1..], NextStat(todo[0], s.sh.StatFor(sid)), cfg.edit);
      FlattenConcat([e], rest);
      assert Flatten([e]) == e by { FlattenOne(e); }
    } else {
      FlattenNone();
    }
  }

  lemma FlattenNone()
    ensures Flatten<byte>([]) == []
  {
  }

  lemma FlattenOne(e: bytes)
    ensures Flatten([e]) == e
  {
    assert [e][1..] == [];
    assert e + [] == e;
  }

  lemma SpendDemand(cfg: Config, s: State, job: Job)
    requires (s.down == Written(job) && job.Msg?) || (s.down == Approved(job) && job.Raw?)
    requires Covered(cfg, s)
    ensures Covered(cfg, Spend(s, job)) && Spends(cfg, s, Spend(s, job))
  {
    hide Rewrite, Flatten;
  }

  lemma CheckDemand(cfg: Config, s: State, job: Job)
    requires s.down == Waiting(job, false) && Covered(cfg, s)
    ensures Covered(cfg, Check(s, job)) && Check(s, job) == s.(down := Approved(job))
  {
    hide Rewrite, Flatten;
  }

  /** A covered pump stays covered by its own steps: it is never put to sleep and never fails. */
  lemma CoveredStays(cfg: Config, s: State)
    requires Covered(cfg, s) && OwnStep(s).Some?
    ensures NextDown(cfg, s, OwnStep(s).value).Some?
    ensures var t := NextDown(cfg, s, OwnStep(s).value).value; Covered(cfg, t) && Spends(cfg, s, t)
  {
    hide Rewrite, Flatten, EmittedFor, Noted, Chunk, Check, Spend, Take, Route, FrameDemand;
    match s.down
    case Checked(f, target) => RouteDemand(cfg, s, f, target);
    case Emitting(sid, todo) => TakeDemand(cfg, s, sid, todo);
    case Waiting(job, _) => CheckDemand(cfg, s, job);
    case Approved(job) => if job.Raw? { SpendDemand(cfg, s, job); }
    case Written(job) => SpendDemand(cfg, s, job);
    case _ =>
  }

  lemma SpendsTrans(cfg: Config, s: State, t: State, u: State)
    requires Spends(cfg, s, t) && Spends(cfg, t, u)
    ensures Spends(cfg, s, u)
  {
    hide Demand;
  }

  lemma SpendsNothing(cfg: Config, s: State)
    ensures Spends(cfg, s, s)
  {
    hide Demand;
  }

  /** Enough window: a pump whose demand is within both windows empties its hands by itself, taking
      exactly its demand from the connection window. */
  lemma {:induction false} EnoughWindowFlushes(cfg: Config, s: State)
    requires Covered(cfg, s)
    ensures Drive(cfg, s).down.Reading? && Spends(cfg, s, Drive(cfg, s)) && Covered(cfg, Drive(cfg, s))
    decreases s.down.Checked?, Left(s.down), RestLen(s.down), Phase(s.down)
  {
    hide NextDown, Demand, Spends;
    if OwnStep(s).Some? {
      CoveredStays(cfg, s);
      var t := NextDown(cfg, s, OwnStep(s).value).value;
      OwnStepDecreases(cfg, s);
      EnoughWindowFlushes(cfg, t);
      SpendsTrans(cfg, s, t, Drive(cfg, t));
    } else {
      SpendsNothing(cfg, s);
    }
  }

  /** Everything parsed off the stream has been sent, rewritten. */
  predicate Delivered(cfg: Config, t: State, sid: nat) {
    PayloadOn(t.log.downOut, sid) == Flatten(Rewrite(t.log.Taken(sid), None, cfg.edit))
  }

  /** Whenever both windows cover the demand, in any reachable state of any run, the pump can go on
      alone to a state where everything parsed off each stream has been sent, rewritten. */
  lemma EnoughWindowDelivers(cfg: Config, s: State, sid: nat)
    requires Reachable(cfg, s) && Covered(cfg, s)
    ensures var t := Drive(cfg, s);
            && Reachable(cfg, t) && t.down.Reading? && Spends(cfg, s, t)
            && (sid !in t.log.rawData ==> Delivered(cfg, t, sid))
  {
    hide Covered, Rewrite, PayloadOn, Flatten, NextUp, NextDown, Drive, Spends;
    assert Ledger.Jobs(s.down) by { CoveredJobs(cfg, s); }
    EnoughWindowFlushes(cfg, s);
    DriveStops(cfg, s);
    var t := Drive(cfg, s);
    var a: seq<Step> :| Run(cfg, START, a) == Some(s);
    var b: seq<Step> :| Run(cfg, s, b) == Some(t);
    RunAppend(cfg, START, a, b);
    RunKeepsContent(cfg, a + b);
    if sid !in t.log.rawData {
      AllSent(cfg, t, sid);
    }
  }

  lemma AllSent(cfg: Config, t: State, sid: nat)
    requires ContentInv(cfg, t) && Covered(cfg, t) && t.down.Reading? && sid !in t.log.rawData
    ensures Delivered(cfg, t, sid)
  {
    hide Rewrite, PayloadOn, Flatten, Demand;
    var ms := t.log.Taken(sid);
    assert OutputOk(cfg, t, sid) && !t.log.lost;
    assert Begun(ms, []) == ms;
    assert PayloadOn(t.log.downOut, sid) + [] == PayloadOn(t.log.downOut, sid);
  }

  /** In totals: all connection credit covers what was spent and is still in hand, and the initial window
      and all stream credit since the mark cover what was spent on the marked stream and is in hand. */
  predicate CreditCovers(cfg: Config, s: State) {
    && WINDOW + Ledger.ConnCredit(s.log.upIn) >= s.log.spent + Demand(cfg, s)
    && s.sh.initWin + s.log.strmCredit >= s.log.strmSpent + Demand(cfg, s)
  }

  /** The pump is at work: the session is open, the connection whole, and the client's end not reached. */
  predicate AtWork(s: State) {
    !s.sh.closed && !s.broken && !s.down.Failing? && !s.down.Done?
  }

  /** Enough credit in total, in a session with one mark: whatever the pump is doing, asleep or not, it can
      go on alone to a state where everything parsed off each stream has been sent, rewritten; a writer of
      the marked stream is then not even asleep.  Left out are only writers of other streams that slept
      through the mark. */
  lemma EnoughCreditDelivers(cfg: Config, s: State, sid: nat)
    requires Reachable(cfg, s) && AtWork(s) && s.log.marks == 1 && CreditCovers(cfg, s)
    requires Asleep(s.down) && s.down.job.Raw? ==> !s.log.late
    ensures !Asleep(s.down) && Ledger.Jobs(s.down)
    ensures var t := Drive(cfg, s);
            && Reachable(cfg, t) && t.down.Reading?
            && (sid !in t.log.rawData ==> Delivered(cfg, t, sid))
  {
    CreditOpensWindows(cfg, s);
    EnoughWindowDelivers(cfg, s, sid);
  }

  lemma CreditOpensWindows(cfg: Config, s: State)
    requires Reachable(cfg, s) && AtWork(s) && s.log.marks == 1 && CreditCovers(cfg, s)
    requires Asleep(s.down) && s.down.job.Raw? ==> !s.log.late
    ensures Covered(cfg, s)
  {
    hide Rewrite, Flatten, Messages;
    Ledger.ReachableKeeps(cfg, s);
  }

  lemma CoveredJobs(cfg: Config, s: State)
    requires Covered(cfg, s)
    ensures Ledger.Jobs(s.down)
  {
  }

  /** A writer of target data that is asleep, with one mark in the run, has been granted too little:
      connection or stream credit does not cover what was spent plus the rest of its message. */
  lemma AsleepMeansShortCredit(cfg: Config, s: State)
    requires Reachable(cfg, s) && Asleep(s.down) && s.down.job.Msg? && s.log.marks <= 1
    ensures || WINDOW + Ledger.ConnCredit(s.log.upIn) < s.log.spent + |s.down.job.rest|
            || s.sh.initWin + s.log.strmCredit < s.log.strmSpent + |s.down.job.rest|
  {
    Ledger.ReachableKeeps(cfg, s);
  }

  /** Once closed, always closed: after `markClosed` every wait comes back false. */
  lemma ClosedIsFinal(cfg: Config, s: State, step: Step)
    requires s.sh.closed && Next(cfg, s, step).Some?
    ensures var t := Next(cfg, s, step).value;
            && t.sh.closed
            && (step.CheckWindow? ==> !t.down.Approved? && !Asleep(t.down))
  {
    if IsUpStep(step) {
      UpSameContent(cfg, s, step);
    } else {
      hide Readable, Messages, EmittedFor, Noted, Chunk, Opened;
    }
  }

  /** What the gate of `waitWindow` means for DATA of other streams: it waits for the marked streams' own
      window.  After any number of marks it is let through exactly if it fits the connection window and
      what the daemon has granted the marked streams since the last mark and they have not used up. */
  lemma ForeignDataGranted(cfg: Config, s: State)
    requires Reachable(cfg, s) && !s.sh.closed
    requires s.down.Waiting? && !s.down.asleep && s.down.job.Raw?
    ensures var n := s.down.job.Need();
            var left := s.sh.initWin + s.log.strmCredit - s.log.strmSpent - (if s.log.marks == 0 then WINDOW else 0);
            Check(s, s.down.job).down.Approved? <==> n <= s.sh.connWin && n <= left
  {
    Ledger.ReachableKeeps(cfg, s);
  }

  /** Before any mark the stream window is not yet open: DATA of other streams is let through only
      as far as SETTINGS has raised the initial window above 65535. */
  lemma ForeignDataBeforeMark(cfg: Config, s: State)
    requires Reachable(cfg, s) && s.log.marks == 0 && !s.sh.closed
    requires s.down.Waiting? && !s.down.asleep && s.down.job.Raw?
    ensures var n := s.down.job.Need();
            Check(s, s.down.job).down.Approved? <==> n <= s.sh.connWin && n <= s.sh.initWin - WINDOW
  {
    Ledger.ReachableKeeps(cfg, s);
  }
}
