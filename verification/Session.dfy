/** The session splice as a state machine: two pumps that interleave at lock regions, frame reads
    and frame writes (internal/proxy/sessionsplice.go). */
module Session {
  import opened Bytes
  import opened Records
  import opened Fsutil
  import opened Grpc
  import opened Stream
  import opened Http2
  import opened Headers

  /** What the code gets from outside: the edit of the configuration snapshot, and HPACK. */
  datatype Config = Config(edit: Option<Edit>, hpack: Hpack)

  /** `defaultFlowWindow`. */
  const WINDOW: int := 65535

  /** The fields guarded by the mutex. */
  datatype Shared = Shared(
    closed: bool, targets: set<nat>, stat: map<nat, Stat>, buf: map<nat, bytes>,
    connWin: int, strmWin: int, initWin: int)
  {
    /** `waitWindow` has to wait for `n` bytes. */
    predicate Short(n: nat) {
      connWin < n || strmWin < n
    }

    function Buffered(sid: nat): bytes {
      if sid in buf then buf[sid] else []
    }

    function StatFor(sid: nat): Option<Stat> {
      if sid in stat then Some(stat[sid]) else None
    }
  }

  /** `initWindows`: the stream window is left at zero until a stream is marked. */
  const NEW_SESSION := Shared(false, {}, map[], map[], WINDOW, 0, WINDOW)

  /** `markTarget`. */
  function Marked(sh: Shared, sid: nat): Shared {
    sh.(targets := sh.targets + {sid}, strmWin := sh.initWin)
  }

  /** `applyWindowUpdate`. */
  function Credited(sh: Shared, sid: nat, inc: nat): Shared {
    if sid == 0 then sh.(connWin := sh.connWin + inc)
    else if sid in sh.targets then sh.(strmWin := sh.strmWin + inc)
    else sh
  }

  predicate CreditWakes(sh: Shared, sid: nat) {
    sid == 0 || sid in sh.targets
  }

  /** One SETTINGS entry names SETTINGS_INITIAL_WINDOW_SIZE. */
  predicate IsWindowSetting(entry: bytes)
    requires |entry| >= 6
  {
    entry[0] == 0 && entry[1] == 4
  }

  /** `applySettings`: every whole six-byte entry, in order. */
  function Configured(sh: Shared, payload: bytes): Shared
    decreases |payload|
  {
    if |payload| < 6 then sh
    else if IsWindowSetting(payload) then
      var val := BE32(payload[2..6]);
      Configured(sh.(initWin := val, strmWin := sh.strmWin + (val - sh.initWin)), payload[6..])
    else Configured(sh, payload[6..])
  }

  predicate SettingsWake(payload: bytes)
    decreases |payload|
  {
    |payload| >= 6 && (IsWindowSetting(payload) || SettingsWake(payload[6..]))
  }

  /** Settings move the two initial-window quantities by the same amount, and nothing else. */
  lemma {:induction false} ConfiguredEffect(sh: Shared, payload: bytes)
    ensures var sh' := Configured(sh, payload);
            && sh' == sh.(initWin := sh'.initWin, strmWin := sh'.strmWin)
            && sh'.strmWin - sh.strmWin == sh'.initWin - sh.initWin
            && (sh.initWin >= 0 ==> sh'.initWin >= 0)
            && (!SettingsWake(payload) ==> sh' == sh)
    decreases |payload|
  {
    hide BE32;
    if |payload| >= 6 {
      if IsWindowSetting(payload) {
        var val := BE32(payload[2..6]);
        ConfiguredEffect(sh.(initWin := val, strmWin := sh.strmWin + (val - sh.initWin)), payload[6..]);
      } else {
        ConfiguredEffect(sh, payload[6..]);
      }
    }
  }

  /** `spendWindow`. */
  function Spent(sh: Shared, sid: nat, n: nat): Shared {
    sh.(connWin := sh.connWin - n, strmWin := if sid in sh.targets then sh.strmWin - n else sh.strmWin)
  }

  /** The stored Stat after a message of stream `sid`. */
  function Noted(sh: Shared, sid: nat, m: bytes): (r: Shared)
    ensures r == sh.(stat := r.stat)
  {
    if IsStat(m) then sh.(stat := sh.stat[sid := Seen(m).value.st])
    else if IsData(m) then sh.(stat := sh.stat - {sid})
    else sh
  }

  /** Where `pumpUpstream` is. */
  datatype Up = UpReading | UpWriting(f: Frame) | UpFailed | UpDone

  /** What a window is being waited for: a foreign frame to forward, or the rest of a message. */
  datatype Job =
    | Raw(f: Frame)
    | Msg(sid: nat, rest: bytes, isStat: bool, todo: seq<bytes>)
  {
    /** The bytes asked for. */
    function Need(): nat {
      if Raw? then |f.payload| else if |rest| <= MAX_FRAME then |rest| else MAX_FRAME
    }

    function Stream(): nat {
      if Raw? then f.sid else sid
    }
  }

  /** Where `pumpDownstream` is. */
  datatype Down =
    | Reading
    | Checked(f: Frame, target: bool)
    | Forwarding(f: Frame)
    | Emitting(sid: nat, todo: seq<bytes>)
    | Waiting(job: Job, asleep: bool)
    | Approved(job: Job)
    | Written(job: Job)
    | Failing
    | Done

  /** History and ledgers: nothing in the code depends on them. */
  datatype Log = Log(
    upIn: seq<Frame>, upOut: seq<Frame>,       // read from the daemon, written to the client
    downIn: seq<Frame>, downOut: seq<Frame>,   // read from the client, written to the daemon
    rawData: set<nat>,                         // streams with DATA not recognised as target data
    taken: map<nat, seq<bytes>>,               // messages parsed off each target stream
    lost: bool,                                // some writeMessage has failed
    spent: nat,                                // bytes taken from the connection window
    strmCredit: int, strmSpent: int,           // stream window traffic since the last mark
    marks: nat,                                // number of marks
    lowered: nat,                              // by how much SETTINGS has lowered the initial window, in all
    late: bool,                                // a mark happened while the writer was asleep
    obeys: bool)                               // the client sent DATA only on opened streams
  {
    function Taken(sid: nat): seq<bytes> {
      if sid in taken then taken[sid] else []
    }
  }

  datatype State = State(sh: Shared, asm: Assembly, seen: seq<Block>, up: Up, down: Down, broken: bool, log: Log)

  const NEW_LOG := Log([], [], [], [], {}, map[], false, 0, 0, 0, 0, 0, false, true)

  const START := State(NEW_SESSION, NO_BLOCK, [], UpReading, Reading, false, NEW_LOG)

  predicate HasJob(d: Down) {
    d.Waiting? || d.Approved? || d.Written?
  }

  /** Bytes of a message piece that are written but not yet taken from the windows. */
  function Unspent(d: Down): nat {
    if d.Written? then d.job.Need() else 0
  }

  predicate Asleep(d: Down) {
    d.Waiting? && d.asleep
  }

  /** `winCond.Broadcast`: a sleeping waiter will check again. */
  function Woken(d: Down): Down {
    if Asleep(d) then d.(asleep := false) else d
  }

  function Wake(s: State, really: bool): State {
    if really then s.(down := Woken(s.down)) else s
  }

  function Mark(s: State, sid: nat): State {
    s.(sh := Marked(s.sh, sid),
       log := s.log.(marks := s.log.marks + 1, strmCredit := 0, strmSpent := 0,
                     late := s.log.late || Asleep(s.down)))
  }

  /** The verdict of `identify` on a block, given the blocks before it. */
  predicate Verdict(cfg: Config, before: seq<Block>, b: Block) {
    match cfg.hpack(before, b)
    case None => false
    case Some(hdrs) => IsDockerfileSync(hdrs)
  }

  function Identify(cfg: Config, s: State, b: Block): State {
    var s' := s.(seen := s.seen + [b]);
    if Verdict(cfg, s.seen, b) then Mark(s', b.sid) else s'
  }

  function Credit(s: State, sid: nat, inc: nat): State {
    Wake(s.(sh := Credited(s.sh, sid, inc),
            log := if sid != 0 && sid in s.sh.targets then s.log.(strmCredit := s.log.strmCredit + inc) else s.log),
         CreditWakes(s.sh, sid))
  }

  function Drop(before: int, after: int): nat {
    if after < before then before - after else 0
  }

  function Settle(s: State, payload: bytes): State {
    var sh := Configured(s.sh, payload);
    Wake(s.(sh := sh, log := s.log.(lowered := s.log.lowered + Drop(s.sh.initWin, sh.initWin))), SettingsWake(payload))
  }

  /** The `switch f.typ` of `pumpUpstream`. */
  function Trace(cfg: Config, s: State, f: Frame): State {
    if f.typ == HEADERS || f.typ == CONTINUATION then
      var s' := s.(asm := Assemble(s.asm, f).0);
      if Assemble(s.asm, f).1.Some? then Identify(cfg, s', Assemble(s.asm, f).1.value) else s'
    else if f.typ == SETTINGS && !Bit(f.flags, 1) then Settle(s, f.payload)
    else if f.typ == WINDOW_UPDATE && |f.payload| >= 4 then Credit(s, f.sid, BE32(f.payload[..4]) % TWO31)
    else s
  }

  /** `markClosed`. */
  function CloseSession(s: State): State {
    Wake(s.(sh := s.sh.(closed := true)), true)
  }

  /** The client obeys the protocol: it sends DATA only on a stream whose HEADERS it has received. */
  predicate Opened(upOut: seq<Frame>, sid: nat) {
    exists i | 0 <= i < |HeaderBlocks(upOut)| :: HeaderBlocks(upOut)[i].sid == sid
  }

  /** `readH2F` and `isTarget`. */
  function ReadClient(s: State, f: Frame): State {
    var target := f.sid in s.sh.targets;
    s.(down := Checked(f, target),
       log := s.log.(downIn := s.log.downIn + [f],
                     rawData := if f.typ == DATA && !target then s.log.rawData + {f.sid} else s.log.rawData,
                     obeys := s.log.obeys && (f.typ == DATA ==> Opened(s.log.upOut, f.sid))))
  }

  /** Buffer target data; with a whole number of messages in the buffer, take them out. */
  function Buffer(s: State, f: Frame): State {
    var b := s.sh.Buffered(f.sid) + f.payload;
    match Messages(b, MAX_GRPC)
    case None => s.(sh := s.sh.(buf := s.sh.buf[f.sid := b]), down := Reading)
    case Some(ms) =>
      s.(sh := s.sh.(buf := s.sh.buf[f.sid := []]), down := Emitting(f.sid, ms),
         log := s.log.(taken := s.log.taken[f.sid := s.log.Taken(f.sid) + ms]))
  }

  function Route(s: State, f: Frame, target: bool): State {
    if target && f.typ == DATA then Buffer(s, f)
    else if f.typ == DATA && f.sid != 0 && f.payload != [] then s.(down := Waiting(Raw(f), false))
    else s.(down := Forwarding(f))
  }

  /** The head of the loop in `writeMessage`. */
  function Loop(job: Job): Down
    requires job.Msg?
  {
    if job.rest == [] then Emitting(job.sid, job.todo) else Waiting(job, false)
  }

  /** The next message of `emitMessages`. */
  function Take(cfg: Config, s: State, sid: nat, todo: seq<bytes>): State {
    if todo == [] then s.(down := Reading)
    else
      var m := todo[0];
      s.(sh := Noted(s.sh, sid, m),
         down := Loop(Msg(sid, EmittedFor(m, s.sh.StatFor(sid), cfg.edit), IsStat(m), todo[1..])))
  }

  /** A wait or write came to nothing.  `emitMessages` ignores that for a Stat message. */
  function GiveUp(s: State, job: Job): State {
    if job.Raw? then s.(down := Failing)
    else s.(down := if job.isStat then Emitting(job.sid, job.todo) else Failing, log := s.log.(lost := true))
  }

  /** The locked part of `waitWindow`. */
  function Check(s: State, job: Job): State {
    if s.sh.Short(job.Need()) && !s.sh.closed then s.(down := Waiting(job, true), log := s.log.(late := false))
    else if s.sh.closed then GiveUp(s, job)
    else s.(down := Approved(job))
  }

  function Spend(s: State, job: Job): State {
    var n, sid := job.Need(), job.Stream();
    s.(sh := Spent(s.sh, sid, n),
       log := s.log.(spent := s.log.spent + n,
                     strmSpent := if sid in s.sh.targets then s.log.strmSpent + n else s.log.strmSpent),
       down := if job.Raw? then Forwarding(job.f) else Loop(job.(rest := job.rest[job.Need()..])))
  }

  function Send(s: State, f: Frame, next: Down): State {
    s.(down := next, log := s.log.(downOut := s.log.downOut + [f]))
  }

  /** The frame an approved writer puts on the wire. */
  function Chunk(job: Job): Frame
    requires job.Msg?
  {
    DataFrame(job.sid, job.rest[..job.Need()])
  }

  datatype Step =
    | UpRead(f: Frame) | UpEnd | UpWrite(ok: bool) | UpClose
    | Read(f: Frame) | End | RouteFrame | TakeMessage | CheckWindow | SpendBytes | Write(ok: bool) | Close

  predicate IsUpStep(step: Step) {
    step.UpRead? || step.UpEnd? || step.UpWrite? || step.UpClose?
  }

  /** A step of the upstream pump, if it is at that point. */
  function NextUp(cfg: Config, s: State, step: Step): Option<State>
    requires IsUpStep(step)
  {
    match step
    case UpRead(f) =>
      if s.up.UpReading? && Readable(f) then
        var s' := Trace(cfg, s, f);
        Some(s'.(up := UpWriting(f), log := s'.log.(upIn := s'.log.upIn + [f])))
      else None
    case UpEnd => if s.up.UpReading? then Some(s.(up := UpFailed)) else None
    case UpWrite(ok) =>
      if !s.up.UpWriting? then None
      else if ok then Some(s.(up := UpReading, log := s.log.(upOut := s.log.upOut + [s.up.f])))
      else Some(s.(up := UpFailed))
    case UpClose => if s.up.UpFailed? then Some(CloseSession(s).(up := UpDone)) else None
  }

  /** A step of the downstream pump, if it is at that point.  A broken connection stays broken. */
  function NextDown(cfg: Config, s: State, step: Step): Option<State>
    requires !IsUpStep(step)
  {
    match step
    case Read(f) => if s.down.Reading? && Readable(f) then Some(ReadClient(s, f)) else None
    case End => if s.down.Reading? then Some(s.(down := Failing)) else None
    case RouteFrame => if s.down.Checked? then Some(Route(s, s.down.f, s.down.target)) else None
    case TakeMessage => if s.down.Emitting? then Some(Take(cfg, s, s.down.sid, s.down.todo)) else None
    case CheckWindow => if s.down.Waiting? && !s.down.asleep then Some(Check(s, s.down.job)) else None
    case SpendBytes =>
      if (s.down.Approved? && s.down.job.Raw?) || s.down.Written? then Some(Spend(s, s.down.job)) else None
    case Write(ok) =>
      if ok && s.broken then None
      else if s.down.Forwarding? then
        if ok then Some(Send(s, s.down.f, Reading)) else Some(s.(down := Failing, broken := true))
      else if s.down.Approved? && s.down.job.Msg? then
        if ok then Some(Send(s, Chunk(s.down.job), Written(s.down.job)))
        else Some(GiveUp(s.(broken := true), s.down.job))
      else None
    case Close => if s.down.Failing? then Some(CloseSession(s).(down := Done)) else None
  }

  function Next(cfg: Config, s: State, step: Step): Option<State> {
    if IsUpStep(step) then NextUp(cfg, s, step) else NextDown(cfg, s, step)
  }

  /** The state after a schedule of steps, if each was possible when its turn came. */
  function Run(cfg: Config, s: State, steps: seq<Step>): Option<State> {
    if steps == [] then Some(s)
    else match Run(cfg, s, steps[..|steps| - 1])
      case None => None
      case Some(s') => Next(cfg, s', steps[|steps| - 1])
  }

  /** Reached by some schedule of the two pumps, whatever the peers send and the connections do. */
  ghost predicate Reachable(cfg: Config, s: State) {
    exists steps: seq<Step> :: Run(cfg, START, steps) == Some(s)
  }

  lemma {:induction false} RunAppend(cfg: Config, s: State, a: seq<Step>, b: seq<Step>)
    requires Run(cfg, s, a).Some?
    ensures Run(cfg, s, a + b) == Run(cfg, Run(cfg, s, a).value, b)
    decreases |b|
  {
    hide Next;
    if b == [] {
      assert a + b == a;
    } else {
      RunAppend(cfg, s, a, b[..|b| - 1]);
      assert (a + b)[..|a + b| - 1] == a + b[..|b| - 1];
    }
  }

  lemma OneStep(cfg: Config, steps: seq<Step>, s: State, step: Step, t: State)
    requires Run(cfg, START, steps) == Some(s) && Next(cfg, s, step) == Some(t)
    ensures Run(cfg, START, steps + [step]) == Some(t)
  {
    hide Next;
    assert (steps + [step])[..|steps|] == steps;
  }

  /** One step further on a run. */
  lemma Onward(cfg: Config, s: State, step: Step) returns (t: State)
    requires Reachable(cfg, s) && Next(cfg, s, step).Some?
    ensures Reachable(cfg, t) && Next(cfg, s, step) == Some(t)
  {
    hide Next;
    var steps: seq<Step> :| Run(cfg, START, steps) == Some(s);
    t := Next(cfg, s, step).value;
    OneStep(cfg, steps, s, step, t);
  }

  lemma StartReachable(cfg: Config)
    ensures Reachable(cfg, START)
  {
    assert Run(cfg, START, []) == Some(START);
  }
}
