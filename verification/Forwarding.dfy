/** Everything that is not the data of a marked stream goes through as it came: the client's other frames
    reach the daemon in order, unchanged (internal/proxy/sessionsplice.go, lines 43-47 and 404-443). */
module Forwarding {
  import opened Bytes
  import opened Grpc
  import opened Stream
  import opened Http2
  import opened Session
  import opened StreamContent
  import StreamLedger

  predicate IsOther(f: Frame, ts: set<nat>) {
    !(f.typ == DATA && f.sid in ts)
  }

  /** The frames other than DATA on the streams `ts`. */
  function Others(fs: seq<Frame>, ts: set<nat>): seq<Frame> {
    if fs == [] then []
    else
      var f := fs[|fs| - 1];
      Others(fs[..|fs| - 1], ts) + if IsOther(f, ts) then [f] else []
  }

  /** The other frame in the pump's hands. */
  function OtherHeld(d: Down, ts: set<nat>): seq<Frame> {
    if HeldFrame(d).Some? && IsOther(HeldFrame(d).value, ts) then [HeldFrame(d).value] else []
  }

  /** Other frames written and held are the other frames read; when the pump has given up, the one it
      held is dropped. */
  predicate OthersOk(s: State, ts: set<nat>) {
    if s.down.Failing? || s.down.Done? then Others(s.log.downOut, ts) <= Others(s.log.downIn, ts)
    else Others(s.log.downOut, ts) + OtherHeld(s.down, ts) == Others(s.log.downIn, ts)
  }

  ghost predicate ForwardInv(s: State) {
    forall ts: set<nat> | s.sh.targets <= ts :: OthersOk(s, ts)
  }

  lemma OthersSnoc(fs: seq<Frame>, f: Frame, ts: set<nat>)
    ensures Others(fs + [f], ts) == Others(fs, ts) + if IsOther(f, ts) then [f] else []
  {
    hide IsOther;
    assert (fs + [f])[..|fs|] == fs;
  }

  lemma UpKeeps(cfg: Config, s: State, step: Step)
    requires ForwardInv(s) && IsUpStep(step) && NextUp(cfg, s, step).Some?
    ensures ForwardInv(NextUp(cfg, s, step).value)
  {
    hide NextUp, Others, IsOther;
    UpSameContent(cfg, s, step);
    StreamLedger.UpHas(cfg, s, step);
    var t := NextUp(cfg, s, step).value;
    assert s.sh.targets <= t.sh.targets;
    assert HeldFrame(t.down) == HeldFrame(s.down);
    forall ts: set<nat> | t.sh.targets <= ts ensures OthersOk(t, ts) {
      assert OthersOk(s, ts);
    }
  }

  /** A step that neither reads nor writes keeps the other frame it holds, drops data of a marked stream,
      or gives up. */
  predicate KeepsHand(s: State, t: State, ts: set<nat>) {
    && t.log.downIn == s.log.downIn && t.log.downOut == s.log.downOut
    && (!t.down.Failing? && !t.down.Done? ==>
          !s.down.Failing? && !s.down.Done? && OtherHeld(t.down, ts) == OtherHeld(s.down, ts))
  }

  lemma KeptHand(s: State, t: State, ts: set<nat>)
    requires OthersOk(s, ts) && KeepsHand(s, t, ts)
    ensures OthersOk(t, ts)
  {
    hide Others, OtherHeld;
  }

  lemma RouteHand(s: State, f: Frame, target: bool, ts: set<nat>)
    requires s.down == Checked(f, target) && (target ==> f.sid in ts)
    ensures KeepsHand(s, Route(s, f, target), ts)
  {
    hide Messages;
  }

  lemma TakeHand(cfg: Config, s: State, sid: nat, todo: seq<bytes>, ts: set<nat>)
    requires s.down == Emitting(sid, todo)
    ensures KeepsHand(s, Take(cfg, s, sid, todo), ts)
  {
    hide EmittedFor, Noted, IsOther;
  }

  lemma CheckHand(s: State, job: Job, ts: set<nat>)
    requires s.down == Waiting(job, false)
    ensures KeepsHand(s, Check(s, job), ts)
  {
    hide IsOther;
  }

  lemma SpendHand(s: State, job: Job, ts: set<nat>)
    requires (s.down == Approved(job) && job.Raw?) || (s.down == Written(job) && job.Msg?)
    ensures KeepsHand(s, Spend(s, job), ts)
  {
    hide IsOther;
  }

  lemma ReadHand(s: State, f: Frame, ts: set<nat>)
    requires OthersOk(s, ts) && s.down.Reading?
    ensures OthersOk(ReadClient(s, f), ts)
  {
    hide Others, IsOther, Opened;
    OthersSnoc(s.log.downIn, f, ts);
    assert Others(s.log.downOut, ts) + [] == Others(s.log.downOut, ts);
  }

  lemma SendHand(s: State, f: Frame, next: Down, ts: set<nat>)
    requires OthersOk(s, ts) && !s.down.Failing? && !s.down.Done? && !next.Failing? && !next.Done?
    requires OtherHeld(s.down, ts) == (if IsOther(f, ts) then [f] else []) && OtherHeld(next, ts) == []
    ensures OthersOk(Send(s, f, next), ts)
  {
    hide Others, OtherHeld, IsOther;
    OthersSnoc(s.log.downOut, f, ts);
    var all := Others(s.log.downOut + [f], ts);
    assert all + [] == all;
  }

  lemma ChunkIsMarked(job: Job, ts: set<nat>)
    requires job.Msg? && job.sid in ts
    ensures !IsOther(Chunk(job), ts)
  {
    hide Image;
  }

  lemma WriteHand(cfg: Config, s: State, ok: bool, ts: set<nat>)
    requires OthersOk(s, ts) && NextDown(cfg, s, Write(ok)).Some?
    requires HeldStream(s.down).Some? ==> HeldStream(s.down).value in ts
    ensures OthersOk(NextDown(cfg, s, Write(ok)).value, ts)
  {
    hide Others, IsOther, Chunk;
    if !ok {
      hide OthersOk;
      var t := NextDown(cfg, s, Write(ok)).value;
      assert KeepsHand(s, t, ts);
      KeptHand(s, t, ts);
    } else if s.down.Forwarding? {
      SendHand(s, s.down.f, Reading, ts);
    } else {
      ChunkIsMarked(s.down.job, ts);
      SendHand(s, Chunk(s.down.job), Written(s.down.job), ts);
    }
  }

  lemma StepKeeps(cfg: Config, s: State, step: Step, ts: set<nat>)
    requires OthersOk(s, ts) && s.sh.targets <= ts && StreamLedger.HeldMarked(s) && HandsOk(s.down, s.log.rawData)
    requires !IsUpStep(step) && NextDown(cfg, s, step).Some?
    ensures OthersOk(NextDown(cfg, s, step).value, ts)
  {
    hide Readable, Route, Take, Check, Spend, ReadClient, OthersOk, KeepsHand, Chunk, GiveUp;
    var t := NextDown(cfg, s, step).value;
    match step
    case Read(f) => ReadHand(s, f, ts);
    case RouteFrame => RouteHand(s, s.down.f, s.down.target, ts); KeptHand(s, t, ts);
    case TakeMessage => TakeHand(cfg, s, s.down.sid, s.down.todo, ts); KeptHand(s, t, ts);
    case CheckWindow => CheckHand(s, s.down.job, ts); KeptHand(s, t, ts);
    case SpendBytes => SpendHand(s, s.down.job, ts); KeptHand(s, t, ts);
    case Write(ok) => WriteHand(cfg, s, ok, ts);
    case End => EndHand(s, t, ts);
    case Close => EndHand(s, t, ts);
  }

  lemma EndHand(s: State, t: State, ts: set<nat>)
    requires OthersOk(s, ts) && t.log.downIn == s.log.downIn && t.log.downOut == s.log.downOut
    requires t.down.Failing? || t.down.Done?
    ensures OthersOk(t, ts)
  {
    hide Others, OtherHeld;
  }

  lemma {:induction false} RunForwards(cfg: Config, steps: seq<Step>)
    requires Run(cfg, START, steps).Some?
    ensures ForwardInv(Run(cfg, START, steps).value)
  {
    hide NextUp, NextDown, OthersOk, StreamLedger.HeldMarked, HandsOk;
    if steps == [] {
      forall ts: set<nat> ensures OthersOk(START, ts) { StartOk(ts); }
    } else {
      var before := steps[..|steps| - 1];
      RunForwards(cfg, before);
      var s, step := Run(cfg, START, before).value, steps[|steps| - 1];
      if IsUpStep(step) {
        UpKeeps(cfg, s, step);
      } else {
        HandsAreMarked(cfg, before);
        TargetsStay(cfg, s, step);
        forall ts: set<nat> | s.sh.targets <= ts ensures OthersOk(NextDown(cfg, s, step).value, ts) {
          StepKeeps(cfg, s, step, ts);
        }
      }
    }
  }

  lemma StartOk(ts: set<nat>)
    ensures OthersOk(START, ts)
  {
  }

  lemma TargetsStay(cfg: Config, s: State, step: Step)
    requires !IsUpStep(step) && NextDown(cfg, s, step).Some?
    ensures NextDown(cfg, s, step).value.sh.targets == s.sh.targets
  {
    hide Readable, Opened, Chunk, Noted, EmittedFor, Messages;
  }

  lemma HandsAreMarked(cfg: Config, steps: seq<Step>)
    requires Run(cfg, START, steps).Some?
    ensures var s := Run(cfg, START, steps).value; StreamLedger.HeldMarked(s) && HandsOk(s.down, s.log.rawData)
  {
    hide NextUp, NextDown;
    StreamLedger.RunKeepsSpent(cfg, steps);
  }

  /** The client's other frames, HEADERS, SETTINGS, trailers and DATA of other streams, reach the daemon in
      order, unchanged and none left out: at every moment of every run those written are the first of those
      read, and between two client frames they are all of them.  It holds for the marked streams and for
      any larger set. */
  lemma OthersVerbatim(cfg: Config, s: State, ts: set<nat>)
    requires Reachable(cfg, s) && s.sh.targets <= ts
    ensures Others(s.log.downOut, ts) <= Others(s.log.downIn, ts)
    ensures s.down.Reading? ==> Others(s.log.downOut, ts) == Others(s.log.downIn, ts)
  {
    hide Others, IsOther, NextUp, NextDown;
    var steps :| Run(cfg, START, steps) == Some(s);
    RunForwards(cfg, steps);
    assert OthersOk(s, ts);
    assert s.down.Reading? ==> OtherHeld(s.down, ts) == [];
  }
}
