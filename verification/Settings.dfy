/** What SETTINGS_INITIAL_WINDOW_SIZE comes to: the initial window the splice keeps is the one the daemon
    has announced last, read off the daemon's frames (internal/proxy/sessionsplice.go, lines 196-209;
    RFC 7540 sections 6.5 and 6.9.2). */
module Settings {
  import opened Bytes
  import opened Http2
  import opened Headers
  import opened Session
  import Ledger

  /** Entry `i` of a SETTINGS payload is there in full and sets the initial window. */
  predicate SetsWindow(p: bytes, i: nat) {
    6 * i + 6 <= |p| && p[6 * i] == 0 && p[6 * i + 1] == 4
  }

  function ValueAt(p: bytes, i: nat): int
    requires 6 * i + 6 <= |p|
  {
    BE32(p[6 * i + 2..6 * i + 6])
  }

  ghost predicate LastSetting(p: bytes, i: nat) {
    SetsWindow(p, i) && forall j: nat | i < j :: !SetsWindow(p, j)
  }

  predicate ValueIs(p: bytes, i: nat, q: bytes, j: nat) {
    6 * i + 6 <= |p| && 6 * j + 6 <= |q| && ValueAt(p, i) == ValueAt(q, j)
  }

  /** Entries of the rest of a payload are the next entries of the whole. */
  lemma EntriesShift(p: bytes, i: nat)
    requires |p| >= 6
    ensures SetsWindow(p, i + 1) <==> SetsWindow(p[6..], i)
    ensures SetsWindow(p, i + 1) ==> ValueIs(p, i + 1, p[6..], i)
  {
    hide BE32;
    if 6 * i + 12 <= |p| {
      assert p[6..][6 * i + 2..6 * i + 6] == p[6 * i + 8..6 * i + 12];
    }
  }

  lemma NoEntries(p: bytes)
    requires |p| < 6
    ensures forall i: nat :: !SetsWindow(p, i)
  {
  }

  /** `applySettings` by index over the whole entries: without one that sets the initial window nothing
      changes; otherwise it is the value of the last such entry, and both windows move by the difference. */
  lemma {:induction false} ConfiguredIs(sh: Shared, p: bytes)
    ensures (forall i: nat :: !SetsWindow(p, i)) ==> Configured(sh, p) == sh
    ensures forall i: nat | LastSetting(p, i) :: Configured(sh, p).initWin == ValueAt(p, i)
    ensures (exists i: nat :: SetsWindow(p, i)) ==> exists i: nat :: LastSetting(p, i)
    ensures SettingsWake(p) <==> exists i: nat :: SetsWindow(p, i)
    ensures var t := Configured(sh, p);
            t == sh.(initWin := t.initWin, strmWin := sh.strmWin + (t.initWin - sh.initWin))
    decreases |p|
  {
    ConfiguredEffect(sh, p);
    if |p| < 6 {
      NoEntries(p);
    } else {
      var rest := p[6..];
      var next := if IsWindowSetting(p) then
          sh.(initWin := BE32(p[2..6]), strmWin := sh.strmWin + (BE32(p[2..6]) - sh.initWin)) else sh;
      ConfiguredIs(next, rest);
      assert Configured(sh, p) == Configured(next, rest);
      assert SettingsWake(p) <==> IsWindowSetting(p) || SettingsWake(rest);
      FirstEntry(p);
      hide Configured, SettingsWake, IsWindowSetting, SetsWindow, ValueAt, BE32;
      ByEntries(p);
      if exists i: nat :: SetsWindow(rest, i) {
        var i: nat :| LastSetting(rest, i);
        assert LastSetting(p, i + 1);
        forall k: nat | LastSetting(p, k) ensures k == i + 1 { OneLast(p, k, i + 1); }
      } else if SetsWindow(p, 0) {
        assert LastSetting(p, 0);
        forall k: nat | LastSetting(p, k) ensures k == 0 { OneLast(p, k, 0); }
      }
    }
  }

  lemma FirstEntry(p: bytes)
    requires |p| >= 6
    ensures SetsWindow(p, 0) <==> IsWindowSetting(p)
    ensures ValueAt(p, 0) == BE32(p[2..6])
  {
  }

  /** Every entry is the first one or one of the rest. */
  lemma ByEntries(p: bytes)
    requires |p| >= 6
    ensures forall i: nat :: SetsWindow(p[6..], i) <==> SetsWindow(p, i + 1)
    ensures forall i: nat | SetsWindow(p, i) && i > 0 :: SetsWindow(p[6..], i - 1)
    ensures forall i: nat :: LastSetting(p[6..], i) ==> LastSetting(p, i + 1)
    ensures forall i: nat :: SetsWindow(p[6..], i) ==> SetsWindow(p, i + 1) && ValueIs(p, i + 1, p[6..], i)
  {
    hide SetsWindow, ValueAt;
    var rest := p[6..];
    forall i: nat ensures SetsWindow(rest, i) <==> SetsWindow(p, i + 1) { EntriesShift(p, i); }
    forall i: nat | SetsWindow(p, i) && i > 0 ensures SetsWindow(rest, i - 1) { EntriesShift(p, i - 1); }
    forall i: nat | SetsWindow(rest, i) ensures SetsWindow(p, i + 1) && ValueIs(p, i + 1, rest, i) {
      EntriesShift(p, i);
    }
    forall i: nat | LastSetting(rest, i) ensures LastSetting(p, i + 1) {
      forall j: nat | i + 1 < j ensures !SetsWindow(p, j) { EntriesShift(p, j - 1); }
    }
  }

  lemma OneLast(p: bytes, i: nat, j: nat)
    requires LastSetting(p, i) && LastSetting(p, j)
    ensures i == j
  {
    hide SetsWindow;
  }

  // ----- over the daemon's frames

  /** The value of the last of the first `n` entries that sets the initial window. */
  function LastValue(p: bytes, n: nat): Option<int> {
    if n == 0 then None else if SetsWindow(p, n - 1) then Some(ValueAt(p, n - 1)) else LastValue(p, n - 1)
  }

  /** What a frame announces: SETTINGS that are not an acknowledgement. */
  function Announced(f: Frame): Option<int> {
    if f.typ == SETTINGS && !Bit(f.flags, 1) then LastValue(f.payload, |f.payload| / 6) else None
  }

  /** The initial window the daemon has announced last; 65535 if it has announced none. */
  function DaemonWindow(fs: seq<Frame>): int {
    if fs == [] then 65535
    else
      var w := Announced(fs[|fs| - 1]);
      if w.Some? then w.value else DaemonWindow(fs[..|fs| - 1])
  }

  /** By how much the daemon has lowered it, frame by frame. */
  function Lowerings(fs: seq<Frame>): nat {
    if fs == [] then 0
    else
      var before := fs[..|fs| - 1];
      Lowerings(before)
      + if DaemonWindow(fs) < DaemonWindow(before) then DaemonWindow(before) - DaemonWindow(fs) else 0
  }

  lemma {:induction false} LastValueIs(p: bytes, n: nat)
    requires 6 * n <= |p|
    ensures match LastValue(p, n)
            case None => forall i: nat | i < n :: !SetsWindow(p, i)
            case Some(v) => exists i: nat :: i < n && SetsWindow(p, i) && ValueAt(p, i) == v
                              && forall j: nat | i < j < n :: !SetsWindow(p, j)
  {
    hide SetsWindow, ValueAt;
    if n > 0 {
      LastValueIs(p, n - 1);
      if SetsWindow(p, n - 1) {
        assert 6 * (n - 1) + 6 <= |p|;
      }
    }
  }

  lemma BeyondTheEnd(p: bytes, i: nat)
    requires i >= |p| / 6
    ensures !SetsWindow(p, i)
  {
  }

  /** The settings of one frame, read from its end, are what `applySettings` makes of it. */
  lemma ConfiguredLast(sh: Shared, p: bytes)
    ensures var v := LastValue(p, |p| / 6);
            Configured(sh, p).initWin == if v.Some? then v.value else sh.initWin
  {
    var n := |p| / 6;
    LastValueIs(p, n);
    ConfiguredIs(sh, p);
    hide Configured, SettingsWake, SetsWindow, ValueAt, LastValue;
    forall i: nat | i >= n ensures !SetsWindow(p, i) { BeyondTheEnd(p, i); }
    var v := LastValue(p, n);
    if v.Some? {
      var i: nat :| i < n && SetsWindow(p, i) && ValueAt(p, i) == v.value
                    && forall j: nat | i < j < n :: !SetsWindow(p, j);
      assert LastSetting(p, i);
    }
  }

  /** The splice's initial window, and what it has booked as lowered, are the daemon's. */
  predicate WindowInv(s: State) {
    s.sh.initWin == DaemonWindow(s.log.upIn) && s.log.lowered == Lowerings(s.log.upIn)
  }

  lemma WindowSnoc(fs: seq<Frame>, f: Frame)
    ensures DaemonWindow(fs + [f]) == if Announced(f).Some? then Announced(f).value else DaemonWindow(fs)
    ensures Lowerings(fs + [f]) ==
            Lowerings(fs)
            + if DaemonWindow(fs + [f]) < DaemonWindow(fs) then DaemonWindow(fs) - DaemonWindow(fs + [f]) else 0
  {
    hide Announced;
    assert (fs + [f])[..|fs|] == fs;
  }

  /** Only SETTINGS move the initial window and the ledger of lowerings. */
  lemma TraceWindow(cfg: Config, s: State, f: Frame)
    ensures var t := Trace(cfg, s, f);
            && t.sh.initWin == (if Announced(f).Some? then Announced(f).value else s.sh.initWin)
            && t.log.lowered == s.log.lowered
               + (if t.sh.initWin < s.sh.initWin then s.sh.initWin - t.sh.initWin else 0)
            && t.log.upIn == s.log.upIn
  {
    hide BE32, Assemble, Verdict, Configured, SettingsWake, Bit, LastValue;
    if f.typ == SETTINGS && !Bit(f.flags, 1) {
      ConfiguredLast(s.sh, f.payload);
    }
  }

  lemma UpKeeps(cfg: Config, s: State, step: Step)
    requires WindowInv(s) && IsUpStep(step) && NextUp(cfg, s, step).Some?
    ensures WindowInv(NextUp(cfg, s, step).value)
  {
    hide Trace, Readable, DaemonWindow, Lowerings, Announced;
    if step.UpRead? {
      TraceWindow(cfg, s, step.f);
      WindowSnoc(s.log.upIn, step.f);
    }
  }

  lemma DownKeeps(cfg: Config, s: State, step: Step)
    requires WindowInv(s) && !IsUpStep(step) && NextDown(cfg, s, step).Some?
    ensures WindowInv(NextDown(cfg, s, step).value)
  {
    hide DaemonWindow, Lowerings;
    if !step.SpendBytes? {
      Ledger.DownNeutral(cfg, s, step);
      hide NextDown;
    }
  }

  lemma {:induction false} RunKeepsWindow(cfg: Config, steps: seq<Step>)
    requires Run(cfg, START, steps).Some?
    ensures WindowInv(Run(cfg, START, steps).value)
  {
    hide NextUp, NextDown;
    if steps != [] {
      var before := steps[..|steps| - 1];
      RunKeepsWindow(cfg, before);
      hide WindowInv;
      var s := Run(cfg, START, before).value;
      if IsUpStep(steps[|steps| - 1]) {
        UpKeeps(cfg, s, steps[|steps| - 1]);
      } else {
        DownKeeps(cfg, s, steps[|steps| - 1]);
      }
    }
  }

  /** In every reachable state the initial window is the value of the last SETTINGS_INITIAL_WINDOW_SIZE
      entry in the daemon's SETTINGS frames that acknowledge nothing, 65535 if there is none. */
  lemma InitialWindowIsDaemons(cfg: Config, s: State)
    requires Reachable(cfg, s)
    ensures s.sh.initWin == DaemonWindow(s.log.upIn)
    ensures s.log.lowered == Lowerings(s.log.upIn)
  {
    hide NextUp, NextDown;
    var steps :| Run(cfg, START, steps) == Some(s);
    RunKeepsWindow(cfg, steps);
  }
}
