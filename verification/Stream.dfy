/** The rewriting of one DiffCopy stream, message by message: the decisions of `emitMessages`
    (internal/proxy/sessionsplice.go) as a fold over the stream's messages. */
module Stream {
  import opened Bytes
  import opened Records
  import opened Fsutil
  import opened Grpc

  /** What `emitMessages` sees in a message; None for messages it does not look into (compressed,
      too short, or not a parsable packet). */
  function Seen(m: bytes): Option<Packet> {
    if |m| < 5 || Bit(m[0], 1) then None else Classified(m[5..])
  }

  predicate IsStat(m: bytes) {
    Seen(m).Some? && Seen(m).value.StatPacket?
  }

  predicate IsData(m: bytes) {
    Seen(m).Some? && Seen(m).value.DataPacket?
  }

  /** The remembered Stat after a message: a Stat sets it, a Data consumes it. */
  function NextStat(m: bytes, cur: Option<Stat>): Option<Stat> {
    if IsStat(m) then Some(Seen(m).value.st) else if IsData(m) then None else cur
  }

  /** The message that is written in place of `m`. */
  function EmittedFor(m: bytes, cur: Option<Stat>, edit: Option<Edit>): bytes {
    if IsData(m) && cur.Some? && DiffCopyRewrite(m[5..], cur, edit).changed
    then Framed(m[0], DiffCopyRewrite(m[5..], cur, edit).out)
    else m
  }

  /** The Stat remembered after all of `ms`. */
  function StatAfter(ms: seq<bytes>, cur: Option<Stat>): Option<Stat> {
    if ms == [] then cur else StatAfter(ms[1..], NextStat(ms[0], cur))
  }

  /** The stateful rewrite of a whole message sequence. */
  function Rewrite(ms: seq<bytes>, cur: Option<Stat>, edit: Option<Edit>): (out: seq<bytes>)
    ensures |out| == |ms|
  {
    if ms == [] then [] else [EmittedFor(ms[0], cur, edit)] + Rewrite(ms[1..], NextStat(ms[0], cur), edit)
  }

  lemma RewriteCons(m: bytes, ms: seq<bytes>, cur: Option<Stat>, edit: Option<Edit>)
    ensures StatAfter([m] + ms, cur) == StatAfter(ms, NextStat(m, cur))
    ensures Rewrite([m] + ms, cur, edit) == [EmittedFor(m, cur, edit)] + Rewrite(ms, NextStat(m, cur), edit)
  {
    hide EmittedFor, NextStat;
    assert ([m] + ms)[1..] == ms;
  }

  lemma {:induction false} RewriteAppend(a: seq<bytes>, b: seq<bytes>, cur: Option<Stat>, edit: Option<Edit>)
    ensures StatAfter(a + b, cur) == StatAfter(b, StatAfter(a, cur))
    ensures Rewrite(a + b, cur, edit) == Rewrite(a, cur, edit) + Rewrite(b, StatAfter(a, cur), edit)
  {
    hide EmittedFor, NextStat;
    if a == [] {
      assert a + b == b;
    } else {
      hide *;
      RewriteAppend(a[1..], b, NextStat(a[0], cur), edit);
      RewriteCons(a[0], a[1..], cur, edit);
      RewriteCons(a[0], a[1..] + b, cur, edit);
      assert [a[0]] + a[1..] == a;
      Assoc([a[0]], a[1..], b);
      var after := NextStat(a[0], cur);
      Assoc([EmittedFor(a[0], cur, edit)], Rewrite(a[1..], after, edit), Rewrite(b, StatAfter(a[1..], after), edit));
    }
  }

  /** The state and the output at one position, as seen from the start of the stream. */
  lemma {:induction false} RewriteAt(ms: seq<bytes>, k: nat, cur: Option<Stat>, edit: Option<Edit>)
    requires k < |ms|
    ensures Rewrite(ms, cur, edit)[k] == EmittedFor(ms[k], StatAfter(ms[..k], cur), edit)
  {
    hide EmittedFor, NextStat;
    if k > 0 {
      RewriteAt(ms[1..], k - 1, NextStat(ms[0], cur), edit);
      assert ms[..k][1..] == ms[1..][..k - 1];
    }
  }

  /** The most recent Stat-or-Data message before position `k` is the Stat at position `j`. */
  predicate LastIsStat(ms: seq<bytes>, j: int, k: int) {
    && 0 <= j < k <= |ms| && IsStat(ms[j])
    && forall i | j < i < k :: !IsStat(ms[i]) && !IsData(ms[i])
  }

  /** The remembered Stat is exactly that of the most recent Stat-or-Data, if that was a Stat. */
  lemma {:induction false} StatAfterIs(ms: seq<bytes>, k: nat)
    requires k <= |ms|
    ensures match StatAfter(ms[..k], None)
            case Some(st) => exists j :: LastIsStat(ms, j, k) && Seen(ms[j]) == Some(StatPacket(st))
            case None => forall j :: !LastIsStat(ms, j, k)
    decreases k
  {
    hide Classified;
    if k > 0 {
      StatAfterIs(ms, k - 1);
      var m := ms[k - 1];
      RewriteAppend(ms[..k - 1], [m], None, None);
      assert ms[..k - 1] + [m] == ms[..k];
      assert StatAfter([m], StatAfter(ms[..k - 1], None)) == NextStat(m, StatAfter(ms[..k - 1], None));
      var before := StatAfter(ms[..k - 1], None);
      if IsStat(m) {
        assert LastIsStat(ms, k - 1, k);
      } else if IsData(m) {
        forall j ensures !LastIsStat(ms, j, k) {
        }
      } else if before.Some? {
        var j :| LastIsStat(ms, j, k - 1) && Seen(ms[j]) == Some(StatPacket(before.value));
        assert LastIsStat(ms, j, k);
      } else {
        forall j ensures !LastIsStat(ms, j, k) {
          assert !LastIsStat(ms, j, k - 1);
        }
      }
    }
  }

  /** Which Stat licenses the rewrite of message `k`: the most recent Stat-or-Data before it, a
      Stat that names a Dockerfile of exactly the size of the Data. */
  predicate LicensedBy(ms: seq<bytes>, j: int, k: int, edit: Option<Edit>) {
    && k < |ms| && LastIsStat(ms, j, k) && IsData(ms[k])
    && Editable(ms[k][5..], Some(Seen(ms[j]).value.st), edit)
  }

  /** A message is rewritten exactly if some earlier Stat licenses it. */
  lemma ChangedIffLicensed(ms: seq<bytes>, k: nat, edit: Option<Edit>)
    requires k < |ms| && |Rewrite(ms, None, edit)[k]| < MAX_LEN
    ensures Rewrite(ms, None, edit)[k] != ms[k] <==> exists j :: LicensedBy(ms, j, k, edit)
  {
    var cur := StatAfter(ms[..k], None);
    RewriteAt(ms, k, None, edit);
    StatAfterIs(ms, k);
    hide Classified, Editable, Licenses;
    if IsData(ms[k]) && cur.Some? {
      var p := ms[k][5..];
      var j0 :| LastIsStat(ms, j0, k) && Seen(ms[j0]) == Some(StatPacket(cur.value));
      forall j ensures LicensedBy(ms, j, k, edit) <==> j == j0 && Editable(p, cur, edit) {
        if LastIsStat(ms, j, k) && j != j0 { OneLastStat(ms, j, j0, k); }
      }
      assert LicensedBy(ms, j0, k, edit) <==> Editable(p, cur, edit);
      ChangeIsVisible(ms[k], cur, edit);
    }
  }

  lemma OneLastStat(ms: seq<bytes>, i: int, j: int, k: int)
    requires LastIsStat(ms, i, k) && LastIsStat(ms, j, k)
    ensures i == j
  {
  }

  lemma ChangeIsVisible(m: bytes, cur: Option<Stat>, edit: Option<Edit>)
    requires IsData(m) && cur.Some? && |EmittedFor(m, cur, edit)| < MAX_LEN
    ensures EmittedFor(m, cur, edit) != m <==> Editable(m[5..], cur, edit)
  {
    var r := DiffCopyRewrite(m[5..], cur, edit);
    assert r.changed <==> Editable(m[5..], cur, edit);
    if r.changed {
      FrameParts(m[0], r.out);
      assert r.out == Framed(m[0], r.out)[5..];
      DiffCopyChangedIff(m[5..], cur, edit);
    }
  }

  /** Each Stat licenses at most one rewrite. */
  lemma OneRewritePerStat(ms: seq<bytes>, j: int, k: int, k': int, edit: Option<Edit>)
    requires LicensedBy(ms, j, k, edit) && LicensedBy(ms, j, k', edit)
    ensures k == k'
  {
    hide Classified, Editable;
  }

  /** Rewriting keeps every message framed, flags untouched, so long as lengths fit 32 bits. */
  lemma RewriteIsFramed(ms: seq<bytes>, k: nat, cur: Option<Stat>, edit: Option<Edit>)
    requires k < |ms| && IsMessage(ms[k], MAX_GRPC)
    requires |Rewrite(ms, cur, edit)[k]| < 5 + TWO32
    ensures IsMessage(Rewrite(ms, cur, edit)[k], UNCAPPED)
    ensures Rewrite(ms, cur, edit)[k][0] == ms[k][0]
  {
    RewriteAt(ms, k, cur, edit);
    var m := ms[k];
    hide IsData;
    var st := StatAfter(ms[..k], cur);
    if EmittedFor(m, st, edit) == m {
      CapMonotone(m, MAX_GRPC, UNCAPPED);
    } else {
      FrameIsMessage(m[0], DiffCopyRewrite(m[5..], st, edit).out, UNCAPPED);
    }
  }
}
