/** What the `/grpc` filter does to a whole stream, for every sequence of buffer sizes and short reads:
    message-by-message rewriting outside tar mode, conservation of the archive in tar mode. */
module PullStream {
  import opened Bytes
  import opened Io
  import opened Grpc
  import opened PullReader

  /** A caller that reads to the end, with whatever buffer sizes it likes and reading on after an
      error: it gets all pending bytes, and an error exactly if the input is cut short. */
  method ReadAll(r: GrpcRewriteReader) returns (all: bytes, errors: nat)
    requires r.Valid()
    modifies r, r.next
    ensures r.Valid() && all == old(r.Pending()) && errors == if old(r.WillFail()) then 1 else 0
  {
    hide *;
    all, errors := [], 0;
    while true
      invariant r.Valid() && all + r.Pending() == old(r.Pending())
      invariant errors + (if r.WillFail() then 1 else 0) == if old(r.WillFail()) then 1 else 0
      decreases |r.Pending()|, r.WillFail()
    {
      var size: nat :| size > 0;
      var p := new byte[size](_ => 0);
      ghost var before := r.Pending();
      var n, err := r.Read(p);
      if err == EOF {
        assert all + [] == all;
        return;
      }
      if err == UnexpectedEOF {
        errors := errors + 1;
      } else {
        assert all + before == all + p[..n] + r.Pending();
        all := all + p[..n];
      }
    }
  }

  predicate Headed(ms: seq<bytes>) {
    forall i | 0 <= i < |ms| :: |ms[i]| >= 5
  }

  /** Whole messages, one after the other. */
  ghost function Fold(tgt: Option<Target>, tar: Tar, ms: seq<bytes>): (bytes, Tar)
    requires Headed(ms)
    decreases |ms|
  {
    if ms == [] then ([], tar)
    else
      var first := OnMessage(tgt, tar, ms[0]);
      var rest := Fold(tgt, first.1, ms[1..]);
      (first.0 + rest.0, rest.1)
  }

  lemma Heads(ms: seq<bytes>, cap: nat)
    requires AllMessages(ms, cap)
    ensures Headed(ms)
  {
  }

  lemma TailCons(tgt: Option<Target>, tar: Tar, m: bytes, rest: bytes)
    requires IsMessage(m, MAX_GRPC)
    ensures Tail(tgt, m + rest, tar) == OnMessage(tgt, tar, m).0 + Tail(tgt, rest, OnMessage(tgt, tar, m).1)
    ensures CutShort(m + rest) == CutShort(rest)
  {
    hide OnMessage, BE32;
    var hdr := m[..5];
    assert hdr + (m[5..] + rest) == m + rest && (m + rest)[1..5] == m[1..5];
    assert hdr + m[5..] == m;
    MessageRead(tgt, m + rest, tar, hdr, m[5..], rest);
  }

  /** Whole messages in front are handled one by one; the rest follows. */
  lemma {:induction false} TailOfMessages(tgt: Option<Target>, tar: Tar, ms: seq<bytes>, rest: bytes)
    requires AllMessages(ms, MAX_GRPC) && Headed(ms)
    ensures Tail(tgt, Flatten(ms) + rest, tar) == Fold(tgt, tar, ms).0 + Tail(tgt, rest, Fold(tgt, tar, ms).1)
    ensures CutShort(Flatten(ms) + rest) == CutShort(rest)
    decreases |ms|
  {
    hide Tail, CutShort, OnMessage, IsMessage;
    if ms == [] {
      assert Flatten(ms) + rest == rest && [] + Tail(tgt, rest, tar) == Tail(tgt, rest, tar);
    } else {
      var first := OnMessage(tgt, tar, ms[0]);
      TailOfMessages(tgt, first.1, ms[1..], rest);
      TailCons(tgt, tar, ms[0], Flatten(ms[1..]) + rest);
      assert Flatten(ms) + rest == ms[0] + (Flatten(ms[1..]) + rest);
      var more := Fold(tgt, first.1, ms[1..]);
      assert first.0 + (more.0 + Tail(tgt, rest, more.1)) == first.0 + more.0 + Tail(tgt, rest, more.1);
    }
  }

  /** The whole messages at the front of any input. */
  function Whole(input: bytes): (ms: seq<bytes>)
    decreases |input|
  {
    match FirstMessage(input, MAX_GRPC)
    case None => []
    case Some(m) => [m] + Whole(input[|m|..])
  }

  /** What follows them: nothing, a message cut short, or one over the cap and all behind it. */
  function Left(input: bytes): bytes
    decreases |input|
  {
    match FirstMessage(input, MAX_GRPC)
    case None => input
    case Some(m) => Left(input[|m|..])
  }

  /** Every input splits into whole messages and a rest that does not begin with one. */
  lemma {:induction false} InputSplits(input: bytes)
    ensures Flatten(Whole(input)) + Left(input) == input
    ensures AllMessages(Whole(input), MAX_GRPC) && FirstMessage(Left(input), MAX_GRPC).None?
    decreases |input|
  {
    hide FirstMessage, IsMessage;
    if FirstMessage(input, MAX_GRPC).Some? {
      var m := FirstMessage(input, MAX_GRPC).value;
      InputSplits(input[|m|..]);
      assert Whole(input)[1..] == Whole(input[|m|..]);
      assert input == m + input[|m|..];
      assert m + (Flatten(Whole(input[|m|..])) + Left(input)) == m + Flatten(Whole(input[|m|..])) + Left(input);
    } else {
      assert [] + input == input;
    }
  }

  predicate Oversized(left: bytes) {
    |left| >= 5 && Declared(left) > MAX_GRPC
  }

  /** The part of a message over the cap that goes out. */
  function Overflow(left: bytes): bytes {
    if !Oversized(left) then []
    else if |left| < 5 + Declared(left) then left else left[..5 + Declared(left)]
  }

  lemma TailOfRest(tgt: Option<Target>, tar: Tar, left: bytes)
    requires FirstMessage(left, MAX_GRPC).None?
    ensures Tail(tgt, left, tar) ==
            if Oversized(left) && |left| >= 5 + Declared(left) then Overflow(left) else Overflow(left) + AtEnd(tgt, tar)
  {
    hide AtEnd, BE32;
    assert [] + AtEnd(tgt, tar) == AtEnd(tgt, tar);
  }

  /** When the reader reports that its input is cut short, for every input: exactly if what is left behind
      the whole messages is neither nothing, nor a message over the cap, nor a bare header. */
  lemma {:induction false} CutShortIff(input: bytes)
    ensures CutShort(input) <==> var left := Left(input); left != [] && !Oversized(left) && |left| != 5
  {
    InputSplits(input);
    var ms, left := Whole(input), Left(input);
    var none: Option<Target> := None;
    Heads(ms, MAX_GRPC);
    TailOfMessages(none, NO_TAR, ms, left);
    LeftCutShort(left);
  }

  lemma LeftCutShort(left: bytes)
    requires FirstMessage(left, MAX_GRPC).None?
    ensures CutShort(left) <==> left != [] && !Oversized(left) && |left| != 5
  {
    hide BE32;
    assert |left| >= 5 && Declared(left) <= MAX_GRPC ==> |left| < 5 + Declared(left);
  }

  // ----- outside tar mode

  ghost function ReframedAll(tgt: Option<Target>, ms: seq<bytes>): seq<bytes>
    requires Headed(ms)
  {
    seq(|ms|, i requires 0 <= i < |ms| => Reframed(tgt, ms[i]))
  }

  lemma {:induction false} PlainFold(tgt: Option<Target>, ms: seq<bytes>)
    requires Headed(ms) && !TarMode(tgt)
    ensures Fold(tgt, NO_TAR, ms) == (Flatten(ReframedAll(tgt, ms)), NO_TAR)
  {
    hide Reframed, TarMode;
    if ms != [] {
      PlainFold(tgt, ms[1..]);
      assert ReframedAll(tgt, ms)[1..] == ReframedAll(tgt, ms[1..]);
    }
  }

  lemma NothingAtEnd(tgt: Option<Target>, tar: Tar)
    requires !TarMode(tgt)
    ensures AtEnd(tgt, tar) == []
  {
  }

  /** Any input outside tar mode: each whole message is sent on rewritten, then what there is of a
      message over the cap; all that follows, and a message cut short, is dropped. */
  lemma PlainOutput(tgt: Option<Target>, input: bytes)
    requires !TarMode(tgt)
    ensures Headed(Whole(input))
    ensures Tail(tgt, input, NO_TAR) == Flatten(ReframedAll(tgt, Whole(input))) + Overflow(Left(input))
  {
    hide Tail, TarMode, Fold, AtEnd, FirstMessage, Oversized, Declared, Overflow, IsMessage;
    InputSplits(input);
    Heads(Whole(input), MAX_GRPC);
    PlainFold(tgt, Whole(input));
    TailOfMessages(tgt, NO_TAR, Whole(input), Left(input));
    TailOfRest(tgt, NO_TAR, Left(input));
    NothingAtEnd(tgt, NO_TAR);
    assert Overflow(Left(input)) + [] == Overflow(Left(input));
  }

  /** A well-formed stream outside tar mode: the output is the per-message rewrite, there is no error,
      and as long as lengths fit 32 bits a receiver gets as many messages, with the same flags, each
      with the rewritten payload. */
  lemma WellFormedOutput(tgt: Option<Target>, input: bytes, ms: seq<bytes>)
    requires !TarMode(tgt) && Messages(input, MAX_GRPC) == Some(ms)
    ensures Headed(ms) && !CutShort(input)
    ensures Tail(tgt, input, NO_TAR) == Flatten(ReframedAll(tgt, ms))
    ensures (forall i | 0 <= i < |ms| :: |Reframed(tgt, ms[i])| < 5 + TWO32) ==>
              && Messages(Tail(tgt, input, NO_TAR), UNCAPPED) == Some(ReframedAll(tgt, ms))
              && forall i | 0 <= i < |ms| ::
                   && ReframedAll(tgt, ms)[i][0] == ms[i][0]
                   && ReframedAll(tgt, ms)[i][5..] == RewritePayload(tgt, ms[i][0], ms[i][5..])
                   && PassedOn(tgt, ms[i][0], ms[i][5..], ReframedAll(tgt, ms)[i][5..])
  {
    hide Tail, TarMode, Fold, AtEnd, RewritePayload, CutShort, Messages, PassedOn;
    MessagesJoin(input, MAX_GRPC);
    Heads(ms, MAX_GRPC);
    PlainFold(tgt, ms);
    TailOfMessages(tgt, NO_TAR, ms, []);
    EndOfInput(tgt, NO_TAR);
    NothingAtEnd(tgt, NO_TAR);
    assert Flatten(ms) + [] == input;
    var outs := ReframedAll(tgt, ms);
    assert Flatten(outs) + [] == Flatten(outs);
    if forall i | 0 <= i < |ms| :: |Reframed(tgt, ms[i])| < 5 + TWO32 {
      forall i | 0 <= i < |ms|
        ensures IsMessage(outs[i], UNCAPPED) && outs[i][0] == ms[i][0]
        ensures outs[i][5..] == RewritePayload(tgt, ms[i][0], ms[i][5..])
        ensures PassedOn(tgt, ms[i][0], ms[i][5..], outs[i][5..])
      {
        PayloadPassedOn(tgt, ms[i][0], ms[i][5..]);
        assert |outs[i]| == |Reframed(tgt, ms[i])|;
        FrameIsMessage(ms[i][0], RewritePayload(tgt, ms[i][0], ms[i][5..]), UNCAPPED);
      }
      MessagesOfJoin(outs, UNCAPPED);
    }
  }

  /** "Fails open" holds with a limit: when no payload is changed the output is a prefix of the input,
      and it is the input exactly if that is whole messages, or whole messages and at the very end
      one over the cap. */
  lemma PassThroughExact(tgt: Option<Target>, input: bytes)
    requires !TarMode(tgt)
    requires forall i | 0 <= i < |Whole(input)| :: |Whole(input)[i]| >= 5 ==>
               RewritePayload(tgt, Whole(input)[i][0], Whole(input)[i][5..]) == Whole(input)[i][5..]
    ensures Tail(tgt, input, NO_TAR) <= input
    ensures Tail(tgt, input, NO_TAR) == input <==>
              var left := Left(input); left == [] || (Oversized(left) && |left| <= 5 + Declared(left))
  {
    hide Tail, TarMode, RewritePayload, FirstMessage, Flatten, Declared;
    PlainOutput(tgt, input);
    InputSplits(input);
    var ms := Whole(input);
    forall i | 0 <= i < |ms| ensures Reframed(tgt, ms[i]) == ms[i] {
      assert IsMessage(ms[i], MAX_GRPC);
      MessageIsFrame(ms[i], MAX_GRPC);
    }
    assert ReframedAll(tgt, ms) == ms;
    SameTail(Flatten(ms), Left(input), Overflow(Left(input)));
  }

  lemma SameTail(a: bytes, x: bytes, y: bytes)
    requires y <= x
    ensures a + y <= a + x && (a + y == a + x <==> |x| == |y|)
  {
  }

  // ----- tar mode

  /** The payloads of a message sequence, joined: the archive it carries. */
  function Payloads(ms: seq<bytes>): bytes
    requires Headed(ms)
  {
    if ms == [] then [] else ms[0][5..] + Payloads(ms[1..])
  }

  lemma {:induction false} PayloadsConcat(a: seq<bytes>, b: seq<bytes>)
    requires Headed(a) && Headed(b)
    ensures Headed(a + b) && Payloads(a + b) == Payloads(a) + Payloads(b)
  {
    if a == [] {
      assert a + b == b;
    } else {
      PayloadsConcat(a[1..], b);
      assert (a + b)[1..] == a[1..] + b;
    }
  }

  /** The pieces of an archive are messages, and carry it. */
  lemma {:induction false} PiecesCarry(data: bytes)
    ensures AllMessages(AsMessages(data), MAX_GRPC) && Headed(AsMessages(data)) && Payloads(AsMessages(data)) == data
    decreases |data|
  {
    if data != [] {
      var n := if |data| <= CHUNK then |data| else CHUNK;
      var piece := Framed(0, data[..n]);
      FrameIsMessage(0, data[..n], MAX_GRPC);
      PiecesCarry(data[n..]);
      hide IsMessage, Framed;
      assert AsMessages(data) == [piece] + AsMessages(data[n..]);
      assert AsMessages(data)[1..] == AsMessages(data[n..]);
      assert data[..n] + data[n..] == data;
    }
  }

  /** The part of an archive that piece `i` carries. */
  function PieceAt(data: bytes, i: nat): bytes
    requires i * 32768 <= |data|
  {
    data[i * 32768..if (i + 1) * 32768 <= |data| then (i + 1) * 32768 else |data|]
  }

  lemma PieceShift(data: bytes, i: nat)
    requires i > 0 && i * 32768 < |data|
    ensures PieceAt(data[32768..], i - 1) == PieceAt(data, i)
  {
    var lo, hi := i * 32768, if (i + 1) * 32768 <= |data| then (i + 1) * 32768 else |data|;
    SliceOfRest(data, 32768, lo, hi);
    var rest := data[32768..];
    assert (i - 1) * 32768 == lo - 32768 && |rest| == |data| - 32768;
    assert i * 32768 <= |rest| <==> (i + 1) * 32768 <= |data|;
    assert PieceAt(rest, i - 1) == rest[lo - 32768..hi - 32768];
  }

  /** An archive is cut at every multiple of 32768 and nowhere else, each piece an uncompressed message. */
  lemma {:induction false} PiecesAt(data: bytes, i: nat)
    ensures i < |AsMessages(data)| <==> i * 32768 < |data|
    ensures i * 32768 < |data| ==> AsMessages(data)[i] == [0] + PutBE32(|PieceAt(data, i)|) + PieceAt(data, i)
    decreases i
  {
    hide PutBE32;
    if data != [] {
      var n := if |data| <= CHUNK then |data| else CHUNK;
      var rest := data[n..];
      assert AsMessages(data) == [Framed(0, data[..n])] + AsMessages(rest);
      if i > 0 {
        PiecesAt(rest, i - 1);
        hide AsMessages, PieceAt;
        if i * 32768 < |data| { PieceShift(data, i); }
      } else {
        assert PieceAt(data, 0) == data[..n];
      }
    }
  }

  /** The messages sent for one message taken in, in tar mode. */
  function SentFor(tar: Tar, m: bytes): seq<bytes>
    requires |m| >= 5
  {
    if tar.failed then [m] else if |tar.held| + |m[5..]| > MAX_GRPC then AsMessages(tar.held) + [m] else []
  }

  predicate TarOk(tar: Tar) {
    |tar.held| <= MAX_GRPC && (tar.failed ==> tar.held == [])
  }

  /** One message conserves the archive: what is sent, then what is held. */
  lemma OneConserves(tgt: Option<Target>, tar: Tar, m: bytes)
    requires TarMode(tgt) && TarOk(tar) && IsMessage(m, MAX_GRPC)
    ensures var after := OnMessage(tgt, tar, m);
            && TarOk(after.1) && after.0 == Flatten(SentFor(tar, m))
            && AllMessages(SentFor(tar, m), MAX_GRPC) && Headed(SentFor(tar, m))
            && Payloads(SentFor(tar, m)) + after.1.held == tar.held + m[5..]
            && (after.1.failed <==> tar.failed || |tar.held| + |m[5..]| > MAX_GRPC)
  {
    hide TarMode, BE32;
    assert Flatten([m]) == m && Payloads([m]) == m[5..] by {
      assert m + Flatten<byte>([]) == m && [m][1..] == [] && m[5..] + [] == m[5..];
    }
    PiecesCarry(tar.held);
    FlattenSnoc(AsMessages(tar.held), m);
    PayloadsConcat(AsMessages(tar.held), [m]);
  }

  /** All messages sent in tar mode before the end of the stream. */
  ghost function SentForAll(tgt: Option<Target>, tar: Tar, ms: seq<bytes>): seq<bytes>
    requires Headed(ms)
    decreases |ms|
  {
    if ms == [] then [] else SentFor(tar, ms[0]) + SentForAll(tgt, OnMessage(tgt, tar, ms[0]).1, ms[1..])
  }

  /** At every message boundary, across the switch to passing through: the payloads sent followed by
      the bytes held are the payloads taken in, and passing through begins exactly when they exceed
      the cap. */
  lemma {:induction false} TarConserves(tgt: Option<Target>, tar: Tar, ms: seq<bytes>)
    requires TarMode(tgt) && TarOk(tar) && AllMessages(ms, MAX_GRPC) && Headed(ms)
    ensures var after, sent := Fold(tgt, tar, ms), SentForAll(tgt, tar, ms);
            && TarOk(after.1) && after.0 == Flatten(sent)
            && AllMessages(sent, MAX_GRPC) && Headed(sent)
            && Payloads(sent) + after.1.held == tar.held + Payloads(ms)
            && (after.1.failed <==> tar.failed || |tar.held| + |Payloads(ms)| > MAX_GRPC)
            && (!after.1.failed ==> sent == [])
    decreases |ms|
  {
    hide TarMode, IsMessage, OnMessage, AsMessages;
    if ms == [] {
      assert tar.held + [] == tar.held && [] + tar.held == tar.held;
    } else {
      OneConserves(tgt, tar, ms[0]);
      var one := OnMessage(tgt, tar, ms[0]);
      var s1, s2 := SentFor(tar, ms[0]), SentForAll(tgt, one.1, ms[1..]);
      hide SentFor;
      TarConserves(tgt, one.1, ms[1..]);
      FlattenConcat(s1, s2);
      PayloadsConcat(s1, s2);
      Conserved(Payloads(s1), one.1.held, tar.held, ms[0][5..], Payloads(s2), Fold(tgt, one.1, ms[1..]).1.held,
        Payloads(ms[1..]));
    }
  }

  lemma Conserved(p: bytes, h: bytes, t: bytes, x: bytes, q: bytes, r: bytes, y: bytes)
    requires p + h == t + x && q + r == h + y
    ensures (p + q) + r == t + (x + y) && |h| + |p| == |t| + |x|
  {
    assert (p + q) + r == p + (q + r);
    assert p + (h + y) == (p + h) + y;
    assert (t + x) + y == t + (x + y);
  }

  /** A whole stream in tar mode: what goes out is whole messages that carry the rewritten archive if
      the cap was never hit, and otherwise exactly the archive that came in. */
  lemma TarStream(tgt: Option<Target>, input: bytes, ms: seq<bytes>)
    requires TarMode(tgt) && Messages(input, MAX_GRPC) == Some(ms)
    ensures Headed(ms) && !CutShort(input)
    ensures exists outs: seq<bytes> ::
              && Messages(Tail(tgt, input, NO_TAR), MAX_GRPC) == Some(outs) && Headed(outs)
              && Payloads(outs) ==
                   if Payloads(ms) == [] then []
                   else if |Payloads(ms)| <= MAX_GRPC then tgt.value.rewriteTar(Payloads(ms)) else Payloads(ms)
  {
    TarModeHasTarget(tgt);
    hide Tail, TarMode, Fold, AsMessages, CutShort, Messages, SentForAll, IsMessage, Flatten, Payloads;
    MessagesJoin(input, MAX_GRPC);
    Heads(ms, MAX_GRPC);
    TarConserves(tgt, NO_TAR, ms);
    TailOfMessages(tgt, NO_TAR, ms, []);
    assert Flatten(ms) + [] == input;
    var tar, sent := Fold(tgt, NO_TAR, ms).1, SentForAll(tgt, NO_TAR, ms);
    EndOfInput(tgt, tar);
    assert [] + Payloads(ms) == Payloads(ms) && Payloads(sent) + [] == Payloads(sent);
    if tar.failed {
      MessagesOfJoin(sent, MAX_GRPC);
      assert Flatten(sent) + [] == Flatten(sent);
    } else {
      NoneSent(sent);
      assert tar.held == Payloads(ms);
      var outs := if tar.held == [] then [] else AsMessages(tgt.value.rewriteTar(tar.held));
      if tar.held == [] { NoneSent(outs); } else { PiecesCarry(tgt.value.rewriteTar(tar.held)); }
      MessagesOfJoin(outs, MAX_GRPC);
      assert Tail(tgt, input, NO_TAR) == Flatten(outs);
    }
  }

  lemma NoneSent(ms: seq<bytes>)
    requires ms == []
    ensures Flatten(ms) == [] && Headed(ms) && Payloads(ms) == [] && AllMessages(ms, MAX_GRPC)
    ensures forall x: bytes :: [] + x == x
  {
  }

  /** A message over the cap whose bytes are all there. */
  predicate CompleteOversized(left: bytes) {
    Oversized(left) && |left| >= 5 + Declared(left)
  }

  /** Any input in tar mode: the messages sent before the rest, what there is of a message over the cap,
      and then the archive held, unless a message over the cap was complete; payloads sent and bytes
      held are the archive that came in. */
  lemma TarOutput(tgt: Option<Target>, input: bytes)
    requires TarMode(tgt)
    ensures Headed(Whole(input))
    ensures var ms, left := Whole(input), Left(input);
            var sent, tar := SentForAll(tgt, NO_TAR, ms), Fold(tgt, NO_TAR, ms).1;
            && Tail(tgt, input, NO_TAR) ==
                 Flatten(sent) + (Overflow(left) + if CompleteOversized(left) then [] else AtEnd(tgt, tar))
            && AllMessages(sent, MAX_GRPC) && Headed(sent) && Payloads(sent) + tar.held == Payloads(ms)
            && (tar.failed <==> |Payloads(ms)| > MAX_GRPC)
            && (tar.failed ==> tar.held == []) && (!tar.failed ==> sent == [])
  {
    hide Tail, TarMode, Fold, AtEnd, SentForAll, IsMessage, Flatten, Payloads, Declared, FirstMessage, Oversized,
         Overflow;
    InputSplits(input);
    var ms, left := Whole(input), Left(input);
    Heads(ms, MAX_GRPC);
    TarConserves(tgt, NO_TAR, ms);
    TailOfMessages(tgt, NO_TAR, ms, left);
    TailOfRest(tgt, Fold(tgt, NO_TAR, ms).1, left);
    assert [] + Payloads(ms) == Payloads(ms);
    assert Overflow(left) + [] == Overflow(left);
  }

  /** The archive that a receiver gets: the payloads of the whole messages in front. */
  function Received(output: bytes): bytes {
    InputSplits(output);
    Heads(Whole(output), MAX_GRPC);
    Payloads(Whole(output))
  }

  lemma {:induction false} WholeOf(ms: seq<bytes>, rest: bytes)
    requires AllMessages(ms, MAX_GRPC)
    ensures Whole(Flatten(ms) + rest) == ms + Whole(rest)
  {
    hide FirstMessage, IsMessage;
    if ms == [] {
      assert Flatten(ms) + rest == rest;
    } else {
      var more := Flatten(ms[1..]) + rest;
      assert Flatten(ms) + rest == ms[0] + more;
      FirstOf(ms[0], more, MAX_GRPC);
      WholeOf(ms[1..], rest);
      assert (ms[0] + more)[|ms[0]|..] == more;
      assert [ms[0]] + (ms[1..] + Whole(rest)) == ms + Whole(rest);
    }
  }

  lemma ReceivedOf(ms: seq<bytes>, rest: bytes)
    requires AllMessages(ms, MAX_GRPC) && FirstMessage(rest, MAX_GRPC).None?
    ensures Headed(ms) && Received(Flatten(ms) + rest) == Payloads(ms)
  {
    hide FirstMessage, IsMessage, Payloads;
    Heads(ms, MAX_GRPC);
    WholeOf(ms, rest);
    assert ms + [] == ms;
  }

  lemma OversizedStops(left: bytes, more: bytes)
    requires Oversized(left)
    ensures FirstMessage(Overflow(left) + more, MAX_GRPC).None?
  {
    hide BE32;
    assert (Overflow(left) + more)[1..5] == left[1..5];
  }

  /** The archive a stream is to deliver: the rewritten one, or past the cap the one that came in. */
  ghost function Wanted(tgt: Option<Target>, archive: bytes): bytes
    requires TarMode(tgt)
  {
    if archive == [] || |archive| > MAX_GRPC then archive else tgt.value.rewriteTar(archive)
  }

  /** What any tar stream delivers: the archive it is to deliver, except that a message over the cap
      cuts off all that was held back until then. */
  lemma TarDelivered(tgt: Option<Target>, input: bytes)
    requires TarMode(tgt)
    ensures Headed(Whole(input))
    ensures var archive := Payloads(Whole(input));
            Received(Tail(tgt, input, NO_TAR)) ==
            if Oversized(Left(input)) && |archive| <= MAX_GRPC then [] else Wanted(tgt, archive)
  {
    TarModeHasTarget(tgt);
    TarOutput(tgt, input);
    var ms, left := Whole(input), Left(input);
    var sent, tar := SentForAll(tgt, NO_TAR, ms), Fold(tgt, NO_TAR, ms).1;
    var end := if CompleteOversized(left) then [] else AtEnd(tgt, tar);
    hide Tail, Fold, SentForAll, IsMessage, Flatten, Payloads, Declared, FirstMessage, AsMessages, TarMode, Received;
    NoneSent([]);
    assert Payloads(sent) + [] == Payloads(sent);
    if Oversized(left) {
      OversizedStops(left, end);
      ReceivedOf(sent, Overflow(left) + end);
    } else {
      var outs := EndPieces(tgt, tar);
      EndInPieces(tgt, tar);
      NothingIsNoMessage();
      Assoc(Flatten(sent), Flatten(outs), []);
      FlattenConcat(sent, outs);
      AllMessagesJoined(sent, outs);
      PayloadsConcat(sent, outs);
      ReceivedOf(sent + outs, []);
      assert Flatten(sent + outs) + [] == Flatten(sent) + (Overflow(left) + end);
      assert [] + Payloads(outs) == Payloads(outs);
    }
  }

  lemma NothingIsNoMessage()
    ensures FirstMessage([], MAX_GRPC).None?
  {
  }

  lemma AllMessagesJoined(a: seq<bytes>, b: seq<bytes>)
    requires AllMessages(a, MAX_GRPC) && AllMessages(b, MAX_GRPC)
    ensures AllMessages(a + b, MAX_GRPC)
  {
    hide IsMessage;
  }

  /** The pieces that come out at the end of the stream. */
  ghost function EndPieces(tgt: Option<Target>, tar: Tar): seq<bytes>
    requires TarMode(tgt)
  {
    if AtEnd(tgt, tar) == [] then [] else AsMessages(tgt.value.rewriteTar(tar.held))
  }

  /** What comes out at the end carries the rewritten archive. */
  lemma EndInPieces(tgt: Option<Target>, tar: Tar)
    requires TarMode(tgt) && tgt.Some?
    ensures var outs := EndPieces(tgt, tar);
            && AllMessages(outs, MAX_GRPC) && Headed(outs) && Flatten(outs) == AtEnd(tgt, tar)
            && Payloads(outs) == if tar.failed || tar.held == [] then [] else tgt.value.rewriteTar(tar.held)
  {
    hide TarMode, IsMessage;
    var data := tgt.value.rewriteTar(tar.held);
    PiecesCarry(data);
    if AtEnd(tgt, tar) == [] && !tar.failed && tar.held != [] {
      NoPieces(data);
    }
  }

  lemma NoPieces(data: bytes)
    requires Flatten(AsMessages(data)) == []
    ensures data == []
  {
    assert data != [] ==> |Flatten(AsMessages(data))| >= 5;
  }

  /** When the archive survives, for every input in tar mode: exactly if no message over the cap follows,
      or the archive was already past the cap and nothing is held, or there is nothing to deliver. */
  lemma ArchiveSurvivesIff(tgt: Option<Target>, input: bytes)
    requires TarMode(tgt)
    ensures Headed(Whole(input))
    ensures var archive := Payloads(Whole(input));
            Received(Tail(tgt, input, NO_TAR)) == Wanted(tgt, archive) <==>
            !Oversized(Left(input)) || |archive| > MAX_GRPC || Wanted(tgt, archive) == []
  {
    hide Tail, Payloads, Oversized, Received, TarMode, Wanted, Whole, Left;
    TarDelivered(tgt, input);
  }

  /** A message over the cap in tar mode, in bytes: what was held is lost if the message is complete, and
      comes out behind it if it is not. */
  lemma OversizeLosesHeld(tgt: Option<Target>, input: bytes)
    requires TarMode(tgt) && Oversized(Left(input))
    ensures Headed(Whole(input))
    ensures |Payloads(Whole(input))| <= MAX_GRPC ==>
              Tail(tgt, input, NO_TAR) ==
              Overflow(Left(input))
              + if CompleteOversized(Left(input)) then [] else AtEnd(tgt, Tar(Payloads(Whole(input)), false))
  {
    TarOutput(tgt, input);
    var ms := Whole(input);
    var tar := Fold(tgt, NO_TAR, ms).1;
    hide Tail, Fold, SentForAll, Flatten, Payloads, Declared, AtEnd, Overflow, TarMode;
    if |Payloads(ms)| <= MAX_GRPC {
      NoneSent(SentForAll(tgt, NO_TAR, ms));
      assert tar == Tar(Payloads(ms), false);
    }
  }

  /** The output is the input exactly if the messages sent are those taken in and nothing is cut short or
      follows a message over the cap. */
  lemma UnchangedIfSent(tgt: Option<Target>, input: bytes)
    requires TarMode(tgt)
    ensures Headed(Whole(input))
    ensures var ms, left := Whole(input), Left(input);
            var sent, tar := SentForAll(tgt, NO_TAR, ms), Fold(tgt, NO_TAR, ms).1;
            && (Tail(tgt, input, NO_TAR) == input <==>
                if Oversized(left) then sent == ms && |left| <= 5 + Declared(left)
                else sent + EndPieces(tgt, tar) == ms && left == [])
            && (Oversized(left) && |Payloads(ms)| <= MAX_GRPC ==> (sent == ms <==> ms == []))
  {
    TarModeHasTarget(tgt);
    TarOutput(tgt, input);
    InputSplits(input);
    var ms, left := Whole(input), Left(input);
    var sent, tar := SentForAll(tgt, NO_TAR, ms), Fold(tgt, NO_TAR, ms).1;
    NothingIsNoMessage();
    if Oversized(left) {
      OversizedUnchanged(tgt, input, ms, left, sent, tar);
    } else {
      EndInPieces(tgt, tar);
      var outs := EndPieces(tgt, tar);
      hide Tail, Fold, SentForAll, IsMessage, Flatten, Payloads, Declared, FirstMessage, TarMode, AtEnd, EndPieces,
           Oversized;
      FlattenConcat(sent, outs);
      AllMessagesJoined(sent, outs);
      WholeOf(sent + outs, []);
      assert Whole([]) == [] && sent + outs + [] == sent + outs;
      assert Flatten(sent + outs) + [] == Flatten(sent) + ([] + Flatten(outs));
      SameTail(Flatten(ms), left, []);
    }
  }

  lemma OversizedUnchanged(tgt: Option<Target>, input: bytes, ms: seq<bytes>, left: bytes, sent: seq<bytes>, tar: Tar)
    requires TarMode(tgt) && Oversized(left) && AllMessages(sent, MAX_GRPC) && Headed(sent) && Headed(ms)
    requires input == Flatten(ms) + left && Whole(input) == ms
    requires Tail(tgt, input, NO_TAR) == Flatten(sent)
             + (Overflow(left) + if CompleteOversized(left) then [] else AtEnd(tgt, tar))
    requires Payloads(sent) + tar.held == Payloads(ms)
    requires (tar.failed <==> |Payloads(ms)| > MAX_GRPC) && (tar.failed ==> tar.held == [])
             && (!tar.failed ==> sent == [])
    ensures Tail(tgt, input, NO_TAR) == input <==> sent == ms && |left| <= 5 + Declared(left)
    ensures |Payloads(ms)| <= MAX_GRPC ==> (sent == ms <==> ms == [])
  {
    hide Tail, IsMessage, Flatten, Declared, FirstMessage, TarMode, BE32;
    var end := if CompleteOversized(left) then [] else AtEnd(tgt, tar);
    OversizedStops(left, end);
    WholeOf(sent, Overflow(left) + end);
    assert Whole(Overflow(left) + end) == [] && sent + [] == sent;
    if sent == ms {
      assert tar.held == [] by { SameLength(Payloads(ms), tar.held); }
      assert end == [];
      assert Overflow(left) + [] == Overflow(left);
      SameTail(Flatten(ms), left, Overflow(left));
    }
  }

  lemma SameLength(a: bytes, b: bytes)
    requires a + b == a
    ensures b == []
  {
    assert |a + b| == |a| + |b|;
  }

  /** Message `k` takes the archive past the cap. */
  predicate Passes(ms: seq<bytes>, k: nat)
    requires Headed(ms)
  {
    k < |ms| && |Payloads(ms[..k])| <= MAX_GRPC < |Payloads(ms[..k + 1])|
  }

  lemma {:induction false} PassesSomewhere(ms: seq<bytes>, n: nat)
    requires Headed(ms) && n <= |ms| && |Payloads(ms[..n])| > MAX_GRPC
    ensures exists k: nat :: Passes(ms, k)
    decreases n
  {
    hide Payloads;
    assert n > 0 by { assert ms[..0] == []; NoneSent([]); }
    if |Payloads(ms[..n - 1])| > MAX_GRPC {
      PassesSomewhere(ms, n - 1);
    } else {
      assert Passes(ms, n - 1);
    }
  }

  lemma {:induction false} AllSentOn(tgt: Option<Target>, tar: Tar, ms: seq<bytes>)
    requires TarMode(tgt) && tar.failed && tar.held == [] && Headed(ms)
    ensures SentForAll(tgt, tar, ms) == ms
  {
    if ms != [] {
      AllSentOn(tgt, tar, ms[1..]);
      assert [ms[0]] + ms[1..] == ms;
    }
  }

  /** Once the cap is passed at message `k`: the archive so far in pieces, then the messages as they are. */
  lemma {:induction false} SentPast(tgt: Option<Target>, tar: Tar, ms: seq<bytes>, k: nat)
    requires TarMode(tgt) && TarOk(tar) && !tar.failed && Headed(ms) && k < |ms|
    requires |tar.held + Payloads(ms[..k])| <= MAX_GRPC < |tar.held + Payloads(ms[..k + 1])|
    ensures SentForAll(tgt, tar, ms) == AsMessages(tar.held + Payloads(ms[..k])) + ms[k..]
    decreases k
  {
    hide TarMode, AsMessages;
    if k == 0 {
      assert ms[..0] == [] && ms[..1][1..] == [];
      assert Payloads(ms[..1]) == ms[0][5..] + Payloads([]);
      assert tar.held + [] == tar.held;
      AllSentOn(tgt, OnMessage(tgt, tar, ms[0]).1, ms[1..]);
      Assoc(AsMessages(tar.held), [ms[0]], ms[1..]);
      assert [ms[0]] + ms[1..] == ms[0..];
    } else {
      assert ms[..k][1..] == ms[1..][..k - 1] && ms[..k + 1][1..] == ms[1..][..k];
      Assoc(tar.held, ms[0][5..], Payloads(ms[1..][..k - 1]));
      Assoc(tar.held, ms[0][5..], Payloads(ms[1..][..k]));
      var next := Tar(tar.held + ms[0][5..], false);
      assert OnMessage(tgt, tar, ms[0]).1 == next && SentFor(tar, ms[0]) == [];
      SentPast(tgt, next, ms[1..], k - 1);
      assert ms[1..][k - 1..] == ms[k..];
    }
  }

  /** The messages are cut as `chunkAsBytesMessages` cuts an archive. */
  predicate InPieces(ms: seq<bytes>)
    requires Headed(ms)
  {
    ms == AsMessages(Payloads(ms))
  }

  lemma SentPastIff(tgt: Option<Target>, ms: seq<bytes>, k: nat)
    requires TarMode(tgt) && Headed(ms) && Passes(ms, k)
    ensures Headed(ms[..k]) && (SentForAll(tgt, NO_TAR, ms) == ms <==> InPieces(ms[..k]))
  {
    hide TarMode, AsMessages, Payloads, SentForAll;
    var front := ms[..k];
    assert [] + Payloads(front) == Payloads(front) && [] + Payloads(ms[..k + 1]) == Payloads(ms[..k + 1]);
    SentPast(tgt, NO_TAR, ms, k);
    var pieces := AsMessages(Payloads(front));
    assert ms == front + ms[k..];
    if pieces + ms[k..] == ms {
      assert |pieces| == k;
      assert pieces == (pieces + ms[k..])[..k];
    }
  }

  /** Nothing passes the cap: what comes out is the pieces of the rewritten archive. */
  lemma EndPiecesIff(tgt: Option<Target>, tar: Tar, ms: seq<bytes>)
    requires TarMode(tgt) && tgt.Some? && Headed(ms) && tar == Tar(Payloads(ms), false)
    ensures EndPieces(tgt, tar) == ms <==>
            InPieces(ms) && (Payloads(ms) != [] ==> tgt.value.rewriteTar(Payloads(ms)) == Payloads(ms))
  {
    var archive := Payloads(ms);
    var data := tgt.value.rewriteTar(archive);
    EndInPieces(tgt, tar);
    PiecesCarry(data);
    NoneSent([]);
    hide TarMode, Payloads;
    if archive == [] {
      assert AsMessages(archive) == [] && EndPieces(tgt, tar) == [];
    } else if AtEnd(tgt, tar) == [] {
      NoPieces(data);
    }
  }

  /** Nothing is cut short, and nothing follows a message over the cap. */
  predicate CleanEnd(left: bytes) {
    if Oversized(left) then |left| <= 5 + Declared(left) else left == []
  }

  lemma UnchangedBelow(tgt: Option<Target>, input: bytes)
    requires TarMode(tgt) && tgt.Some? && Headed(Whole(input)) && |Payloads(Whole(input))| <= MAX_GRPC
    ensures var ms, left := Whole(input), Left(input);
            var archive := Payloads(ms);
            Tail(tgt, input, NO_TAR) == input <==>
            && CleanEnd(left)
            && if Oversized(left) then ms == []
               else InPieces(ms) && (archive != [] ==> tgt.value.rewriteTar(archive) == archive)
  {
    UnchangedIfSent(tgt, input);
    TarOutput(tgt, input);
    var ms, left := Whole(input), Left(input);
    var sent, tar := SentForAll(tgt, NO_TAR, ms), Fold(tgt, NO_TAR, ms).1;
    hide Tail, Fold, SentForAll, Flatten, Payloads, Declared, TarMode, Oversized, InPieces, AsMessages, EndPieces;
    hide Whole, Left, Overflow, AtEnd, AllMessages;
    NoneSent([]);
    assert [] + tar.held == tar.held;
    assert tar == Tar(Payloads(ms), false);
    assert [] + EndPieces(tgt, tar) == EndPieces(tgt, tar);
    EndPiecesIff(tgt, tar, ms);
  }

  lemma UnchangedPast(tgt: Option<Target>, input: bytes, k: nat)
    requires TarMode(tgt) && Headed(Whole(input)) && Passes(Whole(input), k)
    ensures Tail(tgt, input, NO_TAR) == input <==> InPieces(Whole(input)[..k]) && CleanEnd(Left(input))
  {
    UnchangedIfSent(tgt, input);
    TarOutput(tgt, input);
    var ms, left := Whole(input), Left(input);
    var sent, tar := SentForAll(tgt, NO_TAR, ms), Fold(tgt, NO_TAR, ms).1;
    SentPastIff(tgt, ms, k);
    PastIsLong(ms, k);
    assert tar.failed;
    assert EndPieces(tgt, tar) == [] && sent + [] == sent;
  }

  lemma PastIsLong(ms: seq<bytes>, k: nat)
    requires Headed(ms) && Passes(ms, k)
    ensures |Payloads(ms)| > MAX_GRPC
  {
    hide Payloads;
    PayloadsConcat(ms[..k + 1], ms[k + 1..]);
    assert ms[..k + 1] + ms[k + 1..] == ms;
  }

  /** When a tar stream passes byte for byte, said of the input alone, for every input.  Below the cap: it
      is whole messages cut as the filter cuts them, and the archive is one the rewriting leaves alone;
      with a message over the cap there is nothing before it and nothing behind it.  Past the cap: the
      messages before the one that passes it are cut as the filter cuts them, and nothing is cut short or
      follows a message over the cap. */
  lemma TarUnchangedIff(tgt: Option<Target>, input: bytes)
    requires TarMode(tgt)
    ensures tgt.Some? && Headed(Whole(input))
    ensures var ms, left := Whole(input), Left(input);
            var archive := Payloads(ms);
            var same := Tail(tgt, input, NO_TAR) == input;
            && (|archive| <= MAX_GRPC ==>
                  (same <==>
                   && CleanEnd(left)
                   && if Oversized(left) then ms == []
                      else InPieces(ms) && (archive != [] ==> tgt.value.rewriteTar(archive) == archive)))
            && (|archive| > MAX_GRPC ==> exists k: nat :: Passes(ms, k))
            && forall k: nat | Passes(ms, k) :: (same <==> InPieces(ms[..k]) && CleanEnd(left))
  {
    TarModeHasTarget(tgt);
    TarOutput(tgt, input);
    var ms := Whole(input);
    hide *;
    if |Payloads(ms)| <= MAX_GRPC {
      UnchangedBelow(tgt, input);
    } else {
      assert ms[..|ms|] == ms;
      PassesSomewhere(ms, |ms|);
    }
    forall k: nat | Passes(ms, k)
      ensures Tail(tgt, input, NO_TAR) == input <==> InPieces(ms[..k]) && CleanEnd(Left(input))
    {
      UnchangedPast(tgt, input, k);
    }
  }
}
