/** The filter on the `/grpc` route: a reader that reassembles gRPC messages, rewrites those that carry a
    Dockerfile, and holds back a legacy tar stream until its end (internal/proxy/grpcfilter.go). */
module PullReader {
  import opened Bytes
  import opened Io
  import opened Grpc
  import opened Records

  /** `rewriteTarget`, with the archive rewriting as a function of the archive. */
  datatype Target = Target(path: string, edit: Edit, rewriteTar: bytes -> bytes)

  predicate OccursAt(s: string, t: string, i: nat) {
    i + |t| <= |s| && s[i..i + |t|] == t
  }

  /** `strings.Contains`. */
  predicate Contains(s: string, t: string) {
    exists i | 0 <= i <= |s| - |t| :: OccursAt(s, t, i)
  }

  /** Streams whose payloads are the pieces of one archive. */
  predicate TarMode(tgt: Option<Target>) {
    tgt.Some? && Contains(tgt.value.path, "FileSend/DiffCopy")
  }

  /** `rewriteMessage` leaves these alone: no target, compressed, or a packet stream. */
  predicate Untouched(tgt: Option<Target>, flags: byte) {
    || tgt.None? || Bit(flags, 1)
    || Contains(tgt.value.path, "FileSync/DiffCopy") || Contains(tgt.value.path, "FileSync/TarStream")
  }

  ghost function RewritePayload(tgt: Option<Target>, flags: byte, payload: bytes): bytes {
    if Untouched(tgt, flags) then payload else Rewritten(payload, tgt.value.edit).0
  }

  /** What a payload that is passed on may be: itself without a target, if it is compressed, and on packet
      streams; on every other route the payload with each Dockerfile record in it edited, at every depth. */
  ghost predicate PassedOn(tgt: Option<Target>, flags: byte, payload: bytes, r: bytes) {
    if || tgt.None? || flags % 2 == 1
       || Contains(tgt.value.path, "FileSync/DiffCopy") || Contains(tgt.value.path, "FileSync/TarStream")
    then r == payload
    else |r| < MAX_LEN ==> EditedThroughout(payload, r, tgt.value.edit)
  }

  lemma PayloadPassedOn(tgt: Option<Target>, flags: byte, payload: bytes)
    ensures PassedOn(tgt, flags, payload, RewritePayload(tgt, flags, payload))
  {
    hide Rewritten, EditedThroughout, Contains;
    if tgt.Some? && |Rewritten(payload, tgt.value.edit).0| < MAX_LEN {
      RewriteEditsThroughout(payload, tgt.value.edit);
    }
  }

  /** What is sent on for one message outside tar mode. */
  ghost function Reframed(tgt: Option<Target>, m: bytes): bytes
    requires |m| >= 5
  {
    Framed(m[0], RewritePayload(tgt, m[0], m[5..]))
  }

  /** The piece size of `chunkAsBytesMessages`. */
  const CHUNK: nat := 0x8000

  /** `chunkAsBytesMessages`. */
  function AsMessages(data: bytes): (ms: seq<bytes>) {
    if data == [] then []
    else
      var n := if |data| <= CHUNK then |data| else CHUNK;
      [Framed(0, data[..n])] + AsMessages(data[n..])
  }

  /** The tar held back so far, or the news that it outgrew the cap. */
  datatype Tar = Tar(held: bytes, failed: bool)

  const NO_TAR := Tar([], false)

  /** What one whole message leads to: bytes to hand out, and the tar state after it. */
  ghost function OnMessage(tgt: Option<Target>, tar: Tar, m: bytes): (bytes, Tar)
    requires |m| >= 5
  {
    if !TarMode(tgt) then (Reframed(tgt, m), tar)
    else if tar.failed then (m, tar)
    else if |tar.held| + |m[5..]| > MAX_GRPC then (Flatten(AsMessages(tar.held)) + m, Tar([], true))
    else ([], Tar(tar.held + m[5..], false))
  }

  /** `finishTar`: whether or not the archive changed, it goes out in pieces. */
  function AtEnd(tgt: Option<Target>, tar: Tar): bytes {
    if !TarMode(tgt) || tar.failed || tar.held == [] then []
    else Flatten(AsMessages(tgt.value.rewriteTar(tar.held)))
  }

  /** The declared payload length. */
  function Declared(b: bytes): nat
    requires |b| >= 5
  {
    BE32(b[1..5])
  }

  /** All that is handed out for the input `rest` from here on. */
  ghost function Tail(tgt: Option<Target>, rest: bytes, tar: Tar): bytes
    decreases |rest|
  {
    if |rest| < 5 then AtEnd(tgt, tar)
    else if Declared(rest) > MAX_GRPC then
      if |rest| < 5 + Declared(rest) then rest + AtEnd(tgt, tar) else rest[..5 + Declared(rest)]
    else if |rest| < 5 + Declared(rest) then AtEnd(tgt, tar)
    else
      var n := 5 + Declared(rest);
      OnMessage(tgt, tar, rest[..n]).0 + Tail(tgt, rest[n..], OnMessage(tgt, tar, rest[..n]).1)
  }

  /** The input breaks off inside a header or inside a payload; an end right after a header is not
      noticed. */
  predicate CutShort(rest: bytes)
    decreases |rest|
  {
    if |rest| < 5 then rest != []
    else if Declared(rest) > MAX_GRPC then false
    else if |rest| < 5 + Declared(rest) then |rest| > 5
    else CutShort(rest[5 + Declared(rest)..])
  }

  /** `chunkAsBytesMessages`. */
  method ChunkAsBytesMessages(data: bytes) returns (out: seq<bytes>)
    ensures out == AsMessages(data)
  {
    out := [];
    var d := data;
    while |d| > 0
      invariant out + AsMessages(d) == AsMessages(data)
    {
      var n := if |d| <= CHUNK then |d| else CHUNK;
      var msg := GrpcFrame(0, d[..n]);
      assert out + ([msg[..]] + AsMessages(d[n..])) == out + [msg[..]] + AsMessages(d[n..]);
      out := out + [msg[..]];
      d := d[n..];
    }
  }

  class GrpcRewriteReader {
    const next: Source
    const tgt: Option<Target>
    var out: bytes
    var frame: bytes
    var done: bool
    const tarMode: bool
    var tarBuf: bytes
    var tarFail: bool

    ghost predicate Valid()
      reads this, next
    {
      next.Valid() && tarMode == TarMode(tgt)
    }

    /** All bytes still to be handed out. */
    ghost function Pending(): bytes
      requires Valid()
      reads this, next
    {
      out + if done then [] else Tail(tgt, next.Rest(), Tar(tarBuf, tarFail))
    }

    /** A later Read will report an unexpected end. */
    ghost predicate WillFail()
      requires Valid()
      reads this, next
    {
      !done && CutShort(next.Rest())
    }

    /** `newGRPCRewriteReader`. */
    constructor (next: Source, tgt: Option<Target>)
      requires next.Valid()
      ensures Valid() && this.next == next && this.tgt == tgt
      ensures tarMode <==> tgt.Some? && Contains(tgt.value.path, "FileSend/DiffCopy")
      ensures Pending() == Tail(tgt, next.Rest(), NO_TAR) && (WillFail() <==> CutShort(next.Rest()))
    {
      this.next, this.tgt := next, tgt;
      tarMode := tgt.Some? && Contains(tgt.value.path, "FileSend/DiffCopy");
      out, frame, done, tarBuf, tarFail := [], [], false, [], false;
      new;
      assert [] + Tail(tgt, next.Rest(), NO_TAR) == Tail(tgt, next.Rest(), NO_TAR);
    }

    /** `rewriteMessage`. */
    method RewriteMessage(flags: byte, payload: bytes) returns (r: bytes)
      ensures r == RewritePayload(tgt, flags, payload) && PassedOn(tgt, flags, payload, r)
    {
      PayloadPassedOn(tgt, flags, payload);
      hide PassedOn;
      if tgt.None? || Bit(flags, 1) {
        return payload;
      }
      if Contains(tgt.value.path, "FileSync/DiffCopy") || Contains(tgt.value.path, "FileSync/TarStream") {
        return payload;
      }
      var o, changed := RewriteRecords(payload, tgt.value.edit);
      r := o;
    }

    /** `flushTarBuf`. */
    method FlushTarBuf()
      modifies this`out, this`tarBuf
      ensures out == old(out) + Flatten(AsMessages(old(tarBuf))) && tarBuf == []
    {
      var ms := ChunkAsBytesMessages(tarBuf);
      WriteAll(ms);
      tarBuf := [];
    }

    method WriteAll(ms: seq<bytes>)
      modifies this`out
      ensures out == old(out) + Flatten(ms)
    {
      assert ms[0..] == ms;
      for i := 0 to |ms|
        invariant out + Flatten(ms[i..]) == old(out) + Flatten(ms)
      {
        assert ms[i..][1..] == ms[i + 1..];
        assert out + (ms[i] + Flatten(ms[i + 1..])) == out + ms[i] + Flatten(ms[i + 1..]);
        out := out + ms[i];
      }
      assert out + [] == out;
    }

    /** `handleTarMessage`, with the header of the message in `frame`. */
    method HandleTarMessage(payload: bytes)
      requires TarMode(tgt) && |frame| == 5
      modifies this`out, this`tarBuf, this`tarFail
      ensures (old(out) + OnMessage(tgt, old(Tar(tarBuf, tarFail)), frame + payload).0, Tar(tarBuf, tarFail))
              == (out, OnMessage(tgt, old(Tar(tarBuf, tarFail)), frame + payload).1)
    {
      hide AsMessages, Contains;
      assert (frame + payload)[5..] == payload;
      if tarFail {
        out := out + frame;
        out := out + payload;
        assert out == old(out) + (frame + payload);
        return;
      }
      if |tarBuf| + |payload| > MAX_GRPC {
        ghost var held := tarBuf;
        FlushTarBuf();
        tarFail := true;
        out := out + frame;
        out := out + payload;
        assert out == old(out) + (Flatten(AsMessages(held)) + (frame + payload));
        return;
      }
      tarBuf := tarBuf + payload;
      assert out == old(out) + [];
    }

    /** `finishTar`. */
    method FinishTar()
      requires Valid()
      modifies this`out, this`tarBuf
      ensures out == old(out) + AtEnd(tgt, old(Tar(tarBuf, tarFail)))
    {
      hide AsMessages, TarMode;
      if !tarMode || tarFail || |tarBuf| == 0 {
        assert out == old(out) + [];
        return;
      }
      assert tgt.Some? by { TarModeHasTarget(tgt); }
      var data := tarBuf;
      var rewritten := tgt.value.rewriteTar(data);
      if rewritten != data {
        tarBuf := [];
        var ms := ChunkAsBytesMessages(rewritten);
        WriteAll(ms);
        return;
      }
      FlushTarBuf();
    }

    /** A message over the cap: hand it out as far as it is there; nothing after it is looked at. */
    method CopyOversize(ghost rest: bytes) returns (err: ReadError)
      requires Valid() && !done && out == [] && |frame| == 5 && rest == frame + next.Rest() && Declared(rest) > MAX_GRPC
      modifies this`out, this`done, next
      ensures Valid() && done && err != UnexpectedEOF
      ensures out + (if err == EOF then AtEnd(tgt, Tar(tarBuf, tarFail)) else []) ==
              Tail(tgt, rest, Tar(tarBuf, tarFail))
    {
      hide Tail, AtEnd, BE32;
      ghost var body := next.Rest();
      assert rest[1..5] == frame[1..5];
      var msglen := BE32(frame[1..5]);
      done := true;
      out := out + frame;
      var got, e := CopyN(next, msglen);
      out := out + got;
      assert out == frame + got;
      OversizeCopied(tgt, rest, Tar(tarBuf, tarFail), frame, got, next.Rest());
      err := e;
    }

    /** A whole message within the cap. */
    method TakeMessage(payload: bytes)
      requires TarMode(tgt) == tarMode && |frame| == 5 && out == []
      modifies this`out, this`tarBuf, this`tarFail
      ensures (out, Tar(tarBuf, tarFail)) == OnMessage(tgt, old(Tar(tarBuf, tarFail)), frame + payload)
    {
      hide RewritePayload, Reframed, AsMessages, PutBE32;
      if tarMode {
        HandleTarMessage(payload);
        assert [] + OnMessage(tgt, old(Tar(tarBuf, tarFail)), frame + payload).0 ==
          OnMessage(tgt, old(Tar(tarBuf, tarFail)), frame + payload).0;
      } else {
        var o := RewriteMessage(frame[0], payload);
        out := out + ([frame[0]] + PutBE32(|o|));
        out := out + o;
        ReframedIs(tgt, frame, payload);
        assert out == [frame[0]] + PutBE32(|o|) + o;
      }
    }

    /** `nextMessage`: one message taken in, or a reason why not. */
    method NextMessage() returns (err: ReadError)
      requires Valid() && !done && out == []
      modifies this, next
      ensures Valid()
      ensures err == NoError ==> Pending() == old(Pending()) && WillFail() == old(WillFail())
                                 && (done || |next.Rest()| < |old(next.Rest())|)
      ensures err == EOF ==> !old(WillFail()) && out + AtEnd(tgt, Tar(tarBuf, tarFail)) == old(Pending())
      ensures err == UnexpectedEOF ==> old(WillFail()) && !WillFail() && !done && out == []
                                       && Pending() == old(Pending()) && next.Rest() == []
    {
      hide OnMessage, AtEnd, Tail, CutShort, BE32, TarMode, Declared;
      ghost var rest, tar := next.Rest(), Tar(tarBuf, tarFail);
      assert old(Pending()) == Tail(tgt, rest, tar) by { assert [] + Tail(tgt, rest, tar) == Tail(tgt, rest, tar); }
      EndOfInput(tgt, tar);
      frame, err := ReadFull(next, 5);
      if err != NoError {
        HeaderMissing(tgt, rest, tar);
        return;
      }
      HeaderRead(rest, frame, next.Rest());
      var msglen := BE32(frame[1..5]);
      if msglen > MAX_GRPC {
        NotCutShort(rest);
        err := CopyOversize(rest);
        return;
      }
      ghost var body := next.Rest();
      var payload;
      payload, err := ReadFull(next, msglen);
      if err != NoError {
        PayloadMissing(tgt, rest, tar, frame, body);
        return;
      }
      MessageRead(tgt, rest, tar, frame, payload, next.Rest());
      TakeMessage(payload);
    }

    /** `Read`: hand out what is there; take in messages until there is something or the end. */
    method Read(p: array<byte>) returns (n: nat, err: ReadError)
      requires Valid()
      modifies this, next, p
      ensures Valid() && n <= p.Length
      ensures err == NoError ==> p[..n] + Pending() == old(Pending()) && WillFail() == old(WillFail())
                                 && (p.Length > 0 ==> n > 0)
      ensures err == EOF ==> n == 0 && done && Pending() == [] && old(Pending()) == [] && !old(WillFail())
      ensures err == UnexpectedEOF ==> n == 0 && Pending() == old(Pending()) && old(WillFail()) && !WillFail()
    {
      hide AtEnd, Tail, CutShort, TarMode;
      while true
        invariant Valid() && Pending() == old(Pending()) && WillFail() == old(WillFail())
        decreases !done, |next.Rest()|
      {
        if |out| > 0 {
          n := if |out| <= p.Length then |out| else p.Length;
          forall k | 0 <= k < n { p[k] := out[k]; }
          ghost var was := out;
          out := out[n..];
          assert p[..n] == was[..n];
          HandOut(was, n, if done then [] else Tail(tgt, next.Rest(), Tar(tarBuf, tarFail)));
          return n, NoError;
        }
        if done {
          return 0, EOF;
        }
        err := NextMessage();
        if err == EOF {
          FinishTar();
          done := true;
          assert out + [] == out;
          continue;
        }
        if err == UnexpectedEOF {
          return 0, err;
        }
      }
    }
  }

  lemma HandOut(out: bytes, n: nat, tail: bytes)
    requires n <= |out|
    ensures out[..n] + (out[n..] + tail) == out + tail
  {
  }

  lemma EndOfInput(tgt: Option<Target>, tar: Tar)
    ensures [] + Tail(tgt, [], tar) == AtEnd(tgt, tar) && !CutShort([])
    ensures [] + AtEnd(tgt, tar) == AtEnd(tgt, tar)
  {
    hide AtEnd;
  }

  lemma HeaderMissing(tgt: Option<Target>, rest: bytes, tar: Tar)
    requires |rest| < 5
    ensures Tail(tgt, rest, tar) == AtEnd(tgt, tar) && (CutShort(rest) <==> rest != [])
  {
    hide AtEnd;
  }

  lemma NotCutShort(rest: bytes)
    requires |rest| >= 5 && Declared(rest) > MAX_GRPC
    ensures !CutShort(rest)
  {
  }

  lemma TarModeHasTarget(tgt: Option<Target>)
    requires TarMode(tgt)
    ensures tgt.Some?
  {
  }

  lemma HeaderRead(rest: bytes, hdr: bytes, after: bytes)
    requires hdr + after == rest && |hdr| == 5
    ensures Declared(rest) == BE32(hdr[1..5])
  {
    hide BE32;
    assert rest[1..5] == hdr[1..5];
  }

  lemma OversizeCopied(tgt: Option<Target>, rest: bytes, tar: Tar, hdr: bytes, got: bytes, after: bytes)
    requires |hdr| == 5 && rest == hdr + (got + after) && Declared(rest) > MAX_GRPC
    requires if |rest| < 5 + Declared(rest) then after == [] else |got| == Declared(rest)
    ensures (hdr + got) + (if |rest| < 5 + Declared(rest) then AtEnd(tgt, tar) else []) == Tail(tgt, rest, tar)
  {
    hide AtEnd, Declared, BE32;
    var n := Declared(rest);
    assert rest[..5 + |got|] == hdr + got;
    if |rest| < 5 + n {
      assert rest == hdr + got;
    } else {
      assert (hdr + got) + [] == hdr + got;
    }
  }

  lemma PayloadMissing(tgt: Option<Target>, rest: bytes, tar: Tar, hdr: bytes, body: bytes)
    requires |hdr| == 5 && rest == hdr + body && Declared(rest) <= MAX_GRPC && |body| < Declared(rest)
    ensures Tail(tgt, rest, tar) == AtEnd(tgt, tar) && (CutShort(rest) <==> body != [])
    ensures Tail(tgt, [], tar) == AtEnd(tgt, tar) && !CutShort([])
  {
  }

  lemma MessageRead(tgt: Option<Target>, rest: bytes, tar: Tar, hdr: bytes, payload: bytes, after: bytes)
    requires |hdr| == 5 && rest == hdr + (payload + after) && Declared(rest) == |payload| <= MAX_GRPC
    ensures Tail(tgt, rest, tar) == OnMessage(tgt, tar, hdr + payload).0
            + Tail(tgt, after, OnMessage(tgt, tar, hdr + payload).1)
    ensures CutShort(rest) <==> CutShort(after)
  {
    hide OnMessage, Declared, AtEnd;
    assert rest[..5 + |payload|] == hdr + payload && rest[5 + |payload|..] == after;
  }

  lemma ReframedIs(tgt: Option<Target>, hdr: bytes, payload: bytes)
    requires |hdr| == 5
    ensures var o := RewritePayload(tgt, hdr[0], payload);
            [hdr[0]] + PutBE32(|o|) + o == Reframed(tgt, hdr + payload)
  {
    hide RewritePayload, PutBE32;
    assert (hdr + payload)[5..] == payload;
  }
}
