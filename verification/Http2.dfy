/** HTTP/2 frames: `readH2F` and the DATA frames that `writeMessage` builds
    (internal/proxy/sessionsplice.go; RFC 7540 sections 4.1 and 6.1). */
module Http2 {
  import opened Bytes
  import opened Io

  const DATA: byte := 0
  const HEADERS: byte := 1
  const SETTINGS: byte := 4
  const WINDOW_UPDATE: byte := 8
  const CONTINUATION: byte := 9

  const END_HEADERS: nat := 4
  const PADDED: nat := 8
  const PRIORITY: nat := 32

  /** `maxWriteFrameSize`. */
  const MAX_FRAME: nat := 0x4000

  const TWO31: nat := 0x8000_0000

  /** One parsed frame: `raw` is the whole wire image, `payload` the body without padding. */
  datatype Frame = Frame(raw: bytes, typ: byte, flags: byte, sid: nat, payload: bytes)

  function Len24(n: nat): (b: bytes)
    ensures |b| == 3
  {
    [n / 0x1_0000 % 256, n / 0x100 % 256, n % 256]
  }

  function BE24(b: bytes): nat
    requires |b| == 3
  {
    (b[0] as int * 256 + b[1]) * 256 + b[2]
  }

  /** The body without padding, or None if the padding does not fit. */
  function Unpadded(flags: byte, body: bytes): Option<bytes> {
    if Bit(flags, PADDED) && body != [] then
      if body[0] >= |body| then None else Some(body[1..|body| - body[0]])
    else Some(body)
  }

  /** The frame with this header and body. */
  function FrameOf(hdr: bytes, body: bytes): Option<Frame>
    requires |hdr| == 9
  {
    match Unpadded(hdr[4], body)
    case None => None
    case Some(payload) => Some(Frame(hdr + body, hdr[3], hdr[4], BE32(hdr[5..9]) % TWO31, payload))
  }

  /** The frame at the front of `b`, if it is there in full and its padding is sound. */
  function FirstFrame(b: bytes): (r: Option<Frame>)
    ensures r.Some? ==> 9 <= |r.value.raw| <= |b| && r.value.raw == b[..|r.value.raw|]
  {
    if |b| < 9 || 9 + BE24(b[..3]) > |b| then None
    else
      var n := BE24(b[..3]);
      assert b[..9] + b[9..9 + n] == b[..9 + n];
      FrameOf(b[..9], b[9..9 + n])
  }

  /** All frames of a byte stream. */
  function Frames(b: bytes): Option<seq<Frame>>
    decreases |b|
  {
    if b == [] then Some([])
    else match FirstFrame(b)
      case None => None
      case Some(f) => Prepend([f], Frames(b[|f.raw|..]))
  }

  /** A frame that reads back as itself. */
  predicate Readable(f: Frame) {
    FirstFrame(f.raw) == Some(f)
  }

  function Raws(fs: seq<Frame>): seq<bytes> {
    seq(|fs|, i requires 0 <= i < |fs| => fs[i].raw)
  }

  /** The bytes on the wire. */
  function Wire(fs: seq<Frame>): bytes {
    Flatten(Raws(fs))
  }

  lemma WireAppend(fs: seq<Frame>, f: Frame)
    ensures Wire(fs + [f]) == Wire(fs) + f.raw
  {
    assert Raws(fs + [f]) == Raws(fs) + [f.raw];
    FlattenSnoc(Raws(fs), f.raw);
  }

  /** Reading a frame depends on no byte after it. */
  lemma FrameLocal(b: bytes, suffix: bytes)
    requires FirstFrame(b).Some?
    ensures FirstFrame(FirstFrame(b).value.raw + suffix) == FirstFrame(b)
  {
    var n := BE24(b[..3]);
    var raw := FirstFrame(b).value.raw;
    hide FrameOf, BE24;
    assert raw == b[..9 + n];
    var b' := raw + suffix;
    assert b'[..3] == b[..3] && b'[..9] == b[..9] && b'[9..9 + n] == b[9..9 + n];
  }

  /** What was read can be read again: every parsed frame is readable. */
  lemma ParsedIsReadable(b: bytes)
    requires FirstFrame(b).Some?
    ensures Readable(FirstFrame(b).value)
  {
    FrameLocal(b, []);
    assert FirstFrame(b).value.raw + [] == FirstFrame(b).value.raw;
  }

  /** Frames written one after the other are read back as the same frames. */
  lemma {:induction false} WireReadsBack(fs: seq<Frame>)
    requires forall i | 0 <= i < |fs| :: Readable(fs[i])
    ensures Frames(Wire(fs)) == Some(fs)
  {
    hide FirstFrame;
    if fs != [] {
      WireReadsBack(fs[1..]);
      assert Raws(fs)[1..] == Raws(fs[1..]);
      var rest := Wire(fs[1..]);
      var w := Wire(fs);
      assert w == fs[0].raw + rest;
      assert Readable(fs[0]);
      FrameLocal(fs[0].raw, rest);
      assert w[|fs[0].raw|..] == rest;
      assert [fs[0]] + fs[1..] == fs;
    }
  }

  /** The wire image of a frame. */
  function Image(typ: byte, flags: byte, sid: nat, body: bytes): bytes {
    Len24(|body|) + [typ, flags] + PutBE32(sid) + body
  }

  /** The DATA frame that carries `payload` on stream `sid`: no flags, no padding. */
  function DataFrame(sid: nat, payload: bytes): Frame {
    Frame(Image(DATA, 0, sid, payload), DATA, 0, sid, payload)
  }

  lemma Len24Decodes(n: nat)
    requires n < 0x100_0000
    ensures BE24(Len24(n)) == n
  {
    assert n == n / 0x100 * 0x100 + n % 0x100;
    assert n / 0x100 == n / 0x1_0000 * 0x100 + n / 0x100 % 0x100;
  }

  /** An image is read back as its frame, for every body the 24-bit length can express. */
  lemma ImageReadable(typ: byte, flags: byte, sid: nat, body: bytes)
    requires |body| < 0x100_0000 && sid < TWO31 && Unpadded(flags, body).Some?
    ensures Readable(Frame(Image(typ, flags, sid, body), typ, flags, sid, Unpadded(flags, body).value))
  {
    hide BE24, BE32, PutBE32, Len24, Unpadded;
    Len24Decodes(|body|);
    var raw := Image(typ, flags, sid, body);
    assert raw[..3] == Len24(|body|);
    assert raw[5..9] == PutBE32(sid);
    assert raw[..9][5..9] == raw[5..9] && raw[9..] == body;
    assert raw[9..9 + |body|] == body && raw[..9] + body == raw;
  }

  /** Big-endian, as RFC 7540 section 4.1 has it. */
  lemma BigEndian24(a: byte, b: byte, c: byte)
    ensures BE24([a, b, c]) == a * 65536 + b * 256 + c
  {
  }

  /** The stream identifier is big-endian without its first bit, which is ignored (RFC 7540 section 4.1). */
  lemma ReservedBit(b: bytes)
    requires FirstFrame(b).Some?
    ensures FirstFrame(b).value.sid ==
            ((b[5] as int % 128 * 256 + b[6]) * 256 + b[7]) * 256 + b[8]
    ensures FirstFrame(b).value.typ == b[3] && FirstFrame(b).value.flags == b[4]
  {
    hide BE24, Unpadded;
    var n := BE24(b[..3]);
    assert b[..9][5..9] == [b[5], b[6], b[7], b[8]];
    var top: nat := b[5] as int;
    var low: nat := ((top % 128 * 256 + b[6]) * 256 + b[7]) * 256 + b[8];
    assert top == top / 128 * 128 + top % 128;
    assert BE32(b[..9][5..9]) == top / 128 * TWO31 + low;
  }

  /** Padding on the wire (RFC 7540 section 6.1): a pad length byte in front of the data and that many bytes
      behind it.  It comes off again, whatever the bytes are. */
  lemma PaddedReadable(typ: byte, flags: byte, sid: nat, payload: bytes, pad: bytes)
    requires flags / 8 % 2 == 1 && |pad| < 256 && 1 + |payload| + |pad| < 0x100_0000 && sid < TWO31
    ensures Readable(Frame(Image(typ, flags, sid, [|pad|] + payload + pad), typ, flags, sid, payload))
  {
    var body := [|pad|] + payload + pad;
    assert body[1..|body| - |pad|] == payload;
    assert Unpadded(flags, body) == Some(payload);
    hide Readable, Image;
    ImageReadable(typ, flags, sid, body);
  }

  /** Padding that is not all there is refused. */
  lemma BadPadding(typ: byte, flags: byte, sid: nat, n: byte, rest: bytes)
    requires flags / 8 % 2 == 1 && |rest| < n && sid < TWO31
    ensures FirstFrame(Image(typ, flags, sid, [n] + rest)) == None
  {
    hide BE24, BE32, PutBE32, Len24;
    var body := [n] + rest;
    Len24Decodes(|body|);
    var raw := Image(typ, flags, sid, body);
    assert raw[..3] == Len24(|body|) && raw[9..9 + |body|] == body && raw[..9][4] == flags;
  }

  /** The emitted frame is a DATA frame on that stream with that payload. */
  lemma DataFrameReadable(sid: nat, payload: bytes)
    requires |payload| < 0x100_0000 && sid < TWO31
    ensures Readable(DataFrame(sid, payload))
  {
    hide Readable, Image;
    ImageReadable(DATA, 0, sid, payload);
    assert !Bit(0, PADDED);
  }

  /** The pieces `writeMessage` cuts a message into. */
  function Chunks(m: bytes): (cs: seq<bytes>) {
    if m == [] then []
    else if |m| <= MAX_FRAME then [m]
    else [m[..MAX_FRAME]] + Chunks(m[MAX_FRAME..])
  }

  /** The frames that carry a message. */
  function MessageFrames(sid: nat, m: bytes): seq<Frame> {
    seq(|Chunks(m)|, i requires 0 <= i < |Chunks(m)| => DataFrame(sid, Chunks(m)[i]))
  }

  /** The payload bytes of the DATA frames on one stream, in order. */
  function PayloadOn(fs: seq<Frame>, sid: nat): bytes {
    if fs == [] then []
    else (if fs[0].typ == DATA && fs[0].sid == sid then fs[0].payload else []) + PayloadOn(fs[1..], sid)
  }

  lemma {:induction false} PayloadOnAppend(a: seq<Frame>, b: seq<Frame>, sid: nat)
    ensures PayloadOn(a + b, sid) == PayloadOn(a, sid) + PayloadOn(b, sid)
  {
    if a == [] {
      assert a + b == b;
    } else {
      assert (a + b)[1..] == a[1..] + b;
      PayloadOnAppend(a[1..], b, sid);
    }
  }

  lemma {:induction false} ChunksRebuild(m: bytes)
    ensures Flatten(Chunks(m)) == m
    ensures forall i | 0 <= i < |Chunks(m)| :: 0 < |Chunks(m)[i]| <= MAX_FRAME
    decreases |m|
  {
    if 0 < |m| <= MAX_FRAME {
      assert Flatten([m]) == m + Flatten<byte>([]);
    } else if |m| > MAX_FRAME {
      ChunksRebuild(m[MAX_FRAME..]);
      assert m == m[..MAX_FRAME] + m[MAX_FRAME..];
    }
  }

  lemma {:induction false} PayloadOfChunks(sid: nat, cs: seq<bytes>, fs: seq<Frame>)
    requires |fs| == |cs| && forall i | 0 <= i < |cs| :: fs[i] == DataFrame(sid, cs[i])
    ensures PayloadOn(fs, sid) == Flatten(cs)
  {
    if cs != [] {
      PayloadOfChunks(sid, cs[1..], fs[1..]);
    }
  }

  /** A message of any length: what is written is read back as DATA frames on its stream, each of
      at most 16384 bytes, whose payloads concatenate to the message. */
  lemma MessageRoundTrip(sid: nat, m: bytes)
    requires sid < TWO31
    ensures var fs := MessageFrames(sid, m);
            && Frames(Wire(fs)) == Some(fs)
            && PayloadOn(fs, sid) == m
            && forall i | 0 <= i < |fs| :: fs[i].typ == DATA && fs[i].sid == sid && 0 < |fs[i].payload| <= MAX_FRAME
  {
    var fs := MessageFrames(sid, m);
    ChunksRebuild(m);
    forall i | 0 <= i < |fs| ensures Readable(fs[i]) {
      DataFrameReadable(sid, Chunks(m)[i]);
    }
    WireReadsBack(fs);
    PayloadOfChunks(sid, Chunks(m), fs);
  }

  /** `readH2F`: header, then body; a source that ends inside a frame, or unsound padding, is an error. */
  method ReadH2F(src: Source) returns (r: Option<Frame>)
    requires src.Valid()
    modifies src
    ensures src.Valid()
    ensures r == FirstFrame(old(src.Rest()))
    ensures r.Some? ==> r.value.raw + src.Rest() == old(src.Rest())
    ensures IsTail(src.Rest(), old(src.Rest()))
  {
    ghost var b := src.Rest();
    var hdr, err := ReadFull(src, 9);
    TailOf(hdr, src.Rest(), b);
    if err != NoError {
      return None;
    }
    ghost var b1 := src.Rest();
    assert hdr == b[..9] && hdr[..3] == b[..3];
    var n := BE24(hdr[..3]);
    var body, err2 := ReadFull(src, n);
    TailOf(body, src.Rest(), b1);
    TailOfTail(src.Rest(), b1, b);
    if err2 != NoError {
      assert |b1| < n;
      return None;
    }
    assert b == hdr + body + src.Rest();
    assert body == b[9..9 + n];
    return FrameOf(hdr, body);
  }
}
