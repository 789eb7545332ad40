/** gRPC framing, one flag byte and a 32-bit length in front of each payload: `parseGRPCMessages`
    and `grpcFrame` (internal/proxy/session.go). */
module Grpc {
  import opened Bytes

  /** `maxGRPCBuffer`, the largest payload the parser accepts. */
  const MAX_GRPC: nat := 0x400_0000

  /** A cap no 32-bit length can exceed: a peer that accepts every message. */
  const UNCAPPED: nat := TWO32 - 1

  /** `m` is exactly one framed message with a payload of at most `cap` bytes. */
  predicate IsMessage(m: bytes, cap: nat) {
    |m| >= 5 && BE32(m[1..5]) == |m| - 5 <= cap
  }

  /** `grpcFrame`. */
  function Framed(flags: byte, payload: bytes): (m: bytes)
    ensures |m| == 5 + |payload|
  {
    [flags] + PutBE32(|payload|) + payload
  }

  /** The whole message at the front of `data`, if its payload is within the cap. */
  function FirstMessage(data: bytes, cap: nat): (r: Option<bytes>)
    ensures r.Some? ==> IsMessage(r.value, cap) && 5 <= |r.value| <= |data| && r.value == data[..|r.value|]
  {
    if |data| < 5 then None
    else
      var n := BE32(data[1..5]);
      if n > cap || 5 + n > |data| then None
      else
        assert data[..5 + n][1..5] == data[1..5];
        Some(data[..5 + n])
  }

  /** The messages `data` is the concatenation of, if it ends on a message boundary. */
  function Messages(data: bytes, cap: nat): (r: Option<seq<bytes>>)
    decreases |data|
  {
    if data == [] then Some([])
    else match FirstMessage(data, cap)
      case None => None
      case Some(m) => Prepend([m], Messages(data[|m|..], cap))
  }

  predicate AllMessages(ms: seq<bytes>, cap: nat) {
    forall i | 0 <= i < |ms| :: IsMessage(ms[i], cap)
  }

  /** A message is found at the front of whatever it is put in front of. */
  lemma FirstOf(m: bytes, rest: bytes, cap: nat)
    requires IsMessage(m, cap)
    ensures FirstMessage(m + rest, cap) == Some(m)
  {
    hide BE32;
    assert (m + rest)[1..5] == m[1..5];
    assert (m + rest)[..|m|] == m;
  }

  /** Joining the messages of a parse gives the input back. */
  lemma {:induction false} MessagesJoin(data: bytes, cap: nat)
    requires Messages(data, cap).Some?
    ensures Flatten(Messages(data, cap).value) == data
    ensures AllMessages(Messages(data, cap).value, cap)
    decreases |data|
  {
    hide FirstMessage, IsMessage;
    if data != [] {
      var m := FirstMessage(data, cap).value;
      MessagesJoin(data[|m|..], cap);
      assert Messages(data, cap).value[1..] == Messages(data[|m|..], cap).value;
      assert data == m + data[|m|..];
    }
  }

  /** A whole message in front is parsed off, whatever follows. */
  lemma MessagesCons(m: bytes, rest: bytes, cap: nat)
    requires IsMessage(m, cap)
    ensures Messages(m + rest, cap) == Prepend([m], Messages(rest, cap))
  {
    FirstOf(m, rest, cap);
    assert m + rest != [];
    hide FirstMessage, IsMessage;
    assert (m + rest)[|m|..] == rest;
  }

  /** Whole messages, joined, parse to exactly themselves. */
  lemma {:induction false} MessagesOfJoin(ms: seq<bytes>, cap: nat)
    requires AllMessages(ms, cap)
    ensures Messages(Flatten(ms), cap) == Some(ms)
  {
    if ms != [] {
      hide FirstMessage, IsMessage;
      MessagesOfJoin(ms[1..], cap);
      MessagesCons(ms[0], Flatten(ms[1..]), cap);
      assert [ms[0]] + ms[1..] == ms;
    }
  }

  /** The parser succeeds exactly on concatenations of whole messages, and the split is unique. */
  lemma ParsesIffJoined(data: bytes, ms: seq<bytes>, cap: nat)
    ensures Messages(data, cap) == Some(ms) <==> Flatten(ms) == data && AllMessages(ms, cap)
  {
    if Messages(data, cap) == Some(ms) {
      MessagesJoin(data, cap);
    }
    if Flatten(ms) == data && AllMessages(ms, cap) {
      MessagesOfJoin(ms, cap);
    }
  }

  /** Parsing is compositional: after a whole prefix, all depends on the rest. */
  lemma {:induction false} MessagesAppend(a: bytes, b: bytes, cap: nat)
    requires Messages(a, cap).Some?
    ensures Messages(a + b, cap) == Prepend(Messages(a, cap).value, Messages(b, cap))
    decreases |a|
  {
    hide FirstMessage, IsMessage;
    if a == [] {
      assert a + b == b;
      PrependNone(Messages(b, cap));
    } else {
      var m := FirstMessage(a, cap).value;
      var rest := a[|m|..];
      MessagesAppend(rest, b, cap);
      MessagesCons(m, rest + b, cap);
      assert a + b == m + (rest + b);
      if Messages(b, cap).Some? {
        assert Messages(a, cap).value + Messages(b, cap).value
            == [m] + (Messages(rest, cap).value + Messages(b, cap).value);
      }
    }
  }

  /** A raised cap rejects nothing that was accepted. */
  lemma CapMonotone(m: bytes, cap: nat, cap': nat)
    requires IsMessage(m, cap) && cap <= cap'
    ensures IsMessage(m, cap')
  {
  }

  lemma FrameParts(flags: byte, payload: bytes)
    ensures var m := Framed(flags, payload);
            m[0] == flags && m[1..5] == PutBE32(|payload|) && m[5..] == payload
  {
  }

  /** Framing then parsing: a frame is a message that carries its flags and payload, as long as the
      length fits 32 bits. */
  lemma FrameIsMessage(flags: byte, payload: bytes, cap: nat)
    requires |payload| <= cap < TWO32
    ensures IsMessage(Framed(flags, payload), cap)
    ensures Framed(flags, payload)[0] == flags && Framed(flags, payload)[5..] == payload
  {
    FrameParts(flags, payload);
  }

  /** Parsing then framing: a message is the frame of its flags and payload. */
  lemma MessageIsFrame(m: bytes, cap: nat)
    requires IsMessage(m, cap)
    ensures m == Framed(m[0], m[5..])
  {
    var n := |m| - 5;
    BE32Injective(m[1..5], PutBE32(n));
    assert m == [m[0]] + m[1..5] + m[5..];
  }

  /** Past 32 bits the length is truncated and the frame is not a message: the exact limit. */
  lemma FrameIffLengthFits(flags: byte, payload: bytes)
    ensures IsMessage(Framed(flags, payload), UNCAPPED) <==> |payload| < TWO32
  {
    FrameParts(flags, payload);
  }

  /** A Go slice of bytes: a window into an array that others may hold as well. */
  datatype Slice = Slice(buf: array<byte>, lo: nat, hi: nat) {
    ghost predicate Valid() {
      lo <= hi <= buf.Length
    }

    ghost function View(): bytes
      requires Valid()
      reads buf
    {
      buf[lo..hi]
    }
  }

  ghost predicate AllIn(ss: seq<Slice>, buf: array<byte>) {
    forall i | 0 <= i < |ss| :: ss[i].buf == buf && ss[i].Valid()
  }

  ghost function Views(ss: seq<Slice>, buf: array<byte>): seq<bytes>
    requires AllIn(ss, buf)
    reads buf
  {
    seq(|ss|, i requires 0 <= i < |ss| reads buf => ss[i].View())
  }

  /** One turn of the parsing loop. */
  lemma MessagesFrom(data: bytes, i: nat, ms: seq<bytes>)
    requires i < |data|
    requires Messages(data, MAX_GRPC) == Prepend(ms, Messages(data[i..], MAX_GRPC))
    ensures match FirstMessage(data[i..], MAX_GRPC)
            case None => Messages(data, MAX_GRPC) == None
            case Some(m) => Messages(data, MAX_GRPC) == Prepend(ms + [m], Messages(data[i + |m|..], MAX_GRPC))
  {
    hide FirstMessage, IsMessage;
    if FirstMessage(data[i..], MAX_GRPC).Some? {
      var m := FirstMessage(data[i..], MAX_GRPC).value;
      assert data[i..][|m|..] == data[i + |m|..];
      PrependTwice(ms, m, Messages(data[i + |m|..], MAX_GRPC));
    }
  }

  lemma FirstAt(data: bytes, i: nat)
    requires i < |data|
    ensures FirstMessage(data[i..], MAX_GRPC) ==
      if i + 5 > |data| || BE32(data[i + 1..i + 5]) > MAX_GRPC || i + 5 + BE32(data[i + 1..i + 5]) > |data| then None
      else Some(data[i..i + 5 + BE32(data[i + 1..i + 5])])
  {
    hide BE32;
    if i + 5 <= |data| {
      assert data[i..][1..5] == data[i + 1..i + 5];
      var n := BE32(data[i + 1..i + 5]);
      if i + 5 + n <= |data| { assert data[i..][..5 + n] == data[i..i + 5 + n]; }
    }
  }

  lemma MessagesStart(data: bytes)
    ensures Messages(data, MAX_GRPC) == Prepend([], Messages(data[0..], MAX_GRPC))
  {
    assert data[0..] == data;
    PrependNone(Messages(data, MAX_GRPC));
  }

  lemma MessagesEnd(data: bytes, i: nat, ms: seq<bytes>)
    requires i == |data|
    requires Messages(data, MAX_GRPC) == Prepend(ms, Messages(data[i..], MAX_GRPC))
    ensures Messages(data, MAX_GRPC) == Some(ms)
  {
    assert data[i..] == [] && ms + [] == ms;
  }

  /** `parseGRPCMessages`: the result holds windows into the buffer it was given, not copies. */
  method ParseGRPCMessages(buf: array<byte>, len: nat) returns (r: Option<seq<Slice>>)
    requires len <= buf.Length
    ensures r.None? ==> Messages(buf[..len], MAX_GRPC).None?
    ensures r.Some? ==> AllIn(r.value, buf) && Messages(buf[..len], MAX_GRPC) == Some(Views(r.value, buf))
  {
    hide Messages, FirstMessage, IsMessage, Prepend, BE32;
    ghost var data := buf[..len];
    var out: seq<Slice> := [];
    var i := 0;
    MessagesStart(data);
    assert Views(out, buf) == [];
    while i < len
      invariant i <= len && AllIn(out, buf)
      invariant Messages(data, MAX_GRPC) == Prepend(Views(out, buf), Messages(data[i..], MAX_GRPC))
    {
      MessagesFrom(data, i, Views(out, buf));
      FirstAt(data, i);
      if i + 5 > len {
        return None;
      }
      assert data[i + 1..i + 5] == buf[i + 1..i + 5];
      var n := BE32(buf[i + 1..i + 5]);
      var total := 5 + n;
      if n > MAX_GRPC || i + total > len {
        return None;
      }
      assert data[i..i + total] == buf[i..i + total];
      assert Views(out + [Slice(buf, i, i + total)], buf) == Views(out, buf) + [data[i..i + total]];
      out := out + [Slice(buf, i, i + total)];
      i := i + total;
    }
    MessagesEnd(data, i, Views(out, buf));
    r := Some(out);
  }

  /** `grpcFrame`: fill a fresh buffer with flag, length and payload. */
  method GrpcFrame(flags: byte, payload: bytes) returns (out: array<byte>)
    ensures fresh(out) && out[..] == Framed(flags, payload)
  {
    out := new byte[5 + |payload|](_ => 0);
    out[0] := flags;
    var n := PutBE32(|payload|);
    forall k | 0 <= k < 4 { out[1 + k] := n[k]; }
    forall k | 0 <= k < |payload| { out[5 + k] := payload[k]; }
    assert out[..] == [out[0]] + out[1..5] + out[5..];
    assert out[1..5] == n && out[5..] == payload;
  }
}
