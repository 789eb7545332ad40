/** What a receiver understands of a DiffCopy stream, and the edit stated on that level: no bytes
    of lengths, tags or frames occur in this specification. */
module Decoded {
  import opened Bytes
  import opened Protobuf
  import opened Records
  import opened Fsutil
  import opened Grpc
  import opened Stream

  /** The meaning of a field: a length-delimited value, or any other field as it stands. */
  datatype Part = Value(num: nat, val: bytes) | Plain(num: nat, wt: nat, orig: bytes)

  /** A decoded message: its flags and fields, or bytes the receiver does not look into. */
  datatype Decoded = Opaque(m: bytes) | Packet(flags: byte, parts: seq<Part>)

  function PartOf(f: Field): Part {
    if f.wt == WT_LEN then Value(f.num, f.val) else Plain(f.num, f.wt, f.orig)
  }

  function PartsOf(fs: seq<Field>): seq<Part> {
    seq(|fs|, i requires 0 <= i < |fs| => PartOf(fs[i]))
  }

  function Decode(m: bytes): Decoded {
    if |m| < 5 || Bit(m[0], 1) || ParsedFields(m[5..]).None? then Opaque(m)
    else Packet(m[0], PartsOf(ParsedFields(m[5..]).value))
  }

  function DecodeAll(ms: seq<bytes>): seq<Decoded> {
    seq(|ms|, i requires 0 <= i < |ms| => Decode(ms[i]))
  }

  /** The packet a decoded message holds: its first Stat or Data part decides. */
  function PacketOf(parts: seq<Part>): Option<Fsutil.Packet> {
    if parts == [] then Some(OtherPacket)
    else if parts[0].Value? && parts[0].num == 2 then
      match ParsedStat(parts[0].val) case None => None case Some(st) => Some(StatPacket(st))
    else if parts[0].Value? && parts[0].num == 4 then Some(DataPacket(parts[0].val))
    else PacketOf(parts[1..])
  }

  function Held(d: Decoded): Option<Fsutil.Packet> {
    if d.Opaque? then None else PacketOf(d.parts)
  }

  function SetContent(parts: seq<Part>, content: bytes): seq<Part> {
    seq(|parts|, i requires 0 <= i < |parts| => if parts[i].num == 4 then Value(4, content) else parts[i])
  }

  /** The edit of one decoded message: a licensed Data packet carries the edited content. */
  function Edited(d: Decoded, cur: Option<Stat>, edit: Option<Edit>): Decoded {
    if && edit.Some? && Held(d).Some? && Held(d).value.DataPacket?
       && Licenses(cur, Held(d).value.data) && Edits(edit.value, Held(d).value.data)
       && (forall i | 0 <= i < |d.parts| && d.parts[i].num == 4 :: d.parts[i].Value?)
    then d.(parts := SetContent(d.parts, edit.value(Held(d).value.data).0))
    else d
  }

  function StatFollowing(d: Decoded, cur: Option<Stat>): Option<Stat> {
    match Held(d)
    case Some(StatPacket(st)) => Some(st)
    case Some(DataPacket(_)) => None
    case _ => cur
  }

  /** The edit of a whole decoded stream. */
  function EditAll(ds: seq<Decoded>, cur: Option<Stat>, edit: Option<Edit>): seq<Decoded> {
    if ds == [] then []
    else [Edited(ds[0], cur, edit)] + EditAll(ds[1..], StatFollowing(ds[0], cur), edit)
  }

  lemma {:induction false} PacketAgrees(fs: seq<Field>)
    ensures PacketOf(PartsOf(fs)) == PacketIn(fs)
  {
    hide ParsedStat;
    if fs != [] {
      PacketAgrees(fs[1..]);
      assert PartsOf(fs)[1..] == PartsOf(fs[1..]);
    }
  }

  lemma HeldAgrees(m: bytes)
    ensures Held(Decode(m)) == Seen(m)
    ensures forall cur :: StatFollowing(Decode(m), cur) == NextStat(m, cur)
  {
    hide ParsedFields, PacketIn, PacketOf;
    if Decode(m).Packet? {
      PacketAgrees(ParsedFields(m[5..]).value);
    }
  }

  lemma PartsAfter(fs: seq<Field>, content: bytes)
    requires forall i | 0 <= i < |fs| && fs[i].num == 4 :: fs[i].wt == WT_LEN
    ensures PartsOf(Refreshed(fs, Replacements(fs, 4, content))) == SetContent(PartsOf(fs), content)
  {
    hide LenField;
  }

  /** One message: decoding what is written equals editing what was decoded. */
  lemma EditCommutes(m: bytes, cur: Option<Stat>, edit: Option<Edit>)
    requires |EmittedFor(m, cur, edit)| < MAX_LEN
    ensures Decode(EmittedFor(m, cur, edit)) == Edited(Decode(m), cur, edit)
  {
    HeldAgrees(m);
    hide ParsedFields, PacketIn, PacketOf;
    if IsData(m) {
      var p := m[5..];
      var fs := ParsedFields(p).value;
      var parts := PartsOf(fs);
      var data := Classified(p).value.data;
      if Editable(p, cur, edit) {
        var nc := edit.value(data).0;
        var out := DiffCopyRewrite(p, cur, edit).out;
        FrameParts(m[0], out);
        DiffCopyMeaning(p, cur, edit);
        PartsAfter(fs, nc);
        assert forall i | 0 <= i < |parts| && parts[i].num == 4 :: fs[i].num == 4;
      } else if Licenses(cur, data) && edit.Some? && Edits(edit.value, data) {
        FirstDataIsField4(fs);
        assert !Replaceable(fs, 4);
        var i :| 0 <= i < |fs| && fs[i].num == 4 && fs[i].wt != WT_LEN;
        assert parts[i] == PartOf(fs[i]);
      }
    }
  }

  lemma {:induction false} FirstDataIsField4(fs: seq<Field>)
    requires PacketIn(fs).Some? && PacketIn(fs).value.DataPacket?
    ensures exists i :: 0 <= i < |fs| && fs[i].num == 4
  {
    hide ParsedStat;
    if !IsLen(fs[0], 4) {
      FirstDataIsField4(fs[1..]);
      var i :| 0 <= i < |fs[1..]| && fs[1..][i].num == 4;
      assert fs[i + 1].num == 4;
    } else {
      assert fs[0].num == 4;
    }
  }

  lemma DecodeCons(m: bytes, ms: seq<bytes>)
    ensures DecodeAll([m] + ms) == [Decode(m)] + DecodeAll(ms)
  {
    hide Decode;
  }

  lemma EditCons(d: Decoded, ds: seq<Decoded>, cur: Option<Stat>, edit: Option<Edit>)
    ensures EditAll([d] + ds, cur, edit) == [Edited(d, cur, edit)] + EditAll(ds, StatFollowing(d, cur), edit)
  {
    hide Edited, StatFollowing;
    assert ([d] + ds)[1..] == ds;
  }

  /** The whole stream: decoding the rewritten messages equals editing the decoded messages. */
  lemma {:induction false} EditAllCommutes(ms: seq<bytes>, cur: Option<Stat>, edit: Option<Edit>)
    requires forall k | 0 <= k < |ms| :: |Rewrite(ms, cur, edit)[k]| < MAX_LEN
    ensures DecodeAll(Rewrite(ms, cur, edit)) == EditAll(DecodeAll(ms), cur, edit)
  {
    hide EmittedFor, NextStat, Decode, Edited, StatFollowing;
    if ms != [] {
      var m, more := ms[0], ms[1..];
      var next := NextStat(m, cur);
      var e, rest := EmittedFor(m, cur, edit), Rewrite(more, next, edit);
      assert [m] + more == ms;
      RewriteCons(m, more, cur, edit);
      hide Rewrite, DecodeAll, EditAll;
      assert Rewrite(ms, cur, edit)[0] == e;
      forall k | 0 <= k < |more| ensures |rest[k]| < MAX_LEN { assert rest[k] == Rewrite(ms, cur, edit)[k + 1]; }
      EditCommutes(m, cur, edit);
      HeldAgrees(m);
      EditAllCommutes(more, next, edit);
      DecodeCons(m, more);
      DecodeCons(e, rest);
      EditCons(Decode(m), DecodeAll(more), cur, edit);
    }
  }
}
