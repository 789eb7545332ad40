/** A file as a client serves it, byte for byte: a Stat message with name, mode and size and a Data message
    with the content, and what the daemon gets for them (internal/proxy/session.go, lines 64-168, and
    internal/proxy/sessionsplice.go, lines 448-492). */
module Served {
  import opened Bytes
  import opened Protobuf
  import opened Paths
  import opened Records
  import opened Fsutil
  import opened Grpc
  import opened Stream

  /** The fsutil Stat: path (1), mode (2), size (5). */
  function StatBody(name: bytes, mode: nat, size: nat): bytes {
    LenField(1, name) + (VarintField(2, mode) + VarintField(5, size))
  }

  function StatMessage(name: bytes, mode: nat, size: nat): bytes {
    Framed(0, LenField(2, StatBody(name, mode, size)))
  }

  /** The fsutil Data packet: type (1) and content (4). */
  function DataBody(data: bytes): bytes {
    VarintField(1, 2) + LenField(4, data)
  }

  function DataMessage(data: bytes): bytes {
    Framed(0, DataBody(data))
  }

  predicate IsDockerfileCalled(name: bytes) {
    Chars(name) in ["Dockerfile", "dockerfile", ".Dockerfile"]
  }

  function LenF(num: nat, val: bytes): Field {
    Field(num, 2, LenField(num, val), val, 0, None)
  }

  function VarF(num: nat, n: nat): Field {
    Field(num, 0, VarintField(num, n), [], n, None)
  }

  lemma TwoFields(a: bytes, b: bytes, f: Field, g: Field)
    requires Fields(a) == Some([f]) && Fields(b) == Some([g])
    ensures Fields(a + b) == Some([f, g])
  {
    hide Fields;
    FieldsAppend(a, b);
    assert [f] + [g] == [f, g];
  }

  lemma StatFields(name: bytes, mode: nat, size: nat)
    requires |name| < TWO64 && mode < TWO64 && size < TWO64
    ensures ParsedFields(StatBody(name, mode, size)) == Some([LenF(1, name), VarF(2, mode), VarF(5, size)])
  {
    hide Fields, LenField, VarintField;
    LenFieldParses(1, name);
    VarintFieldParses(2, mode);
    VarintFieldParses(5, size);
    TwoFields(VarintField(2, mode), VarintField(5, size), VarF(2, mode), VarF(5, size));
    FieldsAppend(LenField(1, name), VarintField(2, mode) + VarintField(5, size));
    assert [LenF(1, name)] + [VarF(2, mode), VarF(5, size)] == [LenF(1, name), VarF(2, mode), VarF(5, size)];
  }

  /** The Stat is read as its name and size, whatever its mode. */
  lemma StatRead(name: bytes, mode: nat, size: nat)
    requires |name| < TWO64 && mode < TWO64 && size < TWO64
    ensures ParsedStat(StatBody(name, mode, size)) ==
            if name == [] || size > MAX_INT then None else Some(Stat(name, size))
  {
    StatFields(name, mode, size);
    hide ParsedFields, StatBody;
    var f, g, h := LenF(1, name), VarF(2, mode), VarF(5, size);
    assert [f, g, h][1..] == [g, h] && [g, h][1..] == [h] && [h][1..] == [];
    assert StatOf([h], Stat(name, 0)) == if size > MAX_INT then None else Some(Stat(name, size));
    assert StatOf([g, h], Stat(name, 0)) == StatOf([h], Stat(name, 0));
    assert StatOf([f, g, h], Stat([], 0)) == StatOf([g, h], Stat(name, 0));
  }

  lemma StatSeen(name: bytes, mode: nat, size: nat)
    requires |StatBody(name, mode, size)| < TWO64 && |name| < TWO64 && mode < TWO64 && size < TWO64
    ensures Seen(StatMessage(name, mode, size)) ==
            if name == [] || size > MAX_INT then None else Some(StatPacket(Stat(name, size)))
  {
    hide LenField, StatBody, ParsedStat, Classified, Seen, Framed;
    var body := StatBody(name, mode, size);
    StatRead(name, mode, size);
    StatClassified(body);
    FramedSeen(LenField(2, body));
  }

  lemma FramedSeen(p: bytes)
    ensures Seen(Framed(0, p)) == Classified(p)
  {
    hide Classified, Framed;
    FrameParts(0, p);
    assert !Bit(0, 1);
  }

  lemma StatClassified(body: bytes)
    requires |body| < TWO64
    ensures Classified(LenField(2, body)) ==
            match ParsedStat(body) case None => None case Some(st) => Some(StatPacket(st))
  {
    hide LenField, Fields, ParsedStat;
    LenFieldParses(2, body);
  }

  lemma DataFields(data: bytes)
    requires |data| < TWO64
    ensures ParsedFields(DataBody(data)) == Some([VarF(1, 2), LenF(4, data)])
  {
    hide Fields, LenField, VarintField;
    VarintFieldParses(1, 2);
    LenFieldParses(4, data);
    TwoFields(VarintField(1, 2), LenField(4, data), VarF(1, 2), LenF(4, data));
  }

  lemma DataSeen(data: bytes)
    requires |data| < TWO64
    ensures Classified(DataBody(data)) == Some(DataPacket(data))
    ensures Seen(DataMessage(data)) == Some(DataPacket(data)) && DataMessage(data)[5..] == DataBody(data)
  {
    DataFields(data);
    hide ParsedFields, Framed, DataBody, ParsedStat, LenField, VarintField;
    var f, g := VarF(1, 2), LenF(4, data);
    assert [f, g][1..] == [g];
    assert PacketIn([g]) == Some(DataPacket(data));
    assert PacketIn([f, g]) == PacketIn([g]);
    FrameParts(0, DataBody(data));
    assert !Bit(0, 1);
  }

  /** Replacing the content keeps the packet's type field in front of it. */
  lemma ContentReplaced(data: bytes, content: bytes)
    requires |data| < TWO64
    ensures ParsedFields(DataBody(data)).Some? && Replaceable(ParsedFields(DataBody(data)).value, 4)
    ensures WithField(DataBody(data), 4, content) == Some(DataBody(content))
  {
    DataFields(data);
    var fs := [VarF(1, 2), LenF(4, data)];
    assert fs[1].num == 4;
    ReplacedBytes(data, content);
    hide ParsedFields, AllBytes, Patched, Replacements, LenField, VarintField;
    assert WithField(DataBody(data), 4, content) == Some(Flatten(AllBytes(Patched(fs, Replacements(fs, 4, content)))));
  }

  lemma ReplacedBytes(data: bytes, content: bytes)
    ensures var fs := [VarF(1, 2), LenF(4, data)];
            Flatten(AllBytes(Patched(fs, Replacements(fs, 4, content)))) == DataBody(content)
  {
    hide LenField, VarintField;
    var fs := [VarF(1, 2), LenF(4, data)];
    var vs: seq<Option<bytes>> := [None, Some(content)];
    assert Replacements(fs, 4, content) == vs;
    var a, b := VarintField(1, 2), LenField(4, content);
    assert AllBytes(Patched(fs, vs)) == [a, b];
    FlattenSnoc([], a);
    FlattenSnoc([a], b);
    assert [] + [a] == [a] && [a] + [b] == [a, b];
  }

  /** What the Data message of a file becomes after its Stat. */
  lemma DataEmitted(name: bytes, size: nat, data: bytes, edit: Edit)
    requires |data| < TWO64
    ensures EmittedFor(DataMessage(data), Some(Stat(name, size)), Some(edit)) ==
            DataMessage(if IsDockerfileCalled(name) && |data| == size && edit(data).1 then edit(data).0 else data)
  {
    DataSeen(data);
    ContentReplaced(data, edit(data).0);
    FrameParts(0, DataBody(data));
    assert IsDockerfileName(name) <==> IsDockerfileCalled(name);
    hide ParsedFields, DataBody, Framed, WithField, Replaceable, Seen, Classified, IsDockerfileName, IsDockerfileCalled;
    assert IsData(DataMessage(data));
    assert DataMessage(data)[0] == 0;
  }

  /** A file served by a client, in bytes: the Stat goes through as it is, and the Data with the edited content
      if and only if the file is called Dockerfile, dockerfile or .Dockerfile, the content is as long as the
      Stat says, and the edit wants it; every other file comes out as it went in. */
  lemma ServedFile(name: bytes, mode: nat, size: nat, data: bytes, edit: Edit)
    requires |StatBody(name, mode, size)| < TWO64 && |name| < TWO64 && mode < TWO64 && size < TWO64
    requires |data| <= MAX_INT
    ensures Rewrite([StatMessage(name, mode, size), DataMessage(data)], None, Some(edit)) ==
            [StatMessage(name, mode, size),
             DataMessage(if IsDockerfileCalled(name) && |data| == size && edit(data).1 then edit(data).0 else data)]
  {
    var st, d := StatMessage(name, mode, size), DataMessage(data);
    StatPasses(name, mode, size, edit);
    DataPasses(data, edit);
    DataEmitted(name, size, data, edit);
    assert IsDockerfileCalled(name) ==> name != [];
    hide EmittedFor, NextStat, IsDockerfileCalled, DataMessage, StatMessage, StatBody, Rewrite;
    var cur := NextStat(st, None);
    RewriteCons(st, [d], None, Some(edit));
    RewriteCons(d, [], cur, Some(edit));
    NothingRewritten(edit);
    assert [st] + [d] == [st, d] && [d] + [] == [d];
    var e := EmittedFor(d, cur, Some(edit));
    assert [st] + ([e] + []) == [st, e];
  }

  lemma NothingRewritten(edit: Edit)
    ensures forall cur :: Rewrite([], cur, Some(edit)) == []
  {
  }

  lemma StatPasses(name: bytes, mode: nat, size: nat, edit: Edit)
    requires |StatBody(name, mode, size)| < TWO64 && |name| < TWO64 && mode < TWO64 && size < TWO64
    ensures EmittedFor(StatMessage(name, mode, size), None, Some(edit)) == StatMessage(name, mode, size)
    ensures NextStat(StatMessage(name, mode, size), None) ==
            if name == [] || size > MAX_INT then None else Some(Stat(name, size))
  {
    StatSeen(name, mode, size);
    hide Seen, StatMessage, StatBody, DiffCopyRewrite;
  }

  lemma DataPasses(data: bytes, edit: Edit)
    requires |data| < TWO64
    ensures EmittedFor(DataMessage(data), None, Some(edit)) == DataMessage(data)
  {
  }

  /** Three length-delimited fields, the shape of a file record as the `/grpc` route carries it. */
  function Triple(a: nat, b: nat, c: nat, u: bytes, v: bytes, w: bytes): bytes {
    LenField(a, u) + (LenField(b, v) + LenField(c, w))
  }

  lemma TripleFields(a: nat, b: nat, c: nat, u: bytes, v: bytes, w: bytes)
    requires a < TWO64 / 8 && b < TWO64 / 8 && c < TWO64 / 8 && |u| < TWO64 && |v| < TWO64 && |w| < TWO64
    ensures ParsedFields(Triple(a, b, c, u, v, w)) == Some([LenF(a, u), LenF(b, v), LenF(c, w)])
  {
    hide Fields, LenField;
    LenFieldParses(a, u);
    LenFieldParses(b, v);
    LenFieldParses(c, w);
    TwoFields(LenField(b, v), LenField(c, w), LenF(b, v), LenF(c, w));
    FieldsAppend(LenField(a, u), LenField(b, v) + LenField(c, w));
    assert [LenF(a, u)] + [LenF(b, v), LenF(c, w)] == [LenF(a, u), LenF(b, v), LenF(c, w)];
  }

  lemma ThreeParts(a: bytes, b: bytes, c: bytes)
    ensures Flatten([a, b, c]) == a + (b + c)
  {
    FlattenSnoc([], a);
    FlattenSnoc([a], b);
    FlattenSnoc([a, b], c);
    assert [] + [a] == [a] && [a] + [b] == [a, b] && [a, b] + [c] == [a, b, c];
    Assoc(a, b, c);
  }

  /** What becomes of a value under a new one, if there is one. */
  function Now(v: bytes, x: Option<bytes>): bytes {
    if x.Some? then x.value else v
  }

  lemma PatchedTriple(a: nat, b: nat, c: nat, u: bytes, v: bytes, w: bytes, vs: seq<Option<bytes>>)
    requires |vs| == 3
    ensures Flatten(AllBytes(Patched([LenF(a, u), LenF(b, v), LenF(c, w)], vs))) ==
            Triple(a, b, c, Now(u, vs[0]), Now(v, vs[1]), Now(w, vs[2]))
  {
    hide LenField;
    var parts := [LenField(a, Now(u, vs[0])), LenField(b, Now(v, vs[1])), LenField(c, Now(w, vs[2]))];
    assert AllBytes(Patched([LenF(a, u), LenF(b, v), LenF(c, w)], vs)) == parts;
    ThreeParts(parts[0], parts[1], parts[2]);
  }

  /** Whether anything has a new value or not, the rewriting is the fields around their values now. */
  lemma RewrittenIs(m: bytes, edit: Edit)
    requires ParsedFields(m).Some?
    ensures Rewritten(m, edit).0 == Flatten(AllBytes(Patched(ParsedFields(m).value, NewValues(m, edit))))
  {
    var vs := NewValues(m, edit);
    hide NewValues, AllBytes, Patched, Fields;
    if forall i | 0 <= i < |vs| :: vs[i].None? {
      UnpatchedBytes(m, vs);
    }
  }

  lemma OnItsOwn(f: Field, edit: Edit)
    requires f.wt == 2
    ensures Now(f.val, FromRecursion(f, edit)) == Rewritten(f.val, edit).0
  {
  }

  /** Any three length-delimited fields, in bytes.  They are a file record exactly if they are numbered 1, 2, 3
      and the first is a Dockerfile's name; then the second holds the edited content, if the edit wants it.
      Every other value is rewritten on its own account. */
  lemma ServedRecord(a: nat, b: nat, c: nat, u: bytes, v: bytes, w: bytes, edit: Edit)
    requires a < TWO64 / 8 && b < TWO64 / 8 && c < TWO64 / 8 && |u| < TWO64 && |v| < TWO64 && |w| < TWO64
    ensures Rewritten(Triple(a, b, c, u, v, w), edit).0 ==
            Triple(a, b, c, Rewritten(u, edit).0,
                   if [a, b, c] == [1, 2, 3] && IsDockerfileCalled(u) && edit(v).1 && edit(v).0 != v
                   then edit(v).0 else Rewritten(v, edit).0,
                   Rewritten(w, edit).0)
  {
    var m := Triple(a, b, c, u, v, w);
    var fs := [LenF(a, u), LenF(b, v), LenF(c, w)];
    TripleFields(a, b, c, u, v, w);
    RewrittenIs(m, edit);
    PatchedTriple(a, b, c, u, v, w, NewValues(m, edit));
    TripleValues(m, fs, edit);
    OnItsOwn(fs[0], edit);
    OnItsOwn(fs[1], edit);
    OnItsOwn(fs[2], edit);
    assert IsDockerfileName(u) <==> IsDockerfileCalled(u);
    assert [a, b, c] == [1, 2, 3] <==> a == 1 && b == 2 && c == 3;
    hide ParsedFields, Triple, IsDockerfileName, IsDockerfileCalled, Rewritten, FromRecursion, NewValues, Patched,
         AllBytes;
  }

  lemma OddFields(u: bytes, v: bytes, z: bytes, g: Field)
    requires |u| < TWO64 && |v| < TWO64 && Fields(z) == Some([g])
    ensures ParsedFields(LenField(1, u) + (LenField(2, v) + z)) == Some([LenF(1, u), LenF(2, v), g])
  {
    hide Fields, LenField;
    LenFieldParses(1, u);
    LenFieldParses(2, v);
    TwoFields(LenField(2, v), z, LenF(2, v), g);
    FieldsAppend(LenField(1, u), LenField(2, v) + z);
    assert [LenF(1, u)] + [LenF(2, v), g] == [LenF(1, u), LenF(2, v), g];
  }

  lemma OddPatched(u: bytes, v: bytes, g: Field, x: Option<bytes>, y: Option<bytes>)
    requires g.patched == None
    ensures Flatten(AllBytes(Patched([LenF(1, u), LenF(2, v), g], [x, y, None]))) ==
            LenField(1, Now(u, x)) + (LenField(2, Now(v, y)) + g.orig)
  {
    hide LenField;
    var parts := [LenField(1, Now(u, x)), LenField(2, Now(v, y)), g.orig];
    assert AllBytes(Patched([LenF(1, u), LenF(2, v), g], [x, y, None])) == parts;
    ThreeParts(parts[0], parts[1], parts[2]);
  }

  lemma OddValues(m: bytes, fs: seq<Field>, edit: Edit)
    requires ParsedFields(m) == Some(fs) && |fs| == 3 && fs[2].wt != 2
    ensures NewValues(m, edit) == [FromRecursion(fs[0], edit), FromRecursion(fs[1], edit), None]
  {
    TripleValues(m, fs, edit);
    hide ParsedFields, NewValues;
    assert FromRecursion(fs[2], edit) == None;
    assert !IsRecordContent(fs, 1);
  }

  /** What is no attribute field, here anything but a length-delimited one, makes no record. */
  lemma OddAttributes(u: bytes, v: bytes, z: bytes, g: Field, edit: Edit)
    requires |u| < TWO64 && |v| < TWO64 && Fields(z) == Some([g]) && g.wt != 2
    ensures Rewritten(LenField(1, u) + (LenField(2, v) + z), edit).0 ==
            LenField(1, Rewritten(u, edit).0) + (LenField(2, Rewritten(v, edit).0) + z)
  {
    var m := LenField(1, u) + (LenField(2, v) + z);
    var f, h := LenF(1, u), LenF(2, v);
    AloneIs(z, g);
    OddFields(u, v, z, g);
    assert f.wt == 2 && h.wt == 2 && f.val == u && h.val == v;
    hide *;
    RewrittenIs(m, edit);
    OddValues(m, [f, h, g], edit);
    OddPatched(u, v, g, FromRecursion(f, edit), FromRecursion(h, edit));
    OnItsOwn(f, edit);
    OnItsOwn(h, edit);
  }

  lemma AloneIs(z: bytes, g: Field)
    requires Fields(z) == Some([g])
    ensures g.orig == z && g.patched == None
  {
    FieldsPartition(z);
    assert Origs([g]) == [g.orig];
    assert Flatten([g.orig]) == g.orig + Flatten<byte>([]);
  }

  /** Only the second of three fields can be a record's content. */
  lemma TripleValues(m: bytes, fs: seq<Field>, edit: Edit)
    requires ParsedFields(m) == Some(fs) && |fs| == 3
    ensures var r := [FromRecursion(fs[0], edit), FromRecursion(fs[1], edit), FromRecursion(fs[2], edit)];
            NewValues(m, edit) ==
            if IsRecordContent(fs, 1) && Edits(edit, fs[1].val) then r[1 := Some(edit(fs[1].val).0)] else r
  {
    hide ParsedFields, FromRecursion;
    assert !IsRecordContent(fs, 0) && !IsRecordContent(fs, 2);
  }
}
