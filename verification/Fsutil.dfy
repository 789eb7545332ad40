/** fsutil packets inside gRPC messages: `classifyPacket`, `parseFSUTILStat`, `patchLenField` and
    `rewriteDiffCopyData` (internal/proxy/session.go). */
module Fsutil {
  import opened Bytes
  import opened Protobuf
  import opened Records

  /** `math.MaxInt`. */
  const MAX_INT: nat := MAX_LEN - 1

  datatype Stat = Stat(path: bytes, size: nat)

  datatype Packet = StatPacket(st: Stat) | DataPacket(data: bytes) | OtherPacket

  /** A length-delimited field with this number. */
  predicate IsLen(f: Field, num: nat) {
    f.num == num && f.wt == WT_LEN
  }

  /** The path (field 1) and size (field 5) a Stat message ends up with; the last one counts. */
  function StatOf(fs: seq<Field>, st: Stat): Option<Stat> {
    if fs == [] then Some(st)
    else if IsLen(fs[0], 1) then StatOf(fs[1..], st.(path := fs[0].val))
    else if fs[0].num == 5 && fs[0].wt == WT_VARINT then
      if fs[0].uval > MAX_INT then None else StatOf(fs[1..], st.(size := fs[0].uval))
    else StatOf(fs[1..], st)
  }

  function ParsedStat(m: bytes): (r: Option<Stat>)
    ensures r.Some? ==> r.value.path != []
  {
    if ParsedFields(m).None? then None
    else match StatOf(ParsedFields(m).value, Stat([], 0))
      case None => None
      case Some(st) => if st.path == [] then None else Some(st)
  }

  predicate IsPath(f: Field) {
    f.num == 1 && f.wt == 2
  }

  predicate IsSize(f: Field) {
    f.num == 5 && f.wt == 0
  }

  /** Field `i` is the last one that satisfies `p`. */
  predicate LastField(fs: seq<Field>, p: Field -> bool, i: nat) {
    i < |fs| && p(fs[i]) && forall j | i < j < |fs| :: !p(fs[j])
  }

  /** What the fields of a Stat say, by index: the path of the last path field, the number of the last size
      field, empty and 0 if there is none. */
  ghost predicate SaysStat(fs: seq<Field>, st: Stat) {
    && (forall i: nat | LastField(fs, IsPath, i) :: st.path == fs[i].val)
    && ((forall i | 0 <= i < |fs| :: !IsPath(fs[i])) ==> st.path == [])
    && (forall i: nat | LastField(fs, IsSize, i) :: st.size == fs[i].uval)
    && ((forall i | 0 <= i < |fs| :: !IsSize(fs[i])) ==> st.size == 0)
  }

  predicate TooLarge(fs: seq<Field>) {
    exists i | 0 <= i < |fs| :: IsSize(fs[i]) && fs[i].uval > MAX_INT
  }

  /** One field more. */
  lemma {:induction false} StatSnoc(fs: seq<Field>, f: Field, st: Stat)
    ensures StatOf(fs + [f], st) ==
            match StatOf(fs, st)
            case None => None
            case Some(r) => StatOf([f], r)
  {
    if fs == [] {
      assert fs + [f] == [f];
    } else {
      assert (fs + [f])[0] == fs[0] && (fs + [f])[1..] == fs[1..] + [f];
      StatSnoc(fs[1..], f, st);
      StatSnoc(fs[1..], f, st.(path := fs[0].val));
      StatSnoc(fs[1..], f, st.(size := fs[0].uval));
    }
  }

  lemma {:induction false} StatOfIs(fs: seq<Field>)
    ensures StatOf(fs, Stat([], 0)).None? <==> TooLarge(fs)
    ensures StatOf(fs, Stat([], 0)).Some? ==> SaysStat(fs, StatOf(fs, Stat([], 0)).value)
    decreases |fs|
  {
    if fs != [] {
      var n := |fs| - 1;
      var front, f := fs[..n], fs[n];
      StatOfIs(front);
      StatSnoc(front, f, Stat([], 0));
      assert front + [f] == fs;
      StatOne(f);
      hide StatOf;
      MoreIsTooLarge(front, f);
      if StatOf(front, Stat([], 0)).Some? && StatOf(fs, Stat([], 0)).Some? {
        SaysMore(front, f, StatOf(front, Stat([], 0)).value, StatOf(fs, Stat([], 0)).value);
      }
    }
  }

  lemma StatOne(f: Field)
    ensures forall st: Stat :: StatOf([f], st) ==
              if IsPath(f) then Some(st.(path := f.val))
              else if IsSize(f) then (if f.uval > MAX_INT then None else Some(st.(size := f.uval)))
              else Some(st)
  {
    assert [f][1..] == [];
  }

  lemma MoreIsTooLarge(fs: seq<Field>, f: Field)
    ensures TooLarge(fs + [f]) <==> TooLarge(fs) || (IsSize(f) && f.uval > MAX_INT)
  {
    var all := fs + [f];
    assert all[|fs|] == f && forall i | 0 <= i < |fs| :: all[i] == fs[i];
  }

  lemma SaysMore(fs: seq<Field>, f: Field, st: Stat, r: Stat)
    requires SaysStat(fs, st)
    requires r == if IsPath(f) then st.(path := f.val) else if IsSize(f) then st.(size := f.uval) else st
    ensures SaysStat(fs + [f], r)
  {
    LastSnoc(fs, f, IsPath);
    LastSnoc(fs, f, IsSize);
    var all := fs + [f];
    assert all[|fs|] == f && forall i | 0 <= i < |fs| :: all[i] == fs[i];
  }

  lemma LastSnoc(fs: seq<Field>, f: Field, p: Field -> bool)
    ensures forall i: nat :: LastField(fs + [f], p, i) <==> if p(f) then i == |fs| else LastField(fs, p, i)
  {
    var all := fs + [f];
    assert all[|fs|] == f && forall i | 0 <= i < |fs| :: all[i] == fs[i];
  }

  lemma {:induction false} SomeLast(fs: seq<Field>, p: Field -> bool)
    requires exists i | 0 <= i < |fs| :: p(fs[i])
    ensures exists i: nat :: LastField(fs, p, i)
    decreases |fs|
  {
    var n := |fs| - 1;
    assert fs[..n] + [fs[n]] == fs;
    LastSnoc(fs[..n], fs[n], p);
    if p(fs[n]) {
      assert LastField(fs, p, n);
    } else {
      var i :| 0 <= i < |fs| && p(fs[i]);
      assert fs[..n][i] == fs[i];
      SomeLast(fs[..n], p);
    }
  }

  /** `parseFSUTILStat` by index over the fields: refused exactly if the message does not parse, some size is
      past the largest int, or there is no path or an empty one; otherwise path and size are what the last
      such fields say. */
  lemma ParsedStatIs(m: bytes)
    ensures ParsedStat(m).None? <==>
            || ParsedFields(m).None? || TooLarge(ParsedFields(m).value)
            || forall i: nat | LastField(ParsedFields(m).value, IsPath, i) :: ParsedFields(m).value[i].val == []
    ensures ParsedStat(m).Some? ==> SaysStat(ParsedFields(m).value, ParsedStat(m).value)
  {
    if ParsedFields(m).Some? {
      var fs := ParsedFields(m).value;
      StatOfIs(fs);
      hide ParsedFields, StatOf, LastField, IsPath, IsSize;
      if exists i | 0 <= i < |fs| :: IsPath(fs[i]) {
        SomeLast(fs, IsPath);
      }
    }
  }

  /** The first Stat (2) or Data (4) field decides what the packet is. */
  function PacketIn(fs: seq<Field>): Option<Packet> {
    if fs == [] then Some(OtherPacket)
    else if IsLen(fs[0], 2) then
      match ParsedStat(fs[0].val) case None => None case Some(st) => Some(StatPacket(st))
    else if IsLen(fs[0], 4) then Some(DataPacket(fs[0].val))
    else PacketIn(fs[1..])
  }

  function Classified(payload: bytes): Option<Packet> {
    if ParsedFields(payload).None? then None else PacketIn(ParsedFields(payload).value)
  }

  /** Every field `num` gets the value `val`, the others stay. */
  function Replacements(fs: seq<Field>, num: nat, val: bytes): (vs: seq<Option<bytes>>)
    ensures |vs| == |fs|
  {
    seq(|fs|, i requires 0 <= i < |fs| => if fs[i].num == num then Some(val) else None)
  }

  /** Field `num` can be replaced: it occurs, and only as a length-delimited field. */
  predicate Replaceable(fs: seq<Field>, num: nat) {
    && (exists i | 0 <= i < |fs| :: fs[i].num == num)
    && (forall i | 0 <= i < |fs| && fs[i].num == num :: fs[i].wt == WT_LEN)
  }

  /** The result of `patchLenField`. */
  function WithField(m: bytes, num: nat, val: bytes): Option<bytes> {
    if ParsedFields(m).None? || !Replaceable(ParsedFields(m).value, num) then None
    else Some(Flatten(AllBytes(Patched(ParsedFields(m).value, Replacements(ParsedFields(m).value, num, val)))))
  }

  /** The Stat announces a Dockerfile of exactly this content's length. */
  predicate Licenses(cur: Option<Stat>, data: bytes) {
    cur.Some? && IsDockerfileName(cur.value.path) && |data| == cur.value.size
  }

  /** The result of `rewriteDiffCopyData`: payload, old and new content length, changed. */
  datatype DiffCopy = DiffCopy(out: bytes, oldLen: nat, newLen: nat, changed: bool)

  function DataLen(payload: bytes): nat {
    if Classified(payload).Some? && Classified(payload).value.DataPacket? then |Classified(payload).value.data| else 0
  }

  /** The content of a Data packet that is to be edited under the given Stat. */
  predicate Editable(payload: bytes, cur: Option<Stat>, edit: Option<Edit>) {
    && edit.Some?
    && Classified(payload).Some? && Classified(payload).value.DataPacket?
    && Licenses(cur, Classified(payload).value.data)
    && Edits(edit.value, Classified(payload).value.data)
    && Replaceable(ParsedFields(payload).value, 4)
  }

  function DiffCopyRewrite(payload: bytes, cur: Option<Stat>, edit: Option<Edit>): DiffCopy {
    var n := DataLen(payload);
    if Editable(payload, cur, edit) then
      var nc := edit.value(Classified(payload).value.data).0;
      DiffCopy(WithField(payload, 4, nc).value, n, |nc|, true)
    else DiffCopy(payload, n, n, false)
  }

  /** A replaced field: the message re-parses to the same fields, each field `num` holding `val`. */
  lemma WithFieldParses(m: bytes, num: nat, val: bytes)
    requires WithField(m, num, val).Some? && |WithField(m, num, val).value| < MAX_LEN
    ensures var fs := ParsedFields(m).value;
            ParsedFields(WithField(m, num, val).value) == Some(Refreshed(fs, Replacements(fs, num, val)))
  {
    var fs := ParsedFields(m).value;
    var vs := Replacements(fs, num, val);
    var parts := AllBytes(Patched(fs, vs));
    hide ParsedFields;
    forall i | 0 <= i < |fs|
      ensures Fields(fs[i].orig) == Some([fs[i]]) && fs[i].num < TWO64 / 8
      ensures vs[i].Some? ==> |vs[i].value| < TWO64
    {
      Parsed(m);
      FieldAt(m, i);
      FlattenPart(parts, i);
    }
    PatchedParses(fs, vs);
    assert Refreshed(fs, vs) != [];
    Parsed(Flatten(parts));
  }

  /** A field is replaced exactly if it is there and length-delimited wherever it is; then the message has as
      many fields as before, of the same numbers and wire types, with the new value in each of that number. */
  lemma FieldReplacedIff(m: bytes, num: nat, val: bytes)
    requires ParsedFields(m).Some?
    ensures var fs := ParsedFields(m).value;
            WithField(m, num, val).Some? <==>
            num in Numbers(fs) && forall i | 0 <= i < |fs| :: fs[i].num != num || fs[i].wt == 2
    ensures WithField(m, num, val).Some? && |WithField(m, num, val).value| < MAX_LEN ==>
            var fs := ParsedFields(m).value;
            && ParsedFields(WithField(m, num, val).value).Some?
            && var gs := ParsedFields(WithField(m, num, val).value).value;
            && |gs| == |fs|
            && forall i | 0 <= i < |fs| ::
                 && gs[i].num == fs[i].num && gs[i].wt == fs[i].wt
                 && (if fs[i].num == num then gs[i].val == val else gs[i] == fs[i])
  {
    var fs := ParsedFields(m).value;
    hide ParsedFields;
    if num in Numbers(fs) {
      var i :| 0 <= i < |fs| && Numbers(fs)[i] == num;
      assert fs[i].num == num;
    }
    if i :| 0 <= i < |fs| && fs[i].num == num {
      assert Numbers(fs)[i] == num;
    }
    if WithField(m, num, val).Some? && |WithField(m, num, val).value| < MAX_LEN {
      WithFieldParses(m, num, val);
    }
  }

  function Numbers(fs: seq<Field>): seq<nat> {
    seq(|fs|, i requires 0 <= i < |fs| => fs[i].num)
  }

  lemma Parsed(m: bytes)
    ensures ParsedFields(m).Some? ==> Fields(m) == ParsedFields(m)
    ensures Fields(m).Some? && Fields(m).value != [] ==> ParsedFields(m) == Fields(m)
  {
  }

  /** Replacing field 4 in a Data packet leaves it a Data packet, with the new content. */
  lemma {:induction false} PacketAfter(fs: seq<Field>, val: bytes)
    requires PacketIn(fs).Some? && PacketIn(fs).value.DataPacket?
    requires forall i | 0 <= i < |fs| && fs[i].num == 4 :: fs[i].wt == WT_LEN
    ensures PacketIn(Refreshed(fs, Replacements(fs, 4, val))) == Some(DataPacket(val))
  {
    var gs := Refreshed(fs, Replacements(fs, 4, val));
    hide ParsedStat;
    if !IsLen(fs[0], 4) {
      PacketAfter(fs[1..], val);
      assert Refreshed(fs[1..], Replacements(fs[1..], 4, val)) == gs[1..];
    }
  }

  /** A reported change: the new payload is a Data packet holding the edited content, and its
      fields are the old ones with every field 4 replaced.  No change: the payload is untouched. */
  lemma DiffCopyMeaning(payload: bytes, cur: Option<Stat>, edit: Option<Edit>)
    requires |DiffCopyRewrite(payload, cur, edit).out| < MAX_LEN
    ensures var r := DiffCopyRewrite(payload, cur, edit);
            if r.changed then
              && Editable(payload, cur, edit)
              && var nc := edit.value(Classified(payload).value.data).0;
              && var fs := ParsedFields(payload).value;
              && Classified(r.out) == Some(DataPacket(nc))
              && ParsedFields(r.out) == Some(Refreshed(fs, Replacements(fs, 4, nc)))
              && r.newLen == |nc|
            else r.out == payload
  {
    if Editable(payload, cur, edit) {
      var nc := edit.value(Classified(payload).value.data).0;
      WithFieldParses(payload, 4, nc);
      PacketAfter(ParsedFields(payload).value, nc);
    }
  }

  /** The flag reports exactly whether the bytes differ. */
  lemma DiffCopyChangedIff(payload: bytes, cur: Option<Stat>, edit: Option<Edit>)
    requires |DiffCopyRewrite(payload, cur, edit).out| < MAX_LEN
    ensures DiffCopyRewrite(payload, cur, edit).changed <==> DiffCopyRewrite(payload, cur, edit).out != payload
  {
    hide ParsedFields, Replaceable, WithField;
    DiffCopyMeaning(payload, cur, edit);
  }

  /** `parseFSUTILStat`. */
  method ParseFSUTILStat(m: bytes) returns (r: Option<Stat>)
    ensures r == ParsedStat(m)
  {
    var p := ParseFields(m);
    if p.None? {
      return None;
    }
    hide ParsedFields;
    var fs := p.value;
    var st := Stat([], 0);
    assert fs[0..] == fs;
    for i := 0 to |fs|
      invariant StatOf(fs, Stat([], 0)) == StatOf(fs[i..], st)
    {
      assert fs[i..][0] == fs[i] && fs[i..][1..] == fs[i + 1..];
      var f := fs[i];
      if f.num == 1 && f.wt == WT_LEN {
        st := st.(path := f.val);
      } else if f.num == 5 && f.wt == WT_VARINT {
        if f.uval > MAX_INT {
          return None;
        }
        st := st.(size := f.uval);
      }
    }
    return if st.path != [] then Some(st) else None;
  }

  /** `classifyPacket`. */
  method ClassifyPacket(payload: bytes) returns (r: Option<Packet>)
    ensures r == Classified(payload)
  {
    var p := ParseFields(payload);
    if p.None? {
      return None;
    }
    hide ParsedFields, ParsedStat;
    var fs := p.value;
    assert fs[0..] == fs;
    for i := 0 to |fs|
      invariant PacketIn(fs) == PacketIn(fs[i..])
    {
      assert fs[i..][0] == fs[i] && fs[i..][1..] == fs[i + 1..];
      var f := fs[i];
      if f.num == 2 && f.wt == WT_LEN {
        var st := ParseFSUTILStat(f.val);
        return if st.None? then None else Some(StatPacket(st.value));
      } else if f.num == 4 && f.wt == WT_LEN {
        return Some(DataPacket(f.val));
      }
    }
    return Some(OtherPacket);
  }

  /** The loop of `patchLenField` has passed the first `i` fields. */
  ghost predicate DoneUpTo(fs: seq<Field>, orig: seq<Field>, vs: seq<Option<bytes>>, i: nat) {
    && |fs| == |orig| == |vs|
    && forall j | 0 <= j < |fs| :: fs[j] == if j < i then Patched(orig, vs)[j] else orig[j]
  }

  lemma DoNone(orig: seq<Field>, vs: seq<Option<bytes>>)
    requires |orig| == |vs|
    ensures DoneUpTo(orig, orig, vs, 0)
  {
  }

  lemma DoOne(fs: seq<Field>, orig: seq<Field>, num: nat, val: bytes, i: nat)
    requires i < |orig| && DoneUpTo(fs, orig, Replacements(orig, num, val), i)
    ensures |fs| == |orig| && fs[i] == orig[i]
    ensures DoneUpTo(if fs[i].num != num then fs else fs[i := fs[i].(patched := Some(LenField(num, val)))],
                     orig, Replacements(orig, num, val), i + 1)
  {
    hide LenField;
  }

  lemma DoneAll(fs: seq<Field>, orig: seq<Field>, vs: seq<Option<bytes>>)
    requires |orig| == |vs| && DoneUpTo(fs, orig, vs, |orig|)
    ensures fs == Patched(orig, vs)
  {
  }

  /** `patchLenField`. */
  method PatchLenField(m: bytes, num: nat, val: bytes) returns (r: Option<bytes>)
    ensures r == WithField(m, num, val)
  {
    var p := ParseFields(m);
    if p.None? {
      return None;
    }
    hide ParsedFields, LenField, DoneUpTo, Patched;
    var orig := p.value;
    var fs := orig;
    var found := false;
    ghost var vs := Replacements(orig, num, val);
    DoNone(orig, vs);
    for i := 0 to |fs|
      invariant |fs| == |orig|
      invariant DoneUpTo(fs, orig, vs, i)
      invariant found <==> exists j | 0 <= j < i :: orig[j].num == num
      invariant forall j | 0 <= j < i && orig[j].num == num :: orig[j].wt == WT_LEN
    {
      DoOne(fs, orig, num, val, i);
      if fs[i].num != num { continue; }
      if fs[i].wt != WT_LEN {
        assert orig[i].num == num && orig[i].wt != WT_LEN;
        return None;
      }
      fs := fs[i := fs[i].(patched := Some(LenField(num, val)))];
      found := true;
    }
    if !found {
      return None;
    }
    DoneAll(fs, orig, vs);
    var out := AppendBytes(fs);
    r := Some(out);
  }

  /** `rewriteDiffCopyData`. */
  method RewriteDiffCopyData(payload: bytes, cur: Option<Stat>, edit: Option<Edit>) returns (r: DiffCopy)
    ensures r == DiffCopyRewrite(payload, cur, edit)
  {
    hide ParsedFields, PacketIn, Replaceable;
    var pk := ClassifyPacket(payload);
    var n := if pk.Some? && pk.value.DataPacket? then |pk.value.data| else 0;
    if pk.None? || !pk.value.DataPacket? || edit.None? {
      return DiffCopy(payload, n, n, false);
    }
    var data := pk.value.data;
    if cur.None? || !IsDockerfileName(cur.value.path) || |data| != cur.value.size {
      return DiffCopy(payload, n, n, false);
    }
    var nc, ok := edit.value(data).0, edit.value(data).1;
    if !ok || nc == data {
      return DiffCopy(payload, n, n, false);
    }
    var np := PatchLenField(payload, 4, nc);
    if np.None? {
      return DiffCopy(payload, n, n, false);
    }
    return DiffCopy(np.value, n, |nc|, true);
  }
}
