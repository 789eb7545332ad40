/** Protobuf messages as sequences of fields: `parseFields` and `encodeLenField`
    (internal/proxy/grpcfilter.go). */
module Protobuf {
  import opened Bytes
  import opened Varints

  const WT_VARINT: nat := 0
  const WT_FIXED64: nat := 1
  const WT_LEN: nat := 2
  const WT_FIXED32: nat := 5

  /** One parsed field: `orig` is its whole encoding, `val` the value of a length-delimited
      field, `uval` the value of a varint field, `patched` a replacement encoding. */
  datatype Field = Field(num: nat, wt: nat, orig: bytes, val: bytes, uval: nat, patched: Option<bytes>) {
    /** The encoding to emit: the replacement if there is one. */
    function Bytes(): bytes {
      if patched.Some? then patched.value else orig
    }
  }

  /** `field<<3|wtLen` is a 64-bit word. */
  function LenTag(num: nat): (t: nat)
    ensures t < TWO64
  {
    num * 8 % TWO64 + WT_LEN
  }

  /** Tag, length, value. */
  function LenField(num: nat, val: bytes): (e: bytes)
    ensures |e| > |val| + 1
  {
    Encoded(LenTag(num)) + Encoded(|val|) + val
  }

  /** What follows a tag: its length in bytes, the value if length-delimited, the number if varint. */
  datatype Content = Content(len: nat, val: bytes, uval: nat)

  /** The content of a field of wire type `wt` at the front of `b`, if it is all there. */
  function ContentFrom(wt: nat, b: bytes): (r: Option<Content>)
    ensures r.Some? ==> |r.value.val| <= r.value.len <= |b|
    ensures r.Some? && wt != WT_LEN ==> r.value.val == []
  {
    if wt == WT_VARINT then
      match VarintFrom(b, 0)
      case None => None
      case Some(u) => Some(Content(u.len, [], u.value))
    else if wt == WT_FIXED64 then
      if |b| < 8 then None else Some(Content(8, [], 0))
    else if wt == WT_FIXED32 then
      if |b| < 4 then None else Some(Content(4, [], 0))
    else if wt == WT_LEN then
      match VarintFrom(b, 0)
      case None => None
      case Some(l) =>
        if l.len + l.value > |b| then None
        else Some(Content(l.len + l.value, b[l.len..l.len + l.value], 0))
    else None
  }

  /** The field at the front of `m`, if there is a whole one. */
  function FirstField(m: bytes): (r: Option<Field>)
    ensures r.Some? ==> 0 < |r.value.orig| <= |m| && r.value.orig == m[..|r.value.orig|]
    ensures r.Some? ==> |r.value.val| < |r.value.orig| && r.value.patched == None
    ensures r.Some? && r.value.wt != WT_LEN ==> r.value.val == []
  {
    match VarintFrom(m, 0)
    case None => None
    case Some(tag) =>
      match ContentFrom(tag.value % 8, m[tag.len..])
      case None => None
      case Some(c) => Some(Field(tag.value / 8, tag.value % 8, m[..tag.len + c.len], c.val, c.uval, None))
  }

  /** All fields of `m`, when `m` is a concatenation of whole fields. */
  function Fields(m: bytes): (r: Option<seq<Field>>)
    ensures r.Some? ==> forall i | 0 <= i < |r.value| ::
      |r.value[i].val| < |r.value[i].orig| <= |m| && r.value[i].patched == None
    ensures r.Some? && m != [] ==> r.value != []
  {
    if m == [] then Some([])
    else match FirstField(m)
      case None => None
      case Some(f) =>
        match Fields(m[|f.orig|..])
        case None => None
        case Some(fs) => Some([f] + fs)
  }

  /** What `parseFields` returns; nil, here None, also for the empty message. */
  function ParsedFields(m: bytes): (r: Option<seq<Field>>)
    ensures r.Some? ==> r.value != []
    ensures r.Some? ==> forall i | 0 <= i < |r.value| :: |r.value[i].val| < |m| && r.value[i].patched == None
  {
    if m == [] then None else Fields(m)
  }

  function Origs(fs: seq<Field>): seq<bytes> {
    seq(|fs|, i requires 0 <= i < |fs| => fs[i].orig)
  }

  function AllBytes(fs: seq<Field>): seq<bytes> {
    seq(|fs|, i requires 0 <= i < |fs| => fs[i].Bytes())
  }

  /** The fields with a replacement encoding for each new value in `vs`. */
  function Patched(fs: seq<Field>, vs: seq<Option<bytes>>): seq<Field>
    requires |fs| == |vs|
  {
    seq(|fs|, i requires 0 <= i < |fs| =>
      if vs[i].None? then fs[i] else fs[i].(patched := Some(LenField(fs[i].num, vs[i].value))))
  }

  /** The fields as a reader of the patched message must see them. */
  function Refreshed(fs: seq<Field>, vs: seq<Option<bytes>>): seq<Field>
    requires |fs| == |vs|
  {
    seq(|fs|, i requires 0 <= i < |fs| =>
      if vs[i].None? then fs[i]
      else Field(fs[i].num, WT_LEN, LenField(fs[i].num, vs[i].value), vs[i].value, 0, None))
  }

  lemma OrigsCons(f: Field, fs: seq<Field>)
    ensures Flatten(Origs([f] + fs)) == f.orig + Flatten(Origs(fs))
  {
    assert Origs([f] + fs)[1..] == Origs(fs);
  }

  lemma NoOrigs()
    ensures Flatten(Origs([])) == []
  {
  }

  /** Parsing partitions the message: the spans of the fields, in order, are the message. */
  lemma {:induction false} FieldsPartition(m: bytes)
    requires Fields(m).Some?
    ensures Flatten(Origs(Fields(m).value)) == m
  {
    hide FirstField, Origs, Flatten;
    if m == [] {
      NoOrigs();
    } else {
      var f := FirstField(m).value;
      var rest := m[|f.orig|..];
      FieldsPartition(rest);
      OrigsCons(f, Fields(rest).value);
      assert m == f.orig + rest;
    }
  }

  lemma ContentLocal(wt: nat, b: bytes, suffix: bytes)
    requires ContentFrom(wt, b).Some?
    ensures ContentFrom(wt, b[..ContentFrom(wt, b).value.len] + suffix) == ContentFrom(wt, b)
  {
    var n := ContentFrom(wt, b).value.len;
    if wt == WT_VARINT {
      VarintPrefix(b, 0, suffix);
    } else if wt == WT_LEN {
      var l := VarintFrom(b, 0).value;
      VarintPrefix(b, 0, b[l.len..n] + suffix);
      assert b[..l.len] + (b[l.len..n] + suffix) == b[..n] + suffix;
      assert (b[..n] + suffix)[l.len..n] == b[l.len..n];
    }
  }

  /** A field's own bytes are all that its parse depends on. */
  lemma FirstFieldLocal(m: bytes, suffix: bytes)
    requires FirstField(m).Some?
    ensures FirstField(FirstField(m).value.orig + suffix) == FirstField(m)
  {
    var f := FirstField(m).value;
    var tag := VarintFrom(m, 0).value;
    var rest := m[tag.len..];
    var n := ContentFrom(f.wt, rest).value.len;
    VarintPrefix(m, 0, rest[..n] + suffix);
    ContentLocal(f.wt, rest, suffix);
    var m' := f.orig + suffix;
    assert m[..tag.len] + (rest[..n] + suffix) == m';
    assert m'[tag.len..] == rest[..n] + suffix;
    assert m'[..tag.len + n] == f.orig;
  }

  /** A message that begins with a field's bytes parses to that field and then the rest. */
  lemma FieldsCons(m: bytes, suffix: bytes)
    requires FirstField(m).Some?
    ensures Fields(FirstField(m).value.orig + suffix) == Prepend([FirstField(m).value], Fields(suffix))
  {
    hide FirstField;
    var o := FirstField(m).value.orig;
    FirstFieldLocal(m, suffix);
    assert (o + suffix)[|o|..] == suffix;
  }

  /** Parsing is compositional: a parsable prefix contributes its own fields. */
  lemma {:induction false} FieldsAppend(a: bytes, b: bytes)
    requires Fields(a).Some?
    ensures Fields(a + b) == Prepend(Fields(a).value, Fields(b))
    decreases |a|
  {
    hide FirstField;
    if a == [] {
      assert a + b == b;
      PrependNone(Fields(b));
    } else {
      var f := FirstField(a).value;
      var rest := a[|f.orig|..];
      FieldsCons(a, rest + b);
      assert f.orig + (rest + b) == a + b;
      FieldsAppend(rest, b);
      assert Fields(a).value == [f] + Fields(rest).value;
      hide *;
      PrependFirst(f, Fields(rest).value, Fields(b));
    }
  }

  /** The bytes of one field, alone, parse to that field. */
  lemma FieldAlone(m: bytes)
    requires FirstField(m).Some?
    ensures Fields(FirstField(m).value.orig) == Some([FirstField(m).value])
  {
    hide FirstField;
    var f := FirstField(m).value;
    FieldsCons(m, []);
    assert f.orig + [] == f.orig && [f] + [] == [f];
  }

  /** Each parsed field's bytes, alone, parse to that field. */
  lemma {:induction false} FieldAt(m: bytes, i: nat)
    requires Fields(m).Some? && i < |Fields(m).value|
    ensures Fields(Fields(m).value[i].orig) == Some([Fields(m).value[i]])
    ensures Fields(m).value[i].num < TWO64 / 8
    ensures Fields(m).value[i].wt != WT_LEN ==> Fields(m).value[i].val == []
  {
    if i == 0 {
      FieldAlone(m);
      VarintBound(m, 0);
      Pow2Constants();
    } else {
      FieldAt(m[|FirstField(m).value.orig|..], i - 1);
    }
  }

  lemma TagParts(num: nat)
    requires num < TWO64 / 8
    ensures LenTag(num) / 8 == num && LenTag(num) % 8 == WT_LEN
  {
  }

  lemma LenContent(val: bytes)
    requires |val| < TWO64
    ensures ContentFrom(WT_LEN, Encoded(|val|) + val) == Some(Content(|Encoded(|val|) + val|, val, 0))
  {
    hide VarintFrom, Encoded;
    var l := Encoded(|val|);
    VarintRoundTrip(|val|, val);
    assert (l + val)[|l|..|l| + |val|] == val;
  }

  lemma FieldOf(t: bytes, c: bytes, tag: nat, content: Content)
    requires t != [] && VarintFrom(t + c, 0) == Some(Varint(tag, |t|))
    requires ContentFrom(tag % 8, c) == Some(content) && content.len == |c|
    ensures FirstField(t + c) == Some(Field(tag / 8, tag % 8, t + c, content.val, content.uval, None))
  {
    hide VarintFrom, ContentFrom;
    assert (t + c)[|t|..] == c && (t + c)[..|t| + |c|] == t + c;
  }

  /** A re-encoded length-delimited field parses to its number and value. */
  lemma LenFieldParses(num: nat, val: bytes)
    requires num < TWO64 / 8 && |val| < TWO64
    ensures Fields(LenField(num, val)) == Some([Field(num, WT_LEN, LenField(num, val), val, 0, None)])
  {
    hide LenTag, VarintFrom, Encoded, Fields, ContentFrom, FirstField;
    var t, c := Encoded(LenTag(num)), Encoded(|val|) + val;
    TagParts(num);
    LenContent(val);
    VarintRoundTrip(LenTag(num), c);
    FieldOf(t, c, LenTag(num), Content(|c|, val, 0));
    assert LenField(num, val) == t + c;
    FieldAlone(t + c);
  }

  /** A varint field on the wire: wire type 0. */
  function VarintField(num: nat, n: nat): bytes {
    Encoded(num * 8) + Encoded(n)
  }

  /** A varint field parses to its number and the number it holds. */
  lemma VarintFieldParses(num: nat, n: nat)
    requires num < TWO64 / 8 && n < TWO64
    ensures Fields(VarintField(num, n)) == Some([Field(num, 0, VarintField(num, n), [], n, None)])
  {
    hide VarintFrom, Encoded, Fields, FirstField;
    var t, c := Encoded(num * 8), Encoded(n);
    VarintRoundTrip(num * 8, c);
    VarintRoundTrip(n, []);
    assert c + [] == c;
    assert num * 8 / 8 == num && num * 8 % 8 == 0;
    FieldOf(t, c, num * 8, Content(|c|, [], n));
    FieldAlone(t + c);
  }

  /** A fixed field on the wire, wire type 1 with eight bytes or 5 with four, is one field. */
  lemma FixedFieldParses(num: nat, wt: nat, body: bytes)
    requires num < TWO64 / 8 && ((wt == 1 && |body| == 8) || (wt == 5 && |body| == 4))
    ensures var m := Encoded(num * 8 + wt) + body; Fields(m) == Some([Field(num, wt, m, [], 0, None)])
  {
    hide VarintFrom, Encoded, Fields, FirstField;
    var t := Encoded(num * 8 + wt);
    VarintRoundTrip(num * 8 + wt, body);
    assert (num * 8 + wt) / 8 == num && (num * 8 + wt) % 8 == wt;
    FieldOf(t, body, num * 8 + wt, Content(|body|, [], 0));
    FieldAlone(t + body);
  }

  /** What has to follow a tag of each wire type; groups and unknown types are refused. */
  ghost predicate Follows(wt: nat, b: bytes) {
    || (wt == 0 && exists n: nat :: NumberOf(b, n))
    || (wt == 1 && |b| >= 8)
    || (wt == 5 && |b| >= 4)
    || (wt == 2 && exists n: nat :: NumberOf(b, n) && n + Numeral(b[..n]) % TWO64 <= |b|)
  }

  lemma ContentIff(wt: nat, b: bytes)
    ensures ContentFrom(wt, b).Some? <==> Follows(wt, b)
  {
    NumberIff(b);
    hide VarintFrom, NumberOf, Numeral;
  }

  /** A message begins with a field exactly if there is what has to follow the tag. */
  lemma FieldIff(tag: nat, b: bytes)
    requires tag < TWO64
    ensures FirstField(Encoded(tag) + b).Some? <==> Follows(tag % 8, b)
  {
    VarintRoundTrip(tag, b);
    ContentIff(tag % 8, b);
    hide VarintFrom, Encoded, ContentFrom, Follows;
    var m := Encoded(tag) + b;
    assert m[|Encoded(tag)|..] == b;
  }

  /** Length-delimited is wire type 2. */
  lemma LenFieldIs(num: nat, val: bytes)
    requires num < TWO64 / 8
    ensures LenField(num, val) == Encoded(num * 8 + 2) + Encoded(|val|) + val
  {
    hide Encoded;
  }

  /** Fields that each parse alone, with any of them re-encoded around a new value, parse to the
      same fields with those values: this is what keeps every enclosing message readable. */
  lemma {:induction false} PatchedParses(fs: seq<Field>, vs: seq<Option<bytes>>)
    requires |fs| == |vs|
    requires forall i | 0 <= i < |fs| ::
               fs[i].patched == None && Fields(fs[i].orig) == Some([fs[i]]) && fs[i].num < TWO64 / 8
    requires forall i | 0 <= i < |fs| :: vs[i].Some? ==> |vs[i].value| < TWO64
    ensures Fields(Flatten(AllBytes(Patched(fs, vs)))) == Some(Refreshed(fs, vs))
  {
    hide Fields, LenField;
    if fs == [] {
      assert Fields([]) == Some([]) by { EmptyFields(); }
    } else {
      PatchedParses(fs[1..], vs[1..]);
      var parts := AllBytes(Patched(fs, vs));
      assert parts[1..] == AllBytes(Patched(fs[1..], vs[1..]));
      var r := Refreshed(fs, vs);
      assert r == [r[0]] + Refreshed(fs[1..], vs[1..]);
      if vs[0].Some? {
        LenFieldParses(fs[0].num, vs[0].value);
      }
      assert Fields(parts[0]) == Some([r[0]]);
      FieldsAppend(parts[0], Flatten(parts[1..]));
    }
  }

  lemma EmptyFields()
    ensures Fields([]) == Some([])
  {
  }

  /** Patching nothing gives back the message. */
  lemma UnpatchedBytes(m: bytes, vs: seq<Option<bytes>>)
    requires Fields(m).Some? && |vs| == |Fields(m).value|
    requires forall i | 0 <= i < |vs| :: vs[i].None?
    ensures Flatten(AllBytes(Patched(Fields(m).value, vs))) == m
  {
    var fs := Fields(m).value;
    FieldsPartition(m);
    assert AllBytes(Patched(fs, vs)) == Origs(fs);
  }

  /** `append(out, f.bytes()...)` for every field. */
  method AppendBytes(fs: seq<Field>) returns (out: bytes)
    ensures out == Flatten(AllBytes(fs))
  {
    out := [];
    for i := 0 to |fs|
      invariant out == Flatten(AllBytes(fs[..i]))
    {
      assert AllBytes(fs[..i + 1]) == AllBytes(fs[..i]) + [fs[i].Bytes()];
      FlattenSnoc(AllBytes(fs[..i]), fs[i].Bytes());
      out := out + fs[i].Bytes();
    }
    assert fs[..|fs|] == fs;
  }

  /** `encodeLenField`. */
  method EncodeLenField(num: nat, val: bytes) returns (out: bytes)
    requires num < TWO64 && |val| < TWO64
    ensures out == LenField(num, val)
  {
    out := AppendVarint([], LenTag(num));
    var l := AppendVarint([], |val|);
    out := out + l + val;
  }

  /** One turn of the parsing loop: the fields from `i` on are a field and those after it, or none. */
  lemma FieldsFrom(m: bytes, i: nat, fs: seq<Field>)
    requires i < |m|
    requires Fields(m) == Prepend(fs, Fields(m[i..]))
    ensures FirstField(m[i..]).None? ==> ParsedFields(m) == None
    ensures match FirstField(m[i..])
            case None => true
            case Some(f) => Fields(m) == Prepend(fs + [f], Fields(m[i + |f.orig|..]))
  {
    hide FirstField;
    if FirstField(m[i..]).Some? {
      var f := FirstField(m[i..]).value;
      assert m[i..][|f.orig|..] == m[i + |f.orig|..];
      PrependTwice(fs, f, Fields(m[i + |f.orig|..]));
    }
  }

  lemma FieldsStart(m: bytes)
    ensures Fields(m) == Prepend([], Fields(m[0..]))
  {
    assert m[0..] == m;
    PrependNone(Fields(m));
  }

  lemma FieldsEnd(m: bytes, i: nat, fs: seq<Field>)
    requires i == |m| && Fields(m) == Prepend(fs, Fields(m[i..]))
    requires fs == [] <==> i == 0
    ensures ParsedFields(m) == if fs == [] then None else Some(fs)
  {
    assert m[i..] == [] && fs + [] == fs;
  }

  /** The `switch wt` of `parseFields`: the content that starts at `m[i]`. */
  method ParseContent(m: bytes, i: nat, wt: nat) returns (r: Option<Content>)
    requires i <= |m|
    ensures r == ContentFrom(wt, m[i..])
  {
    if wt == WT_VARINT {
      var u, n := VarintAt(m, i);
      return if n == 0 then None else Some(Content(n, [], u));
    } else if wt == WT_FIXED64 {
      return if i + 8 > |m| then None else Some(Content(8, [], 0));
    } else if wt == WT_FIXED32 {
      return if i + 4 > |m| then None else Some(Content(4, [], 0));
    } else if wt == WT_LEN {
      var l, ln := VarintAt(m, i);
      if ln == 0 || l > |m| {
        return None;
      }
      if i + ln + l > |m| {
        return None;
      }
      assert m[i + ln..i + ln + l] == m[i..][ln..ln + l];
      return Some(Content(ln + l, m[i + ln..i + ln + l], 0));
    }
    return None;
  }

  /** One turn of the loop of `parseFields`: the field that starts at `m[i]`. */
  method ParseField(m: bytes, i: nat) returns (r: Option<Field>)
    requires i <= |m|
    ensures r == FirstField(m[i..])
  {
    hide VarintFrom, ContentFrom;
    var tag, n := VarintAt(m, i);
    if n == 0 {
      return None;
    }
    assert m[i..][n..] == m[i + n..];
    var c := ParseContent(m, i + n, tag % 8);
    if c.None? {
      return None;
    }
    var end := i + n + c.value.len;
    assert m[i..end] == m[i..][..n + c.value.len];
    return Some(Field(tag / 8, tag % 8, m[i..end], c.value.val, c.value.uval, None));
  }

  /** `parseFields`: one pass with an index, giving up on the first malformed field. */
  method ParseFields(m: bytes) returns (r: Option<seq<Field>>)
    ensures r == ParsedFields(m)
  {
    hide *;
    var fs: seq<Field> := [];
    var i := 0;
    FieldsStart(m);
    while i < |m|
      invariant i <= |m|
      invariant Fields(m) == Prepend(fs, Fields(m[i..]))
      invariant fs == [] <==> i == 0
    {
      FieldsFrom(m, i, fs);
      var f := ParseField(m, i);
      if f.None? {
        return None;
      }
      fs := fs + [f.value];
      i := i + |f.value.orig|;
    }
    r := if fs == [] then None else Some(fs);
    FieldsEnd(m, i, fs);
  }
}
