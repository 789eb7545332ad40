/** Rewriting file records inside a protobuf message at any nesting depth: `rewriteRecords`
    (internal/proxy/grpcfilter.go). */
module Records {
  import opened Bytes
  import opened Varints
  import opened Protobuf
  import opened Paths

  /** `editFile`: original content to new content, and whether it is to be used. */
  type Edit = bytes -> (bytes, bool)

  /** Lengths of Go slices fit a signed 64-bit int. */
  const MAX_LEN: nat := 0x8000_0000_0000_0000

  /** `isDockerfileName` of a protobuf value. */
  predicate IsDockerfileName(s: bytes) {
    IsDockerfile(Chars(s))
  }

  /** The edit applies to `content` and would change it. */
  predicate Edits(edit: Edit, content: bytes) {
    edit(content).1 && edit(content).0 != content
  }

  /** Field `i` is the content of a file record: it follows a Dockerfile's name and precedes attributes. */
  predicate IsRecordContent(fs: seq<Field>, i: int) {
    && 1 <= i < |fs| - 1
    && fs[i - 1].num == 1 && fs[i - 1].wt == WT_LEN && IsDockerfileName(fs[i - 1].val)
    && fs[i].num == 2 && fs[i].wt == WT_LEN
    && fs[i + 1].num == 3 && fs[i + 1].wt == WT_LEN
  }

  /** What the recursion makes of a field. */
  ghost function FromRecursion(f: Field, edit: Edit): Option<bytes>
    decreases |f.val|, 3
  {
    if f.wt == WT_LEN && Rewritten(f.val, edit).1 then Some(Rewritten(f.val, edit).0) else None
  }

  /** The new value of field `i` of message `m`, or None when the field stays as it is.  An edited
      record content wins over what the recursion made of it. */
  ghost function NewValue(m: bytes, i: nat, edit: Edit): (r: Option<bytes>)
    requires ParsedFields(m).Some? && i < |ParsedFields(m).value|
    ensures r.Some? ==> ParsedFields(m).value[i].wt == WT_LEN
    decreases |m|, 0
  {
    var fs := ParsedFields(m).value;
    if IsRecordContent(fs, i) && Edits(edit, fs[i].val) then Some(edit(fs[i].val).0)
    else FromRecursion(fs[i], edit)
  }

  ghost function NewValues(m: bytes, edit: Edit): (r: seq<Option<bytes>>)
    requires ParsedFields(m).Some?
    ensures |r| == |ParsedFields(m).value|
    decreases |m|, 1
  {
    seq(|ParsedFields(m).value|, i requires 0 <= i < |ParsedFields(m).value| => NewValue(m, i, edit))
  }

  /** The result of `rewriteRecords`: the new message and whether anything changed. */
  ghost function Rewritten(m: bytes, edit: Edit): (bytes, bool)
    decreases |m|, 2
  {
    if ParsedFields(m).None? then (m, false)
    else
      var vs := NewValues(m, edit);
      if forall i | 0 <= i < |vs| :: vs[i].None? then (m, false)
      else (Flatten(AllBytes(Patched(ParsedFields(m).value, vs))), true)
  }

  /** A new value is no longer than the rewritten message. */
  lemma NewValueShort(m: bytes, i: nat, edit: Edit)
    requires Rewritten(m, edit).1 && i < |ParsedFields(m).value|
    ensures NewValue(m, i, edit).Some? ==> |NewValue(m, i, edit).value| < |Rewritten(m, edit).0|
  {
    var vs := NewValues(m, edit);
    var parts := AllBytes(Patched(ParsedFields(m).value, vs));
    assert vs[i] == NewValue(m, i, edit);
    FlattenPart(parts, i);
  }

  /** A changed message re-parses to as many fields, with the same numbers and wire types; fields
      without a new value are byte-identical, the others hold exactly their new value. */
  lemma RewrittenParses(m: bytes, edit: Edit)
    requires Rewritten(m, edit).1 && |Rewritten(m, edit).0| < MAX_LEN
    ensures ParsedFields(Rewritten(m, edit).0) == Some(Refreshed(ParsedFields(m).value, NewValues(m, edit)))
    ensures forall i | 0 <= i < |ParsedFields(m).value| ::
      var f, g := ParsedFields(m).value[i], ParsedFields(Rewritten(m, edit).0).value[i];
      && g.num == f.num && g.wt == f.wt
      && (NewValue(m, i, edit).None? ==> g == f)
      && (NewValue(m, i, edit).Some? ==> g.val == NewValue(m, i, edit).value)
  {
    var fs, vs, out := ParsedFields(m).value, NewValues(m, edit), Rewritten(m, edit).0;
    hide NewValue, Rewritten, Fields;
    forall i | 0 <= i < |fs|
      ensures Fields(fs[i].orig) == Some([fs[i]]) && fs[i].num < TWO64 / 8
      ensures vs[i].Some? ==> |vs[i].value| < TWO64
    {
      FieldAt(m, i);
      NewValueShort(m, i, edit);
    }
    PatchedParses(fs, vs);
    assert out == Flatten(AllBytes(Patched(fs, vs))) by { RewrittenBytes(m, edit); }
    assert out != [] by { EmptyFields(); }
  }

  lemma RewrittenBytes(m: bytes, edit: Edit)
    requires Rewritten(m, edit).1
    ensures Rewritten(m, edit).0 == Flatten(AllBytes(Patched(ParsedFields(m).value, NewValues(m, edit))))
    ensures exists i: nat | i < |ParsedFields(m).value| :: NewValue(m, i, edit).Some?
  {
    var vs := NewValues(m, edit);
    var i :| 0 <= i < |vs| && vs[i].Some?;
    assert vs[i] == NewValue(m, i, edit);
  }

  /** The flag reports exactly whether the bytes differ. */
  lemma {:induction false} ChangedIffDifferent(m: bytes, edit: Edit)
    requires |Rewritten(m, edit).0| < MAX_LEN
    ensures Rewritten(m, edit).1 <==> Rewritten(m, edit).0 != m
    decreases |m|
  {
    if Rewritten(m, edit).1 {
      RewrittenBytes(m, edit);
      var i: nat :| i < |ParsedFields(m).value| && NewValue(m, i, edit).Some?;
      var f := ParsedFields(m).value[i];
      NewValueShort(m, i, edit);
      if !(IsRecordContent(ParsedFields(m).value, i) && Edits(edit, f.val)) {
        ChangedIffDifferent(f.val, edit);
      }
      assert NewValue(m, i, edit).value != f.val;
      RewrittenParses(m, edit);
    }
  }

  /** An edit that changes no content leaves every message as it is. */
  lemma {:induction false} NoOpEdit(m: bytes, edit: Edit)
    requires forall c: bytes :: edit(c).1 ==> edit(c).0 == c
    ensures Rewritten(m, edit) == (m, false)
    decreases |m|
  {
    if ParsedFields(m).Some? {
      forall i | 0 <= i < |ParsedFields(m).value|
        ensures NewValues(m, edit)[i].None?
      {
        assert NewValues(m, edit)[i] == NewValue(m, i, edit);
        var f := ParsedFields(m).value[i];
        NoOpEdit(f.val, edit);
        assert FromRecursion(f, edit) == None && !Edits(edit, f.val);
      }
    }
  }

  /** Field `g` is field `f` after the rewriting of everything in it: the edited content if it is a
      Dockerfile record's content that the edit changes, else the same field around a value that is
      edited throughout, and byte for byte the same field if that changes nothing. */
  ghost predicate FieldEdited(f: Field, g: Field, isRecord: bool, edit: Edit)
    decreases |f.val|, 1
  {
    && g.num == f.num && g.wt == f.wt
    && if isRecord && Edits(edit, f.val) then g.val == edit(f.val).0
       else if f.wt != WT_LEN then g == f
       else EditedThroughout(f.val, g.val, edit) && (g.val == f.val ==> g == f)
  }

  /** `out` is `m` with the content of every Dockerfile record edited, at every nesting depth, and
      nothing else touched; what does not parse stays. */
  ghost predicate EditedThroughout(m: bytes, out: bytes, edit: Edit)
    decreases |m|, 0
  {
    if ParsedFields(m).None? then out == m
    else
      && ParsedFields(out).Some?
      && |ParsedFields(out).value| == |ParsedFields(m).value|
      && forall i | 0 <= i < |ParsedFields(m).value| ::
           FieldEdited(ParsedFields(m).value[i], ParsedFields(out).value[i],
             IsRecordContent(ParsedFields(m).value, i), edit)
  }

  /** The rewrite reaches every record and leaves everything else as it is. */
  lemma {:induction false} RewriteEditsThroughout(m: bytes, edit: Edit)
    requires |Rewritten(m, edit).0| < MAX_LEN
    ensures EditedThroughout(m, Rewritten(m, edit).0, edit)
    decreases |m|
  {
    if ParsedFields(m).Some? {
      var fs, out := ParsedFields(m).value, Rewritten(m, edit).0;
      if Rewritten(m, edit).1 {
        RewrittenParses(m, edit);
      } else {
        assert forall i | 0 <= i < |fs| :: NewValues(m, edit)[i] == NewValue(m, i, edit);
      }
      hide Rewritten, ParsedFields;
      forall i | 0 <= i < |fs|
        ensures FieldEdited(fs[i], ParsedFields(out).value[i], IsRecordContent(fs, i), edit)
      {
        FieldIsEdited(m, i, edit);
      }
    }
  }

  lemma {:induction false} FieldIsEdited(m: bytes, i: nat, edit: Edit)
    requires |Rewritten(m, edit).0| < MAX_LEN && ParsedFields(m).Some? && i < |ParsedFields(m).value|
    requires ParsedFields(Rewritten(m, edit).0).Some?
             && |ParsedFields(Rewritten(m, edit).0).value| == |ParsedFields(m).value|
    ensures FieldEdited(ParsedFields(m).value[i], ParsedFields(Rewritten(m, edit).0).value[i],
                        IsRecordContent(ParsedFields(m).value, i), edit)
    decreases |m|, 0
  {
    var f := ParsedFields(m).value[i];
    if Rewritten(m, edit).1 {
      RewrittenParses(m, edit);
      NewValueShort(m, i, edit);
    } else {
      assert NewValues(m, edit)[i] == NewValue(m, i, edit);
    }
    if !(IsRecordContent(ParsedFields(m).value, i) && Edits(edit, f.val)) && f.wt == WT_LEN {
      SubRewritten(f, edit);
      hide Rewritten, ParsedFields;
      RewriteEditsThroughout(f.val, edit);
      ChangedIffDifferent(f.val, edit);
    }
  }

  lemma SubRewritten(f: Field, edit: Edit)
    requires f.wt == WT_LEN
    ensures FromRecursion(f, edit).None? ==> Rewritten(f.val, edit) == (f.val, false)
    ensures FromRecursion(f, edit).Some? ==> Rewritten(f.val, edit) == (FromRecursion(f, edit).value, true)
  {
  }

  /** No Dockerfile name is itself a parsable message, so the recursion never touches one. */
  lemma NamesDoNotParse(s: bytes)
    requires IsDockerfileName(s)
    ensures ParsedFields(s) == None
  {
    var name := Chars(s);
    assert |s| == |name| && s[0] as char == name[0] && s[1] as char == name[1];
    OneByteVarint(s);
    hide VarintFrom;
    assert ContentFrom(s[0] % 8, s[1..]) == None;
    assert FirstField(s) == None;
  }

  /** What the recursion produces parses, so it is not a Dockerfile name either. */
  lemma NamesStay(f: Field, v: bytes, edit: Edit)
    requires FromRecursion(f, edit) == Some(v) && |v| < MAX_LEN
    ensures !IsDockerfileName(f.val) && !IsDockerfileName(v)
  {
    RewrittenParses(f.val, edit);
    if IsDockerfileName(f.val) { NamesDoNotParse(f.val); }
    if IsDockerfileName(v) { NamesDoNotParse(v); }
  }

  /** Rewriting neither makes nor destroys file records: they stay where they were. */
  lemma RecordsStay(m: bytes, i: nat, edit: Edit)
    requires Rewritten(m, edit).1 && |Rewritten(m, edit).0| < MAX_LEN
    requires i < |ParsedFields(m).value|
    ensures ParsedFields(Rewritten(m, edit).0).Some?
    ensures IsRecordContent(ParsedFields(Rewritten(m, edit).0).value, i) <==> IsRecordContent(ParsedFields(m).value, i)
  {
    RewrittenParses(m, edit);
    var fs := ParsedFields(m).value;
    if 1 <= i < |fs| - 1 && fs[i - 1].num == 1 && NewValue(m, i - 1, edit).Some? {
      NewValueShort(m, i - 1, edit);
      hide Rewritten, ParsedFields;
      NamesStay(fs[i - 1], NewValue(m, i - 1, edit).value, edit);
    }
  }

  lemma NothingPatched(orig: seq<Field>)
    ensures PatchedSoFar(orig, orig, seq(|orig|, _ => None), false)
  {
  }

  /** The state of `patched` over a message: which new value each field has so far. */
  ghost predicate PatchedSoFar(fs: seq<Field>, orig: seq<Field>, vs: seq<Option<bytes>>, changed: bool) {
    && |vs| == |orig|
    && fs == Patched(orig, vs)
    && (changed <==> exists j | 0 <= j < |vs| :: vs[j].Some?)
  }

  lemma PatchOne(fs: seq<Field>, orig: seq<Field>, vs: seq<Option<bytes>>, changed: bool, i: nat, v: bytes)
    requires PatchedSoFar(fs, orig, vs, changed) && i < |orig|
    ensures |fs| == |orig| && fs[i].num == orig[i].num
    ensures PatchedSoFar(fs[i := fs[i].(patched := Some(LenField(fs[i].num, v)))], orig, vs[i := Some(v)], true)
  {
    assert vs[i := Some(v)][i].Some?;
  }

  lemma RewrittenIs(m: bytes, edit: Edit, fs: seq<Field>, changed: bool)
    requires ParsedFields(m).Some? && PatchedSoFar(fs, ParsedFields(m).value, NewValues(m, edit), changed)
    ensures Rewritten(m, edit) == if changed then (Flatten(AllBytes(fs)), true) else (m, false)
  {
  }

  /** What the recursion makes of each field. */
  ghost function Recursed(orig: seq<Field>, edit: Edit): (vs: seq<Option<bytes>>)
    ensures |vs| == |orig|
  {
    seq(|orig|, i requires 0 <= i < |orig| => FromRecursion(orig[i], edit))
  }

  /** "Recurse first": replace every length-delimited child that the recursion changes. */
  method RewriteChildren(m: bytes, orig: seq<Field>, edit: Edit) returns (fs: seq<Field>, changed: bool)
    requires ParsedFields(m) == Some(orig)
    ensures PatchedSoFar(fs, orig, Recursed(orig, edit), changed)
    decreases |m|, 0
  {
    fs, changed := orig, false;
    ghost var vs: seq<Option<bytes>> := seq(|orig|, _ => None);
    NothingPatched(orig);
    hide Rewritten, PatchedSoFar, Patched, ParsedFields;
    for i := 0 to |orig|
      invariant |fs| == |orig| == |vs| && PatchedSoFar(fs, orig, vs, changed)
      invariant forall j | i <= j < |fs| :: fs[j] == orig[j]
      invariant forall j | 0 <= j < |vs| :: vs[j] == if j < i then FromRecursion(orig[j], edit) else None
    {
      if fs[i].wt == WT_LEN {
        var sub, subChanged := RewriteRecords(fs[i].val, edit);
        if subChanged {
          PatchOne(fs, orig, vs, changed, i, sub);
          fs := fs[i := fs[i].(patched := Some(LenField(fs[i].num, sub)))];
          changed := true;
          vs := vs[i := Some(sub)];
        }
      }
    }
    assert vs == Recursed(orig, edit);
  }

  /** Two fields that differ at most in their replacement. */
  predicate SameField(f: Field, g: Field) {
    f.num == g.num && f.wt == g.wt && f.val == g.val
  }

  /** The body of the record loop: the new content if fields `i`, `i+1`, `i+2` are a record to edit. */
  method RecordAt(fs: seq<Field>, i: nat, edit: Edit) returns (r: Option<bytes>)
    requires i + 2 < |fs|
    ensures r == RecordEdit(fs, i + 1, edit)
  {
    var f1, f2, f3 := fs[i], fs[i + 1], fs[i + 2];
    if f1.num != 1 || f1.wt != WT_LEN || !IsDockerfileName(f1.val) {
      return None;
    }
    if f2.num != 2 || f2.wt != WT_LEN {
      return None;
    }
    if f3.num != 3 || f3.wt != WT_LEN {
      return None;
    }
    var newC, ok := edit(f2.val).0, edit(f2.val).1;
    if !ok || newC == f2.val {
      return None;
    }
    return Some(newC);
  }

  lemma SameEdit(fs: seq<Field>, gs: seq<Field>, i: int, edit: Edit)
    requires |fs| == |gs| && forall j | 0 <= j < |fs| :: SameField(fs[j], gs[j])
    ensures RecordEdit(fs, i, edit) == RecordEdit(gs, i, edit)
  {
  }

  lemma PatchedSame(fs: seq<Field>, orig: seq<Field>, vs: seq<Option<bytes>>, changed: bool)
    requires PatchedSoFar(fs, orig, vs, changed)
    ensures |fs| == |orig| && forall j | 0 <= j < |fs| :: SameField(fs[j], orig[j])
  {
  }

  lemma SamePatched(f: Field, g: Field, v: bytes)
    requires SameField(f, g)
    ensures SameField(f.(patched := Some(LenField(f.num, v))), g)
  {
  }

  /** The new content that field `i` gets as a record's content, if it is one and the edit changes it. */
  function RecordEdit(fs: seq<Field>, i: int, edit: Edit): Option<bytes> {
    if IsRecordContent(fs, i) && Edits(edit, fs[i].val) then Some(edit(fs[i].val).0) else None
  }

  /** The record loop has passed field `i`: up to it, values are final. */
  ghost predicate FinalUpTo(m: bytes, edit: Edit, vs: seq<Option<bytes>>, i: int)
    requires ParsedFields(m).Some?
  {
    var orig := ParsedFields(m).value;
    && |vs| == |orig|
    && forall j | 0 <= j < |vs| :: vs[j] == if j <= i then NewValue(m, j, edit) else FromRecursion(orig[j], edit)
  }

  lemma FinalStart(m: bytes, edit: Edit)
    requires ParsedFields(m).Some?
    ensures FinalUpTo(m, edit, Recursed(ParsedFields(m).value, edit), 0)
  {
  }

  lemma FinalStep(m: bytes, edit: Edit, vs: seq<Option<bytes>>, i: nat)
    requires ParsedFields(m).Some? && FinalUpTo(m, edit, vs, i) && i + 1 < |vs|
    ensures var r := RecordEdit(ParsedFields(m).value, i + 1, edit);
            FinalUpTo(m, edit, if r.None? then vs else vs[i + 1 := r], i + 1)
  {
    hide FromRecursion, ParsedFields;
  }

  lemma FinalEnd(m: bytes, edit: Edit, vs: seq<Option<bytes>>, i: nat)
    requires ParsedFields(m).Some? && FinalUpTo(m, edit, vs, i) && i >= |vs| - 2
    ensures vs == NewValues(m, edit)
  {
    hide FromRecursion, ParsedFields;
  }

  /** "Detect records at this level": patch the content of each Dockerfile record. */
  method PatchRecords(m: bytes, orig: seq<Field>, fs0: seq<Field>, changed0: bool, edit: Edit)
    returns (fs: seq<Field>, changed: bool)
    requires ParsedFields(m) == Some(orig) && PatchedSoFar(fs0, orig, Recursed(orig, edit), changed0)
    ensures PatchedSoFar(fs, orig, NewValues(m, edit), changed)
  {
    hide *;
    fs, changed := fs0, changed0;
    ghost var vs := Recursed(orig, edit);
    PatchedSame(fs, orig, vs, changed);
    FinalStart(m, edit);
    for i := 0 to if |orig| < 2 then 0 else |orig| - 2
      invariant |fs| == |orig| == |vs| && PatchedSoFar(fs, orig, vs, changed)
      invariant forall j | 0 <= j < |fs| :: SameField(fs[j], orig[j])
      invariant FinalUpTo(m, edit, vs, i)
    {
      FinalStep(m, edit, vs, i);
      SameEdit(fs, orig, i + 1, edit);
      var newC := RecordAt(fs, i, edit);
      if newC.Some? {
        PatchOne(fs, orig, vs, changed, i + 1, newC.value);
        SamePatched(fs[i + 1], orig[i + 1], newC.value);
        fs := fs[i + 1 := fs[i + 1].(patched := Some(LenField(fs[i + 1].num, newC.value)))];
        changed := true;
        vs := vs[i + 1 := newC];
      }
    }
    FinalEnd(m, edit, vs, if |orig| < 2 then 0 else |orig| - 2);
  }

  /** `rewriteRecords`. */
  method RewriteRecords(m: bytes, edit: Edit) returns (out: bytes, changed: bool)
    ensures (out, changed) == Rewritten(m, edit)
    decreases |m|
  {
    var r := ParseFields(m);
    if r.None? {
      return m, false;
    }
    hide ParsedFields, NewValue, FromRecursion, PatchedSoFar;
    var fs, childChanged := RewriteChildren(m, r.value, edit);
    fs, changed := PatchRecords(m, r.value, fs, childChanged, edit);
    RewrittenIs(m, edit, fs, changed);
    if !changed {
      return m, false;
    }
    out := AppendBytes(fs);
  }
}
