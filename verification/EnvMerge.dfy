/** `mergeEnv`: overrides folded into a list of KEY=value entries (internal/image/env.go). */
module EnvMerge {
  import opened Bytes
  import opened Text

  /** The overrides as a map; later ones win, entries without '=' are skipped. */
  function Over(overrides: seq<string>): (m: map<string, string>)
    ensures forall k | k in m :: '=' !in k
  {
    if overrides == [] then map[]
    else
      var last := overrides[|overrides| - 1];
      var before := Over(overrides[..|overrides| - 1]);
      if KeyOf(last).Some? then before[KeyOf(last).value := ValueOf(last)] else before
  }

  /** An entry in front of position `i` has this key. */
  predicate KeyBefore(env: seq<string>, i: nat, k: string) {
    exists j | 0 <= j < i && j < |env| :: KeyOf(env[j]) == Some(k)
  }

  /** The entry at position `i` of the base after the merge: the override, at the first occurrence
      of its key. */
  function MergedAt(base: seq<string>, over: map<string, string>, i: nat): string
    requires i < |base|
  {
    var k := KeyOf(base[i]);
    if k.Some? && k.value in over && !KeyBefore(base, i, k.value) then Entry(k.value, over[k.value]) else base[i]
  }

  function Added(ks: seq<string>, over: map<string, string>): seq<string>
    requires forall k | k in ks :: k in over
  {
    seq(|ks|, i requires 0 <= i < |ks| => Entry(ks[i], over[ks[i]]))
  }

  /** The overridden keys the base does not have. */
  function Missing(base: seq<string>, over: map<string, string>): set<string> {
    set k | k in over && !KeyBefore(base, |base|, k)
  }

  function Overridden(base: seq<string>, over: map<string, string>): seq<string> {
    seq(|base|, i requires 0 <= i < |base| => MergedAt(base, over, i))
  }

  /** The base in its order, overridden, and then the keys it does not have, in sorted order. */
  ghost function Merged(base: seq<string>, over: map<string, string>): seq<string> {
    Overridden(base, over) + Added(Ordered(Missing(base, over)), over)
  }

  /** The first loop of `mergeEnv`. */
  method CollectOverrides(overrides: seq<string>) returns (over: map<string, string>)
    ensures over == Over(overrides)
  {
    over := map[];
    for i := 0 to |overrides|
      invariant over == Over(overrides[..i])
    {
      assert overrides[..i + 1][..i] == overrides[..i];
      var kv := overrides[i];
      if KeyOf(kv).None? { continue; }
      over := over[KeyOf(kv).value := ValueOf(kv)];
    }
    assert overrides[..|overrides|] == overrides;
  }

  /** The second loop: a used override is taken out of the map. */
  method OverrideBase(base: seq<string>, all: map<string, string>)
    returns (merged: seq<string>, over: map<string, string>)
    ensures |merged| == |base| && forall j | 0 <= j < |base| :: merged[j] == MergedAt(base, all, j)
    ensures over.Keys == Missing(base, all) && forall k | k in over :: k in all && over[k] == all[k]
  {
    merged, over := [], all;
    for i := 0 to |base|
      invariant |merged| == i && forall j | 0 <= j < i :: merged[j] == MergedAt(base, all, j)
      invariant forall k :: k in over <==> k in all && !KeyBefore(base, i, k)
      invariant forall k | k in over :: over[k] == all[k]
    {
      var k := KeyOf(base[i]);
      KeyBeforeStep(base, i);
      if k.None? {
        merged := merged + [base[i]];
      } else if k.value in over {
        merged := merged + [Entry(k.value, over[k.value])];
        over := over - {k.value};
      } else {
        merged := merged + [base[i]];
      }
    }
  }

  /** The last loop of `mergeEnv`. */
  method AppendNew(keys: seq<string>, over: map<string, string>) returns (added: seq<string>)
    requires forall k | k in keys :: k in over
    ensures added == Added(keys, over)
  {
    added := [];
    for i := 0 to |keys|
      invariant |added| == i && forall j | 0 <= j < i :: added[j] == Entry(keys[j], over[keys[j]])
    {
      added := added + [Entry(keys[i], over[keys[i]])];
    }
  }

  lemma SameAdded(keys: seq<string>, over: map<string, string>, all: map<string, string>)
    requires (forall k | k in keys :: k in over) && forall k | k in over :: k in all && over[k] == all[k]
    ensures Added(keys, over) == Added(keys, all)
  {
  }

  lemma OverriddenIs(base: seq<string>, over: map<string, string>, kept: seq<string>)
    requires |kept| == |base| && forall i | 0 <= i < |base| :: kept[i] == MergedAt(base, over, i)
    ensures kept == Overridden(base, over)
  {
  }

  /** `mergeEnv`: the same list for the same input, whatever order the map yields its keys in. */
  method MergeEnv(base: seq<string>, overrides: seq<string>) returns (merged: seq<string>)
    ensures merged == Merged(base, Over(overrides))
  {
    hide MergedAt, Enumerates, KeyBefore, Over, Added, Overridden;
    var all := CollectOverrides(overrides);
    var kept, over := OverrideBase(base, all);
    OverriddenIs(base, all, kept);
    var keys := SortedKeys(over);
    EnumeratesOnly(keys, over.Keys);
    var added := AppendNew(keys, over);
    SameAdded(keys, over, all);
    merged := kept + added;
  }

  lemma KeyBeforeStep(env: seq<string>, i: nat)
    requires i < |env|
    ensures forall k :: KeyBefore(env, i + 1, k) <==> KeyBefore(env, i, k) || KeyOf(env[i]) == Some(k)
  {
    hide KeyOf;
    forall k ensures KeyBefore(env, i + 1, k) <==> KeyBefore(env, i, k) || KeyOf(env[i]) == Some(k) {
    }
  }

  // ----- what a process sees

  /** The value of a variable: its last entry counts. */
  function Lookup(env: seq<string>, k: string): Option<string> {
    if env == [] then None
    else if KeyOf(env[|env| - 1]) == Some(k) then Some(ValueOf(env[|env| - 1]))
    else Lookup(env[..|env| - 1], k)
  }

  predicate LastIs(env: seq<string>, k: string, i: nat) {
    && i < |env| && KeyOf(env[i]) == Some(k)
    && forall j | i < j < |env| :: KeyOf(env[j]) != Some(k)
  }

  lemma {:induction false} LookupIs(env: seq<string>, k: string)
    ensures match Lookup(env, k)
            case Some(v) => exists i: nat :: LastIs(env, k, i) && ValueOf(env[i]) == v
            case None => !KeyBefore(env, |env|, k)
  {
    hide KeyOf;
    if env != [] {
      var n := |env| - 1;
      if KeyOf(env[n]) == Some(k) {
        assert LastIs(env, k, n);
      } else {
        LookupIs(env[..n], k);
        if Lookup(env, k).Some? {
          var i: nat :| LastIs(env[..n], k, i) && ValueOf(env[..n][i]) == Lookup(env, k).value;
          assert LastIs(env, k, i);
        }
      }
    }
  }

  lemma LookupAt(env: seq<string>, k: string, i: nat)
    requires LastIs(env, k, i)
    ensures Lookup(env, k) == Some(ValueOf(env[i]))
  {
    LookupIs(env, k);
    assert KeyBefore(env, |env|, k);
    if Lookup(env, k).Some? {
      var j: nat :| LastIs(env, k, j) && ValueOf(env[j]) == Lookup(env, k).value;
    }
  }

  /** The merged entry keeps the key of the base entry. */
  lemma MergedKeys(base: seq<string>, over: map<string, string>, i: nat)
    requires i < |base| && forall k | k in over :: '=' !in k
    ensures KeyOf(MergedAt(base, over, i)) == KeyOf(base[i])
  {
    var k := KeyOf(base[i]);
    if k.Some? && k.value in over { EntryReads(k.value, over[k.value]); }
  }

  /** The keys of the added entries. */
  lemma AddedKeys(ks: seq<string>, over: map<string, string>, i: nat)
    requires i < |ks| && forall k | k in ks :: k in over
    requires forall k | k in over :: '=' !in k
    ensures KeyOf(Added(ks, over)[i]) == Some(ks[i]) && ValueOf(Added(ks, over)[i]) == over[ks[i]]
  {
    EntryReads(ks[i], over[ks[i]]);
  }

  lemma MergeKeyAt(base: seq<string>, over: map<string, string>, i: nat)
    requires forall k | k in over :: '=' !in k
    requires i < |Merged(base, over)|
    ensures |Merged(base, over)| == |base| + |Ordered(Missing(base, over))|
    ensures i < |base| ==>
              KeyOf(Merged(base, over)[i]) == KeyOf(base[i]) && Merged(base, over)[i] == MergedAt(base, over, i)
    ensures i >= |base| ==>
              var k := Ordered(Missing(base, over))[i - |base|];
              k in over && KeyOf(Merged(base, over)[i]) == Some(k) && ValueOf(Merged(base, over)[i]) == over[k]
  {
    hide Enumerates, KeyOf, ValueOf;
    var ks := Ordered(Missing(base, over));
    EnumeratesOnly(ks, Missing(base, over));
    if i < |base| {
      MergedKeys(base, over, i);
    } else {
      AddedKeys(ks, over, i - |base|);
    }
  }

  /** The keys of the merged list, position by position. */
  ghost predicate KeysAre(base: seq<string>, over: map<string, string>, out: seq<string>, ks: seq<string>) {
    && |out| == |base| + |ks|
    && (forall i | 0 <= i < |base| :: KeyOf(out[i]) == KeyOf(base[i]) && out[i] == MergedAt(base, over, i))
    && (forall i | 0 <= i < |ks| ::
          ks[i] in over && KeyOf(out[|base| + i]) == Some(ks[i]) && ValueOf(out[|base| + i]) == over[ks[i]])
  }

  lemma MergedKeysAre(base: seq<string>, over: map<string, string>)
    requires forall k | k in over :: '=' !in k
    ensures KeysAre(base, over, Merged(base, over), Ordered(Missing(base, over)))
  {
    hide Enumerates, KeyOf, ValueOf, MergedAt, Missing;
    var out, ks := Merged(base, over), Ordered(Missing(base, over));
    forall i | 0 <= i < |base| ensures KeyOf(out[i]) == KeyOf(base[i]) && out[i] == MergedAt(base, over, i) {
      MergeKeyAt(base, over, i);
    }
    forall i | 0 <= i < |ks|
      ensures ks[i] in over && KeyOf(out[|base| + i]) == Some(ks[i]) && ValueOf(out[|base| + i]) == over[ks[i]]
    {
      MergeKeyAt(base, over, |base| + i);
    }
  }

  /** The base has this key at most once. */
  predicate OnceAtMost(base: seq<string>, k: string) {
    forall i | 0 <= i < |base| && KeyOf(base[i]) == Some(k) :: !KeyBefore(base, i, k)
  }

  /** The three ways a variable comes through a merge: added, in the base, or nowhere. */
  lemma LookupAdded(base: seq<string>, over: map<string, string>, out: seq<string>, ks: seq<string>, k: string)
    requires KeysAre(base, over, out, ks) && Enumerates(ks, Missing(base, over)) && k in Missing(base, over)
    ensures Lookup(out, k) == Some(over[k])
  {
    hide KeyOf, ValueOf, MergedAt, Lookup;
    assert k in ks;
    var i: nat :| i < |ks| && ks[i] == k;
    AddedOnce(ks, Missing(base, over), i);
    hide Enumerates;
    assert ValueOf(out[|base| + i]) == over[k];
    forall j | |base| + i < j < |out| ensures KeyOf(out[j]) != Some(k) {
      assert KeyOf(out[|base| + (j - |base|)]) == Some(ks[j - |base|]);
    }
    LookupAt(out, k, |base| + i);
  }

  lemma LookupKept(base: seq<string>, over: map<string, string>, out: seq<string>, ks: seq<string>, k: string, i: nat)
    requires KeysAre(base, over, out, ks) && k !in ks && LastIs(base, k, i)
    requires forall k | k in over :: '=' !in k
    ensures Lookup(out, k) == Some(if k in over && !KeyBefore(base, i, k) then over[k] else ValueOf(base[i]))
  {
    hide KeyOf, ValueOf, MergedAt, Lookup;
    forall j | i < j < |out| ensures KeyOf(out[j]) != Some(k) {
      if j >= |base| { assert KeyOf(out[|base| + (j - |base|)]) == Some(ks[j - |base|]); }
    }
    LookupAt(out, k, i);
    MergedValue(base, over, k, i);
  }

  lemma LookupNowhere(base: seq<string>, over: map<string, string>, out: seq<string>, ks: seq<string>, k: string)
    requires KeysAre(base, over, out, ks) && k !in ks && !KeyBefore(base, |base|, k)
    ensures Lookup(out, k) == None
  {
    hide KeyOf, ValueOf, MergedAt, Lookup;
    forall j | 0 <= j < |out| ensures KeyOf(out[j]) != Some(k) {
      if j >= |base| { assert KeyOf(out[|base| + (j - |base|)]) == Some(ks[j - |base|]); }
    }
    LastMeansBefore(out, k);
  }

  /** The last of a key's entries has none of its key before it exactly if it is the only one. */
  lemma LastIsOnly(base: seq<string>, k: string, i: nat)
    requires LastIs(base, k, i)
    ensures KeyBefore(base, |base|, k) && (OnceAtMost(base, k) <==> !KeyBefore(base, i, k))
  {
    hide KeyOf;
    assert KeyOf(base[i]) == Some(k);
    forall j | 0 <= j < |base| && KeyOf(base[j]) == Some(k) && j != i ensures j < i {
    }
  }

  /** A variable after the merge, for any base: an override counts unless its key occurs twice in the
      base, for then only the first entry is replaced and the last one still wins. */
  lemma MergedLookup(base: seq<string>, over: map<string, string>, k: string)
    requires forall k | k in over :: '=' !in k
    ensures Lookup(Merged(base, over), k) == if k in over && OnceAtMost(base, k) then Some(over[k]) else Lookup(base, k)
  {
    var out, ks := Merged(base, over), Ordered(Missing(base, over));
    MergedKeysAre(base, over);
    EnumeratesOnly(ks, Missing(base, over));
    LookupIs(base, k);
    hide Enumerates, KeyOf, ValueOf, Merged, KeysAre, Lookup;
    if k in Missing(base, over) {
      LookupAdded(base, over, out, ks, k);
      OnceIfNever(base, k);
    } else if Lookup(base, k).Some? {
      var i: nat :| LastIs(base, k, i) && ValueOf(base[i]) == Lookup(base, k).value;
      LastIsOnly(base, k, i);
      LookupKept(base, over, out, ks, k, i);
    } else {
      LookupNowhere(base, over, out, ks, k);
    }
  }

  lemma OnceIfNever(base: seq<string>, k: string)
    requires !KeyBefore(base, |base|, k)
    ensures OnceAtMost(base, k)
  {
    hide KeyOf;
  }

  lemma LastMeansBefore(env: seq<string>, k: string)
    requires !KeyBefore(env, |env|, k)
    ensures Lookup(env, k) == None
  {
    LookupIs(env, k);
  }

  lemma AddedOnce(ks: seq<string>, s: set<string>, i: nat)
    requires Enumerates(ks, s) && i < |ks|
    ensures forall j | 0 <= j < |ks| && j != i :: ks[j] != ks[i]
  {
  }

  lemma MergedValue(base: seq<string>, over: map<string, string>, k: string, i: nat)
    requires i < |base| && KeyOf(base[i]) == Some(k) && forall k | k in over :: '=' !in k
    ensures KeyOf(MergedAt(base, over, i)) == Some(k)
    ensures ValueOf(MergedAt(base, over, i)) ==
            if k in over && !KeyBefore(base, i, k) then over[k] else ValueOf(base[i])
  {
    if k in over { EntryReads(k, over[k]); }
  }

  /** No key occurs twice. */
  predicate DistinctKeys(env: seq<string>) {
    forall i | 0 <= i < |env| && KeyOf(env[i]).Some? :: !KeyBefore(env, i, KeyOf(env[i]).value)
  }

  /** The overrides as a map say what looking them up says: the last entry for a key counts. */
  lemma {:induction false} OverIsLookup(overrides: seq<string>, k: string)
    ensures k in Over(overrides) <==> Lookup(overrides, k).Some?
    ensures k in Over(overrides) ==> Lookup(overrides, k) == Some(Over(overrides)[k])
    decreases |overrides|
  {
    hide KeyOf, ValueOf;
    if overrides != [] {
      OverIsLookup(overrides[..|overrides| - 1], k);
    }
  }

  /** For any base and overrides: an override decides its key, unless the base has that key twice; all other
      keys are as the base has them. */
  lemma OverrideLookup(base: seq<string>, overrides: seq<string>, k: string)
    ensures Lookup(Merged(base, Over(overrides)), k) ==
            if Lookup(overrides, k).Some? && OnceAtMost(base, k) then Lookup(overrides, k) else Lookup(base, k)
  {
    hide Merged, Lookup;
    OverIsLookup(overrides, k);
    MergedLookup(base, Over(overrides), k);
  }

  /** On a base with distinct keys lookup is override-else-base. */
  lemma OverrideElseBase(base: seq<string>, overrides: seq<string>, k: string)
    requires DistinctKeys(base)
    ensures Lookup(Merged(base, Over(overrides)), k) ==
            if Lookup(overrides, k).Some? then Lookup(overrides, k) else Lookup(base, k)
  {
    hide Merged, Lookup, Over;
    OverrideLookup(base, overrides, k);
    if !OnceAtMost(base, k) { TwiceIsNotDistinct(base, k); }
  }

  lemma TwiceIsNotDistinct(base: seq<string>, k: string)
    requires DistinctKeys(base)
    ensures OnceAtMost(base, k)
  {
    hide KeyOf;
  }

  /** After a merge every overridden key is there. */
  lemma AllThere(base: seq<string>, over: map<string, string>, out: seq<string>, ks: seq<string>, k: string)
    requires KeysAre(base, over, out, ks) && Enumerates(ks, Missing(base, over)) && k in over
    ensures KeyBefore(out, |out|, k)
  {
    hide KeyOf, ValueOf, MergedAt;
    if KeyBefore(base, |base|, k) {
      var j :| 0 <= j < |base| && KeyOf(base[j]) == Some(k);
      assert KeyOf(out[j]) == Some(k);
    } else {
      assert k in Missing(base, over) && k in ks;
      var j :| 0 <= j < |ks| && ks[j] == k;
      assert KeyOf(out[|base| + j]) == Some(k);
    }
  }

  lemma MergeTwice(base: seq<string>, over: map<string, string>, out: seq<string>, ks: seq<string>, i: nat)
    requires KeysAre(base, over, out, ks) && DistinctKeys(base) && i < |out|
    requires forall i | 0 <= i < |ks| :: out[|base| + i] == Entry(ks[i], over[ks[i]])
    ensures MergedAt(out, over, i) == out[i]
  {
    hide KeyOf, ValueOf;
    if i >= |base| {
      var j := i - |base|;
      assert out[|base| + j] == Entry(ks[j], over[ks[j]]) && KeyOf(out[|base| + j]) == Some(ks[j]);
    } else {
      if KeyOf(base[i]).Some? { SameKeysBefore(base, out, i, KeyOf(base[i]).value); }
    }
  }

  lemma MergedParts(base: seq<string>, over: map<string, string>)
    requires forall k | k in over :: '=' !in k
    ensures var out, ks := Merged(base, over), Ordered(Missing(base, over));
            && |out| == |base| + |ks|
            && forall i | 0 <= i < |ks| :: ks[i] in over && out[|base| + i] == Entry(ks[i], over[ks[i]])
  {
    hide MergedAt, Enumerates;
    EnumeratesOnly(Ordered(Missing(base, over)), Missing(base, over));
  }

  lemma NothingMissing(base: seq<string>, over: map<string, string>)
    requires forall k | k in over :: KeyBefore(base, |base|, k)
    requires forall i | 0 <= i < |base| :: MergedAt(base, over, i) == base[i]
    ensures Merged(base, over) == base
  {
    hide MergedAt, Enumerates, KeyBefore;
    assert Missing(base, over) == {};
    EnumeratesEmpty(Ordered(Missing(base, over)), Missing(base, over));
    assert Overridden(base, over) == base;
  }

  /** With distinct keys a second merge changes nothing. */
  lemma MergeIdempotent(base: seq<string>, overrides: seq<string>)
    requires DistinctKeys(base)
    ensures Merged(Merged(base, Over(overrides)), Over(overrides)) == Merged(base, Over(overrides))
  {
    var over := Over(overrides);
    var out, ks := Merged(base, over), Ordered(Missing(base, over));
    MergedKeysAre(base, over);
    MergedParts(base, over);
    hide *;
    forall k | k in over ensures KeyBefore(out, |out|, k) {
      AllThere(base, over, out, ks, k);
    }
    forall i | 0 <= i < |out| ensures MergedAt(out, over, i) == out[i] {
      MergeTwice(base, over, out, ks, i);
    }
    NothingMissing(out, over);
  }

  lemma SameKeysBefore(a: seq<string>, b: seq<string>, i: nat, k: string)
    requires i <= |a| && i <= |b| && forall j | 0 <= j < i :: KeyOf(b[j]) == KeyOf(a[j])
    ensures KeyBefore(b, i, k) <==> KeyBefore(a, i, k)
  {
    hide KeyOf;
    if KeyBefore(a, i, k) {
      var j :| 0 <= j < i && j < |a| && KeyOf(a[j]) == Some(k);
      assert KeyOf(b[j]) == Some(k);
    }
    if KeyBefore(b, i, k) {
      var j :| 0 <= j < i && j < |b| && KeyOf(b[j]) == Some(k);
      assert KeyOf(a[j]) == Some(k);
    }
  }

  lemma OneKeyOrdered(k: string)
    ensures Ordered({k}) == [k]
  {
    assert Enumerates([k], {k});
    EnumerationUnique([k], Ordered({k}), {k});
  }

  /** The overrides of a list of two. */
  lemma TwoOverrides(b: string, z: string, c: string, w: string)
    requires '=' !in b && '=' !in c && b != c
    ensures Over([b + "=" + z, c + "=" + w]) == map[b := z, c := w]
  {
    EntryReads(b, z);
    EntryReads(c, w);
    var os := [b + "=" + z, c + "=" + w];
    assert os[..1] == [b + "=" + z] && os[..1][..0] == [];
    assert Over(os[..1][..0]) == map[];
  }

  /** A merge in full: what the base alone has stays, what both have is overridden in its place, and what only
      the overrides have comes last. */
  lemma MergeInFull(a: string, x: string, b: string, y: string, z: string, c: string, w: string)
    requires '=' !in a && '=' !in b && '=' !in c && a != b && b != c && a != c
    ensures Merged([a + "=" + x, b + "=" + y], Over([b + "=" + z, c + "=" + w])) ==
            [a + "=" + x, b + "=" + z, c + "=" + w]
  {
    var base := [a + "=" + x, b + "=" + y];
    TwoOverrides(b, z, c, w);
    EntryReads(a, x);
    EntryReads(b, y);
    var over := map[b := z, c := w];
    FirstOverridden(base, over, a, b, z, c);
    OneKeyOrdered(c);
    hide *;
    MergedOf(base, over, c);
    assert [base[0], b + "=" + z] + [c + "=" + w] == [base[0], b + "=" + z, c + "=" + w];
  }

  /** A single missing key is added at the end. */
  lemma MergedOf(base: seq<string>, over: map<string, string>, c: string)
    requires c in over && Missing(base, over) == {c} && Ordered({c}) == [c]
    ensures Merged(base, over) == Overridden(base, over) + [c + "=" + over[c]]
  {
    hide Ordered, Missing, Overridden;
    assert Added([c], over) == [c + "=" + over[c]];
  }

  lemma FirstOverridden(base: seq<string>, over: map<string, string>, a: string, b: string, z: string, c: string)
    requires |base| == 2 && KeyOf(base[0]) == Some(a) && KeyOf(base[1]) == Some(b) && a != b
    requires over.Keys == {b, c} && over[b] == z && a != c && b != c
    ensures Overridden(base, over) == [base[0], b + "=" + z]
    ensures Missing(base, over) == {c}
  {
    hide KeyOf, ValueOf;
    assert !KeyBefore(base, 1, b);
    assert KeyBefore(base, 2, b);
  }
}
