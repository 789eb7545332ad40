/** Strings as the standard library has them: splitting, joining, byte order, sorting.  A Go string is
    a sequence of bytes; a `char` here stands for one byte. */
module Text {
  import opened Bytes

  /** `strings.Split`, for a separator of one character. */
  function Split(s: string, sep: char): (parts: seq<string>)
    ensures parts != []
  {
    if s == "" then [""]
    else
      var rest := Split(s[1..], sep);
      if s[0] == sep then [""] + rest else [[s[0]] + rest[0]] + rest[1..]
  }

  /** `strings.Join`. */
  function Join(parts: seq<string>, sep: string): string {
    if parts == [] then "" else if |parts| == 1 then parts[0] else parts[0] + sep + Join(parts[1..], sep)
  }

  lemma JoinFirst(x: string, first: string, rest: seq<string>, sep: string)
    ensures Join([x + first] + rest, sep) == x + Join([first] + rest, sep)
  {
    assert ([x + first] + rest)[1..] == rest == ([first] + rest)[1..];
    if rest != [] {
      assert x + first + sep + Join(rest, sep) == x + (first + sep + Join(rest, sep));
    }
  }

  /** Joining what was split gives the string back. */
  lemma {:induction false} JoinSplit(s: string, sep: char)
    ensures Join(Split(s, sep), [sep]) == s
    ensures forall i | 0 <= i < |Split(s, sep)| :: sep !in Split(s, sep)[i]
  {
    if s != "" {
      JoinSplit(s[1..], sep);
      var rest := Split(s[1..], sep);
      if s[0] == sep {
        assert ([""] + rest)[1..] == rest;
        assert "" + [sep] + Join(rest, [sep]) == [sep] + s[1..];
      } else {
        JoinFirst([s[0]], rest[0], rest[1..], [sep]);
        assert [rest[0]] + rest[1..] == rest;
      }
    }
  }

  // ----- byte order

  /** `a <= b` for strings. */
  predicate Le(a: string, b: string) {
    a == "" || (b != "" && (a[0] < b[0] || (a[0] == b[0] && Le(a[1..], b[1..]))))
  }

  /** The strings agree in front of position `i`, where the first has the smaller character. */
  predicate LessAt(a: string, b: string, i: nat) {
    i < |a| && i < |b| && a[..i] == b[..i] && a[i] < b[i]
  }

  lemma LessAtTail(a: string, b: string, i: nat)
    requires a != "" && b != ""
    ensures LessAt(a, b, i + 1) <==> a[0] == b[0] && LessAt(a[1..], b[1..], i)
  {
    if i + 1 < |a| && i + 1 < |b| {
      assert a[..i + 1] == [a[0]] + a[1..][..i] && b[..i + 1] == [b[0]] + b[1..][..i];
      assert a[..i + 1][1..] == a[1..][..i] && b[..i + 1][1..] == b[1..][..i];
    }
  }

  lemma PrefixTail(a: string, b: string)
    requires a != "" && b != ""
    ensures a <= b <==> a[0] == b[0] && a[1..] <= b[1..]
  {
    assert a == [a[0]] + a[1..] && b == [b[0]] + b[1..];
  }

  /** Byte order: a prefix comes first, and otherwise the first difference decides. */
  lemma {:induction false} LeIs(a: string, b: string)
    ensures Le(a, b) <==> a <= b || exists i: nat :: LessAt(a, b, i)
  {
    if a != "" && b != "" {
      LeIs(a[1..], b[1..]);
      assert LessAt(a, b, 0) <==> a[0] < b[0];
      hide LessAt;
      PrefixTail(a, b);
      forall i: nat ensures LessAt(a, b, i + 1) <==> a[0] == b[0] && LessAt(a[1..], b[1..], i) {
        LessAtTail(a, b, i);
      }
      assert forall i: nat | LessAt(a[1..], b[1..], i) && a[0] == b[0] :: LessAt(a, b, i + 1);
      forall i: nat | LessAt(a, b, i) && i > 0 ensures LessAt(a[1..], b[1..], i - 1) && a[0] == b[0] {
        LessAtTail(a, b, i - 1);
      }
    } else if a == "" {
      assert a <= b;
    }
  }

  lemma {:induction false} LeTotal(a: string, b: string)
    ensures Le(a, b) || Le(b, a)
    ensures Le(a, b) && Le(b, a) ==> a == b
  {
    if a != "" && b != "" && a[0] == b[0] {
      LeTotal(a[1..], b[1..]);
      assert a == [a[0]] + a[1..] && b == [b[0]] + b[1..];
    }
  }

  lemma {:induction false} LeTransitive(a: string, b: string, c: string)
    requires Le(a, b) && Le(b, c)
    ensures Le(a, c)
  {
    if a != "" && a[0] == b[0] && b[0] == c[0] {
      LeTransitive(a[1..], b[1..], c[1..]);
    }
  }

  predicate Sorted(ks: seq<string>) {
    forall i, j | 0 <= i < j < |ks| :: Le(ks[i], ks[j])
  }

  /** The elements of `s`, each once, in order. */
  ghost predicate Enumerates(ks: seq<string>, s: set<string>) {
    && Sorted(ks)
    && (forall i, j | 0 <= i < j < |ks| :: ks[i] != ks[j])
    && (forall k :: k in ks <==> k in s)
  }

  lemma SmallestFirst(a: seq<string>, b: seq<string>, s: set<string>)
    requires Enumerates(a, s) && Enumerates(b, s) && a != [] && b != []
    ensures Le(a[0], b[0])
  {
    LeTotal(a[0], b[0]);
    assert b[0] in a;
    var i :| 0 <= i < |a| && a[i] == b[0];
  }

  lemma TailEnumerates(a: seq<string>, s: set<string>)
    requires Enumerates(a, s) && a != []
    ensures Enumerates(a[1..], s - {a[0]})
  {
    hide Le;
    forall k ensures k in a[1..] <==> k in s - {a[0]} {
      if k in a[1..] {
        var i :| 0 <= i < |a[1..]| && a[1..][i] == k;
        assert a[i + 1] == k && k in a;
      }
      if k in s && k != a[0] {
        assert k in a;
        var i :| 0 <= i < |a| && a[i] == k;
        assert a[1..][i - 1] == k;
      }
    }
  }

  lemma EnumeratesEmpty(a: seq<string>, s: set<string>)
    requires Enumerates(a, s)
    ensures a == [] <==> s == {}
  {
    if a != [] { assert a[0] in s; }
    if k :| k in s { assert k in a; }
  }

  lemma EnumeratesOnly(ks: seq<string>, s: set<string>)
    requires Enumerates(ks, s)
    ensures forall k :: k in ks <==> k in s
    ensures forall i | 0 <= i < |ks| :: ks[i] in s
  {
  }

  /** There is only one way to list a set in order: what is generated from a map is stable. */
  lemma {:induction false} EnumerationUnique(a: seq<string>, b: seq<string>, s: set<string>)
    requires Enumerates(a, s) && Enumerates(b, s)
    ensures a == b
    decreases |a|
  {
    hide Le;
    EnumeratesEmpty(a, s);
    EnumeratesEmpty(b, s);
    if a != [] {
      SmallestFirst(a, b, s);
      SmallestFirst(b, a, s);
      LeTotal(a[0], b[0]);
      TailEnumerates(a, s);
      TailEnumerates(b, s);
      EnumerationUnique(a[1..], b[1..], s - {a[0]});
      assert a == [a[0]] + a[1..] && b == [b[0]] + b[1..];
    }
  }

  /** `ks` has everything up to `x` in front of position `i`, and the rest after it. */
  predicate Fits(ks: seq<string>, x: string, i: nat) {
    && i <= |ks|
    && (forall j | 0 <= j < i :: Le(ks[j], x))
    && (forall j | i <= j < |ks| :: Le(x, ks[j]))
  }

  /** The last position that still has something greater behind it. */
  lemma {:induction false} PlaceExists(ks: seq<string>, x: string)
    requires Sorted(ks)
    ensures exists i: nat :: Fits(ks, x, i)
  {
    hide Le;
    if ks == [] {
      assert Fits(ks, x, 0);
    } else {
      var n := |ks| - 1;
      LeTotal(ks[n], x);
      if Le(ks[n], x) {
        forall j | 0 <= j < n ensures Le(ks[j], x) { LeTransitive(ks[j], ks[n], x); }
        assert Fits(ks, x, |ks|);
      } else {
        PlaceExists(ks[..n], x);
        var i: nat :| Fits(ks[..n], x, i);
        assert Fits(ks, x, i);
      }
    }
  }

  lemma InsertSorted(ks: seq<string>, x: string, i: nat, s: set<string>)
    requires Enumerates(ks, s) && x !in s && Fits(ks, x, i)
    ensures Enumerates(ks[..i] + [x] + ks[i..], s + {x})
  {
    hide Le;
    var r := ks[..i] + [x] + ks[i..];
    forall k ensures k in r <==> k in s + {x} {
      if k in s {
        assert k in ks;
        var j :| 0 <= j < |ks| && ks[j] == k;
        assert r[if j < i then j else j + 1] == k;
      }
      if k == x { assert r[i] == x; }
    }
    forall a, b | 0 <= a < b < |r| ensures Le(r[a], r[b]) && r[a] != r[b] {
      assert r[a] == if a < i then ks[a] else if a == i then x else ks[a - 1];
      assert r[b] == if b < i then ks[b] else if b == i then x else ks[b - 1];
      assert a != i ==> r[a] in ks;
      assert b != i ==> r[b] in ks;
    }
  }

  /** `x` put where it belongs. */
  ghost function Inserted(ks: seq<string>, x: string): seq<string>
    requires Sorted(ks)
  {
    PlaceExists(ks, x);
    var i: nat :| Fits(ks, x, i);
    ks[..i] + [x] + ks[i..]
  }

  lemma InsertedEnumerates(ks: seq<string>, x: string, s: set<string>)
    requires Enumerates(ks, s - {x}) && x in s
    ensures Enumerates(Inserted(ks, x), s)
  {
    hide Le;
    PlaceExists(ks, x);
    var i: nat :| Fits(ks, x, i) && Inserted(ks, x) == ks[..i] + [x] + ks[i..];
    InsertSorted(ks, x, i, s - {x});
    assert s - {x} + {x} == s;
  }

  /** The elements of a set in byte order. */
  ghost function Ordered(s: set<string>): (ks: seq<string>)
    ensures Enumerates(ks, s)
  {
    if s == {} then []
    else
      var x :| x in s;
      InsertedEnumerates(Ordered(s - {x}), x, s);
      Inserted(Ordered(s - {x}), x)
  }

  method PlaceFor(ks: seq<string>, x: string) returns (i: nat)
    requires Sorted(ks)
    ensures Fits(ks, x, i)
  {
    hide Le;
    i := |ks|;
    while i > 0 && !Le(ks[i - 1], x)
      invariant 0 <= i <= |ks|
      invariant forall j | i <= j < |ks| :: Le(x, ks[j])
    {
      LeTotal(ks[i - 1], x);
      i := i - 1;
    }
    forall j | 0 <= j < i ensures Le(ks[j], x) {
      if j < i - 1 { LeTransitive(ks[j], ks[i - 1], x); }
    }
  }

  /** The keys of a map in order: taken in whatever order the map yields them, and sorted. */
  method SortedKeys<V>(m: map<string, V>) returns (ks: seq<string>)
    ensures ks == Ordered(m.Keys)
  {
    ks := [];
    var left := m.Keys;
    ghost var taken: set<string> := {};
    while left != {}
      invariant left !! taken && left + taken == m.Keys
      invariant Enumerates(ks, taken)
      decreases |left|
    {
      hide Fits, Sorted;
      var x :| x in left;
      var i := PlaceFor(ks, x);
      assert i <= |ks| by { InRange(ks, x, i); }
      InsertSorted(ks, x, i, taken);
      hide Enumerates;
      ks := ks[..i] + [x] + ks[i..];
      left := left - {x};
      taken := taken + {x};
    }
    assert taken == m.Keys;
    EnumerationUnique(ks, Ordered(m.Keys), m.Keys);
  }

  lemma InRange(ks: seq<string>, x: string, i: nat)
    requires Fits(ks, x, i)
    ensures i <= |ks|
  {
  }

  // ----- KEY=value

  /** The position of the first `c`, as `strings.IndexByte`. */
  function IndexOf(s: string, c: char): (r: Option<nat>)
    ensures r.Some? ==> r.value < |s| && s[r.value] == c && c !in s[..r.value]
    ensures r.None? ==> c !in s
  {
    if s == "" then None
    else if s[0] == c then Some(0)
    else match IndexOf(s[1..], c)
      case None => None
      case Some(i) =>
        assert s[..i + 1] == [s[0]] + s[1..][..i];
        Some(i + 1)
  }

  /** The key of a "KEY=value" entry, if it is one (`strings.Cut` at '='). */
  function KeyOf(kv: string): Option<string> {
    match IndexOf(kv, '=') case None => None case Some(i) => Some(kv[..i])
  }

  function ValueOf(kv: string): string
    requires KeyOf(kv).Some?
  {
    kv[|KeyOf(kv).value| + 1..]
  }

  function Entry(k: string, v: string): string {
    k + "=" + v
  }

  lemma {:induction false} FirstIndex(k: string, c: char, v: string)
    requires c !in k
    ensures IndexOf(k + [c] + v, c) == Some(|k|)
  {
    var s := k + [c] + v;
    if k != "" {
      FirstIndex(k[1..], c, v);
      assert s[1..] == k[1..] + [c] + v;
    }
  }

  /** An entry built from a key without '=' reads back. */
  lemma EntryReads(k: string, v: string)
    requires '=' !in k
    ensures KeyOf(Entry(k, v)) == Some(k) && ValueOf(Entry(k, v)) == v
  {
    FirstIndex(k, '=', v);
    assert (k + "=" + v)[..|k|] == k;
    assert (k + "=" + v)[|k| + 1..] == v;
  }
}
