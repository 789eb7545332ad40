/** File names: `path.Base`, and the names a Dockerfile goes by (`isDockerfileName` in
    internal/proxy/grpcfilter.go). */
module Paths {
  import opened Bytes

  /** The string with these bytes. */
  function Chars(b: bytes): string {
    seq(|b|, i requires 0 <= i < |b| => b[i] as char)
  }

  predicate IsDockerfile(s: string) {
    s == "Dockerfile" || s == "dockerfile" || s == ".Dockerfile"
  }

  function DropSlashes(p: string): string {
    if p != "" && p[|p| - 1] == '/' then DropSlashes(p[..|p| - 1]) else p
  }

  function AfterLastSlash(p: string): string {
    if p == "" then "" else if p[|p| - 1] == '/' then "" else AfterLastSlash(p[..|p| - 1]) + [p[|p| - 1]]
  }

  /** `path.Base`. */
  function Base(p: string): string {
    if p == "" then "." else if DropSlashes(p) == "" then "/" else AfterLastSlash(DropSlashes(p))
  }

  function Slashes(n: nat): string {
    seq(n, _ => '/')
  }

  /** What follows the last slash: a slash-free tail, with a slash or nothing before it. */
  lemma {:induction false} AfterLastSlashParts(p: string)
    ensures var t := AfterLastSlash(p);
            && |t| <= |p| && t == p[|p| - |t|..] && '/' !in t
            && (|t| < |p| ==> p[|p| - |t| - 1] == '/')
  {
    if p != "" && p[|p| - 1] != '/' {
      AfterLastSlashParts(p[..|p| - 1]);
    }
  }

  lemma {:induction false} AfterLastSlashOf(d: string, name: string)
    requires '/' !in name && (d == "" || d[|d| - 1] == '/')
    ensures AfterLastSlash(d + name) == name
    decreases |name|
  {
    if name == "" {
      assert d + name == d;
    } else {
      var n := name[..|name| - 1];
      AfterLastSlashOf(d, n);
      assert (d + name)[..|d + name| - 1] == d + n;
      assert n + [name[|name| - 1]] == name;
    }
  }

  lemma {:induction false} DropSlashesOf(p: string, k: nat)
    requires p == "" || p[|p| - 1] != '/'
    ensures DropSlashes(p + Slashes(k)) == p
    decreases k
  {
    if k == 0 {
      assert p + Slashes(0) == p;
    } else {
      DropSlashesOf(p, k - 1);
      assert (p + Slashes(k))[..|p| + k - 1] == p + Slashes(k - 1);
    }
  }

  lemma {:induction false} DropSlashesParts(p: string)
    ensures |DropSlashes(p)| <= |p|
    ensures DropSlashes(p) + Slashes(|p| - |DropSlashes(p)|) == p
    ensures DropSlashes(p) == "" || DropSlashes(p)[|DropSlashes(p)| - 1] != '/'
  {
    if p != "" && p[|p| - 1] == '/' {
      DropSlashesParts(p[..|p| - 1]);
    }
  }

  /** `p` is a file called `name` in directory `d` (which may be empty), with `k` slashes after it. */
  predicate Names(p: string, d: string, name: string, k: nat) {
    p == d + name + Slashes(k) && IsDockerfile(name) && (d == "" || d[|d| - 1] == '/')
  }

  lemma NamesBase(p: string, d: string, name: string, k: nat)
    requires Names(p, d, name, k)
    ensures Base(p) == name
  {
    assert name[|name| - 1] == 'e' && '/' !in name;
    DropSlashesOf(d + name, k);
    AfterLastSlashOf(d, name);
  }

  lemma BaseNames(p: string)
    requires IsDockerfile(Base(p))
    ensures exists d: string, name: string, k: nat :: Names(p, d, name, k)
  {
    DropSlashesParts(p);
    var q := DropSlashes(p);
    AfterLastSlashParts(q);
    hide DropSlashes, AfterLastSlash;
    var name := Base(p);
    var d := q[..|q| - |name|];
    assert d + name == q;
    assert Names(p, d, name, |p| - |q|);
  }

  /** A path has a Dockerfile's base name exactly if it is that name, after any directory and
      before any trailing slashes. */
  lemma BaseIsDockerfile(p: string)
    ensures IsDockerfile(Base(p)) <==> exists d: string, name: string, k: nat :: Names(p, d, name, k)
  {
    if d: string, name: string, k: nat :| Names(p, d, name, k) {
      NamesBase(p, d, name, k);
    }
    if IsDockerfile(Base(p)) {
      BaseNames(p);
    }
  }

  /** The base of a path has no characters the path does not have, for a path that names something. */
  lemma BaseWithin(p: string, c: char)
    requires c !in p && c != '.' && c != '/'
    ensures c !in Base(p)
  {
    if p != "" {
      DropSlashesParts(p);
      var q := DropSlashes(p);
      AfterLastSlashParts(q);
      assert forall i | 0 <= i < |q| :: q[i] == p[i];
    }
  }
}
