/** Which streams are Dockerfile syncs: header block assembly in `pumpUpstream`, and the header
    test of `identify` and `dockerfileInFollows` (internal/proxy/sessionsplice.go). */
module Headers {
  import opened Bytes
  import opened Http2
  import opened Paths
  import Text

  /** A complete header block and the stream it is for. */
  datatype Block = Block(sid: nat, block: bytes)

  /** The variables `hb` and `hbSid`. */
  datatype Assembly = Assembly(hb: bytes, sid: nat)

  const NO_BLOCK := Assembly([], 0)

  predicate EndHeaders(f: Frame) {
    Bit(f.flags, END_HEADERS)
  }

  /** What one daemon frame does to the assembly, and the block it hands to `identify`, if any. */
  function Assemble(a: Assembly, f: Frame): (Assembly, Option<Block>) {
    if f.typ == HEADERS then
      if EndHeaders(f) then (a, Some(Block(f.sid, f.payload)))
      else (Assembly(a.hb + f.payload, f.sid), None)
    else if f.typ == CONTINUATION && a.hb != [] then
      if EndHeaders(f) then (Assembly([], a.sid), Some(Block(a.sid, a.hb + f.payload)))
      else (Assembly(a.hb + f.payload, a.sid), None)
    else (a, None)
  }

  function Optional<T>(x: Option<T>): seq<T> {
    if x.Some? then [x.value] else []
  }

  function AssemblyAfter(fs: seq<Frame>): Assembly {
    if fs == [] then NO_BLOCK else Assemble(AssemblyAfter(fs[..|fs| - 1]), fs[|fs| - 1]).0
  }

  /** All blocks handed to `identify` over a sequence of daemon frames. */
  function Identified(fs: seq<Frame>): seq<Block> {
    if fs == [] then []
    else
      var before := fs[..|fs| - 1];
      Identified(before) + Optional(Assemble(AssemblyAfter(before), fs[|fs| - 1]).1)
  }

  /** RFC 7540 section 6.2: the fragment of a HEADERS frame follows the priority fields. */
  function Fragment(f: Frame): bytes {
    if Bit(f.flags, PRIORITY) && |f.payload| >= 5 then f.payload[5..] else f.payload
  }

  /** The block being transmitted after the given frames (RFC 7540 section 4.3). */
  function OpenBlock(fs: seq<Frame>): Option<Block> {
    if fs == [] then None
    else
      var before, f := OpenBlock(fs[..|fs| - 1]), fs[|fs| - 1];
      if f.typ == HEADERS then if EndHeaders(f) then None else Some(Block(f.sid, Fragment(f)))
      else if f.typ == CONTINUATION && before.Some? then
        if EndHeaders(f) then None else Some(before.value.(block := before.value.block + f.payload))
      else before
  }

  /** The block a frame completes. */
  function Completed(open: Option<Block>, f: Frame): Option<Block> {
    if !EndHeaders(f) then None
    else if f.typ == HEADERS then Some(Block(f.sid, Fragment(f)))
    else if f.typ == CONTINUATION && open.Some? then Some(open.value.(block := open.value.block + f.payload))
    else None
  }

  /** The header blocks of a frame sequence, as the protocol defines them. */
  function HeaderBlocks(fs: seq<Frame>): seq<Block> {
    if fs == [] then []
    else
      var before := fs[..|fs| - 1];
      HeaderBlocks(before) + Optional(Completed(OpenBlock(before), fs[|fs| - 1]))
  }

  /** RFC 7540 section 6.10: fragments of a block are contiguous and on one stream. */
  predicate Contiguous(fs: seq<Frame>) {
    fs == [] ||
    (&& Contiguous(fs[..|fs| - 1])
     && var open, f := OpenBlock(fs[..|fs| - 1]), fs[|fs| - 1];
     && (open.Some? ==> f.typ == CONTINUATION && f.sid == open.value.sid)
     && (open.None? ==> f.typ != CONTINUATION))
  }

  /** A HEADERS frame that the splice reads as the protocol does: no priority fields, and either
      the whole block or a nonempty first fragment. */
  predicate PlainHeaders(f: Frame) {
    f.typ == HEADERS ==>
      && (Bit(f.flags, PRIORITY) ==> |f.payload| < 5)
      && (EndHeaders(f) || f.payload != [])
  }

  predicate AllPlain(fs: seq<Frame>) {
    forall i | 0 <= i < |fs| :: PlainHeaders(fs[i])
  }

  /** The assembly mirrors the protocol's open block. */
  predicate InStep(a: Assembly, open: Option<Block>) {
    if open.None? then a.hb == [] else a.hb != [] && a == Assembly(open.value.block, open.value.sid)
  }

  /** Any split into HEADERS and CONTINUATION: `identify` gets each full block, once, with its
      stream, in order. */
  lemma {:induction false} PlainBlocksIdentified(fs: seq<Frame>)
    requires Contiguous(fs) && AllPlain(fs)
    ensures Identified(fs) == HeaderBlocks(fs)
    ensures InStep(AssemblyAfter(fs), OpenBlock(fs))
  {
    if fs != [] {
      var before, f := fs[..|fs| - 1], fs[|fs| - 1];
      assert AllPlain(before) by {
        forall i | 0 <= i < |before| ensures PlainHeaders(before[i]) { assert before[i] == fs[i]; }
      }
      PlainBlocksIdentified(before);
      assert PlainHeaders(f);
    }
  }

  /** Fragments add up whether or not the protocol allows them: a block broken off by the HEADERS of another
      is handed over in front of it, as one block of the other's stream. */
  lemma BrokenOffBlocksJoin(fs: seq<Frame>, f: Frame, g: Frame, h: Frame)
    requires AssemblyAfter(fs).hb == [] && f.payload != []
    requires f.typ == HEADERS && g.typ == HEADERS && h.typ == CONTINUATION
    requires !EndHeaders(f) && !EndHeaders(g) && EndHeaders(h)
    ensures Identified(fs + [f, g, h]) == Identified(fs) + [Block(g.sid, f.payload + g.payload + h.payload)]
    ensures AssemblyAfter(fs + [f, g, h]).hb == []
  {
    var a := fs + [f];
    var b := a + [g];
    assert fs + [f, g, h] == b + [h];
    assert a[..|fs|] == fs && b[..|a|] == a && (b + [h])[..|b|] == b;
    assert AssemblyAfter(a) == Assembly(f.payload, f.sid);
    assert AssemblyAfter(b) == Assembly(f.payload + g.payload, g.sid);
    assert Identified(b) == Identified(fs);
  }

  /** How the splice has fallen out of step with the protocol: it holds a different block than the
      open one, missed a block, or identified a block with stray bytes in front. */
  predicate OutOfStep(fs: seq<Frame>) {
    var a, open, got, all := AssemblyAfter(fs), OpenBlock(fs), Identified(fs), HeaderBlocks(fs);
    && (open.None? ==> a.hb == [])
    && |got| <= |all|
    && (|| |got| < |all|
        || (open.Some? && a.hb == [])
        || (open.Some? && |a.hb| > |open.value.block|)
        || (exists i | 0 <= i < |got| :: |got[i].block| > |all[i].block|))
  }

  lemma {:induction false} StaysOutOfStep(fs: seq<Frame>)
    requires fs != [] && Contiguous(fs) && OutOfStep(fs[..|fs| - 1])
    ensures OutOfStep(fs)
  {
    var before, f := fs[..|fs| - 1], fs[|fs| - 1];
    var got, all := Identified(before), HeaderBlocks(before);
    assert got <= Identified(fs) && all <= HeaderBlocks(fs);
    if exists i | 0 <= i < |got| :: |got[i].block| > |all[i].block| {
      var i :| 0 <= i < |got| && |got[i].block| > |all[i].block|;
      assert Identified(fs)[i] == got[i] && HeaderBlocks(fs)[i] == all[i];
    } else if |got| == |all| && OpenBlock(before).Some? && AssemblyAfter(before).hb != [] && EndHeaders(f) {
      assert |Identified(fs)[|got|].block| > |HeaderBlocks(fs)[|got|].block|;
    }
  }

  lemma {:induction false} SurpriseLosesStep(fs: seq<Frame>)
    requires Contiguous(fs) && !AllPlain(fs)
    ensures OutOfStep(fs)
  {
    var before, f := fs[..|fs| - 1], fs[|fs| - 1];
    if AllPlain(before) {
      PlainBlocksIdentified(before);
      forall i | 0 <= i < |before| ensures PlainHeaders(fs[i]) { assert before[i] == fs[i]; }
      assert !PlainHeaders(f);
      if EndHeaders(f) {
        var k := |Identified(before)|;
        assert |Identified(fs)[k].block| > |HeaderBlocks(fs)[k].block|;
      }
    } else {
      SurpriseLosesStep(before);
      StaysOutOfStep(fs);
    }
  }

  /** The exact condition: over frames that leave no block open, `identify` gets the protocol's
      header blocks if and only if every HEADERS frame is plain. */
  lemma IdentifiedIffPlain(fs: seq<Frame>)
    requires Contiguous(fs) && OpenBlock(fs).None?
    ensures Identified(fs) == HeaderBlocks(fs) <==> AllPlain(fs)
  {
    if AllPlain(fs) {
      PlainBlocksIdentified(fs);
    } else {
      SurpriseLosesStep(fs);
    }
  }

  /** Later frames only add blocks. */
  lemma {:induction false} BlocksGrow(a: seq<Frame>, b: seq<Frame>)
    requires a <= b
    ensures Identified(a) <= Identified(b)
    ensures HeaderBlocks(a) <= HeaderBlocks(b)
    ensures Contiguous(b) ==> Contiguous(a)
    ensures AllPlain(b) ==> AllPlain(a)
    decreases |b|
  {
    if a != b {
      var before := b[..|b| - 1];
      if AllPlain(b) {
        forall i | 0 <= i < |before| ensures PlainHeaders(before[i]) { assert before[i] == b[i]; }
      }
      BlocksGrow(a, before);
    } else {
      assert a == b;
    }
  }

  datatype Header = Header(name: string, value: string)

  /** HPACK decoding: it depends on the blocks decoded before on the connection.  None is an error. */
  type Hpack = (seq<Block>, Block) -> Option<seq<Header>>

  function Lower(s: string): string {
    seq(|s|, i requires 0 <= i < |s| => if 'A' <= s[i] <= 'Z' then (s[i] as int + 32) as char else s[i])
  }

  /** The value of the last `:path` header. */
  function PathOf(hdrs: seq<Header>): string {
    if hdrs == [] then ""
    else
      var last := hdrs[|hdrs| - 1];
      if Lower(last.name) == ":path" then last.value else PathOf(hdrs[..|hdrs| - 1])
  }

  /** The bytes of a space character: the ASCII ones, U+0085, U+00A0, U+1680, U+2000 to U+200A, U+2028,
      U+2029, U+202F, U+205F and U+3000. */
  predicate IsSpace(r: string) {
    var u := seq(|r|, i requires 0 <= i < |r| => r[i] as int);
    match |r|
    case 1 => u[0] == 0x20 || 0x9 <= u[0] <= 0xD
    case 2 => u[0] == 0xC2 && (u[1] == 0x85 || u[1] == 0xA0)
    case 3 =>
      || u == [0xE1, 0x9A, 0x80] || u == [0xE2, 0x81, 0x9F] || u == [0xE3, 0x80, 0x80]
      || (u[0] == 0xE2 && u[1] == 0x80 && (0x80 <= u[2] <= 0x8A || u[2] == 0xA8 || u[2] == 0xA9 || u[2] == 0xAF))
    case _ => false
  }

  /** The length of the space at the front of a string, or 0. */
  function SpaceInFront(s: string): (n: nat)
    ensures n <= |s|
  {
    if |s| >= 1 && IsSpace(s[..1]) then 1
    else if |s| >= 2 && IsSpace(s[..2]) then 2
    else if |s| >= 3 && IsSpace(s[..3]) then 3 else 0
  }

  /** The length of the space at its end, or 0. */
  function SpaceBehind(s: string): (n: nat)
    ensures n <= |s|
  {
    if |s| >= 1 && IsSpace(s[|s| - 1..]) then 1
    else if |s| >= 2 && IsSpace(s[|s| - 2..]) then 2
    else if |s| >= 3 && IsSpace(s[|s| - 3..]) then 3 else 0
  }

  function TrimFront(s: string): string
    decreases |s|
  {
    if SpaceInFront(s) > 0 then TrimFront(s[SpaceInFront(s)..]) else s
  }

  function TrimBack(s: string): string
    decreases |s|
  {
    if SpaceBehind(s) > 0 then TrimBack(s[..|s| - SpaceBehind(s)]) else s
  }

  /** `strings.TrimSpace`. */
  function TrimSpace(s: string): string {
    TrimBack(TrimFront(s))
  }

  /** `strings.Trim` of double quotes. */
  function TrimQuotes(s: string): string {
    if s == "" then ""
    else if s[0] == '"' then TrimQuotes(s[1..])
    else if s[|s| - 1] == '"' then TrimQuotes(s[..|s| - 1])
    else s
  }

  /** One entry of a followpaths list selects a Dockerfile. */
  predicate Selects(entry: string) {
    IsDockerfile(Base(TrimSpace(TrimQuotes(entry))))
  }

  const DIFFCOPY := "/moby.filesync.v1.FileSync/DiffCopy"

  predicate HasSuffix(s: string, t: string) {
    |t| <= |s| && s[|s| - |t|..] == t
  }

  predicate Follows(h: Header) {
    Lower(h.name) == "followpaths" && SelectsAny(h.value)
  }

  /** `identify` marks the stream for these headers. */
  predicate IsDockerfileSync(hdrs: seq<Header>) {
    && HasSuffix(PathOf(hdrs), DIFFCOPY)
    && exists i | 0 <= i < |hdrs| :: Follows(hdrs[i])
  }

  /** Some entry of one followpaths value selects a Dockerfile. */
  predicate SelectsAny(value: string) {
    exists i | 0 <= i < |Text.Split(value, ',')| :: Selects(Text.Split(value, ',')[i])
  }

  /** `dockerfileInFollows`. */
  method DockerfileInFollows(follows: seq<string>) returns (r: bool)
    ensures r <==> exists i | 0 <= i < |follows| :: SelectsAny(follows[i])
  {
    hide Selects, Text.Split;
    for i := 0 to |follows|
      invariant forall k | 0 <= k < i :: !SelectsAny(follows[k])
    {
      var parts := Text.Split(follows[i], ',');
      for j := 0 to |parts|
        invariant forall k | 0 <= k < j :: !Selects(parts[k])
      {
        if Selects(parts[j]) {
          assert SelectsAny(follows[i]);
          return true;
        }
      }
    }
    return false;
  }

  /** The header loop of `identify`. */
  method Inspect(hdrs: seq<Header>) returns (r: bool)
    ensures r == IsDockerfileSync(hdrs)
  {
    var tpath := "";
    var follows: seq<string> := [];
    ghost var from: seq<int> := [];
    for i := 0 to |hdrs|
      invariant tpath == PathOf(hdrs[..i])
      invariant |from| == |follows| && forall k | 0 <= k < |from| :: 0 <= from[k] < i
      invariant forall k | 0 <= k < |from| ::
                  Lower(hdrs[from[k]].name) == "followpaths" && follows[k] == hdrs[from[k]].value
      invariant forall j | 0 <= j < i && Lower(hdrs[j].name) == "followpaths" :: j in from
    {
      var h := hdrs[i];
      assert hdrs[..i + 1][..i] == hdrs[..i];
      if Lower(h.name) == ":path" {
        tpath := h.value;
      } else if Lower(h.name) == "followpaths" {
        follows := follows + [h.value];
        from := from + [i];
      }
    }
    assert hdrs[..|hdrs|] == hdrs;
    var any := DockerfileInFollows(follows);
    if any {
      var k :| 0 <= k < |follows| && SelectsAny(follows[k]);
      assert Follows(hdrs[from[k]]);
    } else {
      forall i | 0 <= i < |hdrs| ensures !Follows(hdrs[i]) {
        if Lower(hdrs[i].name) == "followpaths" {
          assert i in from;
          var k :| 0 <= k < |from| && from[k] == i;
          assert !SelectsAny(follows[k]);
        }
      }
    }
    return HasSuffix(tpath, DIFFCOPY) && any;
  }

  // ----- the test, said of the headers as they come

  function Quotes(n: nat): string {
    seq(n, _ => '"')
  }

  predicate NoQuoteAround(s: string) {
    s == "" || (s[0] != '"' && s[|s| - 1] != '"')
  }

  lemma {:induction false} QuotesOff(a: nat, t: string, b: nat)
    requires NoQuoteAround(t)
    ensures TrimQuotes(Quotes(a) + t + Quotes(b)) == t
    decreases a + b
  {
    var s := Quotes(a) + t + Quotes(b);
    if a > 0 {
      assert s[0] == '"' && s[1..] == Quotes(a - 1) + t + Quotes(b);
      QuotesOff(a - 1, t, b);
    } else if b > 0 {
      if t == "" {
        assert s[0] == '"' && s[1..] == Quotes(0) + t + Quotes(b - 1);
      } else {
        assert s[0] == t[0] && s[|s| - 1] == '"' && s[..|s| - 1] == Quotes(0) + t + Quotes(b - 1);
      }
      QuotesOff(0, t, b - 1);
    } else {
      assert s == t;
    }
  }

  predicate Spaces(rs: seq<string>) {
    forall i | 0 <= i < |rs| :: IsSpace(rs[i])
  }

  predicate NoSpaceAround(s: string) {
    SpaceInFront(s) == 0 && SpaceBehind(s) == 0
  }

  /** The bytes a space is made of. */
  lemma SpaceBytes(r: string)
    requires IsSpace(r)
    ensures |r| in {1, 2, 3}
    ensures |r| == 1 ==> r[0] as int < 0x80
    ensures |r| == 2 ==> r[0] as int == 0xC2 && r[1] as int in {0x85, 0xA0}
    ensures |r| == 3 ==> r[0] as int in {0xE1, 0xE2, 0xE3} && r[1] as int in {0x80, 0x81, 0x9A} && r[2] as int >= 0x80
    ensures r[0] as int < 0x80 || r[0] as int in {0xC2, 0xE1, 0xE2, 0xE3}
  {
    if |r| == 3 {
      var u := seq(|r|, i requires 0 <= i < |r| => r[i] as int);
      assert u[0] == r[0] as int && u[1] == r[1] as int && u[2] == r[2] as int;
    }
  }

  /** A space is found at the front of whatever follows it, and at the end of whatever is before it. */
  lemma SpaceIsFound(r: string, s: string)
    requires IsSpace(r)
    ensures SpaceInFront(r + s) == |r| && (r + s)[|r|..] == s
    ensures SpaceBehind(s + r) == |r| && (s + r)[..|s|] == s
  {
    var f, b := r + s, s + r;
    assert f[..|r|] == r && b[|s|..] == r;
    SpaceBytes(r);
    if |r| >= 2 {
      if IsSpace(f[..1]) { SpaceBytes(f[..1]); }
      if IsSpace(b[|b| - 1..]) { SpaceBytes(b[|b| - 1..]); }
    }
    if |r| == 3 {
      if IsSpace(f[..2]) { SpaceBytes(f[..2]); }
      if IsSpace(b[|b| - 2..]) { SpaceBytes(b[|b| - 2..]); }
    }
    hide IsSpace;
  }

  lemma {:induction false} FrontOff(front: seq<string>, rest: string)
    requires Spaces(front)
    ensures TrimFront(Flatten(front) + rest) == TrimFront(rest)
  {
    hide IsSpace, SpaceInFront;
    if front == [] {
      assert Flatten(front) + rest == rest;
    } else {
      Assoc(front[0], Flatten(front[1..]), rest);
      SpaceIsFound(front[0], Flatten(front[1..]) + rest);
      NonemptySpace(front[0]);
      FrontOff(front[1..], rest);
    }
  }

  lemma {:induction false} BackOff(t: string, back: seq<string>)
    requires Spaces(back)
    ensures TrimBack(t + Flatten(back)) == TrimBack(t)
    decreases |back|
  {
    hide IsSpace, SpaceBehind;
    if back == [] {
      assert t + Flatten(back) == t;
    } else {
      var n := |back| - 1;
      var rest := t + Flatten(back[..n]);
      FlattenSnoc(back[..n], back[n]);
      assert back[..n] + [back[n]] == back;
      Assoc(t, Flatten(back[..n]), back[n]);
      assert t + Flatten(back) == rest + back[n];
      SpaceIsFound(back[n], rest);
      NonemptySpace(back[n]);
      BackOff(t, back[..n]);
    }
  }

  /** A space behind a text makes no space at its front. */
  lemma FrontStays(t: string, r: string, rest: string)
    requires t != "" && SpaceInFront(t) == 0 && IsSpace(r)
    ensures SpaceInFront(t + (r + rest)) == 0
  {
    var s := t + (r + rest);
    SpaceBytes(r);
    hide IsSpace;
    assert s[|t|] == r[0] && s[..1] == t[..1];
    if |t| >= 2 {
      assert s[..2] == t[..2];
    } else {
      assert s[..2][1] == r[0];
      if IsSpace(s[..2]) { SpaceBytes(s[..2]); }
    }
    if |t| >= 3 {
      assert s[..3] == t[..3];
    } else if |s| >= 3 {
      assert s[..3][|t|] == r[0];
      if IsSpace(s[..3]) { ThirdByte(s[..3]); }
    }
  }

  lemma ThirdByte(r: string)
    requires IsSpace(r) && |r| == 3
    ensures r[1] as int in {0x80, 0x81, 0x9A} && 0x80 <= r[2] as int <= 0xAF
  {
    var u := seq(|r|, i requires 0 <= i < |r| => r[i] as int);
    assert u[0] == r[0] as int && u[1] == r[1] as int && u[2] == r[2] as int;
  }

  /** What is between spaces, and has none at its own ends, is what is left. */
  lemma SpacesOff(front: seq<string>, t: string, back: seq<string>)
    requires Spaces(front) && Spaces(back) && NoSpaceAround(t)
    ensures TrimSpace(Flatten(front) + (t + Flatten(back))) == t
  {
    hide IsSpace, SpaceInFront, SpaceBehind;
    FrontOff(front, t + Flatten(back));
    BackOff(t, back);
    if t == "" {
      assert t + Flatten(back) == Flatten(back) + "";
      FrontOff(back, "");
    } else if back == [] {
      assert t + Flatten(back) == t;
    } else {
      FrontStays(t, back[0], Flatten(back[1..]));
    }
  }

  lemma NonemptySpace(r: string)
    requires IsSpace(r)
    ensures 1 <= |r| <= 3
  {
  }

  /** Which entries select a Dockerfile, quotes and spaces taken off: those that name one after any directory
      and before any slashes. */
  lemma SelectsIs(a: nat, front: seq<string>, core: string, back: seq<string>, b: nat)
    requires Spaces(front) && Spaces(back) && NoSpaceAround(core)
    requires NoQuoteAround(Flatten(front) + (core + Flatten(back)))
    ensures Selects(Quotes(a) + (Flatten(front) + (core + Flatten(back))) + Quotes(b)) <==>
            exists d: string, name: string, k: nat ::
              core == d + name + Slashes(k) && IsOneOf(name) && (d == "" || d[|d| - 1] == '/')
  {
    QuotesOff(a, Flatten(front) + (core + Flatten(back)), b);
    SpacesOff(front, core, back);
    hide *;
    var entry := Quotes(a) + (Flatten(front) + (core + Flatten(back))) + Quotes(b);
    assert Selects(entry) <==> IsDockerfile(Base(core)) by { SelectsCore(entry, core); }
    NamesOne(core);
  }

  lemma SelectsCore(entry: string, core: string)
    requires TrimSpace(TrimQuotes(entry)) == core
    ensures Selects(entry) <==> IsDockerfile(Base(core))
  {
  }

  lemma NamesOne(core: string)
    ensures IsDockerfile(Base(core)) <==>
            exists d: string, name: string, k: nat ::
              core == d + name + Slashes(k) && IsOneOf(name) && (d == "" || d[|d| - 1] == '/')
  {
    BaseIsDockerfile(core);
    hide Base;
    if d: string, name: string, k: nat :| Names(core, d, name, k) {
      assert IsOneOf(name);
    }
    if d: string, name: string, k: nat :|
        core == d + name + Slashes(k) && IsOneOf(name) && (d == "" || d[|d| - 1] == '/') {
      assert Names(core, d, name, k);
    }
  }

  predicate IsOneOf(name: string) {
    name in ["Dockerfile", "dockerfile", ".Dockerfile"]
  }

  /** `s` is the lower-case text `t`, in whatever case. */
  predicate SameText(s: string, t: string) {
    |s| == |t| && forall i | 0 <= i < |t| :: s[i] == t[i] || ('A' <= s[i] <= 'Z' && s[i] as int + 32 == t[i] as int)
  }

  lemma LowerIs(s: string, t: string)
    requires forall i | 0 <= i < |t| :: !('A' <= t[i] <= 'Z')
    ensures Lower(s) == t <==> SameText(s, t)
  {
    if Lower(s) == t {
      forall i | 0 <= i < |t| ensures s[i] == t[i] || ('A' <= s[i] <= 'Z' && s[i] as int + 32 == t[i] as int) {
        assert Lower(s)[i] == t[i];
      }
    }
    if SameText(s, t) {
      assert forall i | 0 <= i < |t| :: Lower(s)[i] == t[i];
    }
  }

  /** Header `i` is the last one of this name. */
  predicate LastNamed(hdrs: seq<Header>, name: string, i: nat) {
    i < |hdrs| && SameText(hdrs[i].name, name) && forall j | i < j < |hdrs| :: !SameText(hdrs[j].name, name)
  }

  lemma {:induction false} PathIs(hdrs: seq<Header>)
    ensures forall i: nat | LastNamed(hdrs, ":path", i) :: PathOf(hdrs) == hdrs[i].value
    ensures (forall i: nat :: !LastNamed(hdrs, ":path", i)) ==> PathOf(hdrs) == ""
  {
    hide SameText;
    if hdrs != [] {
      var n := |hdrs| - 1;
      PathIs(hdrs[..n]);
      LowerIs(hdrs[n].name, ":path");
      assert forall j | 0 <= j < n :: hdrs[..n][j] == hdrs[j];
      if SameText(hdrs[n].name, ":path") {
        assert LastNamed(hdrs, ":path", n);
      } else {
        assert forall i: nat :: LastNamed(hdrs, ":path", i) <==> LastNamed(hdrs[..n], ":path", i);
      }
    }
  }

  /** Which requests are Dockerfile syncs: the last `:path` ends in the DiffCopy method, and some `followpaths`
      header has an entry, between commas, that selects a Dockerfile. */
  lemma SyncIs(hdrs: seq<Header>)
    ensures IsDockerfileSync(hdrs) <==>
            && (exists i: nat ::
                  LastNamed(hdrs, ":path", i) && HasSuffix(hdrs[i].value, "/moby.filesync.v1.FileSync/DiffCopy"))
            && (exists j | 0 <= j < |hdrs| ::
                  && SameText(hdrs[j].name, "followpaths")
                  && exists e | e in Text.Split(hdrs[j].value, ',') :: Selects(e))
  {
    PathIs(hdrs);
    hide SameText, Selects, PathOf, Text.Split, Lower, LastNamed;
    forall j | 0 <= j < |hdrs|
      ensures Follows(hdrs[j]) <==>
              SameText(hdrs[j].name, "followpaths") && exists e | e in Text.Split(hdrs[j].value, ',') :: Selects(e)
    {
      LowerIs(hdrs[j].name, "followpaths");
    }
    assert !HasSuffix("", DIFFCOPY);
  }
}
