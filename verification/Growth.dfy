/** The rewrite at its most telling: a client serves an empty Dockerfile, and the edit makes it large. */
module Growth {
  import opened Bytes
  import opened Varints
  import opened Protobuf
  import opened Paths
  import opened Records
  import opened Fsutil
  import opened Grpc
  import opened Stream
  import opened Http2
  import opened Session
  import opened StreamContent
  import opened Progress
  import opened EndToEnd

  /** "Dockerfile". */
  const NAME: bytes := [68, 111, 99, 107, 101, 114, 102, 105, 108, 101]

  /** The Stat message for an empty Dockerfile, and the Data message with its content. */
  const STAT := Framed(0, LenField(2, LenField(1, NAME)))
  const EMPTY := Framed(0, LenField(4, []))

  function Zeros(n: nat): bytes {
    seq(n, _ => 0)
  }

  /** An edit that puts `n` bytes into an empty Dockerfile. */
  predicate GrowsTo(edit: Option<Edit>, n: nat) {
    edit.Some? && n > 0 && edit.value([]) == (Zeros(n), true)
  }

  /** The Data message after the edit. */
  function Grown(n: nat): bytes {
    Framed(0, LenField(4, Zeros(n)))
  }

  lemma NameIsDockerfile()
    ensures IsDockerfileName(NAME)
  {
    assert Chars(NAME) == "Dockerfile";
  }

  /** A message that is one length-delimited field. */
  lemma OneField(num: nat, val: bytes)
    requires num < TWO64 / 8 && |val| < TWO64
    ensures ParsedFields(LenField(num, val)) == Some([Field(num, WT_LEN, LenField(num, val), val, 0, None)])
  {
    hide LenField, Fields;
    LenFieldParses(num, val);
  }

  lemma StatSeen()
    ensures Seen(STAT) == Some(StatPacket(Stat(NAME, 0)))
  {
    hide ParsedFields, Framed, LenField;
    OneField(1, NAME);
    OneField(2, LenField(1, NAME)) by { SmallField(1, NAME); }
    FrameParts(0, LenField(2, LenField(1, NAME)));
    assert !Bit(0, 1);
    var g := Field(1, WT_LEN, LenField(1, NAME), NAME, 0, None);
    assert [g][1..] == [] && StatOf([g][1..], Stat(NAME, 0)) == Some(Stat(NAME, 0));
    assert ParsedStat(LenField(1, NAME)) == Some(Stat(NAME, 0));
  }

  lemma SmallField(num: nat, val: bytes)
    requires num < 16 && |val| < 128
    ensures |LenField(num, val)| == 2 + |val|
  {
    assert LenTag(num) == num * 8 + 2;
    assert Encoded(LenTag(num)) == [num * 8 + 2] && Encoded(|val|) == [|val|];
  }

  lemma EmptySeen()
    ensures Seen(EMPTY) == Some(DataPacket([]))
  {
    hide ParsedFields, Framed, LenField;
    OneField(4, []);
    FrameParts(0, LenField(4, []));
    assert !Bit(0, 1);
  }

  lemma EmptyGrows(edit: Option<Edit>, n: nat)
    requires GrowsTo(edit, n)
    ensures EmittedFor(EMPTY, Some(Stat(NAME, 0)), edit) == Grown(n)
  {
    NameIsDockerfile();
    EmptySeen();
    FrameParts(0, LenField(4, []));
    OneField(4, []);
    assert |Zeros(n)| == n;
    hide ParsedFields, LenField, PacketIn, IsDockerfileName, Framed;
    var f := Field(4, WT_LEN, LenField(4, []), [], 0, None);
    var fs := [f];
    assert fs[0].num == 4;
    var vs := Replacements(fs, 4, Zeros(n));
    assert vs == [Some(Zeros(n))];
    assert AllBytes(Patched(fs, vs)) == [LenField(4, Zeros(n))];
    FlattenOne(LenField(4, Zeros(n)));
  }

  lemma PairStats()
    ensures NextStat(STAT, None) == Some(Stat(NAME, 0)) && NextStat(EMPTY, Some(Stat(NAME, 0))) == None
  {
    hide Seen;
    StatSeen();
    EmptySeen();
  }

  /** What the pair of messages becomes. */
  lemma PairRewritten(edit: Option<Edit>, n: nat)
    requires GrowsTo(edit, n)
    ensures Rewrite(Pair(), None, edit) == GrownPair(n)
    ensures StatAfter(Pair(), None) == None
  {
    hide EmittedFor, NextStat;
    EmptyGrows(edit, n);
    StatStays(edit);
    PairStats();
    RewriteCons(STAT, [EMPTY], None, edit);
    RewriteCons(EMPTY, [], Some(Stat(NAME, 0)), edit);
    assert [STAT] + [EMPTY] == [STAT, EMPTY] && [EMPTY] + [] == [EMPTY];
  }

  lemma StatStays(edit: Option<Edit>)
    ensures EmittedFor(STAT, None, edit) == STAT
  {
  }

  function Pair(): seq<bytes> {
    [STAT, EMPTY]
  }

  function GrownPair(n: nat): seq<bytes> {
    [STAT, Grown(n)]
  }

  /** `k` times the pair. */
  function Pairs(k: nat): seq<bytes> {
    if k == 0 then [] else Pairs(k - 1) + Pair()
  }

  function GrownPairs(k: nat, n: nat): seq<bytes> {
    if k == 0 then [] else GrownPairs(k - 1, n) + GrownPair(n)
  }

  lemma {:induction false} PairsRewritten(edit: Option<Edit>, n: nat, k: nat)
    requires GrowsTo(edit, n)
    ensures Rewrite(Pairs(k), None, edit) == GrownPairs(k, n) && StatAfter(Pairs(k), None) == None
  {
    hide GrowsTo, EmittedFor, NextStat, Pair, GrownPair;
    if k > 0 {
      assert Pairs(k) == Pairs(k - 1) + Pair() && GrownPairs(k, n) == GrownPairs(k - 1, n) + GrownPair(n);
      hide *;
      PairsRewritten(edit, n, k - 1);
      PairRewritten(edit, n);
      RewriteAppend(Pairs(k - 1), Pair(), None, edit);
    }
  }

  lemma {:induction false} PairsAreMessages(k: nat)
    ensures AllMessages(Pairs(k), MAX_GRPC)
  {
    if k > 0 {
      PairsAreMessages(k - 1);
      Sizes();
      hide IsMessage;
      AllMessagesConcat(Pairs(k - 1), Pair());
    }
  }

  /** The pair is 26 bytes on the wire. */
  lemma Sizes()
    ensures |STAT| == 19 && |EMPTY| == 7
    ensures IsMessage(STAT, MAX_GRPC) && IsMessage(EMPTY, MAX_GRPC)
  {
    hide LenField, Framed;
    SmallField(1, NAME);
    SmallField(2, LenField(1, NAME));
    SmallField(4, []);
    FrameIsMessage(0, LenField(2, LenField(1, NAME)), MAX_GRPC);
    FrameIsMessage(0, LenField(4, []), MAX_GRPC);
  }

  /** With 65400 bytes of content the pair has become 65428 bytes. */
  const LARGE: nat := 65400
  const LARGE_PAIR: nat := 65428

  lemma GrownSize()
    ensures |STAT| + |Grown(LARGE)| == LARGE_PAIR
  {
    hide Framed;
    Sizes();
    assert LenTag(4) == 34 && Encoded(34) == [34];
    assert Encoded(65400) == [65400 % 128 + 128] + Encoded(510);
    assert Encoded(510) == [510 % 128 + 128] + Encoded(3);
    assert |Encoded(65400)| == 3;
    assert |Zeros(LARGE)| == LARGE;
    assert |LenField(4, Zeros(LARGE))| == 4 + LARGE;
  }

  lemma {:induction false} GrownPairsSize(k: nat)
    ensures |Flatten(GrownPairs(k, LARGE))| == k * LARGE_PAIR
  {
    hide Grown;
    if k > 0 {
      GrownPairsSize(k - 1);
      GrownSize();
      FlattenConcat(GrownPairs(k - 1, LARGE), GrownPair(LARGE));
      FlattenTwo(STAT, Grown(LARGE));
    }
  }

  lemma FlattenTwo(x: bytes, y: bytes)
    ensures Flatten([x, y]) == x + y
  {
    assert [x, y][1..] == [y];
    FlattenOne(y);
  }

  /** Between two client frames of a healthy session: `k` empty Dockerfiles have come in on the stream. */
  ghost predicate Between(cfg: Config, s: State, sid: nat, k: nat) {
    && Reachable(cfg, s) && s.down.Reading? && !s.sh.closed && !s.broken
    && sid in s.sh.targets && sid !in s.log.rawData
    && PayloadOn(s.log.downIn, sid) == Flatten(Pairs(k))
  }

  lemma BetweenMeans(cfg: Config, s: State, sid: nat, k: nat, n: nat)
    requires Between(cfg, s, sid, k) && GrowsTo(cfg.edit, n)
    ensures s.log.Taken(sid) == Pairs(k) && s.sh.Buffered(sid) == [] && s.sh.StatFor(sid) == None
    ensures !s.log.lost
  {
    hide Rewrite, StatAfter, Messages, PayloadOn, Flatten, Pairs, Reachable, GrowsTo, Readable;
    ReachableContent(cfg, s, sid);
    PairsAreMessages(k);
    MessagesOfJoin(Pairs(k), MAX_GRPC);
    BoundaryFlushes(cfg, s, sid);
    PairsRewritten(cfg.edit, n, k);
    assert Begun(Pairs(k), []) == Pairs(k);
  }

  /** The frame in which the client serves an empty Dockerfile. */
  function Serving(sid: nat): Frame {
    DataFrame(sid, STAT + EMPTY)
  }

  lemma ServingIs(sid: nat)
    requires sid < TWO31
    ensures Readable(Serving(sid)) && Serving(sid).typ == DATA && Serving(sid).sid == sid
            && !Bit(Serving(sid).flags, PADDED)
    ensures Serving(sid).payload == Flatten(Pair()) && |Serving(sid).raw| == 35
  {
    hide Framed, Readable;
    Sizes();
    FlattenTwo(STAT, EMPTY);
    DataFrameReadable(sid, STAT + EMPTY);
  }

  /** A frame just read that carries the pair: what it will set going. */
  lemma ServingDemand(cfg: Config, s: State, sid: nat)
    requires sid < TWO31 && s.down == Checked(Serving(sid), true)
    requires s.sh.Buffered(sid) == [] && s.sh.StatFor(sid) == None && GrowsTo(cfg.edit, LARGE)
    ensures Demand(cfg, s) == LARGE_PAIR
  {
    hide Serving, Pair, Rewrite, Flatten, Messages, GrownPair;
    ServingIs(sid);
    PairsAreMessages(1);
    OnePair();
    MessagesOfJoin(Pair(), MAX_GRPC);
    assert [] + Flatten(Pair()) == Flatten(Pair());
    PairRewritten(cfg.edit, LARGE);
    GrownPairsSize(1);
  }

  lemma OnePair()
    ensures Pairs(1) == Pair() && GrownPairs(1, LARGE) == GrownPair(LARGE)
  {
  }

  /** The client serves one more empty Dockerfile, and it goes out with its new content. */
  lemma ServesEmpty(cfg: Config, s: State, sid: nat, k: nat) returns (t: State)
    requires Between(cfg, s, sid, k) && GrowsTo(cfg.edit, LARGE) && 0 < sid < TWO31
    requires s.sh.connWin >= LARGE_PAIR && s.sh.strmWin >= LARGE_PAIR
    ensures Between(cfg, t, sid, k + 1)
    ensures t.sh.connWin == s.sh.connWin - LARGE_PAIR && t.sh.strmWin >= s.sh.strmWin - LARGE_PAIR
    ensures t.sh.targets == s.sh.targets && t.sh.initWin == s.sh.initWin
    ensures t.up == s.up && t.asm == s.asm && t.seen == s.seen
    ensures t.log.upIn == s.log.upIn && t.log.upOut == s.log.upOut && t.log.marks == s.log.marks
    ensures t.log.downIn == s.log.downIn + [Serving(sid)] && t.log.rawData == s.log.rawData
    ensures t.log.obeys == (s.log.obeys && Opened(s.log.upOut, sid))
    ensures |PayloadOn(t.log.downOut, sid)| == (k + 1) * LARGE_PAIR
  {
    hide Rewrite, Flatten, PayloadOn, Serving, Reachable, Pairs, Demand, Drive, Opened, Readable, Pair, GrowsTo;
    var f := Serving(sid);
    ServingIs(sid);
    BetweenMeans(cfg, s, sid, k, LARGE);
    var s1 := Onward(cfg, s, Read(f));
    assert s1 == ReadClient(s, f);
    ServingDemand(cfg, s1, sid);
    EnoughWindowDelivers(cfg, s1, sid);
    t := Drive(cfg, s1);
    NoDemand(cfg, t);
    PayloadSnoc(s.log.downIn, f, sid);
    FlattenConcat(Pairs(k), Pair());
    assert Pairs(k + 1) == Pairs(k) + Pair() by { OneMorePair(k); }
    BetweenMeans(cfg, t, sid, k + 1, LARGE);
    PairsRewritten(cfg.edit, LARGE, k + 1);
    GrownPairsSize(k + 1);
  }

  lemma OneMorePair(k: nat)
    ensures Pairs(k + 1) == Pairs(k) + Pair()
  {
  }

  lemma NoDemand(cfg: Config, s: State)
    requires s.down.Reading?
    ensures Demand(cfg, s) == 0
  {
  }
}
