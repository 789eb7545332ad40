/** Image policy: `globMatch` against a declarative meaning of patterns, `matchAny` and
    `policyAllowed` (internal/proxy/policy.go).  A Go string is a sequence of bytes; a `char`
    here stands for one byte. */
module Policy {
  import opened Bytes

  /** A pattern is a sequence of these. */
  datatype Token =
    | Deep        // `**`: any run
    | Shallow     // `*`: a run without '/'
    | One         // `?`: one character that is not '/'
    | Lit(c: char)

  function Tokens(pattern: string): (ts: seq<Token>) {
    if pattern == "" then []
    else if pattern[0] == '*' then
      if |pattern| >= 2 && pattern[1] == '*' then [Deep] + Tokens(pattern[2..]) else [Shallow] + Tokens(pattern[1..])
    else [if pattern[0] == '?' then One else Lit(pattern[0])] + Tokens(pattern[1..])
  }

  /** What one token stands for. */
  predicate Fits(t: Token, part: string) {
    match t
    case Deep => true
    case Shallow => '/' !in part
    case One => |part| == 1 && part[0] != '/'
    case Lit(c) => part == [c]
  }

  predicate AllFit(ts: seq<Token>, parts: seq<string>) {
    |ts| == |parts| && forall i | 0 <= i < |ts| :: Fits(ts[i], parts[i])
  }

  /** The reference is a row of parts, one for each token of the pattern. */
  ghost predicate Matches(pattern: string, ref: string) {
    exists parts: seq<string> :: AllFit(Tokens(pattern), parts) && Flatten(parts) == ref
  }

  lemma MatchesWith(pattern: string, ref: string, parts: seq<string>)
    requires AllFit(Tokens(pattern), parts) && Flatten(parts) == ref
    ensures Matches(pattern, ref)
  {
  }

  lemma MatchesNothing(ref: string)
    ensures Matches("", ref) <==> ref == ""
  {
    if ref == "" {
      MatchesWith("", ref, []);
    }
  }

  /** `rest` is the pattern after its first token `t`. */
  predicate Starts(pattern: string, t: Token, rest: string) {
    Tokens(pattern) == [t] + Tokens(rest)
  }

  lemma MatchesFirst(pattern: string, t: Token, rest: string, ref: string, k: nat)
    requires Starts(pattern, t, rest) && k <= |ref| && Fits(t, ref[..k]) && Matches(rest, ref[k..])
    ensures Matches(pattern, ref)
  {
    var parts: seq<string> :| AllFit(Tokens(rest), parts) && Flatten(parts) == ref[k..];
    assert ([ref[..k]] + parts)[1..] == parts;
    MatchesWith(pattern, ref, [ref[..k]] + parts);
  }

  /** A match cuts off a part for the first token. */
  lemma FirstMatches(pattern: string, t: Token, rest: string, ref: string) returns (k: nat)
    requires Starts(pattern, t, rest) && Matches(pattern, ref)
    ensures k <= |ref| && Fits(t, ref[..k]) && Matches(rest, ref[k..])
  {
    var parts: seq<string> :| AllFit(Tokens(pattern), parts) && Flatten(parts) == ref;
    k := |parts[0]|;
    assert ref == parts[0] + Flatten(parts[1..]);
    assert ref[..k] == parts[0] && ref[k..] == Flatten(parts[1..]);
    assert Tokens(pattern)[1..] == Tokens(rest);
    MatchesWith(rest, ref[k..], parts[1..]);
  }

  /** The token loops of `globMatch` look for this. */
  ghost predicate SomeSplit(t: Token, rest: string, ref: string, k: nat) {
    exists i | 0 <= i <= |ref| && i < k :: Fits(t, ref[..i]) && Matches(rest, ref[i..])
  }

  lemma MatchesSplit(pattern: string, t: Token, rest: string, ref: string)
    requires Starts(pattern, t, rest)
    ensures Matches(pattern, ref) <==> SomeSplit(t, rest, ref, |ref| + 1)
  {
    if Matches(pattern, ref) {
      var k := FirstMatches(pattern, t, rest, ref);
    }
    if i :| 0 <= i <= |ref| && Fits(t, ref[..i]) && Matches(rest, ref[i..]) {
      MatchesFirst(pattern, t, rest, ref, i);
    }
  }

  /** A token of exactly one character. */
  lemma MatchesOne(pattern: string, t: Token, rest: string, ref: string)
    requires Starts(pattern, t, rest) && (t.One? || t.Lit?)
    ensures Matches(pattern, ref) <==> ref != "" && Fits(t, [ref[0]]) && Matches(rest, ref[1..])
  {
    if Matches(pattern, ref) {
      var k := FirstMatches(pattern, t, rest, ref);
      assert ref[..1] == [ref[0]];
    }
    if ref != "" && Fits(t, [ref[0]]) && Matches(rest, ref[1..]) {
      assert ref[..1] == [ref[0]];
      MatchesFirst(pattern, t, rest, ref, 1);
    }
  }

  lemma NoMoreSplits(rest: string, ref: string, i: nat)
    requires i < |ref| && ref[i] == '/'
    ensures SomeSplit(Shallow, rest, ref, |ref| + 1) <==> SomeSplit(Shallow, rest, ref, i + 1)
  {
    forall k | i < k <= |ref| ensures !Fits(Shallow, ref[..k]) {
      assert ref[..k][i] == '/';
    }
  }

  /** `globMatch`: true exactly if the pattern matches; leaving the `*` loop at a '/' loses nothing. */
  method GlobMatch(pattern: string, ref: string) returns (r: bool)
    ensures r <==> Matches(pattern, ref)
    decreases |pattern|
  {
    hide Matches;
    var p, s := pattern, ref;
    while true
      invariant |p| <= |pattern| && (Matches(p, s) <==> Matches(pattern, ref))
      decreases |p|
    {
      if p == "" {
        MatchesNothing(s);
        return s == "";
      }
      if p[0] == '*' {
        if |p| >= 2 && p[1] == '*' {
          var rest := p[2..];
          MatchesSplit(p, Deep, rest, s);
          for i := 0 to |s| + 1
            invariant !SomeSplit(Deep, rest, s, i)
          {
            var m := GlobMatch(rest, s[i..]);
            if m {
              assert SomeSplit(Deep, rest, s, i + 1) by { assert Fits(Deep, s[..i]); }
              return true;
            }
          }
          return false;
        }
        var rest := p[1..];
        MatchesSplit(p, Shallow, rest, s);
        for i := 0 to |s| + 1
          invariant forall j | 0 <= j < i && j < |s| :: s[j] != '/'
          invariant !SomeSplit(Shallow, rest, s, i)
        {
          var m := GlobMatch(rest, s[i..]);
          if m {
            assert SomeSplit(Shallow, rest, s, i + 1) by { assert Fits(Shallow, s[..i]); }
            return true;
          }
          if i < |s| && s[i] == '/' {
            NoMoreSplits(rest, s, i);
            return false;
          }
        }
        return false;
      }
      if p[0] == '?' {
        MatchesOne(p, One, p[1..], s);
        if s == "" || s[0] == '/' {
          return false;
        }
      } else {
        MatchesOne(p, Lit(p[0]), p[1..], s);
        if s == "" || p[0] != s[0] {
          return false;
        }
      }
      p, s := p[1..], s[1..];
    }
  }

  /** A pattern without wildcards matches itself and nothing else. */
  lemma {:induction false} LiteralMatchesItself(pattern: string, ref: string)
    requires '*' !in pattern && '?' !in pattern
    ensures Matches(pattern, ref) <==> pattern == ref
    decreases |pattern|
  {
    if pattern == "" {
      MatchesNothing(ref);
    } else {
      MatchesOne(pattern, Lit(pattern[0]), pattern[1..], ref);
      if ref != "" {
        LiteralMatchesItself(pattern[1..], ref[1..]);
        assert pattern == [pattern[0]] + pattern[1..] && ref == [ref[0]] + ref[1..];
      }
    }
  }

  /** `*` does not cross a '/'; `**` does. */
  lemma StarsAlone(ref: string)
    ensures Matches("**", ref)
    ensures Matches("*", ref) <==> '/' !in ref
  {
    assert ref[..|ref|] == ref && ref[|ref|..] == "";
    MatchesNothing("");
    assert Tokens("") == [] && "**"[2..] == "" && "*"[1..] == "";
    MatchesFirst("**", Deep, "", ref, |ref|);
    MatchesSplit("*", Shallow, "", ref);
    if Matches("*", ref) {
      var k := FirstMatches("*", Shallow, "", ref);
      MatchesNothing(ref[k..]);
    }
    if '/' !in ref {
      MatchesFirst("*", Shallow, "", ref, |ref|);
    }
  }

  predicate Literal(p: string) {
    '*' !in p && '?' !in p
  }

  /** A literal front is matched by itself, and what follows decides the rest. */
  lemma {:induction false} LiteralFront(front: string, rest: string, ref: string)
    requires Literal(front)
    ensures Matches(front + rest, ref) <==> front <= ref && Matches(rest, ref[|front|..])
    decreases |front|
  {
    hide Matches;
    if front == "" {
      assert front + rest == rest && ref[0..] == ref;
    } else {
      var c, more := front[0], front[1..];
      assert (front + rest)[1..] == more + rest && (front + rest)[0] == c;
      MatchesOne(front + rest, Lit(c), more + rest, ref);
      if ref != "" && ref[0] == c {
        LiteralFront(more, rest, ref[1..]);
        assert front == [c] + more && ref == [c] + ref[1..];
        if more <= ref[1..] { assert ref[1..][|more|..] == ref[|front|..]; }
      }
    }
  }

  /** `?` stands for exactly one byte, which is not a slash. */
  lemma OneByteMore(front: string, ref: string)
    requires Literal(front)
    ensures Matches(front + "?", ref) <==> front <= ref && |ref| == |front| + 1 && ref[|front|] != '/'
  {
    hide Matches;
    LiteralFront(front, "?", ref);
    if front <= ref {
      var rest := ref[|front|..];
      assert "?"[1..] == "";
      MatchesOne("?", One, "", rest);
      if rest != "" { MatchesNothing(rest[1..]); }
    }
  }

  /** A literal name followed by `**` is everything below it, and by `*` everything on its level. */
  lemma Below(front: string, ref: string)
    requires Literal(front)
    ensures Matches(front + "**", ref) <==> front <= ref
    ensures Matches(front + "*", ref) <==> front <= ref && '/' !in ref[|front|..]
  {
    hide Matches;
    LiteralFront(front, "**", ref);
    LiteralFront(front, "*", ref);
    if front <= ref { StarsAlone(ref[|front|..]); }
  }

  // ----- the policy

  const PROXY_PREFIX := "whalevet-injected/"

  ghost predicate AnyMatches(patterns: seq<string>, ref: string) {
    exists p | p in patterns :: Matches(p, ref)
  }

  /** `matchAny`. */
  method MatchAny(patterns: seq<string>, ref: string) returns (r: bool)
    ensures r <==> AnyMatches(patterns, ref)
  {
    hide Matches;
    for i := 0 to |patterns|
      invariant forall k | 0 <= k < i :: !Matches(patterns[k], ref)
    {
      var m := GlobMatch(patterns[i], ref);
      if m {
        return true;
      }
    }
    return false;
  }

  datatype PolicyConfig = PolicyConfig(allow: seq<string>, deny: seq<string>)

  predicate FromProxy(ref: string) {
    PROXY_PREFIX <= ref
  }

  /** What the configuration promises for a reference. */
  ghost predicate Allowed(cfg: PolicyConfig, ref: string) {
    || FromProxy(ref)
    || (!AnyMatches(cfg.deny, ref) && (cfg.allow == [] || AnyMatches(cfg.allow, ref)))
  }

  /** `policyAllowed`: the verdict, and why a reference is refused. */
  method PolicyAllowed(cfg: PolicyConfig, ref: string) returns (ok: bool, why: string)
    ensures ok <==> Allowed(cfg, ref)
    ensures why == if ok then ""
                   else if AnyMatches(cfg.deny, ref) then "matches a deny pattern"
                   else "does not match any allow pattern"
  {
    hide AnyMatches;
    if |ref| >= |PROXY_PREFIX| && ref[..|PROXY_PREFIX|] == PROXY_PREFIX {
      return true, "";
    }
    var denied := MatchAny(cfg.deny, ref);
    if denied {
      return false, "matches a deny pattern";
    }
    if |cfg.allow| > 0 {
      var listed := MatchAny(cfg.allow, ref);
      if listed {
        return true, "";
      }
      return false, "does not match any allow pattern";
    }
    return true, "";
  }

  function Listed(ps: seq<string>): set<string> {
    set p | p in ps
  }

  /** The verdict depends on which patterns there are, not on their order or repetition. */
  lemma OnlySetsMatter(cfg: PolicyConfig, cfg': PolicyConfig, ref: string)
    requires Listed(cfg.allow) == Listed(cfg'.allow) && Listed(cfg.deny) == Listed(cfg'.deny)
    ensures Allowed(cfg, ref) <==> Allowed(cfg', ref)
  {
    hide Matches;
    SameMatches(cfg.allow, cfg'.allow, ref);
    SameMatches(cfg.deny, cfg'.deny, ref);
    assert cfg.allow != [] ==> cfg.allow[0] in Listed(cfg.allow);
    assert cfg'.allow != [] ==> cfg'.allow[0] in Listed(cfg'.allow);
  }

  lemma SameMatches(ps: seq<string>, qs: seq<string>, ref: string)
    requires Listed(ps) == Listed(qs)
    ensures AnyMatches(ps, ref) <==> AnyMatches(qs, ref)
  {
    hide Matches;
    forall p ensures p in ps <==> p in qs {
      assert p in ps <==> p in Listed(ps);
      assert p in qs <==> p in Listed(qs);
    }
  }

  /** Deny wins: more deny patterns never admit a reference, and a matching one shuts out every
      reference that does not come from the proxy, whatever is allowed. */
  lemma DenyWins(cfg: PolicyConfig, more: seq<string>, ref: string)
    ensures Allowed(cfg.(deny := cfg.deny + more), ref) <==>
            Allowed(cfg, ref) && (FromProxy(ref) || !AnyMatches(more, ref))
  {
    hide Matches;
  }

  /** More allow patterns admit more, except that the first one turns the allow list on. */
  lemma AllowGrows(cfg: PolicyConfig, more: seq<string>, ref: string)
    requires more != []
    ensures Allowed(cfg.(allow := cfg.allow + more), ref) <==>
            FromProxy(ref) || (!AnyMatches(cfg.deny, ref) && (AnyMatches(cfg.allow, ref) || AnyMatches(more, ref)))
  {
    hide Matches;
  }

  /** The patterns for everything below some names. */
  function Trees(fronts: seq<string>): seq<string> {
    seq(|fronts|, i requires 0 <= i < |fronts| => fronts[i] + "**")
  }

  lemma TreesMatch(fronts: seq<string>, ref: string)
    requires forall i | 0 <= i < |fronts| :: Literal(fronts[i])
    ensures AnyMatches(Trees(fronts), ref) <==> exists i | 0 <= i < |fronts| :: fronts[i] <= ref
  {
    hide Matches;
    forall i | 0 <= i < |fronts| ensures Matches(Trees(fronts)[i], ref) <==> fronts[i] <= ref {
      Below(fronts[i], ref);
    }
    if i :| 0 <= i < |fronts| && fronts[i] <= ref {
      assert Trees(fronts)[i] in Trees(fronts);
    }
  }

  /** A policy of whole trees admits exactly what the proxy made, and what is in no denied tree and, if any
      are listed, in an allowed one. */
  lemma TreePolicy(allow: seq<string>, deny: seq<string>, ref: string)
    requires forall i | 0 <= i < |allow| :: Literal(allow[i])
    requires forall i | 0 <= i < |deny| :: Literal(deny[i])
    ensures Allowed(PolicyConfig(Trees(allow), Trees(deny)), ref) <==>
            || FromProxy(ref)
            || (&& (forall i | 0 <= i < |deny| :: !(deny[i] <= ref))
                && (allow == [] || exists i | 0 <= i < |allow| :: allow[i] <= ref))
  {
    hide Matches;
    TreesMatch(allow, ref);
    TreesMatch(deny, ref);
  }
}
