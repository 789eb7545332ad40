/** What the rules of a configuration come to in a Dockerfile: which rule ends up in which block, and what
    the blocks say line by line (internal/image/dockerfile.go, lines 102-206; internal/image/env.go). */
module DockerfileRules {
  import opened Bytes
  import opened Text
  import opened Dockerfile
  import opened EnvMerge

  // ----- which rule goes where

  /** The rules that satisfy `p`, in their order. */
  function Chosen(rules: seq<Injection>, p: Injection -> bool): seq<Injection> {
    if rules == [] then []
    else
      var n := |rules| - 1;
      Chosen(rules[..n], p) + if p(rules[n]) then [rules[n]] else []
  }

  /** `out` is exactly the rules that satisfy `p`, at the indices `idx`, in increasing order. */
  predicate PickedAt(rules: seq<Injection>, p: Injection -> bool, out: seq<Injection>, idx: seq<nat>) {
    && |idx| == |out|
    && (forall j | 0 <= j < |idx| :: idx[j] < |rules| && out[j] == rules[idx[j]] && p(rules[idx[j]]))
    && (forall j, k | 0 <= j < k < |idx| :: idx[j] < idx[k])
    && (forall i | 0 <= i < |rules| && p(rules[i]) :: i in idx)
  }

  ghost predicate Picked(rules: seq<Injection>, p: Injection -> bool, out: seq<Injection>) {
    exists idx: seq<nat> :: PickedAt(rules, p, out, idx)
  }

  lemma {:induction false} ChosenIsPicked(rules: seq<Injection>, p: Injection -> bool)
    ensures Picked(rules, p, Chosen(rules, p))
  {
    if rules == [] {
      assert PickedAt(rules, p, [], []);
    } else {
      var n := |rules| - 1;
      var front := rules[..n];
      ChosenIsPicked(front, p);
      var idx: seq<nat> :| PickedAt(front, p, Chosen(front, p), idx);
      OneMore(rules, p, Chosen(front, p), idx);
    }
  }

  lemma OneMore(rules: seq<Injection>, p: Injection -> bool, out: seq<Injection>, idx: seq<nat>)
    requires rules != [] && PickedAt(rules[..|rules| - 1], p, out, idx)
    ensures Picked(rules, p, out + if p(rules[|rules| - 1]) then [rules[|rules| - 1]] else [])
  {
    var n := |rules| - 1;
    assert forall i | 0 <= i < n :: rules[..n][i] == rules[i];
    if p(rules[n]) {
      assert (idx + [n])[|idx|] == n;
      assert forall i | i in idx :: i in idx + [n];
      assert PickedAt(rules, p, out + [rules[n]], idx + [n]);
    } else {
      assert out + [] == out;
      assert PickedAt(rules, p, out, idx);
    }
  }

  lemma ChosenSnoc(rules: seq<Injection>, r: Injection, p: Injection -> bool)
    ensures Chosen(rules + [r], p) == Chosen(rules, p) + if p(r) then [r] else []
  {
    assert (rules + [r])[..|rules|] == rules;
  }

  function Commands(rs: seq<Injection>): seq<string> {
    seq(|rs|, i requires 0 <= i < |rs| => rs[i].command)
  }

  function Certificates(rs: seq<Injection>): seq<string> {
    if rs == [] then [] else rs[0].certificates + Certificates(rs[1..])
  }

  /** KEY=value for every variable of the rules, rule by rule, the keys of each in byte order. */
  ghost function Variables(rs: seq<Injection>): seq<string> {
    if rs == [] then [] else EnvLines(rs[0].env) + Variables(rs[1..])
  }

  lemma CommandsSnoc(rs: seq<Injection>, r: Injection)
    ensures Commands(rs + [r]) == Commands(rs) + [r.command]
  {
  }

  lemma {:induction false} CertificatesSnoc(rs: seq<Injection>, r: Injection)
    ensures Certificates(rs + [r]) == Certificates(rs) + r.certificates
  {
    if rs == [] {
      assert rs + [r] == [r] && [r][1..] == [];
      assert r.certificates + [] == r.certificates;
    } else {
      assert (rs + [r])[1..] == rs[1..] + [r];
      CertificatesSnoc(rs[1..], r);
      Assoc(rs[0].certificates, Certificates(rs[1..]), r.certificates);
    }
  }

  lemma {:induction false} VariablesSnoc(rs: seq<Injection>, r: Injection)
    ensures Variables(rs + [r]) == Variables(rs) + EnvLines(r.env)
  {
    hide EnvLines;
    if rs == [] {
      assert rs + [r] == [r] && [r][1..] == [];
      assert EnvLines(r.env) + [] == EnvLines(r.env);
    } else {
      assert (rs + [r])[1..] == rs[1..] + [r];
      VariablesSnoc(rs[1..], r);
      Assoc(EnvLines(rs[0].env), Variables(rs[1..]), EnvLines(r.env));
    }
  }

  predicate IsRunBefore(tools: Tools, r: Injection) {
    r.kind == "run" && tools.lower(r.position) == "before_entrypoint"
  }

  predicate IsRunAfter(tools: Tools, r: Injection) {
    r.kind == "run" && tools.lower(r.position) != "before_entrypoint"
  }

  predicate IsEnvBefore(tools: Tools, r: Injection) {
    r.kind == "env" && tools.lower(r.position) == "before_entrypoint"
  }

  predicate IsEnvAfter(tools: Tools, r: Injection) {
    r.kind == "env" && tools.lower(r.position) != "before_entrypoint"
  }

  predicate IsKind(kind: string, r: Injection) {
    r.kind == kind
  }

  /** The plan for any rules, read off the rules: commands by position, variables by position, `from` rules as
      they are, certificates and the variables that come with them. */
  lemma {:induction false} PlanIs(tools: Tools, rules: seq<Injection>)
    ensures var plan := PlanFor(tools, rules);
            && plan.runBefore == Commands(Chosen(rules, r => IsRunBefore(tools, r)))
            && plan.runAfterBase == Commands(Chosen(rules, r => IsRunAfter(tools, r)))
            && plan.envBefore == Variables(Chosen(rules, r => IsEnvBefore(tools, r)))
            && plan.envAfterBase == Variables(Chosen(rules, r => IsEnvAfter(tools, r)))
            && plan.froms == Chosen(rules, r => IsKind("from", r))
            && plan.caCerts == Certificates(Chosen(rules, r => IsKind("ca_certificates", r)))
            && plan.extraCAEnv == Variables(Chosen(rules, r => IsKind("ca_certificates", r)))
  {
    hide EnvLines, Commands, Certificates, Variables, Chosen;
    if rules == [] {
      NoneChosen(tools);
    } else {
      var n := |rules| - 1;
      var front, r := rules[..n], rules[n];
      PlanIs(tools, front);
      assert front + [r] == rules;
      Adds(front, r, r => IsRunBefore(tools, r));
      Adds(front, r, r => IsRunAfter(tools, r));
      Adds(front, r, r => IsEnvBefore(tools, r));
      Adds(front, r, r => IsEnvAfter(tools, r));
      Adds(front, r, r => IsKind("from", r));
      Adds(front, r, r => IsKind("ca_certificates", r));
    }
  }

  lemma NoneChosen(tools: Tools)
    ensures forall p: Injection -> bool :: Chosen([], p) == []
    ensures Commands([]) == [] && Certificates([]) == [] && Variables([]) == []
  {
  }

  lemma Adds(rules: seq<Injection>, r: Injection, p: Injection -> bool)
    ensures var a, b := Chosen(rules, p), Chosen(rules + [r], p);
            && b == (if p(r) then a + [r] else a)
            && Commands(b) == Commands(a) + (if p(r) then [r.command] else [])
            && Certificates(b) == Certificates(a) + (if p(r) then r.certificates else [])
            && Variables(b) == Variables(a) + (if p(r) then EnvLines(r.env) else [])
  {
    hide EnvLines, Commands, Certificates, Variables, Chosen;
    ChosenSnoc(rules, r, p);
    var a := Chosen(rules, p);
    assert a + [] == a;
    if p(r) {
      CommandsSnoc(a, r);
      CertificatesSnoc(a, r);
      VariablesSnoc(a, r);
    }
  }

  /** The lists of the plan are the commands, and so on, of exactly the rules they are for, in order. */
  lemma PlanPicks(tools: Tools, rules: seq<Injection>)
    ensures Picked(rules, r => IsRunBefore(tools, r), Chosen(rules, r => IsRunBefore(tools, r)))
    ensures Picked(rules, r => IsRunAfter(tools, r), Chosen(rules, r => IsRunAfter(tools, r)))
    ensures Picked(rules, r => IsEnvBefore(tools, r), Chosen(rules, r => IsEnvBefore(tools, r)))
    ensures Picked(rules, r => IsEnvAfter(tools, r), Chosen(rules, r => IsEnvAfter(tools, r)))
    ensures Picked(rules, r => IsKind("from", r), Chosen(rules, r => IsKind("from", r)))
    ensures Picked(rules, r => IsKind("ca_certificates", r), Chosen(rules, r => IsKind("ca_certificates", r)))
  {
    hide Chosen, Picked;
    ChosenIsPicked(rules, r => IsRunBefore(tools, r));
    ChosenIsPicked(rules, r => IsRunAfter(tools, r));
    ChosenIsPicked(rules, r => IsEnvBefore(tools, r));
    ChosenIsPicked(rules, r => IsEnvAfter(tools, r));
    ChosenIsPicked(rules, r => IsKind("from", r));
    ChosenIsPicked(rules, r => IsKind("ca_certificates", r));
  }

  /** A process started with the variables of a rule sees each under its name with its value. */
  lemma EnvLinesLookup(env: map<string, string>, k: string)
    requires forall x | x in env :: '=' !in x
    ensures Lookup(EnvLines(env), k) == if k in env then Some(env[k]) else None
  {
    var ks, lines := Ordered(env.Keys), EnvLines(env);
    EnumeratesOnly(ks, env.Keys);
    forall i | 0 <= i < |ks| ensures KeyOf(lines[i]) == Some(ks[i]) && ValueOf(lines[i]) == env[ks[i]] {
      EntryReads(ks[i], env[ks[i]]);
    }
    LookupIs(lines, k);
    assert forall i, j | 0 <= i < j < |ks| :: ks[i] != ks[j];
    hide EnvLines, Lookup, Enumerates, KeyOf, ValueOf;
    if k in env {
      var i :| 0 <= i < |ks| && ks[i] == k;
      assert LastIs(lines, k, i);
      LookupAt(lines, k, i);
    }
  }

  /** The texts a line goes through under `from` rules: each rule in turn, the first one first. */
  predicate Replacing(tools: Tools, froms: seq<Injection>, line: string, ls: seq<string>) {
    && |ls| == |froms| + 1 && ls[0] == line
    && forall i | 0 <= i < |froms| :: ls[i + 1] == tools.replaceAll(froms[i].pattern, froms[i].replacement, ls[i])
  }

  lemma {:induction false} ReplacedIs(tools: Tools, froms: seq<Injection>, line: string, ls: seq<string>)
    requires Replacing(tools, froms, line, ls)
    ensures Replaced(tools, froms, line) == ls[|froms|]
  {
    if froms != [] {
      var n := |froms| - 1;
      ReplacedIs(tools, froms[..n], line, ls[..n + 1]);
    }
  }

  // ----- what the blocks say

  /** Two lines for each command: the mark and the RUN line. */
  lemma {:induction false} RunsAre(cmds: seq<string>)
    ensures |Runs(cmds)| == 2 * |cmds|
    ensures forall i | 0 <= i < |cmds| ::
              Runs(cmds)[2 * i] == "# --- injected by whalevet ---" && Runs(cmds)[2 * i + 1] == "RUN " + cmds[i]
  {
    if cmds != [] { RunsAre(cmds[..|cmds| - 1]); }
  }

  lemma {:induction false} OwnLinesAre(kvs: seq<string>)
    ensures |OwnLines(kvs)| == 2 * |kvs|
    ensures forall i | 0 <= i < |kvs| ::
              && OwnLines(kvs)[2 * i] == "# --- injected by whalevet ---"
              && OwnLines(kvs)[2 * i + 1] == "ENV " + kvs[i]
  {
    if kvs != [] { OwnLinesAre(kvs[..|kvs| - 1]); }
  }

  /** A value that can share an ENV instruction: no blank, tab, line break, quote or backslash. */
  predicate IsPlain(v: string) {
    forall c | c in " \t\r\n\"'\\" :: c !in v
  }

  /** The variables `ks` with the values `vs`. */
  predicate Pairs(kvs: seq<string>, ks: seq<string>, vs: seq<string>) {
    |kvs| == |ks| == |vs| && forall i | 0 <= i < |kvs| :: '=' !in ks[i] && kvs[i] == ks[i] + "=" + vs[i]
  }

  lemma OwnLineIff(k: string, v: string)
    requires '=' !in k
    ensures NeedsOwnLine(AfterCut(k + "=" + v)) <==> !IsPlain(v)
  {
    EntryReads(k, v);
    hide KeyOf, ValueOf;
    assert AfterCut(k + "=" + v) == v;
    if i :| 0 <= i < |v| && v[i] in {' ', '\t', '\r', '\n', '"', '\'', '\\'} {
      assert v[i] in v && v[i] in " \t\r\n\"'\\";
    }
    if c :| c in " \t\r\n\"'\\" && c in v {
      var i :| 0 <= i < |v| && v[i] == c;
      assert v[i] in {' ', '\t', '\r', '\n', '"', '\'', '\\'};
    }
  }

  /** A block of variables: one folded instruction if all values are plain, else one for each variable. */
  lemma EnvBlockIs(kvs: seq<string>, ks: seq<string>, vs: seq<string>)
    requires Pairs(kvs, ks, vs)
    ensures EnvBlock(kvs) ==
            if kvs == [] then []
            else if forall i | 0 <= i < |vs| :: IsPlain(vs[i])
            then ["# --- injected by whalevet ---", "ENV " + Join(kvs, " ")]
            else OwnLines(kvs)
  {
    hide NeedsOwnLine, AfterCut, IsPlain, OwnLines, Join;
    forall i | 0 <= i < |kvs| ensures NeedsOwnLine(AfterCut(kvs[i])) <==> !IsPlain(vs[i]) {
      OwnLineIff(ks[i], vs[i]);
    }
  }

  /** Only the value of a variable is rendered. */
  lemma RenderedIs(tools: Tools, k: string, v: string, ctx: EnvContext)
    requires '=' !in k
    ensures Rendered(tools, k + "=" + v, ctx) == k + "=" + tools.render(v, ctx)
    ensures Rendered(tools, k, ctx) == k
  {
    FirstIndex(k, '=', v);
    hide IndexOf;
    var kv := k + "=" + v;
    assert kv[..|k| + 1] == k + "=" && kv[|k| + 1..] == v;
  }

  /** Every variable of a block is rendered, each in its place. */
  lemma AllRendered(tools: Tools, kvs: seq<string>, ks: seq<string>, vs: seq<string>, ctx: EnvContext)
    requires Pairs(kvs, ks, vs)
    ensures |RenderedAll(tools, kvs, ctx)| == |kvs|
    ensures forall i | 0 <= i < |kvs| :: RenderedAll(tools, kvs, ctx)[i] == ks[i] + "=" + tools.render(vs[i], ctx)
  {
    forall i | 0 <= i < |kvs| ensures RenderedAll(tools, kvs, ctx)[i] == ks[i] + "=" + tools.render(vs[i], ctx) {
      RenderedIs(tools, ks[i], vs[i], ctx);
    }
  }

  /** The blocks in terms of the rules: RUN lines, then the variables; certificate lines, then their variables,
      rendered only behind a FROM; nothing where no rule asks for anything. */
  lemma BlocksAre(tools: Tools, rules: seq<Injection>, ctx: EnvContext)
    ensures var plan := PlanFor(tools, rules);
            var certs := Chosen(rules, r => IsKind("ca_certificates", r));
            var cmds := Commands(Chosen(rules, r => IsRunBefore(tools, r)));
            var vars := Variables(Chosen(rules, r => IsEnvBefore(tools, r)));
            && BaseLines(tools, plan) ==
               Runs(Commands(Chosen(rules, r => IsRunAfter(tools, r))))
               + EnvBlock(RenderedAll(tools, Variables(Chosen(rules, r => IsEnvAfter(tools, r))), Canonical()))
            && CertBlock(tools, plan, true) ==
               (if Certificates(certs) == [] then []
                else tools.certLines(Certificates(certs)) + EnvBlock(RenderedAll(tools, Variables(certs), Canonical())))
            && CertBlock(tools, plan, false) ==
               (if Certificates(certs) == [] then []
                else tools.certLines(Certificates(certs)) + EnvBlock(Variables(certs)))
            && BeforeLines(tools, plan, ctx) ==
               if cmds == [] && vars == [] then [] else Runs(cmds) + EnvBlock(RenderedAll(tools, vars, ctx))
    ensures ContextFor(true) == Canonical() && ContextFor(false) == EnvContext("", "", "")
  {
    PlanIs(tools, rules);
    hide PlanFor, Commands, Certificates, Variables, Chosen, EnvBlock, Runs, RenderedAll;
  }

  /** Where the certificates are in an image built on a known base. */
  function Canonical(): EnvContext {
    EnvContext("/etc/ssl/certs/ca-certificates.crt", "/etc/ssl/certs", "/etc/ssl/certs")
  }

  // ----- which line is which

  /** The first word of a line, up to the first of the separators. */
  function FirstWord(s: string, seps: string): string {
    if s == "" || s[0] in seps then "" else [s[0]] + FirstWord(s[1..], seps)
  }

  lemma {:induction false} WordIs(s: string, w: string, seps: string)
    requires forall c | c in w :: c !in seps
    ensures FirstWord(s, seps) == w <==> s == w || exists c | c in seps :: w + [c] <= s
    decreases |w|
  {
    if w != "" && s != "" && s[0] == w[0] {
      assert forall c | c in w[1..] :: c in w;
      WordIs(s[1..], w[1..], seps);
      assert s == [s[0]] + s[1..] && w == [w[0]] + w[1..];
      forall c ensures w + [c] <= s <==> w[1..] + [c] <= s[1..] {
        assert (w + [c])[1..] == w[1..] + [c];
      }
      assert w[0] !in seps;
      assert FirstWord(s, seps) == [s[0]] + FirstWord(s[1..], seps);
      assert s == w <==> s[1..] == w[1..];
      if FirstWord(s, seps) == w { assert FirstWord(s, seps)[1..] == w[1..]; }
    }
  }

  /** A line is a FROM, CMD or ENTRYPOINT exactly by its first word, in any case; only FROM may be followed by
      a tab; and no line is two of them. */
  lemma ClassifyIs(tools: Tools, line: string)
    requires var t := tools.trimSpace(line); t == "" || t[0] != ' '
    ensures var l, up := Classify(tools, line), tools.upper(tools.trimSpace(line));
            && l.raw == line
            && (l.isFROM <==> FirstWord(up, " \t") == "FROM")
            && (l.isCMD <==> FirstWord(up, " ") == "CMD")
            && (l.isENTRY <==> FirstWord(up, " ") == "ENTRYPOINT")
            && !(l.isFROM && l.isCMD) && !(l.isFROM && l.isENTRY) && !(l.isCMD && l.isENTRY)
  {
    var t := tools.trimSpace(line);
    var up := tools.upper(t);
    hide FirstWord, HasPrefix;
    assert TrimLeft(t) == t;
    WordBegins(up, "FROM", " \t");
    WordBegins(up, "CMD", " ");
    WordBegins(up, "ENTRYPOINT", " ");
    PrefixWord(up, "FROM", " \t");
    PrefixWord(up, "CMD", " ");
    PrefixWord(up, "ENTRYPOINT", " ");
    assert "FROM" + [' '] == "FROM " && "FROM" + ['\t'] == "FROM\t";
    assert "CMD" + [' '] == "CMD " && "ENTRYPOINT" + [' '] == "ENTRYPOINT ";
    assert " \t"[0] == ' ' && " \t"[1] == '\t' && " "[0] == ' ';
  }

  /** A line with this first word begins with its letter. */
  lemma WordBegins(s: string, w: string, seps: string)
    requires w != ""
    ensures FirstWord(s, seps) == w ==> s != "" && s[0] == w[0]
  {
  }

  lemma PrefixWord(s: string, w: string, seps: string)
    requires (forall c | c in w :: c !in seps) && |seps| in {1, 2}
    ensures FirstWord(s, seps) == w <==>
            s == w || HasPrefix(s, w + [seps[0]]) || (|seps| == 2 && HasPrefix(s, w + [seps[1]]))
  {
    hide FirstWord;
    WordIs(s, w, seps);
    assert forall c | c in seps :: c == seps[0] || (|seps| == 2 && c == seps[1]);
  }
}
