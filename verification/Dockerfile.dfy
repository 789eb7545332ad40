/** Dockerfile injection: `parseDockerfile`, `sortedEnvLines`, `envBlockLines`, `renderEnvKVs` and
    `modify` (internal/image/dockerfile.go, internal/image/env.go). */
module Dockerfile {
  import opened Bytes
  import opened Text

  /** `EnvContext`. */
  datatype EnvContext = EnvContext(bundlePath: string, trustDir: string, certDir: string)

  const NO_CONTEXT := EnvContext("", "", "")

  const CONTEXT := EnvContext("/etc/ssl/certs/ca-certificates.crt", "/etc/ssl/certs", "/etc/ssl/certs")

  /** Library functions and the certificate step, given from outside: case mapping, trimming, regular
      expressions, templates, and the lines that install certificates. */
  datatype Tools = Tools(
    upper: string -> string, lower: string -> string, trimSpace: string -> string,
    replaceAll: (string, string, string) -> string, render: (string, EnvContext) -> string,
    certLines: seq<string> -> seq<string>)

  /** `config.Injection`. */
  datatype Injection = Injection(kind: string, certificates: seq<string>, command: string, position: string,
                                 pattern: string, replacement: string, env: map<string, string>)

  datatype ParsedLine = ParsedLine(raw: string, isFROM: bool, isCMD: bool, isENTRY: bool)

  predicate HasPrefix(s: string, t: string) {
    t <= s
  }

  function TrimLeft(s: string): string {
    if s != "" && s[0] == ' ' then TrimLeft(s[1..]) else s
  }

  /** How one line of a Dockerfile is classified. */
  function Classify(tools: Tools, line: string): ParsedLine {
    var trimmed := tools.trimSpace(line);
    var up := tools.upper(trimmed);
    ParsedLine(line,
               tools.upper(TrimLeft(trimmed)) == "FROM" || HasPrefix(up, "FROM ") || HasPrefix(up, "FROM\t"),
               up == "CMD" || HasPrefix(up, "CMD "),
               up == "ENTRYPOINT" || HasPrefix(up, "ENTRYPOINT "))
  }

  /** `parseDockerfile`. */
  method ParseDockerfile(tools: Tools, content: string) returns (lines: seq<ParsedLine>)
    ensures |lines| == |Split(content, '\n')|
    ensures forall i | 0 <= i < |lines| :: lines[i] == Classify(tools, Split(content, '\n')[i])
  {
    lines := [];
    var split := Split(content, '\n');
    for i := 0 to |split|
      invariant |lines| == i && forall j | 0 <= j < i :: lines[j] == Classify(tools, split[j])
    {
      var trimmed := tools.trimSpace(split[i]);
      var pl := ParsedLine(split[i], false, false, false);
      if tools.upper(TrimLeft(trimmed)) == "FROM" 
         || HasPrefix(tools.upper(trimmed), "FROM ") || HasPrefix(tools.upper(trimmed), "FROM\t") {
        pl := pl.(isFROM := true);
      }
      if tools.upper(trimmed) == "CMD" || HasPrefix(tools.upper(trimmed), "CMD ") {
        pl := pl.(isCMD := true);
      }
      if tools.upper(trimmed) == "ENTRYPOINT" || HasPrefix(tools.upper(trimmed), "ENTRYPOINT ") {
        pl := pl.(isENTRY := true);
      }
      lines := lines + [pl];
    }
  }

  // ----- environment lines

  /** "KEY=value" for each key, keys in order. */
  ghost function EnvLines(env: map<string, string>): (lines: seq<string>)
    ensures |lines| == |Ordered(env.Keys)|
  {
    EnumeratesOnly(Ordered(env.Keys), env.Keys);
    seq(|Ordered(env.Keys)|, i requires 0 <= i < |Ordered(env.Keys)| =>
      Entry(Ordered(env.Keys)[i], env[Ordered(env.Keys)[i]]))
  }

  /** `sortedEnvLines`: the same lines for the same map, whatever order the map yields its keys in. */
  method SortedEnvLines(env: map<string, string>) returns (lines: seq<string>)
    ensures lines == EnvLines(env)
  {
    var keys := SortedKeys(env);
    EnumeratesOnly(keys, env.Keys);
    hide *;
    lines := [];
    for i := 0 to |keys|
      invariant |lines| == i && forall j | 0 <= j < i :: lines[j] == Entry(keys[j], env[keys[j]])
    {
      lines := lines + [Entry(keys[i], env[keys[i]])];
    }
    EnvLinesAre(env, keys, lines);
  }

  lemma EnvLinesAre(env: map<string, string>, keys: seq<string>, lines: seq<string>)
    requires keys == Ordered(env.Keys) && |lines| == |keys|
    requires forall j | 0 <= j < |keys| :: keys[j] in env && lines[j] == Entry(keys[j], env[keys[j]])
    ensures lines == EnvLines(env)
  {
    hide Enumerates, Entry;
  }

  const MARK := "# --- injected by whalevet ---"

  /** A value that has to keep an instruction of its own. */
  predicate NeedsOwnLine(v: string) {
    exists i | 0 <= i < |v| :: v[i] in {' ', '\t', '\r', '\n', '"', '\'', '\\'}
  }

  function AfterCut(kv: string): string {
    if KeyOf(kv).Some? then ValueOf(kv) else ""
  }

  predicate Folds(kvs: seq<string>) {
    forall i | 0 <= i < |kvs| :: !NeedsOwnLine(AfterCut(kvs[i]))
  }

  function OwnLines(kvs: seq<string>): seq<string> {
    if kvs == [] then [] else OwnLines(kvs[..|kvs| - 1]) + [MARK, "ENV " + kvs[|kvs| - 1]]
  }

  function EnvBlock(kvs: seq<string>): seq<string> {
    if kvs == [] then [] else if Folds(kvs) then [MARK, "ENV " + Join(kvs, " ")] else OwnLines(kvs)
  }

  /** `envBlockLines`. */
  method EnvBlockLines(kvs: seq<string>) returns (lines: seq<string>)
    ensures lines == EnvBlock(kvs)
  {
    if |kvs| == 0 {
      return [];
    }
    var fold := true;
    for i := 0 to |kvs|
      invariant fold <==> forall j | 0 <= j < i :: !NeedsOwnLine(AfterCut(kvs[j]))
    {
      if NeedsOwnLine(AfterCut(kvs[i])) {
        fold := false;
        break;
      }
    }
    if fold {
      return [MARK, "ENV " + Join(kvs, " ")];
    }
    lines := [];
    for i := 0 to |kvs|
      invariant lines == OwnLines(kvs[..i])
    {
      assert kvs[..i + 1][..i] == kvs[..i];
      lines := lines + [MARK, "ENV " + kvs[i]];
    }
    assert kvs[..|kvs|] == kvs;
  }

  /** One entry with the value part rendered. */
  function Rendered(tools: Tools, kv: string, ctx: EnvContext): string {
    match IndexOf(kv, '=')
    case None => kv
    case Some(i) => kv[..i + 1] + tools.render(kv[i + 1..], ctx)
  }

  function RenderedAll(tools: Tools, kvs: seq<string>, ctx: EnvContext): seq<string> {
    seq(|kvs|, i requires 0 <= i < |kvs| => Rendered(tools, kvs[i], ctx))
  }

  /** `renderEnvKVs`. */
  method RenderEnvKVs(tools: Tools, kvs: seq<string>, ctx: EnvContext) returns (out: seq<string>)
    ensures out == RenderedAll(tools, kvs, ctx)
  {
    hide IndexOf;
    out := [];
    for i := 0 to |kvs|
      invariant out == RenderedAll(tools, kvs, ctx)[..i]
    {
      var at := IndexOf(kvs[i], '=');
      var line := kvs[i];
      if at.Some? {
        line := kvs[i][..at.value + 1] + tools.render(kvs[i][at.value + 1..], ctx);
      }
      assert line == RenderedAll(tools, kvs, ctx)[i];
      hide Rendered;
      out := out + [line];
    }
  }

  // ----- the rules

  /** What the rules ask for, sorted by where it goes. */
  datatype Plan = Plan(froms: seq<Injection>, caCerts: seq<string>, extraCAEnv: seq<string>,
                       runAfterBase: seq<string>, runBefore: seq<string>,
                       envAfterBase: seq<string>, envBefore: seq<string>)

  const NOTHING := Plan([], [], [], [], [], [], [])

  predicate IsBefore(tools: Tools, position: string) {
    tools.lower(position) == "before_entrypoint"
  }

  ghost function WithRule(tools: Tools, plan: Plan, rule: Injection): Plan {
    if rule.kind == "from" then plan.(froms := plan.froms + [rule])
    else if rule.kind == "ca_certificates" then
      plan.(caCerts := plan.caCerts + rule.certificates, extraCAEnv := plan.extraCAEnv + EnvLines(rule.env))
    else if rule.kind == "run" then
      if IsBefore(tools, rule.position) then plan.(runBefore := plan.runBefore + [rule.command])
      else plan.(runAfterBase := plan.runAfterBase + [rule.command])
    else if rule.kind == "env" then
      if IsBefore(tools, rule.position) then plan.(envBefore := plan.envBefore + EnvLines(rule.env))
      else plan.(envAfterBase := plan.envAfterBase + EnvLines(rule.env))
    else plan
  }

  /** The plan for all rules, in their order. */
  ghost function PlanFor(tools: Tools, rules: seq<Injection>): Plan {
    if rules == [] then NOTHING
    else
      var n := |rules| - 1;
      WithRule(tools, PlanFor(tools, rules[..n]), rules[n])
  }

  /** The rule loop of `modify`. */
  method CollectRules(tools: Tools, rules: seq<Injection>) returns (plan: Plan)
    ensures plan == PlanFor(tools, rules)
  {
    hide EnvLines;
    plan := NOTHING;
    for i := 0 to |rules|
      invariant plan == PlanFor(tools, rules[..i])
    {
      var rule := rules[i];
      assert rules[..i + 1][..i] == rules[..i];
      if rule.kind == "from" {
        plan := plan.(froms := plan.froms + [rule]);
      } else if rule.kind == "ca_certificates" {
        plan := plan.(caCerts := plan.caCerts + rule.certificates);
        var lines := SortedEnvLines(rule.env);
        plan := plan.(extraCAEnv := plan.extraCAEnv + lines);
      } else if rule.kind == "run" {
        if IsBefore(tools, rule.position) {
          plan := plan.(runBefore := plan.runBefore + [rule.command]);
        } else {
          plan := plan.(runAfterBase := plan.runAfterBase + [rule.command]);
        }
      } else if rule.kind == "env" {
        var lines := SortedEnvLines(rule.env);
        if IsBefore(tools, rule.position) {
          plan := plan.(envBefore := plan.envBefore + lines);
        } else {
          plan := plan.(envAfterBase := plan.envAfterBase + lines);
        }
      }
    }
    assert rules[..|rules|] == rules;
  }

  // ----- what is injected, and where

  function Runs(cmds: seq<string>): seq<string> {
    if cmds == [] then [] else Runs(cmds[..|cmds| - 1]) + [MARK, "RUN " + cmds[|cmds| - 1]]
  }

  method RunLines(cmds: seq<string>) returns (lines: seq<string>)
    ensures lines == Runs(cmds)
  {
    lines := [];
    for i := 0 to |cmds|
      invariant lines == Runs(cmds[..i])
    {
      assert cmds[..i + 1][..i] == cmds[..i];
      lines := lines + [MARK];
      lines := lines + ["RUN " + cmds[i]];
    }
    assert cmds[..|cmds|] == cmds;
  }

  /** A FROM line after all `from` rules, in order. */
  function Replaced(tools: Tools, froms: seq<Injection>, line: string): string {
    if froms == [] then line
    else
      var n := |froms| - 1;
      tools.replaceAll(froms[n].pattern, froms[n].replacement, Replaced(tools, froms[..n], line))
  }

  method ReplaceLine(tools: Tools, froms: seq<Injection>, line: string) returns (r: string)
    ensures r == Replaced(tools, froms, line)
  {
    r := line;
    for i := 0 to |froms|
      invariant r == Replaced(tools, froms[..i], line)
    {
      assert froms[..i + 1][..i] == froms[..i];
      r := tools.replaceAll(froms[i].pattern, froms[i].replacement, r);
    }
    assert froms[..|froms|] == froms;
  }

  /** The blocks `modify` injects. */
  datatype Block = AfterBase | Certs | Before

  /** An output line is a line of the input or belongs to an injected block. */
  datatype Tagged = Kept(line: string) | Injected(block: Block, line: string)

  function BaseLines(tools: Tools, plan: Plan): seq<string> {
    Runs(plan.runAfterBase) + EnvBlock(RenderedAll(tools, plan.envAfterBase, CONTEXT))
  }

  /** After a FROM the certificate variables are rendered; without one they go out as they are. */
  function CertBlock(tools: Tools, plan: Plan, hasFrom: bool): seq<string> {
    if plan.caCerts == [] then []
    else tools.certLines(plan.caCerts)
         + EnvBlock(if hasFrom then RenderedAll(tools, plan.extraCAEnv, CONTEXT) else plan.extraCAEnv)
  }

  predicate WantsBefore(plan: Plan) {
    plan.runBefore != [] || plan.envBefore != []
  }

  function BeforeLines(tools: Tools, plan: Plan, ctx: EnvContext): seq<string> {
    if WantsBefore(plan) then Runs(plan.runBefore) + EnvBlock(RenderedAll(tools, plan.envBefore, ctx)) else []
  }

  function Tag(block: Block, lines: seq<string>): seq<Tagged> {
    seq(|lines|, i requires 0 <= i < |lines| => Injected(block, lines[i]))
  }

  predicate IsLast(l: ParsedLine) {
    l.isENTRY || l.isCMD
  }

  predicate AnyFrom(lines: seq<ParsedLine>) {
    exists i | 0 <= i < |lines| :: lines[i].isFROM
  }

  predicate AnyLast(lines: seq<ParsedLine>) {
    exists i | 0 <= i < |lines| :: IsLast(lines[i])
  }

  function ContextFor(hasFrom: bool): EnvContext {
    if hasFrom then CONTEXT else NO_CONTEXT
  }

  /** All output for line `i`: the line itself; behind the first FROM the base block and the
      certificates; behind the first CMD or ENTRYPOINT the last block. */
  function OutputAt(tools: Tools, plan: Plan, lines: seq<ParsedLine>, i: nat): seq<Tagged>
    requires i < |lines|
  {
    var l := lines[i];
    [Kept(if l.isFROM then Replaced(tools, plan.froms, l.raw) else l.raw)]
    + (if l.isFROM && !AnyFrom(lines[..i])
       then Tag(AfterBase, BaseLines(tools, plan)) + Tag(Certs, CertBlock(tools, plan, true)) else [])
    + (if IsLast(l) && !AnyLast(lines[..i])
       then Tag(Before, BeforeLines(tools, plan, ContextFor(AnyFrom(lines[..i + 1])))) else [])
  }

  /** What is still missing after the last line. */
  function OutputAtEnd(tools: Tools, plan: Plan, lines: seq<ParsedLine>): seq<Tagged> {
    (if AnyLast(lines) then [] else Tag(Before, BeforeLines(tools, plan, ContextFor(AnyFrom(lines)))))
    + (if AnyFrom(lines) then [] else Tag(Certs, CertBlock(tools, plan, false)))
  }

  function OutputUpTo(tools: Tools, plan: Plan, lines: seq<ParsedLine>, n: nat): seq<Tagged>
    requires n <= |lines|
  {
    if n == 0 then [] else OutputUpTo(tools, plan, lines, n - 1) + OutputAt(tools, plan, lines, n - 1)
  }

  /** The modified Dockerfile, each line with its origin. */
  function Output(tools: Tools, plan: Plan, lines: seq<ParsedLine>): seq<Tagged> {
    OutputUpTo(tools, plan, lines, |lines|) + OutputAtEnd(tools, plan, lines)
  }

  function Untagged(ts: seq<Tagged>): seq<string> {
    seq(|ts|, i requires 0 <= i < |ts| => ts[i].line)
  }

  function Parsed(tools: Tools, content: string): seq<ParsedLine> {
    seq(|Split(content, '\n')|, i requires 0 <= i < |Split(content, '\n')| => Classify(tools, Split(content, '\n')[i]))
  }

  lemma UntaggedConcat(a: seq<Tagged>, b: seq<Tagged>)
    ensures Untagged(a + b) == Untagged(a) + Untagged(b)
  {
  }

  lemma UntaggedTag(block: Block, lines: seq<string>)
    ensures Untagged(Tag(block, lines)) == lines
  {
  }

  lemma AnyStep(lines: seq<ParsedLine>, i: nat)
    requires i < |lines|
    ensures AnyFrom(lines[..i + 1]) <==> AnyFrom(lines[..i]) || lines[i].isFROM
    ensures AnyLast(lines[..i + 1]) <==> AnyLast(lines[..i]) || IsLast(lines[i])
  {
    var a, b := lines[..i], lines[..i + 1];
    assert forall j | 0 <= j < i :: a[j] == b[j] == lines[j];
    assert b[i] == lines[i];
  }

  /** The strings that `OutputAt` adds. */
  lemma OutputAtLines(tools: Tools, plan: Plan, lines: seq<ParsedLine>, i: nat)
    requires i < |lines|
    ensures var l := lines[i];
            Untagged(OutputAt(tools, plan, lines, i)) ==
            [if l.isFROM then Replaced(tools, plan.froms, l.raw) else l.raw]
            + (if l.isFROM && !AnyFrom(lines[..i]) then BaseLines(tools, plan) + CertBlock(tools, plan, true) else [])
            + (if IsLast(l) && !AnyLast(lines[..i])
               then BeforeLines(tools, plan, ContextFor(AnyFrom(lines[..i + 1]))) else [])
  {
    hide BaseLines, CertBlock, BeforeLines, Replaced, AnyFrom, AnyLast, ContextFor, Untagged, Tag;
    var l := lines[i];
    var first := Kept(if l.isFROM then Replaced(tools, plan.froms, l.raw) else l.raw);
    var base := if l.isFROM && !AnyFrom(lines[..i])
      then Tag(AfterBase, BaseLines(tools, plan)) + Tag(Certs, CertBlock(tools, plan, true)) else [];
    var last := if IsLast(l) && !AnyLast(lines[..i])
      then Tag(Before, BeforeLines(tools, plan, ContextFor(AnyFrom(lines[..i + 1])))) else [];
    UntaggedConcat([first] + base, last);
    UntaggedConcat([first], base);
    UntaggedConcat(Tag(AfterBase, BaseLines(tools, plan)), Tag(Certs, CertBlock(tools, plan, true)));
    UntaggedTag(AfterBase, BaseLines(tools, plan));
    UntaggedTag(Certs, CertBlock(tools, plan, true));
    UntaggedTag(Before, BeforeLines(tools, plan, ContextFor(AnyFrom(lines[..i + 1]))));
    UntaggedOne(first);
  }

  lemma UntaggedOne(t: Tagged)
    ensures Untagged([t]) == [t.line] && Untagged([]) == []
  {
  }

  lemma OutputAtEndLines(tools: Tools, plan: Plan, lines: seq<ParsedLine>)
    ensures Untagged(OutputAtEnd(tools, plan, lines)) ==
            (if AnyLast(lines) then [] else BeforeLines(tools, plan, ContextFor(AnyFrom(lines))))
            + (if AnyFrom(lines) then [] else CertBlock(tools, plan, false))
  {
    hide BeforeLines, CertBlock, AnyFrom, AnyLast, ContextFor, Untagged, Tag;
    var before := Tag(Before, BeforeLines(tools, plan, ContextFor(AnyFrom(lines))));
    var certs := Tag(Certs, CertBlock(tools, plan, false));
    UntaggedConcat(if AnyLast(lines) then [] else before, if AnyFrom(lines) then [] else certs);
    UntaggedTag(Before, BeforeLines(tools, plan, ContextFor(AnyFrom(lines))));
    UntaggedTag(Certs, CertBlock(tools, plan, false));
    UntaggedOne(Kept(""));
  }

  /** What is injected behind the first FROM. */
  method BaseInjection(tools: Tools, plan: Plan, ctx: EnvContext) returns (lines: seq<string>)
    requires ctx == CONTEXT
    ensures lines == BaseLines(tools, plan) + CertBlock(tools, plan, true)
  {
    hide EnvBlock, Runs, RenderedAll;
    lines := RunLines(plan.runAfterBase);
    var kvs := RenderEnvKVs(tools, plan.envAfterBase, ctx);
    var block := EnvBlockLines(kvs);
    lines := lines + block;
    if |plan.caCerts| > 0 {
      var extra := RenderEnvKVs(tools, plan.extraCAEnv, ctx);
      var extraBlock := EnvBlockLines(extra);
      assert lines + tools.certLines(plan.caCerts) + extraBlock == lines + (tools.certLines(plan.caCerts) + extraBlock);
      lines := lines + tools.certLines(plan.caCerts);
      lines := lines + extraBlock;
    }
  }

  /** The block for the end of the image, if there is one to inject. */
  method BeforeInjection(tools: Tools, plan: Plan, runBefore: seq<string>, envBefore: seq<string>, ctx: EnvContext)
    returns (lines: seq<string>)
    requires runBefore == plan.runBefore && envBefore == plan.envBefore
    ensures lines == BeforeLines(tools, plan, ctx)
  {
    hide EnvBlock, Runs, RenderedAll;
    if |runBefore| == 0 && |envBefore| == 0 {
      return [];
    }
    lines := RunLines(runBefore);
    var kvs := RenderEnvKVs(tools, envBefore, ctx);
    var block := EnvBlockLines(kvs);
    lines := lines + block;
  }

  /** The state of the line loop of `modify` before line `i`. */
  ghost predicate LoopState(plan: Plan, parsed: seq<ParsedLine>, i: nat, injectedAfterBase: bool, injectedCerts: bool,
                            envCtx: EnvContext, runBefore: seq<string>, envBefore: seq<string>)
  {
    && i <= |parsed|
    && injectedAfterBase == AnyFrom(parsed[..i]) && envCtx == ContextFor(injectedAfterBase)
    && injectedCerts == (injectedAfterBase && plan.caCerts != [])
    && runBefore == (if AnyLast(parsed[..i]) then [] else plan.runBefore)
    && envBefore == (if AnyLast(parsed[..i]) then [] else plan.envBefore)
  }

  lemma LoopStart(plan: Plan, parsed: seq<ParsedLine>)
    ensures LoopState(plan, parsed, 0, false, false, NO_CONTEXT, plan.runBefore, plan.envBefore)
  {
    NoneYet(parsed);
  }

  /** The body of the line loop: the lines for one line of the input, and the flags after it. */
  method InjectAt(tools: Tools, plan: Plan, parsed: seq<ParsedLine>, i: nat,
                  injectedAfterBase0: bool, injectedCerts0: bool,
                  envCtx0: EnvContext, runBefore0: seq<string>, envBefore0: seq<string>)
    returns (added: seq<string>, injectedAfterBase: bool, injectedCerts: bool, envCtx: EnvContext,
             runBefore: seq<string>, envBefore: seq<string>)
    requires i < |parsed|
    requires LoopState(plan, parsed, i, injectedAfterBase0, injectedCerts0, envCtx0, runBefore0, envBefore0)
    ensures LoopState(plan, parsed, i + 1, injectedAfterBase, injectedCerts, envCtx, runBefore, envBefore)
    ensures added == Untagged(OutputAt(tools, plan, parsed, i))
  {
    hide BaseLines, CertBlock, BeforeLines, Replaced, AnyFrom, AnyLast, Untagged, OutputAt;
    injectedAfterBase, injectedCerts, envCtx := injectedAfterBase0, injectedCerts0, envCtx0;
    runBefore, envBefore := runBefore0, envBefore0;
    AnyStep(parsed, i);
    OutputAtLines(tools, plan, parsed, i);
    var pl := parsed[i];
    var line := pl.raw;
    if pl.isFROM {
      line := ReplaceLine(tools, plan.froms, line);
    }
    added := [line];
    if pl.isFROM && !injectedAfterBase {
      injectedAfterBase := true;
      envCtx := CONTEXT;
      injectedCerts := |plan.caCerts| > 0;
      var block := BaseInjection(tools, plan, envCtx);
      added := added + block;
    }
    NothingBefore(tools, plan, envCtx);
    if (pl.isENTRY || pl.isCMD) && (|runBefore| > 0 || |envBefore| > 0) {
      var block := BeforeInjection(tools, plan, runBefore, envBefore, envCtx);
      added := added + block;
      runBefore, envBefore := [], [];
    }
  }

  /** The line loop of `modify` and what follows it. */
  method InjectLines(tools: Tools, plan: Plan, parsed: seq<ParsedLine>) returns (result: seq<string>)
    ensures result == Untagged(Output(tools, plan, parsed))
  {
    hide BaseLines, CertBlock, BeforeLines, AnyFrom, AnyLast, Untagged, OutputAt, OutputAtEnd, LoopState;
    result := [];
    var injectedAfterBase, injectedCerts, envCtx := false, false, NO_CONTEXT;
    var runBefore, envBefore := plan.runBefore, plan.envBefore;
    LoopStart(plan, parsed);
    UntaggedOne(Kept(""));
    for i := 0 to |parsed|
      invariant result == Untagged(OutputUpTo(tools, plan, parsed, i))
      invariant LoopState(plan, parsed, i, injectedAfterBase, injectedCerts, envCtx, runBefore, envBefore)
    {
      UntaggedConcat(OutputUpTo(tools, plan, parsed, i), OutputAt(tools, plan, parsed, i));
      var added;
      added, injectedAfterBase, injectedCerts, envCtx, runBefore, envBefore :=
        InjectAt(tools, plan, parsed, i, injectedAfterBase, injectedCerts, envCtx, runBefore, envBefore);
      result := result + added;
    }
    UntaggedConcat(OutputUpTo(tools, plan, parsed, |parsed|), OutputAtEnd(tools, plan, parsed));
    LoopEnd(plan, parsed, injectedAfterBase, injectedCerts, envCtx, runBefore, envBefore);
    var rest := RestLines(tools, plan, parsed, injectedCerts, runBefore, envBefore, envCtx);
    result := result + rest;
  }

  lemma LoopEnd(plan: Plan, parsed: seq<ParsedLine>, injectedAfterBase: bool, injectedCerts: bool,
                envCtx: EnvContext, runBefore: seq<string>, envBefore: seq<string>)
    requires LoopState(plan, parsed, |parsed|, injectedAfterBase, injectedCerts, envCtx, runBefore, envBefore)
    ensures envCtx == ContextFor(AnyFrom(parsed)) && injectedCerts == (AnyFrom(parsed) && plan.caCerts != [])
    ensures runBefore == (if AnyLast(parsed) then [] else plan.runBefore)
            && envBefore == (if AnyLast(parsed) then [] else plan.envBefore)
  {
    assert parsed[..|parsed|] == parsed;
  }

  /** What `modify` appends after the last line. */
  method RestLines(tools: Tools, plan: Plan, ghost parsed: seq<ParsedLine>, injectedCerts: bool,
                   runBefore: seq<string>, envBefore: seq<string>, envCtx: EnvContext) returns (rest: seq<string>)
    requires envCtx == ContextFor(AnyFrom(parsed)) && injectedCerts == (AnyFrom(parsed) && plan.caCerts != [])
    requires runBefore == if AnyLast(parsed) then [] else plan.runBefore
    requires envBefore == if AnyLast(parsed) then [] else plan.envBefore
    ensures rest == Untagged(OutputAtEnd(tools, plan, parsed))
  {
    OutputAtEndLines(tools, plan, parsed);
    NothingBefore(tools, plan, envCtx);
    NoCerts(tools, plan);
    hide *;
    rest := [];
    if |runBefore| > 0 || |envBefore| > 0 {
      rest := BeforeInjection(tools, plan, runBefore, envBefore, envCtx);
    }
    if !injectedCerts && |plan.caCerts| > 0 {
      var extra := EnvBlockLines(plan.extraCAEnv);
      CertsAtEnd(tools, plan);
      Assoc(rest, tools.certLines(plan.caCerts), extra);
      rest := rest + tools.certLines(plan.caCerts);
      rest := rest + extra;
    }
  }

  lemma NoneYet(parsed: seq<ParsedLine>)
    ensures !AnyFrom(parsed[..0]) && !AnyLast(parsed[..0])
  {
  }

  lemma NothingBefore(tools: Tools, plan: Plan, ctx: EnvContext)
    ensures plan.runBefore == [] && plan.envBefore == [] ==> BeforeLines(tools, plan, ctx) == []
  {
  }

  lemma CertsAtEnd(tools: Tools, plan: Plan)
    requires plan.caCerts != []
    ensures CertBlock(tools, plan, false) == tools.certLines(plan.caCerts) + EnvBlock(plan.extraCAEnv)
  {
  }

  lemma NoCerts(tools: Tools, plan: Plan)
    ensures plan.caCerts == [] ==> CertBlock(tools, plan, false) == []
  {
  }

  /** `modify`. */
  method Modify(tools: Tools, content: string, rules: seq<Injection>) returns (out: string)
    ensures out == Join(Untagged(Output(tools, PlanFor(tools, rules), Parsed(tools, content))), "\n")
  {
    hide Output, PlanFor, Classify;
    var parsed := ParseDockerfile(tools, content);
    assert parsed == Parsed(tools, content);
    var plan := CollectRules(tools, rules);
    var result := InjectLines(tools, plan, parsed);
    out := Join(result, "\n");
  }
}
