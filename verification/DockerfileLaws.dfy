/** Dockerfile injection is conservative: the input lines stay, in order, and every block goes in
    exactly once, at its place. */
module DockerfileLaws {
  import opened Bytes
  import opened Text
  import opened Dockerfile

  function KeptPart(t: Tagged): seq<string> {
    if t.Kept? then [t.line] else []
  }

  function BlockPart(t: Tagged, block: Block): seq<string> {
    if t.Injected? && t.block == block then [t.line] else []
  }

  /** The lines that came from the input. */
  function KeptOf(ts: seq<Tagged>): seq<string> {
    if ts == [] then [] else KeptPart(ts[0]) + KeptOf(ts[1..])
  }

  /** The lines of one block. */
  function BlockOf(ts: seq<Tagged>, block: Block): seq<string> {
    if ts == [] then [] else BlockPart(ts[0], block) + BlockOf(ts[1..], block)
  }

  lemma {:induction false} OfConcat(a: seq<Tagged>, b: seq<Tagged>, block: Block)
    ensures KeptOf(a + b) == KeptOf(a) + KeptOf(b)
    ensures BlockOf(a + b, block) == BlockOf(a, block) + BlockOf(b, block)
  {
    hide KeptPart, BlockPart;
    if a == [] {
      assert a + b == b;
    } else {
      assert (a + b)[1..] == a[1..] + b && (a + b)[0] == a[0];
      OfConcat(a[1..], b, block);
      Assoc(KeptPart(a[0]), KeptOf(a[1..]), KeptOf(b));
      Assoc(BlockPart(a[0], block), BlockOf(a[1..], block), BlockOf(b, block));
    }
  }

  lemma {:induction false} OfTag(b: Block, lines: seq<string>, block: Block)
    ensures KeptOf(Tag(b, lines)) == [] && BlockOf(Tag(b, lines), block) == if b == block then lines else []
  {
    if lines != [] {
      OfTag(b, lines[1..], block);
      assert Tag(b, lines)[1..] == Tag(b, lines[1..]);
    }
  }

  lemma OfKept(line: string, block: Block)
    ensures KeptOf([Kept(line)]) == [line] && BlockOf([Kept(line)], block) == []
    ensures KeptOf([]) == [] && BlockOf([], block) == []
  {
    assert [Kept(line)][1..] == [];
  }

  /** A line as it stays in the output. */
  function Carried(tools: Tools, plan: Plan, l: ParsedLine): string {
    if l.isFROM then Replaced(tools, plan.froms, l.raw) else l.raw
  }

  function AllCarried(tools: Tools, plan: Plan, lines: seq<ParsedLine>): seq<string> {
    seq(|lines|, i requires 0 <= i < |lines| => Carried(tools, plan, lines[i]))
  }

  /** What line `i` contributes. */
  lemma PartsAt(tools: Tools, plan: Plan, lines: seq<ParsedLine>, i: nat, block: Block)
    requires i < |lines|
    ensures KeptOf(OutputAt(tools, plan, lines, i)) == [Carried(tools, plan, lines[i])]
    ensures BlockOf(OutputAt(tools, plan, lines, i), block) ==
            match block
            case AfterBase => if lines[i].isFROM && !AnyFrom(lines[..i]) then BaseLines(tools, plan) else []
            case Certs => if lines[i].isFROM && !AnyFrom(lines[..i]) then CertBlock(tools, plan, true) else []
            case Before =>
              if IsLast(lines[i]) && !AnyLast(lines[..i])
              then BeforeLines(tools, plan, ContextFor(AnyFrom(lines[..i + 1]))) else []
  {
    hide BaseLines, CertBlock, BeforeLines, Replaced, AnyFrom, AnyLast, ContextFor, Tag, KeptOf, BlockOf, IsLast;
    var first := [Kept(Carried(tools, plan, lines[i]))];
    var base, certs := Tag(AfterBase, BaseLines(tools, plan)), Tag(Certs, CertBlock(tools, plan, true));
    var last := Tag(Before, BeforeLines(tools, plan, ContextFor(AnyFrom(lines[..i + 1]))));
    var behindFrom := if lines[i].isFROM && !AnyFrom(lines[..i]) then base + certs else [];
    OfKept(Carried(tools, plan, lines[i]), block);
    OfTag(AfterBase, BaseLines(tools, plan), block);
    OfTag(Certs, CertBlock(tools, plan, true), block);
    OfTag(Before, BeforeLines(tools, plan, ContextFor(AnyFrom(lines[..i + 1]))), block);
    OfConcat(base, certs, block);
    OfConcat(first, behindFrom, block);
    OfConcat(first + behindFrom, if IsLast(lines[i]) && !AnyLast(lines[..i]) then last else [], block);
  }

  lemma CarriedStep(tools: Tools, plan: Plan, lines: seq<ParsedLine>, i: nat)
    requires i < |lines|
    ensures |AllCarried(tools, plan, lines)| == |lines|
    ensures AllCarried(tools, plan, lines)[..i + 1] ==
            AllCarried(tools, plan, lines)[..i] + [Carried(tools, plan, lines[i])]
  {
    hide Carried;
  }

  function CarriedUpTo(tools: Tools, plan: Plan, lines: seq<ParsedLine>, n: nat): seq<string>
    requires n <= |lines|
  {
    if n == 0 then [] else CarriedUpTo(tools, plan, lines, n - 1) + [Carried(tools, plan, lines[n - 1])]
  }

  lemma {:induction false} CarriedIs(tools: Tools, plan: Plan, lines: seq<ParsedLine>, n: nat)
    requires n <= |lines|
    ensures CarriedUpTo(tools, plan, lines, n) == AllCarried(tools, plan, lines)[..n]
  {
    hide Carried;
    if n > 0 {
      CarriedIs(tools, plan, lines, n - 1);
      CarriedStep(tools, plan, lines, n - 1);
    }
  }

  lemma UpToStep(tools: Tools, plan: Plan, lines: seq<ParsedLine>, i: nat)
    requires i < |lines|
    ensures OutputUpTo(tools, plan, lines, i + 1) == OutputUpTo(tools, plan, lines, i) + OutputAt(tools, plan, lines, i)
  {
    hide OutputAt;
  }

  lemma KeptNext(tools: Tools, plan: Plan, lines: seq<ParsedLine>, i: nat)
    requires i < |lines|
    ensures KeptOf(OutputUpTo(tools, plan, lines, i + 1)) ==
            KeptOf(OutputUpTo(tools, plan, lines, i)) + [Carried(tools, plan, lines[i])]
  {
    hide *;
    UpToStep(tools, plan, lines, i);
    PartsAt(tools, plan, lines, i, Before);
    OfConcat(OutputUpTo(tools, plan, lines, i), OutputAt(tools, plan, lines, i), Before);
  }

  lemma {:induction false} KeptUpTo(tools: Tools, plan: Plan, lines: seq<ParsedLine>, n: nat)
    requires n <= |lines|
    ensures KeptOf(OutputUpTo(tools, plan, lines, n)) == CarriedUpTo(tools, plan, lines, n)
  {
    hide KeptOf, BlockOf, OutputAt, Carried;
    if n == 0 {
      OfKept("", Before);
    } else {
      hide OutputUpTo;
      KeptUpTo(tools, plan, lines, n - 1);
      KeptNext(tools, plan, lines, n - 1);
    }
  }

  /** The context in which the last block is rendered: a FROM has been seen up to the first CMD or
      ENTRYPOINT, or at all if there is none. */
  function BlockContext(lines: seq<ParsedLine>): EnvContext {
    if lines == [] then NO_CONTEXT
    else
      var n := |lines| - 1;
      if AnyLast(lines[..n]) then BlockContext(lines[..n]) else ContextFor(AnyFrom(lines))
  }

  lemma {:induction false} BlocksUpTo(tools: Tools, plan: Plan, lines: seq<ParsedLine>, n: nat, block: Block)
    requires n <= |lines|
    ensures BlockOf(OutputUpTo(tools, plan, lines, n), block) ==
            match block
            case AfterBase => if AnyFrom(lines[..n]) then BaseLines(tools, plan) else []
            case Certs => if AnyFrom(lines[..n]) then CertBlock(tools, plan, true) else []
            case Before => if AnyLast(lines[..n]) then BeforeLines(tools, plan, BlockContext(lines[..n])) else []
  {
    hide KeptOf, BlockOf, OutputAt, BaseLines, CertBlock, BeforeLines, AnyFrom, AnyLast, IsLast;
    if n == 0 {
      NoneYet(lines);
      OfKept("", block);
    } else {
      BlocksUpTo(tools, plan, lines, n - 1, block);
      PartsAt(tools, plan, lines, n - 1, block);
      OfConcat(OutputUpTo(tools, plan, lines, n - 1), OutputAt(tools, plan, lines, n - 1), block);
      AnyStep(lines, n - 1);
      assert lines[..n][..n - 1] == lines[..n - 1];
    }
  }

  lemma EndParts(tools: Tools, plan: Plan, lines: seq<ParsedLine>, block: Block)
    ensures KeptOf(OutputAtEnd(tools, plan, lines)) == []
    ensures BlockOf(OutputAtEnd(tools, plan, lines), block) ==
            match block
            case AfterBase => []
            case Certs => if AnyFrom(lines) then [] else CertBlock(tools, plan, false)
            case Before => if AnyLast(lines) then [] else BeforeLines(tools, plan, ContextFor(AnyFrom(lines)))
  {
    hide KeptOf, BlockOf, CertBlock, BeforeLines, AnyFrom, AnyLast, Tag;
    var before := Tag(Before, BeforeLines(tools, plan, ContextFor(AnyFrom(lines))));
    var certs := Tag(Certs, CertBlock(tools, plan, false));
    OfTag(Before, BeforeLines(tools, plan, ContextFor(AnyFrom(lines))), block);
    OfTag(Certs, CertBlock(tools, plan, false), block);
    OfKept("", block);
    OfConcat(if AnyLast(lines) then [] else before, if AnyFrom(lines) then [] else certs, block);
  }

  /** Erasing the injected lines leaves every input line, in order, the FROM lines rewritten. */
  lemma InputLinesKept(tools: Tools, plan: Plan, lines: seq<ParsedLine>)
    ensures KeptOf(Output(tools, plan, lines)) == AllCarried(tools, plan, lines)
  {
    hide KeptOf, OutputUpTo, OutputAtEnd;
    KeptUpTo(tools, plan, lines, |lines|);
    CarriedIs(tools, plan, lines, |lines|);
    EndParts(tools, plan, lines, Before);
    OfConcat(OutputUpTo(tools, plan, lines, |lines|), OutputAtEnd(tools, plan, lines), Before);
  }

  /** Every block goes in exactly once: the base block if there is a FROM at all, the certificates
      always, the last block always. */
  lemma BlocksExactlyOnce(tools: Tools, plan: Plan, lines: seq<ParsedLine>)
    ensures var out := Output(tools, plan, lines);
            && BlockOf(out, AfterBase) == (if AnyFrom(lines) then BaseLines(tools, plan) else [])
            && BlockOf(out, Certs) == CertBlock(tools, plan, AnyFrom(lines))
            && BlockOf(out, Before) ==
               BeforeLines(tools, plan, if AnyLast(lines) then BlockContext(lines) else ContextFor(AnyFrom(lines)))
  {
    hide BlockOf, OutputUpTo, OutputAtEnd, BaseLines, CertBlock, BeforeLines, AnyFrom, AnyLast;
    assert lines[..|lines|] == lines;
    forall block ensures BlockOf(Output(tools, plan, lines), block) ==
      BlockOf(OutputUpTo(tools, plan, lines, |lines|), block) + BlockOf(OutputAtEnd(tools, plan, lines), block)
    {
      OfConcat(OutputUpTo(tools, plan, lines, |lines|), OutputAtEnd(tools, plan, lines), block);
    }
    forall block { BlocksUpTo(tools, plan, lines, |lines|, block); }
    forall block { EndParts(tools, plan, lines, block); }
  }

  lemma {:induction false} UpToGrows(tools: Tools, plan: Plan, lines: seq<ParsedLine>, m: nat, n: nat)
    requires m <= n <= |lines|
    ensures OutputUpTo(tools, plan, lines, m) <= OutputUpTo(tools, plan, lines, n)
    decreases n
  {
    hide OutputAt;
    if m < n { UpToGrows(tools, plan, lines, m, n - 1); }
  }

  /** What is put out for the lines up to `i` stands at the front of the output. */
  lemma FrontOfOutput(tools: Tools, plan: Plan, lines: seq<ParsedLine>, i: nat, front: seq<Tagged>)
    requires i < |lines| && front <= OutputAt(tools, plan, lines, i)
    ensures OutputUpTo(tools, plan, lines, i) + front <= Output(tools, plan, lines)
  {
    hide OutputAt, OutputAtEnd;
    var done, more := OutputUpTo(tools, plan, lines, i), OutputAt(tools, plan, lines, i);
    assert OutputUpTo(tools, plan, lines, i + 1) == done + more;
    UpToGrows(tools, plan, lines, i + 1, |lines|);
    hide OutputUpTo;
    assert done + front <= done + more;
  }

  /** The base block and the certificates stand directly behind the first FROM line. */
  lemma BehindFirstFrom(tools: Tools, plan: Plan, lines: seq<ParsedLine>, f: nat)
    requires f < |lines| && lines[f].isFROM && !AnyFrom(lines[..f])
    ensures OutputUpTo(tools, plan, lines, f)
            + ([Kept(Carried(tools, plan, lines[f]))]
              + (Tag(AfterBase, BaseLines(tools, plan)) + Tag(Certs, CertBlock(tools, plan, true))))
            <= Output(tools, plan, lines)
  {
    hide BaseLines, CertBlock, BeforeLines, AnyFrom, AnyLast, Tag, Output, OutputUpTo, IsLast, Replaced;
    FrontOfOutput(tools, plan, lines, f,
      [Kept(Carried(tools, plan, lines[f]))]
      + (Tag(AfterBase, BaseLines(tools, plan)) + Tag(Certs, CertBlock(tools, plan, true))));
  }

  /** The last block stands directly behind the first CMD or ENTRYPOINT line, not before it. */
  lemma BehindFirstLast(tools: Tools, plan: Plan, lines: seq<ParsedLine>, e: nat)
    requires e < |lines| && IsLast(lines[e]) && !lines[e].isFROM && !AnyLast(lines[..e])
    ensures OutputUpTo(tools, plan, lines, e)
            + ([Kept(lines[e].raw)] + Tag(Before, BeforeLines(tools, plan, ContextFor(AnyFrom(lines[..e])))))
            <= Output(tools, plan, lines)
  {
    hide BaseLines, CertBlock, BeforeLines, AnyFrom, AnyLast, Tag, Output, OutputUpTo, IsLast, ContextFor;
    AnyStep(lines, e);
    FrontOfOutput(tools, plan, lines, e,
      [Kept(lines[e].raw)] + Tag(Before, BeforeLines(tools, plan, ContextFor(AnyFrom(lines[..e])))));
  }

  /** What is missing closes the file: all the input lines come first, then without CMD or ENTRYPOINT the
      last block, then without FROM the certificates, and neither has a line in front. */
  lemma AtTheEnd(tools: Tools, plan: Plan, lines: seq<ParsedLine>)
    ensures var front := OutputUpTo(tools, plan, lines, |lines|);
            && KeptOf(front) == AllCarried(tools, plan, lines)
            && (!AnyLast(lines) ==> BlockOf(front, Before) == [])
            && (!AnyFrom(lines) ==> BlockOf(front, Certs) == [])
            && Output(tools, plan, lines) == front
               + ((if AnyLast(lines) then [] else Tag(Before, BeforeLines(tools, plan, ContextFor(AnyFrom(lines)))))
                  + if AnyFrom(lines) then [] else Tag(Certs, CertBlock(tools, plan, false)))
  {
    hide KeptOf, BlockOf, OutputUpTo, BaseLines, CertBlock, BeforeLines, AnyFrom, AnyLast, Tag, ContextFor,
         BlockContext;
    assert lines[..|lines|] == lines;
    KeptUpTo(tools, plan, lines, |lines|);
    CarriedIs(tools, plan, lines, |lines|);
    BlocksUpTo(tools, plan, lines, |lines|, Before);
    BlocksUpTo(tools, plan, lines, |lines|, Certs);
  }

  /** The kinds of rules `modify` acts on. */
  const KINDS: set<string> := {"from", "ca_certificates", "run", "env"}

  lemma {:induction false} UnknownRules(tools: Tools, rules: seq<Injection>)
    requires forall i | 0 <= i < |rules| :: rules[i].kind !in KINDS
    ensures PlanFor(tools, rules) == NOTHING
    decreases |rules|
  {
    if rules != [] {
      UnknownRules(tools, rules[..|rules| - 1]);
      assert rules[|rules| - 1].kind !in KINDS;
    }
  }

  function RawOf(lines: seq<ParsedLine>): seq<string> {
    seq(|lines|, i requires 0 <= i < |lines| => lines[i].raw)
  }

  lemma {:induction false} NothingInjected(tools: Tools, lines: seq<ParsedLine>, n: nat)
    requires n <= |lines|
    ensures Untagged(OutputUpTo(tools, NOTHING, lines, n)) == RawOf(lines[..n])
  {
    hide AnyFrom, AnyLast, Untagged, OutputAt, IsLast;
    if n == 0 {
      UntaggedOne(Kept(""));
    } else {
      NothingInjected(tools, lines, n - 1);
      OutputAtLines(tools, NOTHING, lines, n - 1);
      UntaggedConcat(OutputUpTo(tools, NOTHING, lines, n - 1), OutputAt(tools, NOTHING, lines, n - 1));
      NothingThere(tools, ContextFor(AnyFrom(lines[..n])));
      assert RawOf(lines[..n]) == RawOf(lines[..n - 1]) + [lines[n - 1].raw];
    }
  }

  lemma NothingThere(tools: Tools, ctx: EnvContext)
    ensures BaseLines(tools, NOTHING) == [] && CertBlock(tools, NOTHING, true) == [] == CertBlock(tools, NOTHING, false)
    ensures BeforeLines(tools, NOTHING, ctx) == []
    ensures forall line :: Replaced(tools, NOTHING.froms, line) == line
  {
  }

  lemma NothingOut(tools: Tools, lines: seq<ParsedLine>)
    ensures Untagged(Output(tools, NOTHING, lines)) == RawOf(lines)
  {
    hide OutputUpTo, OutputAtEnd, Untagged, RawOf, BeforeLines, CertBlock, AnyFrom, AnyLast;
    NothingInjected(tools, lines, |lines|);
    assert lines[..|lines|] == lines;
    NothingThere(tools, ContextFor(AnyFrom(lines)));
    OutputAtEndLines(tools, NOTHING, lines);
    UntaggedConcat(OutputUpTo(tools, NOTHING, lines, |lines|), OutputAtEnd(tools, NOTHING, lines));
    assert RawOf(lines) + [] == RawOf(lines);
  }

  /** Without rules, or with rules of unknown kinds only, the Dockerfile comes back as it was. */
  lemma NoRulesIdentity(tools: Tools, content: string, rules: seq<Injection>)
    requires forall i | 0 <= i < |rules| :: rules[i].kind !in KINDS
    ensures Join(Untagged(Output(tools, PlanFor(tools, rules), Parsed(tools, content))), "\n") == content
  {
    UnknownRules(tools, rules);
    hide *;
    NothingOut(tools, Parsed(tools, content));
    RawLines(tools, content);
    JoinSplit(content, '\n');
  }

  lemma RawLines(tools: Tools, content: string)
    ensures RawOf(Parsed(tools, content)) == Split(content, '\n')
  {
    hide Split;
  }

  /** Without `from` rules, erasing the injected lines gives the Dockerfile back exactly. */
  lemma ErasingUndoes(tools: Tools, content: string, plan: Plan)
    requires plan.froms == []
    ensures Join(KeptOf(Output(tools, plan, Parsed(tools, content))), "\n") == content
  {
    hide Output, Join, Split, KeptOf, Parsed;
    InputLinesKept(tools, plan, Parsed(tools, content));
    RawLines(tools, content);
    JoinSplit(content, '\n');
    assert AllCarried(tools, plan, Parsed(tools, content)) == RawOf(Parsed(tools, content));
  }
}
