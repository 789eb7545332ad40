/** Payloads written from inside a Dockerfile: base64 text cut into RUN lines that write and append,
    and a last one that decodes (internal/image/cacerts.go).  A reader of such lines and a store of
    files say what the build does with them. */
module CertChunks {
  import opened Bytes
  import opened Paths
  import opened Text

  /** `inlineChunkSize`. */
  const CHUNK: nat := 57344

  /** `wvStagingDir`. */
  const STAGING := "/etc/whalevet-cacert"

  /** The longest Dockerfile line BuildKit accepts. */
  const MAX_LINE: nat := 65535

  const WRITE := "RUN mkdir -p " + STAGING + " && printf '%s' '"
  const APPEND := "RUN printf '%s' '"
  const DECODE := "RUN base64 -d "

  /** The staging file for a payload of this name. */
  function StagingFile(name: string): string {
    STAGING + "/" + name + ".b64"
  }

  function WriteLine(chunk: string, tmp: string): string {
    WRITE + (chunk + "'" + (" > " + tmp))
  }

  function AppendLine(chunk: string, tmp: string): string {
    APPEND + (chunk + "'" + (" >> " + tmp))
  }

  function DecodeRest(tmp: string, target: string): string {
    " > " + target + " && rm " + tmp + " && chmod 644 " + target
  }

  function DecodeLine(tmp: string, target: string): string {
    DECODE + (tmp + DecodeRest(tmp, target))
  }

  /** The chunk loop that `inlineWritePayloadLines` and `inlineCertWriteLines` share. */
  method ChunkLines(b64: string, tmp: string) returns (lines: seq<string>)
    ensures lines == LinesFor(b64, tmp)
  {
    lines := [];
    var j := 0;
    assert b64[0..] == b64;
    while j < |b64|
      invariant 0 <= j <= |b64|
      invariant if j == 0 then lines == [] else lines + AppendLinesFor(b64[j..], tmp) == LinesFor(b64, tmp)
    {
      var end := if j + CHUNK <= |b64| then j + CHUNK else |b64|;
      var chunk := b64[j..end];
      ghost var rest := b64[j..];
      assert rest[..end - j] == chunk && rest[end - j..] == b64[end..];
      if j == 0 {
        lines := lines + [WriteLine(chunk, tmp)];
      } else {
        assert lines + ([AppendLine(chunk, tmp)] + AppendLinesFor(b64[end..], tmp))
            == lines + [AppendLine(chunk, tmp)] + AppendLinesFor(b64[end..], tmp);
        lines := lines + [AppendLine(chunk, tmp)];
      }
      j := end;
    }
    assert lines + [] == lines;
  }

  function Head(b64: string): nat {
    if |b64| <= CHUNK then |b64| else CHUNK
  }

  function AppendLinesFor(b64: string, tmp: string): seq<string> {
    if b64 == "" then [] else [AppendLine(b64[..Head(b64)], tmp)] + AppendLinesFor(b64[Head(b64)..], tmp)
  }

  function LinesFor(b64: string, tmp: string): seq<string> {
    if b64 == "" then [] else [WriteLine(b64[..Head(b64)], tmp)] + AppendLinesFor(b64[Head(b64)..], tmp)
  }

  /** `inlineWritePayloadLines`, given the encoded content. */
  method InlineWritePayloadLines(target: string, b64: string) returns (lines: seq<string>)
    ensures lines == LinesFor(b64, StagingFile(Base(target))) + [DecodeLine(StagingFile(Base(target)), target)]
  {
    var tmp := STAGING + "/" + Base(target) + ".b64";
    lines := ChunkLines(b64, tmp);
    lines := lines + [DECODE + (tmp + (" > " + target + " && rm " + tmp + " && chmod 644 " + target))];
  }

  // ----- what the build does

  /** A shell token: a plain word, a text in single quotes, or a quote that is never closed. */
  datatype Token = Word(text: string) | Quoted(text: string) | Unclosed

  /** The tokens of a shell line: blanks part them, except inside quotes. */
  function Tokens(s: string): seq<Token>
    decreases |s|
  {
    if s == "" then []
    else if s[0] == ' ' then Tokens(s[1..])
    else if s[0] == '\'' then
      match IndexOf(s[1..], '\'')
      case None => [Unclosed]
      case Some(i) => [Quoted(s[1..][..i])] + Tokens(s[1..][i + 1..])
    else match IndexOf(s, ' ')
      case None => [Word(s)]
      case Some(i) => [Word(s[..i])] + Tokens(s[i..])
  }

  /** The commands these lines use. */
  datatype Command =
    | MkDir(dir: string)                                // mkdir -p dir
    | Print(text: string, path: string, more: bool)     // printf '%s' 'text' > path, or >> path
    | Decode(src: string, target: string)               // base64 -d src > target
    | Remove(path: string)                              // rm path
    | Mode(mode: string, path: string)                  // chmod mode path

  function CommandOf(ts: seq<Token>): Option<Command> {
    if |ts| == 3 && ts[0] == Word("mkdir") && ts[1] == Word("-p") && ts[2].Word? then Some(MkDir(ts[2].text))
    else if && |ts| == 5 && ts[0] == Word("printf") && ts[1] == Quoted("%s") && ts[2].Quoted?
            && ts[3] in [Word(">"), Word(">>")] && ts[4].Word?
    then Some(Print(ts[2].text, ts[4].text, ts[3] == Word(">>")))
    else if && |ts| == 5 && ts[0] == Word("base64") && ts[1] == Word("-d") && ts[2].Word?
            && ts[3] == Word(">") && ts[4].Word?
    then Some(Decode(ts[2].text, ts[4].text))
    else if |ts| == 2 && ts[0] == Word("rm") && ts[1].Word? then Some(Remove(ts[1].text))
    else if |ts| == 3 && ts[0] == Word("chmod") && ts[1].Word? && ts[2].Word? then Some(Mode(ts[1].text, ts[2].text))
    else None
  }

  /** The length of the first command: up to the first `&&`. */
  function FirstLen(ts: seq<Token>): (n: nat)
    ensures n <= |ts|
  {
    if ts == [] || ts[0] == Word("&&") then 0 else 1 + FirstLen(ts[1..])
  }

  /** Commands joined by `&&`; None if one of them is not understood. */
  function CommandsOf(ts: seq<Token>): Option<seq<Command>>
    decreases |ts|
  {
    var n := FirstLen(ts);
    match CommandOf(ts[..n])
    case None => None
    case Some(c) => if n == |ts| then Some([c]) else Prepend([c], CommandsOf(ts[n + 1..]))
  }

  /** How a Dockerfile line is understood. */
  function ReadLine(line: string): Option<seq<Command>> {
    if "RUN " <= line then CommandsOf(Tokens(line[4..])) else None
  }

  /** The files with their modes, and the directories made. */
  datatype Disk = Disk(files: map<string, string>, modes: map<string, string>, dirs: set<string>)

  /** One command; None if it fails. */
  function Do(d: Disk, c: Command, dec: string -> string): Option<Disk> {
    match c
    case MkDir(dir) => Some(d.(dirs := d.dirs + {dir}))
    case Print(text, path, more) =>
      Some(d.(files := d.files[path := (if more && path in d.files then d.files[path] else "") + text]))
    case Decode(src, target) =>
      if src in d.files then Some(d.(files := d.files[target := dec(d.files[src])])) else None
    case Remove(path) => if path in d.files then Some(d.(files := d.files - {path})) else None
    case Mode(mode, path) => if path in d.files then Some(d.(modes := d.modes[path := mode])) else None
  }

  function DoAll(d: Disk, cs: seq<Command>, dec: string -> string): Option<Disk>
    decreases |cs|
  {
    if cs == [] then Some(d)
    else match Do(d, cs[0], dec)
      case None => None
      case Some(d') => DoAll(d', cs[1..], dec)
  }

  /** The disk after a run of lines; None if a line is not understood or fails. */
  function Build(d: Disk, lines: seq<string>, dec: string -> string): Option<Disk>
    decreases |lines|
  {
    if lines == [] then Some(d)
    else match ReadLine(lines[0])
      case None => None
      case Some(cs) =>
        match DoAll(d, cs, dec)
        case None => None
        case Some(d') => Build(d', lines[1..], dec)
  }

  // ----- reading the lines back

  /** A name the shell takes as one plain word. */
  predicate PlainName(p: string) {
    p != "" && ' ' !in p && p[0] != '\'' && p != "&&"
  }

  predicate Shown(t: Token) {
    match t
    case Word(w) => w != "" && ' ' !in w && w[0] != '\''
    case Quoted(q) => '\'' !in q
    case Unclosed => false
  }

  function Show(t: Token): string {
    match t case Word(w) => w case Quoted(q) => "'" + q + "'" case Unclosed => "'"
  }

  /** Tokens written one after the other, with a blank between two. */
  function Line(ts: seq<Token>): string {
    if ts == [] then "" else if |ts| == 1 then Show(ts[0]) else Show(ts[0]) + " " + Line(ts[1..])
  }

  lemma OneToken(t: Token)
    requires Shown(t)
    ensures Tokens(Show(t)) == [t]
  {
    match t {
      case Word(w) =>
        assert IndexOf(w, ' ').None?;
      case Quoted(q) =>
        FirstIndex(q, '\'', "");
        assert Show(t)[1..] == q + ['\''] + "";
        assert Show(t)[1..][|q| + 1..] == "" && Show(t)[1..][..|q|] == q;
        assert Tokens("") == [] && [Quoted(q)] + [] == [Quoted(q)];
    }
  }

  lemma TokenThenRest(t: Token, rest: string)
    requires Shown(t)
    ensures Tokens(Show(t) + " " + rest) == [t] + Tokens(rest)
  {
    hide IndexOf;
    var s := Show(t) + " " + rest;
    match t {
      case Word(w) =>
        FirstIndex(w, ' ', rest);
        assert s == w + [' '] + rest && s[|w|..] == " " + rest && s[..|w|] == w;
        assert (" " + rest)[1..] == rest;
      case Quoted(q) =>
        FirstIndex(q, '\'', " " + rest);
        assert s[1..] == q + ['\''] + (" " + rest);
        assert s[1..][|q| + 1..] == " " + rest && s[1..][..|q|] == q;
        assert (" " + rest)[1..] == rest;
    }
  }

  /** A line of tokens is read back as those tokens. */
  lemma {:induction false} LineReads(ts: seq<Token>)
    requires forall i | 0 <= i < |ts| :: Shown(ts[i])
    ensures Tokens(Line(ts)) == ts
  {
    hide Show, Shown;
    if |ts| == 1 {
      OneToken(ts[0]);
    } else if |ts| > 1 {
      LineReads(ts[1..]);
      TokenThenRest(ts[0], Line(ts[1..]));
    }
  }

  /** Two commands with `&&` between them. */
  lemma {:induction false} FirstLenIs(a: seq<Token>, b: seq<Token>)
    requires Word("&&") !in a
    ensures FirstLen(a) == |a| && FirstLen(a + [Word("&&")] + b) == |a|
    decreases |a|
  {
    var s := a + [Word("&&")] + b;
    if a == [] {
      assert s[0] == Word("&&");
    } else {
      FirstLenIs(a[1..], b);
      assert s[1..] == a[1..] + [Word("&&")] + b && s[0] == a[0];
    }
  }

  lemma OneCommand(a: seq<Token>)
    requires Word("&&") !in a && CommandOf(a).Some?
    ensures CommandsOf(a) == Some([CommandOf(a).value])
  {
    hide CommandOf;
    FirstLenIs(a, []);
    assert a[..|a|] == a;
  }

  lemma AndThen(a: seq<Token>, b: seq<Token>)
    requires Word("&&") !in a && CommandOf(a).Some?
    ensures CommandsOf(a + [Word("&&")] + b) == Prepend([CommandOf(a).value], CommandsOf(b))
  {
    hide CommandOf;
    FirstLenIs(a, b);
    var s := a + [Word("&&")] + b;
    assert s[..|a|] == a && s[|a| + 1..] == b && |s| > |a|;
  }

  function MkDirTokens(dir: string): seq<Token> {
    [Word("mkdir"), Word("-p"), Word(dir)]
  }

  function PrintTokens(text: string, arrow: string, path: string): seq<Token> {
    [Word("printf"), Quoted("%s"), Quoted(text), Word(arrow), Word(path)]
  }

  function DecodeTokens(src: string, target: string): seq<Token> {
    [Word("base64"), Word("-d"), Word(src), Word(">"), Word(target)]
  }

  function RemoveTokens(path: string): seq<Token> {
    [Word("rm"), Word(path)]
  }

  function ModeTokens(path: string): seq<Token> {
    [Word("chmod"), Word("644"), Word(path)]
  }

  lemma LineCons(t: Token, ts: seq<Token>)
    requires ts != []
    ensures Line([t] + ts) == Show(t) + " " + Line(ts)
  {
    assert ([t] + ts)[1..] == ts;
  }

  lemma Reads(line: string, ts: seq<Token>, cs: seq<Command>)
    requires line == "RUN " + Line(ts) && AllShown(ts) && CommandsOf(ts) == Some(cs)
    ensures ReadLine(line) == Some(cs)
  {
    hide Shown, Line, CommandsOf;
    LineReads(ts);
    assert line[4..] == Line(ts);
  }

  lemma Joined(a: string, b: string, rest: string, ab: string)
    requires a + b == ab
    ensures a + (b + rest) == ab + rest
  {
    Assoc(a, b, rest);
  }

  lemma QuotedThen(text: string, rest: string)
    ensures "'" + text + "'" + " " + rest == "'" + (text + "'" + (" " + rest))
  {
    Assoc("'", text, "'");
    Assoc("'", text + "'", " ");
    Assoc("'", text + "'" + " ", rest);
    Assoc(text + "'", " ", rest);
  }

  lemma PrintLine(text: string, arrow: string, path: string)
    ensures Line(PrintTokens(text, arrow, path)) == "printf '%s' '" + (text + "'" + (" " + (arrow + " " + path)))
  {
    hide Show, Line;
    var last := [Word(path)];
    LineCons(Word(arrow), last);
    LineCons(Quoted(text), [Word(arrow)] + last);
    LineCons(Quoted("%s"), [Quoted(text)] + ([Word(arrow)] + last));
    LineCons(Word("printf"), [Quoted("%s")] + ([Quoted(text)] + ([Word(arrow)] + last)));
    assert PrintTokens(text, arrow, path) ==
           [Word("printf")] + ([Quoted("%s")] + ([Quoted(text)] + ([Word(arrow)] + last)));
    Shows(text, arrow, path);
    var tail := arrow + " " + path;
    QuotedThen(text, tail);
    Joined("'%s' ", "'", text + "'" + (" " + tail), "'%s' '");
    Joined("printf ", "'%s' '", text + "'" + (" " + tail), "printf '%s' '");
  }

  lemma Shows(text: string, arrow: string, path: string)
    ensures Show(Word("printf")) + " " == "printf " && Show(Quoted("%s")) + " " == "'%s' "
    ensures Show(Quoted(text)) == "'" + text + "'" && Show(Word(arrow)) == arrow && Line([Word(path)]) == path
  {
    assert "'" + "%s" + "'" == "'%s'";
  }

  /** The tokens of two commands on one line. */
  lemma {:induction false} LineAnd(a: seq<Token>, b: seq<Token>)
    requires a != [] && b != []
    ensures Line(a + [Word("&&")] + b) == Line(a) + (" && " + Line(b))
    decreases |a|
  {
    hide Show;
    var and := [Word("&&")] + b;
    assert a + [Word("&&")] + b == a + and && and[1..] == b;
    var rest := Line(b);
    assert Line(and) == "&&" + " " + rest by { AndShown(); }
    Joined(" ", "&& ", rest, " && ");
    Joined("&&", " ", rest, "&& ");
    if |a| == 1 {
      assert (a + and)[1..] == and;
      Assoc(Show(a[0]), " ", Line(and));
    } else {
      LineAnd(a[1..], b);
      assert (a + and)[1..] == a[1..] + and && a[1..] + [Word("&&")] + b == a[1..] + and;
      Assoc(Show(a[0]) + " ", Line(a[1..]), " && " + rest);
    }
  }

  lemma AndShown()
    ensures Show(Word("&&")) == "&&"
  {
  }

  lemma ShortLines(src: string, target: string)
    ensures Line(MkDirTokens(src)) == "mkdir -p " + src
    ensures Line(RemoveTokens(src)) == "rm " + src
    ensures Line(ModeTokens(src)) == "chmod 644 " + src
    ensures Line(DecodeTokens(src, target)) == "base64 -d " + (src + (" > " + target))
  {
    var m, r, c, d := MkDirTokens(src), RemoveTokens(src), ModeTokens(src), DecodeTokens(src, target);
    assert m[1..][1..] == [Word(src)] && r[1..] == [Word(src)] && c[1..][1..] == [Word(src)];
    assert Line(m[1..]) == "-p" + " " + src && Line(c[1..]) == "644" + " " + src;
    Joined("mkdir ", "-p ", src, "mkdir -p ");
    Joined("chmod ", "644 ", src, "chmod 644 ");
    DecodeText(src, target);
  }

  lemma DecodeText(src: string, target: string)
    ensures Line(DecodeTokens(src, target)) == "base64 -d " + (src + (" > " + target))
  {
    hide Show, Line;
    var last := [Word(target)];
    LineCons(Word(">"), last);
    LineCons(Word(src), [Word(">")] + last);
    LineCons(Word("-d"), [Word(src)] + ([Word(">")] + last));
    LineCons(Word("base64"), [Word("-d")] + ([Word(src)] + ([Word(">")] + last)));
    assert DecodeTokens(src, target) == [Word("base64")] + ([Word("-d")] + ([Word(src)] + ([Word(">")] + last)));
    DecodeShown(src, target);
    var tail := src + (" > " + target);
    Assoc(src, " ", "> " + target);
    Joined(" ", "> ", target, " > ");
    Joined("base64 ", "-d ", tail, "base64 -d ");
  }

  lemma DecodeShown(src: string, target: string)
    ensures Show(Word("base64")) + " " == "base64 " && Show(Word("-d")) + " " == "-d "
    ensures Show(Word(src)) == src && Show(Word(">")) + " " == "> " && Line([Word(target)]) == target
  {
  }

  /** The commands of the lines, each from its tokens. */
  lemma PrintReads(text: string, arrow: string, tmp: string)
    requires '\'' !in text && PlainName(tmp) && arrow in [">", ">>"]
    ensures Word("&&") !in PrintTokens(text, arrow, tmp)
    ensures CommandOf(PrintTokens(text, arrow, tmp)) == Some(Print(text, tmp, arrow == ">>"))
    ensures AllShown(PrintTokens(text, arrow, tmp))
  {
  }

  lemma MkDirReads(dir: string)
    requires PlainName(dir)
    ensures Word("&&") !in MkDirTokens(dir) && CommandOf(MkDirTokens(dir)) == Some(MkDir(dir))
    ensures AllShown(MkDirTokens(dir))
  {
  }

  lemma DecodeReads(src: string, target: string)
    requires PlainName(src) && PlainName(target)
    ensures Word("&&") !in DecodeTokens(src, target) && AllShown(DecodeTokens(src, target))
    ensures CommandOf(DecodeTokens(src, target)) == Some(Decode(src, target))
  {
  }

  lemma RemoveReads(path: string)
    requires PlainName(path)
    ensures Word("&&") !in RemoveTokens(path) && AllShown(RemoveTokens(path))
    ensures CommandOf(RemoveTokens(path)) == Some(Remove(path))
  {
  }

  lemma ModeReads(path: string)
    requires PlainName(path)
    ensures Word("&&") !in ModeTokens(path) && AllShown(ModeTokens(path))
    ensures CommandOf(ModeTokens(path)) == Some(Mode("644", path))
  {
  }

  predicate AllShown(ts: seq<Token>) {
    forall i | 0 <= i < |ts| :: Shown(ts[i])
  }

  lemma AndIsShown(a: seq<Token>, b: seq<Token>)
    requires AllShown(a) && AllShown(b)
    ensures AllShown(a + [Word("&&")] + b)
  {
    assert Shown(Word("&&"));
    hide Shown;
  }

  lemma WriteLineReads(text: string, tmp: string)
    requires '\'' !in text && PlainName(tmp)
    ensures ReadLine(WriteLine(text, tmp)) == Some([MkDir(STAGING), Print(text, tmp, false)])
  {
    assert PlainName(STAGING) by { StagingName(); }
    hide *;
    var a, b := MkDirTokens(STAGING), PrintTokens(text, ">", tmp);
    MkDirReads(STAGING);
    PrintReads(text, ">", tmp);
    OneCommand(b);
    AndThen(a, b);
    AndIsShown(a, b);
    Prepended(MkDir(STAGING), [Print(text, tmp, false)]);
    WriteText(text, tmp);
    Reads(WriteLine(text, tmp), a + [Word("&&")] + b, [MkDir(STAGING)] + [Print(text, tmp, false)]);
    assert [MkDir(STAGING)] + [Print(text, tmp, false)] == [MkDir(STAGING), Print(text, tmp, false)];
  }

  lemma Prepended(c: Command, cs: seq<Command>)
    ensures Prepend([c], Some(cs)) == Some([c] + cs)
  {
  }

  lemma StagingName()
    ensures PlainName(STAGING)
  {
    assert forall i | 0 <= i < |STAGING| :: STAGING[i] != ' ';
  }

  lemma WriteGlue(dir: string, tail: string)
    ensures "RUN " + ("mkdir -p " + dir + (" && " + ("printf '%s' '" + tail))) ==
            "RUN mkdir -p " + dir + " && printf '%s' '" + tail
  {
    Joined(" && ", "printf '%s' '", tail, " && printf '%s' '");
    Assoc("mkdir -p ", dir, " && printf '%s' '" + tail);
    Joined("RUN ", "mkdir -p ", dir + (" && printf '%s' '" + tail), "RUN mkdir -p ");
    Assoc("RUN mkdir -p ", dir, " && printf '%s' '" + tail);
    Assoc("RUN mkdir -p " + dir, " && printf '%s' '", tail);
  }

  lemma WriteText(text: string, tmp: string)
    ensures WriteLine(text, tmp) == "RUN " + Line(MkDirTokens(STAGING) + [Word("&&")] + PrintTokens(text, ">", tmp))
  {
    var tail := text + "'" + (" > " + tmp);
    WriteIs(text, tmp);
    hide *;
    LineAnd(MkDirTokens(STAGING), PrintTokens(text, ">", tmp)) by { SomeTokens(text, tmp); }
    ShortLines(STAGING, "");
    PrintLine(text, ">", tmp);
    Arrow(tmp);
    WriteGlue(STAGING, tail);
  }

  lemma SomeTokens(text: string, tmp: string)
    ensures MkDirTokens(STAGING) != [] && PrintTokens(text, ">", tmp) != []
  {
  }

  lemma WriteIs(text: string, tmp: string)
    ensures WriteLine(text, tmp) == "RUN mkdir -p " + STAGING + " && printf '%s' '" + (text + "'" + (" > " + tmp))
  {
  }

  lemma Arrow(tmp: string)
    ensures " " + (">" + " " + tmp) == " > " + tmp && " " + (">>" + " " + tmp) == " >> " + tmp
  {
    Joined(" ", "> ", tmp, " > ");
    Joined(" ", ">> ", tmp, " >> ");
  }

  lemma AppendLineReads(text: string, tmp: string)
    requires '\'' !in text && PlainName(tmp)
    ensures ReadLine(AppendLine(text, tmp)) == Some([Print(text, tmp, true)])
  {
    AppendIs(text, tmp);
    hide *;
    var ts := PrintTokens(text, ">>", tmp);
    PrintReads(text, ">>", tmp);
    OneCommand(ts);
    PrintLine(text, ">>", tmp);
    Arrow(tmp);
    Joined("RUN ", "printf '%s' '", text + "'" + (" >> " + tmp), "RUN printf '%s' '");
    Reads(AppendLine(text, tmp), ts, [Print(text, tmp, true)]);
  }

  lemma AppendIs(text: string, tmp: string)
    ensures AppendLine(text, tmp) == "RUN printf '%s' '" + (text + "'" + (" >> " + tmp))
  {
  }

  /** The last line: decode, remove, set the mode. */
  function DecodeCommands(tmp: string, target: string): seq<Command> {
    [Decode(tmp, target), Remove(tmp), Mode("644", target)]
  }

  lemma DecodeLineReads(tmp: string, target: string)
    requires PlainName(tmp) && PlainName(target)
    ensures ReadLine(DecodeLine(tmp, target)) == Some(DecodeCommands(tmp, target))
  {
    hide *;
    var a, b, c := DecodeTokens(tmp, target), RemoveTokens(tmp), ModeTokens(target);
    var bc := b + [Word("&&")] + c;
    DecodeReads(tmp, target);
    RemoveReads(tmp);
    ModeReads(target);
    OneCommand(c);
    AndThen(b, c);
    AndThen(a, bc);
    AndIsShown(b, c);
    AndIsShown(a, bc);
    Prepended(Remove(tmp), [Mode("644", target)]);
    Prepended(Decode(tmp, target), [Remove(tmp)] + [Mode("644", target)]);
    DecodeLineText(tmp, target);
    var cs := [Decode(tmp, target)] + ([Remove(tmp)] + [Mode("644", target)]);
    Reads(DecodeLine(tmp, target), a + [Word("&&")] + bc, cs);
    assert cs == DecodeCommands(tmp, target) by { DecodeCommandsAre(tmp, target); }
  }

  lemma DecodeCommandsAre(tmp: string, target: string)
    ensures DecodeCommands(tmp, target) == [Decode(tmp, target)] + ([Remove(tmp)] + [Mode("644", target)])
  {
  }

  lemma DecodeLineText(tmp: string, target: string)
    ensures DecodeLine(tmp, target) ==
            "RUN " + Line(DecodeTokens(tmp, target) + [Word("&&")]
                          + (RemoveTokens(tmp) + [Word("&&")] + ModeTokens(target)))
  {
    var r, c := RemoveTokens(tmp), ModeTokens(target);
    assert r != [] && c != [] && DecodeTokens(tmp, target) != [];
    LineAnd(r, c);
    LineAnd(DecodeTokens(tmp, target), r + [Word("&&")] + c);
    ShortLines(tmp, target);
    ShortLines(target, tmp);
    DecodeGlue(tmp, target);
    hide *;
  }

  lemma DecodeGlue(tmp: string, target: string)
    ensures DecodeLine(tmp, target) ==
            "RUN " + ("base64 -d " + (tmp + (" > " + target))
                      + (" && " + ("rm " + tmp + (" && " + ("chmod 644 " + target)))))
  {
    var mode := " && chmod 644 " + target;
    var rm := " && rm " + (tmp + mode);
    Joined(" && ", "chmod 644 ", target, " && chmod 644 ");
    Assoc("rm ", tmp, mode);
    Joined(" && ", "rm ", tmp + mode, " && rm ");
    Assoc("base64 -d ", tmp + (" > " + target), rm);
    Assoc(tmp, " > " + target, rm);
    Joined("RUN ", "base64 -d ", tmp + (" > " + target + rm), DECODE);
    RestText(tmp, target);
  }

  lemma RestText(tmp: string, target: string)
    ensures DecodeRest(tmp, target) == " > " + target + (" && rm " + (tmp + (" && chmod 644 " + target)))
  {
    Assoc(" > " + target, " && rm ", tmp);
    Assoc(" > " + target + " && rm " + tmp, " && chmod 644 ", target);
    Assoc(" > " + target + " && rm ", tmp, " && chmod 644 " + target);
    Assoc(" > " + target, " && rm ", tmp + (" && chmod 644 " + target));
  }

  lemma {:induction false} BuildAppend(d: Disk, a: seq<string>, b: seq<string>, dec: string -> string)
    requires Build(d, a, dec).Some?
    ensures Build(d, a + b, dec) == Build(Build(d, a, dec).value, b, dec)
    decreases |a|
  {
    hide ReadLine, Do, DoAll;
    if a == [] {
      assert a + b == b;
    } else {
      BuildAppend(DoAll(d, ReadLine(a[0]).value, dec).value, a[1..], b, dec);
      assert (a + b)[1..] == a[1..] + b;
    }
  }

  lemma OneDone(d: Disk, c: Command, dec: string -> string)
    ensures DoAll(d, [c], dec) == Do(d, c, dec)
  {
    hide Do;
    assert [c][1..] == [];
  }

  lemma BuildCons(d: Disk, line: string, lines: seq<string>, cs: seq<Command>, dec: string -> string)
    requires ReadLine(line) == Some(cs) && DoAll(d, cs, dec).Some?
    ensures Build(d, [line] + lines, dec) == Build(DoAll(d, cs, dec).value, lines, dec)
  {
    hide ReadLine, DoAll;
    assert ([line] + lines)[1..] == lines;
  }

  /** A disk with more text at the end of a file. */
  function Extended(d: Disk, tmp: string, text: string): Disk
    requires tmp in d.files
  {
    d.(files := d.files[tmp := d.files[tmp] + text])
  }

  lemma ExtendedTwice(d: Disk, tmp: string, a: string, b: string)
    requires tmp in d.files
    ensures Extended(Extended(d, tmp, a), tmp, b) == Extended(d, tmp, a + b)
  {
    Assoc(d.files[tmp], a, b);
    assert d.files[tmp := d.files[tmp] + a][tmp := d.files[tmp] + a + b] == d.files[tmp := d.files[tmp] + a + b];
  }

  lemma ExtendedByNothing(d: Disk, tmp: string)
    requires tmp in d.files
    ensures Extended(d, tmp, "") == d
  {
    assert d.files[tmp] + "" == d.files[tmp] && d.files[tmp := d.files[tmp]] == d.files;
  }

  lemma AppendDone(d: Disk, chunk: string, tmp: string, dec: string -> string)
    requires tmp in d.files
    ensures DoAll(d, [Print(chunk, tmp, true)], dec) == Some(Extended(d, tmp, chunk))
  {
    OneDone(d, Print(chunk, tmp, true), dec);
  }

  lemma {:induction false} AppendsAdd(d: Disk, b64: string, tmp: string, dec: string -> string)
    requires '\'' !in b64 && PlainName(tmp) && tmp in d.files
    ensures Build(d, AppendLinesFor(b64, tmp), dec) == Some(d.(files := d.files[tmp := d.files[tmp] + b64]))
    decreases |b64|
  {
    hide ReadLine, AppendLine, PlainName, DoAll;
    if b64 == "" {
      ExtendedByNothing(d, tmp);
    } else {
      var chunk, rest := b64[..Head(b64)], b64[Head(b64)..];
      assert chunk + rest == b64;
      AppendLineReads(chunk, tmp);
      AppendDone(d, chunk, tmp, dec);
      AppendsAdd(Extended(d, tmp, chunk), rest, tmp, dec);
      hide Build;
      BuildCons(d, AppendLine(chunk, tmp), AppendLinesFor(rest, tmp), [Print(chunk, tmp, true)], dec);
      ExtendedTwice(d, tmp, chunk, rest);
    }
  }

  /** The chunk lines rebuild any nonempty text, whatever the file held before, make the staging directory,
      and touch no other file. */
  lemma ChunksRebuild(d: Disk, b64: string, tmp: string, dec: string -> string)
    requires '\'' !in b64 && b64 != "" && PlainName(tmp)
    ensures Build(d, LinesFor(b64, tmp), dec) ==
            Some(d.(files := d.files[tmp := b64], dirs := d.dirs + {"/etc/whalevet-cacert"}))
  {
    hide ReadLine, WriteLine, PlainName;
    var chunk, rest := b64[..Head(b64)], b64[Head(b64)..];
    WriteLineReads(chunk, tmp);
    FirstWrite(d, chunk, tmp, dec);
    var d' := d.(files := d.files[tmp := chunk], dirs := d.dirs + {STAGING});
    AppendsAdd(d', rest, tmp, dec);
    assert LinesFor(b64, tmp)[1..] == AppendLinesFor(rest, tmp);
    assert chunk + rest == b64;
    assert d.files[tmp := chunk][tmp := chunk + rest] == d.files[tmp := b64];
  }

  lemma FirstWrite(d: Disk, chunk: string, tmp: string, dec: string -> string)
    ensures DoAll(d, [MkDir(STAGING), Print(chunk, tmp, false)], dec) ==
            Some(d.(files := d.files[tmp := chunk], dirs := d.dirs + {STAGING}))
  {
    var cs := [MkDir(STAGING), Print(chunk, tmp, false)];
    assert cs[1..] == [Print(chunk, tmp, false)];
    OneDone(d.(dirs := d.dirs + {STAGING}), Print(chunk, tmp, false), dec);
    assert "" + chunk == chunk;
  }

  /** What the last line does. */
  lemma DecodeDone(d: Disk, tmp: string, target: string, dec: string -> string)
    requires target != tmp
    ensures DoAll(d, DecodeCommands(tmp, target), dec) ==
            if tmp in d.files
            then Some(d.(files := d.files[target := dec(d.files[tmp])] - {tmp}, modes := d.modes[target := "644"]))
            else None
  {
    var cs := DecodeCommands(tmp, target);
    assert cs[1..] == [Remove(tmp), Mode("644", target)] && cs[1..][1..] == [Mode("644", target)];
    if tmp in d.files {
      var d' := d.(files := d.files[target := dec(d.files[tmp])] - {tmp});
      OneDone(d', Mode("644", target), dec);
    }
  }

  /** A payload's staging file is not the payload. */
  lemma NotItsStaging(target: string)
    ensures target != StagingFile(Base(target))
  {
    var n := Base(target);
    if target == StagingFile(n) {
      assert target == STAGING + "/" + (n + ".b64");
      assert target[|target| - 1] == '4';
      AfterLastSlashParts(target);
      AfterLastSlashOf(STAGING + "/", n + ".b64");
      assert false;
    }
  }

  /** The payload arrives decoded under its target name with mode 644, and the staging file is gone.  For an
      empty text no chunk is written, so the last line fails unless the staging file is there already. */
  lemma PayloadInstalled(d: Disk, b64: string, target: string, dec: string -> string)
    requires '\'' !in b64 && PlainName(target)
    ensures var tmp := StagingFile(Base(target));
            Build(d, LinesFor(b64, tmp) + [DecodeLine(tmp, target)], dec) ==
            if b64 != "" then
              Some(Disk(d.files[target := dec(b64)] - {tmp}, d.modes[target := "644"],
                        d.dirs + {"/etc/whalevet-cacert"}))
            else if tmp in d.files then
              Some(Disk(d.files[target := dec(d.files[tmp])] - {tmp}, d.modes[target := "644"], d.dirs))
            else None
  {
    hide ReadLine, DecodeLine, LinesFor, DecodeCommands;
    var tmp := StagingFile(Base(target));
    assert PlainName(tmp) by { StagingIsPlain(target); }
    NotItsStaging(target);
    DecodeLineReads(tmp, target);
    var last := [DecodeLine(tmp, target)];
    assert last[1..] == [];
    if b64 != "" {
      ChunksRebuild(d, b64, tmp, dec);
      var d' := d.(files := d.files[tmp := b64], dirs := d.dirs + {STAGING});
      DecodeDone(d', tmp, target, dec);
      assert d.files[tmp := b64][target := dec(b64)] - {tmp} == d.files[target := dec(b64)] - {tmp};
    } else {
      assert LinesFor(b64, tmp) == [] by { NoLines(tmp); }
      DecodeDone(d, tmp, target, dec);
    }
    BuildAppend(d, LinesFor(b64, tmp), last, dec);
  }

  lemma NoLines(tmp: string)
    ensures LinesFor("", tmp) == []
  {
  }

  lemma StagingIsPlain(target: string)
    requires ' ' !in target
    ensures PlainName(StagingFile(Base(target)))
  {
    BaseWithin(target, ' ');
    var tmp := StagingFile(Base(target));
    assert tmp[0] == '/' && forall i | 0 <= i < |STAGING| :: STAGING[i] != ' ';
  }

  /** Every write line fits BuildKit's limit, for any file name a file system allows. */
  /** The part of the text that chunk `i` carries. */
  function ChunkAt(b64: string, i: nat): string
    requires i * CHUNK <= |b64|
  {
    b64[i * CHUNK..if (i + 1) * CHUNK <= |b64| then (i + 1) * CHUNK else |b64|]
  }

  lemma ChunkShift(b64: string, i: nat)
    requires i > 0 && i * CHUNK < |b64|
    ensures ChunkAt(b64[CHUNK..], i - 1) == ChunkAt(b64, i)
  {
    var lo, hi := i * CHUNK, if (i + 1) * CHUNK <= |b64| then (i + 1) * CHUNK else |b64|;
    SliceOfRest(b64, CHUNK, lo, hi);
    var rest := b64[CHUNK..];
    assert (i - 1) * CHUNK == lo - CHUNK && |rest| == |b64| - CHUNK;
    assert i * CHUNK <= |rest| <==> (i + 1) * CHUNK <= |b64|;
    assert ChunkAt(rest, i - 1) == rest[lo - CHUNK..hi - CHUNK];
  }

  lemma {:induction false} AppendChunks(b64: string, tmp: string, i: nat)
    ensures i < |AppendLinesFor(b64, tmp)| <==> i * CHUNK < |b64|
    ensures i * CHUNK < |b64| ==> AppendLinesFor(b64, tmp)[i] == AppendLine(ChunkAt(b64, i), tmp)
    decreases i
  {
    hide AppendLine;
    if b64 != "" {
      var rest := b64[Head(b64)..];
      if i > 0 {
        AppendChunks(rest, tmp, i - 1);
        hide ChunkAt;
        if i * CHUNK < |b64| { ChunkShift(b64, i); }
      } else {
        assert ChunkAt(b64, 0) == b64[..Head(b64)];
      }
    }
  }

  /** The text is cut at every multiple of the chunk size and nowhere else; the first line writes its chunk, the
      others append theirs. */
  lemma ChunksAt(b64: string, tmp: string, i: nat)
    ensures i < |LinesFor(b64, tmp)| <==> i * CHUNK < |b64|
    ensures i * CHUNK < |b64| ==>
              LinesFor(b64, tmp)[i] ==
              if i == 0 then WriteLine(ChunkAt(b64, i), tmp) else AppendLine(ChunkAt(b64, i), tmp)
  {
    hide AppendLine, WriteLine;
    if b64 != "" {
      var rest := b64[Head(b64)..];
      if i > 0 {
        AppendChunks(rest, tmp, i - 1);
        hide ChunkAt;
        if i * CHUNK < |b64| { ChunkShift(b64, i); }
      } else {
        assert ChunkAt(b64, 0) == b64[..Head(b64)];
      }
    }
  }

  lemma {:induction false} AppendLinesFit(b64: string, name: string)
    requires |name| <= 255
    ensures forall i | 0 <= i < |AppendLinesFor(b64, StagingFile(name))| ::
              |AppendLinesFor(b64, StagingFile(name))[i]| <= MAX_LINE
    decreases |b64|
  {
    if b64 != "" {
      AppendLinesFit(b64[Head(b64)..], name);
    }
  }

  lemma WriteLinesFit(b64: string, name: string)
    requires |name| <= 255
    ensures forall i | 0 <= i < |LinesFor(b64, StagingFile(name))| :: |LinesFor(b64, StagingFile(name))[i]| <= MAX_LINE
  {
    if b64 != "" {
      AppendLinesFit(b64[Head(b64)..], name);
    }
  }
}
