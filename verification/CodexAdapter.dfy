/**
 The Codex adapter as the source writes it (cmd/cordumctl/mcp_adapter_codex.go): a line loop with a
 running offset and a current section, a splice with a cursor and an output buffer, and the
 rendering of the gateway's block.
 */
module CodexAdapter {
  import opened Wrappers
  import opened Text
  import opened Codex

  // ---------------------------------------------------------------- parsing

  /** parseCodexMCPSections */
  method ParseSections(data: string) returns (r: Option<seq<Section>>)
    ensures r.Some? <==> Parses(data)
    ensures r.Some? ==> r.value == Sections(data)
  {
    hide Split, TrimSpace, Join, Terminate, ExtractMCPID, SectionsFrom, NextHeader, Offset, Rest;
    var lines := Split(data);
    JoinSplit(data);
    var out: seq<Section> := [];
    var offset := 0;
    var open, openID := false, "";
    var openStart: nat := 0;
    AtStart(lines);
    assert lines[..0] == [];
    assert Terminate([]) == "" by { NoLines(); }
    for i := 0 to |lines|
      invariant offset == |Terminate(lines[..i])|
      invariant forall k :: 0 <= k < i ==> !Malformed(lines[k])
      invariant Sections(data) == out + Rest(lines, i, open, openID, openStart)
    {
      var trimmed := TrimSpace(lines[i]);
      NextOffset(lines, i);
      Advance(lines, i, open, openID, openStart, out);
      if trimmed != "" && trimmed[0] == '[' {
        if ']' !in trimmed { return None; }
        if open {
          out := out + [Section(openID, openStart, offset)];
        }
        openID := ExtractMCPID(trimmed);
        open, openStart := openID != "", offset;
      }
      offset := offset + |lines[i]| + 1;
    }
    AtEnd(lines, open, openID, openStart);
    if open {
      out := out + [Section(openID, openStart, |data|)];
    }
    r := Some(out);
  }

  lemma NoLines()
    ensures Terminate([]) == ""
  {}

  /** The sections still to come: the open one, ending at the next header, and the later ones. */
  ghost function Rest(ls: seq<string>, i: nat, open: bool, id: string, start: nat): seq<Section>
    requires i <= |ls|
  {
    if open then [Section(id, start, Offset(ls, NextHeader(ls, i)))] + SectionsFrom(ls, i) else SectionsFrom(ls, i)
  }

  lemma AtStart(ls: seq<string>)
    ensures Rest(ls, 0, false, "", 0) == SectionsFrom(ls, 0)
  {}

  /** A header closes the open section and may open one; any other line changes nothing. */
  lemma Advance(ls: seq<string>, i: nat, open: bool, id: string, start: nat, out: seq<Section>)
    requires i < |ls|
    ensures Offset(ls, i) == |Terminate(ls[..i])|
    ensures !IsHeader(ls[i]) ==> Rest(ls, i, open, id, start) == Rest(ls, i + 1, open, id, start)
    ensures IsHeader(ls[i]) ==>
              var next := Id(ls[i]);
              out + Rest(ls, i, open, id, start) ==
                (if open then out + [Section(id, start, Offset(ls, i))] else out)
                    + Rest(ls, i + 1, next != "", next, Offset(ls, i))
  {
    hide Terminate, TrimSpace, ExtractMCPID, Join;
    var rest := Rest(ls, i + 1, Id(ls[i]) != "", Id(ls[i]), Offset(ls, i));
    if IsHeader(ls[i]) {
      assert SectionsFrom(ls, i) == rest;
      if open { Regroup(out, Section(id, start, Offset(ls, i)), rest); }
    }
  }

  lemma Regroup(out: seq<Section>, s: Section, rest: seq<Section>)
    ensures out + ([s] + rest) == out + [s] + rest
  {}

  lemma AtEnd(ls: seq<string>, open: bool, id: string, start: nat)
    ensures Rest(ls, |ls|, open, id, start) == if open then [Section(id, start, |Join(ls)|)] else []
  {
    hide Join;
  }

  // ---------------------------------------------------------------- rendering

  datatype Gateway = Gateway(name: string, transport: string, command: seq<string>, authSecretRef: string)

  predicate Bare(c: char) {
    'a' <= c <= 'z' || 'A' <= c <= 'Z' || '0' <= c <= '9' || c == '_' || c == '-'
  }

  function OnlyBare(s: string): string {
    if s == "" then ""
    else
      var before := OnlyBare(s[..|s| - 1]);
      if Bare(s[|s| - 1]) then before + [s[|s| - 1]] else before
  }

  /** codexIDOf, and the ID used when nothing is left of the name. */
  function GatewayID(name: string): (id: string) {
    var id := OnlyBare(TrimSpace(name));
    if id == "" then "cordum_gateway" else id
  }

  method CodexIDOf(name: string) returns (id: string)
    ensures id == OnlyBare(TrimSpace(name))
  {
    var s := TrimSpace(name);
    id := "";
    for i := 0 to |s|
      invariant id == OnlyBare(s[..i])
    {
      assert s[..i + 1][..i] == s[..i];
      if Bare(s[i]) { id := id + [s[i]]; }
    }
    assert s[..|s|] == s;
  }

  /** The ID keeps exactly the letters, digits, underscores and dashes of the name, in order. */
  lemma {:induction false} OnlyBareKeeps(a: string, c: char, b: string)
    ensures OnlyBare(a + [c] + b) ==
              (if 'A' <= c <= 'Z' || 'a' <= c <= 'z' || '0' <= c <= '9' || c in {'_', '-'} then OnlyBare(a) + [c]
               else OnlyBare(a)) + OnlyBare(b)
    decreases |b|
  {
    var s := a + [c] + b;
    if b == "" {
      assert s[..|s| - 1] == a && s[|s| - 1] == c;
    } else {
      var n := |b| - 1;
      OnlyBareKeeps(a, c, b[..n]);
      assert s[..|s| - 1] == a + [c] + b[..n];
    }
  }

  lemma {:induction false} OnlyBareIsBare(s: string)
    ensures forall i :: 0 <= i < |OnlyBare(s)| ==> Bare(OnlyBare(s)[i])
  {
    if s != "" { OnlyBareIsBare(s[..|s| - 1]); }
  }

  lemma IDIsBare(name: string)
    ensures var id := GatewayID(name); id != "" && forall i :: 0 <= i < |id| ==> Bare(id[i])
  {
    OnlyBareIsBare(TrimSpace(name));
  }

  const HEX := "0123456789abcdef"

  function Hex(n: nat, digits: nat): string {
    if digits == 0 then "" else Hex(n / 16, digits - 1) + [HEX[n % 16]]
  }

  /** strconv.Quote on one character; `isPrint` decides beyond ASCII. */
  function QuoteChar(c: char, isPrint: char -> bool): string {
    if c == '"' || c == '\\' then ['\\', c]
    else if ' ' <= c < '\U{007F}' then [c]
    else if c == '\U{0007}' then "\\a"
    else if c == '\U{0008}' then "\\b"
    else if c == '\U{000C}' then "\\f"
    else if c == '\n' then "\\n"
    else if c == '\r' then "\\r"
    else if c == '\t' then "\\t"
    else if c == '\U{000B}' then "\\v"
    else if c <= '\U{007F}' then "\\x" + Hex(c as int, 2)
    else if isPrint(c) then [c]
    else if (c as int) < 0x10000 then "\\u" + Hex(c as int, 4)
    else "\\U" + Hex(c as int, 8)
  }

  function QuoteChars(s: string, isPrint: char -> bool): string {
    if s == "" then "" else QuoteChar(s[0], isPrint) + QuoteChars(s[1..], isPrint)
  }

  function Quote(s: string, isPrint: char -> bool): string {
    "\"" + QuoteChars(s, isPrint) + "\""
  }

  lemma {:induction false} HexIsHex(n: nat, digits: nat)
    ensures '\n' !in Hex(n, digits)
  {
    if digits > 0 {
      HexIsHex(n / 16, digits - 1);
      assert forall i :: 0 <= i < |HEX| ==> HEX[i] != '\n';
    }
  }

  lemma {:induction false} QuotedIsOneLine(s: string, isPrint: char -> bool)
    ensures '\n' !in QuoteChars(s, isPrint)
  {
    hide QuoteChar;
    if s != "" {
      QuotedIsOneLine(s[1..], isPrint);
      QuotedCharIsOneLine(s[0], isPrint);
    }
  }

  lemma QuotedCharIsOneLine(c: char, isPrint: char -> bool)
    ensures '\n' !in QuoteChar(c, isPrint)
  {
    hide Hex;
    HexIsHex(c as int, 2);
    HexIsHex(c as int, 4);
    HexIsHex(c as int, 8);
  }

  /** The arguments, quoted and separated by commas. */
  function Args(args: seq<string>, isPrint: char -> bool): string {
    if args == [] then ""
    else
      Args(args[..|args| - 1], isPrint) + (if |args| > 1 then ", " else "") + Quote(args[|args| - 1], isPrint)
  }

  lemma {:induction false} ArgsAreOneLine(args: seq<string>, isPrint: char -> bool)
    ensures '\n' !in Args(args, isPrint)
  {
    if args != [] {
      ArgsAreOneLine(args[..|args| - 1], isPrint);
      QuotedIsOneLine(args[|args| - 1], isPrint);
    }
  }

  function HeaderLine(id: string): string { "[mcp_servers." + id + "]" }

  function CommandLine(g: Gateway, isPrint: char -> bool): string
    requires g.command != []
  {
    "command = " + Quote(g.command[0], isPrint)
  }

  function ArgsLine(g: Gateway, isPrint: char -> bool): string
    requires g.command != []
  {
    "args = [" + Args(g.command[1..], isPrint) + "]"
  }

  function EnvLine(g: Gateway, isPrint: char -> bool): string {
    "env = { CORDUM_AUTH_SECRET_REF = " + Quote(g.authSecretRef, isPrint) + " }"
  }

  /** Codex takes local commands only. */
  predicate Renderable(g: Gateway) {
    var transport := Lower(TrimSpace(g.transport));
    (transport == "" || transport == "stdio") && g.command != []
  }

  function BlockLines(id: string, g: Gateway, isPrint: char -> bool): seq<string>
    requires g.command != []
  {
    [HeaderLine(id), CommandLine(g, isPrint)]
    + (if |g.command| > 1 then [ArgsLine(g, isPrint)] else [])
    + (if g.authSecretRef != "" then [EnvLine(g, isPrint)] else [])
    + ["enabled = true"]
  }

  lemma TerminateSnoc(ls: seq<string>, line: string)
    ensures Terminate(ls + [line]) == Terminate(ls) + line + "\n"
  {
    TerminateConcat(ls, [line]);
    assert [line][1..] == [];
  }

  /** renderCodexGatewayBlock */
  method RenderGatewayBlock(id: string, g: Gateway, isPrint: char -> bool) returns (r: Option<string>)
    ensures r.Some? <==> g.command != [] && Lower(TrimSpace(g.transport)) in {"", "stdio"}
    ensures r.Some? <==> Renderable(g)
    ensures r.Some? ==> r.value == Terminate(BlockLines(id, g, isPrint))
  {
    hide Quote, Terminate, TrimSpace, Lower, Args, HeaderLine, CommandLine, ArgsLine, EnvLine;
    var transport := Lower(TrimSpace(g.transport));
    if transport != "" && transport != "stdio" { return None; }
    if |g.command| == 0 { return None; }
    ghost var ls := [];
    var buf := "";
    assert Terminate(ls) == "" by { NoLines(); }
    TerminateSnoc(ls, HeaderLine(id));
    buf, ls := buf + HeaderLine(id) + "\n", ls + [HeaderLine(id)];
    TerminateSnoc(ls, CommandLine(g, isPrint));
    buf, ls := buf + CommandLine(g, isPrint) + "\n", ls + [CommandLine(g, isPrint)];
    if |g.command| > 1 {
      var line := WriteArgs(g, isPrint);
      TerminateSnoc(ls, line);
      buf, ls := buf + line + "\n", ls + [line];
    }
    if g.authSecretRef != "" {
      TerminateSnoc(ls, EnvLine(g, isPrint));
      buf, ls := buf + EnvLine(g, isPrint) + "\n", ls + [EnvLine(g, isPrint)];
    }
    TerminateSnoc(ls, "enabled = true");
    buf, ls := buf + "enabled = true" + "\n", ls + ["enabled = true"];
    assert ls == BlockLines(id, g, isPrint);
    r := Some(buf);
  }

  /** The argument loop of writeCodexCommand. */
  method WriteArgs(g: Gateway, isPrint: char -> bool) returns (line: string)
    requires g.command != []
    ensures line == ArgsLine(g, isPrint)
  {
    hide Quote;
    var args := g.command[1..];
    var list := "";
    for i := 0 to |args|
      invariant list == Args(args[..i], isPrint)
    {
      assert args[..i + 1][..i] == args[..i];
      if i > 0 { list := list + ", "; }
      list := list + Quote(args[i], isPrint);
    }
    assert args[..|args|] == args;
    line := "args = [" + list + "]";
  }

  // ---------------------------------------------------------------- the block is a block

  lemma {:induction false} TrimRightPrefix(s: string)
    ensures TrimRight(s) <= s
  {
    if s != "" && IsSpace(s[|s| - 1]) { TrimRightPrefix(s[..|s| - 1]); }
  }

  lemma TrimNothing(s: string)
    requires s != "" && !IsSpace(s[0]) && !IsSpace(s[|s| - 1])
    ensures TrimSpace(s) == s
  {}

  lemma NotAHeader(line: string)
    requires line != "" && ('a' <= line[0] <= 'z' || line[0] == '#')
    ensures !IsHeader(line)
  {
    TrimRightPrefix(line);
  }

  lemma FirstBracket(line: string, n: nat, id: string)
    requires n == |line| - 1 && line == HeaderLine(id) && forall i :: 0 <= i < |id| ==> Bare(id[i])
    ensures IndexOf(line, ']') == n && '\n' !in line
  {
    hide IndexOf;
    assert line[n] == ']';
    assert forall k :: 0 <= k < n ==> line[k] != ']';
  }

  lemma HeaderLineIsHeader(id: string)
    requires id != "" && forall i :: 0 <= i < |id| ==> Bare(id[i])
    ensures Id(HeaderLine(id)) == id && !Malformed(HeaderLine(id)) && '\n' !in HeaderLine(id)
  {
    hide IsSpace, TrimSpace, IndexOf;
    var line := HeaderLine(id);
    var n := |line| - 1;
    assert !IsSpace('[') && !IsSpace(']') && !IsSpace('m') by { BareNotSpace(); }
    assert line[0] == '[' && line[n] == ']';
    TrimNothing(line);
    var inner := line[1..n];
    assert inner == PREFIX + id;
    FirstBracket(line, n, id);
    assert inner[0] == 'm' && inner[|inner| - 1] == id[|id| - 1];
    assert !IsSpace(id[0]) && !IsSpace(id[|id| - 1]) by { BareNotSpace(); }
    TrimNothing(inner);
    assert inner[|PREFIX|..] == id;
    TrimNothing(id);
  }

  lemma BareNotSpace()
    ensures forall c :: Bare(c) ==> !IsSpace(c)
    ensures !IsSpace('[') && !IsSpace(']')
  {}

  lemma OtherLines(g: Gateway, isPrint: char -> bool)
    requires g.command != []
    ensures !IsHeader(CommandLine(g, isPrint)) && '\n' !in CommandLine(g, isPrint)
    ensures !IsHeader(ArgsLine(g, isPrint)) && '\n' !in ArgsLine(g, isPrint)
    ensures !IsHeader(EnvLine(g, isPrint)) && '\n' !in EnvLine(g, isPrint)
    ensures !IsHeader("enabled = true") && '\n' !in "enabled = true"
  {
    hide QuoteChars, Args, IsHeader, TrimSpace, IsSpace;
    QuotedIsOneLine(g.command[0], isPrint);
    QuotedIsOneLine(g.authSecretRef, isPrint);
    ArgsAreOneLine(g.command[1..], isPrint);
    NotAHeader(CommandLine(g, isPrint));
    NotAHeader(ArgsLine(g, isPrint));
    NotAHeader(EnvLine(g, isPrint));
    NotAHeader("enabled = true");
  }

  lemma RenderedIsBlock(g: Gateway, isPrint: char -> bool)
    requires g.command != []
    ensures IsBlock(BlockLines(GatewayID(g.name), g, isPrint), GatewayID(g.name))
  {
    hide GatewayID, HeaderLine, CommandLine, ArgsLine, EnvLine, IsHeader, Id, Malformed;
    IDIsBare(g.name);
    HeaderLineIsHeader(GatewayID(g.name));
    OtherLines(g, isPrint);
  }

  // ---------------------------------------------------------------- merging

  /** bytes.TrimRight and appendCodexGatewayBlock */
  method AppendGatewayBlock(existing: string, block: string) returns (out: string)
    ensures out == Append(existing, block)
  {
    out := TrimNewlines(existing);
    if |out| > 0 { out := out + "\n\n"; }
    out := out + block;
  }

  /** A section ends at a line that is not empty, or at the end of the text. */
  lemma NoNewlineAtEnd(text: string, id: string)
    requires id != ""
    ensures var f := Find(Sections(text), id);
            f.Some? ==> f.value.start <= f.value.end <= |text| && (f.value.end < |text| ==> text[f.value.end] != '\n')
  {
    hide IsHeader, Id, TrimSpace, SectionsFrom, Split, FirstWith, NextHeader, Find, Offset, Clean;
    FoundFits(text, id);
    var ls := Split(text);
    JoinSplit(text);
    FindIsFirst(ls, id, 0);
    var k := FirstWith(ls, id, 0);
    if k < |ls| { HeaderStart(ls, NextHeader(ls, k + 1)); }
  }

  lemma HeaderStart(ls: seq<string>, j: nat)
    requires j <= |ls| && Clean(ls) && (j < |ls| ==> IsHeader(ls[j]))
    ensures var end := Offset(ls, j); end <= |Join(ls)| && (end < |Join(ls)| ==> Join(ls)[end] != '\n')
  {
    hide IsHeader, TrimSpace;
    if j < |ls| {
      CutAt(ls, j);
      HeaderNotEmpty(ls[j]);
      var rest := ls[j..];
      assert rest[0] == ls[j] && ls[j][0] in ls[j];
      assert Join(rest)[0] == ls[j][0];
    }
  }

  lemma FindNext(ss: seq<Section>, i: nat, id: string)
    requires i < |ss|
    ensures Find(ss[i..], id) == if ss[i].id == id then Some(ss[i]) else Find(ss[i + 1..], id)
  {
    assert ss[i..][1..] == ss[i + 1..];
  }

  method SkipNewlines(text: string, start: nat) returns (end: nat)
    requires start <= |text|
    ensures start <= end <= |text| && (end < |text| ==> text[end] != '\n')
    ensures forall k :: start <= k < end ==> text[k] == '\n'
  {
    end := start;
    while end < |text| && text[end] == '\n'
      invariant start <= end <= |text|
      invariant forall k :: start <= k < end ==> text[k] == '\n'
    {
      end := end + 1;
    }
  }

  /** The splice: what stands before the section, the block, a separator if anything follows, and
      what follows, without the newlines right after the section. */
  method ReplaceSection(existing: string, sec: Section, block: string) returns (out: string, end: nat)
    requires sec.start <= sec.end <= |existing|
    ensures sec.end <= end <= |existing| && (end < |existing| ==> existing[end] != '\n')
    ensures forall k :: sec.end <= k < end ==> existing[k] == '\n'
    ensures out == Splice(existing, sec.(end := end), block)
  {
    out := existing[..sec.start];
    out := out + block;
    end := SkipNewlines(existing, sec.end);
    if end < |existing| { out := out + "\n"; }
    if end < |existing| { out := out + existing[end..]; }
  }

  /** The first section with this ID. */
  method FindSection(sections: seq<Section>, id: string) returns (found: Option<Section>)
    ensures found == Find(sections, id)
  {
    hide Find;
    FindNone(id);
    assert sections[|sections|..] == [];
    for i := 0 to |sections|
      invariant Find(sections, id) == Find(sections[i..], id)
    {
      FindNext(sections, i, id);
      if sections[i].id == id { return Some(sections[i]); }
    }
    found := None;
  }

  /** renderCodexMerged: `replacing` only says whether to look for a section. */
  method RenderMerged(existing: string, id: string, g: Gateway, replacing: bool, isPrint: char -> bool)
    returns (r: Option<string>)
    requires id != ""
    ensures r.Some? <==> Renderable(g) && (replacing ==> Parses(existing))
    ensures r.Some? ==>
              var block := Terminate(BlockLines(id, g, isPrint));
              r.value == if replacing then Merge(existing, id, block) else Append(existing, block)
  {
    hide Terminate, BlockLines, Append, Parses, Renderable, SectionsFrom, Split, Find;
    var block := RenderGatewayBlock(id, g, isPrint);
    if block.None? { return None; }
    if !replacing {
      var appended := AppendGatewayBlock(existing, block.value);
      return Some(appended);
    }
    var sections := ParseSections(existing);
    if sections.None? { return None; }
    NoNewlineAtEnd(existing, id);
    var found := FindSection(sections.value, id);
    if found.Some? {
      var out, _ := ReplaceSection(existing, found.value, block.value);
      return Some(out);
    }
    var appended := AppendGatewayBlock(existing, block.value);
    r := Some(appended);
  }

  /** ReadAndMerge, without the preview text. */
  method ReadAndMerge(existing: string, g: Gateway, isPrint: char -> bool) returns (r: Option<string>)
    ensures r.Some? <==> Parses(existing) && Renderable(g)
    ensures r.Some? ==>
              r.value == Merge(existing, GatewayID(g.name), Terminate(BlockLines(GatewayID(g.name), g, isPrint)))
  {
    hide Terminate, BlockLines, Append, Parses, Renderable, TrimSpace, OnlyBare;
    var sections := ParseSections(existing);
    if sections.None? { return None; }
    var id := CodexIDOf(g.name);
    if id == "" { id := "cordum_gateway"; }
    var replacing := false;
    assert sections.value[..0] == [];
    for i := 0 to |sections.value|
      invariant replacing <==> exists k :: 0 <= k < i && sections.value[k].id == id
    {
      if sections.value[i].id == id { replacing := true; }
    }
    FindExists(sections.value, id);
    r := RenderMerged(existing, id, g, replacing, isPrint);
  }

  lemma {:induction false} FindExists(ss: seq<Section>, id: string)
    ensures Find(ss, id).Some? <==> exists k :: 0 <= k < |ss| && ss[k].id == id
  {
    if ss != [] {
      FindExists(ss[1..], id);
      if k :| 0 <= k < |ss| && ss[k].id == id {
        if k > 0 { assert ss[1..][k - 1] == ss[k]; }
      }
    }
  }

  // ---------------------------------------------------------------- what the adapter promises

  /** The text a successful ReadAndMerge returns. */
  ghost function Merged(existing: string, g: Gateway, isPrint: char -> bool): string
    requires g.command != []
  {
    IDIsBare(g.name);
    Merge(existing, GatewayID(g.name), Terminate(BlockLines(GatewayID(g.name), g, isPrint)))
  }

  /** For every config that parses and every gateway that can be rendered: the result parses, a
      second merge returns the same text, and every section header of the config is kept in order;
      the gateway's own is added at the end if it was not there. */
  lemma MergeTwice(existing: string, g: Gateway, isPrint: char -> bool)
    requires Parses(existing) && Renderable(g)
    ensures var once := Merged(existing, g, isPrint);
            && Parses(once)
            && Merged(once, g, isPrint) == once
            && HeaderIds(Split(once)) ==
                 HeaderIds(Split(existing))
                   + (if Find(Sections(existing), GatewayID(g.name)).Some? then [] else [GatewayID(g.name)])
  {
    hide Terminate, BlockLines, Merge, Parses, HeaderIds, Split, Find, Sections, GatewayID, IsBlock;
    IDIsBare(g.name);
    RenderedIsBlock(g, isPrint);
    var id, block := GatewayID(g.name), BlockLines(GatewayID(g.name), g, isPrint);
    MergeIdempotent(existing, id, block);
    MergedParses(existing, id, block);
    SectionsKept(existing, id, block);
  }
}
