/**
 Reading back what the Codex adapter writes (cmd/cordumctl/mcp_adapter_codex.go): the gateway's section of
 a merged config, line by line. Strings are read with the escapes of Go, which the adapter writes, or
 with those of TOML 1.0, which is what Codex reads.
 */
module CodexReader {
  import opened Wrappers
  import opened Text
  import opened Codex
  import opened CodexAdapter
  import opened CodexKept

  datatype Escapes = GoEscapes | TomlEscapes

  // ---------------------------------------------------------------- strings

  function HexValue(c: char): Option<nat> {
    if '0' <= c <= '9' then Some(c as int - '0' as int)
    else if 'a' <= c <= 'f' then Some(c as int - 'a' as int + 10)
    else if 'A' <= c <= 'F' then Some(c as int - 'A' as int + 10)
    else None
  }

  function HexNumber(s: string): Option<nat> {
    if s == "" then Some(0)
    else
      var high, low := HexNumber(s[..|s| - 1]), HexValue(s[|s| - 1]);
      if high.Some? && low.Some? then Some(high.value * 16 + low.value) else None
  }

  /** A character given by its number in `digits` hex digits after the escape. */
  function ReadNumber(s: string, digits: nat): Option<(char, string)> {
    if |s| < 2 + digits then None
    else
      var n := HexNumber(s[2..2 + digits]);
      if n.Some? && (n.value < 0xD800 || 0xE000 <= n.value < 0x11_0000) then Some((n.value as char, s[2 + digits..]))
      else None
  }

  /** One character of a quoted string. */
  function ReadChar(s: string, e: Escapes): Option<(char, string)> {
    if s == "" || s[0] == '\"' then None
    else if s[0] != '\\' then
      if (s[0] < ' ' && s[0] != '\t') || s[0] == '\U{007F}' then None else Some((s[0], s[1..]))
    else if |s| < 2 then None
    else match s[1]
    case '\"' => Some(('\"', s[2..]))
    case '\\' => Some(('\\', s[2..]))
    case 'b' => Some(('\U{0008}', s[2..]))
    case 't' => Some(('\t', s[2..]))
    case 'n' => Some(('\n', s[2..]))
    case 'f' => Some(('\U{000C}', s[2..]))
    case 'r' => Some(('\r', s[2..]))
    case 'u' => ReadNumber(s, 4)
    case 'U' => ReadNumber(s, 8)
    case 'a' => if e.GoEscapes? then Some(('\U{0007}', s[2..])) else None
    case 'v' => if e.GoEscapes? then Some(('\U{000B}', s[2..])) else None
    case 'x' => if e.GoEscapes? then ReadNumber(s, 2) else None
    case _ => None
  }

  lemma ReadShrinks(s: string, e: Escapes)
    ensures ReadChar(s, e).Some? ==> |ReadChar(s, e).value.1| < |s|
  {}

  /** A string body up to and including its closing quote. */
  function ReadChars(s: string, e: Escapes): (r: Option<(string, string)>)
    ensures r.Some? ==> |r.value.1| < |s|
    decreases |s|
  {
    if s == "" then None
    else if s[0] == '\"' then Some(("", s[1..]))
    else
      ReadShrinks(s, e);
      var c := ReadChar(s, e);
      if c.None? then None
      else
        var rest := ReadChars(c.value.1, e);
        if rest.None? then None else Some(([c.value.0] + rest.value.0, rest.value.1))
  }

  function Unquote(s: string, e: Escapes): (r: Option<(string, string)>)
    ensures r.Some? ==> |r.value.1| < |s|
  {
    if s == "" || s[0] != '\"' then None else ReadChars(s[1..], e)
  }

  // ---------------------------------------------------------------- lists and lines

  /** The items of a list up to and including its closing bracket. */
  function ReadItems(s: string, e: Escapes): Option<(seq<string>, string)>
    decreases |s|
  {
    var item := Unquote(s, e);
    if item.None? then None
    else
      var rest := item.value.1;
      if rest != "" && rest[0] == ']' then Some(([item.value.0], rest[1..]))
      else if ", " <= rest then
        var more := ReadItems(rest[2..], e);
        if more.None? then None else Some(([item.value.0] + more.value.0, more.value.1))
      else None
  }

  /** A server section; what no line says is missing, empty or false. */
  datatype Server = Server(
    id: string, command: Option<string>, args: seq<string>, secret: Option<string>, enabled: bool)

  const SECRET := "{ CORDUM_AUTH_SECRET_REF = "

  /** The key before " = " and the value after it. */
  function KeyValue(line: string): Option<(string, string)> {
    var i := IndexOf(line, ' ');
    if i + 3 <= |line| && line[i..i + 3] == " = " then Some((line[..i], line[i + 3..])) else None
  }

  function ReadValue(acc: Server, key: string, value: string, e: Escapes): Option<Server> {
    match key
    case "command" =>
      var s := Unquote(value, e);
      if s.Some? && s.value.1 == "" then Some(acc.(command := Some(s.value.0))) else None
    case "args" =>
      if value == "" || value[0] != '[' then None
      else
        var items := ReadItems(value[1..], e);
        if items.Some? && items.value.1 == "" then Some(acc.(args := items.value.0)) else None
    case "env" =>
      if !(SECRET <= value) then None
      else
        var s := Unquote(value[|SECRET|..], e);
        if s.Some? && s.value.1 == " }" then Some(acc.(secret := Some(s.value.0))) else None
    case "enabled" => if value == "true" then Some(acc.(enabled := true)) else None
    case _ => None
  }

  function ReadLine(acc: Server, line: string, e: Escapes): Option<Server> {
    if line == "" then Some(acc)
    else
      var kv := KeyValue(line);
      if kv.None? then None else ReadValue(acc, kv.value.0, kv.value.1, e)
  }

  function ReadLines(acc: Server, ls: seq<string>, e: Escapes): Option<Server>
    decreases |ls|
  {
    if ls == [] then Some(acc)
    else
      var next := ReadLine(acc, ls[0], e);
      if next.None? then None else ReadLines(next.value, ls[1..], e)
  }

  /** A section: a header, and lines that are empty or give a value. */
  function ReadSection(text: string, e: Escapes): Option<Server> {
    var ls := Split(text);
    if Id(ls[0]) == "" then None else ReadLines(Server(Id(ls[0]), None, [], None, false), ls[1..], e)
  }

  // ---------------------------------------------------------------- quoting is read back

  function Pow16(digits: nat): nat {
    if digits == 0 then 1 else 16 * Pow16(digits - 1)
  }

  lemma {:induction false} HexReadBack(n: nat, digits: nat)
    requires n < Pow16(digits)
    ensures |Hex(n, digits)| == digits && HexNumber(Hex(n, digits)) == Some(n)
  {
    if digits > 0 {
      HexReadBack(n / 16, digits - 1);
      DigitReadBack(n % 16);
      var h := Hex(n, digits);
      assert h[..|h| - 1] == Hex(n / 16, digits - 1);
    }
  }

  lemma DigitReadBack(n: nat)
    requires n < 16
    ensures HexValue(HEX[n]) == Some(n)
  {}

  lemma NumberReadBack(c: char, escape: char, digits: nat, rest: string)
    requires (c as int) < Pow16(digits)
    ensures ReadNumber(['\\', escape] + Hex(c as int, digits) + rest, digits) == Some((c, rest))
  {
    HexReadBack(c as int, digits);
    var s := ['\\', escape] + Hex(c as int, digits) + rest;
    assert s[2..2 + digits] == Hex(c as int, digits) && s[2 + digits..] == rest;
  }

  /** Characters that TOML can name: the adapter writes the others as \a, \v or \x. */
  predicate TomlChar(c: char) {
    c in {'\U{0008}', '\t', '\n', '\U{000C}', '\r'} || (' ' <= c && c != '\U{007F}')
  }

  predicate Readable(s: string, e: Escapes) {
    e.GoEscapes? || forall i :: 0 <= i < |s| ==> TomlChar(s[i])
  }

  lemma CharReadBack(c: char, isPrint: char -> bool, rest: string, e: Escapes)
    ensures QuoteChar(c, isPrint) != "" && QuoteChar(c, isPrint)[0] != '\"'
    ensures ReadChar(QuoteChar(c, isPrint) + rest, e) == if e.GoEscapes? || TomlChar(c) then Some((c, rest)) else None
  {
    hide Hex, ReadNumber;
    var q := QuoteChar(c, isPrint);
    var s := q + rest;
    assert Pow16(2) == 256 && Pow16(4) == 0x1_0000 && Pow16(8) == 0x1_0000_0000 by { Powers(); }
    if c <= '\U{007F}' { NumberReadBack(c, 'x', 2, rest); }
    if (c as int) < 0x1_0000 { NumberReadBack(c, 'u', 4, rest); }
    NumberReadBack(c, 'U', 8, rest);
    assert |q| == 1 ==> s[1..] == rest;
    assert |q| == 2 ==> s[2..] == rest;
    assert s[0] == q[0];
  }

  lemma Powers()
    ensures Pow16(2) == 256 && Pow16(4) == 0x1_0000 && Pow16(8) == 0x1_0000_0000
  {
    assert Pow16(1) == 16;
    assert Pow16(3) == 4096;
    assert Pow16(5) == 0x10_0000;
    assert Pow16(6) == 0x100_0000;
    assert Pow16(7) == 0x1000_0000;
  }

  lemma {:induction false} CharsReadBack(s: string, isPrint: char -> bool, rest: string, e: Escapes)
    ensures ReadChars(QuoteChars(s, isPrint) + "\"" + rest, e) == if Readable(s, e) then Some((s, rest)) else None
    decreases |s|
  {
    hide QuoteChar, ReadChar, TomlChar;
    if s == "" {
      assert QuoteChars(s, isPrint) + "\"" + rest == "\"" + rest;
    } else {
      var tail := QuoteChars(s[1..], isPrint) + "\"" + rest;
      var t := QuoteChar(s[0], isPrint) + tail;
      CharsReadBack(s[1..], isPrint, rest, e);
      CharReadBack(s[0], isPrint, tail, e);
      assert QuoteChars(s, isPrint) + "\"" + rest == t;
      assert t[0] == QuoteChar(s[0], isPrint)[0];
      assert s == [s[0]] + s[1..];
      assert Readable(s, e) <==> (e.GoEscapes? || TomlChar(s[0])) && Readable(s[1..], e);
    }
  }

  /** Every string is read back from its quoted form, whatever follows; with the escapes of TOML exactly
      those without the control characters that TOML has no short escape for. */
  lemma QuoteReadBack(s: string, isPrint: char -> bool, rest: string, e: Escapes)
    ensures Unquote(Quote(s, isPrint) + rest, e) == if Readable(s, e) then Some((s, rest)) else None
  {
    hide QuoteChars, ReadChars, Readable;
    CharsReadBack(s, isPrint, rest, e);
    var t := Quote(s, isPrint) + rest;
    assert t[0] == '\"' && t[1..] == QuoteChars(s, isPrint) + "\"" + rest;
  }

  // ---------------------------------------------------------------- the lines are read back

  predicate AllReadable(ss: seq<string>, e: Escapes) {
    forall i :: 0 <= i < |ss| ==> Readable(ss[i], e)
  }

  lemma {:induction false} ArgsCons(args: seq<string>, isPrint: char -> bool)
    requires args != []
    ensures Args(args, isPrint) ==
              Quote(args[0], isPrint) + (if |args| == 1 then "" else ", " + Args(args[1..], isPrint))
  {
    hide Quote;
    var n := |args| - 1;
    if n > 0 {
      ArgsCons(args[..n], isPrint);
      assert args[1..][..n - 1] == args[..n][1..];
      var mid := Args(args[..n][1..], isPrint);
      assert args[..n][0] == args[0] && args[1..][n - 1] == args[n];
      if n == 1 {
        assert args[1..] == [args[1]] && [args[1]][..0] == [];
      }
    } else {
      assert args[..0] == [];
    }
  }

  lemma {:induction false} ItemsReadBack(args: seq<string>, isPrint: char -> bool, rest: string, e: Escapes)
    requires args != []
    ensures ReadItems(Args(args, isPrint) + "]" + rest, e) == if AllReadable(args, e) then Some((args, rest)) else None
    decreases |args|
  {
    hide Quote, Args, Unquote, Readable;
    ArgsCons(args, isPrint);
    if |args| == 1 {
      QuoteReadBack(args[0], isPrint, "]" + rest, e);
      assert Args(args, isPrint) + "]" + rest == Quote(args[0], isPrint) + ("]" + rest);
      assert ("]" + rest)[1..] == rest && args == [args[0]];
    } else {
      var tail := Args(args[1..], isPrint) + "]" + rest;
      ItemsReadBack(args[1..], isPrint, rest, e);
      QuoteReadBack(args[0], isPrint, ", " + tail, e);
      assert Args(args, isPrint) + "]" + rest == Quote(args[0], isPrint) + (", " + tail);
      assert (", " + tail)[2..] == tail && args == [args[0]] + args[1..];
      assert AllReadable(args, e) <==> Readable(args[0], e) && AllReadable(args[1..], e);
    }
  }

  lemma KeyValueIs(key: string, value: string)
    requires ' ' !in key
    ensures KeyValue(key + " = " + value) == Some((key, value))
  {
    var line := key + " = " + value;
    assert line[|key|] == ' ' && forall k :: 0 <= k < |key| ==> line[k] == key[k];
    assert IndexOf(line, ' ') == |key|;
    assert line[|key|..|key| + 3] == " = " && line[..|key|] == key && line[|key| + 3..] == value;
  }

  lemma CommandReadBack(acc: Server, g: Gateway, isPrint: char -> bool, e: Escapes)
    requires g.command != []
    ensures ReadLine(acc, CommandLine(g, isPrint), e) ==
              if Readable(g.command[0], e) then Some(acc.(command := Some(g.command[0]))) else None
  {
    hide Quote, Unquote, Readable, KeyValue;
    var q := Quote(g.command[0], isPrint);
    KeyValueIs("command", q);
    assert CommandLine(g, isPrint) == "command" + " = " + q;
    QuoteReadBack(g.command[0], isPrint, "", e);
    assert q + "" == q;
  }

  lemma ArgsReadBack(acc: Server, g: Gateway, isPrint: char -> bool, e: Escapes)
    requires |g.command| > 1
    ensures ReadLine(acc, ArgsLine(g, isPrint), e) ==
              if AllReadable(g.command[1..], e) then Some(acc.(args := g.command[1..])) else None
  {
    hide Quote, Args, ReadItems, AllReadable, KeyValue;
    var args := g.command[1..];
    var list := Args(args, isPrint) + "]" + "";
    KeyValueIs("args", "[" + list);
    assert ArgsLine(g, isPrint) == "args" + " = " + ("[" + list);
    ItemsReadBack(args, isPrint, "", e);
    assert ("[" + list)[1..] == list;
  }

  lemma EnvReadBack(acc: Server, g: Gateway, isPrint: char -> bool, e: Escapes)
    ensures ReadLine(acc, EnvLine(g, isPrint), e) ==
              if Readable(g.authSecretRef, e) then Some(acc.(secret := Some(g.authSecretRef))) else None
  {
    hide Quote, Unquote, Readable, KeyValue;
    var q := Quote(g.authSecretRef, isPrint) + " }";
    var value := SECRET + q;
    KeyValueIs("env", value);
    assert EnvLine(g, isPrint) == "env" + " = " + value;
    QuoteReadBack(g.authSecretRef, isPrint, " }", e);
    assert value[|SECRET|..] == q;
  }

  lemma EnabledReadBack(acc: Server, e: Escapes)
    ensures ReadLine(acc, "enabled = true", e) == Some(acc.(enabled := true))
  {
    hide KeyValue;
    KeyValueIs("enabled", "true");
    assert "enabled = true" == "enabled" + " = " + "true";
  }

  // ---------------------------------------------------------------- the section is read back

  /** Everything quoted in the gateway's section is readable. */
  predicate GatewayReadable(g: Gateway, e: Escapes) {
    AllReadable(g.command, e) && Readable(g.authSecretRef, e)
  }

  /** The gateway as a server section should have it. */
  function ServerOf(g: Gateway): Server
    requires g.command != []
  {
    Server(GatewayID(g.name), Some(g.command[0]), g.command[1..],
           if g.authSecretRef == "" then None else Some(g.authSecretRef), true)
  }

  lemma ReadCons(acc: Server, line: string, ls: seq<string>, e: Escapes)
    ensures ReadLines(acc, [line] + ls, e) ==
              var next := ReadLine(acc, line, e);
              if next.None? then None else ReadLines(next.value, ls, e)
  {
    assert ([line] + ls)[1..] == ls;
  }

  lemma {:induction false} BlankLines(acc: Server, ls: seq<string>, e: Escapes)
    requires forall i :: 0 <= i < |ls| ==> ls[i] == ""
    ensures ReadLines(acc, ls, e) == Some(acc)
    decreases |ls|
  {
    if ls != [] { BlankLines(acc, ls[1..], e); }
  }

  lemma LinesReadBack(g: Gateway, isPrint: char -> bool, blank: seq<string>, e: Escapes)
    requires g.command != [] && forall i :: 0 <= i < |blank| ==> blank[i] == ""
    ensures var id := GatewayID(g.name);
            ReadLines(Server(id, None, [], None, false), BlockLines(id, g, isPrint)[1..] + blank, e) ==
              if GatewayReadable(g, e) then Some(ServerOf(g)) else None
  {
    hide ReadLine, ReadLines, Readable, GatewayID, HeaderLine, CommandLine, ArgsLine, EnvLine;
    var id := GatewayID(g.name);
    var s0 := Server(id, None, [], None, false);
    var s1 := s0.(command := Some(g.command[0]));
    var s2 := s1.(args := g.command[1..]);
    var s3 := if g.authSecretRef != "" then s2.(secret := Some(g.authSecretRef)) else s2;
    var l3 := ["enabled = true"] + blank;
    var l2 := if g.authSecretRef != "" then [EnvLine(g, isPrint)] + l3 else l3;
    var l1 := if |g.command| > 1 then [ArgsLine(g, isPrint)] + l2 else l2;
    assert BlockLines(id, g, isPrint)[1..] + blank == [CommandLine(g, isPrint)] + l1;
    ReadCons(s0, CommandLine(g, isPrint), l1, e);
    CommandReadBack(s0, g, isPrint, e);
    if |g.command| > 1 {
      ReadCons(s1, ArgsLine(g, isPrint), l2, e);
      ArgsReadBack(s1, g, isPrint, e);
    }
    if g.authSecretRef != "" {
      ReadCons(s2, EnvLine(g, isPrint), l3, e);
      EnvReadBack(s2, g, isPrint, e);
    }
    ReadCons(s3, "enabled = true", blank, e);
    EnabledReadBack(s3, e);
    BlankLines(s3.(enabled := true), blank, e);
    assert |g.command| == 1 ==> g.command[1..] == [];
    assert g.authSecretRef == "" ==> Readable(g.authSecretRef, e) by { NothingToRead(e); }
    assert AllReadable(g.command, e) <==> Readable(g.command[0], e) && AllReadable(g.command[1..], e);
  }

  lemma NothingToRead(e: Escapes)
    ensures Readable("", e)
  {}

  /** The text of a rendered block, with or without an empty line after it. */
  lemma BlockReadBack(g: Gateway, isPrint: char -> bool, more: bool, e: Escapes)
    requires Renderable(g)
    ensures ReadSection(Terminate(BlockLines(GatewayID(g.name), g, isPrint)) + (if more then "\n" else ""), e) ==
              if GatewayReadable(g, e) then Some(ServerOf(g)) else None
  {
    hide Split, Join, Terminate, GatewayID, BlockLines, ReadLines, Id, GatewayReadable, Renderable;
    assert g.command != [] by { RenderableHasCommand(g); }
    var block := BlockLines(GatewayID(g.name), g, isPrint);
    var blank := if more then ["", ""] else [""];
    IDIsBare(g.name);
    RenderedIsBlock(g, isPrint);
    TerminateIsJoin(block);
    if more {
      TerminateIsJoin(block + [""]);
      TerminateSnoc(block, "");
      assert block + [""] + [""] == block + blank;
      assert Terminate(block) + "" + "\n" == Terminate(block) + "\n";
    } else {
      assert Terminate(block) + "" == Terminate(block);
    }
    SplitJoin(block + blank);
    assert (block + blank)[0] == block[0] && (block + blank)[1..] == block[1..] + blank;
    LinesReadBack(g, isPrint, blank, e);
  }

  lemma RenderableHasCommand(g: Gateway)
    requires Renderable(g)
    ensures g.command != []
  {}

  /** For every config and every gateway that can be rendered: in the merged config, the gateway's section
      reads back as its ID, its command, the arguments after that, its secret reference if it has one,
      and enabled. With the escapes of TOML that is so if and only if no string in it holds a control
      character other than \b, \t, \n, \f and \r. */
  lemma MergedReadsBack(existing: string, g: Gateway, isPrint: char -> bool, e: Escapes)
    requires Renderable(g)
    ensures var once := Merged(existing, g, isPrint);
            var m := Find(Sections(once), GatewayID(g.name));
            && m.Some? && m.value.start <= m.value.end <= |once|
            && ReadSection(once[m.value.start..m.value.end], e) ==
                 if GatewayReadable(g, e) then Some(ServerOf(g)) else None
  {
    hide Split, Join, Terminate, Sections, Find, GatewayID, BlockLines, IsBlock, MergeLines, FirstWith, NextHeader,
      Merge, StripEmpty, IsHeader, Id, Renderable, ReadSection, GatewayReadable;
    assert g.command != [] by { RenderableHasCommand(g); }
    var id, block := GatewayID(g.name), BlockLines(GatewayID(g.name), g, isPrint);
    IDIsBare(g.name);
    RenderedIsBlock(g, isPrint);
    var once := Merged(existing, g, isPrint);
    SplitMerged(existing, id, block);
    var front, tail := MergeShape(Split(existing), id, block);
    JoinSplit(once);
    SectionIsBlock(once, front, block, tail, id);
    BlockReadBack(g, isPrint, tail != [], e);
  }

  /** A bell in an argument is written as \a, which TOML cannot read. */
  lemma BellIsUnreadable(existing: string, isPrint: char -> bool)
    ensures var g := Gateway("g", "stdio", ["c", "\U{0007}"], "");
            && Renderable(g)
            && var once := Merged(existing, g, isPrint);
               var m := Find(Sections(once), GatewayID("g"));
               && m.Some? && m.value.start <= m.value.end <= |once|
               && ReadSection(once[m.value.start..m.value.end], GoEscapes) == Some(ServerOf(g))
               && ReadSection(once[m.value.start..m.value.end], TomlEscapes) == None
  {
    var g := Gateway("g", "stdio", ["c", "\U{0007}"], "");
    assert Renderable(g) by { assert TrimSpace("stdio") == "stdio" && Lower("stdio") == "stdio"; }
    hide Renderable, Merged, Find, Sections, ReadSection, GatewayID;
    MergedReadsBack(existing, g, isPrint, GoEscapes);
    MergedReadsBack(existing, g, isPrint, TomlEscapes);
    assert !TomlChar(g.command[1][0]) && !Readable(g.command[1], TomlEscapes);
  }

  lemma SectionIsBlock(once: string, front: seq<string>, block: seq<string>, tail: seq<string>, id: string)
    requires id != "" && IsBlock(block, id) && Split(once) == front + block + [""] + tail
    requires forall j :: 0 <= j < |front| ==> Id(front[j]) != id
    requires tail != [] ==> IsHeader(tail[0])
    ensures var m := Find(Sections(once), id);
            && m.Some? && m.value.start <= m.value.end <= |once|
            && once[m.value.start..m.value.end] == Terminate(block) + (if tail == [] then "" else "\n")
  {
    hide Split, Join, Terminate, Find, SectionsFrom, IsBlock, IsHeader, Id;
    JoinSplit(once);
    SectionOf(front, block, tail, id);
    TerminateConcat(front, block);
    var start, end := |Terminate(front)|, |Terminate(front + block)|;
    assert once[..end] == Terminate(front + block);
    assert once[start..end] == Terminate(block);
  }
}
