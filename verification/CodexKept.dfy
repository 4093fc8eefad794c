/**
 What a merge keeps of a Codex config (cmd/cordumctl/mcp_adapter_codex.go): the text around the
 gateway's section, and the operator's comments.
 */
module CodexKept {
  import opened Wrappers
  import opened Text
  import opened Codex
  import opened CodexAdapter

  // ---------------------------------------------------------------- the text around the section

  /** Where the server's section lies in merged lines, in characters. */
  lemma SectionOf(front: seq<string>, block: seq<string>, tail: seq<string>, id: string)
    requires id != "" && IsBlock(block, id)
    requires forall j :: 0 <= j < |front| ==> Id(front[j]) != id
    requires tail != [] ==> IsHeader(tail[0])
    ensures var ls := front + block + [""] + tail;
            var end := |Terminate(front + block)| + (if tail == [] then 0 else 1);
            && Find(SectionsFrom(ls, 0), id) == Some(Section(id, |Terminate(front)|, end))
            && Join(ls) == Terminate(front + block) + (if tail == [] then "" else "\n" + Join(tail))
  {
    hide IsHeader, Id, Malformed, FirstWith, NextHeader, SectionsFrom, Find, Join, Terminate;
    var ls := front + block + [""] + tail;
    MergedSection(front, block, tail, id);
    FindIsFirst(ls, id, 0);
    assert ls[..|front|] == front;
    TerminateIsJoin(front + block);
    if tail == [] {
      assert ls == front + block + [""];
    } else {
      assert ls[..|front| + |block| + 1] == front + block + [""];
      TerminateSnoc(front + block, "");
      JoinConcat(front + block + [""], tail);
      assert Terminate(front + block) + "" + "\n" + Join(tail) == Terminate(front + block) + ("\n" + Join(tail));
    }
  }

  /** The text before a section and the text from its end on. */
  function Before(text: string, sec: Section): string
    requires sec.start <= |text|
  {
    text[..sec.start]
  }

  function After(text: string, sec: Section): string
    requires sec.end <= |text|
  {
    text[sec.end..]
  }

  /** The section of lines split at `front` and `tail`. */
  lemma Around(ls: seq<string>, k: nat)
    requires k < |ls|
    ensures var j := NextHeader(ls, k + 1);
            && Offset(ls, k) <= Offset(ls, j) <= |Join(ls)|
            && Join(ls)[..Offset(ls, k)] == Terminate(ls[..k])
            && Join(ls)[Offset(ls, j)..] == Join(ls[j..])
  {
    hide NextHeader, Join, Terminate;
    var j := NextHeader(ls, k + 1);
    SectionFits(ls, k);
    CutAt(ls, k);
    if j < |ls| {
      CutAt(ls, j);
    } else {
      assert ls[j..] == [] && Offset(ls, j) == |Join(ls)|;
      assert Join([]) == "" by { EmptyJoin(); }
    }
  }

  lemma EmptyJoin()
    ensures Join([]) == ""
  {}

  /** Reading the merged text back: it has a section of the gateway; what stands before that section
      and from its end on is what stood around the old one; without an old one it is the old text
      without the newlines at its end, and nothing. */
  lemma MergeKeepsRest(existing: string, g: Gateway, isPrint: char -> bool)
    requires Renderable(g)
    ensures var id, once := GatewayID(g.name), Merged(existing, g, isPrint);
            var f, m := Find(Sections(existing), id), Find(Sections(once), id);
            && m.Some? && m.value.start <= m.value.end <= |once|
            && (f.Some? ==>
                  && f.value.start <= f.value.end <= |existing|
                  && Before(once, m.value) == Before(existing, f.value)
                  && After(once, m.value) == After(existing, f.value))
            && (f.None? ==>
                  && After(once, m.value) == ""
                  && TrimNewlines(Before(once, m.value)) == TrimNewlines(existing))
  {
    hide Split, Join, Terminate, Sections, Find, GatewayID, TrimNewlines, BlockLines, IsBlock, MergeLines, FirstWith,
      NextHeader, Merge, StripEmpty, IsHeader, Id;
    var id, block := GatewayID(g.name), BlockLines(GatewayID(g.name), g, isPrint);
    IDIsBare(g.name);
    RenderedIsBlock(g, isPrint);
    var once := Merged(existing, g, isPrint);
    var ls := Split(existing);
    JoinSplit(existing);
    SplitMerged(existing, id, block);
    var front, tail := MergeShape(ls, id, block);
    JoinSplit(once);
    MergedAround(once, front, block, tail, id);
    FoundIn(existing, id);
    var k := FirstWith(ls, id, 0);
    if k < |ls| {
      Around(ls, k);
    } else {
      AppendedFront(ls, front);
      EmptyJoin();
    }
  }

  lemma FoundIn(text: string, id: string)
    requires id != ""
    ensures var ls := Split(text);
            var k := FirstWith(ls, id, 0);
            Find(Sections(text), id) ==
              if k == |ls| then None else Some(Section(id, Offset(ls, k), Offset(ls, NextHeader(ls, k + 1))))
  {
    FindIsFirst(Split(text), id, 0);
  }

  lemma MergedAround(once: string, front: seq<string>, block: seq<string>, tail: seq<string>, id: string)
    requires id != "" && IsBlock(block, id) && Split(once) == front + block + [""] + tail && Join(Split(once)) == once
    requires forall j :: 0 <= j < |front| ==> Id(front[j]) != id
    requires tail != [] ==> IsHeader(tail[0])
    ensures var m := Find(Sections(once), id);
            && m.Some? && m.value.start <= m.value.end <= |once|
            && Before(once, m.value) == Terminate(front) && After(once, m.value) == Join(tail)
  {
    hide Split, SectionsFrom, Find, IsBlock, IsHeader, Id;
    SectionOf(front, block, tail, id);
    TerminateConcat(front, block);
    EmptyJoin();
    hide Terminate, Join;
  }

  lemma AppendedFront(ls: seq<string>, front: seq<string>)
    requires ls != [] && Clean(ls) && front == (if StripEmpty(ls) == [] then [] else StripEmpty(ls) + [""])
    ensures TrimNewlines(Terminate(front)) == TrimNewlines(Join(ls))
  {
    hide Join, Terminate;
    TrimIsStrip(ls);
    var s := StripEmpty(ls);
    if s == [] {
      assert Terminate([]) == "" by { NoLines(); }
      EmptyJoin();
    } else {
      TerminateLast(s);
      TerminateSnoc(s, "");
      var text := Join(s);
      assert Terminate(front) == text + "\n" + "\n";
      TrimTwo(text);
      TrimTrims(Join(ls));
    }
  }

  lemma TrimTwo(text: string)
    ensures TrimNewlines(text + "\n" + "\n") == TrimNewlines(text)
  {
    assert (text + "\n" + "\n")[..|text| + 1] == text + "\n" && (text + "\n")[..|text|] == text;
  }

  lemma {:induction false} TrimTrims(text: string)
    ensures TrimNewlines(TrimNewlines(text)) == TrimNewlines(text)
  {
    if text != "" && text[|text| - 1] == '\n' { TrimTrims(text[..|text| - 1]); }
  }

  // ---------------------------------------------------------------- comments

  predicate IsComment(line: string) {
    TrimSpace(line) != "" && TrimSpace(line)[0] == '#'
  }

  function Comments(ls: seq<string>): seq<string> {
    if ls == [] then []
    else if IsComment(ls[0]) then [ls[0]] + Comments(ls[1..])
    else Comments(ls[1..])
  }

  lemma {:induction false} CommentsConcat(a: seq<string>, b: seq<string>)
    ensures Comments(a + b) == Comments(a) + Comments(b)
    decreases |a|
  {
    hide IsComment;
    if a == [] {
      assert a + b == b;
    } else {
      CommentsConcat(a[1..], b);
      assert (a + b)[1..] == a[1..] + b;
    }
  }

  lemma {:induction false} NoComments(ls: seq<string>)
    ensures Comments(ls) == [] <==> forall i :: 0 <= i < |ls| ==> !IsComment(ls[i])
  {
    hide IsComment;
    if ls != [] {
      NoComments(ls[1..]);
      assert forall i :: 1 <= i < |ls| ==> ls[i] == ls[1..][i - 1];
      assert forall i :: 0 <= i < |ls[1..]| ==> ls[1..][i] == ls[i + 1];
    }
  }

  lemma {:induction false} StripKeepsComments(ls: seq<string>)
    ensures Comments(StripEmpty(ls)) == Comments(ls)
  {
    hide IsComment;
    if ls != [] && ls[|ls| - 1] == "" {
      var n := |ls| - 1;
      StripKeepsComments(ls[..n]);
      CommentsConcat(ls[..n], [""]);
      assert ls == ls[..n] + [""];
      EmptyIsNoComment();
    }
  }

  lemma EmptyIsNoComment()
    ensures !IsComment("") && Comments([""]) == []
  {
    NoComments([""]);
  }

  lemma NotAComment(line: string)
    requires line != "" && ('a' <= line[0] <= 'z' || line[0] == '[')
    ensures !IsComment(line)
  {
    TrimRightPrefix(line);
  }

  lemma HeaderIsNoComment(line: string)
    requires IsHeader(line)
    ensures !IsComment(line)
  {}

  lemma BlockHasNoComments(id: string, g: Gateway, isPrint: char -> bool)
    requires g.command != []
    ensures Comments(BlockLines(id, g, isPrint)) == []
  {
    hide Quote, Args, IsComment, Comments;
    NotAComment(HeaderLine(id));
    NotAComment(CommandLine(g, isPrint));
    NotAComment(ArgsLine(g, isPrint));
    NotAComment(EnvLine(g, isPrint));
    NotAComment("enabled = true");
    NoComments(BlockLines(id, g, isPrint));
  }

  /** No comment stands between the gateway's header and the next one. */
  ghost predicate NoneInside(ls: seq<string>, id: string) {
    var k := FirstWith(ls, id, 0);
    k < |ls| ==> forall i :: k < i < NextHeader(ls, k + 1) ==> !IsComment(ls[i])
  }

  lemma CommentsAround(front: seq<string>, block: seq<string>, tail: seq<string>)
    requires Comments(block) == []
    ensures Comments(front + block + [""] + tail) == Comments(front) + Comments(tail)
  {
    hide Comments, IsComment;
    EmptyIsNoComment();
    CommentsConcat(front + block + [""], tail);
    CommentsConcat(front + block, [""]);
    CommentsConcat(front, block);
    assert Comments(front) + [] + [] == Comments(front);
  }

  lemma {:induction false} OldComments(ls: seq<string>, id: string, k: nat)
    requires k < |ls| && IsHeader(ls[k])
    ensures var j := NextHeader(ls, k + 1);
            && Comments(ls) == Comments(ls[..k]) + Comments(ls[k + 1..j]) + Comments(ls[j..])
            && (Comments(ls[k + 1..j]) == [] <==> forall i :: k < i < j ==> !IsComment(ls[i]))
  {
    hide Comments, IsComment, NextHeader, IsHeader;
    var j := NextHeader(ls, k + 1);
    var front, inside, tail := ls[..k], ls[k + 1..j], ls[j..];
    assert ls == front + [ls[k]] + inside + tail by { CutAround(ls, k, j); }
    FourParts(front, ls[k], inside, tail);
    NoneBetween(ls, k + 1, j);
  }

  lemma CutAround<T>(s: seq<T>, k: nat, j: nat)
    requires k < j <= |s|
    ensures s == s[..k] + [s[k]] + s[k + 1..j] + s[j..]
  {}

  lemma FourParts(front: seq<string>, header: string, inside: seq<string>, tail: seq<string>)
    requires IsHeader(header)
    ensures Comments(front + [header] + inside + tail) == Comments(front) + Comments(inside) + Comments(tail)
  {
    hide Comments, IsComment, IsHeader;
    HeaderIsNoComment(header);
    NoComments([header]);
    CommentsConcat(front + [header] + inside, tail);
    CommentsConcat(front + [header], inside);
    CommentsConcat(front, [header]);
    assert Comments(front) + [] == Comments(front);
  }

  lemma NoneBetween(ls: seq<string>, i: nat, j: nat)
    requires i <= j <= |ls|
    ensures Comments(ls[i..j]) == [] <==> forall k :: i - 1 < k < j ==> !IsComment(ls[k])
  {
    hide Comments, IsComment;
    var inside := ls[i..j];
    NoComments(inside);
    if Comments(inside) == [] {
      forall k | i <= k < j ensures !IsComment(ls[k]) { assert ls[k] == inside[k - i]; }
    } else {
      var m :| 0 <= m < |inside| && IsComment(inside[m]);
      assert IsComment(ls[i + m]);
    }
  }

  lemma MiddleIsEmpty<T>(a: seq<T>, b: seq<T>, c: seq<T>)
    ensures a + b + c == a + c <==> b == []
  {
    if b == [] { assert a + b == a; } else { assert |a + b + c| > |a + c|; }
  }

  /** For every config and every gateway that can be rendered: the merge keeps all comments, in
      order, if and only if none stands inside the gateway's old section, that is between its header
      and the next one. */
  lemma CommentsKept(existing: string, g: Gateway, isPrint: char -> bool)
    requires Renderable(g)
    ensures Comments(Split(Merged(existing, g, isPrint))) == Comments(Split(existing)) <==>
              NoneInside(Split(existing), GatewayID(g.name))
  {
    hide Split, Comments, IsComment, GatewayID, BlockLines, IsBlock, MergeLines, FirstWith, NextHeader, Merge,
      StripEmpty, IsHeader, ExtractMCPID;
    var id, block := GatewayID(g.name), BlockLines(GatewayID(g.name), g, isPrint);
    IDIsBare(g.name);
    RenderedIsBlock(g, isPrint);
    BlockHasNoComments(id, g, isPrint);
    var ls := Split(existing);
    SplitMerged(existing, id, block);
    var front, tail := MergeShape(ls, id, block);
    CommentsAround(front, block, tail);
    var k := FirstWith(ls, id, 0);
    if k < |ls| {
      OldComments(ls, id, k);
      MiddleIsEmpty(Comments(front), Comments(ls[k + 1..NextHeader(ls, k + 1)]), Comments(tail));
    } else {
      AppendedComments(ls, front);
      assert Comments([]) == [] by { NoComments([]); }
      assert Comments(front) + [] == Comments(front);
    }
  }

  lemma AppendedComments(ls: seq<string>, front: seq<string>)
    requires front == (if StripEmpty(ls) == [] then [] else StripEmpty(ls) + [""])
    ensures Comments(front) == Comments(ls)
  {
    hide Comments, IsComment;
    StripKeepsComments(ls);
    if StripEmpty(ls) != [] {
      CommentsConcat(StripEmpty(ls), [""]);
      EmptyIsNoComment();
      assert Comments(StripEmpty(ls)) + [] == Comments(StripEmpty(ls));
    }
  }

  /** A comment above the section that follows the gateway's is dropped when the gateway is merged
      again. */
  lemma CommentIsDropped(text: string, g: Gateway, isPrint: char -> bool)
    requires text == "[mcp_servers.g]\n#\n[o]\n" && g == Gateway("g", "stdio", ["c"], "")
    ensures Parses(text) && Renderable(g)
    ensures "#" in Comments(Split(text)) && Comments(Split(Merged(text, g, isPrint))) != Comments(Split(text))
  {
    hide Split, Merged, TrimSpace, Join, NextHeader, FirstWith, IsHeader, Id, Comments, IsComment, Lower;
    var ls := [HeaderLine("g"), "#", "[o]", ""];
    JoinUp(HeaderLine("g"), "#", "[o]", "");
    assert HeaderLine("g") == "[mcp_servers.g]";
    assert Join(ls) == text;
    SplitJoin(ls);
    ExampleLines();
    assert GatewayID("g") == "g" && Renderable(g) by { ExampleGateway(g); }
    FirstIs(ls, "g", 0);
    NextIs(ls, 1, 2);
    assert IsComment(ls[1]);
    CommentsKept(text, g, isPrint);
    CommentIn(ls, 1);
  }

  lemma {:induction false} CommentIn(ls: seq<string>, i: nat)
    requires i < |ls| && IsComment(ls[i])
    ensures ls[i] in Comments(ls)
  {
    hide IsComment;
    if i > 0 { CommentIn(ls[1..], i - 1); }
  }

  lemma ExampleLines()
    ensures Id(HeaderLine("g")) == "g" && !IsHeader("#") && IsHeader("[o]") && IsComment("#")
    ensures !Malformed(HeaderLine("g")) && !Malformed("#") && !Malformed("[o]") && !Malformed("")
  {
    hide TrimSpace, ExtractMCPID;
    HeaderLineIsHeader("g");
    NotAHeader("#");
    TrimNothing("[o]");
    TrimNothing("#");
    EmptyIsNoHeader();
  }

  lemma ExampleGateway(g: Gateway)
    requires g == Gateway("g", "stdio", ["c"], "")
    ensures GatewayID("g") == "g" && Renderable(g)
  {
    TrimNothing("g");
    TrimNothing("stdio");
    hide TrimSpace;
    assert "g"[..0] == "" && OnlyBare("g") == "g";
    var s := "stdio";
    assert s[1..] == "tdio" && s[1..][1..] == "dio" && s[1..][1..][1..] == "io" && s[1..][1..][1..][1..] == "o";
    assert Lower("o") == "o" && Lower("io") == "io" && Lower("dio") == "dio" && Lower("tdio") == "tdio";
  }

  lemma JoinUp(a: string, b: string, c: string, d: string)
    ensures Join([a, b, c, d]) == a + "\n" + b + "\n" + c + "\n" + d
  {
    JoinConcat([a, b, c], [d]);
    TerminateSnoc([], a);
    TerminateSnoc([a], b);
    TerminateSnoc([a, b], c);
    assert [] + [a] == [a] && [a] + [b] == [a, b] && [a, b] + [c] == [a, b, c] && [a, b, c] + [d] == [a, b, c, d];
  }
}
