/**
 Merging the gateway's block into a Codex config.toml (cmd/cordumctl/mcp_adapter_codex.go). The
 source works with byte offsets; here the same merge is also given on lines, where it is plain, and
 the two are proved equal.
 */
module Codex {
  import opened Wrappers
  import opened Text

  // ---------------------------------------------------------------- text and lines

  function NewlineAt(s: string): (i: nat)
    ensures i <= |s| && (forall k :: 0 <= k < i ==> s[k] != '\n') && (i < |s| ==> s[i] == '\n')
  {
    if s == "" || s[0] == '\n' then 0 else 1 + NewlineAt(s[1..])
  }

  /** bytes.Split on newlines. */
  function Split(s: string): (ls: seq<string>)
    ensures ls != []
    decreases |s|
  {
    var i := NewlineAt(s);
    if i == |s| then [s] else [s[..i]] + Split(s[i + 1..])
  }

  function Join(ls: seq<string>): string {
    if ls == [] then "" else if |ls| == 1 then ls[0] else ls[0] + "\n" + Join(ls[1..])
  }

  /** Every line with its newline. */
  function Terminate(ls: seq<string>): string {
    if ls == [] then "" else ls[0] + "\n" + Terminate(ls[1..])
  }

  ghost predicate Clean(ls: seq<string>) {
    forall i :: 0 <= i < |ls| ==> '\n' !in ls[i]
  }

  lemma {:induction false} JoinSplit(s: string)
    ensures Join(Split(s)) == s && Clean(Split(s))
    decreases |s|
  {
    var i := NewlineAt(s);
    if i < |s| {
      JoinSplit(s[i + 1..]);
      assert Split(s)[1..] == Split(s[i + 1..]);
      assert s == s[..i] + "\n" + s[i + 1..];
    }
  }

  lemma NewlineHere(a: string, b: string)
    requires '\n' !in a
    ensures NewlineAt(a + "\n" + b) == |a| && NewlineAt(a) == |a|
  {
    var s := a + "\n" + b;
    assert s[|a|] == '\n' && forall k :: 0 <= k < |a| ==> s[k] == a[k];
  }

  lemma {:induction false} SplitJoin(ls: seq<string>)
    requires ls != [] && Clean(ls)
    ensures Split(Join(ls)) == ls
    decreases |ls|
  {
    if |ls| == 1 {
      NewlineHere(ls[0], "");
      assert ls == [ls[0]];
    } else {
      SplitJoin(ls[1..]);
      NewlineHere(ls[0], Join(ls[1..]));
      var s := Join(ls);
      assert s[..|ls[0]|] == ls[0] && s[|ls[0]| + 1..] == Join(ls[1..]);
      assert ls == [ls[0]] + ls[1..];
    }
  }

  lemma {:induction false} JoinConcat(a: seq<string>, b: seq<string>)
    requires b != []
    ensures Join(a + b) == Terminate(a) + Join(b)
    decreases |a|
  {
    if a == [] {
      assert a + b == b;
    } else {
      JoinConcat(a[1..], b);
      assert (a + b)[1..] == a[1..] + b;
    }
  }

  lemma {:induction false} TerminateConcat(a: seq<string>, b: seq<string>)
    ensures Terminate(a + b) == Terminate(a) + Terminate(b)
    decreases |a|
  {
    if a == [] {
      assert a + b == b;
    } else {
      TerminateConcat(a[1..], b);
      assert (a + b)[1..] == a[1..] + b;
    }
  }

  /** Where line k starts; past the last line, the end of the text. */
  function Offset(ls: seq<string>, k: nat): nat
    requires k <= |ls|
  {
    if k == |ls| then |Join(ls)| else |Terminate(ls[..k])|
  }

  /** Cutting the text where a line starts. */
  lemma CutAt(ls: seq<string>, k: nat)
    requires k < |ls|
    ensures Offset(ls, k) <= |Join(ls)|
    ensures Join(ls)[..Offset(ls, k)] == Terminate(ls[..k])
    ensures Join(ls)[Offset(ls, k)..] == Join(ls[k..])
  {
    JoinConcat(ls[..k], ls[k..]);
    assert ls[..k] + ls[k..] == ls;
  }

  lemma NextOffset(ls: seq<string>, k: nat)
    requires k < |ls|
    ensures |Terminate(ls[..k + 1])| == |Terminate(ls[..k])| + |ls[k]| + 1
  {
    TerminateConcat(ls[..k], [ls[k]]);
    assert ls[..k + 1] == ls[..k] + [ls[k]];
    assert [ls[k]][1..] == [];
  }

  // ---------------------------------------------------------------- headers

  predicate IsHeader(line: string) {
    TrimSpace(line) != "" && TrimSpace(line)[0] == '['
  }

  predicate Malformed(line: string) {
    IsHeader(line) && ']' !in TrimSpace(line)
  }

  /** parseCodexMCPSections accepts the text. */
  predicate Parses(text: string) {
    forall i :: 0 <= i < |Split(text)| ==> !Malformed(Split(text)[i])
  }

  /** bytes.IndexByte, the length if the character is not there. */
  function IndexOf(s: string, c: char): (i: nat)
    ensures i <= |s| && (i < |s| <==> c in s) && (i < |s| ==> s[i] == c) && forall k :: 0 <= k < i ==> s[k] != c
  {
    if s == "" || s[0] == c then 0 else 1 + IndexOf(s[1..], c)
  }

  const PREFIX := "mcp_servers."

  /** codexExtractMCPID of a trimmed header line. */
  function ExtractMCPID(header: string): string {
    var end := IndexOf(header, ']');
    if end == |header| || end == 0 then ""
    else
      var inner := TrimSpace(header[1..end]);
      if !HasPrefix(inner, PREFIX) then "" else TrimSpace(inner[|PREFIX|..])
  }

  /** The server a line opens a section for; empty for any other line. */
  function Id(line: string): string {
    if IsHeader(line) then ExtractMCPID(TrimSpace(line)) else ""
  }

  // ---------------------------------------------------------------- sections

  /** Byte offsets: from the header line to the next header or the end of the text. */
  datatype Section = Section(id: string, start: nat, end: nat)

  function NextHeader(ls: seq<string>, i: nat): (j: nat)
    requires i <= |ls|
    ensures i <= j <= |ls| && (j < |ls| ==> IsHeader(ls[j])) && forall k :: i <= k < j ==> !IsHeader(ls[k])
    decreases |ls| - i
  {
    if i == |ls| || IsHeader(ls[i]) then i else NextHeader(ls, i + 1)
  }

  function SectionsFrom(ls: seq<string>, i: nat): seq<Section>
    requires i <= |ls|
    decreases |ls| - i
  {
    if i == |ls| then []
    else if Id(ls[i]) == "" then SectionsFrom(ls, i + 1)
    else [Section(Id(ls[i]), Offset(ls, i), Offset(ls, NextHeader(ls, i + 1)))] + SectionsFrom(ls, i + 1)
  }

  function Sections(text: string): seq<Section> {
    SectionsFrom(Split(text), 0)
  }

  function Find(ss: seq<Section>, id: string): Option<Section> {
    if ss == [] then None else if ss[0].id == id then Some(ss[0]) else Find(ss[1..], id)
  }

  function FirstEqual(ids: seq<string>, id: string, i: nat): (k: nat)
    requires i <= |ids|
    ensures i <= k <= |ids| && (k < |ids| ==> ids[k] == id) && forall j :: i <= j < k ==> ids[j] != id
    decreases |ids| - i
  {
    if i == |ids| || ids[i] == id then i else FirstEqual(ids, id, i + 1)
  }

  /** The first line from i on that opens a section for this server. */
  function FirstWith(ls: seq<string>, id: string, i: nat): (k: nat)
    requires i <= |ls|
    ensures i <= k <= |ls| && (k < |ls| ==> Id(ls[k]) == id) && forall j :: i <= j < k ==> Id(ls[j]) != id
  {
    var ids := seq(|ls|, j requires 0 <= j < |ls| => Id(ls[j]));
    assert forall j :: 0 <= j < |ls| ==> Id(ls[j]) == ids[j];
    FirstEqual(ids, id, i)
  }

  lemma FirstWithNext(ls: seq<string>, id: string, i: nat)
    requires i < |ls|
    ensures FirstWith(ls, id, i) == if Id(ls[i]) == id then i else FirstWith(ls, id, i + 1)
  {
    hide Id;
  }

  lemma FindCons(s: Section, ss: seq<Section>, id: string)
    ensures Find([s] + ss, id) == if s.id == id then Some(s) else Find(ss, id)
  {
    assert ([s] + ss)[1..] == ss;
  }

  lemma FindNone(id: string)
    ensures Find([], id) == None
  {}

  lemma {:induction false} FindIsFirst(ls: seq<string>, id: string, i: nat)
    requires id != "" && i <= |ls|
    ensures Find(SectionsFrom(ls, i), id) ==
              var k := FirstWith(ls, id, i);
              if k == |ls| then None else Some(Section(id, Offset(ls, k), Offset(ls, NextHeader(ls, k + 1))))
    decreases |ls| - i
  {
    hide Offset, Id, NextHeader, Find;
    if i < |ls| {
      FindIsFirst(ls, id, i + 1);
      FirstWithNext(ls, id, i);
      FindCons(Section(Id(ls[i]), Offset(ls, i), Offset(ls, NextHeader(ls, i + 1))), SectionsFrom(ls, i + 1), id);
    } else {
      FindNone(id);
    }
  }

  // ---------------------------------------------------------------- the merge

  /** bytes.TrimRight(s, newline) */
  function TrimNewlines(s: string): string {
    if s != "" && s[|s| - 1] == '\n' then TrimNewlines(s[..|s| - 1]) else s
  }

  /** appendCodexGatewayBlock */
  function Append(text: string, block: string): string {
    var t := TrimNewlines(text);
    (if t == "" then "" else t + "\n\n") + block
  }

  /** Everything before the section and everything from its end on stays as it is. */
  function Splice(text: string, sec: Section, block: string): string
    requires sec.start <= sec.end <= |text|
  {
    text[..sec.start] + block + (if sec.end < |text| then "\n" else "") + text[sec.end..]
  }

  lemma SectionFits(ls: seq<string>, k: nat)
    requires k < |ls|
    ensures Offset(ls, k) <= Offset(ls, NextHeader(ls, k + 1)) <= |Join(ls)|
  {
    var j := NextHeader(ls, k + 1);
    CutAt(ls, k);
    if j < |ls| {
      CutAt(ls, j);
      TerminateConcat(ls[..k], ls[k..j]);
      assert ls[..j] == ls[..k] + ls[k..j];
    }
  }

  /** The first section for the server is where it should be. */
  lemma FoundFits(text: string, id: string)
    requires id != ""
    ensures var f := Find(Sections(text), id); f.Some? ==> f.value.start <= f.value.end <= |text|
  {
    var ls := Split(text);
    JoinSplit(text);
    FindIsFirst(ls, id, 0);
    var k := FirstWith(ls, id, 0);
    if k < |ls| { SectionFits(ls, k); }
  }

  /** renderCodexMerged: replace the server's first section, or append one. */
  ghost function Merge(text: string, id: string, block: string): string
    requires id != ""
  {
    FoundFits(text, id);
    var f := Find(Sections(text), id);
    if f.Some? then Splice(text, f.value, block) else Append(text, block)
  }

  // ---------------------------------------------------------------- the same on lines

  function StripEmpty(ls: seq<string>): seq<string> {
    if ls != [] && ls[|ls| - 1] == "" then StripEmpty(ls[..|ls| - 1]) else ls
  }

  function MergeLines(ls: seq<string>, id: string, block: seq<string>): seq<string> {
    var k := FirstWith(ls, id, 0);
    if k < |ls| then ls[..k] + block + [""] + ls[NextHeader(ls, k + 1)..]
    else
      var s := StripEmpty(ls);
      (if s == [] then [] else s + [""]) + block + [""]
  }

  lemma TerminateIsJoin(a: seq<string>)
    ensures Join(a + [""]) == Terminate(a)
  {
    JoinConcat(a, [""]);
  }

  lemma SpliceIsLines(ls: seq<string>, k: nat, block: seq<string>)
    requires k < |ls|
    ensures var j := NextHeader(ls, k + 1);
            && Offset(ls, k) <= Offset(ls, j) <= |Join(ls)|
            && (j < |ls| ==> Offset(ls, j) < |Join(ls)|)
            && Splice(Join(ls), Section("", Offset(ls, k), Offset(ls, j)), Terminate(block)) ==
                 Join(ls[..k] + block + [""] + ls[j..])
  {
    hide NextHeader, TrimSpace;
    var j := NextHeader(ls, k + 1);
    var front := ls[..k] + block;
    SectionFits(ls, k);
    CutAt(ls, k);
    TerminateConcat(ls[..k], block);
    if j < |ls| {
      CutAt(ls, j);
      HeaderNotEmpty(ls[j]);
      JoinConcat(front + [""], ls[j..]);
      TerminateConcat(front, [""]);
      assert Terminate([""]) == "\n";
      JoinNotEmpty(ls[j..]);
    } else {
      assert ls[j..] == [] && front + [""] + ls[j..] == front + [""];
      TerminateIsJoin(front);
    }
  }

  lemma HeaderNotEmpty(line: string)
    requires IsHeader(line)
    ensures line != ""
  {}

  lemma JoinNotEmpty(ls: seq<string>)
    requires ls != [] && ls[0] != ""
    ensures Join(ls) != ""
  {}

  lemma {:induction false} TrimIsStrip(ls: seq<string>)
    requires ls != [] && Clean(ls)
    ensures TrimNewlines(Join(ls)) == Join(StripEmpty(ls))
    ensures StripEmpty(ls) != [] ==> Join(StripEmpty(ls)) != ""
    decreases |ls|
  {
    var n := |ls| - 1;
    var s := Join(ls);
    JoinConcat(ls[..n], [ls[n]]);
    assert ls[..n] + [ls[n]] == ls;
    if ls[n] == "" {
      if n > 0 {
        TrimIsStrip(ls[..n]);
        JoinConcat(ls[..n], [""]);
        TerminateLast(ls[..n]);
        assert s == Join(ls[..n]) + "\n";
        assert s[..|s| - 1] == Join(ls[..n]);
      }
    } else {
      assert s[|s| - 1] == ls[n][|ls[n]| - 1] && ls[n][|ls[n]| - 1] in ls[n];
    }
  }

  lemma {:induction false} TerminateLast(ls: seq<string>)
    requires ls != []
    ensures Terminate(ls) == Join(ls) + "\n"
    decreases |ls|
  {
    if |ls| > 1 { TerminateLast(ls[1..]); }
  }

  lemma AppendIsLines(ls: seq<string>, block: seq<string>)
    requires ls != [] && Clean(ls)
    ensures var s := StripEmpty(ls);
            Append(Join(ls), Terminate(block)) == Join((if s == [] then [] else s + [""]) + block + [""])
  {
    TrimIsStrip(ls);
    var s := StripEmpty(ls);
    if s == [] {
      assert [] + block + [""] == block + [""];
      TerminateIsJoin(block);
    } else {
      var front := s + [""];
      TerminateIsJoin(front + block);
      TerminateConcat(front, block);
      TerminateConcat(s, [""]);
      TerminateLast(s);
      assert Terminate([""]) == "\n";
    }
  }

  /** The byte-offset merge is the merge on lines. */
  lemma MergeIsLines(text: string, id: string, block: seq<string>)
    requires id != ""
    ensures Merge(text, id, Terminate(block)) == Join(MergeLines(Split(text), id, block))
  {
    hide Offset, NextHeader, Append, StripEmpty, Join, Split, Terminate, SectionsFrom;
    var ls := Split(text);
    JoinSplit(text);
    FindIsFirst(ls, id, 0);
    var k := FirstWith(ls, id, 0);
    FoundFits(text, id);
    if k < |ls| {
      SpliceIsLines(ls, k, block);
    } else {
      AppendIsLines(ls, block);
    }
  }

  // ---------------------------------------------------------------- idempotence

  /** A rendered block: one header, for this server, then lines that are no headers. */
  ghost predicate IsBlock(block: seq<string>, id: string) {
    && block != [] && Clean(block) && Id(block[0]) == id && !Malformed(block[0])
    && forall i :: 1 <= i < |block| ==> !IsHeader(block[i])
  }

  lemma NextIs(ls: seq<string>, i: nat, j: nat)
    requires i <= j <= |ls| && (forall k :: i <= k < j ==> !IsHeader(ls[k])) && (j < |ls| ==> IsHeader(ls[j]))
    ensures NextHeader(ls, i) == j
  {}

  lemma FirstIs(ls: seq<string>, id: string, k: nat)
    requires k < |ls| && Id(ls[k]) == id && forall j :: 0 <= j < k ==> Id(ls[j]) != id
    ensures FirstWith(ls, id, 0) == k
  {}

  lemma EmptyIsNoHeader()
    ensures !IsHeader("")
  {}

  /** In lines that hold the block between a front without the server and a tail that starts with a
      header, the server's section is the block and the empty line. */
  lemma {:induction false} MergedSection(front: seq<string>, block: seq<string>, tail: seq<string>, id: string)
    requires id != "" && IsBlock(block, id)
    requires forall j :: 0 <= j < |front| ==> Id(front[j]) != id
    requires tail != [] ==> IsHeader(tail[0])
    ensures var ls := front + block + [""] + tail;
            FirstWith(ls, id, 0) == |front| && NextHeader(ls, |front| + 1) == |front| + |block| + 1
  {
    hide IsHeader, Id, Malformed, FirstWith, NextHeader;
    var ls := front + block + [""] + tail;
    var k, j := |front|, |front| + |block| + 1;
    forall i | 0 <= i <= k ensures ls[i] == if i < k then front[i] else block[0] { LineAt(front, block, tail, i); }
    FirstIs(ls, id, k);
    EmptyIsNoHeader();
    forall i | k + 1 <= i < j ensures !IsHeader(ls[i]) { LineAt(front, block, tail, i); }
    if j < |ls| { LineAt(front, block, tail, j); }
    NextIs(ls, k + 1, j);
  }

  lemma LineAt(front: seq<string>, block: seq<string>, tail: seq<string>, i: nat)
    requires i < |front| + |block| + 1 + |tail|
    ensures (front + block + [""] + tail)[i] ==
              if i < |front| then front[i]
              else if i < |front| + |block| then block[i - |front|]
              else if i == |front| + |block| then ""
              else tail[i - |front| - |block| - 1]
  {}

  /** So merging into such lines changes nothing. */
  lemma MergeAgain(front: seq<string>, block: seq<string>, tail: seq<string>, id: string)
    requires id != "" && IsBlock(block, id)
    requires forall j :: 0 <= j < |front| ==> Id(front[j]) != id
    requires tail != [] ==> IsHeader(tail[0])
    ensures var ls := front + block + [""] + tail; MergeLines(ls, id, block) == ls
  {
    hide IsHeader, Id, Malformed, FirstWith, NextHeader;
    var ls := front + block + [""] + tail;
    MergedSection(front, block, tail, id);
    assert ls[..|front|] == front && ls[|front| + |block| + 1..] == tail;
  }

  lemma {:induction false} StripIsPrefix(ls: seq<string>)
    ensures StripEmpty(ls) <= ls
  {
    if ls != [] && ls[|ls| - 1] == "" { StripIsPrefix(ls[..|ls| - 1]); }
  }

  /** What a merge produces: a front without the server, the block, and a tail that starts with a
      header. The front and the tail are the old lines around the section. */
  lemma MergeShape(ls: seq<string>, id: string, block: seq<string>) returns (front: seq<string>, tail: seq<string>)
    requires id != ""
    ensures MergeLines(ls, id, block) == front + block + [""] + tail
    ensures forall j :: 0 <= j < |front| ==> Id(front[j]) != id
    ensures tail != [] ==> IsHeader(tail[0])
    ensures var k := FirstWith(ls, id, 0);
            if k < |ls| then front == ls[..k] && tail == ls[NextHeader(ls, k + 1)..]
            else tail == [] && front == (if StripEmpty(ls) == [] then [] else StripEmpty(ls) + [""])
  {
    hide IsHeader;
    var k := FirstWith(ls, id, 0);
    if k < |ls| {
      front, tail := ls[..k], ls[NextHeader(ls, k + 1)..];
    } else {
      tail := [];
      var s := StripEmpty(ls);
      StripIsPrefix(ls);
      front := if s == [] then [] else s + [""];
      assert Id("") == "" by { EmptyIsNoHeader(); }
      assert front + block + [""] + tail == front + block + [""];
    }
  }

  lemma MergedIsClean(ls: seq<string>, id: string, block: seq<string>)
    requires id != "" && IsBlock(block, id) && Clean(ls)
    ensures MergeLines(ls, id, block) != [] && Clean(MergeLines(ls, id, block))
  {
    hide MergeLines, FirstWith, NextHeader, StripEmpty, Id, IsHeader, Malformed;
    var front, tail := MergeShape(ls, id, block);
    StripIsPrefix(ls);
  }

  /** Merging the same block again returns the same text, for every text. */
  lemma MergeIdempotent(text: string, id: string, block: seq<string>)
    requires id != "" && IsBlock(block, id)
    ensures var once := Merge(text, id, Terminate(block));
            Merge(once, id, Terminate(block)) == once
  {
    hide MergeLines, Split, Join, Terminate, Merge, FirstWith, NextHeader;
    SplitMerged(text, id, block);
    var once := Merge(text, id, Terminate(block));
    var front, tail := MergeShape(Split(text), id, block);
    MergeAgain(front, block, tail, id);
    MergeIsLines(text, id, block);
    MergeIsLines(once, id, block);
  }

  // ---------------------------------------------------------------- what is kept

  /** The section headers of a text, in order, by server; empty for other sections. */
  function HeaderIds(ls: seq<string>): seq<string> {
    if ls == [] then []
    else if IsHeader(ls[0]) then [Id(ls[0])] + HeaderIds(ls[1..])
    else HeaderIds(ls[1..])
  }

  lemma {:induction false} HeaderIdsConcat(a: seq<string>, b: seq<string>)
    ensures HeaderIds(a + b) == HeaderIds(a) + HeaderIds(b)
    decreases |a|
  {
    hide IsHeader, Id;
    if a == [] {
      assert a + b == b;
    } else {
      HeaderIdsConcat(a[1..], b);
      assert (a + b)[1..] == a[1..] + b;
    }
  }

  lemma {:induction false} NoHeaderIds(ls: seq<string>)
    requires forall i :: 0 <= i < |ls| ==> !IsHeader(ls[i])
    ensures HeaderIds(ls) == []
  {
    hide IsHeader, Id;
    if ls != [] { NoHeaderIds(ls[1..]); }
  }

  lemma {:induction false} StripKeepsHeaders(ls: seq<string>)
    ensures HeaderIds(StripEmpty(ls)) == HeaderIds(ls)
  {
    hide IsHeader, Id;
    if ls != [] && ls[|ls| - 1] == "" {
      var n := |ls| - 1;
      StripKeepsHeaders(ls[..n]);
      HeaderIdsConcat(ls[..n], [""]);
      assert ls == ls[..n] + [""];
      EmptyIsNoHeader();
      NoHeaderIds([""]);
    }
  }

  lemma BlockIds(block: seq<string>, id: string)
    requires IsBlock(block, id) && id != ""
    ensures HeaderIds(block + [""]) == [id]
  {
    hide IsHeader, Malformed;
    EmptyIsNoHeader();
    var rest := block[1..] + [""];
    NoHeaderIds(rest);
    assert block + [""] == [block[0]] + rest;
    HeaderIdsConcat([block[0]], rest);
    assert [block[0]][1..] == [];
    assert HeaderIds([block[0]]) == [id];
  }

  /** Replacing leaves the list of sections as it was; appending adds the server at its end. */
  lemma SectionsKept(text: string, id: string, block: seq<string>)
    requires id != "" && IsBlock(block, id)
    ensures HeaderIds(Split(Merge(text, id, Terminate(block)))) ==
              if Find(Sections(text), id).Some? then HeaderIds(Split(text)) else HeaderIds(Split(text)) + [id]
  {
    hide MergeLines, Join, Terminate, Merge, NextHeader, HeaderIds, Split, FirstWith, Find, SectionsFrom, Offset,
      IsBlock, StripEmpty, Clean;
    var ls := Split(text);
    FindIsFirst(ls, id, 0);
    SplitMerged(text, id, block);
    var front, tail := MergeShape(ls, id, block);
    HeadersAround(front, block, tail, id);
    var k := FirstWith(ls, id, 0);
    if k < |ls| {
      OldHeaders(ls, id, k);
    } else {
      AppendedHeaders(ls, front);
      NoHeaderIds([]);
      assert HeaderIds(front) + [id] + [] == HeaderIds(front) + [id];
    }
  }

  /** The lines of the merged text. */
  lemma SplitMerged(text: string, id: string, block: seq<string>)
    requires id != "" && IsBlock(block, id)
    ensures Split(Merge(text, id, Terminate(block))) == MergeLines(Split(text), id, block)
  {
    hide MergeLines, Join, Terminate, Merge, Split, Clean;
    var ls := Split(text);
    JoinSplit(text);
    MergedIsClean(ls, id, block);
    MergeIsLines(text, id, block);
    SplitJoin(MergeLines(ls, id, block));
  }

  lemma HeadersAround(front: seq<string>, block: seq<string>, tail: seq<string>, id: string)
    requires IsBlock(block, id) && id != ""
    ensures HeaderIds(front + block + [""] + tail) == HeaderIds(front) + [id] + HeaderIds(tail)
  {
    hide HeaderIds;
    BlockIds(block, id);
    HeaderIdsConcat(front + (block + [""]), tail);
    HeaderIdsConcat(front, block + [""]);
    assert front + block + [""] + tail == front + (block + [""]) + tail;
  }

  lemma OneHeader(line: string, rest: seq<string>)
    requires Id(line) != "" && forall i :: 0 <= i < |rest| ==> !IsHeader(rest[i])
    ensures HeaderIds([line] + rest) == [Id(line)]
  {
    assert IsHeader(line);
    hide Id, IsHeader;
    NoHeaderIds(rest);
    assert ([line] + rest)[1..] == rest;
  }

  lemma OldHeaders(ls: seq<string>, id: string, k: nat)
    requires k < |ls| && Id(ls[k]) == id != ""
    ensures HeaderIds(ls) == HeaderIds(ls[..k]) + [id] + HeaderIds(ls[NextHeader(ls, k + 1)..])
  {
    hide IsHeader, Id, HeaderIds, NextHeader;
    var j := NextHeader(ls, k + 1);
    var section := [ls[k]] + ls[k + 1..j];
    OneHeader(ls[k], ls[k + 1..j]);
    HeaderIdsConcat(ls[..k] + section, ls[j..]);
    HeaderIdsConcat(ls[..k], section);
    assert ls == ls[..k] + section + ls[j..];
  }

  lemma AppendedHeaders(ls: seq<string>, front: seq<string>)
    requires front == (if StripEmpty(ls) == [] then [] else StripEmpty(ls) + [""])
    ensures HeaderIds(front) == HeaderIds(ls)
  {
    hide IsHeader, Id;
    StripKeepsHeaders(ls);
    if StripEmpty(ls) != [] {
      HeaderIdsConcat(StripEmpty(ls), [""]);
      EmptyIsNoHeader();
      NoHeaderIds([""]);
    }
  }

  /** A text that parses still does after the merge. */
  lemma MergedParses(text: string, id: string, block: seq<string>)
    requires id != "" && IsBlock(block, id) && Parses(text)
    ensures Parses(Merge(text, id, Terminate(block)))
  {
    hide MergeLines, Join, Terminate, Merge, NextHeader, HeaderIds, Split, Malformed, IsHeader, Id;
    SplitMerged(text, id, block);
    var ls := Split(text);
    var front, tail := MergeShape(ls, id, block);
    StripIsPrefix(ls);
    var merged := MergeLines(ls, id, block);
    assert !Malformed("") && forall i :: 1 <= i < |block| ==> !Malformed(block[i]) by { NoHeaderIsFine(block); }
    forall i | 0 <= i < |merged| ensures !Malformed(merged[i]) {
      var a, b := |front|, |front| + |block|;
      if i < a { assert merged[i] == front[i]; }
      else if i < b { assert merged[i] == block[i - a]; }
      else if i > b { assert merged[i] == tail[i - b - 1]; }
    }
  }

  lemma NoHeaderIsFine(block: seq<string>)
    ensures !Malformed("")
    ensures forall i :: 1 <= i < |block| && !IsHeader(block[i]) ==> !Malformed(block[i])
  {}
}
