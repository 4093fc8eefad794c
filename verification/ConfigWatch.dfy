/**
 The scheduler's config watcher (cmd/cordum-scheduler/config_overlay.go): change notifications wake
 it through a channel that holds one token, a ticker wakes it as a fallback, and each reload reads
 the config document and replaces the routing if the digest of its pools changed.
 */
module ConfigWatch {
  import opened Wrappers
  import opened JsonValue
  import opened Canonical
  import opened CanonicalWriter
  import opened Routing

  /** The system config document. */
  datatype Doc = Missing | Doc(data: map<string, Json>)

  /** ParsePoolsConfig on the JSON text of a value: none for an error. */
  type Parser = Json -> Option<PoolsConfig>

  /** normalizePoolsOverlay: only topics and pools count, under either spelling. */
  function Normalize(raw: Json): Json {
    if !raw.Obj? then raw
    else
      Obj(map k | k in {"topics", "pools"} && (k in raw.fields || Capital(k) in raw.fields) ::
            if k in raw.fields then raw.fields[k] else raw.fields[Capital(k)])
  }

  function Capital(k: string): string {
    if k == "topics" then "Topics" else "Pools"
  }

  /** loadConfigSnapshot and parsePools: the pools of a document, if it has usable ones. */
  function PoolsOf(doc: Doc, parse: Parser): Option<PoolsConfig> {
    if doc.Doc? && "pools" in doc.data then parse(Normalize(doc.data["pools"])) else None
  }

  ghost function HashOf(doc: Doc): Digest {
    if doc.Doc? && "pools" in doc.data then Sha256(Encode(Normalize(doc.data["pools"]))) else Sha256("")
  }

  /** Pools under a lower-case name win, a capitalized name serves if there is none, and nothing else in the
      document's pools value counts: values that agree on these are normalized alike. */
  lemma NormalizeReads(a: map<string, Json>, b: map<string, Json>)
    requires Spelled(a, "topics", "Topics") == Spelled(b, "topics", "Topics")
    requires Spelled(a, "pools", "Pools") == Spelled(b, "pools", "Pools")
    ensures Normalize(Obj(a)) == Normalize(Obj(b))
    ensures Normalize(Obj(a)).fields.Keys <= {"topics", "pools"}
    ensures "topics" in Normalize(Obj(a)).fields <==> Spelled(a, "topics", "Topics").Some?
    ensures "pools" in Normalize(Obj(a)).fields <==> Spelled(a, "pools", "Pools").Some?
    ensures "topics" in Normalize(Obj(a)).fields ==>
              Some(Normalize(Obj(a)).fields["topics"]) == Spelled(a, "topics", "Topics")
    ensures "pools" in Normalize(Obj(a)).fields ==>
              Some(Normalize(Obj(a)).fields["pools"]) == Spelled(a, "pools", "Pools")
  {
    hide Normalize;
    NormalizeIs(a);
    NormalizeIs(b);
    assert Normalize(Obj(a)).fields == Normalize(Obj(b)).fields;
  }

  lemma NormalizeIs(m: map<string, Json>)
    ensures var n := Normalize(Obj(m));
            && n.Obj? && n.fields.Keys <= {"topics", "pools"}
            && ("topics" in n.fields <==> Spelled(m, "topics", "Topics").Some?)
            && ("pools" in n.fields <==> Spelled(m, "pools", "Pools").Some?)
            && ("topics" in n.fields ==> Some(n.fields["topics"]) == Spelled(m, "topics", "Topics"))
            && ("pools" in n.fields ==> Some(n.fields["pools"]) == Spelled(m, "pools", "Pools"))
  {
    assert Capital("topics") == "Topics" && Capital("pools") == "Pools";
    hide Capital;
  }

  function Spelled(m: map<string, Json>, lower: string, upper: string): Option<Json> {
    if lower in m then Some(m[lower]) else if upper in m then Some(m[upper]) else None
  }

  // ---------------------------------------------------------------- state and steps

  /** Where the watcher is: waiting, woken up, or holding the snapshot of write number `at`. */
  datatype Pc = Idle | Loading | Loaded(at: nat)

  /** `notified` and `lastRead` number writes, -1 for none. `failed` says that the last reload could
      not load the document, `applied` which write's pools were applied last. */
  datatype State = State(
    writes: seq<Doc>, notified: int, token: bool, pc: Pc, lastRead: int, failed: bool,
    applied: Option<nat>, lastHash: Option<Digest>, routing: PoolRouting)

  datatype Step =
    | Write(doc: Doc)
    | Deliver(k: nat)
    | TakeToken
    | Tick
    | Load
    | LoadFails
    | ApplySnapshot

  ghost predicate DocOk(doc: Doc) {
    doc.Doc? && "pools" in doc.data ==> WellFormed(doc.data["pools"])
  }

  ghost predicate Enabled(s: State, st: Step) {
    match st
    case Write(doc) => DocOk(doc)
    case Deliver(k) => k < |s.writes|
    case TakeToken => s.pc.Idle? && s.token
    case Tick => s.pc.Idle?
    case Load => s.pc.Loading? && s.writes != []
    case LoadFails => s.pc.Loading?
    case ApplySnapshot => s.pc.Loaded? && s.pc.at < |s.writes|
  }

  function Max(a: int, b: int): int { if a < b then b else a }

  ghost function Apply(s: State, st: Step, parse: Parser): State
    requires Enabled(s, st)
  {
    match st
    case Write(doc) => s.(writes := s.writes + [doc])
    // a full channel stays full
    case Deliver(k) => s.(token := true, notified := Max(s.notified, k))
    case TakeToken => s.(token := false, pc := Loading)
    case Tick => s.(pc := Loading)
    case Load => s.(pc := Loaded(|s.writes| - 1))
    case LoadFails => s.(pc := Idle, failed := true)
    case ApplySnapshot =>
      var doc := s.writes[s.pc.at];
      var read := s.(pc := Idle, lastRead := s.pc.at, failed := false);
      var pools := PoolsOf(doc, parse);
      if pools.Some? && s.lastHash != Some(HashOf(doc)) then
        read.(applied := Some(s.pc.at), lastHash := Some(HashOf(doc)), routing := RoutingOf(pools.value))
      else read
  }

  /** Before the first reload: some document is stored and some routing is in force. */
  ghost predicate Init(s: State) {
    && s.writes != [] && (forall i :: 0 <= i < |s.writes| ==> DocOk(s.writes[i]))
    && s.notified == -1 && !s.token && s.pc == Idle && s.lastRead == -1 && !s.failed
    && s.applied == None && s.lastHash == None
  }

  ghost predicate ValidRun(s: State, steps: seq<Step>, parse: Parser)
    decreases |steps|, 0
  {
    steps == [] ||
    (ValidRun(s, steps[..|steps| - 1], parse) && Enabled(Run(s, steps[..|steps| - 1], parse), steps[|steps| - 1]))
  }

  ghost function Run(s: State, steps: seq<Step>, parse: Parser): State
    requires ValidRun(s, steps, parse)
    decreases |steps|, 1
  {
    if steps == [] then s else Apply(Run(s, steps[..|steps| - 1], parse), steps[|steps| - 1], parse)
  }

  // ---------------------------------------------------------------- the invariant

  lemma NormalizeKeepsForm(raw: Json)
    requires WellFormed(raw)
    ensures WellFormed(Normalize(raw))
  {}

  /** Equal digests mean equal pools, because canonical JSON is injective. */
  lemma SameHashSamePools(a: Doc, b: Doc, parse: Parser)
    requires DocOk(a) && DocOk(b) && PoolsOf(a, parse).Some? && PoolsOf(b, parse).Some?
    ensures HashOf(a) == HashOf(b) ==> PoolsOf(a, parse) == PoolsOf(b, parse)
  {
    hide Encode, WellFormed, Normalize;
    var x, y := a.data["pools"], b.data["pools"];
    NormalizeKeepsForm(x);
    NormalizeKeepsForm(y);
    EncodeInjective(Normalize(x), Normalize(y));
  }

  ghost predicate Ranges(s: State) {
    && s.writes != [] && (forall i :: 0 <= i < |s.writes| ==> DocOk(s.writes[i]))
    && -1 <= s.notified < |s.writes| && -1 <= s.lastRead < |s.writes|
    && (s.pc.Loaded? ==> s.pc.at < |s.writes|)
    && (s.applied.Some? ==> s.applied.value < |s.writes|)
  }

  /** A write that was notified has been read, is being read, or will wake the watcher. */
  ghost predicate Fresh(s: State) {
    || s.token || s.pc.Loading?
    || (s.pc.Loaded? && s.pc.at >= s.notified)
    || (s.pc.Idle? && (s.failed || s.lastRead >= s.notified))
  }

  /** The routing in force is that of the pools applied last, and these have the digest of the pools
      read last. */
  ghost predicate Current(s: State, start: PoolRouting, parse: Parser)
    requires Ranges(s)
  {
    && (s.applied.None? ==> s.lastHash == None && s.routing == start)
    && (s.applied.Some? ==>
          var doc := s.writes[s.applied.value];
          PoolsOf(doc, parse).Some? && s.lastHash == Some(HashOf(doc))
            && s.routing == RoutingOf(PoolsOf(doc, parse).value))
    && (s.lastRead >= 0 && PoolsOf(s.writes[s.lastRead], parse).Some? ==>
        s.lastHash == Some(HashOf(s.writes[s.lastRead])))
  }

  ghost predicate Inv(s: State, start: PoolRouting, parse: Parser) {
    Ranges(s) && Fresh(s) && Current(s, start, parse)
  }

  lemma StepKeepsInv(s: State, st: Step, start: PoolRouting, parse: Parser)
    requires Inv(s, start, parse) && Enabled(s, st)
    ensures Inv(Apply(s, st, parse), start, parse)
  {
    hide DocOk, PoolsOf, HashOf, RoutingOf;
  }

  lemma {:induction false} RunKeepsInv(s: State, steps: seq<Step>, parse: Parser)
    requires Init(s) && ValidRun(s, steps, parse)
    ensures Inv(Run(s, steps, parse), s.routing, parse)
    decreases |steps|
  {
    hide Enabled, Apply;
    if steps == [] {
      assert Fresh(s) && Ranges(s) && Current(s, s.routing, parse);
    } else {
      RunKeepsInv(s, steps[..|steps| - 1], parse);
      StepKeepsInv(Run(s, steps[..|steps| - 1], parse), steps[|steps| - 1], s.routing, parse);
    }
  }

  // ---------------------------------------------------------------- no change is lost

  /** Whenever the watcher waits with no token and its last reload could load the document, it has
      read a snapshot no older than the last notified write, and if the pools of that snapshot are
      usable, the routing in force is the one built from them. */
  lemma NoLostChange(s: State, steps: seq<Step>, parse: Parser)
    requires Init(s) && ValidRun(s, steps, parse)
    ensures var e := Run(s, steps, parse);
            e.pc.Idle? && !e.token && !e.failed ==>
              && e.notified <= e.lastRead < |e.writes|
              && (e.lastRead >= 0 && PoolsOf(e.writes[e.lastRead], parse).Some? ==>
                    e.routing == RoutingOf(PoolsOf(e.writes[e.lastRead], parse).value))
  {
    hide HashOf, PoolsOf, RoutingOf, Enabled, Apply, DocOk;
    RunKeepsInv(s, steps, parse);
    var e := Run(s, steps, parse);
    if e.lastRead >= 0 && PoolsOf(e.writes[e.lastRead], parse).Some? {
      SameHashSamePools(e.writes[e.lastRead], e.writes[e.applied.value], parse);
    }
  }

  /** In particular, once the last write has been notified, the routing is that of the document as
      it stands. */
  lemma QuiescentIsCurrent(s: State, steps: seq<Step>, parse: Parser)
    requires Init(s) && ValidRun(s, steps, parse)
    ensures var e := Run(s, steps, parse);
            e.pc.Idle? && !e.token && !e.failed && e.writes != [] && e.notified == |e.writes| - 1 ==>
              var pools := PoolsOf(e.writes[|e.writes| - 1], parse);
              pools.Some? ==> e.routing == RoutingOf(pools.value)
  {
    hide PoolsOf, RoutingOf, Enabled, Apply;
    NoLostChange(s, steps, parse);
  }

  // ---------------------------------------------------------------- which routing is in force

  /** The documents a run has read and handled, in order. */
  ghost function Reads(s: State, steps: seq<Step>, parse: Parser): seq<Doc>
    requires ValidRun(s, steps, parse)
    decreases |steps|
  {
    if steps == [] then []
    else
      var before, last := steps[..|steps| - 1], steps[|steps| - 1];
      var e := Run(s, before, parse);
      if last.ApplySnapshot? then Reads(s, before, parse) + [e.writes[e.pc.at]] else Reads(s, before, parse)
  }

  /** The pools of the latest of these documents that has usable ones. */
  function LastUsable(docs: seq<Doc>, parse: Parser): Option<PoolsConfig> {
    if docs == [] then None
    else
      var pools := PoolsOf(docs[|docs| - 1], parse);
      if pools.Some? then pools else LastUsable(docs[..|docs| - 1], parse)
  }

  /** The routing these documents call for, starting from `initial`. */
  function RoutingAfter(initial: PoolRouting, docs: seq<Doc>, parse: Parser): PoolRouting {
    var pools := LastUsable(docs, parse);
    if pools.Some? then RoutingOf(pools.value) else initial
  }

  lemma LastUsableSnoc(docs: seq<Doc>, doc: Doc, parse: Parser)
    ensures LastUsable(docs + [doc], parse) ==
              if PoolsOf(doc, parse).Some? then PoolsOf(doc, parse) else LastUsable(docs, parse)
  {
    assert (docs + [doc])[..|docs|] == docs;
  }

  /** Handling a snapshot with usable pools leaves their routing in force, applied or skipped. */
  lemma ApplyRoutes(s: State, start: PoolRouting, parse: Parser)
    requires Inv(s, start, parse) && Enabled(s, ApplySnapshot)
    ensures var pools := PoolsOf(s.writes[s.pc.at], parse);
            Apply(s, ApplySnapshot, parse).routing == if pools.Some? then RoutingOf(pools.value) else s.routing
  {
    hide HashOf, PoolsOf, RoutingOf, DocOk;
    if PoolsOf(s.writes[s.pc.at], parse).Some? && s.applied.Some? {
      SameHashSamePools(s.writes[s.pc.at], s.writes[s.applied.value], parse);
    }
  }

  lemma OtherStepsKeepRouting(s: State, st: Step, parse: Parser)
    requires Enabled(s, st) && !st.ApplySnapshot?
    ensures Apply(s, st, parse).routing == s.routing
  {}

  /** In every reachable state, failing loads, unusable pools and skipped applies included, the
      routing in force is that of the latest document read whose pools were usable, and the initial
      one if there was none. */
  lemma {:induction false} RoutingIsLastUsable(s: State, steps: seq<Step>, parse: Parser)
    requires Init(s) && ValidRun(s, steps, parse)
    ensures Run(s, steps, parse).routing == RoutingAfter(s.routing, Reads(s, steps, parse), parse)
    decreases |steps|
  {
    hide PoolsOf, RoutingOf, Apply, Enabled, Inv, Init, LastUsable;
    if steps == [] {
      assert LastUsable([], parse) == None by { NothingUsable(parse); }
    } else {
      var before, last := steps[..|steps| - 1], steps[|steps| - 1];
      var e := Run(s, before, parse);
      RoutingIsLastUsable(s, before, parse);
      if last.ApplySnapshot? {
        RunKeepsInv(s, before, parse);
        ApplyRoutes(e, s.routing, parse);
        SnapshotInRange(e);
        LastUsableSnoc(Reads(s, before, parse), e.writes[e.pc.at], parse);
      } else {
        OtherStepsKeepRouting(e, last, parse);
      }
    }
  }

  lemma NothingUsable(parse: Parser)
    ensures LastUsable([], parse) == None
  {}

  lemma SnapshotInRange(s: State)
    requires Enabled(s, ApplySnapshot)
    ensures s.pc.Loaded? && s.pc.at < |s.writes|
  {}

  /** After a reload whose document has no usable pools the initial routing is in force if and only
      if no earlier read had usable pools, or the latest that had gives the same routing. */
  lemma UnusablePoolsKeepRouting(s: State, steps: seq<Step>, parse: Parser)
    requires Init(s) && ValidRun(s, steps, parse) && Reads(s, steps, parse) != []
    requires var docs := Reads(s, steps, parse); PoolsOf(docs[|docs| - 1], parse).None?
    ensures var docs := Reads(s, steps, parse);
            var earlier := LastUsable(docs[..|docs| - 1], parse);
            Run(s, steps, parse).routing == s.routing <==> earlier.None? || RoutingOf(earlier.value) == s.routing
  {
    hide PoolsOf, RoutingOf, Apply, Enabled, Init, Run, ValidRun;
    RoutingIsLastUsable(s, steps, parse);
  }

  lemma Extend(s: State, steps: seq<Step>, st: Step, parse: Parser)
    requires ValidRun(s, steps, parse) && Enabled(Run(s, steps, parse), st)
    ensures ValidRun(s, steps + [st], parse) && Run(s, steps + [st], parse) == Apply(Run(s, steps, parse), st, parse)
  {
    hide Enabled, Apply;
    assert (steps + [st])[..|steps|] == steps;
  }

  /** A poll on the first document. */
  lemma FirstReload(s: State, parse: Parser, cfg: PoolsConfig)
    requires Init(s) && |s.writes| == 1 && PoolsOf(s.writes[0], parse) == Some(cfg)
    ensures var steps := [Tick, Load, ApplySnapshot];
            && ValidRun(s, steps, parse)
            && Run(s, steps, parse) ==
                 s.(lastRead := 0, applied := Some(0), lastHash := Some(HashOf(s.writes[0])), routing := RoutingOf(cfg))
  {
    hide RoutingOf, HashOf, DocOk, PoolsOf, Run, ValidRun;
    assert ValidRun(s, [], parse) && Run(s, [], parse) == s by { NoSteps(s, parse); }
    assert [] + [Tick] == [Tick] && [Tick] + [Load] == [Tick, Load]
      && [Tick, Load] + [ApplySnapshot] == [Tick, Load, ApplySnapshot];
    Extend(s, [], Tick, parse);
    Extend(s, [Tick], Load, parse);
    Extend(s, [Tick, Load], ApplySnapshot, parse);
  }

  lemma NoSteps(s: State, parse: Parser)
    ensures ValidRun(s, [], parse) && Run(s, [], parse) == s
  {}

  /** So removing the pools from the document is not noticed, although the write was notified, read
      and its snapshot applied: the routing is still that of the old pools. */
  lemma RemovedPoolsStayRouted(s: State, parse: Parser, cfg: PoolsConfig)
    requires Init(s) && |s.writes| == 1 && PoolsOf(s.writes[0], parse) == Some(cfg)
    ensures var steps := [Tick, Load, ApplySnapshot] + [Write(Doc(map[]))] + [Deliver(1)] + [TakeToken] + [Load]
              + [ApplySnapshot];
            && ValidRun(s, steps, parse)
            && var e := Run(s, steps, parse);
               && e.pc == Idle && !e.token && !e.failed && e.notified == e.lastRead == 1 == |e.writes| - 1
               && e.writes[1] == Doc(map[]) && e.routing == RoutingOf(cfg)
  {
    hide RoutingOf, HashOf, DocOk, ValidRun, Run;
    FirstReload(s, parse, cfg);
    assert DocOk(Doc(map[])) by { EmptyDocOk(); }
    var a := [Tick, Load, ApplySnapshot];
    Extend(s, a, Write(Doc(map[])), parse);
    var b := a + [Write(Doc(map[]))];
    Extend(s, b, Deliver(1), parse);
    var c := b + [Deliver(1)];
    Extend(s, c, TakeToken, parse);
    Extend(s, c + [TakeToken], Load, parse);
    Extend(s, c + [TakeToken] + [Load], ApplySnapshot, parse);
  }

  lemma EmptyDocOk()
    ensures DocOk(Doc(map[]))
  {}
}
