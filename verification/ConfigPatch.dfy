/**
 validateConfigPatch (cmd/cordumctl/pack.go): which patches a pack may merge into the pools and timeouts
 of a config document, and what they then reach.
 */
module ConfigPatch {
  import opened Wrappers
  import opened JsonValue
  import opened MergePatch
  import opened Text
  import opened PackRegistry

  function Section(patch: map<string, Json>, k: string): Json {
    if k in patch then patch[k] else Null
  }

  predicate TopicsOk(topics: Json, prefixes: seq<string>) {
    topics == Null || (topics.Obj? && forall t :: t in topics.fields ==> HasAnyPrefix(t, prefixes))
  }

  /** The pools that the document has already. */
  function ExistingPools(current: Json): set<string> {
    Fields(Field(current, "pools")).Keys
  }

  predicate PoolsOk(pools: Json, id: string, current: Json) {
    pools == Null || (pools.Obj? && forall p :: p in pools.fields ==> p in ExistingPools(current) || HasPrefix(p, id))
  }

  predicate WorkflowsOk(workflows: Json, id: string) {
    workflows == Null || (workflows.Obj? && forall w :: w in workflows.fields ==> HasPrefix(w, id + "."))
  }

  predicate PoolsPatchOk(patch: map<string, Json>, id: string, aliases: seq<string>, current: Json) {
    && TopicsOk(Section(patch, "topics"), TopicPrefixes(id, aliases))
    && PoolsOk(Section(patch, "pools"), id, current)
    && patch.Keys <= {"topics", "pools"}
  }

  predicate TimeoutsPatchOk(patch: map<string, Json>, id: string, aliases: seq<string>) {
    && TopicsOk(Section(patch, "topics"), TopicPrefixes(id, aliases))
    && WorkflowsOk(Section(patch, "workflows"), id)
    && patch.Keys <= {"topics", "workflows"}
  }

  /** The patch may be merged into this key of a document, whose value is `current`. */
  predicate PatchOk(key: string, patch: map<string, Json>, id: string, aliases: seq<string>, current: Json) {
    if Lower(key) == "pools" then PoolsPatchOk(patch, id, aliases, current)
    else Lower(key) == "timeouts" && TimeoutsPatchOk(patch, id, aliases)
  }

  // ---------------------------------------------------------------- the loops

  method CheckTopics(topics: Json, prefixes: seq<string>) returns (ok: bool)
    ensures ok <==> TopicsOk(topics, prefixes)
  {
    hide HasAnyPrefix;
    if topics == Null { return true; }
    if !topics.Obj? { return false; }
    var left := topics.fields.Keys;
    while left != {}
      invariant left <= topics.fields.Keys
      invariant forall t :: t in topics.fields.Keys - left ==> HasAnyPrefix(t, prefixes)
    {
      var t :| t in left;
      var under := CheckPrefixes(t, prefixes);
      if !under { return false; }
      left := left - {t};
    }
    ok := true;
  }

  /** extractPools */
  method ExtractPools(current: Json) returns (names: set<string>)
    ensures names == ExistingPools(current)
  {
    names := {};
    if !current.Obj? || "pools" !in current.fields || !current.fields["pools"].Obj? { return; }
    var pools := current.fields["pools"].fields;
    var left := pools.Keys;
    while left != {}
      invariant left <= pools.Keys && names == pools.Keys - left
    {
      var name :| name in left;
      names := names + {name};
      left := left - {name};
    }
  }

  method CheckPools(pools: Json, id: string, current: Json) returns (ok: bool)
    ensures ok <==> PoolsOk(pools, id, current)
  {
    if pools == Null { return true; }
    if !pools.Obj? { return false; }
    var existing := ExtractPools(current);
    var left := pools.fields.Keys;
    while left != {}
      invariant left <= pools.fields.Keys
      invariant forall p :: p in pools.fields.Keys - left ==> p in existing || HasPrefix(p, id)
    {
      var p :| p in left;
      if p !in existing && !HasPrefix(p, id) { return false; }
      left := left - {p};
    }
    ok := true;
  }

  method CheckWorkflows(workflows: Json, id: string) returns (ok: bool)
    ensures ok <==> WorkflowsOk(workflows, id)
  {
    if workflows == Null { return true; }
    if !workflows.Obj? { return false; }
    var left := workflows.fields.Keys;
    while left != {}
      invariant left <= workflows.fields.Keys
      invariant forall w :: w in workflows.fields.Keys - left ==> HasPrefix(w, id + ".")
    {
      var w :| w in left;
      if !HasPrefix(w, id + ".") { return false; }
      left := left - {w};
    }
    ok := true;
  }

  method CheckKeys(patch: map<string, Json>, allowed: set<string>) returns (ok: bool)
    ensures ok <==> patch.Keys <= allowed
  {
    var left := patch.Keys;
    while left != {}
      invariant left <= patch.Keys && patch.Keys - left <= allowed
    {
      var k :| k in left;
      if k !in allowed { return false; }
      left := left - {k};
    }
    ok := true;
  }

  method ValidatePoolsPatch(patch: map<string, Json>, id: string, aliases: seq<string>, current: Json)
    returns (ok: bool)
    ensures ok <==> PoolsPatchOk(patch, id, aliases, current)
  {
    hide TopicsOk, PoolsOk;
    var prefixes := PackTopicPrefixes(id, aliases);
    ok := CheckTopics(Section(patch, "topics"), prefixes);
    if !ok { return; }
    ok := CheckPools(Section(patch, "pools"), id, current);
    if !ok { return; }
    ok := CheckKeys(patch, {"topics", "pools"});
  }

  method ValidateTimeoutsPatch(patch: map<string, Json>, id: string, aliases: seq<string>) returns (ok: bool)
    ensures ok <==> TimeoutsPatchOk(patch, id, aliases)
  {
    hide TopicsOk, WorkflowsOk;
    var prefixes := PackTopicPrefixes(id, aliases);
    ok := CheckTopics(Section(patch, "topics"), prefixes);
    if !ok { return; }
    ok := CheckWorkflows(Section(patch, "workflows"), id);
    if !ok { return; }
    ok := CheckKeys(patch, {"topics", "workflows"});
  }

  method ValidateConfigPatch(key: string, patch: map<string, Json>, id: string, aliases: seq<string>, current: Json)
    returns (ok: bool)
    ensures ok <==> PatchOk(key, patch, id, aliases, current)
  {
    hide PoolsPatchOk, TimeoutsPatchOk;
    if Lower(key) == "pools" {
      ok := ValidatePoolsPatch(patch, id, aliases, current);
    } else if Lower(key) == "timeouts" {
      ok := ValidateTimeoutsPatch(patch, id, aliases);
    } else {
      ok := false;
    }
  }

  // ---------------------------------------------------------------- what an accepted patch reaches

  /** The path is in a section a pack may write, under a name it owns or a pool that exists. */
  predicate Inside(id: string, aliases: seq<string>, current: Json, path: Path)
    requires |path| >= 2
  {
    match path[0]
    case "topics" => HasAnyPrefix(path[1], TopicPrefixes(id, aliases))
    case "pools" => path[1] in ExistingPools(current) || HasPrefix(path[1], id)
    case "workflows" => HasPrefix(path[1], id + ".")
    case _ => false
  }

  /** A section given as null is accepted, and means to remove it. */
  predicate Nulled(patch: map<string, Json>, path: Path)
    requires path != []
  {
    path[0] in patch && patch[path[0]] == Null
  }

  /** An accepted patch reaches a path outside its pack's names if and only if it gives that section as
      null. */
  lemma OutsideExactly(key: string, patch: map<string, Json>, id: string, aliases: seq<string>, current: Json,
                       path: Path)
    requires PatchOk(key, patch, id, aliases, current) && |path| >= 2 && !Inside(id, aliases, current, path)
    ensures !Diverges(Obj(patch), path) <==> Nulled(patch, path)
  {
    hide HasAnyPrefix, TopicPrefixes, HasPrefix, Lower, ExistingPools;
    if path[0] in patch {
      var section := patch[path[0]];
      assert Section(patch, path[0]) == section;
      assert section == Null || section.Obj?;
    }
  }

  /** Merging an accepted patch without null sections leaves everything outside its pack's names alone. */
  lemma OutsideKept(key: string, patch: map<string, Json>, id: string, aliases: seq<string>, current: Json, path: Path)
    requires PatchOk(key, patch, id, aliases, current) && |path| >= 2 && !Inside(id, aliases, current, path)
    requires !Nulled(patch, path)
    ensures At(MergeInto(current, Obj(patch)), path) == At(current, path)
  {
    hide PatchOk, Inside;
    OutsideExactly(key, patch, id, aliases, current, path);
    MergeFrame(current, Obj(patch), path);
  }

  /** A pack's patch with null topics is accepted and removes the topics of every pack. */
  lemma NullTopicsAreRemoved(current: Json, patch: map<string, Json>)
    requires current == Obj(map["topics" := Obj(map["job.b.x" := Str("b")])])
    requires patch == map["topics" := Null]
    ensures PatchOk("pools", patch, "a", [], current) && !Inside("a", [], current, ["topics", "job.b.x"])
    ensures At(MergeInto(current, Obj(patch)), ["topics", "job.b.x"]) == None
    ensures At(current, ["topics", "job.b.x"]) == Some(Str("b"))
  {
    assert Lower("pools") == "pools";
    assert TopicPrefix("a") == "job.a." && TopicPrefixes("a", []) == [TopicPrefix("a")];
    assert "job.b.x"[4] != "job.a."[4];
    var path: Path := ["topics", "job.b.x"];
    assert path[1..] == ["job.b.x"] && path[1..][1..] == [];
    assert MergeInto(current, Obj(patch)) == Obj(map[]);
  }

  /** Exactly which patches are accepted: pools patches with topics and pools, timeouts patches with topics
      and workflows; a section is null or an object whose every name its pack may write. */
  lemma AcceptedExactly(key: string, patch: map<string, Json>, id: string, aliases: seq<string>, current: Json)
    ensures PatchOk(key, patch, id, aliases, current) <==>
              && (Lower(key) == "pools" || Lower(key) == "timeouts")
              && patch.Keys <= (if Lower(key) == "pools" then {"topics", "pools"} else {"topics", "workflows"})
              && forall s :: s in patch && patch[s] != Null ==>
                   patch[s].Obj? && forall n :: n in patch[s].fields ==> Inside(id, aliases, current, [s, n])
  {
    hide HasAnyPrefix, TopicPrefixes, HasPrefix, Lower, ExistingPools;
    var prefixes := TopicPrefixes(id, aliases);
    TopicsAre(patch, id, aliases, current);
    PoolsAre(patch, id, aliases, current);
    WorkflowsAre(patch, id, aliases, current);
    hide TopicsOk, PoolsOk, WorkflowsOk, Inside;
  }

  /** A section holds names its pack may write. */
  ghost predicate SectionInside(patch: map<string, Json>, s: string, id: string, aliases: seq<string>, current: Json) {
    s in patch && patch[s] != Null ==>
      patch[s].Obj? && forall n :: n in patch[s].fields ==> Inside(id, aliases, current, [s, n])
  }

  lemma TopicsAre(patch: map<string, Json>, id: string, aliases: seq<string>, current: Json)
    ensures TopicsOk(Section(patch, "topics"), TopicPrefixes(id, aliases)) <==>
              SectionInside(patch, "topics", id, aliases, current)
  {
    hide HasAnyPrefix, TopicPrefixes;
    forall n: string
      ensures Inside(id, aliases, current, ["topics", n]) <==> HasAnyPrefix(n, TopicPrefixes(id, aliases))
    {}
  }

  lemma PoolsAre(patch: map<string, Json>, id: string, aliases: seq<string>, current: Json)
    ensures PoolsOk(Section(patch, "pools"), id, current) <==> SectionInside(patch, "pools", id, aliases, current)
  {
    hide HasPrefix, ExistingPools;
    forall n: string
      ensures Inside(id, aliases, current, ["pools", n]) <==> n in ExistingPools(current) || HasPrefix(n, id)
    {}
  }

  lemma WorkflowsAre(patch: map<string, Json>, id: string, aliases: seq<string>, current: Json)
    ensures WorkflowsOk(Section(patch, "workflows"), id) <==> SectionInside(patch, "workflows", id, aliases, current)
  {
    hide HasPrefix;
    forall n: string ensures Inside(id, aliases, current, ["workflows", n]) <==> HasPrefix(n, id + ".") {}
  }
}
