/**
 Who owns which names (cmd/cordumctl/pack.go): the manifest checks, the ownership check against the
 installed packs, and the registry that installs and uninstalls leave behind.
 */
module PackRegistry {
  import opened Text
  import opened PackRecords

  datatype ManifestTopic = ManifestTopic(name: string, inputSchema: string, outputSchema: string)

  datatype ResourceRef = ResourceRef(id: string, path: string)

  datatype Manifest = Manifest(
    id: string, aliases: seq<string>, version: string, minCore: string, maxCore: string,
    topics: seq<ManifestTopic>, schemas: seq<ResourceRef>, workflows: seq<ResourceRef>)

  const MAX_ALIASES := 8

  // ---------------------------------------------------------------- names

  predicate IdChar(c: char) {
    'a' <= c <= 'z' || '0' <= c <= '9' || c == '-'
  }

  predicate IsId(s: string) {
    s != "" && forall i :: 0 <= i < |s| ==> IdChar(s[i])
  }

  predicate IsAlias(s: string) {
    && 2 <= |s| <= 31 && 'a' <= s[0] <= 'z'
    && forall i :: 0 <= i < |s| ==> IdChar(s[i]) || s[i] == '_'
  }

  /** A pack may use the topics under job.<namespace>. */
  function TopicPrefix(namespace: string): string {
    "job." + namespace + "."
  }

  function TopicPrefixes(id: string, aliases: seq<string>): seq<string> {
    if aliases == [] then [TopicPrefix(id)]
    else
      var last := TrimSpace(aliases[|aliases| - 1]);
      var before := TopicPrefixes(id, aliases[..|aliases| - 1]);
      if last == "" then before else before + [TopicPrefix(last)]
  }

  method PackTopicPrefixes(id: string, aliases: seq<string>) returns (prefixes: seq<string>)
    ensures prefixes == TopicPrefixes(id, aliases)
  {
    prefixes := [TopicPrefix(id)];
    for i := 0 to |aliases|
      invariant prefixes == TopicPrefixes(id, aliases[..i])
    {
      assert aliases[..i + 1][..i] == aliases[..i];
      var alias := TrimSpace(aliases[i]);
      if alias == "" { continue; }
      prefixes := prefixes + [TopicPrefix(alias)];
    }
    assert aliases[..|aliases|] == aliases;
  }

  predicate HasAnyPrefix(s: string, prefixes: seq<string>) {
    exists i :: 0 <= i < |prefixes| && HasPrefix(s, prefixes[i])
  }

  method CheckPrefixes(s: string, prefixes: seq<string>) returns (r: bool)
    ensures r <==> HasAnyPrefix(s, prefixes)
  {
    for i := 0 to |prefixes|
      invariant forall k :: 0 <= k < i ==> !HasPrefix(s, prefixes[k])
    {
      if HasPrefix(s, prefixes[i]) { return true; }
    }
    r := false;
  }

  // ---------------------------------------------------------------- validatePackAliases

  predicate AliasesOk(aliases: seq<string>) {
    && |aliases| <= MAX_ALIASES
    && (forall i :: 0 <= i < |aliases| ==> IsAlias(TrimSpace(aliases[i])))
    && (forall i, j :: 0 <= i < j < |aliases| ==> TrimSpace(aliases[i]) != TrimSpace(aliases[j]))
  }

  lemma NoEmptyAlias()
    ensures !IsAlias("")
  {}

  method ValidatePackAliases(aliases: seq<string>) returns (ok: bool)
    ensures ok <==> AliasesOk(aliases)
  {
    hide TrimSpace, IsAlias;
    assert !IsAlias("") by { NoEmptyAlias(); }
    if |aliases| == 0 { return true; }
    if |aliases| > MAX_ALIASES { return false; }
    var seen: set<string> := {};
    for i := 0 to |aliases|
      invariant forall a :: a in seen <==> exists k :: 0 <= k < i && TrimSpace(aliases[k]) == a
      invariant AliasesOk(aliases[..i])
    {
      var alias := TrimSpace(aliases[i]);
      if alias == "" { return false; }
      if !IsAlias(alias) { return false; }
      if alias in seen { return false; }
      seen := seen + {alias};
    }
    assert aliases[..|aliases|] == aliases;
    ok := true;
  }

  // ---------------------------------------------------------------- validatePackManifest

  predicate SchemaRefOk(m: Manifest, ref: string) {
    TrimSpace(ref) == "" || exists i :: 0 <= i < |m.schemas| && m.schemas[i].id == TrimSpace(ref)
  }

  predicate TopicOk(m: Manifest, t: ManifestTopic) {
    t.name != "" && HasAnyPrefix(t.name, TopicPrefixes(TrimSpace(m.id), m.aliases))
  }

  predicate ResourceOk(r: ResourceRef, prefix: string) {
    r.id != "" && r.path != "" && HasPrefix(r.id, prefix)
  }

  predicate VersionOk(v: string, semver: string -> bool) {
    TrimSpace(v) == "" || semver(TrimSpace(v))
  }

  /** `semver` is parseSemver's verdict. */
  predicate ManifestOk(m: Manifest, semver: string -> bool) {
    && IsId(TrimSpace(m.id)) && AliasesOk(m.aliases)
    && TrimSpace(m.version) != "" && VersionOk(m.minCore, semver) && VersionOk(m.maxCore, semver)
    && (forall i :: 0 <= i < |m.topics| ==> TopicOk(m, m.topics[i]))
    && (forall i :: 0 <= i < |m.schemas| ==> ResourceOk(m.schemas[i], TrimSpace(m.id) + "/"))
    && (forall i :: 0 <= i < |m.topics| ==>
        SchemaRefOk(m, m.topics[i].inputSchema) && SchemaRefOk(m, m.topics[i].outputSchema))
    && (forall i :: 0 <= i < |m.workflows| ==> ResourceOk(m.workflows[i], TrimSpace(m.id) + "."))
  }

  method ValidatePackManifest(m: Manifest, semver: string -> bool) returns (ok: bool)
    ensures ok <==> ManifestOk(m, semver)
  {
    hide TopicPrefixes, TrimSpace, HasAnyPrefix, IsId, AliasesOk;
    var id := TrimSpace(m.id);
    assert id == "" ==> !IsId(id) by { NotEmpty(id); }
    if id == "" { return false; }
    if !IsId(id) { return false; }
    var aliasesOk := ValidatePackAliases(m.aliases);
    if !aliasesOk { return false; }
    if TrimSpace(m.version) == "" { return false; }
    if TrimSpace(m.minCore) != "" && !semver(TrimSpace(m.minCore)) { return false; }
    if TrimSpace(m.maxCore) != "" && !semver(TrimSpace(m.maxCore)) { return false; }
    var prefixes := PackTopicPrefixes(id, m.aliases);
    for i := 0 to |m.topics|
      invariant forall k :: 0 <= k < i ==> TopicOk(m, m.topics[k])
    {
      if m.topics[i].name == "" { return false; }
      var owned := CheckPrefixes(m.topics[i].name, prefixes);
      if !owned { return false; }
    }
    var ids: set<string> := {};
    for i := 0 to |m.schemas|
      invariant forall k :: 0 <= k < i ==> ResourceOk(m.schemas[k], id + "/")
      invariant forall s :: s in ids <==> exists k :: 0 <= k < i && m.schemas[k].id == s
    {
      var res := m.schemas[i];
      if res.id == "" || res.path == "" { return false; }
      if !HasPrefix(res.id, id + "/") { return false; }
      ids := ids + {res.id};
    }
    for i := 0 to |m.topics|
      invariant forall k :: 0 <= k < i ==>
                  SchemaRefOk(m, m.topics[k].inputSchema) && SchemaRefOk(m, m.topics[k].outputSchema)
    {
      var refs := [TrimSpace(m.topics[i].inputSchema), TrimSpace(m.topics[i].outputSchema)];
      for j := 0 to 2
        invariant j > 0 ==> SchemaRefOk(m, m.topics[i].inputSchema)
        invariant j > 1 ==> SchemaRefOk(m, m.topics[i].outputSchema)
      {
        if refs[j] == "" { continue; }
        if refs[j] !in ids { return false; }
      }
    }
    for i := 0 to |m.workflows|
      invariant forall k :: 0 <= k < i ==> ResourceOk(m.workflows[k], id + ".")
    {
      var res := m.workflows[i];
      if res.id == "" || res.path == "" { return false; }
      if !HasPrefix(res.id, id + ".") { return false; }
    }
    ok := true;
  }

  lemma NotEmpty(s: string)
    ensures s == "" ==> !IsId(s)
  {}

  // ---------------------------------------------------------------- validatePackAliasOwnership

  function OwnerID(key: string, r: Record): string {
    if TrimSpace(r.id) != "" then TrimSpace(r.id)
    else if TrimSpace(r.manifestID) != "" then TrimSpace(r.manifestID)
    else TrimSpace(key)
  }

  ghost function Trimmed(names: seq<string>): set<string> {
    set i | 0 <= i < |names| && TrimSpace(names[i]) != "" :: TrimSpace(names[i])
  }

  /** The namespaces a record holds. */
  ghost function Namespaces(key: string, r: Record): set<string> {
    Trimmed([key, r.id, r.manifestID] + r.aliases)
  }

  /** A record of somebody else. */
  predicate Foreign(key: string, r: Record, id: string) {
    OwnerID(key, r) != "" && OwnerID(key, r) != id
  }

  /** A foreign record in the way of a pack with this ID, these aliases and these topics. */
  ghost predicate Clashes(key: string, r: Record, id: string, aliases: seq<string>, topics: seq<string>) {
    && Foreign(key, r, id)
    && (|| Namespaces(key, r) * ({id} + Trimmed(aliases)) != {}
        || Trimmed(r.topics) * Trimmed(topics) != {}
        || exists t :: t in Trimmed(r.topics) && HasAnyPrefix(t, TopicPrefixes(id, aliases)))
  }

  ghost predicate OwnershipOk(packID: string, aliases: seq<string>, topics: seq<string>, installed: Registry) {
    var id := TrimSpace(packID);
    && id != "" && id !in Trimmed(aliases)
    && forall key :: key in installed ==> !Clashes(key, installed[key], id, aliases, topics)
  }

  /** addNamespaceOwner: the first owner of a namespace stays. */
  function AddNamespaceOwner(owners: map<string, string>, namespace: string, owner: string): map<string, string> {
    if namespace == "" || owner == "" || namespace in owners then owners else owners[namespace := owner]
  }

  lemma TrimmedNext(names: seq<string>, i: nat)
    requires i < |names|
    ensures Trimmed(names[..i + 1]) ==
              Trimmed(names[..i]) + (if TrimSpace(names[i]) == "" then {} else {TrimSpace(names[i])})
  {
    hide TrimSpace;
    var a := names[..i + 1];
    assert forall k :: 0 <= k < i ==> a[k] == names[..i][k];
    assert a[i] == names[i];
    forall n | n in Trimmed(names[..i]) ensures n in Trimmed(a) {
      var k :| 0 <= k < i && TrimSpace(names[..i][k]) == n;
      assert TrimSpace(a[k]) == n;
    }
  }

  /** installedPackNamespaceOwners: exactly the namespaces of the foreign records. */
  method InstalledPackNamespaceOwners(installed: Registry, currentPackID: string) returns (owners: map<string, string>)
    ensures forall n :: n in owners <==> ForeignNamespace(installed, installed.Keys, currentPackID, n)
    ensures "" !in owners
  {
    hide TrimSpace, Trimmed;
    owners := map[];
    var todo := installed.Keys;
    while todo != {}
      invariant todo <= installed.Keys
      invariant forall n :: n in owners <==> ForeignNamespace(installed, installed.Keys - todo, currentPackID, n)
      decreases todo
    {
      var key :| key in todo;
      var r := installed[key];
      var owner := OwnerID(key, r);
      ghost var seen := installed.Keys - todo;
      todo := todo - {key};
      assert installed.Keys - todo == seen + {key};
      if owner == "" || owner == currentPackID { continue; }
      owners := AddRecord(owners, key, r, owner);
    }
    assert installed.Keys - todo == installed.Keys;
    NoEmptyNamespace(installed, currentPackID);
  }

  lemma NoEmptyNamespace(installed: Registry, id: string)
    ensures !ForeignNamespace(installed, installed.Keys, id, "")
  {
    hide Foreign;
  }

  ghost predicate ForeignNamespace(installed: Registry, keys: set<string>, id: string, n: string)
    requires keys <= installed.Keys
  {
    exists key :: key in keys && Foreign(key, installed[key], id) && n in Namespaces(key, installed[key])
  }

  method AddRecord(before: map<string, string>, key: string, r: Record, owner: string)
    returns (owners: map<string, string>)
    requires owner != ""
    ensures owners.Keys == before.Keys + Namespaces(key, r)
  {
    hide TrimSpace, Trimmed;
    var names := [key, r.id, r.manifestID] + r.aliases;
    owners := before;
    assert names[..0] == [];
    assert Trimmed(names[..0]) == {} by { NoneTrimmed(); }
    for i := 0 to |names|
      invariant owners.Keys == before.Keys + Trimmed(names[..i])
    {
      TrimmedNext(names, i);
      owners := AddNamespaceOwner(owners, TrimSpace(names[i]), owner);
    }
    assert names[..|names|] == names;
  }

  lemma NoneTrimmed()
    ensures Trimmed([]) == {}
  {}

  /** The non-empty trimmed names, as the source collects them in a map. */
  method CollectNames(names: seq<string>) returns (r: set<string>)
    ensures r == Trimmed(names)
  {
    hide TrimSpace, Trimmed;
    r := {};
    assert names[..0] == [];
    NoneTrimmed();
    for i := 0 to |names|
      invariant r == Trimmed(names[..i])
    {
      TrimmedNext(names, i);
      if TrimSpace(names[i]) != "" { r := r + {TrimSpace(names[i])}; }
    }
    assert names[..|names|] == names;
  }

  /** Somebody else's topic that a new pack wants or would have authority over. */
  ghost predicate TopicClash(r: Record, candidates: set<string>, prefixes: seq<string>) {
    exists t :: t in Trimmed(r.topics) && (t in candidates || HasAnyPrefix(t, prefixes))
  }

  method CheckTopics(r: Record, candidates: set<string>, prefixes: seq<string>) returns (clash: bool)
    ensures clash <==> TopicClash(r, candidates, prefixes)
  {
    hide TrimSpace, Trimmed, HasAnyPrefix;
    assert r.topics[..0] == [];
    NoneTrimmed();
    for i := 0 to |r.topics|
      invariant forall t :: t in Trimmed(r.topics[..i]) ==> !(t in candidates || HasAnyPrefix(t, prefixes))
    {
      TrimmedNext(r.topics, i);
      var name := TrimSpace(r.topics[i]);
      if name == "" { continue; }
      var covered := CheckPrefixes(name, prefixes);
      if name in candidates || covered {
        TrimmedAt(r.topics, i);
        return true;
      }
    }
    assert r.topics[..|r.topics|] == r.topics;
    clash := false;
  }

  lemma TrimmedAt(names: seq<string>, i: nat)
    requires i < |names| && TrimSpace(names[i]) != ""
    ensures TrimSpace(names[i]) in Trimmed(names)
  {}

  /** A requested namespace that somebody owns; empty if there is none. */
  method FindTaken(owners: map<string, string>, candidates: set<string>) returns (n: string)
    requires "" !in owners
    ensures n != "" ==> n in owners && n in candidates
    ensures n == "" ==> !exists n :: n in owners && n in candidates
  {
    var todo := owners.Keys;
    while todo != {}
      invariant todo <= owners.Keys
      invariant forall n :: n in owners.Keys - todo ==> n !in candidates
      decreases todo
    {
      n :| n in todo;
      todo := todo - {n};
      if n in candidates { return; }
    }
    n := "";
  }

  method ValidatePackAliasOwnership(packID: string, aliases: seq<string>, topics: seq<string>, installed: Registry)
    returns (ok: bool)
    ensures ok <==> OwnershipOk(packID, aliases, topics, installed)
  {
    hide TrimSpace, Trimmed, HasAnyPrefix, TopicPrefixes;
    var id := TrimSpace(packID);
    if id == "" { return false; }
    var names := CollectNames(aliases);
    if id in names { return false; }
    var candidates := {id} + names;
    var owners := InstalledPackNamespaceOwners(installed, id);
    var taken := FindTaken(owners, candidates);
    if taken != "" {
      ghost var n := taken;
      ghost var key :| key in installed && Foreign(key, installed[key], id) && n in Namespaces(key, installed[key]);
      assert n in Namespaces(key, installed[key]) * ({id} + Trimmed(aliases));
      assert Clashes(key, installed[key], id, aliases, topics);
      return false;
    }
    var prefixes := PackTopicPrefixes(id, aliases);
    var wanted := CollectNames(topics);
    forall key | key in installed && Foreign(key, installed[key], id)
      ensures Clashes(key, installed[key], id, aliases, topics) <==> TopicClash(installed[key], wanted, prefixes)
    {
      NoNamespaceClash(owners, installed, id, key, candidates);
      TopicClashMeans(installed[key], topics, prefixes);
    }
    var todo := installed.Keys;
    while todo != {}
      invariant todo <= installed.Keys
      invariant forall key :: key in installed.Keys - todo ==> !Clashes(key, installed[key], id, aliases, topics)
      decreases todo
    {
      var key :| key in todo;
      todo := todo - {key};
      var owner := OwnerID(key, installed[key]);
      if owner == "" || owner == id { continue; }
      var clash := CheckTopics(installed[key], wanted, prefixes);
      if clash { return false; }
    }
    ok := true;
  }

  lemma NoNamespaceClash(owners: map<string, string>, installed: Registry, id: string, key: string,
                         candidates: set<string>)
    requires forall n :: n in owners <==> ForeignNamespace(installed, installed.Keys, id, n)
    requires !exists n :: n in owners && n in candidates
    requires key in installed && Foreign(key, installed[key], id)
    ensures Namespaces(key, installed[key]) * candidates == {}
  {
    hide Namespaces, Foreign;
    forall n | n in Namespaces(key, installed[key]) ensures n !in candidates {
      assert ForeignNamespace(installed, installed.Keys, id, n);
    }
  }

  lemma TopicClashMeans(r: Record, topics: seq<string>, prefixes: seq<string>)
    ensures TopicClash(r, Trimmed(topics), prefixes) <==>
              || Trimmed(r.topics) * Trimmed(topics) != {}
              || exists t :: t in Trimmed(r.topics) && HasAnyPrefix(t, prefixes)
  {
    hide Trimmed, HasAnyPrefix;
    if Trimmed(r.topics) * Trimmed(topics) != {} {
      var t :| t in Trimmed(r.topics) * Trimmed(topics);
    } else {
      forall t | t in Trimmed(r.topics) ensures t !in Trimmed(topics) {
        assert t !in Trimmed(r.topics) * Trimmed(topics);
      }
    }
  }
}
