/**
 Registry records of installed packs and their JSON form (cmd/cordumctl/pack.go). Decoding is that of
 encoding/json: null and absent members are zero values, a value of another type is an error.
 */
module PackRecords {
  import opened Wrappers
  import opened JsonValue

  /** A config overlay as it was applied; `patch` is an object. */
  datatype AppliedConfig = AppliedConfig(name: string, scope: string, scopeID: string, key: string, patch: Json)

  datatype AppliedPolicy = AppliedPolicy(name: string, fragmentID: string)

  /** A registry record; an uninstalled pack keeps its record, disabled. `schemas` and `workflows` map
      IDs to digests. */
  datatype Record = Record(
    id: string, status: string, manifestID: string, aliases: seq<string>, topics: seq<string>,
    schemas: map<string, string>, workflows: map<string, string>,
    configs: seq<AppliedConfig>, policies: seq<AppliedPolicy>)

  type Registry = map<string, Record>

  /** The status of an uninstalled pack. */
  const DISABLED := "DISABLED"

  /** Patches are objects. */
  predicate Shaped(r: Record) {
    forall i :: 0 <= i < |r.configs| ==> r.configs[i].patch.Obj?
  }

  predicate AllShaped(reg: Registry) {
    forall id :: id in reg ==> Shaped(reg[id])
  }

  // ---------------------------------------------------------------- encoding

  function Strings(ss: seq<string>): Json {
    Arr(seq(|ss|, i requires 0 <= i < |ss| => Str(ss[i])))
  }

  function StringMap(m: map<string, string>): Json {
    Obj(map k | k in m :: Str(m[k]))
  }

  function EncodeTopic(name: string): Json {
    Obj(map["Name" := Str(name)])
  }

  function EncodeConfig(a: AppliedConfig): Json {
    Obj(map["name" := Str(a.name), "scope" := Str(a.scope), "scope_id" := Str(a.scopeID), "key" := Str(a.key),
            "patch" := a.patch])
  }

  function EncodePolicy(a: AppliedPolicy): Json {
    Obj(map["name" := Str(a.name), "fragment_id" := Str(a.fragmentID)])
  }

  function EncodeManifest(r: Record): Json {
    Obj(map["metadata" := Obj(map["ID" := Str(r.manifestID), "Aliases" := Strings(r.aliases)]),
            "topics" := Arr(seq(|r.topics|, i requires 0 <= i < |r.topics| => EncodeTopic(r.topics[i])))])
  }

  function EncodeResources(r: Record): Json {
    Obj(map["schemas" := StringMap(r.schemas), "workflows" := StringMap(r.workflows)])
  }

  function EncodeOverlays(r: Record): Json {
    Obj(map["config" := Arr(seq(|r.configs|, i requires 0 <= i < |r.configs| => EncodeConfig(r.configs[i]))),
            "policy" := Arr(seq(|r.policies|, i requires 0 <= i < |r.policies| => EncodePolicy(r.policies[i])))])
  }

  function EncodeRecord(r: Record): Json {
    Obj(map["id" := Str(r.id), "status" := Str(r.status), "manifest" := EncodeManifest(r),
            "resources" := EncodeResources(r), "overlays" := EncodeOverlays(r)])
  }

  /** recordsToAny */
  function EncodeRegistry(reg: Registry): Json {
    Obj(map id | id in reg :: EncodeRecord(reg[id]))
  }

  // ---------------------------------------------------------------- decoding

  function DecodeString(j: Json): Option<string> {
    match j
    case Null => Some("")
    case Str(s) => Some(s)
    case _ => None
  }

  function DecodeFields(j: Json): Option<map<string, Json>> {
    match j
    case Null => Some(map[])
    case Obj(fields) => Some(fields)
    case _ => None
  }

  function DecodeItems(j: Json): Option<seq<Json>> {
    match j
    case Null => Some([])
    case Arr(items) => Some(items)
    case _ => None
  }

  /** Every item decodes, or the list does not. */
  function DecodeAll<T>(items: seq<Json>, f: Json -> Option<T>): Option<seq<T>> {
    if items == [] then Some([])
    else
      var before, last := DecodeAll(items[..|items| - 1], f), f(items[|items| - 1]);
      if before.Some? && last.Some? then Some(before.value + [last.value]) else None
  }

  function DecodeList<T>(j: Json, f: Json -> Option<T>): Option<seq<T>> {
    var items := DecodeItems(j);
    if items.Some? then DecodeAll(items.value, f) else None
  }

  function DecodeStringMap(j: Json): Option<map<string, string>> {
    var fields := DecodeFields(j);
    if fields.None? then None
    else
      var m := fields.value;
      if exists k :: k in m && DecodeString(m[k]).None? then None
      else Some(map k | k in m && DecodeString(m[k]).Some? :: DecodeString(m[k]).value)
  }

  function Member(fields: map<string, Json>, k: string): Json {
    if k in fields then fields[k] else Null
  }

  function DecodeTopic(j: Json): Option<string> {
    var f := DecodeFields(j);
    if f.None? then None else DecodeString(Member(f.value, "Name"))
  }

  function DecodeConfig(j: Json): Option<AppliedConfig> {
    var f := DecodeFields(j);
    if f.None? then None
    else
      var name, scope := DecodeString(Member(f.value, "name")), DecodeString(Member(f.value, "scope"));
      var id, key := DecodeString(Member(f.value, "scope_id")), DecodeString(Member(f.value, "key"));
      var patch := DecodeFields(Member(f.value, "patch"));
      if name.Some? && scope.Some? && id.Some? && key.Some? && patch.Some?
      then Some(AppliedConfig(name.value, scope.value, id.value, key.value, Obj(patch.value))) else None
  }

  function DecodePolicy(j: Json): Option<AppliedPolicy> {
    var f := DecodeFields(j);
    if f.None? then None
    else
      var name, id := DecodeString(Member(f.value, "name")), DecodeString(Member(f.value, "fragment_id"));
      if name.Some? && id.Some? then Some(AppliedPolicy(name.value, id.value)) else None
  }

  /** ID, aliases and topics. */
  function DecodeManifest(j: Json): Option<(string, seq<string>, seq<string>)> {
    var f := DecodeFields(j);
    if f.None? then None
    else
      var meta := DecodeFields(Member(f.value, "metadata"));
      var topics := DecodeList(Member(f.value, "topics"), DecodeTopic);
      if meta.None? || topics.None? then None
      else
        var id, aliases := DecodeString(Member(meta.value, "ID")),
          DecodeList(Member(meta.value, "Aliases"), DecodeString);
        if id.Some? && aliases.Some? then Some((id.value, aliases.value, topics.value)) else None
  }

  function DecodeResources(j: Json): Option<(map<string, string>, map<string, string>)> {
    var f := DecodeFields(j);
    if f.None? then None
    else
      var s, w := DecodeStringMap(Member(f.value, "schemas")), DecodeStringMap(Member(f.value, "workflows"));
      if s.Some? && w.Some? then Some((s.value, w.value)) else None
  }

  function DecodeOverlays(j: Json): Option<(seq<AppliedConfig>, seq<AppliedPolicy>)> {
    var f := DecodeFields(j);
    if f.None? then None
    else
      var c, p := DecodeList(Member(f.value, "config"), DecodeConfig),
        DecodeList(Member(f.value, "policy"), DecodePolicy);
      if c.Some? && p.Some? then Some((c.value, p.value)) else None
  }

  function DecodeRecord(j: Json): Option<Record> {
    var f := DecodeFields(j);
    if f.None? then None
    else
      var id, status := DecodeString(Member(f.value, "id")), DecodeString(Member(f.value, "status"));
      var m, r := DecodeManifest(Member(f.value, "manifest")), DecodeResources(Member(f.value, "resources"));
      var o := DecodeOverlays(Member(f.value, "overlays"));
      if id.Some? && status.Some? && m.Some? && r.Some? && o.Some?
      then Some(Record(id.value, status.value, m.value.0, m.value.1, m.value.2, r.value.0, r.value.1, o.value.0,
        o.value.1))
      else None
  }

  /** The records under "installed": none if the value is missing, an error if one does not decode. */
  function DecodeRegistry(j: Json): Option<Registry> {
    var fields := DecodeFields(j);
    if fields.None? then None
    else
      var m := fields.value;
      if exists id :: id in m && DecodeRecord(m[id]).None? then None
      else Some(map id | id in m && DecodeRecord(m[id]).Some? :: DecodeRecord(m[id]).value)
  }

  // ---------------------------------------------------------------- round trips

  lemma {:induction false} DecodeAllEncoded<T>(items: seq<Json>, f: Json -> Option<T>, xs: seq<T>)
    requires |items| == |xs| && forall i :: 0 <= i < |xs| ==> f(items[i]) == Some(xs[i])
    ensures DecodeAll(items, f) == Some(xs)
  {
    if xs != [] {
      var n := |xs| - 1;
      DecodeAllEncoded(items[..n], f, xs[..n]);
      assert xs == xs[..n] + [xs[n]];
    }
  }

  lemma StringsRoundTrip(ss: seq<string>)
    ensures DecodeList(Strings(ss), DecodeString) == Some(ss)
  {
    DecodeAllEncoded(Strings(ss).items, DecodeString, ss);
  }

  lemma StringMapRoundTrip(m: map<string, string>)
    ensures DecodeStringMap(StringMap(m)) == Some(m)
  {
    var e := StringMap(m).fields;
    assert e.Keys == m.Keys && forall k :: k in e ==> DecodeString(e[k]) == Some(m[k]);
    assert DecodeStringMap(StringMap(m)).value == m;
  }

  lemma ConfigRoundTrip(a: AppliedConfig)
    requires a.patch.Obj?
    ensures DecodeConfig(EncodeConfig(a)) == Some(a)
  {}

  lemma PolicyRoundTrip(a: AppliedPolicy)
    ensures DecodePolicy(EncodePolicy(a)) == Some(a)
  {}

  lemma ManifestRoundTrip(r: Record)
    ensures DecodeManifest(EncodeManifest(r)) == Some((r.manifestID, r.aliases, r.topics))
  {
    hide DecodeList, Strings;
    StringsRoundTrip(r.aliases);
    var items := EncodeManifest(r).fields["topics"];
    assert DecodeList(items, DecodeTopic) == Some(r.topics) by { TopicsRoundTrip(r.topics, items); }
  }

  lemma TopicsRoundTrip(names: seq<string>, j: Json)
    requires j.Arr? && |j.items| == |names| && forall i :: 0 <= i < |names| ==> j.items[i] == EncodeTopic(names[i])
    ensures DecodeList(j, DecodeTopic) == Some(names)
  {
    DecodeAllEncoded(j.items, DecodeTopic, names);
  }

  lemma ResourcesRoundTrip(r: Record)
    ensures DecodeResources(EncodeResources(r)) == Some((r.schemas, r.workflows))
  {
    hide DecodeStringMap, StringMap;
    StringMapRoundTrip(r.schemas);
    StringMapRoundTrip(r.workflows);
  }

  lemma OverlaysRoundTrip(r: Record)
    requires Shaped(r)
    ensures DecodeOverlays(EncodeOverlays(r)) == Some((r.configs, r.policies))
  {
    hide DecodeConfig, DecodePolicy, EncodeConfig, EncodePolicy, DecodeAll;
    var c, p := EncodeOverlays(r).fields["config"].items, EncodeOverlays(r).fields["policy"].items;
    forall i | 0 <= i < |r.configs| ensures DecodeConfig(c[i]) == Some(r.configs[i]) { ConfigRoundTrip(r.configs[i]); }
    forall i | 0 <= i < |r.policies|
      ensures DecodePolicy(p[i]) == Some(r.policies[i])
    {
      PolicyRoundTrip(r.policies[i]);
    }
    DecodeAllEncoded(c, DecodeConfig, r.configs);
    DecodeAllEncoded(p, DecodePolicy, r.policies);
  }

  lemma RecordRoundTrip(r: Record)
    requires Shaped(r)
    ensures DecodeRecord(EncodeRecord(r)) == Some(r)
  {
    hide DecodeManifest, EncodeManifest, DecodeResources, EncodeResources, DecodeOverlays, EncodeOverlays;
    ManifestRoundTrip(r);
    ResourcesRoundTrip(r);
    OverlaysRoundTrip(r);
  }

  /** What is written to the registry is what is read back. */
  lemma RegistryRoundTrip(reg: Registry)
    requires AllShaped(reg)
    ensures DecodeRegistry(EncodeRegistry(reg)) == Some(reg)
  {
    hide DecodeRecord, EncodeRecord, Shaped;
    var e := EncodeRegistry(reg).fields;
    assert e.Keys == reg.Keys;
    forall id | id in e ensures DecodeRecord(e[id]) == Some(reg[id]) { RecordRoundTrip(reg[id]); }
    assert DecodeRegistry(EncodeRegistry(reg)).value == reg;
  }

  lemma {:induction false} DecodedConfigsShaped(items: seq<Json>)
    ensures var r := DecodeAll(items, DecodeConfig);
            r.Some? ==> forall i :: 0 <= i < |r.value| ==> r.value[i].patch.Obj?
  {
    if items != [] { DecodedConfigsShaped(items[..|items| - 1]); }
  }

  lemma DecodedShaped(j: Json)
    ensures DecodeRecord(j).Some? ==> Shaped(DecodeRecord(j).value)
  {
    hide DecodeManifest, DecodeResources, DecodeConfig, DecodePolicy, DecodeAll;
    var f := DecodeFields(j);
    if f.Some? {
      var g := DecodeFields(Member(f.value, "overlays"));
      if g.Some? {
        var items := DecodeItems(Member(g.value, "config"));
        if items.Some? { DecodedConfigsShaped(items.value); }
      }
    }
  }

  /** Every record that decodes has object patches. */
  lemma RegistryShaped(j: Json)
    ensures DecodeRegistry(j).Some? ==> AllShaped(DecodeRegistry(j).value)
  {
    hide DecodeRecord, Shaped;
    var reg := DecodeRegistry(j);
    if reg.Some? {
      forall id | id in reg.value ensures Shaped(reg.value[id]) { DecodedShaped(DecodeFields(j).value[id]); }
    }
  }
}
