/**
 The registry document at the gateway (cmd/cordumctl/pack.go): reading all records, and writing them
 back with one of them replaced.
 */
module RegistryStore {
  import opened Wrappers
  import opened JsonValue
  import opened PackStore
  import opened PackRecords
  import opened Text

  const REGISTRY := ConfigCell("system", "packs", "installed")

  /** The installed records; none if the document cannot be decoded. */
  function RegistryOf(st: Store): Option<Registry> {
    var v := View(st, REGISTRY);
    if v.None? then Some(map[]) else DecodeRegistry(v.value)
  }

  /** validateConfigPatch only admits these keys. */
  predicate AllowedKey(key: string) {
    Lower(key) == "pools" || Lower(key) == "timeouts"
  }

  lemma AllowedCells(c: Cell)
    requires c.ConfigCell? && AllowedKey(c.key)
    ensures RealCell(c) && c != REGISTRY
  {
    assert Lower(POLICY_KEY)[0] == 'b' && Lower("installed")[0] == 'i';
  }

  function CellOf(a: AppliedConfig): Cell {
    ConfigCell(a.scope, a.scopeID, a.key)
  }

  /** What an install records: object patches on the keys that overlays may touch. */
  predicate RecordOk(r: Record) {
    Shaped(r) && forall i :: 0 <= i < |r.configs| ==> AllowedKey(r.configs[i].key)
  }

  /** Every record is one that an install can have written. */
  predicate RegistryOk(st: Store) {
    RegistryOf(st).Some? ==> forall id :: id in RegistryOf(st).value ==> RecordOk(RegistryOf(st).value[id])
  }

  lemma RegistryView(st: Store)
    ensures var data := DataOf(st, "system", "packs");
            View(st, REGISTRY) == if "installed" in data && data["installed"] != Null then Some(data["installed"])
              else None
  {}

  /** loadPackRegistry: a document that does not decode is an error, a missing one is empty. */
  method LoadRegistry(gw: Gateway) returns (r: Option<Registry>, data: Data)
    modifies gw`clock
    ensures r.Some? ==> RegistryOf(gw.st) == r && data == DataOf(gw.st, "system", "packs")
    ensures gw.Reliable() ==> r == RegistryOf(gw.st)
  {
    hide View, DecodeRegistry;
    RegistryView(gw.st);
    var reply := gw.GetConfig("system", "packs");
    if reply.CallFailed? { return None, map[]; }
    data := if reply.Found? then reply.value else map[];
    var raw := if "installed" in data then data["installed"] else Null;
    if raw == Null { return Some(map[]), data; }
    r := DecodeRegistry(raw);
  }

  /** Exactly the registry changed, and in it exactly this record. */
  ghost predicate RecordPut(st: Store, st': Store, r: Record) {
    && (forall d :: RealCell(d) && d != REGISTRY ==> View(st', d) == View(st, d))
    && RegistryOf(st).Some? && RegistryOf(st') == Some(RegistryOf(st).value[r.id := r])
  }

  /** updatePackRegistry: all records are read and written back with this one put in. */
  method UpdateRegistry(gw: Gateway, r: Record) returns (ok: bool)
    requires Shaped(r)
    modifies gw
    ensures gw.Reliable() && RegistryOf(old(gw.st)).Some? ==> ok
    ensures if ok then RecordPut(old(gw.st), gw.st, r) else gw.st == old(gw.st)
  {
    hide View, DecodeRegistry, EncodeRegistry, Shaped, AllShaped;
    var records, data := LoadRegistry(gw);
    if records.None? { return false; }
    StoredShaped(gw.st);
    var all := records.value[r.id := r];
    assert AllShaped(all) by { ShapedMore(records.value, r); }
    RegistryRoundTrip(all);
    assert EncodeRegistry(all) != Null by { EncodedIsObject(all); }
    WroteConfig(gw.st, "system", "packs", "installed", EncodeRegistry(all));
    ok := gw.SetConfig("system", "packs", data["installed" := EncodeRegistry(all)]);
  }

  lemma StoredShaped(st: Store)
    ensures RegistryOf(st).Some? ==> AllShaped(RegistryOf(st).value)
  {
    hide View;
    if View(st, REGISTRY).Some? { RegistryShaped(View(st, REGISTRY).value); }
  }

  lemma ShapedMore(reg: Registry, r: Record)
    requires AllShaped(reg) && Shaped(r)
    ensures AllShaped(reg[r.id := r])
  {}

  lemma EncodedIsObject(reg: Registry)
    ensures EncodeRegistry(reg).Obj?
  {}

  /** A registry write with an admissible record keeps the registry admissible. */
  lemma PutKeepsOk(st: Store, st': Store, r: Record)
    requires RecordPut(st, st', r) && RegistryOk(st) && RecordOk(r)
    ensures RegistryOk(st')
  {
    hide View, DecodeRegistry, RecordOk;
  }

  /** Nothing else touches the registry. */
  lemma SameRegistry(st: Store, st': Store)
    requires View(st', REGISTRY) == View(st, REGISTRY)
    ensures RegistryOf(st') == RegistryOf(st) && (RegistryOk(st') <==> RegistryOk(st))
  {}
}
