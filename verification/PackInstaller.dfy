/**
 runPackInstall and its rollback as the source writes them: loops that apply one resource after
 another, keep lists of what was applied, and walk those lists backwards on failure.
 */
module PackInstaller {
  import opened Wrappers
  import opened JsonValue
  import opened PackStore
  import opened PackInstall
  import MergePatch
  import Canonical
  import CanonicalWriter
  import ConfigPatch
  import opened PackRecords
  import PackRegistry
  import opened RegistryStore
  import opened Text

  /** A schema or workflow file of a pack. */
  datatype Resource = Resource(id: string, value: Json)

  /** What planSchemas / planWorkflows decided for one resource. */
  datatype Plan = Plan(id: string, value: Json, digest: CanonicalWriter.Digest, existing: Option<Json>, noop: bool)

  datatype ConfigOverlay = ConfigOverlay(name: string, scope: string, scopeID: string, key: string, patch: Json)

  datatype PolicyOverlay = PolicyOverlay(name: string, fragment: Json)

  datatype Topic = Topic(name: string, registration: Json)

  datatype Pack = Pack(
    id: string, aliases: seq<string>, schemas: seq<Resource>, workflows: seq<Resource>,
    configs: seq<ConfigOverlay>, policies: seq<PolicyOverlay>, topics: seq<Topic>)

  /** What a pack's files must be for the source to get this far: schemas and workflows are
      objects, and a workflow carries its own ID. */
  predicate PackOk(p: Pack) {
    && (forall i :: 0 <= i < |p.schemas| ==> p.schemas[i].value.Obj?)
    && (forall i :: 0 <= i < |p.workflows| ==>
        p.workflows[i].value.Obj? && Field(p.workflows[i].value, "id") == Str(p.workflows[i].id))
  }

  /** Stored workflows carry the ID they are stored under. */
  predicate StoreOk(st: Store) {
    forall id :: id in st.workflows && st.workflows[id] != Null ==> Field(st.workflows[id], "id") == Str(id)
  }

  function Scope(o: ConfigOverlay): string {
    if TrimSpace(o.scope) == "" then "system" else TrimSpace(o.scope)
  }

  function ScopeID(o: ConfigOverlay): string {
    if Scope(o) == "system" && TrimSpace(o.scopeID) == "" then "default" else TrimSpace(o.scopeID)
  }

  function ConfigKey(o: ConfigOverlay): string { TrimSpace(o.key) }

  function CellFor(o: ConfigOverlay): Cell {
    ConfigCell(Scope(o), ScopeID(o), ConfigKey(o))
  }

  function FragmentId(packID: string, name: string): string {
    packID + "/" + (if TrimSpace(name) == "" then "default" else TrimSpace(name))
  }

  /** An undo the gateway can perform: a workflow is restored under its own ID. */
  predicate Undoable(c: Change) {
    && RealCell(c.cell)
    && (c.cell.WorkflowCell? && c.undo.Some? ==> c.undo.value != Null && Field(c.undo.value, "id") == Str(c.cell.id))
    && (c.cell.SchemaCell? && c.undo.Some? ==> c.undo.value != Null)
    && (c.cell.ConfigCell? && c.undo.Some? ==> c.undo.value != Null)
    && (c.cell.TopicCell? ==> c.undo == None)
  }

  // ---------------------------------------------------------------- undoing one change

  /** restoreConfigOverlay */
  method RestoreConfigOverlay(gw: Gateway, c: Change) returns (ok: bool)
    requires c.cell.ConfigCell? && Undoable(c)
    modifies gw
    ensures if ok then Wrote(old(gw.st), gw.st, c.cell, c.undo) else gw.st == old(gw.st)
  {
    hide View;
    var ConfigCell(scope, id, key) := c.cell;
    var r := gw.GetConfig(scope, id);
    if r.CallFailed? { return false; }
    var data := if r.Found? then r.value else map[];
    assert data == DataOf(gw.st, scope, id);
    if c.undo.None? {
      WroteConfigDelete(gw.st, scope, id, key);
      data := data - {key};
    } else {
      WroteConfig(gw.st, scope, id, key, c.undo.value);
      data := data[key := c.undo.value];
    }
    ok := gw.SetConfig(scope, id, data);
  }

  /** restorePolicyOverlay */
  method RestorePolicyOverlay(gw: Gateway, c: Change) returns (ok: bool)
    requires c.cell.FragmentCell?
    modifies gw
    ensures if ok then Wrote(old(gw.st), gw.st, c.cell, c.undo) else gw.st == old(gw.st)
  {
    hide View;
    var f := c.cell.fragmentID;
    var r := gw.GetConfig(POLICY_SCOPE, POLICY_ID);
    if r.CallFailed? { return false; }
    var data := if r.Found? then r.value else map[];
    assert data == DataOf(gw.st, POLICY_SCOPE, POLICY_ID);
    var bundles := if POLICY_KEY in data then Fields(data[POLICY_KEY]) else map[];
    assert bundles == Fragments(gw.st);
    WroteFragment(gw.st, f, if c.undo.Some? then c.undo.value else Null);
    if c.undo.None? {
      bundles := bundles - {f};
    } else {
      bundles := bundles[f := c.undo.value];
    }
    ok := gw.SetConfig(POLICY_SCOPE, POLICY_ID, data[POLICY_KEY := Obj(bundles)]);
  }

  /** rollbackSchema, rollbackWorkflow, rollbackTopic and the two overlay restores. */
  method Undo(gw: Gateway, c: Change) returns (ok: bool)
    requires Undoable(c)
    modifies gw
    ensures if ok then Wrote(old(gw.st), gw.st, c.cell, c.undo) else gw.st == old(gw.st)
  {
    match c.cell
    case SchemaCell(id) =>
      WroteSchema(gw.st, id, if c.undo.Some? then c.undo.value else Bool(true));
      if c.undo.Some? { ok := gw.RegisterSchema(id, c.undo.value); } else { ok := gw.DeleteSchema(id); }
    case WorkflowCell(id) =>
      WroteWorkflow(gw.st, id, if c.undo.Some? then c.undo.value else Bool(true));
      if c.undo.Some? { ok := gw.CreateWorkflow(c.undo.value); } else { ok := gw.DeleteWorkflow(id); }
    case ConfigCell(_, _, _) => ok := RestoreConfigOverlay(gw, c);
    case FragmentCell(_) => ok := RestorePolicyOverlay(gw, c);
    case TopicCell(n) =>
      WroteTopic(gw.st, n, Null);
      var r := gw.RemoveTopic(n);
      ok := !r.CallFailed?;
  }

  /** One loop of the rollback: every change is attempted, from last to first, whatever the others
      did. */
  method RollbackList(gw: Gateway, rs: seq<Change>) returns (oks: seq<bool>)
    requires forall i :: 0 <= i < |rs| ==> Undoable(rs[i])
    modifies gw
    ensures |oks| == |rs|
    ensures forall d :: RealCell(d) ==> View(gw.st, d) == Undone(View(old(gw.st), d), rs, oks, d)
  {
    hide View, RealCell;
    oks := [];
    var i := |rs|;
    while i > 0
      invariant 0 <= i <= |rs| && |oks| == |rs| - i
      invariant forall d :: RealCell(d) ==> View(gw.st, d) == Undone(View(old(gw.st), d), rs[i..], oks, d)
    {
      ghost var st, later := gw.st, oks;
      i := i - 1;
      var ok := Undo(gw, rs[i]);
      oks := [ok] + oks;
      forall d | RealCell(d) ensures View(gw.st, d) == Undone(View(old(gw.st), d), rs[i..], oks, d) {
        assert rs[i..][0] == rs[i] && rs[i..][1..] == rs[i + 1..] && oks[1..] == later;
      }
    }
    assert rs[0..] == rs;
  }

  lemma {:induction false} UndoneConcat(v: Option<Json>, a: seq<Change>, oa: seq<bool>, b: seq<Change>, ob: seq<bool>,
                                        d: Cell)
    requires |a| == |oa| && |b| == |ob|
    ensures Undone(v, a + b, oa + ob, d) == Undone(Undone(v, b, ob, d), a, oa, d)
    decreases |a|
  {
    if a == [] {
      assert a + b == b && oa + ob == ob;
    } else {
      assert (a + b)[1..] == a[1..] + b && (oa + ob)[1..] == oa[1..] + ob;
      UndoneConcat(v, a[1..], oa[1..], b, ob, d);
    }
  }

  // ---------------------------------------------------------------- intents

  function SchemaIntent(p: Plan): Option<Intent> {
    if p.noop then None else Some(SetTo(SchemaCell(p.id), p.value, true))
  }

  function WorkflowIntent(p: Plan): Option<Intent> {
    if p.noop then None else Some(SetTo(WorkflowCell(p.id), p.value, true))
  }

  /** --inactive leaves the pools overlays out. */
  predicate Skipped(o: ConfigOverlay, inactive: bool) {
    inactive && Lower(ConfigKey(o)) == "pools"
  }

  /** An overlay the install takes: an object for one of the allowed keys. */
  predicate ValidOverlay(o: ConfigOverlay) {
    ConfigKey(o) != "" && o.patch.Obj? && AllowedKey(ConfigKey(o))
  }

  function ConfigIntent(o: ConfigOverlay, inactive: bool): Option<Intent> {
    if Skipped(o, inactive) then None
    else Some(MergeTo(CellFor(o), o.patch, o.name != ""))
  }

  /** A config key after the overlays of the list were merged into it. */
  function ConfigAfter(v: Option<Json>, os: seq<ConfigOverlay>, inactive: bool, d: Cell): Option<Json> {
    if os == [] then v
    else
      var before, o := ConfigAfter(v, os[..|os| - 1], inactive, d), os[|os| - 1];
      if !Skipped(o, inactive) && CellFor(o) == d then Some(MergePatch.MergeInto(Value(before), o.patch)) else before
  }

  /** The overlay may be merged into the value it meets. */
  predicate OverlayFits(o: ConfigOverlay, id: string, aliases: seq<string>, current: Json) {
    ValidOverlay(o) && ConfigPatch.PatchOk(ConfigKey(o), o.patch.fields, id, aliases, current)
  }

  /** Overlay number `i` is left out, or fits after the ones before it. */
  ghost predicate FitsAt(st: Store, id: string, aliases: seq<string>, os: seq<ConfigOverlay>, inactive: bool, i: nat)
    requires i < |os|
  {
    || Skipped(os[i], inactive)
    || OverlayFits(os[i], id, aliases, Value(ConfigAfter(View(st, CellFor(os[i])), os[..i], inactive, CellFor(os[i]))))
  }

  ghost predicate AllFit(st: Store, id: string, aliases: seq<string>, os: seq<ConfigOverlay>, inactive: bool) {
    forall i :: 0 <= i < |os| ==> FitsAt(st, id, aliases, os, inactive, i)
  }

  lemma FitIsValid(st: Store, id: string, aliases: seq<string>, os: seq<ConfigOverlay>, inactive: bool)
    requires AllFit(st, id, aliases, os, inactive)
    ensures forall i :: 0 <= i < |os| ==> Skipped(os[i], inactive) || ValidOverlay(os[i])
  {
    hide Skipped, ValidOverlay, ConfigPatch.PatchOk;
    forall i | 0 <= i < |os| ensures Skipped(os[i], inactive) || ValidOverlay(os[i]) {
      assert FitsAt(st, id, aliases, os, inactive, i);
    }
  }

  /** The config keys hold what the first `i` overlays made of `st0`. */
  ghost predicate ConfigsAt(st0: Store, st: Store, os: seq<ConfigOverlay>, inactive: bool, i: nat)
    requires i <= |os|
  {
    forall d :: RealCell(d) && d.ConfigCell? ==> View(st, d) == ConfigAfter(View(st0, d), os[..i], inactive, d)
  }

  lemma ConfigsNext(st0: Store, st: Store, st': Store, os: seq<ConfigOverlay>, inactive: bool, i: nat)
    requires i < |os| && ConfigsAt(st0, st, os, inactive, i)
    requires Skipped(os[i], inactive) ==> st' == st
    requires !Skipped(os[i], inactive) ==>
               Wrote(st, st', CellFor(os[i]),
                     Some(MergePatch.MergeInto(Value(View(st, CellFor(os[i]))), os[i].patch)))
    ensures ConfigsAt(st0, st', os, inactive, i + 1)
  {
    hide View, Skipped, CellFor, RealCell, MergePatch.MergeInto;
    assert os[..i + 1][..i] == os[..i];
  }

  function PolicyIntent(packID: string, o: PolicyOverlay): Option<Intent> {
    Some(SetTo(FragmentCell(FragmentId(packID, o.name)), o.fragment, o.name != ""))
  }

  function TopicIntent(t: Topic): Option<Intent> {
    Some(SetTo(TopicCell(t.name), t.registration, true))
  }

  /** Everything the install writes before the registry, in order. */
  function Intents(p: Pack, sp: seq<Plan>, wp: seq<Plan>, inactive: bool): seq<Intent> {
    Collect(sp, SchemaIntent) + Collect(wp, WorkflowIntent)
    + Collect(p.configs, (o: ConfigOverlay) => ConfigIntent(o, inactive))
    + Collect(p.policies, (o: PolicyOverlay) => PolicyIntent(p.id, o))
    + Collect(p.topics, TopicIntent)
  }

  // ---------------------------------------------------------------- the record

  /** The overlay as the record lists it. */
  function AppliedOverlay(o: ConfigOverlay): AppliedConfig {
    AppliedConfig(o.name, Scope(o), ScopeID(o), ConfigKey(o), o.patch)
  }

  /** The overlays that end up in the record: those applied, with a name. */
  function RecordedConfigs(os: seq<ConfigOverlay>, inactive: bool): seq<AppliedConfig> {
    if os == [] then []
    else
      var before, o := RecordedConfigs(os[..|os| - 1], inactive), os[|os| - 1];
      if !Skipped(o, inactive) && o.name != "" then before + [AppliedOverlay(o)] else before
  }

  function RecordedPolicies(packID: string, os: seq<PolicyOverlay>): seq<AppliedPolicy> {
    if os == [] then []
    else
      var before, o := RecordedPolicies(packID, os[..|os| - 1]), os[|os| - 1];
      if o.name != "" then before + [AppliedPolicy(o.name, FragmentId(packID, o.name))] else before
  }

  function TopicNames(ts: seq<Topic>): seq<string> {
    seq(|ts|, i requires 0 <= i < |ts| => ts[i].name)
  }

  /** Plan IDs with their digests in hex. */
  function Digests(plans: seq<Plan>, hex: CanonicalWriter.Digest -> string): map<string, string> {
    if plans == [] then map[]
    else
      var last := plans[|plans| - 1];
      Digests(plans[..|plans| - 1], hex)[last.id := hex(last.digest)]
  }

  /** hasPoolOverlay: a recorded overlay is for the pools key. */
  predicate HasPoolOverlay(os: seq<AppliedConfig>) {
    exists i :: 0 <= i < |os| && Lower(os[i].key) == "pools"
  }

  function StatusOf(inactive: bool, os: seq<AppliedConfig>): string {
    if inactive || !HasPoolOverlay(os) then "INACTIVE" else "ACTIVE"
  }

  function RecordOf(p: Pack, sp: seq<Plan>, wp: seq<Plan>, inactive: bool,
                    hex: CanonicalWriter.Digest -> string): Record {
    var configs := RecordedConfigs(p.configs, inactive);
    Record(p.id, StatusOf(inactive, configs), p.id, p.aliases, TopicNames(p.topics), Digests(sp, hex), Digests(wp, hex),
           configs, RecordedPolicies(p.id, p.policies))
  }

  lemma RecordedNext(os: seq<ConfigOverlay>, inactive: bool, i: nat)
    requires i < |os|
    ensures RecordedConfigs(os[..i + 1], inactive) ==
              if !Skipped(os[i], inactive) && os[i].name != ""
                then RecordedConfigs(os[..i], inactive) + [AppliedOverlay(os[i])]
              else RecordedConfigs(os[..i], inactive)
  {
    assert os[..i + 1][..i] == os[..i];
  }

  lemma PoliciesNext(packID: string, os: seq<PolicyOverlay>, i: nat)
    requires i < |os|
    ensures RecordedPolicies(packID, os[..i + 1]) ==
              if os[i].name != ""
                then RecordedPolicies(packID, os[..i]) + [AppliedPolicy(os[i].name, FragmentId(packID, os[i].name))]
              else RecordedPolicies(packID, os[..i])
  {
    assert os[..i + 1][..i] == os[..i];
  }

  /** What is recorded is admissible. */
  lemma {:induction false} RecordedAllowed(os: seq<ConfigOverlay>, inactive: bool)
    requires forall i :: 0 <= i < |os| ==> Skipped(os[i], inactive) || ValidOverlay(os[i])
    ensures forall i :: 0 <= i < |RecordedConfigs(os, inactive)| ==>
              RecordedConfigs(os, inactive)[i].patch.Obj? && AllowedKey(RecordedConfigs(os, inactive)[i].key)
  {
    hide Skipped, AllowedKey, TrimSpace;
    if os != [] { RecordedAllowed(os[..|os| - 1], inactive); }
  }

  /** The digest loops of runPackInstall. */
  method CollectDigests(plans: seq<Plan>, hex: CanonicalWriter.Digest -> string) returns (m: map<string, string>)
    ensures m == Digests(plans, hex)
  {
    m := map[];
    for i := 0 to |plans|
      invariant m == Digests(plans[..i], hex)
    {
      assert plans[..i + 1][..i] == plans[..i];
      m := m[plans[i].id := hex(plans[i].digest)];
    }
    assert plans[..|plans|] == plans;
  }

  method CheckPoolOverlay(os: seq<AppliedConfig>) returns (r: bool)
    ensures r == HasPoolOverlay(os)
  {
    for i := 0 to |os|
      invariant forall k :: 0 <= k < i ==> Lower(os[k].key) != "pools"
    {
      if Lower(os[i].key) == "pools" { return true; }
    }
    r := false;
  }

  // ---------------------------------------------------------------- the install

  /** The lists the source keeps of what has been applied, in the order it applies things. */
  class Installer {
    const gw: Gateway
    var schemas: seq<Change>
    var workflows: seq<Change>
    var configs: seq<Change>
    var policies: seq<Change>
    var topics: seq<Change>
    /** The overlays the record will list. */
    var appliedConfig: seq<AppliedConfig>
    var appliedPolicy: seq<AppliedPolicy>
    /** Everything written, recorded or not, and the store it started from. */
    ghost var all: seq<Change>
    ghost var st0: Store

    ghost predicate Valid()
      reads this, gw
    {
      && StoreOk(st0)
      && Reached(st0, gw.st, all) && Sound(st0, all)
      && Recorded(all) == schemas + workflows + configs + policies + topics
      && forall i :: 0 <= i < |Recorded(all)| ==> Undoable(Recorded(all)[i])
    }

    constructor (g: Gateway)
      requires StoreOk(g.st)
      ensures Valid() && gw == g && st0 == g.st && all == []
      ensures schemas == workflows == configs == policies == topics == [] && appliedConfig == [] && appliedPolicy == []
    {
      gw := g;
      schemas, workflows, configs, policies, topics, all := [], [], [], [], [], [];
      appliedConfig, appliedPolicy := [], [];
      st0 := g.st;
    }

    /** Note a write that just happened; the caller then extends the matching list. */
    ghost method Note(st: Store, c: Change)
      requires StoreOk(st0) && Reached(st0, st, all) && Sound(st0, all)
      requires RealCell(c.cell) && Wrote(st, gw.st, c.cell, c.value) && SoundAt(st0, all + [c], |all|)
      modifies this`all
      ensures all == old(all) + [c]
      ensures Reached(st0, gw.st, all) && Sound(st0, all)
      ensures Recorded(all) == Recorded(old(all)) + (if c.recorded then [c] else [])
    {
      OneMore(st0, st, gw.st, all, c);
      all := all + [c];
    }

    /** The schema loop: no-op plans are skipped, the first failing call stops it. */
    method ApplySchemas(plans: seq<Plan>) returns (ok: bool)
      requires Valid() && workflows == configs == policies == topics == []
      requires forall i :: 0 <= i < |plans| ==> PlannedSchema(st0, plans[i])
      modifies this, gw
      ensures Valid() && st0 == old(st0) && workflows == configs == policies == topics == []
      ensures AllRecorded(old(all)) ==> AllRecorded(all)
      ensures Follows(old(all), all, Collect(plans, SchemaIntent), ok)
      ensures gw.Reliable() ==> ok
      ensures appliedConfig == old(appliedConfig)
      ensures appliedPolicy == old(appliedPolicy)
    {
      hide View, Recorded, Sound, Reached, Wrote, Follows, Collect;
      Start(plans, SchemaIntent);
      for i := 0 to |plans|
        invariant Valid() && st0 == old(st0) && workflows == configs == policies == topics == []
        invariant AllRecorded(old(all)) ==> AllRecorded(all)
        invariant Follows(old(all), all, Collect(plans[..i], SchemaIntent), true)
        invariant appliedConfig == old(appliedConfig)
        invariant appliedPolicy == old(appliedPolicy)
      {
        Progress(old(all), all, plans, SchemaIntent, i);
        var plan := plans[i];
        if plan.noop { continue; }
        ghost var st := gw.st;
        ok := gw.RegisterSchema(plan.id, plan.value);
        if !ok { return; }
        var c := Change(SchemaCell(plan.id), Some(plan.value), Existing(plan), true);
        WroteSchema(st, plan.id, plan.value);
        Note(st, c);
        FollowsSnoc(old(all), all[..|all| - 1], Collect(plans[..i], SchemaIntent), c, SchemaIntent(plan).value);
        schemas := schemas + [c];
      }
      assert plans[..|plans|] == plans;
      ok := true;
    }

    method ApplyWorkflows(plans: seq<Plan>) returns (ok: bool)
      requires Valid() && configs == policies == topics == []
      requires forall i :: 0 <= i < |plans| ==> PlannedWorkflow(st0, plans[i])
      modifies this, gw
      ensures Valid() && st0 == old(st0) && configs == policies == topics == []
      ensures AllRecorded(old(all)) ==> AllRecorded(all)
      ensures Follows(old(all), all, Collect(plans, WorkflowIntent), ok)
      ensures gw.Reliable() ==> ok
      ensures appliedConfig == old(appliedConfig)
      ensures appliedPolicy == old(appliedPolicy)
    {
      hide View, Recorded, Sound, Reached, Wrote, Follows, Collect;
      Start(plans, WorkflowIntent);
      for i := 0 to |plans|
        invariant Valid() && st0 == old(st0) && configs == policies == topics == []
        invariant AllRecorded(old(all)) ==> AllRecorded(all)
        invariant Follows(old(all), all, Collect(plans[..i], WorkflowIntent), true)
        invariant appliedConfig == old(appliedConfig)
        invariant appliedPolicy == old(appliedPolicy)
      {
        Progress(old(all), all, plans, WorkflowIntent, i);
        var plan := plans[i];
        if plan.noop { continue; }
        ghost var st := gw.st;
        ok := gw.CreateWorkflow(plan.value);
        if !ok { return; }
        var c := Change(WorkflowCell(plan.id), Some(plan.value), Existing(plan), true);
        WroteWorkflow(st, plan.id, plan.value);
        ExistingId(st0, plan);
        Note(st, c);
        FollowsSnoc(old(all), all[..|all| - 1], Collect(plans[..i], WorkflowIntent), c, WorkflowIntent(plan).value);
        workflows := workflows + [c];
      }
      assert plans[..|plans|] == plans;
      ok := true;
    }

    /** applyConfigOverlay: merge the patch into the current value of one key. */
    method ApplyConfigOverlay(o: ConfigOverlay, packID: string, aliases: seq<string>) returns (c: Option<Change>)
      requires Valid()
      modifies gw, this`all
      ensures st0 == old(st0) && StoreOk(st0) && Reached(st0, gw.st, all) && Sound(st0, all)
      ensures c.None? ==> all == old(all) && gw.st == old(gw.st)
      ensures gw.Reliable() ==> (c.Some? <==> OverlayFits(o, packID, aliases, Value(View(old(gw.st), CellFor(o)))))
      ensures c.Some? ==>
                && OverlayFits(o, packID, aliases, Value(View(old(gw.st), CellFor(o))))
                && Wrote(old(gw.st), gw.st, CellFor(o),
                         Some(MergePatch.MergeInto(Value(View(old(gw.st), CellFor(o))), o.patch)))
                && all == old(all) + [c.value] && c.value.recorded == (o.name != "")
                && Realizes(c.value, MergeTo(CellFor(o), o.patch, o.name != "")) && Undoable(c.value)
                && Recorded(all) == Recorded(old(all)) + (if c.value.recorded then [c.value] else [])
    {
      hide View, Recorded, Sound, Reached, Wrote, ConfigPatch.PatchOk, MergePatch.MergeInto;
      var key := ConfigKey(o);
      if key == "" || !o.patch.Obj? { return None; }
      var loaded := gw.Tick();
      if !loaded { return None; }
      var scope, id := Scope(o), ScopeID(o);
      var r := gw.GetConfig(scope, id);
      if r.CallFailed? { return None; }
      var data := if r.Found? then r.value else map[];
      var current := if key in data then data[key] else Null;
      assert current == Value(View(gw.st, CellFor(o))) by { ConfigView(gw.st, scope, id, key); }
      var valid := ConfigPatch.ValidateConfigPatch(key, o.patch.fields, packID, aliases, current);
      if !valid { return None; }
      assert AllowedKey(key) by { PatchKey(key, o.patch.fields, packID, aliases, current); }
      MergedObject(current, o.patch);
      var updated := MergePatch.MergePatch(current, o.patch);
      ghost var st := gw.st;
      var ok := gw.SetConfig(scope, id, data[key := updated]);
      if !ok { return None; }
      var change := Change(ConfigCell(scope, id, key), Some(updated),
                           if current == Null then None else Some(current), o.name != "");
      AllowedCells(ConfigCell(scope, id, key));
      WroteConfig(st, scope, id, key, updated);
      assert change.undo == View(st, change.cell) by { ConfigView(st, scope, id, key); }
      OverlayIsSound(st0, st, all, change);
      Note(st, change);
      c := Some(change);
    }

    /** One overlay; with a name it goes into the record and the rollback list. */
    method ApplyAndRecord(o: ConfigOverlay, packID: string, aliases: seq<string>) returns (ok: bool, ghost c: Change)
      requires Valid() && policies == topics == []
      modifies this, gw
      ensures Valid() && st0 == old(st0) && policies == topics == [] && appliedPolicy == old(appliedPolicy)
      ensures !ok ==> all == old(all) && appliedConfig == old(appliedConfig)
      ensures gw.Reliable() ==> (ok <==> OverlayFits(o, packID, aliases, Value(View(old(gw.st), CellFor(o)))))
      ensures ok ==>
                && OverlayFits(o, packID, aliases, Value(View(old(gw.st), CellFor(o))))
                && Wrote(old(gw.st), gw.st, CellFor(o),
                         Some(MergePatch.MergeInto(Value(View(old(gw.st), CellFor(o))), o.patch)))
                && all == old(all) + [c] && c.recorded == (o.name != "")
                && Realizes(c, MergeTo(CellFor(o), o.patch, o.name != ""))
                && appliedConfig == old(appliedConfig) + (if o.name != "" then [AppliedOverlay(o)] else [])
    {
      hide View, Recorded, Sound, Reached, Wrote, Realizes, Undoable, CellFor, OverlayFits, MergePatch.MergeInto;
      c := Change(TopicCell(""), None, None, false);
      var change := ApplyConfigOverlay(o, packID, aliases);
      if change.None? { return false, c; }
      c := change.value;
      if o.name != "" {
        appliedConfig := appliedConfig + [AppliedOverlay(o)];
        configs := configs + [change.value];
      }
      ok := true;
    }

    method ApplyConfigs(overlays: seq<ConfigOverlay>, packID: string, aliases: seq<string>, inactive: bool)
      returns (ok: bool)
      requires Valid() && policies == topics == [] && ConfigsAt(st0, gw.st, overlays, inactive, 0)
      modifies this, gw
      ensures Valid() && st0 == old(st0) && policies == topics == []
      ensures AllRecorded(old(all)) && (forall i :: 0 <= i < |overlays| ==> overlays[i].name != "") ==> AllRecorded(all)
      ensures Follows(old(all), all, Collect(overlays, (o: ConfigOverlay) => ConfigIntent(o, inactive)), ok)
      ensures ok ==> AllFit(st0, packID, aliases, overlays, inactive)
      ensures gw.Reliable() && !ok ==> !AllFit(st0, packID, aliases, overlays, inactive)
      ensures ok ==> appliedConfig == old(appliedConfig) + RecordedConfigs(overlays, inactive)
      ensures appliedPolicy == old(appliedPolicy)
    {
      hide View, Recorded, Sound, Reached, Wrote, Follows, Collect, Skipped, Realizes, Undoable, RecordedConfigs,
        CellFor, OverlayFits, ConfigsAt, ConfigAfter, MergePatch.MergeInto;
      assert overlays[..0] == [] && RecordedConfigs([], inactive) == [] by { NothingRecorded(inactive, ""); }
      ghost var f := (o: ConfigOverlay) => ConfigIntent(o, inactive);
      Start(overlays, f);
      for i := 0 to |overlays|
        invariant Valid() && st0 == old(st0) && policies == topics == []
        invariant Follows(old(all), all, Collect(overlays[..i], f), true)
        invariant AllRecorded(old(all)) && (forall i :: 0 <= i < |overlays| ==> overlays[i].name != "") ==>
                    AllRecorded(all)
        invariant ConfigsAt(st0, gw.st, overlays, inactive, i)
        invariant forall k :: 0 <= k < i ==> FitsAt(st0, packID, aliases, overlays, inactive, k)
        invariant appliedConfig == old(appliedConfig) + RecordedConfigs(overlays[..i], inactive)
        invariant appliedPolicy == old(appliedPolicy)
      {
        Progress(old(all), all, overlays, f, i);
        RecordedNext(overlays, inactive, i);
        ghost var st := gw.st;
        if Skipped(overlays[i], inactive) {
          ConfigsNext(st0, st, st, overlays, inactive, i);
          continue;
        }
        FitsHere(st0, st, packID, aliases, overlays, inactive, i);
        ghost var before := all;
        ghost var c;
        ok, c := ApplyAndRecord(overlays[i], packID, aliases);
        if !ok { return; }
        ConfigsNext(st0, st, gw.st, overlays, inactive, i);
        FollowsSnoc(old(all), before, Collect(overlays[..i], f), c, f(overlays[i]).value);
      }
      assert overlays[..|overlays|] == overlays;
      ok := true;
    }

    /** applyPolicyOverlay: put one fragment into the policy document. */
    method ApplyPolicyOverlay(packID: string, o: PolicyOverlay) returns (c: Option<Change>)
      requires Valid()
      modifies gw, this`all
      ensures st0 == old(st0) && StoreOk(st0) && Reached(st0, gw.st, all) && Sound(st0, all)
      ensures c.None? ==> all == old(all) && gw.st == old(gw.st)
      ensures gw.Reliable() ==> c.Some?
      ensures c.Some? ==>
                && all == old(all) + [c.value] && c.value.recorded == (o.name != "")
                && Realizes(c.value, SetTo(FragmentCell(FragmentId(packID, o.name)), o.fragment, o.name != ""))
                    && Undoable(c.value)
                && Recorded(all) == Recorded(old(all)) + (if c.value.recorded then [c.value] else [])
    {
      hide View, Recorded, Sound, Reached, Wrote;
      var loaded := gw.Tick();
      if !loaded { return None; }
      var f := FragmentId(packID, o.name);
      var r := gw.GetConfig(POLICY_SCOPE, POLICY_ID);
      if r.CallFailed? { return None; }
      var data := if r.Found? then r.value else map[];
      var bundles := if POLICY_KEY in data then Fields(data[POLICY_KEY]) else map[];
      var previous := if f in bundles then Some(bundles[f]) else None;
      ghost var st := gw.st;
      var ok := gw.SetConfig(POLICY_SCOPE, POLICY_ID, data[POLICY_KEY := Obj(bundles[f := o.fragment])]);
      if !ok { return None; }
      var change := Change(FragmentCell(f), Some(o.fragment), previous, o.name != "");
      WroteFragment(st, f, o.fragment);
      assert change.undo == View(st, change.cell) by { FragmentView(st, f); }
      OverlayIsSound(st0, st, all, change);
      Note(st, change);
      c := Some(change);
    }

    method ApplyPolicies(packID: string, overlays: seq<PolicyOverlay>) returns (ok: bool)
      requires Valid() && topics == []
      modifies this, gw
      ensures Valid() && st0 == old(st0) && topics == []
      ensures AllRecorded(old(all)) && (forall i :: 0 <= i < |overlays| ==> overlays[i].name != "") ==> AllRecorded(all)
      ensures Follows(old(all), all, Collect(overlays, (o: PolicyOverlay) => PolicyIntent(packID, o)), ok)
      ensures gw.Reliable() ==> ok
      ensures appliedConfig == old(appliedConfig)
      ensures ok ==> appliedPolicy == old(appliedPolicy) + RecordedPolicies(packID, overlays)
    {
      hide View, Recorded, Sound, Reached, Wrote, Follows, Collect, RecordedPolicies, FragmentId;
      assert overlays[..0] == [] && RecordedPolicies(packID, []) == [] by { NothingRecorded(false, packID); }
      ghost var f := (o: PolicyOverlay) => PolicyIntent(packID, o);
      Start(overlays, f);
      for i := 0 to |overlays|
        invariant Valid() && st0 == old(st0) && topics == []
        invariant Follows(old(all), all, Collect(overlays[..i], f), true)
        invariant AllRecorded(old(all)) && (forall i :: 0 <= i < |overlays| ==> overlays[i].name != "") ==>
                    AllRecorded(all)
        invariant appliedConfig == old(appliedConfig)
        invariant appliedPolicy == old(appliedPolicy) + RecordedPolicies(packID, overlays[..i])
      {
        Progress(old(all), all, overlays, f, i);
        PoliciesNext(packID, overlays, i);
        var c := ApplyPolicyOverlay(packID, overlays[i]);
        if c.None? { return false; }
        if overlays[i].name != "" {
          appliedPolicy := appliedPolicy + [AppliedPolicy(overlays[i].name, FragmentId(packID, overlays[i].name))];
          policies := policies + [c.value];
        }
        FollowsSnoc(old(all), all[..|all| - 1], Collect(overlays[..i], f), c.value, f(overlays[i]).value);
      }
      assert overlays[..|overlays|] == overlays;
      ok := true;
    }

    method ApplyTopics(ts: seq<Topic>) returns (ok: bool)
      requires Valid()
      modifies this, gw
      ensures Valid() && st0 == old(st0)
      ensures AllRecorded(old(all)) ==> AllRecorded(all)
      ensures Follows(old(all), all, Collect(ts, TopicIntent), ok)
      ensures gw.Reliable() ==> ok
      ensures appliedConfig == old(appliedConfig)
      ensures appliedPolicy == old(appliedPolicy)
    {
      hide View, Recorded, Sound, Reached, Wrote, Follows, Collect;
      Start(ts, TopicIntent);
      Progress(all, all, ts, TopicIntent, 0);
      // the pool mappings are read first
      ok := gw.Tick();
      if !ok { return; }
      for i := 0 to |ts|
        invariant Valid() && st0 == old(st0)
        invariant AllRecorded(old(all)) ==> AllRecorded(all)
        invariant Follows(old(all), all, Collect(ts[..i], TopicIntent), true)
        invariant appliedConfig == old(appliedConfig)
        invariant appliedPolicy == old(appliedPolicy)
      {
        Progress(old(all), all, ts, TopicIntent, i);
        ghost var st := gw.st;
        ok := gw.RegisterTopic(ts[i].name, ts[i].registration);
        if !ok { return; }
        var c := Change(TopicCell(ts[i].name), Some(ts[i].registration), None, true);
        WroteTopic(st, ts[i].name, ts[i].registration);
        Note(st, c);
        FollowsSnoc(old(all), all[..|all| - 1], Collect(ts[..i], TopicIntent), c, TopicIntent(ts[i]).value);
        topics := topics + [c];
      }
      assert ts[..|ts|] == ts;
      ok := true;
    }

    /** rollbackPackInstall: topics, policies, configs, workflows, schemas, each list backwards;
        every recorded change is attempted. */
    method Rollback() returns (oks: seq<bool>)
      requires Valid()
      modifies gw
      ensures |oks| == |Recorded(all)|
      ensures forall d :: RealCell(d) ==> View(gw.st, d) == Undone(View(old(gw.st), d), Recorded(all), oks, d)
    {
      hide View, RealCell, Recorded, Sound, Reached, Undone, Undoable;
      UndoableParts(Recorded(all), schemas, workflows, configs, policies, topics);
      var o5 := RollbackList(gw, topics);
      var o4 := RollbackList(gw, policies);
      var o3 := RollbackList(gw, configs);
      var o2 := RollbackList(gw, workflows);
      var o1 := RollbackList(gw, schemas);
      oks := o1 + o2 + o3 + o4 + o5;
      forall d | RealCell(d) ensures View(gw.st, d) == Undone(View(old(gw.st), d), Recorded(all), oks, d) {
        var v := View(old(gw.st), d);
        UndoneConcat(v, schemas + workflows + configs + policies, o1 + o2 + o3 + o4, topics, o5, d);
        var v5 := Undone(v, topics, o5, d);
        UndoneConcat(v5, schemas + workflows + configs, o1 + o2 + o3, policies, o4, d);
        var v4 := Undone(v5, policies, o4, d);
        UndoneConcat(v4, schemas + workflows, o1 + o2, configs, o3, d);
        var v3 := Undone(v4, configs, o3, d);
        UndoneConcat(v3, schemas, o1, workflows, o2, d);
      }
    }
  }

  /** An overlay fits in the list exactly when it fits the value it meets. */
  lemma FitsHere(st0: Store, st: Store, id: string, aliases: seq<string>, os: seq<ConfigOverlay>, inactive: bool,
                 i: nat)
    requires i < |os| && ConfigsAt(st0, st, os, inactive, i) && !Skipped(os[i], inactive)
    ensures FitsAt(st0, id, aliases, os, inactive, i) <==>
              OverlayFits(os[i], id, aliases, Value(View(st, CellFor(os[i]))))
  {
    hide View, Skipped, ConfigAfter, ConfigPatch.PatchOk, TrimSpace;
    if ValidOverlay(os[i]) { AllowedCells(CellFor(os[i])); }
  }

  lemma PatchKey(key: string, patch: map<string, Json>, id: string, aliases: seq<string>, current: Json)
    requires ConfigPatch.PatchOk(key, patch, id, aliases, current)
    ensures AllowedKey(key)
  {
    hide Lower, ConfigPatch.PoolsPatchOk, ConfigPatch.TimeoutsPatchOk;
  }

  lemma MergedObject(current: Json, patch: Json)
    requires patch.Obj?
    ensures MergePatch.MergeInto(current, patch).Obj?
  {}

  lemma NothingRecorded(inactive: bool, packID: string)
    ensures RecordedConfigs([], inactive) == [] && RecordedPolicies(packID, []) == []
  {}

  /** Nothing done, nothing wanted yet. */
  lemma Start<T>(xs: seq<T>, f: T -> Option<Intent>)
    ensures Collect(xs[..0], f) == [] && forall cs :: Follows(cs, cs, [], true)
  {}

  /** At element i: what stopping here leaves, and what the element adds. */
  lemma Progress<T>(before: seq<Change>, all: seq<Change>, xs: seq<T>, f: T -> Option<Intent>, i: nat)
    requires i <= |xs| && Follows(before, all, Collect(xs[..i], f), true)
    ensures Follows(before, all, Collect(xs, f), false)
    ensures i < |xs| ==>
              Collect(xs[..i + 1], f) ==
                if f(xs[i]).Some? then Collect(xs[..i], f) + [f(xs[i]).value] else Collect(xs[..i], f)
  {
    hide Collect, Follows;
    CollectPrefix(xs, f, i);
    FollowsPrefix(before, all, Collect(xs[..i], f), Collect(xs, f));
    if i < |xs| { CollectNext(xs, f, i); }
  }

  ghost predicate AllRecorded(cs: seq<Change>) {
    forall i :: 0 <= i < |cs| ==> cs[i].recorded
  }

  lemma UndoableParts(all: seq<Change>, a: seq<Change>, b: seq<Change>, c: seq<Change>, d: seq<Change>, e: seq<Change>)
    requires all == a + b + c + d + e && forall i :: 0 <= i < |all| ==> Undoable(all[i])
    ensures forall i :: 0 <= i < |a| ==> Undoable(a[i])
    ensures forall i :: 0 <= i < |b| ==> Undoable(b[i])
    ensures forall i :: 0 <= i < |c| ==> Undoable(c[i])
    ensures forall i :: 0 <= i < |d| ==> Undoable(d[i])
    ensures forall i :: 0 <= i < |e| ==> Undoable(e[i])
  {
    hide Undoable;
    forall i | 0 <= i < |a| ensures Undoable(a[i]) { assert a[i] == all[i]; }
    forall i | 0 <= i < |b| ensures Undoable(b[i]) { assert b[i] == all[|a| + i]; }
    forall i | 0 <= i < |c| ensures Undoable(c[i]) { assert c[i] == all[|a| + |b| + i]; }
    forall i | 0 <= i < |d| ensures Undoable(d[i]) { assert d[i] == all[|a| + |b| + |c| + i]; }
    forall i | 0 <= i < |e| ensures Undoable(e[i]) { assert e[i] == all[|a| + |b| + |c| + |d| + i]; }
  }

  lemma ConfigView(st: Store, scope: string, id: string, key: string)
    ensures var data := DataOf(st, scope, id);
            View(st, ConfigCell(scope, id, key)) == if key in data && data[key] != Null then Some(data[key]) else None
  {}

  lemma FragmentView(st: Store, f: string)
    ensures View(st, FragmentCell(f)) == if f in Fragments(st) then Some(Fragments(st)[f]) else None
  {}

  /** An overlay's undo value is the value just before it. */
  lemma OverlayIsSound(st0: Store, st: Store, cs: seq<Change>, c: Change)
    requires Reached(st0, st, cs) && RealCell(c.cell) && c.undo == View(st, c.cell)
    requires c.cell.ConfigCell? || c.cell.FragmentCell?
    ensures SoundAt(st0, cs + [c], |cs|)
  {
    hide View, After;
    assert (cs + [c])[..|cs|] == cs;
  }

  lemma ExistingId(st: Store, p: Plan)
    requires StoreOk(st) && PlannedWorkflow(st, p)
    ensures Existing(p).Some? ==> Existing(p).value != Null && Field(Existing(p).value, "id") == Str(p.id)
  {}

  /** rollbackSchema restores an existing value unless there was none or it was null. */
  function Existing(p: Plan): Option<Json> {
    if p.existing.Some? && p.existing.value != Null then p.existing else None
  }

  ghost predicate PlannedSchema(st: Store, p: Plan) {
    p.value.Obj? && Existing(p) == View(st, SchemaCell(p.id))
  }

  ghost predicate PlannedWorkflow(st: Store, p: Plan) {
    p.value.Obj? && Field(p.value, "id") == Str(p.id) && Existing(p) == View(st, WorkflowCell(p.id))
  }

  // ---------------------------------------------------------------- planning

  /** A missing map hashes like an empty one. */
  function Hashable(v: Json): Json {
    if v == Null then Obj(map[]) else v
  }

  /** A no-op is an existing schema with the same digest; another existing one needs --upgrade. */
  ghost predicate SchemaDecision(st: Store, p: Plan, upgrade: bool) {
    && p.digest == CanonicalWriter.Sha256(Canonical.Encode(p.value))
    && (p.noop <==> p.id in st.schemas && Canonical.Encode(Hashable(st.schemas[p.id])) == Canonical.Encode(p.value))
    && (p.id in st.schemas && !p.noop ==> upgrade)
  }

  ghost predicate WorkflowDecision(st: Store, p: Plan, upgrade: bool) {
    && p.digest == CanonicalWriter.Sha256(Canonical.Encode(Content(p.value)))
    && (p.noop <==>
        p.id in st.workflows && Canonical.Encode(Content(st.workflows[p.id])) == Canonical.Encode(Content(p.value)))
    && (p.id in st.workflows && !p.noop ==> upgrade)
  }

  /** The gateway has another resource under this ID. */
  ghost predicate SchemaConflict(st: Store, r: Resource) {
    r.id in st.schemas && Canonical.Encode(Hashable(st.schemas[r.id])) != Canonical.Encode(r.value)
  }

  ghost predicate WorkflowConflict(st: Store, r: Resource) {
    r.id in st.workflows && Canonical.Encode(Content(st.workflows[r.id])) != Canonical.Encode(Content(r.value))
  }

  /** What an install needs besides calls that succeed. */
  ghost predicate Acceptable(st: Store, p: Pack, upgrade: bool, inactive: bool) {
    && (!upgrade ==>
          && (forall i :: 0 <= i < |p.schemas| ==> !SchemaConflict(st, p.schemas[i]))
          && (forall i :: 0 <= i < |p.workflows| ==> !WorkflowConflict(st, p.workflows[i])))
    && Owned(st, p)
    && AllFit(st, p.id, p.aliases, p.configs, inactive)
  }

  /** The registry can be read, and no other owner's record is in the way. */
  ghost predicate Owned(st: Store, p: Pack) {
    RegistryOf(st).Some? && PackRegistry.OwnershipOk(p.id, p.aliases, TopicNames(p.topics), RegistryOf(st).value)
  }

  function Content(w: Json): Json {
    Obj(CanonicalWriter.WorkflowContent(Fields(w)))
  }

  lemma CellViews(st: Store, id: string)
    ensures View(st, SchemaCell(id)) == NonNull(st.schemas, id)
    ensures View(st, WorkflowCell(id)) == NonNull(st.workflows, id)
  {}

  /** planSchemas: look every schema up; an existing, different one needs --upgrade. */
  method PlanSchemas(gw: Gateway, refs: seq<Resource>, upgrade: bool) returns (plans: Option<seq<Plan>>)
    requires forall i :: 0 <= i < |refs| ==> refs[i].value.Obj?
    modifies gw`clock
    ensures plans.Some? ==> |plans.value| == |refs|
    ensures plans.Some? ==> forall i :: 0 <= i < |refs| ==>
              && plans.value[i].id == refs[i].id && plans.value[i].value == refs[i].value
              && PlannedSchema(gw.st, plans.value[i]) && SchemaDecision(gw.st, plans.value[i], upgrade)
    ensures plans.None? && gw.Reliable() ==> !upgrade && exists i :: 0 <= i < |refs| && SchemaConflict(gw.st, refs[i])
  {
    hide PlannedSchema, SchemaDecision, SchemaConflict;
    var out: seq<Plan> := [];
    for i := 0 to |refs|
      invariant |out| == i
      invariant forall k :: 0 <= k < i ==>
                  && out[k].id == refs[k].id && out[k].value == refs[k].value
                  && PlannedSchema(gw.st, out[k]) && SchemaDecision(gw.st, out[k], upgrade)
    {
      var plan := PlanSchema(gw, refs[i], upgrade);
      if plan.None? { return None; }
      out := out + [plan.value];
    }
    plans := Some(out);
  }

  method PlanSchema(gw: Gateway, ref: Resource, upgrade: bool) returns (plan: Option<Plan>)
    requires ref.value.Obj?
    modifies gw`clock
    ensures plan.Some? ==>
              && plan.value.id == ref.id && plan.value.value == ref.value
              && PlannedSchema(gw.st, plan.value) && SchemaDecision(gw.st, plan.value, upgrade)
    ensures plan.None? && gw.Reliable() ==> !upgrade && SchemaConflict(gw.st, ref)
  {
    hide View, Canonical.Encode;
    var digest := CanonicalWriter.HashValue(ref.value);
    var r := gw.GetSchema(ref.id);
    if r.CallFailed? { return None; }
    CellViews(gw.st, ref.id);
    if r.NotFound? { return Some(Plan(ref.id, ref.value, digest, None, false)); }
    var existing := CanonicalWriter.HashValue(Hashable(r.value));
    if existing != digest && !upgrade { return None; }
    plan := Some(Plan(ref.id, ref.value, digest, Some(r.value), existing == digest));
  }

  /** planWorkflows: the same with timestamps ignored. */
  method PlanWorkflows(gw: Gateway, refs: seq<Resource>, upgrade: bool) returns (plans: Option<seq<Plan>>)
    requires forall i :: 0 <= i < |refs| ==> refs[i].value.Obj? && Field(refs[i].value, "id") == Str(refs[i].id)
    modifies gw`clock
    ensures plans.Some? ==> |plans.value| == |refs|
    ensures plans.Some? ==> forall i :: 0 <= i < |refs| ==>
              && plans.value[i].id == refs[i].id && plans.value[i].value == refs[i].value
              && PlannedWorkflow(gw.st, plans.value[i]) && WorkflowDecision(gw.st, plans.value[i], upgrade)
    ensures plans.None? && gw.Reliable() ==> !upgrade && exists i :: 0 <= i < |refs| && WorkflowConflict(gw.st, refs[i])
  {
    hide PlannedWorkflow, WorkflowDecision, WorkflowConflict;
    var out: seq<Plan> := [];
    for i := 0 to |refs|
      invariant |out| == i
      invariant forall k :: 0 <= k < i ==>
                  && out[k].id == refs[k].id && out[k].value == refs[k].value
                  && PlannedWorkflow(gw.st, out[k]) && WorkflowDecision(gw.st, out[k], upgrade)
    {
      var plan := PlanWorkflow(gw, refs[i], upgrade);
      if plan.None? { return None; }
      out := out + [plan.value];
    }
    plans := Some(out);
  }

  method PlanWorkflow(gw: Gateway, ref: Resource, upgrade: bool) returns (plan: Option<Plan>)
    requires ref.value.Obj? && Field(ref.value, "id") == Str(ref.id)
    modifies gw`clock
    ensures plan.Some? ==>
              && plan.value.id == ref.id && plan.value.value == ref.value
              && PlannedWorkflow(gw.st, plan.value) && WorkflowDecision(gw.st, plan.value, upgrade)
    ensures plan.None? && gw.Reliable() ==> !upgrade && WorkflowConflict(gw.st, ref)
  {
    hide View, Canonical.Encode, Content;
    var digest := CanonicalWriter.HashValue(Content(ref.value));
    var r := gw.GetWorkflow(ref.id);
    if r.CallFailed? { return None; }
    CellViews(gw.st, ref.id);
    if r.NotFound? { return Some(Plan(ref.id, ref.value, digest, None, false)); }
    var existing := CanonicalWriter.HashValue(Content(r.value));
    if existing != digest && !upgrade { return None; }
    plan := Some(Plan(ref.id, ref.value, digest, Some(r.value), existing == digest));
  }

  // ---------------------------------------------------------------- runPackInstall

  /** `Refused` before anything was written; `Failed` after a rollback with that many errors. */
  datatype Outcome = Installed | Refused | Failed(rollbackErrors: nat)

  predicate AllNamed(p: Pack) {
    && (forall i :: 0 <= i < |p.configs| ==> p.configs[i].name != "")
    && (forall i :: 0 <= i < |p.policies| ==> p.policies[i].name != "")
  }

  function CountFalse(oks: seq<bool>): nat {
    if oks == [] then 0 else (if oks[0] then 0 else 1) + CountFalse(oks[1..])
  }

  lemma {:induction false} NoFalse(oks: seq<bool>)
    ensures CountFalse(oks) == 0 <==> AllTrue(oks)
  {
    if oks != [] {
      NoFalse(oks[1..]);
      if AllTrue(oks[1..]) && oks[0] {
        forall i | 0 <= i < |oks| ensures oks[i] { if i > 0 { assert oks[i] == oks[1..][i - 1]; } }
      }
      if AllTrue(oks) { forall i | 0 <= i < |oks[1..]| ensures oks[1..][i] { assert oks[1..][i] == oks[i + 1]; } }
    }
  }

  ghost predicate Registered(cs: seq<Change>, d: Cell) {
    exists i :: 0 <= i < |cs| && cs[i].cell == d
  }

  /** Everything up to the registry update; false as soon as one step fails. */
  method ApplyAll(inst: Installer, p: Pack, sp: seq<Plan>, wp: seq<Plan>, inactive: bool) returns (ok: bool)
    requires inst.Valid() && inst.all == []
    requires inst.schemas == inst.workflows == inst.configs == inst.policies == inst.topics == []
    requires inst.appliedConfig == [] && inst.appliedPolicy == []
    requires forall i :: 0 <= i < |sp| ==> PlannedSchema(inst.st0, sp[i])
    requires forall i :: 0 <= i < |wp| ==> PlannedWorkflow(inst.st0, wp[i])
    modifies inst, inst.gw
    ensures inst.Valid() && inst.st0 == old(inst.st0)
    ensures AllNamed(p) ==> AllRecorded(inst.all)
    ensures Follows([], inst.all, Intents(p, sp, wp, inactive), ok)
    ensures ok ==> AllFit(inst.st0, p.id, p.aliases, p.configs, inactive)
    ensures ok ==>
              inst.appliedConfig == RecordedConfigs(p.configs, inactive)
                && inst.appliedPolicy == RecordedPolicies(p.id, p.policies)
    ensures inst.gw.Reliable() && !ok ==> !AllFit(inst.st0, p.id, p.aliases, p.configs, inactive)
  {
    hide View, Recorded, Sound, Reached, PlannedSchema, PlannedWorkflow, Follows, Collect, AllFit, ConfigsAt;
    ghost var i1, i2 := Collect(sp, SchemaIntent), Collect(wp, WorkflowIntent);
    ghost var i3 := Collect(p.configs, (o: ConfigOverlay) => ConfigIntent(o, inactive));
    ghost var i4 := Collect(p.policies, (o: PolicyOverlay) => PolicyIntent(p.id, o));
    ghost var i5 := Collect(p.topics, TopicIntent);
    ok := inst.ApplySchemas(sp);
    ghost var a1 := inst.all;
    if !ok {
      FollowsMore([], a1, i1, i2 + i3 + i4 + i5);
      assert i1 + (i2 + i3 + i4 + i5) == i1 + i2 + i3 + i4 + i5;
      return;
    }
    ok := inst.ApplyWorkflows(wp);
    FollowsThen([], a1, inst.all, i1, i2, ok);
    ghost var a2 := inst.all;
    if !ok {
      FollowsMore([], a2, i1 + i2, i3 + i4 + i5);
      assert i1 + i2 + (i3 + i4 + i5) == i1 + i2 + i3 + i4 + i5;
      return;
    }
    ConfigsUntouched(inst.st0, inst.gw.st, a2, sp, wp, p.configs, inactive);
    ok := inst.ApplyConfigs(p.configs, p.id, p.aliases, inactive);
    FollowsThen([], a2, inst.all, i1 + i2, i3, ok);
    ghost var a3 := inst.all;
    if !ok {
      FollowsMore([], a3, i1 + i2 + i3, i4 + i5);
      assert i1 + i2 + i3 + (i4 + i5) == i1 + i2 + i3 + i4 + i5;
      return;
    }
    ok := inst.ApplyPolicies(p.id, p.policies);
    FollowsThen([], a3, inst.all, i1 + i2 + i3, i4, ok);
    ghost var a4 := inst.all;
    if !ok {
      FollowsMore([], a4, i1 + i2 + i3 + i4, i5);
      return;
    }
    ok := inst.ApplyTopics(p.topics);
    FollowsThen([], a4, inst.all, i1 + i2 + i3 + i4, i5, ok);
  }

  /** Schemas and workflows leave the config keys alone. */
  lemma ConfigsUntouched(st0: Store, st: Store, cs: seq<Change>, sp: seq<Plan>, wp: seq<Plan>, os: seq<ConfigOverlay>,
                         inactive: bool)
    requires Reached(st0, st, cs) && Follows([], cs, Collect(sp, SchemaIntent) + Collect(wp, WorkflowIntent), true)
    ensures ConfigsAt(st0, st, os, inactive, 0)
  {
    hide View, Collect, After;
    var want := Collect(sp, SchemaIntent) + Collect(wp, WorkflowIntent);
    assert os[..0] == [];
    forall d | RealCell(d) && d.ConfigCell? ensures View(st, d) == View(st0, d) {
      CollectMisses(sp, SchemaIntent, d);
      CollectMisses(wp, WorkflowIntent, d);
      forall i | 0 <= i < |cs| ensures cs[i].cell != d { assert Realizes(cs[0 + i], want[i]); }
      AfterUntouched(View(st0, d), cs, d);
    }
  }

  /** Plans made from the store the install starts from. */
  ghost predicate Planned(st: Store, p: Pack, sp: seq<Plan>, wp: seq<Plan>, upgrade: bool) {
    && |sp| == |p.schemas| && |wp| == |p.workflows|
    && (forall i :: 0 <= i < |sp| ==>
          sp[i].id == p.schemas[i].id && sp[i].value == p.schemas[i].value
          && PlannedSchema(st, sp[i]) && SchemaDecision(st, sp[i], upgrade))
    && (forall i :: 0 <= i < |wp| ==>
          wp[i].id == p.workflows[i].id && wp[i].value == p.workflows[i].value
          && PlannedWorkflow(st, wp[i]) && WorkflowDecision(st, wp[i], upgrade))
  }

  /** A finished install: every cell but the registry has what the writes left there, and the
      registry has this pack's record put in. */
  ghost predicate InstalledAs(st0: Store, st: Store, p: Pack, r: Record, cs: seq<Change>) {
    && (forall d :: RealCell(d) && d != REGISTRY ==> View(st, d) == After(View(st0, d), cs, d))
    && RegistryOf(st0).Some? && RegistryOf(st) == Some(RegistryOf(st0).value[p.id := r])
    && (RegistryOk(st0) ==> RegistryOk(st))
  }

  /** A rollback: every recorded change was attempted. If all undos succeeded, every cell holds what
      the changes before its first recorded one left there, and every topic that was registered is
      gone; with all overlays named, every other cell has its pre-install value. */
  ghost predicate RolledBack(st0: Store, st: Store, p: Pack, cs: seq<Change>, oks: seq<bool>, errors: nat) {
    && |oks| == |Recorded(cs)| && (errors == 0 <==> AllTrue(oks))
    && (forall d :: RealCell(d) ==> View(st, d) == Undone(After(View(st0, d), cs, d), Recorded(cs), oks, d))
    && (errors == 0 ==>
          forall d :: RealCell(d) ==>
            if d.TopicCell? && Registered(cs, d) then View(st, d) == None
            else View(st, d) == After(View(st0, d), Lead(cs, d), d))
    && (errors == 0 && AllNamed(p) ==>
          forall d :: RealCell(d) && !(d.TopicCell? && Registered(cs, d)) ==> View(st, d) == View(st0, d))
  }

  /** runPackInstall. `cs` is everything written before the registry, `oks` the result of each undo.
      A refusal changes nothing. Otherwise the writes are the intents, in order, up to the failing
      step. A successful install leaves exactly those writes, and in the registry the record of
      what was applied: of the overlays, those with a name. A failing one is rolled back. When no
      call fails, exactly the acceptable installs succeed. */
  method RunPackInstall(gw: Gateway, p: Pack, hex: CanonicalWriter.Digest -> string, upgrade: bool, inactive: bool)
    returns (outcome: Outcome, ghost sp: seq<Plan>, ghost wp: seq<Plan>, ghost cs: seq<Change>, ghost oks: seq<bool>)
    requires PackOk(p) && StoreOk(gw.st)
    modifies gw
    ensures outcome == Refused ==> gw.st == old(gw.st)
    ensures outcome == Installed ==> Acceptable(old(gw.st), p, upgrade, inactive)
    ensures gw.Reliable() && Acceptable(old(gw.st), p, upgrade, inactive) ==> outcome == Installed
    ensures outcome != Refused ==>
              && Planned(old(gw.st), p, sp, wp, upgrade)
              && Sound(old(gw.st), cs)
              && Follows([], cs, Intents(p, sp, wp, inactive), outcome == Installed)
    ensures outcome == Installed ==> InstalledAs(old(gw.st), gw.st, p, RecordOf(p, sp, wp, inactive, hex), cs)
    ensures outcome.Failed? ==> RolledBack(old(gw.st), gw.st, p, cs, oks, outcome.rollbackErrors)
  {
    hide View, Recorded, RealCell, StoreOk, Follows, Intents, Sound, Acceptable, RegistryOf, RecordOf, Planned, Owned,
      InstalledAs, RolledBack, Reached, Undoable, AllFit;
    sp, wp, cs, oks := [], [], [], [];
    ghost var st0 := gw.st;
    var plans := PlanInstall(gw, p, upgrade, inactive);
    if plans.None? { return Refused, sp, wp, cs, oks; }
    sp, wp := plans.value.0, plans.value.1;
    NoConflicts(st0, p, sp, wp, upgrade, inactive);
    PlansMade(st0, p, sp, wp, upgrade);
    var inst := new Installer(gw);
    var ok := ApplyAll(inst, p, plans.value.0, plans.value.1, inactive);
    cs := inst.all;
    if ok {
      FitIsValid(st0, p.id, p.aliases, p.configs, inactive);
      ok := RegisterPack(inst, p, plans.value.0, plans.value.1, hex, inactive);
      if ok { return Installed, sp, wp, cs, oks; }
      assert RegistryOf(st0).Some? by { OwnedLoads(st0, p); }
      FollowsWeaken(cs, Intents(p, sp, wp, inactive));
    }
    outcome, oks := UndoInstall(inst, p);
  }

  lemma OwnedLoads(st: Store, p: Pack)
    requires Owned(st, p)
    ensures RegistryOf(st).Some?
  {}

  /** Planning, and the ownership check: nothing is written. */
  method PlanInstall(gw: Gateway, p: Pack, upgrade: bool, ghost inactive: bool)
    returns (plans: Option<(seq<Plan>, seq<Plan>)>)
    requires PackOk(p)
    modifies gw`clock
    ensures plans.Some? ==> Planned(gw.st, p, plans.value.0, plans.value.1, upgrade) && Owned(gw.st, p)
    ensures plans.None? && gw.Reliable() ==> !Acceptable(gw.st, p, upgrade, inactive)
  {
    hide View, PlannedSchema, PlannedWorkflow, SchemaDecision, WorkflowDecision, Acceptable, RegistryOf,
      PackRegistry.OwnershipOk, SchemaConflict, WorkflowConflict;
    Conflicts(gw.st, p, upgrade, inactive);
    var schemaPlans := PlanSchemas(gw, p.schemas, upgrade);
    if schemaPlans.None? { return None; }
    var workflowPlans := PlanWorkflows(gw, p.workflows, upgrade);
    if workflowPlans.None? { return None; }
    var installed, _ := LoadRegistry(gw);
    if installed.None? { return None; }
    var owned := PackRegistry.ValidatePackAliasOwnership(p.id, p.aliases, TopicNames(p.topics), installed.value);
    if !owned { return None; }
    plans := Some((schemaPlans.value, workflowPlans.value));
  }

  lemma PlansMade(st: Store, p: Pack, sp: seq<Plan>, wp: seq<Plan>, upgrade: bool)
    requires Planned(st, p, sp, wp, upgrade)
    ensures forall i :: 0 <= i < |sp| ==> PlannedSchema(st, sp[i])
    ensures forall i :: 0 <= i < |wp| ==> PlannedWorkflow(st, wp[i])
  {
    hide PlannedSchema, PlannedWorkflow, SchemaDecision, WorkflowDecision;
  }

  /** The last step of a finished install: its record goes into the registry, nothing else changes. */
  method RegisterPack(inst: Installer, p: Pack, sp: seq<Plan>, wp: seq<Plan>, hex: CanonicalWriter.Digest -> string,
                      inactive: bool)
    returns (ok: bool)
    requires inst.Valid() && Follows([], inst.all, Intents(p, sp, wp, inactive), true)
    requires forall i :: 0 <= i < |p.configs| ==> Skipped(p.configs[i], inactive) || ValidOverlay(p.configs[i])
    requires inst.appliedConfig == RecordedConfigs(p.configs, inactive)
               && inst.appliedPolicy == RecordedPolicies(p.id, p.policies)
    modifies inst.gw
    ensures inst.gw.Reliable() && RegistryOf(inst.st0).Some? ==> ok
    ensures !ok ==> inst.gw.st == old(inst.gw.st)
    ensures ok ==> InstalledAs(inst.st0, inst.gw.st, p, RecordOf(p, sp, wp, inactive, hex), inst.all)
  {
    hide View, After, RealCell, Follows, Intents, Sound, Skipped, ValidOverlay, RegistryOf, RegistryOk, RecordPut,
      Digests, RecordedConfigs, RecordedPolicies, Recorded, StatusOf, RecordOk;
    ghost var st := inst.gw.st;
    IntentsMissRegistry(inst.st0, st, p, sp, wp, inactive, inst.all);
    SameRegistry(inst.st0, st);
    var record := BuildRecord(inst, p, sp, wp, inactive, hex);
    RecordOkShaped(record);
    ok := UpdateRegistry(inst.gw, record);
    if ok { PutMeans(st, inst.gw.st, record); }
  }

  lemma RecordOkShaped(r: Record)
    requires RecordOk(r)
    ensures Shaped(r)
  {}

  /** The rollback, and what it leaves. */
  method UndoInstall(inst: Installer, p: Pack) returns (outcome: Outcome, ghost oks: seq<bool>)
    requires inst.Valid() && (AllNamed(p) ==> AllRecorded(inst.all))
    modifies inst.gw
    ensures outcome.Failed? && RolledBack(inst.st0, inst.gw.st, p, inst.all, oks, outcome.rollbackErrors)
  {
    hide View, Recorded, Undone, After, RealCell, StoreOk, Lead, Sound, AllNamed;
    ghost var st0, applied, cs := inst.st0, inst.gw.st, inst.all;
    var undone := inst.Rollback();
    oks := undone;
    NoFalse(undone);
    outcome := Failed(CountFalse(undone));
    if AllTrue(undone) {
      forall d | RealCell(d)
        ensures if d.TopicCell? && Registered(cs, d) then View(inst.gw.st, d) == None
                else View(inst.gw.st, d) == After(View(st0, d), Lead(cs, d), d)
        ensures AllNamed(p) && !(d.TopicCell? && Registered(cs, d)) ==> View(inst.gw.st, d) == View(st0, d)
      {
        RollbackOutcome(st0, applied, inst.gw.st, cs, oks, d);
        if AllNamed(p) { AllRecordedRestores(View(st0, d), cs, d); }
      }
    }
  }

  /** The record is built from the lists of what was applied. */
  method BuildRecord(inst: Installer, p: Pack, sp: seq<Plan>, wp: seq<Plan>, inactive: bool,
                     hex: CanonicalWriter.Digest -> string)
    returns (r: Record)
    requires inst.appliedConfig == RecordedConfigs(p.configs, inactive)
    requires inst.appliedPolicy == RecordedPolicies(p.id, p.policies)
    requires forall i :: 0 <= i < |p.configs| ==> Skipped(p.configs[i], inactive) || ValidOverlay(p.configs[i])
    ensures r == RecordOf(p, sp, wp, inactive, hex) && RecordOk(r)
  {
    hide RecordedConfigs, RecordedPolicies, Digests, Skipped, ValidOverlay, AllowedKey;
    RecordedAllowed(p.configs, inactive);
    var pools := CheckPoolOverlay(inst.appliedConfig);
    var status := if inactive || !pools then "INACTIVE" else "ACTIVE";
    var schemas := CollectDigests(sp, hex);
    var workflows := CollectDigests(wp, hex);
    r := Record(p.id, status, p.id, p.aliases, TopicNames(p.topics), schemas, workflows, inst.appliedConfig,
      inst.appliedPolicy);
  }

  lemma PutMeans(st: Store, st': Store, r: Record)
    requires RecordPut(st, st', r) && RecordOk(r)
    ensures forall d :: RealCell(d) && d != REGISTRY ==> View(st', d) == View(st, d)
    ensures RegistryOf(st).Some? && RegistryOf(st') == Some(RegistryOf(st).value[r.id := r])
    ensures RegistryOk(st) ==> RegistryOk(st')
  {
    hide View, RegistryOf, RecordOk;
    if RegistryOk(st) { PutKeepsOk(st, st', r); }
  }

  /** No intent of an install is for the registry. */
  lemma {:induction false} CollectMisses<T>(xs: seq<T>, f: T -> Option<Intent>, d: Cell)
    requires forall i :: 0 <= i < |xs| ==> f(xs[i]).Some? ==> f(xs[i]).value.cell != d
    ensures forall k :: 0 <= k < |Collect(xs, f)| ==> Collect(xs, f)[k].cell != d
  {
    if xs != [] { CollectMisses(xs[..|xs| - 1], f, d); }
  }

  lemma IntentsMiss(p: Pack, sp: seq<Plan>, wp: seq<Plan>, inactive: bool)
    requires forall i :: 0 <= i < |p.configs| ==> Skipped(p.configs[i], inactive) || ValidOverlay(p.configs[i])
    ensures var want := Intents(p, sp, wp, inactive);
            forall k :: 0 <= k < |want| ==> want[k].cell != REGISTRY
  {
    hide Collect, Skipped, TrimSpace, Scope, ScopeID, ConfigKey;
    forall i | 0 <= i < |p.configs|
      ensures ConfigIntent(p.configs[i], inactive).Some? ==> ConfigIntent(p.configs[i], inactive).value.cell != REGISTRY
    {
      var o := p.configs[i];
      if !Skipped(o, inactive) { AllowedCells(ConfigCell(Scope(o), ScopeID(o), ConfigKey(o))); }
    }
    hide ConfigIntent;
    CollectMisses(sp, SchemaIntent, REGISTRY);
    CollectMisses(wp, WorkflowIntent, REGISTRY);
    CollectMisses(p.configs, (o: ConfigOverlay) => ConfigIntent(o, inactive), REGISTRY);
    CollectMisses(p.policies, (o: PolicyOverlay) => PolicyIntent(p.id, o), REGISTRY);
    CollectMisses(p.topics, TopicIntent, REGISTRY);
  }

  lemma IntentsMissRegistry(st0: Store, st: Store, p: Pack, sp: seq<Plan>, wp: seq<Plan>, inactive: bool,
                            cs: seq<Change>)
    requires Reached(st0, st, cs) && Follows([], cs, Intents(p, sp, wp, inactive), true)
    requires forall i :: 0 <= i < |p.configs| ==> Skipped(p.configs[i], inactive) || ValidOverlay(p.configs[i])
    ensures View(st, REGISTRY) == View(st0, REGISTRY)
  {
    hide View, Intents, After, Skipped, ValidOverlay;
    IntentsMiss(p, sp, wp, inactive);
    var want := Intents(p, sp, wp, inactive);
    forall i | 0 <= i < |cs| ensures cs[i].cell != REGISTRY { assert Realizes(cs[0 + i], want[i]); }
    AfterUntouched(View(st0, REGISTRY), cs, REGISTRY);
    assert RealCell(REGISTRY);
  }

  lemma Conflicts(st: Store, p: Pack, upgrade: bool, inactive: bool)
    ensures Acceptable(st, p, upgrade, inactive) && !upgrade ==>
              && (forall i :: 0 <= i < |p.schemas| ==> !SchemaConflict(st, p.schemas[i]))
              && (forall i :: 0 <= i < |p.workflows| ==> !WorkflowConflict(st, p.workflows[i]))
    ensures Acceptable(st, p, upgrade, inactive) ==> Owned(st, p) && AllFit(st, p.id, p.aliases, p.configs, inactive)
  {}

  /** Plans that were made leave only the names and the overlays in question. */
  lemma NoConflicts(st: Store, p: Pack, sp: seq<Plan>, wp: seq<Plan>, upgrade: bool, inactive: bool)
    requires Planned(st, p, sp, wp, upgrade)
    ensures Acceptable(st, p, upgrade, inactive) <==> Owned(st, p) && AllFit(st, p.id, p.aliases, p.configs, inactive)
  {
    hide AllFit, PlannedSchema, PlannedWorkflow, Canonical.Encode, Owned;
    forall i | 0 <= i < |p.schemas| ensures !upgrade ==> !SchemaConflict(st, p.schemas[i]) {
      assert SchemaDecision(st, sp[i], upgrade);
    }
    forall i | 0 <= i < |p.workflows| ensures !upgrade ==> !WorkflowConflict(st, p.workflows[i]) {
      assert WorkflowDecision(st, wp[i], upgrade);
    }
  }

  lemma FollowsWeaken(cs: seq<Change>, want: seq<Intent>)
    requires Follows([], cs, want, true)
    ensures Follows([], cs, want, false)
  {}

  // ---------------------------------------------------------------- what a rollback does not undo

  /** A pack of one overlay without a name, installed at an empty gateway. If the install fails after
      the overlay was applied and every undo succeeds, the overlay's value is still there. */
  lemma {:induction false} UnnamedOverlaySurvives(st0: Store, st: Store, p: Pack, sp: seq<Plan>, wp: seq<Plan>,
                                                  cs: seq<Change>, oks: seq<bool>)
    requires st0 == Store(map[], map[], map[], map[])
    requires p ==
               Pack("a", [], [], [], [ConfigOverlay("", "system", "default", "pools", ExamplePatch())], [], [])
    requires Planned(st0, p, sp, wp, false) && Sound(st0, cs) && |cs| == 1
    requires Follows([], cs, Intents(p, sp, wp, false), false)
    requires RolledBack(st0, st, p, cs, oks, 0)
    ensures var d := ConfigCell("system", "default", "pools");
            Recorded(cs) == [] && View(st0, d) == None && View(st, d) == Some(ExamplePatch())
  {
    hide Lower, SchemaDecision, WorkflowDecision, PlannedSchema, PlannedWorkflow;
    var d := ConfigCell("system", "default", "pools");
    var o := p.configs[0];
    var f := (o: ConfigOverlay) => ConfigIntent(o, false);
    assert ConfigIntent(o, false) == Some(MergeTo(d, o.patch, false)) by { ExampleCell(o); }
    assert p.configs[..0] == [] && Collect([], f) == [];
    assert Collect(p.configs, f) == [MergeTo(d, o.patch, false)];
    assert Intents(p, sp, wp, false) == [MergeTo(d, o.patch, false)];
    FirstRealized(cs, Intents(p, sp, wp, false));
    assert SoundAt(st0, cs, 0) && cs[..0] == [];
    assert cs == [cs[0]];
    assert MergePatch.MergeInto(Null, o.patch) == o.patch by { ExampleMerge(o.patch); }
    assert RealCell(d);
  }

  lemma FirstRealized(cs: seq<Change>, want: seq<Intent>)
    requires Follows([], cs, want, false) && cs != []
    ensures want != [] && Realizes(cs[0], want[0])
  {
    hide Realizes;
    var none: seq<Change> := [];
    assert Realizes(cs[|none| + 0], want[0]);
  }

  lemma ExampleCell(o: ConfigOverlay)
    requires o == ConfigOverlay("", "system", "default", "pools", ExamplePatch())
    ensures Scope(o) == "system" && ScopeID(o) == "default" && ConfigKey(o) == "pools"
  {
    assert TrimSpace("system") == "system" && TrimSpace("default") == "default" && TrimSpace("pools") == "pools";
  }

  function ExamplePatch(): Json {
    Obj(map["topics" := Obj(map["job.a.x" := Str("pool")])])
  }

  lemma ExampleMerge(patch: Json)
    requires patch == ExamplePatch()
    ensures MergePatch.MergeInto(Null, patch) == patch
  {
    var topics := patch.fields["topics"];
    assert MergePatch.MergeInto(Null, topics).fields == topics.fields;
    assert MergePatch.MergeInto(Null, patch).fields == patch.fields;
  }

  /** A pack of one topic that is registered already. If the install fails after registering it and
      every undo succeeds, the earlier registration is gone. */
  lemma {:induction false} EarlierRegistrationIsLost(st0: Store, st: Store, p: Pack, sp: seq<Plan>, wp: seq<Plan>,
                                                     cs: seq<Change>, oks: seq<bool>)
    requires st0 == Store(map[], map[], map[], map["job.a.x" := Str("before")])
    requires p == Pack("a", [], [], [], [], [], [Topic("job.a.x", Str("after"))])
    requires Planned(st0, p, sp, wp, false) && Sound(st0, cs) && |cs| == 1
    requires Follows([], cs, Intents(p, sp, wp, false), false)
    requires RolledBack(st0, st, p, cs, oks, 0)
    ensures var d := TopicCell("job.a.x"); View(st0, d) == Some(Str("before")) && View(st, d) == None
  {
    hide SchemaDecision, WorkflowDecision, PlannedSchema, PlannedWorkflow;
    var d := TopicCell("job.a.x");
    var t := p.topics[0];
    assert p.topics[..0] == [] && Collect([], TopicIntent) == [];
    assert TopicIntent(t) == Some(SetTo(d, Str("after"), true));
    assert Collect(p.topics, TopicIntent) == [SetTo(d, Str("after"), true)];
    assert sp == [] && wp == [];
    assert Intents(p, sp, wp, false) == [SetTo(d, Str("after"), true)];
    FirstRealized(cs, Intents(p, sp, wp, false));
    assert SoundAt(st0, cs, 0) && cs[..0] == [];
    assert cs == [cs[0]] && Recorded(cs) == cs;
    assert RealCell(d);
  }
}
