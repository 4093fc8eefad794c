/**
 runPackUninstall (cmd/cordumctl/pack.go): take the recorded overlays out from last to first, drop
 the policy fragments and topics, purge the resources if asked, and mark the record disabled.
 */
module PackUninstaller {
  import opened Wrappers
  import opened JsonValue
  import opened PackStore
  import opened PackUninstall
  import opened PackInstall
  import opened PackRecords
  import opened RegistryStore
  import MergePatch
  import PackInstaller
  import CanonicalWriter

  /** The recorded overlays, by the keys they were merged into. */
  function AppliedOf(configs: seq<AppliedConfig>): seq<Applied> {
    seq(|configs|, i requires 0 <= i < |configs| => Applied(CellOf(configs[i]), configs[i].patch))
  }

  function FragmentIDs(policies: seq<AppliedPolicy>): seq<string> {
    seq(|policies|, i requires 0 <= i < |policies| => policies[i].fragmentID)
  }

  lemma RecordCells(r: Record)
    requires RecordOk(r)
    ensures var os := AppliedOf(r.configs);
            forall i :: 0 <= i < |os| ==>
              os[i].cell.ConfigCell? && RealCell(os[i].cell) && os[i].cell != REGISTRY && os[i].patch.Obj?
  {
    hide AllowedKey, RealCell;
    forall i | 0 <= i < |r.configs| ensures RealCell(CellOf(r.configs[i])) && CellOf(r.configs[i]) != REGISTRY {
      AllowedCells(CellOf(r.configs[i]));
    }
  }

  // ---------------------------------------------------------------- single removals

  /** removeConfigOverlay: merge the delete patch into the key, if the key is there. */
  method RemoveConfigOverlay(gw: Gateway, o: Applied) returns (ok: bool)
    requires o.cell.ConfigCell? && RealCell(o.cell) && o.patch.Obj?
    modifies gw
    ensures gw.Reliable() ==> ok
    ensures if ok then Wrote(old(gw.st), gw.st, o.cell, Apply(View(old(gw.st), o.cell), Remove(o.cell, o.patch)))
            else gw.st == old(gw.st)
  {
    hide MergePatch.MergeInto, MergePatch.DeletePatch;
    var ConfigCell(scope, id, key) := o.cell;
    var r := gw.GetConfig(scope, id);
    if r.CallFailed? { return false; }
    if r.NotFound? { return true; }
    var current := if key in r.value then r.value[key] else Null;
    assert current == Value(View(gw.st, o.cell));
    if current == Null { return true; }
    var patch := MergePatch.DeletePatch(o.patch);
    var updated := MergePatch.MergePatch(current, patch);
    WroteConfig(gw.st, scope, id, key, updated);
    ok := gw.SetConfig(scope, id, r.value[key := updated]);
  }

  /** removePolicyOverlay */
  method RemovePolicyOverlay(gw: Gateway, fragmentID: string) returns (ok: bool)
    modifies gw
    ensures gw.Reliable() ==> ok
    ensures if ok then Wrote(old(gw.st), gw.st, FragmentCell(fragmentID), None) else gw.st == old(gw.st)
  {
    var r := gw.GetConfig(POLICY_SCOPE, POLICY_ID);
    if r.CallFailed? { return false; }
    if r.NotFound? { return true; }
    var raw := if POLICY_KEY in r.value then r.value[POLICY_KEY] else Null;
    if !raw.Obj? { return true; }
    WroteFragment(gw.st, fragmentID, Null);
    ok := gw.SetConfig(POLICY_SCOPE, POLICY_ID, r.value[POLICY_KEY := Obj(raw.fields - {fragmentID})]);
  }

  // ---------------------------------------------------------------- the loops

  lemma RemovesNext(os: seq<Applied>, i: nat, v: Option<Json>, d: Cell)
    requires i < |os|
    ensures RunOn(v, Removes(os[i..]), d) ==
              var before := RunOn(v, Removes(os[i + 1..]), d);
              if os[i].cell == d then Apply(before, Remove(os[i].cell, os[i].patch)) else before
  {
    hide Apply;
    assert os[i..][1..] == os[i + 1..] && os[i..][0] == os[i];
    OthersSnoc(Removes(os[i + 1..]), Remove(os[i].cell, os[i].patch), v, d);
  }

  /** Overlay removal stops at the first failing call; until then each key is its value with the
      overlays from `from` on removed. */
  method RemoveConfigs(gw: Gateway, os: seq<Applied>) returns (ok: bool, ghost from: nat)
    requires forall i :: 0 <= i < |os| ==> os[i].cell.ConfigCell? && RealCell(os[i].cell) && os[i].patch.Obj?
    modifies gw
    ensures gw.Reliable() ==> ok
    ensures from <= |os| && (ok <==> from == 0)
    ensures forall d :: RealCell(d) ==> View(gw.st, d) == RunOn(View(old(gw.st), d), Removes(os[from..]), d)
  {
    hide View, RealCell, Apply, RunOn, Removes;
    var i := |os|;
    assert os[i..] == [];
    forall d | RealCell(d) ensures View(gw.st, d) == RunOn(View(old(gw.st), d), Removes(os[i..]), d) {
      NothingRemoved(View(gw.st, d), d);
    }
    while i > 0
      invariant 0 <= i <= |os|
      invariant forall d :: RealCell(d) ==> View(gw.st, d) == RunOn(View(old(gw.st), d), Removes(os[i..]), d)
    {
      from := i;
      ghost var st := gw.st;
      ok := RemoveConfigOverlay(gw, os[i - 1]);
      if !ok { return; }
      i := i - 1;
      forall d | RealCell(d) ensures View(gw.st, d) == RunOn(View(old(gw.st), d), Removes(os[i..]), d) {
        RemovesNext(os, i, View(old(gw.st), d), d);
        assert View(st, d) == RunOn(View(old(gw.st), d), Removes(os[i + 1..]), d);
      }
    }
    ok, from := true, 0;
  }

  lemma NothingRemoved(v: Option<Json>, d: Cell)
    ensures RunOn(v, Removes([]), d) == v
  {}

  /** Exactly the cells in `gone` are empty now. */
  ghost predicate Emptied(st: Store, st': Store, gone: set<Cell>) {
    forall d :: RealCell(d) ==> View(st', d) == if d in gone then None else View(st, d)
  }

  lemma EmptiedMore(st0: Store, st: Store, st': Store, gone: set<Cell>, c: Cell)
    requires Emptied(st0, st, gone) && RealCell(c)
    ensures Wrote(st, st', c, None) ==> Emptied(st0, st', gone + {c})
    ensures st' == st && View(st, c) == None ==> Emptied(st0, st', gone + {c})
  {
    hide View;
  }

  ghost function FragmentCells(ids: seq<string>): set<Cell> {
    set id | id in ids :: FragmentCell(id)
  }

  ghost function TopicCells(ids: seq<string>): set<Cell> {
    set id | id in ids :: TopicCell(id)
  }

  ghost function WorkflowCells(ids: set<string>): set<Cell> {
    set id | id in ids :: WorkflowCell(id)
  }

  ghost function SchemaCells(ids: set<string>): set<Cell> {
    set id | id in ids :: SchemaCell(id)
  }

  ghost function ResourceCells(r: Record): set<Cell> {
    WorkflowCells(r.workflows.Keys) + SchemaCells(r.schemas.Keys)
  }

  method RemovePolicies(gw: Gateway, ids: seq<string>) returns (ok: bool)
    modifies gw
    ensures gw.Reliable() ==> ok
    ensures ok ==> Emptied(old(gw.st), gw.st, FragmentCells(ids))
  {
    hide View, Wrote, Emptied;
    Untouched(gw.st);
    assert FragmentCells(ids[..0]) == {};
    for i := 0 to |ids|
      invariant Emptied(old(gw.st), gw.st, FragmentCells(ids[..i]))
    {
      ghost var st := gw.st;
      ok := RemovePolicyOverlay(gw, ids[i]);
      if !ok { return; }
      EmptiedMore(old(gw.st), st, gw.st, FragmentCells(ids[..i]), FragmentCell(ids[i]));
      assert FragmentCells(ids[..i + 1]) == FragmentCells(ids[..i]) + {FragmentCell(ids[i])};
    }
    assert ids[..|ids|] == ids;
    ok := true;
  }

  lemma Untouched(st: Store)
    ensures Emptied(st, st, {})
  {}

  /** A topic that is already gone is no error. */
  method RemoveTopics(gw: Gateway, names: seq<string>) returns (ok: bool)
    modifies gw
    ensures gw.Reliable() ==> ok
    ensures ok ==> Emptied(old(gw.st), gw.st, TopicCells(names))
  {
    hide View, Wrote, Emptied;
    Untouched(gw.st);
    assert TopicCells(names[..0]) == {};
    for i := 0 to |names|
      invariant Emptied(old(gw.st), gw.st, TopicCells(names[..i]))
    {
      ghost var st := gw.st;
      var r := gw.RemoveTopic(names[i]);
      if r.CallFailed? { return false; }
      WroteTopic(st, names[i], Null);
      if r.NotFound? { NoTopic(st, names[i]); }
      EmptiedMore(old(gw.st), st, gw.st, TopicCells(names[..i]), TopicCell(names[i]));
      assert TopicCells(names[..i + 1]) == TopicCells(names[..i]) + {TopicCell(names[i])};
    }
    assert names[..|names|] == names;
    ok := true;
  }

  lemma NoTopic(st: Store, name: string)
    requires name !in st.topics
    ensures View(st, TopicCell(name)) == None
  {}

  /** Purged, or never there. */
  ghost predicate Missing(st: Store, gone: set<Cell>, c: Cell) {
    c in gone || View(st, c) == None
  }

  lemma DeleteFailed(st0: Store, st: Store, gone: set<Cell>, c: Cell)
    requires Emptied(st0, st, gone) && RealCell(c)
    ensures c.WorkflowCell? && c.id !in st.workflows ==> Missing(st0, gone, c)
    ensures c.SchemaCell? && c.id !in st.schemas ==> Missing(st0, gone, c)
  {}

  /** The purge carries on after a failing delete, so it empties some of the workflows. */
  method PurgeWorkflows(gw: Gateway, ids: set<string>) returns (ghost gone: set<Cell>)
    modifies gw
    ensures gone <= WorkflowCells(ids) && Emptied(old(gw.st), gw.st, gone)
    ensures gw.Reliable() ==> forall id :: id in ids ==> Missing(old(gw.st), gone, WorkflowCell(id))
  {
    hide View, Wrote, Emptied;
    gone := {};
    Untouched(gw.st);
    var left := ids;
    while left != {}
      invariant left <= ids && gone <= WorkflowCells(ids) && Emptied(old(gw.st), gw.st, gone)
      invariant gw.Reliable() ==> forall id :: id in ids - left ==> Missing(old(gw.st), gone, WorkflowCell(id))
    {
      var id :| id in left;
      ghost var st := gw.st;
      var ok := gw.DeleteWorkflow(id);
      DeleteFailed(old(gw.st), st, gone, WorkflowCell(id));
      if ok {
        WroteWorkflow(st, id, Bool(true));
        EmptiedMore(old(gw.st), st, gw.st, gone, WorkflowCell(id));
        gone := gone + {WorkflowCell(id)};
      }
      left := left - {id};
    }
  }

  method PurgeSchemas(gw: Gateway, ids: set<string>) returns (ghost gone: set<Cell>)
    modifies gw
    ensures gone <= SchemaCells(ids) && Emptied(old(gw.st), gw.st, gone)
    ensures gw.Reliable() ==> forall id :: id in ids ==> Missing(old(gw.st), gone, SchemaCell(id))
  {
    hide View, Wrote, Emptied;
    gone := {};
    Untouched(gw.st);
    var left := ids;
    while left != {}
      invariant left <= ids && gone <= SchemaCells(ids) && Emptied(old(gw.st), gw.st, gone)
      invariant gw.Reliable() ==> forall id :: id in ids - left ==> Missing(old(gw.st), gone, SchemaCell(id))
    {
      var id :| id in left;
      ghost var st := gw.st;
      var ok := gw.DeleteSchema(id);
      DeleteFailed(old(gw.st), st, gone, SchemaCell(id));
      if ok {
        WroteSchema(st, id, Bool(true));
        EmptiedMore(old(gw.st), st, gw.st, gone, SchemaCell(id));
        gone := gone + {SchemaCell(id)};
      }
      left := left - {id};
    }
  }

  method Purge(gw: Gateway, r: Record) returns (ghost gone: set<Cell>)
    modifies gw
    ensures gone <= ResourceCells(r) && Emptied(old(gw.st), gw.st, gone)
    ensures gw.Reliable() ==> forall c :: c in ResourceCells(r) ==> Missing(old(gw.st), gone, c)
  {
    hide View;
    gone := PurgeWorkflows(gw, r.workflows.Keys);
    ghost var schemas := PurgeSchemas(gw, r.schemas.Keys);
    gone := gone + schemas;
  }

  // ---------------------------------------------------------------- runPackUninstall

  /** What a successful uninstall leaves in a cell other than the registry's. */
  ghost function Left(v: Option<Json>, r: Record, purged: set<Cell>, d: Cell): Option<Json> {
    if d in FragmentCells(FragmentIDs(r.policies)) + TopicCells(r.topics) + purged then None
    else RunOn(v, Removes(AppliedOf(r.configs)), d)
  }

  /** The record in the store under this ID. */
  ghost predicate Recording(st: Store, packID: string) {
    RegistryOf(st).Some? && packID in RegistryOf(st).value
  }

  ghost function RecordIn(st: Store, packID: string): Record
    requires Recording(st, packID)
  {
    RegistryOf(st).value[packID]
  }

  /** A finished uninstall of a pack with record `r`. */
  ghost predicate UninstalledAs(st0: Store, st: Store, r: Record, purged: set<Cell>) {
    && (forall d :: RealCell(d) && d != REGISTRY ==> View(st, d) == Left(View(st0, d), r, purged, d))
    && RegistryOf(st0).Some?
    && RegistryOf(st) == Some(RegistryOf(st0).value[r.id := r.(status := DISABLED)])
    && RegistryOk(st)
  }

  /** The record is read from the registry, and a pack without one is refused. A successful uninstall
      removes exactly the recorded overlays, fragments and topics, with --purge some or all of the
      recorded resources and without it none, and writes the record back disabled. */
  method RunPackUninstall(gw: Gateway, packID: string, purge: bool) returns (ok: bool, ghost purged: set<Cell>)
    requires RegistryOk(gw.st)
    modifies gw
    ensures gw.Reliable() ==> (ok <==> Recording(old(gw.st), packID))
    ensures !Recording(old(gw.st), packID) ==> !ok && gw.st == old(gw.st)
    ensures ok ==>
              var r := RecordIn(old(gw.st), packID);
              && UninstalledAs(old(gw.st), gw.st, r, purged)
              && purged <= (if purge then ResourceCells(r) else {})
              && (gw.Reliable() && purge ==> forall c :: c in ResourceCells(r) ==> Missing(old(gw.st), purged, c))
  {
    hide View, RealCell, RunOn, Removes, RegistryOf, RegistryOk, UninstalledAs, RecordOk, AllowedKey, Missing,
      ResourceCells;
    purged := {};
    var records, _ := LoadRegistry(gw);
    if records.None? || packID !in records.value { return false, purged; }
    var r := records.value[packID];
    assert RecordOk(r) by { StoredOk(gw.st, packID); }
    ok, purged := RemoveRecorded(gw, r, purge);
    if !ok { return; }
    ghost var st := gw.st;
    RegistrySpared(old(gw.st), st, r, purged);
    var disabled := r.(status := DISABLED);
    assert RecordOk(disabled) && Shaped(disabled) by { StatusIsFree(r); }
    ok := UpdateRegistry(gw, disabled);
    if ok { Disabled(old(gw.st), st, gw.st, r, purged); }
  }

  lemma StoredOk(st: Store, packID: string)
    requires RegistryOk(st) && Recording(st, packID)
    ensures RecordOk(RecordIn(st, packID))
  {
    hide RecordOk;
  }

  lemma StatusIsFree(r: Record)
    requires RecordOk(r)
    ensures RecordOk(r.(status := DISABLED)) && Shaped(r.(status := DISABLED))
  {}

  /** Everything but the registry update; a failing call stops it. */
  method RemoveRecorded(gw: Gateway, r: Record, purge: bool) returns (ok: bool, ghost purged: set<Cell>)
    requires RecordOk(r)
    modifies gw
    ensures gw.Reliable() ==> ok
    ensures ok ==>
              && (forall d :: RealCell(d) ==> View(gw.st, d) == Left(View(old(gw.st), d), r, purged, d))
              && purged <= (if purge then ResourceCells(r) else {})
              && (gw.Reliable() && purge ==> forall c :: c in ResourceCells(r) ==> Missing(old(gw.st), purged, c))
  {
    hide View, RealCell, Removes, RunOn, Emptied, AppliedOf, RecordOk, Missing, ResourceCells;
    purged := {};
    RecordCells(r);
    var os := AppliedOf(r.configs);
    ghost var from: nat;
    ok, from := RemoveConfigs(gw, os);
    if !ok { return; }
    assert os[0..] == os;
    ghost var st1 := gw.st;
    ok := RemovePolicies(gw, FragmentIDs(r.policies));
    if !ok { return; }
    ghost var st2 := gw.st;
    ok := RemoveTopics(gw, r.topics);
    if !ok { return; }
    ghost var st3 := gw.st;
    Untouched(gw.st);
    if purge {
      purged := Purge(gw, r);
      EarlierMissing(old(gw.st), st1, st2, st3, r, purged);
    }
    forall d | RealCell(d) ensures View(gw.st, d) == Left(View(old(gw.st), d), r, purged, d) {
      EmptiedAt(st1, st2, FragmentCells(FragmentIDs(r.policies)), d);
      EmptiedAt(st2, st3, TopicCells(r.topics), d);
      EmptiedAt(st3, gw.st, purged, d);
    }
  }

  /** Nothing before the purge touched a schema or workflow. */
  lemma EarlierMissing(st0: Store, st1: Store, st2: Store, st3: Store, r: Record, gone: set<Cell>)
    requires RecordOk(r)
    requires forall d :: RealCell(d) ==> View(st1, d) == RunOn(View(st0, d), Removes(AppliedOf(r.configs)), d)
    requires Emptied(st1, st2, FragmentCells(FragmentIDs(r.policies))) && Emptied(st2, st3, TopicCells(r.topics))
    ensures forall c :: c in ResourceCells(r) && Missing(st3, gone, c) ==> Missing(st0, gone, c)
  {
    hide View, Removes, RunOn, RecordOk, AppliedOf, Emptied;
    RecordCells(r);
    forall c | c in ResourceCells(r) && Missing(st3, gone, c) ensures Missing(st0, gone, c) {
      assert c.WorkflowCell? || c.SchemaCell?;
      EmptiedAt(st1, st2, FragmentCells(FragmentIDs(r.policies)), c);
      EmptiedAt(st2, st3, TopicCells(r.topics), c);
      NoOverlayOn(AppliedOf(r.configs), View(st0, c), c);
    }
  }

  lemma {:induction false} NoOverlayOn(os: seq<Applied>, v: Option<Json>, d: Cell)
    requires forall i :: 0 <= i < |os| ==> os[i].cell != d
    ensures RunOn(v, Removes(os), d) == v
  {
    if os != [] {
      NoOverlayOn(os[1..], v, d);
      OthersSnoc(Removes(os[1..]), Remove(os[0].cell, os[0].patch), v, d);
    }
  }

  lemma RegistrySpared(st0: Store, st: Store, r: Record, purged: set<Cell>)
    requires forall d :: RealCell(d) ==> View(st, d) == Left(View(st0, d), r, purged, d)
    requires purged <= ResourceCells(r) && RecordOk(r)
    ensures RegistryOf(st) == RegistryOf(st0) && (RegistryOk(st) <==> RegistryOk(st0))
  {
    hide View, Removes, RunOn, RegistryOf, RecordOk, AppliedOf;
    RecordCells(r);
    NoOverlayOn(AppliedOf(r.configs), View(st0, REGISTRY), REGISTRY);
    assert RealCell(REGISTRY);
    SameRegistry(st0, st);
  }

  /** The removals spare the registry, and the last write disables the record. */
  lemma Disabled(st0: Store, st: Store, st': Store, r: Record, purged: set<Cell>)
    requires forall d :: RealCell(d) ==> View(st, d) == Left(View(st0, d), r, purged, d)
    requires purged <= ResourceCells(r) && RecordOk(r) && RegistryOk(st0)
    requires RecordPut(st, st', r.(status := DISABLED))
    ensures UninstalledAs(st0, st', r, purged)
  {
    hide View, RegistryOf, RecordOk, Left, ResourceCells;
    RegistrySpared(st0, st, r, purged);
    StatusIsFree(r);
    PutKeepsOk(st, st', r.(status := DISABLED));
  }

  lemma EmptiedAt(st: Store, st': Store, gone: set<Cell>, d: Cell)
    requires Emptied(st, st', gone) && RealCell(d)
    ensures View(st', d) == if d in gone then None else View(st, d)
  {}

  // ---------------------------------------------------------------- install, then uninstall

  /** Overlays, and only they, are merged; and their patches are objects. */
  predicate WellShaped(i: Intent) {
    (i.MergeTo? <==> i.cell.ConfigCell?) && (i.MergeTo? ==> i.patch.Obj?)
  }

  lemma {:induction false} CollectShape<T>(xs: seq<T>, f: T -> Option<Intent>)
    requires forall i :: 0 <= i < |xs| ==> f(xs[i]).Some? ==> WellShaped(f(xs[i]).value)
    ensures forall k :: 0 <= k < |Collect(xs, f)| ==> WellShaped(Collect(xs, f)[k])
  {
    if xs != [] { CollectShape(xs[..|xs| - 1], f); }
  }

  /** The overlays that are applied and valid. */
  predicate OverlaysOk(p: PackInstaller.Pack, inactive: bool) {
    forall i :: 0 <= i < |p.configs| ==>
      PackInstaller.Skipped(p.configs[i], inactive) || PackInstaller.ValidOverlay(p.configs[i])
  }

  lemma IntentsShape(p: PackInstaller.Pack, sp: seq<PackInstaller.Plan>, wp: seq<PackInstaller.Plan>, inactive: bool)
    requires OverlaysOk(p, inactive)
    ensures var want := PackInstaller.Intents(p, sp, wp, inactive);
            forall k :: 0 <= k < |want| ==> WellShaped(want[k])
  {
    hide PackInstaller.Skipped, Collect;
    CollectShape(sp, PackInstaller.SchemaIntent);
    CollectShape(wp, PackInstaller.WorkflowIntent);
    CollectShape(p.configs, (o: PackInstaller.ConfigOverlay) => PackInstaller.ConfigIntent(o, inactive));
    CollectShape(p.policies, (o: PackInstaller.PolicyOverlay) => PackInstaller.PolicyIntent(p.id, o));
    CollectShape(p.topics, PackInstaller.TopicIntent);
  }

  /** The overlays an install applies without recording them. */
  function UnnamedConfigs(os: seq<PackInstaller.ConfigOverlay>, inactive: bool): seq<AppliedConfig> {
    if os == [] then []
    else
      var before, o := UnnamedConfigs(os[..|os| - 1], inactive), os[|os| - 1];
      if !PackInstaller.Skipped(o, inactive) && o.name == "" then before + [PackInstaller.AppliedOverlay(o)] else before
  }

  lemma {:induction false} WhereConcat(a: seq<Intent>, b: seq<Intent>, recorded: set<bool>)
    ensures OverlaysWhere(a + b, recorded) == OverlaysWhere(a, recorded) + OverlaysWhere(b, recorded)
    decreases |b|
  {
    if b == [] {
      assert a + b == a;
    } else {
      var b' := b[..|b| - 1];
      WhereConcat(a, b', recorded);
      assert (a + b)[..|a + b| - 1] == a + b';
    }
  }

  lemma {:induction false} NoneMerged<T>(xs: seq<T>, f: T -> Option<Intent>, recorded: set<bool>)
    requires forall i :: 0 <= i < |xs| ==> f(xs[i]).Some? ==> f(xs[i]).value.SetTo?
    ensures OverlaysWhere(Collect(xs, f), recorded) == []
  {
    if xs != [] {
      var xs' := xs[..|xs| - 1];
      NoneMerged(xs', f, recorded);
      var last := f(xs[|xs| - 1]);
      if last.Some? {
        WhereSnoc(Collect(xs', f), last.value, recorded);
      } else {
        assert Collect(xs, f) == Collect(xs', f);
      }
    }
  }

  lemma WhereSnoc(want: seq<Intent>, i: Intent, recorded: set<bool>)
    ensures OverlaysWhere(want + [i], recorded) ==
              if i.MergeTo? && i.recorded in recorded then OverlaysWhere(want, recorded) + [Applied(i.cell, i.patch)]
              else OverlaysWhere(want, recorded)
  {
    assert (want + [i])[..|want|] == want;
  }

  lemma {:induction false} ConfigsMerged(os: seq<PackInstaller.ConfigOverlay>, inactive: bool)
    ensures var want := Collect(os, (o: PackInstaller.ConfigOverlay) => PackInstaller.ConfigIntent(o, inactive));
            && OverlaysWhere(want, {true}) == AppliedOf(PackInstaller.RecordedConfigs(os, inactive))
            && OverlaysWhere(want, {false}) == AppliedOf(UnnamedConfigs(os, inactive))
  {
    hide PackInstaller.Skipped, PackInstaller.Scope, PackInstaller.ScopeID, PackInstaller.ConfigKey, OverlaysWhere;
    var f := (o: PackInstaller.ConfigOverlay) => PackInstaller.ConfigIntent(o, inactive);
    if os == [] {
      assert OverlaysWhere([], {true}) == [] && OverlaysWhere([], {false}) == [] by { NothingWanted(); }
    } else {
      var os', o := os[..|os| - 1], os[|os| - 1];
      ConfigsMerged(os', inactive);
      if !PackInstaller.Skipped(o, inactive) {
        WhereSnoc(Collect(os', f), f(o).value, {true});
        WhereSnoc(Collect(os', f), f(o).value, {false});
        AppliedMore(PackInstaller.RecordedConfigs(os', inactive), PackInstaller.AppliedOverlay(o));
        AppliedMore(UnnamedConfigs(os', inactive), PackInstaller.AppliedOverlay(o));
      } else {
        assert Collect(os, f) == Collect(os', f);
      }
    }
  }

  lemma NothingWanted()
    ensures OverlaysWhere([], {true}) == [] && OverlaysWhere([], {false}) == []
  {}

  lemma AppliedMore(configs: seq<AppliedConfig>, a: AppliedConfig)
    ensures AppliedOf(configs + [a]) == AppliedOf(configs) + [Applied(CellOf(a), a.patch)]
  {}

  /** What the record lists is what the install merged and recorded. */
  lemma IntentsMerged(p: PackInstaller.Pack, sp: seq<PackInstaller.Plan>, wp: seq<PackInstaller.Plan>, inactive: bool)
    ensures var want := PackInstaller.Intents(p, sp, wp, inactive);
            && OverlaysWhere(want, {true}) == AppliedOf(PackInstaller.RecordedConfigs(p.configs, inactive))
            && OverlaysWhere(want, {false}) == AppliedOf(UnnamedConfigs(p.configs, inactive))
  {
    hide OverlaysWhere, Collect, AppliedOf, PackInstaller.RecordedConfigs, UnnamedConfigs;
    ConfigsMerged(p.configs, inactive);
    OnlyConfigs(p, sp, wp, inactive, {true});
    OnlyConfigs(p, sp, wp, inactive, {false});
  }

  lemma OnlyConfigs(p: PackInstaller.Pack, sp: seq<PackInstaller.Plan>, wp: seq<PackInstaller.Plan>, inactive: bool,
                    r: set<bool>)
    ensures OverlaysWhere(PackInstaller.Intents(p, sp, wp, inactive), r) ==
              OverlaysWhere(Collect(p.configs,
                (o: PackInstaller.ConfigOverlay) => PackInstaller.ConfigIntent(o, inactive)), r)
  {
    hide OverlaysWhere, Collect;
    var i1, i2 := Collect(sp, PackInstaller.SchemaIntent), Collect(wp, PackInstaller.WorkflowIntent);
    var i3 := Collect(p.configs, (o: PackInstaller.ConfigOverlay) => PackInstaller.ConfigIntent(o, inactive));
    var i4 := Collect(p.policies, (o: PackInstaller.PolicyOverlay) => PackInstaller.PolicyIntent(p.id, o));
    var i5 := Collect(p.topics, PackInstaller.TopicIntent);
    NoneMerged(sp, PackInstaller.SchemaIntent, r);
    NoneMerged(wp, PackInstaller.WorkflowIntent, r);
    NoneMerged(p.policies, (o: PackInstaller.PolicyOverlay) => PackInstaller.PolicyIntent(p.id, o), r);
    NoneMerged(p.topics, PackInstaller.TopicIntent, r);
    WhereConcat(i1 + i2 + i3 + i4, i5, r);
    WhereConcat(i1 + i2 + i3, i4, r);
    WhereConcat(i1 + i2, i3, r);
    WhereConcat(i1, i2, r);
  }

  /** Install any pack, let others patch the same documents, uninstall it by its record: in every config
      key a leaf that a named overlay reaches is gone, and every other leaf is what the unnamed
      overlays and the others made of it. */
  lemma RoundTrip(st0: Store, p: PackInstaller.Pack, sp: seq<PackInstaller.Plan>, wp: seq<PackInstaller.Plan>,
                  inactive: bool, cs: seq<Change>, others: seq<Op>, r: Record, purged: set<Cell>, d: Cell, path: Path)
    requires OverlaysOk(p, inactive)
    requires Sound(st0, cs) && Follows([], cs, PackInstaller.Intents(p, sp, wp, inactive), true)
    requires forall i :: 0 <= i < |others| ==> others[i].Other?
    requires r.configs == PackInstaller.RecordedConfigs(p.configs, inactive) && purged <= ResourceCells(r)
    requires d.ConfigCell?
    ensures Leaf(Left(RunOn(After(View(st0, d), cs, d), others, d), r, purged, d), path) ==
              Remains(Leaf(View(st0, d), path), AppliedOf(r.configs), AppliedOf(UnnamedConfigs(p.configs, inactive)),
                      others, d, path)
  {
    hide Sound, Follows, PackInstaller.Intents, View, After, RunOn, Leaf, Removes, OverlaysWhere, Remains, AppliedOf,
      UnnamedConfigs, PackInstaller.RecordedConfigs, OverlaysOk;
    IntentsShape(p, sp, wp, inactive);
    IntentsMerged(p, sp, wp, inactive);
    InstallThenUninstall(st0, cs, PackInstaller.Intents(p, sp, wp, inactive), others, d, path);
  }

  /** Somebody else's patches, one after the other. */
  method PatchConfigs(gw: Gateway, others: seq<Op>) returns (ok: bool)
    requires forall i :: 0 <= i < |others| ==>
               others[i].Other? && others[i].cell.ConfigCell? && RealCell(others[i].cell) && others[i].cell != REGISTRY
    modifies gw
    ensures gw.Reliable() ==> ok
    ensures ok ==> forall d :: RealCell(d) ==> View(gw.st, d) == RunOn(View(old(gw.st), d), others, d)
    ensures View(gw.st, REGISTRY) == View(old(gw.st), REGISTRY)
  {
    hide View, Apply, RunOn, RealCell;
    assert others[..0] == [];
    assert forall v, d :: RunOn(v, [], d) == v by { NothingRun(); }
    assert RealCell(REGISTRY) by { RegistryIsReal(); }
    for i := 0 to |others|
      invariant forall d :: RealCell(d) ==> View(gw.st, d) == RunOn(View(old(gw.st), d), others[..i], d)
      invariant View(gw.st, REGISTRY) == View(old(gw.st), REGISTRY)
    {
      ghost var st := gw.st;
      ok := PatchConfig(gw, others[i]);
      if !ok { return; }
      assert others[..i + 1] == others[..i] + [others[i]];
      forall d | RealCell(d) ensures View(gw.st, d) == RunOn(View(old(gw.st), d), others[..i + 1], d) {
        OthersSnoc(others[..i], others[i], View(old(gw.st), d), d);
      }
    }
    assert others[..|others|] == others;
    ok := true;
  }

  lemma NothingRun()
    ensures forall v, d :: RunOn(v, [], d) == v
  {}

  lemma RegistryIsReal()
    ensures RealCell(REGISTRY)
  {}

  method PatchConfig(gw: Gateway, op: Op) returns (ok: bool)
    requires op.Other? && op.cell.ConfigCell? && RealCell(op.cell)
    modifies gw
    ensures gw.Reliable() ==> ok
    ensures if ok then Wrote(old(gw.st), gw.st, op.cell, Apply(View(old(gw.st), op.cell), op)) else gw.st == old(gw.st)
  {
    hide MergePatch.MergeInto;
    var ConfigCell(scope, id, key) := op.cell;
    var r := gw.GetConfig(scope, id);
    if r.CallFailed? { return false; }
    var data := if r.Found? then r.value else map[];
    var current := if key in data then data[key] else Null;
    assert current == Value(View(gw.st, op.cell));
    var updated := MergePatch.MergePatch(current, op.patch);
    WroteConfig(gw.st, scope, id, key, updated);
    ok := gw.SetConfig(scope, id, data[key := updated]);
  }

  /** The whole story at one gateway: runPackInstall, patches by others, runPackUninstall, which finds in
      the registry the record the install put there. */
  method InstallPatchUninstall(gw: Gateway, p: PackInstaller.Pack, hex: CanonicalWriter.Digest -> string, upgrade: bool,
                               inactive: bool, others: seq<Op>, purge: bool)
    returns (done: bool)
    requires PackInstaller.PackOk(p) && PackInstaller.StoreOk(gw.st) && RegistryOk(gw.st)
    requires forall i :: 0 <= i < |others| ==>
               others[i].Other? && others[i].cell.ConfigCell? && RealCell(others[i].cell) && others[i].cell != REGISTRY
    modifies gw
    ensures gw.Reliable() && PackInstaller.Acceptable(old(gw.st), p, upgrade, inactive) ==> done
    ensures done ==>
              forall d: Cell, path: Path :: d.ConfigCell? && RealCell(d) && d != REGISTRY ==>
                Leaf(View(gw.st, d), path) ==
                  Remains(Leaf(View(old(gw.st), d), path),
                          AppliedOf(PackInstaller.RecordedConfigs(p.configs, inactive)),
                          AppliedOf(UnnamedConfigs(p.configs, inactive)), others, d, path)
    ensures done ==> NothingElse(gw.st, p, purge && gw.Reliable())
  {
    hide View, RealCell, PackInstaller.Acceptable, PackInstaller.InstalledAs, PackInstaller.Planned, Sound, Follows,
      PackInstaller.Intents, RegistryOk, RegistryOf, UninstalledAs, Remains, Leaf, RunOn, After, AppliedOf,
      PackInstaller.RecordedConfigs, UnnamedConfigs, PackInstaller.RecordOf, Left, ResourceCells, Missing, NothingElse,
      RecordOk;
    ghost var st0 := gw.st;
    var outcome, sp, wp, cs, oks := PackInstaller.RunPackInstall(gw, p, hex, upgrade, inactive);
    if outcome != PackInstaller.Installed { return false; }
    ghost var st1 := gw.st;
    done := PatchConfigs(gw, others);
    if !done { return; }
    ghost var st2 := gw.st;
    Handover(st0, st1, st2, p, PackInstaller.RecordOf(p, sp, wp, inactive, hex), cs);
    ghost var purged;
    done, purged := RunPackUninstall(gw, p.id, purge);
    if done {
      StoredOk(st2, p.id);
      PlansNamed(st0, p, sp, wp, upgrade);
      ElseGone(st2, gw.st, p, sp, wp, inactive, hex, purged, purge && gw.Reliable());
      forall d: Cell, path: Path | d.ConfigCell? && RealCell(d) && d != REGISTRY
        ensures Leaf(View(gw.st, d), path) ==
                  Remains(Leaf(View(st0, d), path), AppliedOf(PackInstaller.RecordedConfigs(p.configs, inactive)),
                          AppliedOf(UnnamedConfigs(p.configs, inactive)), others, d, path)
      {
        assert View(st1, d) == After(View(st0, d), cs, d) by { InstalledAt(st0, st1, p, RecordIn(st2, p.id), cs, d); }
        UninstalledAt(st2, gw.st, RecordIn(st2, p.id), purged, d);
        assert OverlaysOk(p, inactive) by { AcceptedOverlays(st0, p, upgrade, inactive); }
        RecordLists(p, sp, wp, inactive, hex);
        RoundTrip(st0, p, sp, wp, inactive, cs, others, RecordIn(st2, p.id), purged, d, path);
      }
    }
  }

  /** A pack's named fragments and its topics are gone, and after a full purge its resources too. */
  ghost predicate NothingElse(st: Store, p: PackInstaller.Pack, all: bool) {
    && (forall i :: 0 <= i < |p.policies| && p.policies[i].name != "" ==>
          View(st, FragmentCell(PackInstaller.FragmentId(p.id, p.policies[i].name))) == None)
    && (forall i :: 0 <= i < |p.topics| ==> View(st, TopicCell(p.topics[i].name)) == None)
    && (all ==>
          && (forall i :: 0 <= i < |p.schemas| ==> View(st, SchemaCell(p.schemas[i].id)) == None)
          && (forall i :: 0 <= i < |p.workflows| ==> View(st, WorkflowCell(p.workflows[i].id)) == None))
  }

  lemma {:induction false} PolicyRecorded(id: string, os: seq<PackInstaller.PolicyOverlay>, i: nat)
    requires i < |os| && os[i].name != ""
    ensures PackInstaller.FragmentId(id, os[i].name) in FragmentIDs(PackInstaller.RecordedPolicies(id, os))
  {
    hide PackInstaller.FragmentId;
    var n := |os| - 1;
    var before, all := PackInstaller.RecordedPolicies(id, os[..n]), PackInstaller.RecordedPolicies(id, os);
    if i == n {
      assert FragmentIDs(all)[|before|] == PackInstaller.FragmentId(id, os[n].name);
    } else {
      PolicyRecorded(id, os[..n], i);
      var k :| 0 <= k < |before| && FragmentIDs(before)[k] == PackInstaller.FragmentId(id, os[i].name);
      assert FragmentIDs(all)[k] == FragmentIDs(before)[k];
    }
  }

  lemma PlansNamed(st: Store, p: PackInstaller.Pack, sp: seq<PackInstaller.Plan>, wp: seq<PackInstaller.Plan>,
                   upgrade: bool)
    requires PackInstaller.Planned(st, p, sp, wp, upgrade)
    ensures |sp| == |p.schemas| && forall i :: 0 <= i < |sp| ==> sp[i].id == p.schemas[i].id
    ensures |wp| == |p.workflows| && forall i :: 0 <= i < |wp| ==> wp[i].id == p.workflows[i].id
  {
    hide PackInstaller.PlannedSchema, PackInstaller.PlannedWorkflow, PackInstaller.SchemaDecision,
      PackInstaller.WorkflowDecision;
  }

  lemma {:induction false} PlanRecorded(plans: seq<PackInstaller.Plan>, hex: CanonicalWriter.Digest -> string, i: nat)
    requires i < |plans|
    ensures plans[i].id in PackInstaller.Digests(plans, hex)
  {
    if i < |plans| - 1 { PlanRecorded(plans[..|plans| - 1], hex, i); }
  }

  lemma ElseGone(st0: Store, st: Store, p: PackInstaller.Pack, sp: seq<PackInstaller.Plan>, wp: seq<PackInstaller.Plan>,
                 inactive: bool, hex: CanonicalWriter.Digest -> string, purged: set<Cell>, all: bool)
    requires var r := PackInstaller.RecordOf(p, sp, wp, inactive, hex);
             && UninstalledAs(st0, st, r, purged) && RecordOk(r)
             && (all ==> forall c :: c in ResourceCells(r) ==> Missing(st0, purged, c))
    requires |sp| == |p.schemas| && forall i :: 0 <= i < |sp| ==> sp[i].id == p.schemas[i].id
    requires |wp| == |p.workflows| && forall i :: 0 <= i < |wp| ==> wp[i].id == p.workflows[i].id
    ensures NothingElse(st, p, all)
  {
    hide View, RegistryOf, RegistryOk, RecordOk, RunOn, Removes, AppliedOf, PackInstaller.RecordedConfigs,
      PackInstaller.RecordedPolicies, PackInstaller.Digests, PackInstaller.FragmentId, PackInstaller.StatusOf;
    var r := PackInstaller.RecordOf(p, sp, wp, inactive, hex);
    forall i | 0 <= i < |p.policies| && p.policies[i].name != ""
      ensures View(st, FragmentCell(PackInstaller.FragmentId(p.id, p.policies[i].name))) == None
    {
      PolicyRecorded(p.id, p.policies, i);
    }
    forall i | 0 <= i < |p.topics| ensures View(st, TopicCell(p.topics[i].name)) == None {
      assert r.topics[i] == p.topics[i].name;
    }
    if all {
      forall i | 0 <= i < |p.schemas| ensures View(st, SchemaCell(p.schemas[i].id)) == None {
        PlanRecorded(sp, hex, i);
        PurgedIsGone(st0, st, r, purged, SchemaCell(p.schemas[i].id));
      }
      forall i | 0 <= i < |p.workflows| ensures View(st, WorkflowCell(p.workflows[i].id)) == None {
        PlanRecorded(wp, hex, i);
        PurgedIsGone(st0, st, r, purged, WorkflowCell(p.workflows[i].id));
      }
    }
  }

  lemma PurgedIsGone(st0: Store, st: Store, r: Record, purged: set<Cell>, c: Cell)
    requires UninstalledAs(st0, st, r, purged) && RecordOk(r) && (c.SchemaCell? || c.WorkflowCell?)
    requires Missing(st0, purged, c)
    ensures View(st, c) == None
  {
    hide View, RegistryOf, RegistryOk, RecordOk, RunOn, Removes, AppliedOf;
    RecordCells(r);
    NoOverlayOn(AppliedOf(r.configs), View(st0, c), c);
  }

  /** The uninstall finds the record that the install wrote. */
  lemma Handover(st0: Store, st1: Store, st2: Store, p: PackInstaller.Pack, r: Record, cs: seq<Change>)
    requires PackInstaller.InstalledAs(st0, st1, p, r, cs) && RegistryOk(st0)
    requires View(st2, REGISTRY) == View(st1, REGISTRY)
    ensures RegistryOk(st2) && Recording(st2, p.id) && RecordIn(st2, p.id) == r
  {
    hide View, RegistryOf;
    SameRegistry(st1, st2);
  }

  lemma InstalledAt(st0: Store, st: Store, p: PackInstaller.Pack, r: Record, cs: seq<Change>, d: Cell)
    requires PackInstaller.InstalledAs(st0, st, p, r, cs) && RealCell(d) && d != REGISTRY
    ensures View(st, d) == After(View(st0, d), cs, d)
  {}

  lemma UninstalledAt(st0: Store, st: Store, r: Record, purged: set<Cell>, d: Cell)
    requires UninstalledAs(st0, st, r, purged) && RealCell(d) && d != REGISTRY
    ensures View(st, d) == Left(View(st0, d), r, purged, d)
  {}

  lemma AcceptedOverlays(st: Store, p: PackInstaller.Pack, upgrade: bool, inactive: bool)
    requires PackInstaller.Acceptable(st, p, upgrade, inactive)
    ensures OverlaysOk(p, inactive)
  {
    hide PackInstaller.AllFit, PackInstaller.Skipped, PackInstaller.ValidOverlay;
    PackInstaller.FitIsValid(st, p.id, p.aliases, p.configs, inactive);
  }

  lemma RecordLists(p: PackInstaller.Pack, sp: seq<PackInstaller.Plan>, wp: seq<PackInstaller.Plan>, inactive: bool,
                    hex: CanonicalWriter.Digest -> string)
    ensures PackInstaller.RecordOf(p, sp, wp, inactive, hex).configs ==
              PackInstaller.RecordedConfigs(p.configs, inactive)
  {}
}
