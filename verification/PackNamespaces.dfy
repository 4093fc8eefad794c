/**
 What a pack's config overlays do to names that are not its own (cmd/cordumctl/pack.go): topics
 outside its prefixes and workflow timeouts outside its ID.
 */
module PackNamespaces {
  import opened Wrappers
  import opened JsonValue
  import opened PackStore
  import opened PackInstall
  import opened PackInstaller
  import opened PackUninstall
  import opened PackUninstaller
  import opened RegistryStore
  import opened Text
  import ConfigPatch
  import MergePatch
  import PackRecords
  import PackRegistry

  /** A topic or a workflow timeout that a pack does not own. */
  predicate Foreign(id: string, aliases: seq<string>, path: Path) {
    && |path| >= 2
    && match path[0]
       case "topics" => !PackRegistry.HasAnyPrefix(path[1], PackRegistry.TopicPrefixes(id, aliases))
       case "workflows" => !HasPrefix(path[1], id + ".")
       case _ => false
  }

  /** Some overlay on `d` gives the section of this path as null. */
  ghost predicate SectionNulled(os: seq<ConfigOverlay>, inactive: bool, d: Cell, path: Path)
    requires path != []
  {
    exists i :: 0 <= i < |os| && NulledBy(os[i], inactive, d, path)
  }

  predicate NulledBy(o: ConfigOverlay, inactive: bool, d: Cell, path: Path)
    requires path != []
  {
    !Skipped(o, inactive) && CellFor(o) == d && o.patch.Obj? && ConfigPatch.Nulled(o.patch.fields, path)
  }

  /** One overlay on a leaf its pack does not own. */
  lemma ForeignStep(o: ConfigOverlay, id: string, aliases: seq<string>, v: Option<Json>, path: Path)
    requires OverlayFits(o, id, aliases, Value(v)) && Foreign(id, aliases, path)
    ensures Leaf(Some(MergePatch.MergeInto(Value(v), o.patch)), path) ==
              if ConfigPatch.Nulled(o.patch.fields, path) then None else Leaf(v, path)
  {
    hide ConfigPatch.PatchOk, PackRegistry.HasAnyPrefix, PackRegistry.TopicPrefixes;
    ConfigPatch.OutsideExactly(ConfigKey(o), o.patch.fields, id, aliases, Value(v), path);
    assert Obj(o.patch.fields) == o.patch;
    if !ConfigPatch.Nulled(o.patch.fields, path) { MergePatch.MergeFrame(Value(v), o.patch, path); }
  }

  lemma {:induction false} ForeignLeaf(st: Store, id: string, aliases: seq<string>, os: seq<ConfigOverlay>,
                                       inactive: bool, d: Cell, path: Path)
    requires AllFit(st, id, aliases, os, inactive) && Foreign(id, aliases, path)
    ensures Leaf(ConfigAfter(View(st, d), os, inactive, d), path) ==
              if SectionNulled(os, inactive, d, path) then None else Leaf(View(st, d), path)
  {
    hide Leaf, View, Skipped, CellFor, OverlayFits, MergePatch.MergeInto, Foreign;
    assert path != [] by { ForeignPath(id, aliases, path); }
    if os != [] {
      var n := |os| - 1;
      var os', o := os[..n], os[n];
      FitPrefix(st, id, aliases, os, inactive);
      ForeignLeaf(st, id, aliases, os', inactive, d, path);
      NulledSnoc(os', o, inactive, d, path);
      assert os == os' + [o];
      if !Skipped(o, inactive) && CellFor(o) == d {
        assert FitsAt(st, id, aliases, os, inactive, n);
        ForeignStep(o, id, aliases, ConfigAfter(View(st, d), os', inactive, d), path);
        assert o.patch.Obj? by { FitIsObject(o, id, aliases, Value(ConfigAfter(View(st, d), os', inactive, d))); }
      }
    }
  }

  lemma ForeignPath(id: string, aliases: seq<string>, path: Path)
    requires Foreign(id, aliases, path)
    ensures |path| >= 2
  {}

  lemma FitIsObject(o: ConfigOverlay, id: string, aliases: seq<string>, current: Json)
    requires OverlayFits(o, id, aliases, current)
    ensures o.patch.Obj?
  {}

  lemma FitPrefix(st: Store, id: string, aliases: seq<string>, os: seq<ConfigOverlay>, inactive: bool)
    requires AllFit(st, id, aliases, os, inactive) && os != []
    ensures AllFit(st, id, aliases, os[..|os| - 1], inactive)
  {
    hide Skipped, OverlayFits, ConfigAfter, View, CellFor;
    var os' := os[..|os| - 1];
    forall i | 0 <= i < |os'| ensures FitsAt(st, id, aliases, os', inactive, i) {
      assert FitsAt(st, id, aliases, os, inactive, i) && os'[..i] == os[..i];
    }
  }

  lemma NulledSnoc(os: seq<ConfigOverlay>, o: ConfigOverlay, inactive: bool, d: Cell, path: Path)
    requires path != []
    ensures SectionNulled(os + [o], inactive, d, path) <==>
              SectionNulled(os, inactive, d, path) || NulledBy(o, inactive, d, path)
  {
    hide NulledBy;
    if i :| 0 <= i < |os| && NulledBy(os[i], inactive, d, path) { assert NulledBy((os + [o])[i], inactive, d, path); }
    assert (os + [o])[|os|] == o;
  }

  /** The merges of an install, overlay by overlay. */
  lemma {:induction false} MergesAre(v: Option<Json>, os: seq<ConfigOverlay>, inactive: bool, d: Cell)
    requires forall i :: 0 <= i < |os| ==> Skipped(os[i], inactive) || ValidOverlay(os[i])
    ensures RunOn(v, Adds(Overlays(Collect(os, (o: ConfigOverlay) => ConfigIntent(o, inactive)))), d) ==
              ConfigAfter(v, os, inactive, d)
  {
    hide Skipped, CellFor, MergePatch.MergeInto, OverlaysWhere, Adds, RunOn, TrimSpace;
    var f := (o: ConfigOverlay) => ConfigIntent(o, inactive);
    if os == [] {
      assert Adds(OverlaysWhere([], {false, true})) == [] && RunOn(v, [], d) == v by { NothingMerged(v, d); }
    } else {
      var os', o := os[..|os| - 1], os[|os| - 1];
      MergesAre(v, os', inactive, d);
      if Skipped(o, inactive) {
        assert Collect(os, f) == Collect(os', f);
      } else {
        WhereSnoc(Collect(os', f), f(o).value, {false, true});
        AddLast(Overlays(Collect(os', f)), Applied(CellFor(o), o.patch));
        OthersSnoc(Adds(Overlays(Collect(os', f))), Add(CellFor(o), o.patch), v, d);
        MergedObject(Value(ConfigAfter(v, os', inactive, d)), o.patch);
      }
    }
  }

  lemma NothingMerged(v: Option<Json>, d: Cell)
    ensures Adds(OverlaysWhere([], {false, true})) == [] && RunOn(v, [], d) == v
  {}

  /** A config key after a finished install holds what the overlays for it made of its value before. */
  lemma InstalledConfig(st0: Store, st: Store, p: Pack, sp: seq<Plan>, wp: seq<Plan>, upgrade: bool, inactive: bool,
                        r: PackRecords.Record, cs: seq<Change>, d: Cell)
    requires Acceptable(st0, p, upgrade, inactive) && Sound(st0, cs)
    requires Follows([], cs, Intents(p, sp, wp, inactive), true) && InstalledAs(st0, st, p, r, cs)
    requires d.ConfigCell? && RealCell(d) && d != REGISTRY
    ensures View(st, d) == ConfigAfter(View(st0, d), p.configs, inactive, d)
  {
    hide Acceptable, Sound, Follows, Intents, InstalledAs, RealCell, View, After, RunOn, Adds, Overlays, OverlaysOk,
      ConfigAfter, AllFit, Collect;
    assert AllFit(st0, p.id, p.aliases, p.configs, inactive) by { Conflicts(st0, p, upgrade, inactive); }
    AcceptedOverlays(st0, p, upgrade, inactive);
    IntentsShape(p, sp, wp, inactive);
    InstallMerges(st0, cs, Intents(p, sp, wp, inactive), d);
    OnlyConfigsMerged(p, sp, wp, inactive);
    FitIsValid(st0, p.id, p.aliases, p.configs, inactive);
    MergesAre(View(st0, d), p.configs, inactive, d);
    InstalledAt(st0, st, p, r, cs, d);
  }

  /** After every install that succeeded, in every config key: a topic or workflow timeout this pack does not
      own has the value it had before, unless an overlay gave its whole section as null; then it is
      gone. */
  lemma ForeignNamesKept(st0: Store, st: Store, p: Pack, sp: seq<Plan>, wp: seq<Plan>, upgrade: bool, inactive: bool,
                         r: PackRecords.Record, cs: seq<Change>, d: Cell, path: Path)
    requires Acceptable(st0, p, upgrade, inactive) && Sound(st0, cs)
    requires Follows([], cs, Intents(p, sp, wp, inactive), true) && InstalledAs(st0, st, p, r, cs)
    requires d.ConfigCell? && RealCell(d) && d != REGISTRY && Foreign(p.id, p.aliases, path)
    ensures Leaf(View(st, d), path) ==
              if SectionNulled(p.configs, inactive, d, path) then None else Leaf(View(st0, d), path)
  {
    hide Acceptable, Sound, Follows, Intents, InstalledAs, RealCell, Foreign, Leaf, View, ConfigAfter, SectionNulled,
      AllFit;
    assert AllFit(st0, p.id, p.aliases, p.configs, inactive) by { Conflicts(st0, p, upgrade, inactive); }
    InstalledConfig(st0, st, p, sp, wp, upgrade, inactive, r, cs, d);
    ForeignLeaf(st0, p.id, p.aliases, p.configs, inactive, d, path);
    assert path != [] by { ForeignPath(p.id, p.aliases, path); }
  }

  lemma OnlyConfigsMerged(p: Pack, sp: seq<Plan>, wp: seq<Plan>, inactive: bool)
    ensures Overlays(Intents(p, sp, wp, inactive)) ==
              Overlays(Collect(p.configs, (o: ConfigOverlay) => ConfigIntent(o, inactive)))
  {
    hide OverlaysWhere, Intents, Collect;
    OnlyConfigs(p, sp, wp, inactive, {false, true});
  }
}
