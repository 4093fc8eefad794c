/**
 What a finished install leaves at the gateway (cmd/cordumctl/pack.go), read off the gateway: every
 resource, overlay, fragment and topic of a pack's files, and the record that lists them.
 */
module PackOutcome {
  import opened Wrappers
  import opened JsonValue
  import opened PackStore
  import opened PackInstall
  import opened PackInstaller
  import opened PackRecords
  import opened PackUninstall
  import opened PackUninstaller
  import opened RegistryStore
  import opened Text
  import Canonical
  import CanonicalWriter
  import MergePatch
  import PackNamespaces

  /** What runPackInstall ensures when it reports success. */
  ghost predicate Finished(st0: Store, st: Store, p: Pack, sp: seq<Plan>, wp: seq<Plan>, upgrade: bool, inactive: bool,
                           hex: CanonicalWriter.Digest -> string, cs: seq<Change>)
  {
    && Acceptable(st0, p, upgrade, inactive) && Planned(st0, p, sp, wp, upgrade)
    && Sound(st0, cs) && Follows([], cs, Intents(p, sp, wp, inactive), true)
    && InstalledAs(st0, st, p, RecordOf(p, sp, wp, inactive, hex), cs)
  }

  // ---------------------------------------------------------------- config overlays

  /** The key of the document that an overlay is for: system/default unless it says otherwise. */
  predicate Targets(o: ConfigOverlay, d: Cell) {
    && d.ConfigCell? && d.key == TrimSpace(o.key)
    && d.scope == (if TrimSpace(o.scope) == "" then "system" else TrimSpace(o.scope))
    && d.scopeID == (if d.scope == "system" && TrimSpace(o.scopeID) == "" then "default" else TrimSpace(o.scopeID))
  }

  lemma TargetIs(o: ConfigOverlay, d: Cell)
    ensures Targets(o, d) <==> d == CellFor(o)
  {
    hide TrimSpace;
  }

  /** --inactive holds back what is for a pools key, and nothing else. */
  predicate HeldBack(key: string, inactive: bool) {
    inactive && Lower(key) == "pools"
  }

  lemma {:induction false} PoolsUntouched(v: Option<Json>, os: seq<ConfigOverlay>, inactive: bool, d: Cell)
    requires d.ConfigCell? && HeldBack(d.key, inactive)
    ensures ConfigAfter(v, os, inactive, d) == v
  {
    hide TrimSpace, Lower;
    if os != [] {
      PoolsUntouched(v, os[..|os| - 1], inactive, d);
      var o := os[|os| - 1];
      assert CellFor(o) == d ==> Skipped(o, inactive);
    }
  }

  /** No overlay after number `i` reaches this path of `d`. */
  ghost predicate NoneLater(os: seq<ConfigOverlay>, i: nat, d: Cell, path: Path) {
    forall j :: i < j < |os| && Targets(os[j], d) ==> MergePatch.Diverges(os[j].patch, path)
  }

  lemma {:induction false} OnThePath(patch: Json, path: Path)
    requires LeafAt(patch, path).Some?
    ensures !MergePatch.Diverges(patch, path)
    decreases path
  {
    if patch.Obj? && path != [] { OnThePath(patch.fields[path[0]], path[1..]); }
  }

  lemma {:induction false} LeafArrives(v: Option<Json>, os: seq<ConfigOverlay>, inactive: bool, i: nat, d: Cell,
                                       path: Path)
    requires i < |os| && Targets(os[i], d) && !HeldBack(d.key, inactive) && os[i].patch.Obj?
    requires LeafAt(os[i].patch, path).Some? && NoneLater(os, i, d, path)
    ensures Leaf(ConfigAfter(v, os, inactive, d), path) == MergePatch.PatchLeaf(os[i].patch, path)
  {
    hide TrimSpace, Lower, Leaf, LeafAt, MergePatch.MergeInto, MergePatch.Diverges, MergePatch.PatchLeaf, Targets;
    var n := |os| - 1;
    var os', o := os[..n], os[n];
    var before := ConfigAfter(v, os', inactive, d);
    TargetIs(o, d);
    if i == n {
      assert !Skipped(o, inactive);
      assert Leaf(Some(MergePatch.MergeInto(Value(before), o.patch)), path) == MergePatch.PatchLeaf(o.patch, path) by {
        OnThePath(o.patch, path);
        MergePatch.MergePuts(Value(before), o.patch, path);
        LeafOfSome(MergePatch.MergeInto(Value(before), o.patch), path);
      }
    } else {
      assert NoneLater(os', i, d, path);
      LeafArrives(v, os', inactive, i, d, path);
      if CellFor(o) == d { LaterKeeps(before, o.patch, path); }
    }
  }

  lemma LeafOfSome(j: Json, path: Path)
    ensures Leaf(Some(j), path) == LeafAt(j, path)
  {}

  lemma LaterKeeps(v: Option<Json>, patch: Json, path: Path)
    requires MergePatch.Diverges(patch, path)
    ensures Leaf(Some(MergePatch.MergeInto(Value(v), patch)), path) == Leaf(v, path)
  {
    MergePatch.MergeFrame(Value(v), patch, path);
  }

  /** With --inactive, every pools key is as it was before the install. */
  lemma InactiveLeavesPools(st0: Store, st: Store, p: Pack, sp: seq<Plan>, wp: seq<Plan>, upgrade: bool, inactive: bool,
                            hex: CanonicalWriter.Digest -> string, cs: seq<Change>, d: Cell)
    requires Finished(st0, st, p, sp, wp, upgrade, inactive, hex, cs)
    requires inactive && d.ConfigCell? && Lower(d.key) == "pools"
    ensures View(st, d) == View(st0, d)
  {
    hide View, Acceptable, Planned, Sound, Follows, Intents, InstalledAs, RecordOf, Lower, ConfigAfter, RealCell;
    AllowedCells(d);
    PackNamespaces.InstalledConfig(st0, st, p, sp, wp, upgrade, inactive, RecordOf(p, sp, wp, inactive, hex), cs, d);
    PoolsUntouched(View(st0, d), p.configs, inactive, d);
  }

  /** Every overlay that --inactive does not hold back is merged: each leaf of its patch that no later
      overlay of this pack reaches is in its key, and a null leaf is gone from there. */
  lemma OverlayArrives(st0: Store, st: Store, p: Pack, sp: seq<Plan>, wp: seq<Plan>, upgrade: bool, inactive: bool,
                       hex: CanonicalWriter.Digest -> string, cs: seq<Change>, i: nat, d: Cell, path: Path)
    requires Finished(st0, st, p, sp, wp, upgrade, inactive, hex, cs)
    requires i < |p.configs| && Targets(p.configs[i], d) && !(inactive && Lower(d.key) == "pools")
    requires LeafAt(p.configs[i].patch, path).Some? && NoneLater(p.configs, i, d, path)
    ensures Leaf(View(st, d), path) ==
              if LeafAt(p.configs[i].patch, path) == Some(Null) then None else LeafAt(p.configs[i].patch, path)
  {
    hide View, Acceptable, Planned, Sound, Follows, Intents, InstalledAs, RecordOf, Lower, ConfigAfter, RealCell, Leaf,
      LeafAt, TrimSpace, NoneLater;
    var o := p.configs[i];
    TargetIs(o, d);
    ArrivingIsValid(st0, p, upgrade, inactive, i);
    AllowedCells(d);
    PackNamespaces.InstalledConfig(st0, st, p, sp, wp, upgrade, inactive, RecordOf(p, sp, wp, inactive, hex), cs, d);
    LeafArrives(View(st0, d), p.configs, inactive, i, d, path);
  }

  lemma ArrivingIsValid(st0: Store, p: Pack, upgrade: bool, inactive: bool, i: nat)
    requires Acceptable(st0, p, upgrade, inactive) && i < |p.configs| && !HeldBack(ConfigKey(p.configs[i]), inactive)
    ensures p.configs[i].patch.Obj? && AllowedKey(ConfigKey(p.configs[i]))
  {
    hide TrimSpace, Lower, AllFit;
    FitIsValid(st0, p.id, p.aliases, p.configs, inactive);
  }

  // ---------------------------------------------------------------- the record

  lemma {:induction false} RecordedIff(os: seq<ConfigOverlay>, inactive: bool, a: AppliedConfig)
    ensures a in RecordedConfigs(os, inactive) <==>
              exists i :: 0 <= i < |os| && os[i].name != "" && !Skipped(os[i], inactive) && a == AppliedOverlay(os[i])
  {
    hide Skipped, AppliedOverlay;
    if os != [] {
      var n := |os| - 1;
      RecordedIff(os[..n], inactive, a);
      if i :| 0 <= i < n && os[i].name != "" && !Skipped(os[i], inactive) && a == AppliedOverlay(os[i]) {
        assert os[..n][i] == os[i];
      }
    }
  }

  /** The overlay is what this entry of a record says. */
  predicate Lists(a: AppliedConfig, o: ConfigOverlay) {
    a.name == o.name && a.patch == o.patch && Targets(o, CellOf(a))
  }

  lemma ListsIs(a: AppliedConfig, o: ConfigOverlay)
    ensures Lists(a, o) <==> a == AppliedOverlay(o)
  {
    hide TrimSpace;
    TargetIs(o, CellOf(a));
  }

  /** The record of a finished install lists exactly the overlays with a name that --inactive did not hold
      back; it is active exactly if one of them is for a pools key; and it carries that pack's own ID,
      aliases and topics. */
  lemma RecordSays(st0: Store, st: Store, p: Pack, sp: seq<Plan>, wp: seq<Plan>, upgrade: bool, inactive: bool,
                   hex: CanonicalWriter.Digest -> string, cs: seq<Change>, a: AppliedConfig)
    requires Finished(st0, st, p, sp, wp, upgrade, inactive, hex, cs)
    ensures Recording(st, p.id)
    ensures var r := RecordIn(st, p.id);
            && (a in r.configs <==>
                  exists i :: 0 <= i < |p.configs| && p.configs[i].name != "" && Lists(a, p.configs[i])
                              && !(inactive && Lower(a.key) == "pools"))
            && r.status == (if !inactive && (exists i :: 0 <= i < |p.configs| && NamedPools(p.configs[i]))
                            then "ACTIVE" else "INACTIVE")
            && r.id == p.id && r.aliases == p.aliases
            && |r.topics| == |p.topics| && forall i :: 0 <= i < |p.topics| ==> r.topics[i] == p.topics[i].name
  {
    hide View, Acceptable, Planned, Sound, Follows, Intents, Lower, TrimSpace, RecordedConfigs, RecordedPolicies,
      Digests, RegistryOf, HasPoolOverlay;
    RecordedIff(p.configs, inactive, a);
    ActiveExactly(p.configs, inactive);
    forall i | 0 <= i < |p.configs|
      ensures Lists(a, p.configs[i]) <==> a == AppliedOverlay(p.configs[i])
      ensures a == AppliedOverlay(p.configs[i]) ==>
                (Skipped(p.configs[i], inactive) <==> inactive && Lower(a.key) == "pools")
    {
      ListsIs(a, p.configs[i]);
    }
  }

  lemma {:induction false} PoliciesIff(id: string, os: seq<PolicyOverlay>, a: AppliedPolicy)
    ensures a in RecordedPolicies(id, os) <==>
              exists i :: 0 <= i < |os| && os[i].name != ""
                          && a == AppliedPolicy(os[i].name, FragmentId(id, os[i].name))
  {
    hide FragmentId;
    if os != [] {
      var n := |os| - 1;
      PoliciesIff(id, os[..n], a);
      if i :| 0 <= i < n && os[i].name != "" && a == AppliedPolicy(os[i].name, FragmentId(id, os[i].name)) {
        assert os[..n][i] == os[i];
      }
    }
  }

  /** The record lists exactly the policy overlays with a name, each with the fragment it was put into. */
  lemma PoliciesRecorded(st0: Store, st: Store, p: Pack, sp: seq<Plan>, wp: seq<Plan>, upgrade: bool, inactive: bool,
                         hex: CanonicalWriter.Digest -> string, cs: seq<Change>, a: AppliedPolicy)
    requires Finished(st0, st, p, sp, wp, upgrade, inactive, hex, cs)
    ensures Recording(st, p.id)
    ensures a in RecordIn(st, p.id).policies <==>
              exists i :: 0 <= i < |p.policies| && ListsPolicy(a, p.id, p.policies[i])
  {
    hide View, Acceptable, Planned, Sound, Follows, Intents, TrimSpace, RecordedConfigs, RecordedPolicies, Digests,
      RegistryOf, StatusOf;
    PoliciesIff(p.id, p.policies, a);
    if i :| 0 <= i < |p.policies| && ListsPolicy(a, p.id, p.policies[i]) {
      assert a == AppliedPolicy(p.policies[i].name, FragmentId(p.id, p.policies[i].name));
    }
    if a in RecordedPolicies(p.id, p.policies) {
      var i :| 0 <= i < |p.policies| && p.policies[i].name != ""
               && a == AppliedPolicy(p.policies[i].name, FragmentId(p.id, p.policies[i].name));
      assert ListsPolicy(a, p.id, p.policies[i]);
    }
  }

  predicate ListsPolicy(a: AppliedPolicy, id: string, o: PolicyOverlay) {
    var name := TrimSpace(o.name);
    o.name != "" && a.name == o.name && a.fragmentID == id + "/" + (if name == "" then "default" else name)
  }

  predicate NamedPools(o: ConfigOverlay) {
    o.name != "" && Lower(TrimSpace(o.key)) == "pools"
  }

  lemma ActiveExactly(os: seq<ConfigOverlay>, inactive: bool)
    ensures StatusOf(inactive, RecordedConfigs(os, inactive)) ==
              if !inactive && (exists i :: 0 <= i < |os| && NamedPools(os[i])) then "ACTIVE" else "INACTIVE"
  {
    hide RecordedConfigs, Lower, TrimSpace;
    var rs := RecordedConfigs(os, inactive);
    if !inactive {
      if i :| 0 <= i < |os| && NamedPools(os[i]) {
        RecordedIff(os, inactive, AppliedOverlay(os[i]));
        assert AppliedOverlay(os[i]) in rs;
        var k :| 0 <= k < |rs| && rs[k] == AppliedOverlay(os[i]);
        assert Lower(rs[k].key) == "pools";
      }
      if k :| 0 <= k < |rs| && Lower(rs[k].key) == "pools" {
        RecordedIff(os, inactive, rs[k]);
        var i :| 0 <= i < |os| && os[i].name != "" && !Skipped(os[i], inactive) && rs[k] == AppliedOverlay(os[i]);
        assert NamedPools(os[i]);
      }
    }
  }

  // ---------------------------------------------------------------- single-valued cells

  /** A cell after these intents, which set it. */
  function Final(v: Option<Json>, want: seq<Intent>, d: Cell): Option<Json> {
    if want == [] then v
    else
      var last := want[|want| - 1];
      if last.SetTo? && last.cell == d then Some(last.value) else Final(v, want[..|want| - 1], d)
  }

  lemma {:induction false} FinalConcat(v: Option<Json>, a: seq<Intent>, b: seq<Intent>, d: Cell)
    ensures Final(v, a + b, d) == Final(Final(v, a, d), b, d)
    decreases |b|
  {
    if b == [] {
      assert a + b == a;
    } else {
      FinalConcat(v, a, b[..|b| - 1], d);
      assert (a + b)[..|a + b| - 1] == a + b[..|b| - 1];
    }
  }

  lemma {:induction false} FinalMisses(v: Option<Json>, want: seq<Intent>, d: Cell)
    requires forall k :: 0 <= k < |want| ==> want[k].cell != d
    ensures Final(v, want, d) == v
  {
    if want != [] { FinalMisses(v, want[..|want| - 1], d); }
  }

  /** What a finished install left in a cell that no overlay is for. */
  lemma {:induction false} FinalIs(v: Option<Json>, cs: seq<Change>, want: seq<Intent>, d: Cell)
    requires Follows([], cs, want, true) && !d.ConfigCell?
    requires forall k :: 0 <= k < |want| ==> (want[k].MergeTo? <==> want[k].cell.ConfigCell?)
    ensures After(v, cs, d) == Final(v, want, d)
    decreases |cs|
  {
    hide Follows;
    LengthsAgree(cs, want);
    if cs != [] {
      var n := |cs| - 1;
      FollowsShorter(cs, want);
      FinalIs(v, cs[..n], want[..n], d);
    }
  }

  lemma FollowsShorter(cs: seq<Change>, want: seq<Intent>)
    requires Follows([], cs, want, true) && cs != []
    ensures |cs| == |want| && Follows([], cs[..|cs| - 1], want[..|cs| - 1], true)
    ensures Realizes(cs[|cs| - 1], want[|cs| - 1])
  {
    hide Realizes;
    var none: seq<Change> := [];
    assert Realizes(cs[|none| + (|cs| - 1)], want[|cs| - 1]);
  }

  /** The last intent of a list for a cell decides it. */
  lemma {:induction false} FinalCollect<T>(v: Option<Json>, xs: seq<T>, f: T -> Option<Intent>, d: Cell, i: nat)
    requires i < |xs| && f(xs[i]).Some? && f(xs[i]).value.SetTo? && f(xs[i]).value.cell == d
    requires forall j :: i < j < |xs| && f(xs[j]).Some? ==> f(xs[j]).value.cell != d
    ensures Final(v, Collect(xs, f), d) == Some(f(xs[i]).value.value)
  {
    var n := |xs| - 1;
    var before := Collect(xs[..n], f);
    if f(xs[n]).Some? {
      assert Collect(xs, f)[..|before|] == before;
    } else {
      assert Collect(xs, f) == before;
    }
    if i < n { FinalCollect(v, xs[..n], f, d, i); }
  }

  /** The five parts of an install's intents, for a cell that no overlay is for. */
  lemma FinalParts(v: Option<Json>, p: Pack, sp: seq<Plan>, wp: seq<Plan>, inactive: bool, d: Cell)
    requires !d.ConfigCell?
    ensures var f := (o: PolicyOverlay) => PolicyIntent(p.id, o);
            Final(v, Intents(p, sp, wp, inactive), d) ==
              match d
              case SchemaCell(_) => Final(v, Collect(sp, SchemaIntent), d)
              case WorkflowCell(_) => Final(v, Collect(wp, WorkflowIntent), d)
              case FragmentCell(_) => Final(v, Collect(p.policies, f), d)
              case _ => Final(v, Collect(p.topics, TopicIntent), d)
  {
    hide Collect, Final, FragmentId;
    var i1, i2 := Collect(sp, SchemaIntent), Collect(wp, WorkflowIntent);
    var i3 := Collect(p.configs, (o: ConfigOverlay) => ConfigIntent(o, inactive));
    var f := (o: PolicyOverlay) => PolicyIntent(p.id, o);
    var i4, i5 := Collect(p.policies, f), Collect(p.topics, TopicIntent);
    FinalConcat(v, i1 + i2 + i3 + i4, i5, d);
    FinalConcat(v, i1 + i2 + i3, i4, d);
    FinalConcat(v, i1 + i2, i3, d);
    FinalConcat(v, i1, i2, d);
    if !d.SchemaCell? { CollectMisses(sp, SchemaIntent, d); FinalMisses(v, i1, d); }
    var v1 := Final(v, i1, d);
    if !d.WorkflowCell? { CollectMisses(wp, WorkflowIntent, d); FinalMisses(v1, i2, d); }
    var v2 := Final(v1, i2, d);
    CollectMisses(p.configs, (o: ConfigOverlay) => ConfigIntent(o, inactive), d);
    FinalMisses(v2, i3, d);
    if !d.FragmentCell? { CollectMisses(p.policies, f, d); FinalMisses(v2, i4, d); }
    var v4 := Final(v2, i4, d);
    if !d.TopicCell? { CollectMisses(p.topics, TopicIntent, d); FinalMisses(v4, i5, d); }
  }

  lemma InstalledCell(st0: Store, st: Store, p: Pack, sp: seq<Plan>, wp: seq<Plan>, upgrade: bool, inactive: bool,
                      hex: CanonicalWriter.Digest -> string, cs: seq<Change>, d: Cell)
    requires Finished(st0, st, p, sp, wp, upgrade, inactive, hex, cs) && !d.ConfigCell?
    ensures View(st, d) == Final(View(st0, d), Intents(p, sp, wp, inactive), d)
  {
    hide View, Acceptable, Planned, Sound, Follows, Intents, After, Final, RecordOf, OverlaysOk;
    AcceptedOverlays(st0, p, upgrade, inactive);
    IntentsShape(p, sp, wp, inactive);
    InstalledAt(st0, st, p, RecordOf(p, sp, wp, inactive, hex), cs, d);
    FinalIs(View(st0, d), cs, Intents(p, sp, wp, inactive), d);
  }

  // ---------------------------------------------------------------- fragments and topics

  /** A policy overlay without a name is called "default". */
  predicate SameName(n: string, m: string) {
    || TrimSpace(n) == TrimSpace(m)
    || (TrimSpace(n) in {"", "default"} && TrimSpace(m) in {"", "default"})
  }

  /** Two policy overlays share a fragment exactly if they are of one pack and have one name. */
  lemma FragmentsApart(id: string, n: string, id': string, m: string)
    requires '/' !in id && '/' !in id'
    ensures FragmentId(id, n) == FragmentId(id', m) <==> id == id' && SameName(n, m)
  {
    hide TrimSpace;
    var a, b := FragmentId(id, n), FragmentId(id', m);
    if a == b {
      FirstSlash(id, a[|id| + 1..], a);
      FirstSlash(id', b[|id'| + 1..], b);
      assert a[|id| + 1..] == b[|id'| + 1..];
    }
  }

  lemma FirstSlash(id: string, rest: string, s: string)
    requires '/' !in id && s == id + "/" + rest
    ensures forall k :: 0 <= k < |id| ==> s[k] != '/'
    ensures s[|id|] == '/' && s[..|id|] == id
  {}

  /** The last policy overlay of each name is in the policy document, under its pack's ID and that name. */
  lemma FragmentArrives(st0: Store, st: Store, p: Pack, sp: seq<Plan>, wp: seq<Plan>, upgrade: bool, inactive: bool,
                        hex: CanonicalWriter.Digest -> string, cs: seq<Change>, i: nat)
    requires Finished(st0, st, p, sp, wp, upgrade, inactive, hex, cs) && i < |p.policies| && '/' !in p.id
    requires forall j :: i < j < |p.policies| ==> !SameName(p.policies[i].name, p.policies[j].name)
    ensures var name := TrimSpace(p.policies[i].name);
            View(st, FragmentCell(p.id + "/" + (if name == "" then "default" else name))) ==
              Some(p.policies[i].fragment)
  {
    hide View, Finished, Intents, Final, TrimSpace, SameName;
    var f := (o: PolicyOverlay) => PolicyIntent(p.id, o);
    var d := FragmentCell(FragmentId(p.id, p.policies[i].name));
    InstalledCell(st0, st, p, sp, wp, upgrade, inactive, hex, cs, d);
    FinalParts(View(st0, d), p, sp, wp, inactive, d);
    forall j | i < j < |p.policies| ensures f(p.policies[j]).value.cell != d {
      FragmentsApart(p.id, p.policies[i].name, p.id, p.policies[j].name);
    }
    FinalCollect(View(st0, d), p.policies, f, d, i);
  }

  /** The last registration of each topic is at the gateway. */
  lemma TopicArrives(st0: Store, st: Store, p: Pack, sp: seq<Plan>, wp: seq<Plan>, upgrade: bool, inactive: bool,
                     hex: CanonicalWriter.Digest -> string, cs: seq<Change>, i: nat)
    requires Finished(st0, st, p, sp, wp, upgrade, inactive, hex, cs) && i < |p.topics|
    requires forall j :: i < j < |p.topics| ==> p.topics[j].name != p.topics[i].name
    ensures View(st, TopicCell(p.topics[i].name)) == Some(p.topics[i].registration)
  {
    hide View, Finished, Intents, Final;
    var d := TopicCell(p.topics[i].name);
    InstalledCell(st0, st, p, sp, wp, upgrade, inactive, hex, cs, d);
    FinalParts(View(st0, d), p, sp, wp, inactive, d);
    FinalCollect(View(st0, d), p.topics, TopicIntent, d, i);
  }

  // ---------------------------------------------------------------- schemas and workflows

  /** The schema at the gateway has the text of this one; none counts as an empty one. */
  ghost predicate HoldsSchema(st: Store, id: string, value: Json) {
    Canonical.Encode(Hashable(Value(View(st, SchemaCell(id))))) == Canonical.Encode(value)
  }

  ghost predicate HoldsWorkflow(st: Store, id: string, value: Json) {
    Canonical.Encode(Content(Value(View(st, WorkflowCell(id))))) == Canonical.Encode(Content(value))
  }

  /** Each schema of a pack is at the gateway: written by this install, or found there with the same
      text; and the record has its digest. */
  lemma SchemaArrives(st0: Store, st: Store, p: Pack, sp: seq<Plan>, wp: seq<Plan>, upgrade: bool, inactive: bool,
                      hex: CanonicalWriter.Digest -> string, cs: seq<Change>, i: nat)
    requires Finished(st0, st, p, sp, wp, upgrade, inactive, hex, cs) && i < |p.schemas| && p.schemas[i].value.Obj?
    requires forall j :: 0 <= j < |p.schemas| && j != i ==> p.schemas[j].id != p.schemas[i].id
    ensures HoldsSchema(st, p.schemas[i].id, p.schemas[i].value)
    ensures !upgrade && p.schemas[i].id in st0.schemas ==>
              View(st, SchemaCell(p.schemas[i].id)) == View(st0, SchemaCell(p.schemas[i].id))
  {
    hide View, Acceptable, Intents, Final, InstalledAs, Sound, Follows, PlannedSchema, PlannedWorkflow,
      WorkflowDecision, Canonical.Encode;
    var id := p.schemas[i].id;
    var d := SchemaCell(id);
    InstalledCell(st0, st, p, sp, wp, upgrade, inactive, hex, cs, d);
    FinalParts(View(st0, d), p, sp, wp, inactive, d);
    assert sp[i].id == id && sp[i].value == p.schemas[i].value && SchemaDecision(st0, sp[i], upgrade);
    assert forall j :: 0 <= j < |sp| && j != i ==> sp[j].id != id;
    if sp[i].noop {
      CollectMisses(sp, SchemaIntent, d);
      FinalMisses(View(st0, d), Collect(sp, SchemaIntent), d);
      CellViews(st0, id);
    } else {
      FinalCollect(View(st0, d), sp, SchemaIntent, d, i);
    }
  }

  /** The same for workflows, whose timestamps do not count. */
  lemma WorkflowArrives(st0: Store, st: Store, p: Pack, sp: seq<Plan>, wp: seq<Plan>, upgrade: bool, inactive: bool,
                        hex: CanonicalWriter.Digest -> string, cs: seq<Change>, i: nat)
    requires Finished(st0, st, p, sp, wp, upgrade, inactive, hex, cs) && i < |p.workflows|
    requires forall j :: 0 <= j < |p.workflows| && j != i ==> p.workflows[j].id != p.workflows[i].id
    ensures HoldsWorkflow(st, p.workflows[i].id, p.workflows[i].value)
    ensures !upgrade && p.workflows[i].id in st0.workflows ==>
              View(st, WorkflowCell(p.workflows[i].id)) == View(st0, WorkflowCell(p.workflows[i].id))
  {
    hide View, Acceptable, Intents, Final, InstalledAs, Sound, Follows, PlannedSchema, PlannedWorkflow, SchemaDecision,
      Canonical.Encode, Content;
    var id := p.workflows[i].id;
    var d := WorkflowCell(id);
    InstalledCell(st0, st, p, sp, wp, upgrade, inactive, hex, cs, d);
    FinalParts(View(st0, d), p, sp, wp, inactive, d);
    assert wp[i].id == id && wp[i].value == p.workflows[i].value && WorkflowDecision(st0, wp[i], upgrade);
    assert forall j :: 0 <= j < |wp| && j != i ==> wp[j].id != id;
    if wp[i].noop {
      CollectMisses(wp, WorkflowIntent, d);
      FinalMisses(View(st0, d), Collect(wp, WorkflowIntent), d);
      CellViews(st0, id);
    } else {
      FinalCollect(View(st0, d), wp, WorkflowIntent, d, i);
    }
  }

  lemma {:induction false} DigestsAre(plans: seq<Plan>, hex: CanonicalWriter.Digest -> string, i: nat)
    requires i < |plans| && forall j :: i < j < |plans| ==> plans[j].id != plans[i].id
    ensures plans[i].id in Digests(plans, hex) && Digests(plans, hex)[plans[i].id] == hex(plans[i].digest)
  {
    var n := |plans| - 1;
    if i < n { DigestsAre(plans[..n], hex, i); }
  }

  lemma {:induction false} DigestKeys(plans: seq<Plan>, hex: CanonicalWriter.Digest -> string, id: string)
    ensures id in Digests(plans, hex) <==> exists i :: 0 <= i < |plans| && plans[i].id == id
  {
    if plans != [] {
      var n := |plans| - 1;
      DigestKeys(plans[..n], hex, id);
      if i :| 0 <= i < n && plans[i].id == id { assert plans[..n][i] == plans[i]; }
    }
  }

  /** The record's resources are exactly that pack's schemas and workflows, each with the digest of the
      text of its last file. */
  lemma ResourcesRecorded(st0: Store, st: Store, p: Pack, sp: seq<Plan>, wp: seq<Plan>, upgrade: bool, inactive: bool,
                          hex: CanonicalWriter.Digest -> string, cs: seq<Change>, id: string)
    requires Finished(st0, st, p, sp, wp, upgrade, inactive, hex, cs)
    ensures Recording(st, p.id)
    ensures var r := RecordIn(st, p.id);
            && (id in r.schemas <==> exists i :: 0 <= i < |p.schemas| && p.schemas[i].id == id)
            && (id in r.workflows <==> exists i :: 0 <= i < |p.workflows| && p.workflows[i].id == id)
    ensures forall i :: 0 <= i < |p.schemas| && p.schemas[i].id == id && LastOf(p.schemas, i) ==>
              RecordIn(st, p.id).schemas[id] == hex(CanonicalWriter.Sha256(Canonical.Encode(p.schemas[i].value)))
    ensures forall i :: 0 <= i < |p.workflows| && p.workflows[i].id == id && LastOf(p.workflows, i) ==>
              RecordIn(st, p.id).workflows[id] ==
                hex(CanonicalWriter.Sha256(Canonical.Encode(Content(p.workflows[i].value))))
  {
    hide View, Acceptable, Sound, Follows, Intents, RecordedConfigs, RecordedPolicies, Digests, RegistryOf, StatusOf,
      PlannedSchema, PlannedWorkflow, Canonical.Encode, Content;
    DigestKeys(sp, hex, id);
    DigestKeys(wp, hex, id);
    forall i | 0 <= i < |p.schemas| && p.schemas[i].id == id && LastOf(p.schemas, i)
      ensures id in Digests(sp, hex)
      ensures Digests(sp, hex)[id] == hex(CanonicalWriter.Sha256(Canonical.Encode(p.schemas[i].value)))
    {
      assert SchemaDecision(st0, sp[i], upgrade);
      DigestsAre(sp, hex, i);
    }
    forall i | 0 <= i < |p.workflows| && p.workflows[i].id == id && LastOf(p.workflows, i)
      ensures id in Digests(wp, hex)
      ensures Digests(wp, hex)[id] == hex(CanonicalWriter.Sha256(Canonical.Encode(Content(p.workflows[i].value))))
    {
      assert WorkflowDecision(st0, wp[i], upgrade);
      DigestsAre(wp, hex, i);
    }
  }

  /** No later file has the same ID. */
  predicate LastOf(rs: seq<Resource>, i: nat)
    requires i < |rs|
  {
    forall j :: i < j < |rs| ==> rs[j].id != rs[i].id
  }
}
