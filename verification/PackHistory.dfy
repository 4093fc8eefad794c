/**
 Every history of installs, upgrades and uninstalls (cmd/cordumctl/pack.go): whatever packs come and
 go, no two of them hold the same namespace, topic, schema or workflow.
 */
module PackHistory {
  import opened Text
  import opened PackRecords
  import opened PackRegistry

  /** A successful install or upgrade with the record it writes, or an uninstall. Failing ones leave
      the registry alone. */
  datatype Step = Install(m: Manifest, r: Record) | Uninstall(packID: string)

  function Names(ts: seq<ManifestTopic>): seq<string> {
    seq(|ts|, i requires 0 <= i < |ts| => ts[i].name)
  }

  function Ids(rs: seq<ResourceRef>): seq<string> {
    seq(|rs|, i requires 0 <= i < |rs| => rs[i].id)
  }

  /** The record names what the manifest declares. */
  ghost predicate RecordFor(m: Manifest, r: Record) {
    && r.id == m.id && r.manifestID == m.id && r.aliases == m.aliases && r.topics == Names(m.topics)
    && (forall s :: s in r.schemas ==> s in Ids(m.schemas))
    && (forall w :: w in r.workflows ==> w in Ids(m.workflows))
  }

  ghost predicate Enabled(reg: Registry, s: Step, semver: string -> bool) {
    match s
    case Install(m, r) => ManifestOk(m, semver) && OwnershipOk(m.id, m.aliases, Names(m.topics), reg) && RecordFor(m, r)
    case Uninstall(packID) => packID in reg
  }

  function Apply(reg: Registry, s: Step): Registry
    requires s.Uninstall? ==> s.packID in reg
  {
    match s
    case Install(m, r) => reg[r.id := r]
    case Uninstall(packID) => reg[reg[packID].id := reg[packID].(status := DISABLED)]
  }

  ghost predicate ValidRun(steps: seq<Step>, semver: string -> bool)
    decreases |steps|, 0
  {
    steps == []
      || (ValidRun(steps[..|steps| - 1], semver)
        && Enabled(Run(steps[..|steps| - 1], semver), steps[|steps| - 1], semver))
  }

  /** The registry after these steps, from an empty one. */
  ghost function Run(steps: seq<Step>, semver: string -> bool): Registry
    requires ValidRun(steps, semver)
    decreases |steps|, 1
  {
    if steps == [] then map[] else Apply(Run(steps[..|steps| - 1], semver), steps[|steps| - 1])
  }

  // ---------------------------------------------------------------- the registry as an object

  /** The commands, each on the registry document under the locks. */
  class PackManager {
    var records: Registry
    const semver: string -> bool
    ghost var trace: seq<Step>

    ghost predicate Valid()
      reads this
    {
      ValidRun(trace, semver) && records == Run(trace, semver)
    }

    constructor (parses: string -> bool)
      ensures Valid() && records == map[] && trace == []
    {
      records, semver, trace := map[], parses, [];
    }

    /** Installs exactly the packs that pass both checks. */
    method InstallPack(m: Manifest, r: Record) returns (ok: bool)
      requires Valid() && RecordFor(m, r)
      modifies this
      ensures Valid()
      ensures ok <==> ManifestOk(m, semver) && OwnershipOk(m.id, m.aliases, Names(m.topics), old(records))
      ensures trace == if ok then old(trace) + [Install(m, r)] else old(trace)
      ensures records == if ok then old(records)[m.id := r] else old(records)
    {
      hide ManifestOk, OwnershipOk, RecordFor;
      assert r.id == m.id by { RecordId(m, r); }
      ok := ValidatePackManifest(m, semver);
      if !ok { return; }
      ok := ValidatePackAliasOwnership(m.id, m.aliases, Names(m.topics), records);
      if !ok { return; }
      trace := trace + [Install(m, r)];
      assert trace[..|trace| - 1] == old(trace);
      records := records[r.id := r];
    }

    /** Keeps the record, disabled. */
    method UninstallPack(packID: string) returns (ok: bool)
      requires Valid()
      modifies this
      ensures Valid()
      ensures ok <==> packID in old(records)
      ensures trace == if ok then old(trace) + [Uninstall(packID)] else old(trace)
      ensures records == if ok then Apply(old(records), Uninstall(packID)) else old(records)
    {
      if packID !in records { return false; }
      trace := trace + [Uninstall(packID)];
      assert trace[..|trace| - 1] == old(trace);
      var record := records[packID].(status := DISABLED);
      records := records[record.id := record];
      ok := true;
    }
  }

  // ---------------------------------------------------------------- names with a delimiter

  /** A name without the delimiter is determined by any string it starts, delimiter included. */
  lemma DelimiterUnique(a: string, b: string, c: char, s: string)
    requires c !in a && c !in b && a + [c] <= s && b + [c] <= s
    ensures a == b
  {
    FirstDelimiter(a, c, s);
    FirstDelimiter(b, c, s);
  }

  lemma FirstDelimiter(a: string, c: char, s: string)
    requires c !in a && a + [c] <= s
    ensures |a| < |s| && s[|a|] == c && s[..|a|] == a && forall i :: 0 <= i < |a| ==> s[i] != c
  {
    assert s[|a|] == (a + [c])[|a|];
    forall i | 0 <= i < |a| ensures s[i] == a[i] { assert s[i] == (a + [c])[i]; }
  }

  lemma PrefixUnique(a: string, b: string, s: string)
    requires '.' !in a && '.' !in b && TopicPrefix(a) <= s && TopicPrefix(b) <= s
    ensures a == b
  {
    assert TopicPrefix(a)[4..] == a + "." && TopicPrefix(b)[4..] == b + ".";
    assert a + "." <= s[4..] && b + "." <= s[4..];
    DelimiterUnique(a, b, '.', s[4..]);
  }

  /** Trimming does not disturb a prefix that begins and ends with other characters. */
  lemma {:induction false} TrimRightKeeps(p: string, s: string)
    requires p != "" && p <= s && !IsSpace(p[|p| - 1])
    ensures p <= TrimRight(s)
    decreases |s|
  {
    if IsSpace(s[|s| - 1]) {
      assert |s| == |p| ==> s == p;
      TrimRightKeeps(p, s[..|s| - 1]);
    }
  }

  lemma TrimKeepsPrefix(n: string, s: string)
    requires TopicPrefix(n) <= s
    ensures TopicPrefix(n) <= TrimSpace(s) && TrimSpace(s) != ""
  {
    var p := TopicPrefix(n);
    assert s[0] == p[0] == 'j' && p[|p| - 1] == '.';
    TrimRightKeeps(p, s);
  }

  /** The prefixes of a pack are those of its namespaces. */
  lemma {:induction false} PrefixesMean(id: string, aliases: seq<string>, s: string)
    ensures HasAnyPrefix(s, TopicPrefixes(id, aliases)) <==>
              exists n :: n in {id} + Trimmed(aliases) && TopicPrefix(n) <= s
    decreases |aliases|
  {
    hide TrimSpace, TopicPrefix, Trimmed;
    if aliases == [] {
      NoneTrimmed();
      assert HasPrefix(s, [TopicPrefix(id)][0]) <==> TopicPrefix(id) <= s;
    } else {
      var k := |aliases| - 1;
      PrefixesMean(id, aliases[..k], s);
      TrimmedNext(aliases, k);
      assert aliases[..k + 1] == aliases;
      var last := TrimSpace(aliases[k]);
      if last != "" { AnyPrefixSnoc(s, TopicPrefixes(id, aliases[..k]), TopicPrefix(last)); }
    }
  }

  lemma AnyPrefixSnoc(s: string, ps: seq<string>, p: string)
    ensures HasAnyPrefix(s, ps + [p]) <==> HasAnyPrefix(s, ps) || HasPrefix(s, p)
  {
    if HasAnyPrefix(s, ps) {
      var i :| 0 <= i < |ps| && HasPrefix(s, ps[i]);
      assert (ps + [p])[i] == ps[i];
    }
    if HasPrefix(s, p) { assert (ps + [p])[|ps|] == p; }
  }

  // ---------------------------------------------------------------- the invariant

  /** What the manifest check leaves in a record. */
  ghost predicate RecordOk(key: string, r: Record) {
    var id := TrimSpace(key);
    && r.id == key && r.manifestID == key && IsId(id) && AliasesOk(r.aliases)
    && (forall t :: t in r.topics ==> HasAnyPrefix(t, TopicPrefixes(id, r.aliases)))
    && (forall s :: s in r.schemas ==> id + "/" <= s)
    && (forall w :: w in r.workflows ==> id + "." <= w)
  }

  ghost predicate Inv(reg: Registry) {
    && (forall k :: k in reg ==> RecordOk(k, reg[k]))
    && (forall k, l :: k in reg && l in reg && TrimSpace(k) != TrimSpace(l) ==>
          Namespaces(k, reg[k]) !! Namespaces(l, reg[l]))
  }

  lemma NamespacesAre(key: string, r: Record)
    requires r.id == key && r.manifestID == key && TrimSpace(key) != ""
    ensures Namespaces(key, r) == {TrimSpace(key)} + Trimmed(r.aliases)
  {
    hide TrimSpace;
    var names := [key, r.id, r.manifestID] + r.aliases;
    assert names[0] == key;
    forall n | n in Trimmed(r.aliases) ensures n in Trimmed(names) {
      var i :| 0 <= i < |r.aliases| && TrimSpace(r.aliases[i]) == n;
      assert names[3 + i] == r.aliases[i];
    }
    forall n | n in Trimmed(names) ensures n in {TrimSpace(key)} + Trimmed(r.aliases) {
      var i :| 0 <= i < |names| && TrimSpace(names[i]) == n;
      if i >= 3 { assert names[i] == r.aliases[i - 3]; }
    }
    assert Trimmed(names) == {TrimSpace(key)} + Trimmed(r.aliases);
  }

  lemma RecordId(m: Manifest, r: Record)
    requires RecordFor(m, r)
    ensures r.id == m.id
  {}

  lemma NewRecordOk(m: Manifest, r: Record, semver: string -> bool)
    requires ManifestOk(m, semver) && RecordFor(m, r)
    ensures RecordOk(m.id, r)
  {
    hide TrimSpace, TopicPrefixes, HasAnyPrefix, IsId, AliasesOk;
    forall t | t in r.topics ensures HasAnyPrefix(t, TopicPrefixes(TrimSpace(m.id), m.aliases)) {
      var i :| 0 <= i < |r.topics| && r.topics[i] == t;
      assert TopicOk(m, m.topics[i]);
    }
    forall s | s in r.schemas ensures TrimSpace(m.id) + "/" <= s {
      var i :| 0 <= i < |m.schemas| && Ids(m.schemas)[i] == s;
      assert ResourceOk(m.schemas[i], TrimSpace(m.id) + "/");
    }
    forall w | w in r.workflows ensures TrimSpace(m.id) + "." <= w {
      var i :| 0 <= i < |m.workflows| && Ids(m.workflows)[i] == w;
      assert ResourceOk(m.workflows[i], TrimSpace(m.id) + ".");
    }
  }

  /** A record that does not clash holds none of the namespaces asked for. */
  lemma NoClash(k: string, q: Record, id: string, aliases: seq<string>, topics: seq<string>)
    requires RecordOk(k, q) && TrimSpace(k) != id && !Clashes(k, q, id, aliases, topics)
    ensures Namespaces(k, q) !! {id} + Trimmed(aliases)
  {
    hide TrimSpace, Namespaces, AliasesOk, HasAnyPrefix, TopicPrefixes, Trimmed;
    NotEmpty(TrimSpace(k));
    assert OwnerID(k, q) == TrimSpace(k);
    assert Foreign(k, q, id);
    var held, wanted := Namespaces(k, q), {id} + Trimmed(aliases);
    forall n | n in held ensures n !in wanted {
      assert n !in held * wanted;
    }
  }

  lemma InstallKeepsInv(reg: Registry, m: Manifest, r: Record, semver: string -> bool)
    requires Inv(reg) && Enabled(reg, Install(m, r), semver)
    ensures Inv(reg[r.id := r])
  {
    hide TrimSpace, Namespaces, AliasesOk, ManifestOk, RecordOk, Clashes, Trimmed;
    NewRecordOk(m, r, semver);
    NotEmpty(TrimSpace(m.id));
    RecordIsNamed(m.id, r);
    NamespacesAre(m.id, r);
    var reg' := reg[m.id := r];
    forall k | k in reg && TrimSpace(k) != TrimSpace(m.id) ensures Namespaces(k, reg[k]) !! Namespaces(m.id, r) {
      NoClash(k, reg[k], TrimSpace(m.id), m.aliases, Names(m.topics));
    }
    forall k, l | k in reg' && l in reg' && TrimSpace(k) != TrimSpace(l)
      ensures Namespaces(k, reg'[k]) !! Namespaces(l, reg'[l])
    {
    }
  }

  lemma RecordIsNamed(k: string, r: Record)
    requires RecordOk(k, r)
    ensures r.id == r.manifestID == k && TrimSpace(k) != ""
  {
    NotEmpty(TrimSpace(k));
  }

  lemma UninstallKeepsInv(reg: Registry, id: string)
    requires Inv(reg) && id in reg
    ensures Inv(Apply(reg, Uninstall(id)))
  {
    hide TrimSpace, TopicPrefixes, HasAnyPrefix, IsId, AliasesOk, Trimmed;
    assert RecordOk(id, reg[id]);
    var r := reg[id].(status := DISABLED);
    assert RecordOk(id, r);
    assert Namespaces(id, r) == Namespaces(id, reg[id]);
  }

  lemma {:induction false} RunKeepsInv(steps: seq<Step>, semver: string -> bool)
    requires ValidRun(steps, semver)
    ensures Inv(Run(steps, semver))
    decreases |steps|
  {
    hide Inv, ManifestOk, OwnershipOk;
    if steps == [] {
      assert Inv(map[]) by { EmptyInv(); }
    } else {
      var before, s := steps[..|steps| - 1], steps[|steps| - 1];
      RunKeepsInv(before, semver);
      match s
      case Install(m, r) => InstallKeepsInv(Run(before, semver), m, r, semver);
      case Uninstall(id) => UninstallKeepsInv(Run(before, semver), id);
    }
  }

  lemma EmptyInv()
    ensures Inv(map[])
  {}

  // ---------------------------------------------------------------- what the invariant gives

  lemma NoDots(key: string, r: Record, n: string)
    requires RecordOk(key, r) && n in Namespaces(key, r)
    ensures '.' !in n
  {
    hide TopicPrefixes, HasAnyPrefix, TrimSpace;
    NotEmpty(TrimSpace(key));
    NamespacesAre(key, r);
    if n in Trimmed(r.aliases) {
      var i :| 0 <= i < |r.aliases| && TrimSpace(r.aliases[i]) == n;
      assert IsAlias(n);
    }
  }

  /** No string is a topic of two packs with different namespaces. */
  lemma TopicsApart(k: string, r: Record, l: string, q: Record, t: string)
    requires RecordOk(k, r) && RecordOk(l, q) && Namespaces(k, r) !! Namespaces(l, q)
    requires HasAnyPrefix(t, TopicPrefixes(TrimSpace(k), r.aliases))
    ensures !HasAnyPrefix(t, TopicPrefixes(TrimSpace(l), q.aliases))
  {
    hide TrimSpace, TopicPrefixes, HasAnyPrefix, AliasesOk, Namespaces, Trimmed, TopicPrefix;
    NotEmpty(TrimSpace(k));
    NotEmpty(TrimSpace(l));
    NamespacesAre(k, r);
    NamespacesAre(l, q);
    PrefixesMean(TrimSpace(k), r.aliases, t);
    PrefixesMean(TrimSpace(l), q.aliases, t);
    var n :| n in Namespaces(k, r) && TopicPrefix(n) <= t;
    NoDots(k, r, n);
    forall o | o in Namespaces(l, q) ensures !(TopicPrefix(o) <= t) {
      NoDots(l, q, o);
      if TopicPrefix(o) <= t { PrefixUnique(n, o, t); }
    }
  }

  /** A trimmed topic lies under its own pack's prefixes. */
  lemma TrimmedTopicOwned(k: string, r: Record, t: string)
    requires RecordOk(k, r) && t in Trimmed(r.topics)
    ensures HasAnyPrefix(t, TopicPrefixes(TrimSpace(k), r.aliases))
  {
    hide TopicPrefixes, HasAnyPrefix, AliasesOk, TopicPrefix;
    var i :| 0 <= i < |r.topics| && TrimSpace(r.topics[i]) == t;
    assert r.topics[i] in r.topics;
    PrefixesMean(TrimSpace(k), r.aliases, r.topics[i]);
    PrefixesMean(TrimSpace(k), r.aliases, t);
    var n :| n in {TrimSpace(k)} + Trimmed(r.aliases) && TopicPrefix(n) <= r.topics[i];
    TrimKeepsPrefix(n, r.topics[i]);
  }

  /** Two packs that own nothing in common: no namespace, no topic name, no topic under the other's
      authority, no schema and no workflow. */
  ghost predicate Separate(k: string, r: Record, l: string, q: Record) {
    && Namespaces(k, r) !! Namespaces(l, q)
    && Trimmed(r.topics) !! Trimmed(q.topics)
    && (forall t :: t in Trimmed(r.topics) ==> !HasAnyPrefix(t, TopicPrefixes(TrimSpace(l), q.aliases)))
    && (forall s :: s in r.schemas ==> s !in q.schemas)
    && (forall w :: w in r.workflows ==> w !in q.workflows)
  }

  lemma SeparateIfApart(k: string, r: Record, l: string, q: Record)
    requires RecordOk(k, r) && RecordOk(l, q) && Namespaces(k, r) !! Namespaces(l, q) && TrimSpace(k) != TrimSpace(l)
    ensures Separate(k, r, l, q)
  {
    hide TrimSpace, TopicPrefixes, HasAnyPrefix, AliasesOk, Namespaces, Trimmed;
    forall t | t in Trimmed(r.topics)
      ensures !HasAnyPrefix(t, TopicPrefixes(TrimSpace(l), q.aliases)) && t !in Trimmed(q.topics)
    {
      TrimmedTopicOwned(k, r, t);
      TopicsApart(k, r, l, q, t);
      if t in Trimmed(q.topics) { TrimmedTopicOwned(l, q, t); }
    }
    forall s | s in r.schemas ensures s !in q.schemas {
      if s in q.schemas { DelimiterUnique(TrimSpace(k), TrimSpace(l), '/', s); }
    }
    forall w | w in r.workflows ensures w !in q.workflows {
      if w in q.workflows { DelimiterUnique(TrimSpace(k), TrimSpace(l), '.', w); }
    }
  }

  /** After any run, two installed packs are separate exactly when their trimmed IDs differ. */
  lemma PacksStaySeparate(steps: seq<Step>, semver: string -> bool, k: string, l: string)
    requires ValidRun(steps, semver) && k in Run(steps, semver) && l in Run(steps, semver)
    ensures var reg := Run(steps, semver);
            Separate(k, reg[k], l, reg[l]) <==> TrimSpace(k) != TrimSpace(l)
  {
    hide TrimSpace, AliasesOk, TopicPrefixes, HasAnyPrefix, Enabled, Trimmed;
    RunKeepsInv(steps, semver);
    var reg := Run(steps, semver);
    assert RecordOk(k, reg[k]) && RecordOk(l, reg[l]);
    NotEmpty(TrimSpace(k));
    NotEmpty(TrimSpace(l));
    if TrimSpace(k) != TrimSpace(l) {
      SeparateIfApart(k, reg[k], l, reg[l]);
    } else {
      NamespacesAre(k, reg[k]);
      NamespacesAre(l, reg[l]);
    }
  }

  /** Untrimmed IDs can share everything: " a" and "a" both install. */
  lemma {:induction false} UntrimmedIdsCollide(semver: string -> bool, m: Manifest, n: Manifest, r: Record, q: Record)
    requires m == Manifest(" a", [], "1", "", "", [], [], []) && n == m.(id := "a")
    requires r == Record(" a", "INACTIVE", " a", [], [], map[], map[], [], []) && q == r.(id := "a", manifestID := "a")
    ensures ValidRun([Install(m, r), Install(n, q)], semver)
    ensures var reg := Run([Install(m, r), Install(n, q)], semver);
            " a" in reg && "a" in reg && "a" in Namespaces(" a", reg[" a"]) && "a" in Namespaces("a", reg["a"])
  {
    assert TrimSpace(" a") == "a" && TrimSpace("a") == "a" && TrimSpace("1") == "1";
    var steps := [Install(m, r), Install(n, q)];
    assert steps[..1] == [Install(m, r)];
    FirstInstall(semver, m, r);
    var reg := Run([Install(m, r)], semver);
    assert OwnerID(" a", r) == "a";
    assert Enabled(reg, Install(n, q), semver);
    var both := Run(steps, semver);
    assert both == reg["a" := q];
    NamespacesAre(" a", both[" a"]);
    NamespacesAre("a", both["a"]);
  }

  lemma {:induction false} FirstInstall(semver: string -> bool, m: Manifest, r: Record)
    requires m == Manifest(" a", [], "1", "", "", [], [], [])
    requires r == Record(" a", "INACTIVE", " a", [], [], map[], map[], [], [])
    ensures ValidRun([Install(m, r)], semver) && Run([Install(m, r)], semver) == map[" a" := r]
  {
    assert TrimSpace(" a") == "a" && TrimSpace("1") == "1";
    assert [Install(m, r)][..0] == [] && Run([], semver) == map[];
    assert Enabled(map[], Install(m, r), semver);
  }

  /** A pack's topics in a manifest that passes are those under job.<namespace>., for its ID and each of
      its aliases, surrounding spaces aside; its schemas are under its ID and a slash, its workflows
      under its ID and a dot. */
  lemma ManifestNames(m: Manifest, semver: string -> bool, i: nat)
    requires ManifestOk(m, semver)
    ensures i < |m.topics| ==>
              exists n :: n in {TrimSpace(m.id)} + Trimmed(m.aliases) && "job." + n + "." <= m.topics[i].name
    ensures i < |m.schemas| ==> TrimSpace(m.id) + "/" <= m.schemas[i].id
    ensures i < |m.workflows| ==> TrimSpace(m.id) + "." <= m.workflows[i].id
  {
    hide TrimSpace, TopicPrefixes, HasAnyPrefix, IsId, AliasesOk, Trimmed;
    if i < |m.topics| {
      assert TopicOk(m, m.topics[i]);
      PrefixesMean(TrimSpace(m.id), m.aliases, m.topics[i].name);
      var n :| n in {TrimSpace(m.id)} + Trimmed(m.aliases) && TopicPrefix(n) <= m.topics[i].name;
    }
  }
}
