/**
 JSON merge patch and delete patches (cmd/cordumctl/pack.go). `MergeInto` is the MergePatch
 function of section 2 of RFC 7396, written without a loop; the method `MergePatch` is the
 source's loop over a Go map, whose iteration order is arbitrary.
 */
module MergePatch {
  import opened Wrappers
  import opened JsonValue

  /** Section 2 of RFC 7396. A missing member merges like a non-object. */
  function MergeInto(target: Json, patch: Json): Json
    decreases patch
  {
    if !patch.Obj? then patch
    else
      var t, p := Fields(target), patch.fields;
      Obj(map k | k in t.Keys + p.Keys && !(k in p && p[k] == Null) ::
            if k in p then MergeInto(Field(target, k), p[k]) else t[k])
  }

  /** The members already merged are those in `done`. */
  ghost function Merged(target: Json, p: map<string, Json>, done: set<string>): map<string, Json>
    requires done <= p.Keys
  {
    var t := Fields(target);
    map k | k in t.Keys + done && !(k in done && p[k] == Null) ::
      if k in done then MergeInto(Field(target, k), p[k]) else t[k]
  }

  /** Visiting one more member. */
  lemma MergedStep(target: Json, p: map<string, Json>, done: set<string>, k: string)
    requires done <= p.Keys && k in p && k !in done
    ensures Field(Obj(Merged(target, p, done)), k) == Field(target, k)
    ensures Merged(target, p, done + {k}) ==
              if p[k] == Null then Merged(target, p, done) - {k}
              else Merged(target, p, done)[k := MergeInto(Field(target, k), p[k])]
  {
    hide MergeInto;
  }

  /** mergePatch: whatever order the patch's members are visited in, the result is that of the RFC. */
  method MergePatch(target: Json, patch: Json) returns (r: Json)
    ensures r == MergeInto(target, patch)
    decreases patch
  {
    if patch.Null? { return Null; }
    if !patch.Obj? { return patch; }
    var p := patch.fields;
    var out := if target.Obj? then target.fields else map[];
    var todo := p.Keys;
    assert out == Merged(target, p, p.Keys - todo);
    while todo != {}
      invariant todo <= p.Keys
      invariant out == Merged(target, p, p.Keys - todo)
      decreases todo
    {
      var k :| k in todo;
      var v := p[k];
      MergedStep(target, p, p.Keys - todo, k);
      assert p.Keys - (todo - {k}) == (p.Keys - todo) + {k};
      if v.Null? {
        out := out - {k};
      } else if v.Obj? {
        var child := MergePatch(if k in out then out[k] else Null, v);
        out := out[k := child];
      } else {
        out := out[k := v];
      }
      todo := todo - {k};
    }
    assert p.Keys - todo == p.Keys && Obj(Merged(target, p, p.Keys)) == MergeInto(target, patch);
    r := Obj(out);
  }

  // ---------------------------------------------------------------- laws

  lemma {:induction false} MergeIdempotent(target: Json, patch: Json)
    ensures MergeInto(MergeInto(target, patch), patch) == MergeInto(target, patch)
    decreases patch
  {
    if patch.Obj? {
      var m := MergeInto(target, patch);
      var p := patch.fields;
      forall k | k in p && p[k] != Null ensures MergeInto(Field(m, k), p[k]) == m.fields[k] {
        MergeIdempotent(Field(target, k), p[k]);
      }
      assert MergeInto(m, patch).fields == m.fields;
    }
  }

  /** The path leaves the patch at one of its objects. */
  predicate Diverges(patch: Json, path: Path)
    decreases path
  {
    patch.Obj? && path != [] && (path[0] !in patch.fields || Diverges(patch.fields[path[0]], path[1..]))
  }

  /** A merge leaves every path that diverges from the patch alone. */
  lemma {:induction false} MergeFrame(target: Json, patch: Json, path: Path)
    requires Diverges(patch, path)
    ensures At(MergeInto(target, patch), path) == At(target, path)
    decreases path
  {
    var k := path[0];
    if k in patch.fields {
      MergeFrame(Field(target, k), patch.fields[k], path[1..]);
      if !(target.Obj? && k in target.fields) {
        NothingBelowNull(path[1..]);
      }
    }
  }

  lemma NothingBelowNull(path: Path)
    requires path != []
    ensures At(Null, path) == None
  {}

  /** On every other path the merge decides the leaf, whatever the target was. */
  lemma {:induction false} MergeDecides(t: Json, u: Json, patch: Json, path: Path)
    requires !Diverges(patch, path)
    ensures LeafAt(MergeInto(t, patch), path) == LeafAt(MergeInto(u, patch), path)
    decreases path
  {
    if patch.Obj? && path != [] {
      var k := path[0];
      MergeDecides(Field(t, k), Field(u, k), patch.fields[k], path[1..]);
    }
  }

  /** What a patch puts at a path it reaches: its own value, or nothing where that is null. */
  function PatchLeaf(patch: Json, path: Path): Option<Json> {
    if LeafAt(patch, path) == Some(Null) then None else LeafAt(patch, path)
  }

  /** There the merge leaves the patch's leaf, and an object exactly where the patch has one. */
  lemma {:induction false} MergePuts(t: Json, patch: Json, path: Path)
    requires patch.Obj? && !Diverges(patch, path)
    ensures LeafAt(MergeInto(t, patch), path) == PatchLeaf(patch, path)
    ensures IsObject(MergeInto(t, patch), path) <==> IsObject(patch, path)
    decreases path
  {
    if path != [] {
      var k := path[0];
      var m, rest := MergeInto(t, patch), path[1..];
      var v := patch.fields[k];
      assert k in m.fields <==> v != Null;
      assert v != Null ==> m.fields[k] == MergeInto(Field(t, k), v);
      assert At(patch, path) == At(v, rest) && At(m, path) == if v == Null then None else At(m.fields[k], rest);
      if v.Obj? {
        MergePuts(Field(t, k), v, rest);
      } else {
        assert MergeInto(Field(t, k), v) == v;
        assert At(v, rest) == if rest == [] then Some(v) else None;
      }
    }
  }

  predicate IsObject(j: Json, path: Path) {
    At(j, path).Some? && At(j, path).value.Obj?
  }

  /** Patches that overlap at object nodes only. */
  ghost predicate Compatible(p: Json, q: Json)
    decreases p
  {
    && p.Obj? && q.Obj?
    && forall k :: k in p.fields && k in q.fields ==> Compatible(p.fields[k], q.fields[k])
  }

  /** Such patches commute on every target. */
  lemma {:induction false} MergeCommutes(t: Json, p: Json, q: Json)
    requires Compatible(p, q)
    ensures MergeInto(MergeInto(t, p), q) == MergeInto(MergeInto(t, q), p)
    decreases p
  {
    var a, b := MergeInto(MergeInto(t, p), q), MergeInto(MergeInto(t, q), p);
    forall k | k in a.fields || k in b.fields
      ensures k in a.fields && k in b.fields && a.fields[k] == b.fields[k]
    {
      if k in p.fields && k in q.fields {
        MergeCommutes(Field(t, k), p.fields[k], q.fields[k]);
        assert p.fields[k] != Null && q.fields[k] != Null;
      }
    }
    assert a.fields == b.fields;
  }

  // ---------------------------------------------------------------- delete patches

  /** deletePatchValue: null at every leaf. */
  function DeletePatch(v: Json): Json {
    if v.Obj? then Obj(map k | k in v.fields :: DeletePatch(v.fields[k])) else Null
  }

  lemma {:induction false} DeleteShape(p: Json, path: Path)
    ensures Diverges(DeletePatch(p), path) <==> Diverges(p, path)
    decreases path
  {
    if p.Obj? && path != [] && path[0] in p.fields {
      DeleteShape(p.fields[path[0]], path[1..]);
    }
  }

  /** A delete patch leaves no leaf anywhere the patch reached, and everything else as it was. */
  lemma {:induction false} DeleteClears(t: Json, p: Json, path: Path)
    requires p.Obj?
    ensures LeafAt(MergeInto(t, DeletePatch(p)), path) == if Diverges(p, path) then LeafAt(t, path) else None
    decreases path
  {
    DeleteShape(p, path);
    if Diverges(p, path) {
      MergeFrame(t, DeletePatch(p), path);
    } else if path != [] {
      var k := path[0];
      if p.fields[k].Obj? {
        DeleteClears(Field(t, k), p.fields[k], path[1..]);
      }
    }
  }

  /** Where a compatible patch overlaps another one it puts no leaf. */
  lemma {:induction false} CompatibleNoLeaf(t: Json, p: Json, q: Json, path: Path)
    requires Compatible(p, q) && !Diverges(p, path) && !Diverges(q, path)
    ensures LeafAt(MergeInto(t, q), path) == None
    decreases path
  {
    if path != [] {
      var k := path[0];
      CompatibleNoLeaf(Field(t, k), p.fields[k], q.fields[k], path[1..]);
    }
  }
}
