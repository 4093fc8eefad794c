/**
 A merge read path by path (cmd/cordumctl/pack.go): the value at every path of the result is the target's
 or the patch's, and that pins the result down.
 */
module MergePaths {
  import opened Wrappers
  import opened JsonValue
  import opened MergePatch

  /** The result read path by path: the target where the path leaves the patch, the patch elsewhere. */
  ghost predicate ReadsAsMerged(t: Json, patch: Json, r: Json) {
    forall path ::
      && LeafAt(r, path) == (if Diverges(patch, path) then LeafAt(t, path) else PatchLeaf(patch, path))
      && (IsObject(r, path) <==> if Diverges(patch, path) then IsObject(t, path) else IsObject(patch, path))
  }

  ghost predicate SamePaths(a: Json, b: Json) {
    forall path :: LeafAt(a, path) == LeafAt(b, path) && (IsObject(a, path) <==> IsObject(b, path))
  }

  lemma SameBelow(a: Json, b: Json, k: string)
    requires SamePaths(a, b) && a.Obj? && b.Obj?
    ensures k in a.fields <==> k in b.fields
    ensures k in a.fields ==> SamePaths(a.fields[k], b.fields[k])
  {
    hide At;
    var top: Path := [];
    assert forall j: Json :: At(j, top) == Some(j) by { TopIsWhole(); }
    forall path: Path
      ensures k in a.fields && k in b.fields ==>
                LeafAt(a.fields[k], path) == LeafAt(b.fields[k], path)
                && (IsObject(a.fields[k], path) <==> IsObject(b.fields[k], path))
    {
      Below(a, k, path);
      Below(b, k, path);
      assert LeafAt(a, [k] + path) == LeafAt(b, [k] + path) && (IsObject(a, [k] + path) <==> IsObject(b, [k] + path));
    }
    Below(a, k, top);
    Below(b, k, top);
    assert LeafAt(a, [k] + top) == LeafAt(b, [k] + top) && (IsObject(a, [k] + top) <==> IsObject(b, [k] + top));
  }

  lemma TopIsWhole()
    ensures forall j: Json :: At(j, []) == Some(j)
  {}

  /** Values with the same leaves and the same objects are equal. */
  lemma {:induction false} SameByPaths(a: Json, b: Json)
    requires SamePaths(a, b)
    ensures a == b
    decreases a
  {
    var top: Path := [];
    assert LeafAt(a, top) == LeafAt(b, top) && (IsObject(a, top) <==> IsObject(b, top));
    if a.Obj? {
      hide SamePaths;
      forall k | k in a.fields || k in b.fields ensures k in a.fields && k in b.fields && a.fields[k] == b.fields[k] {
        SameBelow(a, b, k);
        SameByPaths(a.fields[k], b.fields[k]);
      }
      assert a.fields == b.fields;
    }
  }

  lemma Below(j: Json, k: string, path: Path)
    requires j.Obj?
    ensures At(j, [k] + path) == if k in j.fields then At(j.fields[k], path) else None
  {
    assert ([k] + path)[1..] == path;
  }

  /** The merge of a target and an object patch is the one value that reads as the target where the path
      leaves the patch and as the patch everywhere else, nulls removed. */
  lemma MergeExactly(t: Json, patch: Json, r: Json)
    requires patch.Obj?
    ensures ReadsAsMerged(t, patch, r) <==> r == MergeInto(t, patch)
  {
    hide MergeInto, LeafAt, IsObject, Diverges, PatchLeaf;
    var m := MergeInto(t, patch);
    forall path
      ensures LeafAt(m, path) == (if Diverges(patch, path) then LeafAt(t, path) else PatchLeaf(patch, path))
      ensures IsObject(m, path) <==> if Diverges(patch, path) then IsObject(t, path) else IsObject(patch, path)
    {
      if Diverges(patch, path) { FrameLeaf(t, patch, path); } else { MergePuts(t, patch, path); }
    }
    if ReadsAsMerged(t, patch, r) { SameByPaths(r, m); }
  }

  lemma FrameLeaf(t: Json, patch: Json, path: Path)
    requires Diverges(patch, path)
    ensures LeafAt(MergeInto(t, patch), path) == LeafAt(t, path)
    ensures IsObject(MergeInto(t, patch), path) <==> IsObject(t, path)
  {
    MergeFrame(t, patch, path);
  }
}
