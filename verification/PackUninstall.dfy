/**
 Installing and uninstalling a pack's config overlays, with other writers in between
 (cmd/cordumctl/pack.go). An overlay is merged into one key of a config document and taken out
 again with a delete patch.
 */
module PackUninstall {
  import opened Wrappers
  import opened JsonValue
  import opened PackStore
  import opened PackInstall
  import opened MergePatch

  /** A write to one config key: our overlay, its removal, or somebody else's patch. */
  datatype Op = Add(cell: Cell, patch: Json) | Remove(cell: Cell, patch: Json) | Other(cell: Cell, patch: Json)

  function NotNull(j: Json): Option<Json> {
    if j == Null then None else Some(j)
  }

  /** Removing an overlay from a key that is not there does nothing. */
  function Apply(v: Option<Json>, op: Op): Option<Json> {
    if !op.Remove? then NotNull(MergeInto(Value(v), op.patch))
    else if v.None? then None
    else NotNull(MergeInto(v.value, DeletePatch(op.patch)))
  }

  /** Key `d`, which held `v`, after these writes. */
  function RunOn(v: Option<Json>, ops: seq<Op>, d: Cell): Option<Json> {
    if ops == [] then v
    else
      var before := RunOn(v, ops[..|ops| - 1], d);
      if ops[|ops| - 1].cell == d then Apply(before, ops[|ops| - 1]) else before
  }

  function Others(ops: seq<Op>): seq<Op> {
    if ops == [] then []
    else Others(ops[..|ops| - 1]) + (if ops[|ops| - 1].Other? then [ops[|ops| - 1]] else [])
  }

  /** The leaf at a path; an absent key has none. */
  function Leaf(v: Option<Json>, path: Path): Option<Json> {
    if v.None? then None else LeafAt(v.value, path)
  }

  /** Some overlay (or, if not `own`, somebody else's patch) decides the leaf at this path. */
  ghost predicate Touched(ops: seq<Op>, d: Cell, path: Path, own: bool) {
    exists i :: 0 <= i < |ops| && ops[i].cell == d && own == !ops[i].Other? && !Diverges(ops[i].patch, path)
  }

  /** The overlays are objects, and overlap with the others' patches at object nodes only. */
  ghost predicate Disjoint(ops: seq<Op>, d: Cell) {
    && (forall i :: 0 <= i < |ops| && ops[i].cell == d && !ops[i].Other? ==> ops[i].patch.Obj?)
    && (forall i, j :: 0 <= i < |ops| && 0 <= j < |ops| && ops[i].cell == ops[j].cell == d ==>
          !ops[i].Other? && ops[j].Other? ==> Compatible(ops[i].patch, ops[j].patch))
  }

  /** Overlay number `i` has been added and not removed since. */
  ghost predicate Pending(ops: seq<Op>, d: Cell, path: Path, i: int) {
    && 0 <= i < |ops| && ops[i].Add? && ops[i].cell == d && !Diverges(ops[i].patch, path)
    && Remove(d, ops[i].patch) !in ops[i..]
  }

  /** Every overlay is removed after it was last added. */
  ghost predicate Closed(ops: seq<Op>, d: Cell) {
    forall i :: 0 <= i < |ops| && ops[i].Add? && ops[i].cell == d ==> Remove(d, ops[i].patch) in ops[i..]
  }

  // ---------------------------------------------------------------- one write

  /** An overlay, or its removal, leaves the paths it diverges from alone; a removal clears the rest. */
  lemma OwnStep(v: Option<Json>, op: Op, path: Path)
    requires !op.Other? && op.patch.Obj?
    ensures Diverges(op.patch, path) ==> Leaf(Apply(v, op), path) == Leaf(v, path)
    ensures op.Remove? && !Diverges(op.patch, path) ==> Leaf(Apply(v, op), path) == None
  {
    if op.Remove? {
      if v.Some? { DeleteClears(v.value, op.patch, path); }
    } else if Diverges(op.patch, path) {
      MergeFrame(Value(v), op.patch, path);
    }
  }

  /** Somebody else's patch treats equal leaves equally. */
  lemma OtherStep(v: Option<Json>, w: Option<Json>, op: Op, path: Path)
    requires op.Other? && Leaf(v, path) == Leaf(w, path)
    ensures Leaf(Apply(v, op), path) == Leaf(Apply(w, op), path)
    ensures Diverges(op.patch, path) ==> Leaf(Apply(v, op), path) == Leaf(v, path)
  {
    if Diverges(op.patch, path) {
      MergeFrame(Value(v), op.patch, path);
      MergeFrame(Value(w), op.patch, path);
    } else {
      MergeDecides(Value(v), Value(w), op.patch, path);
    }
  }

  /** Where an overlay reaches, a compatible patch leaves no leaf behind. */
  lemma OtherKeepsNone(v: Option<Json>, p: Json, op: Op, path: Path)
    requires op.Other? && Compatible(p, op.patch) && !Diverges(p, path)
    ensures !Diverges(op.patch, path) ==> Leaf(Apply(v, op), path) == None
  {
    if !Diverges(op.patch, path) {
      CompatibleNoLeaf(Value(v), p, op.patch, path);
    }
  }

  // ---------------------------------------------------------------- whole histories

  lemma OthersSnoc(ops: seq<Op>, op: Op, v: Option<Json>, d: Cell)
    ensures Others(ops + [op]) == if op.Other? then Others(ops) + [op] else Others(ops)
    ensures RunOn(v, ops + [op], d) == if op.cell == d then Apply(RunOn(v, ops, d), op) else RunOn(v, ops, d)
  {
    assert (ops + [op])[..|ops|] == ops;
  }

  lemma TouchedSnoc(ops: seq<Op>, op: Op, d: Cell, path: Path, own: bool)
    ensures Touched(ops + [op], d, path, own) <==>
              Touched(ops, d, path, own) || (op.cell == d && own == !op.Other? && !Diverges(op.patch, path))
  {
    if Touched(ops, d, path, own) {
      var i :| 0 <= i < |ops| && ops[i].cell == d && own == !ops[i].Other? && !Diverges(ops[i].patch, path);
      assert (ops + [op])[i] == ops[i];
    }
    if op.cell == d && own == !op.Other? && !Diverges(op.patch, path) {
      assert (ops + [op])[|ops|] == op;
    }
  }

  lemma PendingSnoc(ops: seq<Op>, op: Op, d: Cell, path: Path, i: int)
    requires Pending(ops, d, path, i) && op != Remove(d, ops[i].patch)
    ensures Pending(ops + [op], d, path, i)
  {
    assert (ops + [op])[i..] == ops[i..] + [op];
  }

  /** What a key's leaf is at any moment: nothing where our overlays have been, else what the others
      alone would have left there, unless an overlay that reaches the path is still in place. */
  ghost predicate Tracked(v0: Option<Json>, ops: seq<Op>, d: Cell, path: Path) {
    || Leaf(RunOn(v0, ops, d), path) ==
      (if Touched(ops, d, path, true) then None else Leaf(RunOn(v0, Others(ops), d), path))
    || exists i :: Pending(ops, d, path, i)
  }

  lemma {:induction false} Track(v0: Option<Json>, ops: seq<Op>, d: Cell, path: Path)
    requires Disjoint(ops, d)
    ensures Tracked(v0, ops, d, path)
  {
    if ops != [] {
      var before, op := ops[..|ops| - 1], ops[|ops| - 1];
      assert ops == before + [op];
      Track(v0, before, d, path);
      TrackStep(v0, before, op, d, path);
    }
  }

  lemma TrackStep(v0: Option<Json>, ops: seq<Op>, op: Op, d: Cell, path: Path)
    requires Disjoint(ops + [op], d) && Tracked(v0, ops, d, path)
    ensures Tracked(v0, ops + [op], d, path)
  {
    hide Leaf, Apply, Diverges, Disjoint, RunOn, Others, Touched, Pending;
    OthersSnoc(ops, op, v0, d);
    OthersSnoc(Others(ops), op, v0, d);
    TouchedSnoc(ops, op, d, path, true);
    if op.cell == d && op.Other? {
      TrackOther(v0, ops, op, d, path);
    } else if op.cell == d {
      TrackOwn(v0, ops, op, d, path);
    } else if exists i :: Pending(ops, d, path, i) {
      var i :| Pending(ops, d, path, i);
      assert 0 <= i < |ops| by { PendingIndex(ops, d, path, i); }
      PendingSnoc(ops, op, d, path, i);
    }
  }

  lemma PendingIndex(ops: seq<Op>, d: Cell, path: Path, i: int)
    requires Pending(ops, d, path, i)
    ensures 0 <= i < |ops| && !Diverges(ops[i].patch, path) && ops[i].cell == d && ops[i].Add?
  {}

  lemma TrackOther(v0: Option<Json>, ops: seq<Op>, op: Op, d: Cell, path: Path)
    requires Disjoint(ops + [op], d) && Tracked(v0, ops, d, path) && op.cell == d && op.Other?
    ensures Tracked(v0, ops + [op], d, path)
  {
    hide Leaf, Apply, Diverges, RunOn, Others, Pending, Compatible;
    OthersSnoc(ops, op, v0, d);
    OthersSnoc(Others(ops), op, v0, d);
    TouchedSnoc(ops, op, d, path, true);
    var t := RunOn(v0, ops, d);
    if exists i :: Pending(ops, d, path, i) {
      var i :| Pending(ops, d, path, i);
      PendingIndex(ops, d, path, i);
      PendingSnoc(ops, op, d, path, i);
    } else if Touched(ops, d, path, true) {
      var i :| 0 <= i < |ops| && ops[i].cell == d && !ops[i].Other? && !Diverges(ops[i].patch, path);
      assert (ops + [op])[i] == ops[i] && (ops + [op])[|ops|] == op;
      OtherKeepsNone(t, ops[i].patch, op, path);
      OtherStep(t, t, op, path);
    } else {
      OtherStep(t, RunOn(v0, Others(ops), d), op, path);
    }
  }

  lemma TrackOwn(v0: Option<Json>, ops: seq<Op>, op: Op, d: Cell, path: Path)
    requires Disjoint(ops + [op], d) && Tracked(v0, ops, d, path) && op.cell == d && !op.Other?
    ensures Tracked(v0, ops + [op], d, path)
  {
    hide Leaf, Apply, Diverges, RunOn, Others, Touched, Compatible;
    OthersSnoc(ops, op, v0, d);
    TouchedSnoc(ops, op, d, path, true);
    assert (ops + [op])[|ops|] == op;
    OwnStep(RunOn(v0, ops, d), op, path);
    if op.Add? && !Diverges(op.patch, path) {
      assert (ops + [op])[|ops|..] == [op];
      assert Pending(ops + [op], d, path, |ops|);
    } else if i :| Pending(ops, d, path, i) {
      if op != Remove(d, ops[i].patch) {
        PendingSnoc(ops, op, d, path, i);
      }
    }
  }

  /** Once every overlay has been removed, in whatever order and whatever the others did meanwhile,
      no leaf is left where the overlays reached and every other leaf is what the others alone
      would have made it. */
  lemma OverlaysLeaveNoTrace(v0: Option<Json>, ops: seq<Op>, d: Cell, path: Path)
    requires Disjoint(ops, d) && Closed(ops, d)
    ensures Leaf(RunOn(v0, ops, d), path) ==
              if Touched(ops, d, path, true) then None else Leaf(RunOn(v0, Others(ops), d), path)
  {
    Track(v0, ops, d, path);
  }

  /** What the others alone do to a path none of them decides, or an overlay's path. */
  lemma {:induction false} OthersAlone(v0: Option<Json>, ops: seq<Op>, d: Cell, path: Path, p: Json)
    requires forall i :: 0 <= i < |ops| && ops[i].cell == d && ops[i].Other? ==> Compatible(p, ops[i].patch)
    requires !Diverges(p, path)
    ensures Leaf(RunOn(v0, Others(ops), d), path) == if Touched(ops, d, path, false) then None else Leaf(v0, path)
  {
    hide Leaf, Apply, Diverges, Compatible;
    if ops != [] {
      var before, op := ops[..|ops| - 1], ops[|ops| - 1];
      assert ops == before + [op];
      OthersAlone(v0, before, d, path, p);
      OthersSnoc(before, op, v0, d);
      OthersSnoc(Others(before), op, v0, d);
      TouchedSnoc(before, op, d, path, false);
      if op.cell == d && op.Other? {
        var t := RunOn(v0, Others(before), d);
        OtherStep(t, t, op, path);
        OtherKeepsNone(t, p, op, path);
      }
    }
  }

  /** The leaf is that of a history without our overlays. */
  ghost predicate Invisible(v0: Option<Json>, ops: seq<Op>, d: Cell, path: Path) {
    Leaf(RunOn(v0, ops, d), path) == Leaf(RunOn(v0, Others(ops), d), path)
  }

  /** No overlay reached a leaf that was there before and that no one else replaced. */
  ghost predicate Spared(v0: Option<Json>, ops: seq<Op>, d: Cell, path: Path) {
    Touched(ops, d, path, true) && !Touched(ops, d, path, false) ==> Leaf(v0, path) == None
  }

  /** Exactly when uninstalling restores a leaf, and hence when it restores all of them. */
  lemma UninstallRestores(v0: Option<Json>, ops: seq<Op>, d: Cell)
    requires Disjoint(ops, d) && Closed(ops, d)
    ensures forall path :: Invisible(v0, ops, d, path) <==> Spared(v0, ops, d, path)
    ensures (forall path :: Invisible(v0, ops, d, path)) <==> (forall path :: Spared(v0, ops, d, path))
  {
    hide Leaf, Apply, Diverges, RunOn, Others, Compatible, Closed;
    forall path ensures Invisible(v0, ops, d, path) <==> Spared(v0, ops, d, path) {
      OverlaysLeaveNoTrace(v0, ops, d, path);
      if Touched(ops, d, path, true) {
        var i :| 0 <= i < |ops| && ops[i].cell == d && !ops[i].Other? && !Diverges(ops[i].patch, path);
        OthersAlone(v0, ops, d, path, ops[i].patch);
      }
    }
  }

  // ---------------------------------------------------------------- an install, then an uninstall

  /** An overlay as the registry record keeps it. */
  datatype Applied = Applied(cell: Cell, patch: Json)

  function Adds(os: seq<Applied>): seq<Op> {
    if os == [] then [] else Adds(os[..|os| - 1]) + [Add(os[|os| - 1].cell, os[|os| - 1].patch)]
  }

  /** Removed from last to first. */
  function Removes(os: seq<Applied>): seq<Op> {
    if os == [] then [] else Removes(os[1..]) + [Remove(os[0].cell, os[0].patch)]
  }

  /** The overlays among an install's writes that are recorded, that are not, or both. */
  function OverlaysWhere(want: seq<Intent>, recorded: set<bool>): seq<Applied> {
    if want == [] then []
    else
      var before, last := OverlaysWhere(want[..|want| - 1], recorded), want[|want| - 1];
      if last.MergeTo? && last.recorded in recorded then before + [Applied(last.cell, last.patch)] else before
  }

  function Overlays(want: seq<Intent>): seq<Applied> {
    OverlaysWhere(want, {false, true})
  }

  lemma {:induction false} RunConcat(v: Option<Json>, a: seq<Op>, b: seq<Op>, d: Cell)
    ensures RunOn(v, a + b, d) == RunOn(RunOn(v, a, d), b, d)
    decreases |b|
  {
    hide Apply;
    if b == [] {
      assert a + b == a;
    } else {
      var b' := b[..|b| - 1];
      RunConcat(v, a, b', d);
      assert (a + b)[..|a + b| - 1] == a + b';
    }
  }

  /** A finished install has merged its overlays into their keys, one after the other. */
  lemma {:induction false} InstallMerges(st0: Store, cs: seq<Change>, want: seq<Intent>, d: Cell)
    requires Sound(st0, cs) && Follows([], cs, want, true) && d.ConfigCell?
    requires forall k :: 0 <= k < |want| ==> (want[k].MergeTo? <==> want[k].cell.ConfigCell?)
    requires forall k :: 0 <= k < |want| && want[k].MergeTo? ==> want[k].patch.Obj?
    ensures After(View(st0, d), cs, d) == RunOn(View(st0, d), Adds(Overlays(want)), d)
    decreases |cs|
  {
    hide View, DeletePatch, Sound, Follows;
    if cs != [] {
      var n := |cs| - 1;
      LengthsAgree(cs, want);
      var cs', want' := cs[..n], want[..n];
      Shorter(st0, cs, want);
      InstallMerges(st0, cs', want', d);
      assert SoundAt(st0, cs, n) && Realizes(cs[n], want[n]) by { LastOne(st0, cs, want); }
      if want[n].MergeTo? {
        AddLast(Overlays(want'), Applied(want[n].cell, want[n].patch));
        OthersSnoc(Adds(Overlays(want')), Add(want[n].cell, want[n].patch), View(st0, d), d);
      }
    } else {
      assert want == [] by { LengthsAgree(cs, want); }
    }
  }

  lemma LengthsAgree(cs: seq<Change>, want: seq<Intent>)
    requires Follows([], cs, want, true)
    ensures |cs| == |want|
  {}

  lemma LastOne(st0: Store, cs: seq<Change>, want: seq<Intent>)
    requires Sound(st0, cs) && Follows([], cs, want, true) && cs != []
    ensures |cs| == |want| && SoundAt(st0, cs, |cs| - 1) && Realizes(cs[|cs| - 1], want[|cs| - 1])
  {
    hide SoundAt, Realizes;
    assert Realizes(cs[0 + (|cs| - 1)], want[|cs| - 1]);
  }

  lemma Shorter(st0: Store, cs: seq<Change>, want: seq<Intent>)
    requires Sound(st0, cs) && Follows([], cs, want, true) && cs != []
    ensures |cs| == |want| && Sound(st0, cs[..|cs| - 1]) && Follows([], cs[..|cs| - 1], want[..|cs| - 1], true)
  {
    hide View, After, Realizes;
    var cs' := cs[..|cs| - 1];
    forall i | 0 <= i < |cs'| ensures SoundAt(st0, cs', i) {
      assert SoundAt(st0, cs, i) && cs'[..i] == cs[..i];
    }
  }

  lemma AddLast(os: seq<Applied>, o: Applied)
    ensures Adds(os + [o]) == Adds(os) + [Add(o.cell, o.patch)]
  {
    assert (os + [o])[..|os|] == os;
  }

  // ---------------------------------------------------------------- one leaf

  /** The write decides the leaf at this path of `d`. */
  predicate Reaches(op: Op, d: Cell, path: Path) {
    op.cell == d && !Diverges(op.patch, path)
  }

  /** The leaf a write that reaches this path leaves there: the patch's own, and none if that is null or
      the overlay is removed. */
  function Puts(op: Op, path: Path): Option<Json> {
    if op.Remove? then None else PatchLeaf(op.patch, path)
  }

  /** A leaf of `d` after these writes: what the last write that reaches it puts there. */
  function LeafAfter(leaf: Option<Json>, ops: seq<Op>, d: Cell, path: Path): Option<Json> {
    if ops == [] then leaf
    else
      var last := ops[|ops| - 1];
      if Reaches(last, d, path) then Puts(last, path) else LeafAfter(leaf, ops[..|ops| - 1], d, path)
  }

  /** A write that reaches a path decides its leaf whatever was there; any other leaves it alone. */
  lemma StepLeaf(v: Option<Json>, op: Op, path: Path)
    requires op.Remove? ==> op.patch.Obj?
    ensures Leaf(Apply(v, op), path) == if Diverges(op.patch, path) then Leaf(v, path) else Puts(op, path)
  {
    if op.Remove? {
      OwnStep(v, op, path);
    } else if Diverges(op.patch, path) {
      MergeFrame(Value(v), op.patch, path);
    } else if op.patch.Obj? {
      MergePuts(Value(v), op.patch, path);
    }
  }

  /** A key's leaves can be followed one at a time. */
  lemma {:induction false} RunLeaf(v: Option<Json>, ops: seq<Op>, d: Cell, path: Path)
    requires forall i :: 0 <= i < |ops| && ops[i].Remove? ==> ops[i].patch.Obj?
    ensures Leaf(RunOn(v, ops, d), path) == LeafAfter(Leaf(v, path), ops, d, path)
  {
    hide Leaf, Apply, Diverges, Puts;
    if ops != [] {
      var before, last := ops[..|ops| - 1], ops[|ops| - 1];
      RunLeaf(v, before, d, path);
      StepLeaf(RunOn(v, before, d), last, path);
    }
  }

  lemma LeafSnoc(leaf: Option<Json>, ops: seq<Op>, op: Op, d: Cell, path: Path)
    ensures LeafAfter(leaf, ops + [op], d, path) ==
              if Reaches(op, d, path) then Puts(op, path) else LeafAfter(leaf, ops, d, path)
  {
    assert (ops + [op])[..|ops|] == ops;
  }

  lemma {:induction false} LeafConcat(leaf: Option<Json>, a: seq<Op>, b: seq<Op>, d: Cell, path: Path)
    ensures LeafAfter(leaf, a + b, d, path) == LeafAfter(LeafAfter(leaf, a, d, path), b, d, path)
    decreases |b|
  {
    hide Puts, Reaches;
    if b == [] {
      assert a + b == a;
    } else {
      var b' := b[..|b| - 1];
      LeafConcat(leaf, a, b', d, path);
      assert (a + b)[..|a + b| - 1] == a + b';
    }
  }

  ghost predicate SomeReaches(ops: seq<Op>, d: Cell, path: Path) {
    exists i :: 0 <= i < |ops| && Reaches(ops[i], d, path)
  }

  /** Writes of which one reaches a leaf forget what it was; writes of which none does keep it. */
  lemma {:induction false} LeafDecided(leaf: Option<Json>, other: Option<Json>, ops: seq<Op>, d: Cell, path: Path)
    ensures if SomeReaches(ops, d, path) then LeafAfter(leaf, ops, d, path) == LeafAfter(other, ops, d, path)
            else LeafAfter(leaf, ops, d, path) == leaf
  {
    hide Puts, Reaches;
    if ops != [] {
      var before, n := ops[..|ops| - 1], |ops| - 1;
      LeafDecided(leaf, other, before, d, path);
      if SomeReaches(before, d, path) {
        var i :| 0 <= i < |before| && Reaches(before[i], d, path);
        assert Reaches(ops[i], d, path);
      }
      assert SomeReaches(ops, d, path) && !Reaches(ops[n], d, path) ==> SomeReaches(before, d, path) by {
        if i :| 0 <= i < |ops| && Reaches(ops[i], d, path) {
          if i < n { assert Reaches(before[i], d, path); }
        }
      }
    }
  }

  /** Some overlay of the list reaches the path. */
  ghost predicate Covers(os: seq<Applied>, d: Cell, path: Path) {
    exists i :: 0 <= i < |os| && os[i].cell == d && !Diverges(os[i].patch, path)
  }

  /** Removing overlays clears the leaves they reach and keeps the others. */
  lemma {:induction false} RemovesLeaf(leaf: Option<Json>, os: seq<Applied>, d: Cell, path: Path)
    ensures LeafAfter(leaf, Removes(os), d, path) == if Covers(os, d, path) then None else leaf
  {
    hide Diverges;
    if os != [] {
      var rest, op := os[1..], Remove(os[0].cell, os[0].patch);
      RemovesLeaf(leaf, rest, d, path);
      LeafSnoc(leaf, Removes(rest), op, d, path);
      if Covers(rest, d, path) {
        var i :| 0 <= i < |rest| && rest[i].cell == d && !Diverges(rest[i].patch, path);
        assert os[i + 1] == rest[i];
      }
      if i :| 0 <= i < |os| && os[i].cell == d && !Diverges(os[i].patch, path) {
        if i > 0 { assert rest[i - 1] == os[i]; }
      }
    }
  }

  lemma {:induction false} RemovesShape(os: seq<Applied>)
    requires forall i :: 0 <= i < |os| ==> os[i].patch.Obj?
    ensures forall i :: 0 <= i < |Removes(os)| ==> Removes(os)[i].patch.Obj?
  {
    if os != [] { RemovesShape(os[1..]); }
  }

  lemma {:induction false} AddsShape(os: seq<Applied>)
    ensures forall i :: 0 <= i < |Adds(os)| ==> Adds(os)[i].Add?
  {
    if os != [] { AddsShape(os[..|os| - 1]); }
  }

  // ---------------------------------------------------------------- recorded and unrecorded overlays

  lemma CoversMore(os: seq<Applied>, o: Applied, d: Cell, path: Path)
    ensures Covers(os + [o], d, path) <==> Covers(os, d, path) || (o.cell == d && !Diverges(o.patch, path))
  {
    hide Diverges;
    if i :| 0 <= i < |os| && os[i].cell == d && !Diverges(os[i].patch, path) { assert (os + [o])[i] == os[i]; }
    assert (os + [o])[|os|] == o;
  }

  /** Where no recorded overlay reaches, the unrecorded ones alone decide. */
  lemma {:induction false} OnlyUnrecorded(leaf: Option<Json>, want: seq<Intent>, d: Cell, path: Path)
    requires !Covers(OverlaysWhere(want, {true}), d, path)
    ensures LeafAfter(leaf, Adds(Overlays(want)), d, path) ==
              LeafAfter(leaf, Adds(OverlaysWhere(want, {false})), d, path)
  {
    hide Diverges, Puts, Adds, LeafAfter, Covers;
    if want != [] {
      var want', last := want[..|want| - 1], want[|want| - 1];
      var named, unnamed, all := OverlaysWhere(want', {true}), OverlaysWhere(want', {false}), Overlays(want');
      if last.MergeTo? {
        var o := Applied(last.cell, last.patch);
        CoversMore(named, o, d, path);
        OnlyUnrecorded(leaf, want', d, path);
        AddLast(all, o);
        LeafSnoc(leaf, Adds(all), Add(o.cell, o.patch), d, path);
        if !last.recorded {
          AddLast(unnamed, o);
          LeafSnoc(leaf, Adds(unnamed), Add(o.cell, o.patch), d, path);
        }
      } else {
        OnlyUnrecorded(leaf, want', d, path);
      }
    }
  }

  /** A leaf after an install with these overlays, other writes, and the uninstall. */
  ghost function Remains(leaf: Option<Json>, named: seq<Applied>, unnamed: seq<Applied>, others: seq<Op>,
                         d: Cell, path: Path): Option<Json>
  {
    if Covers(named, d, path) then None else LeafAfter(leaf, Adds(unnamed) + others, d, path)
  }

  /** Install, other patches, uninstall, for every list of overlays and every store to start from: a leaf
      that a recorded overlay reaches is gone, and every other leaf is what the unrecorded overlays
      and the other patches make of it. */
  lemma InstallThenUninstall(st0: Store, cs: seq<Change>, want: seq<Intent>, others: seq<Op>, d: Cell, path: Path)
    requires Sound(st0, cs) && Follows([], cs, want, true) && d.ConfigCell?
    requires forall k :: 0 <= k < |want| ==> (want[k].MergeTo? <==> want[k].cell.ConfigCell?)
    requires forall k :: 0 <= k < |want| && want[k].MergeTo? ==> want[k].patch.Obj?
    requires forall i :: 0 <= i < |others| ==> others[i].Other?
    ensures var named, unnamed := OverlaysWhere(want, {true}), OverlaysWhere(want, {false});
            var installed := After(View(st0, d), cs, d);
            var uninstalled := RunOn(RunOn(installed, others, d), Removes(named), d);
            Leaf(uninstalled, path) == Remains(Leaf(View(st0, d), path), named, unnamed, others, d, path)
  {
    hide View, After, RunOn, Leaf, LeafAfter, Covers, Adds, Removes, Overlays, OverlaysWhere, Sound, Follows;
    var named, unnamed := OverlaysWhere(want, {true}), OverlaysWhere(want, {false});
    var all, v0 := Overlays(want), View(st0, d);
    InstallMerges(st0, cs, want, d);
    AddsShape(all);
    RecordedShape(want);
    RemovesShape(named);
    RunLeaf(v0, Adds(all), d, path);
    RunLeaf(RunOn(v0, Adds(all), d), others, d, path);
    RunLeaf(RunOn(RunOn(v0, Adds(all), d), others, d), Removes(named), d, path);
    RemovesLeaf(LeafAfter(LeafAfter(Leaf(v0, path), Adds(all), d, path), others, d, path), named, d, path);
    if !Covers(named, d, path) {
      OnlyUnrecorded(Leaf(v0, path), want, d, path);
      LeafConcat(Leaf(v0, path), Adds(unnamed), others, d, path);
    }
  }

  lemma {:induction false} RecordedShape(want: seq<Intent>)
    requires forall k :: 0 <= k < |want| && want[k].MergeTo? ==> want[k].patch.Obj?
    ensures forall i :: 0 <= i < |OverlaysWhere(want, {true})| ==> OverlaysWhere(want, {true})[i].patch.Obj?
  {
    if want != [] { RecordedShape(want[..|want| - 1]); }
  }

  /** No trace: the leaf is what the others alone would have made of it. */
  ghost predicate NoTrace(leaf: Option<Json>, named: seq<Applied>, unnamed: seq<Applied>, others: seq<Op>, d: Cell,
                          path: Path)
  {
    Remains(leaf, named, unnamed, others, d, path) == LeafAfter(leaf, others, d, path)
  }

  /** Where a recorded overlay reaches, the others alone leave nothing; elsewhere another patch reaches
      the leaf or the unrecorded overlays did not change it. */
  ghost predicate Harmless(leaf: Option<Json>, named: seq<Applied>, unnamed: seq<Applied>, others: seq<Op>, d: Cell,
                           path: Path)
  {
    if Covers(named, d, path) then LeafAfter(leaf, others, d, path) == None
    else SomeReaches(others, d, path) || LeafAfter(leaf, Adds(unnamed), d, path) == leaf
  }

  /** Exactly when an install and uninstall leave no trace on a leaf. */
  lemma NoTraceExactly(leaf: Option<Json>, named: seq<Applied>, unnamed: seq<Applied>, others: seq<Op>, d: Cell,
                       path: Path)
    ensures NoTrace(leaf, named, unnamed, others, d, path) <==> Harmless(leaf, named, unnamed, others, d, path)
  {
    hide Leaf, LeafAfter, Covers, SomeReaches, Adds;
    LeafConcat(leaf, Adds(unnamed), others, d, path);
    LeafDecided(LeafAfter(leaf, Adds(unnamed), d, path), leaf, others, d, path);
    LeafDecided(leaf, leaf, others, d, path);
  }

  /** With nobody else writing: a key keeps no trace exactly when the leaves that recorded overlays reach
      were not there before, and no unrecorded overlay changed a leaf that no recorded one reaches. */
  lemma KeyHasNoTrace(v0: Option<Json>, named: seq<Applied>, unnamed: seq<Applied>, d: Cell)
    ensures (forall path :: NoTrace(Leaf(v0, path), named, unnamed, [], d, path)) <==>
              && (forall path :: Covers(named, d, path) ==> Leaf(v0, path) == None)
              && (forall path :: !Covers(named, d, path) ==>
                    LeafAfter(Leaf(v0, path), Adds(unnamed), d, path) == Leaf(v0, path))
  {
    hide Leaf, Covers, Adds, NoTrace;
    forall path
      ensures NoTrace(Leaf(v0, path), named, unnamed, [], d, path) <==>
                if Covers(named, d, path) then Leaf(v0, path) == None
                else LeafAfter(Leaf(v0, path), Adds(unnamed), d, path) == Leaf(v0, path)
    {
      NoTraceExactly(Leaf(v0, path), named, unnamed, [], d, path);
    }
  }
}
