/**
 Installing a pack: apply everything step by step, and on any failure undo, in reverse, what was
 recorded as applied (cmd/cordumctl/pack.go).
 */
module PackInstall {
  import opened Wrappers
  import opened JsonValue
  import opened PackStore
  import MergePatch
  import opened Text

  // ---------------------------------------------------------------- what an install did

  /** One write of an install: the value now in the cell, and the value a rollback puts there.
      Overlays without a name are applied but not recorded for rollback. */
  datatype Change = Change(cell: Cell, value: Option<Json>, undo: Option<Json>, recorded: bool)

  /** The value of cell `d`, which held `v0`, after these changes. */
  function After(v0: Option<Json>, cs: seq<Change>, d: Cell): Option<Json> {
    if cs == [] then v0
    else if cs[|cs| - 1].cell == d then cs[|cs| - 1].value
    else After(v0, cs[..|cs| - 1], d)
  }

  ghost predicate Reached(st0: Store, st: Store, cs: seq<Change>) {
    forall d :: RealCell(d) ==> View(st, d) == After(View(st0, d), cs, d)
  }

  function Recorded(cs: seq<Change>): seq<Change> {
    if cs == [] then []
    else Recorded(cs[..|cs| - 1]) + (if cs[|cs| - 1].recorded then [cs[|cs| - 1]] else [])
  }

  /** The value of `d`, which held `v`, after undoing `rs` from last to first where `oks` says so. */
  function Undone(v: Option<Json>, rs: seq<Change>, oks: seq<bool>, d: Cell): Option<Json>
    requires |oks| == |rs|
  {
    if rs == [] then v
    else if oks[0] && rs[0].cell == d then rs[0].undo
    else Undone(v, rs[1..], oks[1..], d)
  }

  predicate AllTrue(oks: seq<bool>) {
    forall i :: 0 <= i < |oks| ==> oks[i]
  }

  /** What each recorded undo value is: nothing for a topic, the pre-install value for a schema or
      workflow, the value just before the overlay otherwise. */
  ghost predicate SoundAt(st0: Store, cs: seq<Change>, i: int)
    requires 0 <= i < |cs|
  {
    var c := cs[i];
    && RealCell(c.cell)
    && (!c.recorded ==> c.cell.ConfigCell? || c.cell.FragmentCell?)
    && (c.cell.TopicCell? ==> c.undo == None)
    && (c.cell.SchemaCell? || c.cell.WorkflowCell? ==> c.undo == View(st0, c.cell))
    && (c.cell.ConfigCell? || c.cell.FragmentCell? ==> c.undo == After(View(st0, c.cell), cs[..i], c.cell))
  }

  ghost predicate Sound(st0: Store, cs: seq<Change>) {
    forall i :: 0 <= i < |cs| ==> SoundAt(st0, cs, i)
  }

  /** The changes before the first recorded one on `d`. */
  function Lead(cs: seq<Change>, d: Cell): seq<Change> {
    if cs == [] || (cs[0].recorded && cs[0].cell == d) then [] else [cs[0]] + Lead(cs[1..], d)
  }

  // ---------------------------------------------------------------- rollback arithmetic

  lemma AfterSnoc(v0: Option<Json>, cs: seq<Change>, c: Change, d: Cell)
    ensures After(v0, cs + [c], d) == if c.cell == d then c.value else After(v0, cs, d)
    ensures Recorded(cs + [c]) == Recorded(cs) + (if c.recorded then [c] else [])
  {
    assert (cs + [c])[..|cs|] == cs;
  }

  lemma SoundSnoc(st0: Store, cs: seq<Change>, c: Change)
    requires Sound(st0, cs) && SoundAt(st0, cs + [c], |cs|)
    ensures Sound(st0, cs + [c])
  {
    hide View, After;
    forall i | 0 <= i < |cs + [c]| ensures SoundAt(st0, cs + [c], i) {
      if i < |cs| {
        assert SoundAt(st0, cs, i);
        assert (cs + [c])[..i] == cs[..i];
      }
    }
  }

  /** One more sound write. */
  lemma OneMore(st0: Store, st: Store, st': Store, cs: seq<Change>, c: Change)
    requires Reached(st0, st, cs) && Sound(st0, cs) && RealCell(c.cell) && Wrote(st, st', c.cell, c.value)
    requires SoundAt(st0, cs + [c], |cs|)
    ensures Reached(st0, st', cs + [c]) && Sound(st0, cs + [c])
    ensures Recorded(cs + [c]) == Recorded(cs) + (if c.recorded then [c] else [])
  {
    hide View, After, RealCell, Recorded;
    forall d | RealCell(d) ensures View(st', d) == After(View(st0, d), cs + [c], d) {
      AfterSnoc(View(st0, d), cs, c, d);
    }
    AfterSnoc(None, cs, c, c.cell);
    SoundSnoc(st0, cs, c);
  }

  lemma {:induction false} RecordedCons(c: Change, cs: seq<Change>)
    ensures Recorded([c] + cs) == (if c.recorded then [c] else []) + Recorded(cs)
    decreases |cs|
  {
    if cs == [] {
      assert [c] + cs == [c] && [c][..0] == [];
    } else {
      var cs' := cs[..|cs| - 1];
      RecordedCons(c, cs');
      assert ([c] + cs)[..|cs|] == [c] + cs';
    }
  }

  /** Undoing everything puts into a cell what its first recorded change says; without one the
      cell keeps what the install left there. */
  lemma {:induction false} UndoneIsFirst(v: Option<Json>, cs: seq<Change>, oks: seq<bool>, d: Cell)
    requires |oks| == |Recorded(cs)| && AllTrue(oks)
    ensures var i := |Lead(cs, d)|;
            && i <= |cs| && Lead(cs, d) == cs[..i]
            && (i < |cs| ==> cs[i].recorded && cs[i].cell == d)
            && Undone(v, Recorded(cs), oks, d) == if i < |cs| then cs[i].undo else v
    decreases |cs|
  {
    hide Recorded, AllTrue;
    LeadIsPrefix(cs, d);
    if cs == [] {
      assert Recorded(cs) == [] by { NoneRecorded(); }
    } else {
      RecordedSplit(cs);
      if !cs[0].recorded {
        UndoneIsFirst(v, cs[1..], oks, d);
      } else if cs[0].cell != d {
        TailTrue(oks);
        UndoneIsFirst(v, cs[1..], oks[1..], d);
      } else {
        TailTrue(oks);
      }
    }
  }

  lemma NoneRecorded()
    ensures Recorded([]) == []
  {}

  lemma RecordedSplit(cs: seq<Change>)
    requires cs != []
    ensures if cs[0].recorded
              then Recorded(cs) != [] && Recorded(cs)[0] == cs[0] && Recorded(cs)[1..] == Recorded(cs[1..])
            else Recorded(cs) == Recorded(cs[1..])
  {
    RecordedCons(cs[0], cs[1..]);
    assert cs == [cs[0]] + cs[1..];
    hide Recorded;
  }

  lemma TailTrue(oks: seq<bool>)
    requires AllTrue(oks) && oks != []
    ensures oks[0] && AllTrue(oks[1..])
  {}

  lemma {:induction false} AfterUntouched(v0: Option<Json>, cs: seq<Change>, d: Cell)
    requires forall i :: 0 <= i < |cs| ==> cs[i].cell != d
    ensures After(v0, cs, d) == v0
  {
    if cs != [] { AfterUntouched(v0, cs[..|cs| - 1], d); }
  }

  /** No recorded change on `d` precedes the first recorded one. */
  lemma {:induction false} LeadUnrecorded(cs: seq<Change>, d: Cell, k: nat)
    requires k < |Lead(cs, d)|
    ensures |Lead(cs, d)| <= |cs| && Lead(cs, d)[k] == cs[k] && !(cs[k].recorded && cs[k].cell == d)
  {
    LeadIsPrefix(cs, d);
    if k > 0 { LeadUnrecorded(cs[1..], d, k - 1); }
  }

  lemma {:induction false} LeadIsPrefix(cs: seq<Change>, d: Cell)
    ensures Lead(cs, d) <= cs
  {
    if cs != [] && !(cs[0].recorded && cs[0].cell == d) {
      LeadIsPrefix(cs[1..], d);
      assert cs == [cs[0]] + cs[1..];
    }
  }

  /** The exact outcome of a failed install whose undo calls all succeed: every cell but a
      registered topic's holds what the overlays before its first recorded change left there,
      and every registered topic is gone. */
  lemma RollbackOutcome(st0: Store, st: Store, st': Store, cs: seq<Change>, oks: seq<bool>, d: Cell)
    requires Reached(st0, st, cs) && Sound(st0, cs) && RealCell(d)
    requires |oks| == |Recorded(cs)| && AllTrue(oks)
    requires View(st', d) == Undone(View(st, d), Recorded(cs), oks, d)
    ensures if d.TopicCell? && (exists i :: 0 <= i < |cs| && cs[i].cell == d) then View(st', d) == None
            else View(st', d) == After(View(st0, d), Lead(cs, d), d)
  {
    UndoneIsFirst(View(st, d), cs, oks, d);
    var i := |Lead(cs, d)|;
    if i < |cs| {
      assert SoundAt(st0, cs, i);
      if d.SchemaCell? || d.WorkflowCell? {
        forall k | 0 <= k < i ensures cs[..i][k].cell != d {
          LeadUnrecorded(cs, d, k);
          assert SoundAt(st0, cs, k);
        }
        AfterUntouched(View(st0, d), cs[..i], d);
      }
    } else {
      assert cs[..i] == cs;
      if d.TopicCell? {
        forall k | 0 <= k < |cs| ensures cs[k].cell != d {
          LeadUnrecorded(cs, d, k);
          assert SoundAt(st0, cs, k);
        }
      }
    }
  }

  /** With every change recorded, nothing precedes the first recorded change on a cell. */
  lemma AllRecordedRestores(v0: Option<Json>, cs: seq<Change>, d: Cell)
    requires forall i :: 0 <= i < |cs| ==> cs[i].recorded
    ensures After(v0, Lead(cs, d), d) == v0
  {
    LeadIsPrefix(cs, d);
    forall k | 0 <= k < |Lead(cs, d)| ensures Lead(cs, d)[k].cell != d {
      LeadUnrecorded(cs, d, k);
    }
    AfterUntouched(v0, Lead(cs, d), d);
  }

  // ---------------------------------------------------------------- what an install means to do

  /** A write an install asks for: set a cell, or merge a patch into it; and whether it is to be
      recorded for rollback. */
  datatype Intent = SetTo(cell: Cell, value: Json, recorded: bool) | MergeTo(cell: Cell, patch: Json, recorded: bool)

  /** A key that is not there merges like null. */
  function Value(v: Option<Json>): Json {
    if v.Some? then v.value else Null
  }

  /** The change carried the intent out on the value it found. */
  predicate Realizes(c: Change, i: Intent) {
    && c.cell == i.cell && c.recorded == i.recorded
    && match i
       case SetTo(_, v, _) => c.value == Some(v)
       case MergeTo(_, patch, _) =>
         c.value == Some(MergePatch.MergeInto(Value(c.undo), patch))
  }

  /** The intents of a list of resources, in order; some resources need no write. */
  function Collect<T>(xs: seq<T>, f: T -> Option<Intent>): seq<Intent> {
    if xs == [] then []
    else
      var last := f(xs[|xs| - 1]);
      Collect(xs[..|xs| - 1], f) + (if last.Some? then [last.value] else [])
  }

  lemma CollectNext<T>(xs: seq<T>, f: T -> Option<Intent>, i: nat)
    requires i < |xs|
    ensures Collect(xs[..i + 1], f) == Collect(xs[..i], f) + (if f(xs[i]).Some? then [f(xs[i]).value] else [])
  {
    assert xs[..i + 1][..i] == xs[..i];
  }

  lemma {:induction false} CollectPrefix<T>(xs: seq<T>, f: T -> Option<Intent>, i: nat)
    requires i <= |xs|
    ensures Collect(xs[..i], f) <= Collect(xs, f)
    decreases |xs|
  {
    if i == |xs| {
      assert xs[..i] == xs;
    } else {
      CollectPrefix(xs[..|xs| - 1], f, i);
      assert xs[..|xs| - 1][..i] == xs[..i];
    }
  }

  /** The changes after `before` carry out the intents one by one: all of them if `complete`, else
      those before the failing step. */
  ghost predicate Follows(before: seq<Change>, all: seq<Change>, want: seq<Intent>, complete: bool) {
    && before <= all && |all| - |before| <= |want|
    && (complete ==> |all| - |before| == |want|)
    && forall k :: 0 <= k < |all| - |before| ==> Realizes(all[|before| + k], want[k])
  }

  lemma FollowsSnoc(before: seq<Change>, all: seq<Change>, want: seq<Intent>, c: Change, i: Intent)
    requires Follows(before, all, want, true) && Realizes(c, i)
    ensures Follows(before, all + [c], want + [i], true)
  {
    hide Realizes;
  }

  lemma FollowsPrefix(before: seq<Change>, all: seq<Change>, want: seq<Intent>, more: seq<Intent>)
    requires Follows(before, all, want, true) && want <= more
    ensures Follows(before, all, more, false)
  {
    hide Realizes;
  }

  lemma FollowsThen(a: seq<Change>, b: seq<Change>, c: seq<Change>, want: seq<Intent>, more: seq<Intent>,
                    complete: bool)
    requires Follows(a, b, want, true) && Follows(b, c, more, complete)
    ensures Follows(a, c, want + more, complete)
  {
    hide Realizes;
    forall k | 0 <= k < |c| - |a| ensures Realizes(c[|a| + k], (want + more)[k]) {
      if k < |want| { assert c[|a| + k] == b[|a| + k]; } else { assert c[|a| + k] == c[|b| + (k - |want|)]; }
    }
  }

  lemma FollowsMore(a: seq<Change>, c: seq<Change>, want: seq<Intent>, more: seq<Intent>)
    requires Follows(a, c, want, false)
    ensures Follows(a, c, want + more, false)
  {
    hide Realizes;
  }
}
