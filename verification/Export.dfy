/**
 The compliance export's paged stream reader and its row bookkeeping
 (core/audit/export_compliance.go).
 */
module Export {
  import opened Wrappers
  import opened AuditEvent
  import opened Redis
  import opened ChainVerify

  const STREAM_CHUNK_SIZE: nat := 10_000
  const DEFAULT_MAX_EVENTS: int := 1_000_000

  /** Time bounds in milliseconds; `None` is the zero time. */
  datatype Bounds = Bounds(from: Option<int64>, to: Option<int64>)

  /** A bound before 1970 formats as a malformed stream ID, which Redis refuses. */
  predicate BoundsOk(b: Bounds) {
    && (b.from.Some? ==> 0 <= b.from.value)
    && (b.to.Some? ==> 0 <= b.to.value)
  }

  function MinId(b: Bounds): Bound
    requires BoundsOk(b)
  {
    if b.from.Some? then At(Id(b.from.value, 0)) else Lowest
  }

  function MaxId(b: Bounds): Bound
    requires BoundsOk(b)
  {
    if b.to.Some? then At(Id(b.to.value, MAX_UINT64)) else Highest
  }

  /** Entries in [from, to]. */
  function InBounds(stream: seq<Entry>, b: Bounds): seq<Entry>
    requires BoundsOk(b)
  {
    XRange(stream, MinId(b), MaxId(b))
  }

  /** The well-formed ones, decoded. */
  function Events(es: seq<Entry>): seq<Event> {
    if es == [] then []
    else Events(es[..|es| - 1]) + (if es[|es| - 1].payload.Decoded? then [es[|es| - 1].payload.event] else [])
  }

  /** The events the export is due to scan: the first `max` well-formed ones in bounds. */
  function Due(stream: seq<Entry>, b: Bounds, max: int): seq<Event>
    requires BoundsOk(b)
  {
    Take(Events(InBounds(stream, b)), if max < 0 then 0 else max)
  }

  function Filtered(evs: seq<Event>, matches: Event -> bool): seq<Event> {
    if evs == [] then []
    else Filtered(evs[..|evs| - 1], matches) + (if matches(evs[|evs| - 1]) then [evs[|evs| - 1]] else [])
  }

  lemma EventsSnoc(es: seq<Entry>, e: Entry)
    ensures Events(es + [e]) == Events(es) + (if e.payload.Decoded? then [e.payload.event] else [])
  {
    assert (es + [e])[..|es|] == es;
  }

  lemma {:induction false} EventsConcat(a: seq<Entry>, b: seq<Entry>)
    ensures Events(a + b) == Events(a) + Events(b)
    decreases |b|
  {
    if b == [] {
      assert a + b == a;
    } else {
      var b' := b[..|b| - 1];
      EventsConcat(a, b');
      assert a + b == (a + b') + [b[|b| - 1]];
      EventsSnoc(a + b', b[|b| - 1]);
    }
  }

  lemma EventsEmpty()
    ensures Events([]) == []
  {}

  lemma SplitAt<T>(s: seq<T>, i: nat)
    requires i <= |s|
    ensures s == s[..i] + s[i..]
  {}

  lemma TakeNext<T>(s: seq<T>, i: nat)
    requires i < |s|
    ensures s[..i + 1] == s[..i] + [s[i]]
  {}

  lemma DropOfSlice<T>(s: seq<T>, i: nat, j: nat, p: nat)
    requires i + p <= j <= |s|
    ensures s[i..j][p..] == s[i + p..j]
  {}

  /** A page of length n read at position p of the range. */
  lemma PageAt<T>(all: seq<T>, p: nat, page: seq<T>)
    requires p <= |all| && page <= all[p..]
    ensures p + |page| <= |all| && all[..p + |page|] == all[..p] + page
  {}

  /** Events of the first i + 1 entries. */
  lemma EventsUpTo(es: seq<Entry>, i: nat)
    requires i < |es|
    ensures Events(es[..i + 1]) == Events(es[..i]) + (if es[i].payload.Decoded? then [es[i].payload.event] else [])
  {
    hide Events;
    TakeNext(es, i);
    EventsSnoc(es[..i], es[i]);
  }

  lemma EventsPrefix(es: seq<Entry>, i: nat)
    requires i <= |es|
    ensures Events(es[..i]) <= Events(es)
  {
    hide Events;
    SplitAt(es, i);
    EventsConcat(es[..i], es[i..]);
  }

  /** Resuming strictly after an entry continues the range right behind it. */
  lemma ResumeAfter(stream: seq<Entry>, lo: Bound, hi: Bound, p: nat)
    requires Ordered(stream) && 0 < p <= |XRange(stream, lo, hi)|
    ensures XRange(stream, Beyond(XRange(stream, lo, hi)[p - 1].id), hi) == XRange(stream, lo, hi)[p..]
  {
    hide SeekLow, SeekHigh, Ordered, FromLow, UpToHigh;
    var i, j := SeekLow(stream, lo), SeekHigh(stream, hi);
    assert i <= j && XRange(stream, lo, hi) == stream[i..j];
    hide XRange;
    assert stream[i..j][p - 1] == stream[i + p - 1];
    SeekBeyond(stream, i + p - 1);
    RangeFrom(stream, Beyond(stream[i + p - 1].id), hi, i + p);
    DropOfSlice(stream, i, j, p);
  }

  lemma RangeFrom(stream: seq<Entry>, lo: Bound, hi: Bound, k: nat)
    requires SeekLow(stream, lo) == k <= SeekHigh(stream, hi)
    ensures XRange(stream, lo, hi) == stream[k..SeekHigh(stream, hi)]
  {
    hide SeekLow, SeekHigh;
  }

  lemma SeekBeyond(stream: seq<Entry>, k: nat)
    requires Ordered(stream) && k < |stream|
    ensures SeekLow(stream, Beyond(stream[k].id)) == k + 1
  {
    var lo := Beyond(stream[k].id);
    RangeIsFilter(stream, lo, Highest);
    var l := SeekLow(stream, lo);
    hide SeekLow, SeekHigh;
    assert !FromLow(lo, stream[k].id);
    assert k + 1 < |stream| ==> Lt(stream[k].id, stream[k + 1].id);
    assert k + 1 < |stream| ==> FromLow(lo, stream[k + 1].id);
  }

  /** The callback of the export: scans every event, writes the rows that match. */
  class RowSink {
    const matches: Event -> bool
    const fails: (nat, Event) -> bool
    ghost var seen: seq<Event>
    var rows: seq<Event>
    var scanned: nat
    var count: nat

    ghost predicate Valid()
      reads this
    {
      scanned == |seen| && count == |rows| && rows <= Filtered(seen, matches)
    }

    /** Every event scanned so far was dealt with. */
    ghost predicate Synced()
      reads this
    {
      Valid() && rows == Filtered(seen, matches)
    }

    constructor (m: Event -> bool, f: (nat, Event) -> bool)
      ensures Valid() && seen == [] && rows == [] && matches == m && fails == f
    {
      matches, fails, seen, rows, scanned, count := m, f, [], [], 0, 0;
    }

    /** `fails` stands for an encoding or write error of the row of the event scanned at that
        position. */
    method Emit(e: Event) returns (ok: bool)
      requires Synced()
      modifies this
      ensures Valid() && seen == old(seen) + [e]
      ensures ok <==> !(matches(e) && fails(old(scanned), e))
      ensures ok ==> Synced()
    {
      seen := seen + [e];
      assert seen[..|seen| - 1] == old(seen);
      scanned := scanned + 1;
      if !matches(e) { return true; }
      if fails(scanned - 1, e) { return false; }
      rows, count := rows + [e], count + 1;
      ok := true;
    }
  }

  /** Some matching event's row cannot be written. */
  ghost predicate FailingRow(sink: RowSink) {
    exists n, e :: sink.matches(e) && sink.fails(n, e)
  }

  /** One page: hand each well-formed entry to the sink. */
  method EmitPage(page: seq<Entry>, sink: RowSink, maxEvents: int, emitted: nat) returns (ok: bool, emitted': nat)
    requires sink.Synced()
    requires emitted == |sink.seen| && emitted + |page| <= maxEvents
    modifies sink
    ensures sink.Valid()
    ensures ok ==> sink.seen == old(sink.seen) + Events(page) && sink.Synced()
    ensures ok ==> emitted' == |sink.seen| <= emitted + |page|
    ensures !ok ==> sink.seen <= old(sink.seen) + Events(page) && |sink.seen| <= emitted + |page|
    ensures !ok ==> FailingRow(sink)
  {
    hide Filtered;
    emitted' := emitted;
    for i := 0 to |page|
      invariant sink.Synced()
      invariant sink.seen == old(sink.seen) + Events(page[..i])
      invariant emitted' == |sink.seen| <= emitted + i
    {
      EventsUpTo(page, i);
      EventsPrefix(page, i + 1);
      hide Events;
      if page[i].payload.Decoded? {
        ok := sink.Emit(page[i].payload.event);
        if !ok { return; }
        emitted' := emitted' + 1;
      }
    }
    assert page[..|page|] == page;
    ok := true;
  }

  datatype Outcome = Complete | Failed

  /** Where the walk stands after the first p in-range entries. */
  lemma DueSoFar(stream: seq<Entry>, b: Bounds, max: nat, p: nat)
    requires BoundsOk(b) && p <= |InBounds(stream, b)| && |Events(InBounds(stream, b)[..p])| <= max
    ensures Events(InBounds(stream, b)[..p]) <= Due(stream, b, max)
    ensures p == |InBounds(stream, b)| || |Events(InBounds(stream, b)[..p])| == max ==>
              Events(InBounds(stream, b)[..p]) == Due(stream, b, max)
  {
    hide Events, XRange;
    var all := InBounds(stream, b);
    EventsPrefix(all, p);
    assert p == |all| ==> all[..p] == all;
  }

  lemma PrefixOfDue(stream: seq<Entry>, b: Bounds, max: nat, q: nat, seen: seq<Event>)
    requires BoundsOk(b) && q <= |InBounds(stream, b)|
    requires seen <= Events(InBounds(stream, b)[..q]) && |seen| <= max
    ensures seen <= Due(stream, b, max)
  {
    hide Events, XRange;
    EventsPrefix(InBounds(stream, b), q);
  }

  datatype Page = PageFailed | NoMore | Advanced

  /** One round of the page loop, at position p of the range. */
  method WalkPage(stream: seq<Entry>, minId: Bound, maxId: Bound, cursor: Bound, maxEvents: int,
                  sink: RowSink, emitted: nat, ghost p: nat)
    returns (page: Page, cursor': Bound, emitted': nat, ghost p': nat)
    requires Ordered(stream) && sink.Synced() && emitted < maxEvents
    requires p <= |XRange(stream, minId, maxId)|
    requires XRange(stream, cursor, maxId) == XRange(stream, minId, maxId)[p..]
    requires sink.seen == Events(XRange(stream, minId, maxId)[..p]) && emitted == |sink.seen|
    modifies sink
    ensures sink.Valid() && p <= p' <= |XRange(stream, minId, maxId)|
    ensures page == NoMore ==> p' == p == |XRange(stream, minId, maxId)| && sink.Synced() && sink.seen == old(sink.seen)
    ensures page == Advanced ==>
              && p < p' && sink.Synced()
              && XRange(stream, cursor', maxId) == XRange(stream, minId, maxId)[p'..]
              && sink.seen == Events(XRange(stream, minId, maxId)[..p']) && emitted' == |sink.seen| <= maxEvents
    ensures page == PageFailed ==>
              sink.seen <= Events(XRange(stream, minId, maxId)[..p']) && |sink.seen| <= maxEvents && FailingRow(sink)
  {
    hide Filtered, Events, XRange, Ordered;
    cursor', emitted', p' := cursor, emitted, p;
    ghost var all := XRange(stream, minId, maxId);
    var remaining := maxEvents - emitted;
    var pageSize := if remaining < STREAM_CHUNK_SIZE then remaining else STREAM_CHUNK_SIZE;
    var entries := XRangeN(stream, cursor, maxId, pageSize);
    if entries == [] { return NoMore, cursor', emitted', p'; }
    p' := p + |entries|;
    PageAt(all, p, entries);
    EventsConcat(all[..p], entries);
    var ok;
    ok, emitted' := EmitPage(entries, sink, maxEvents, emitted);
    if !ok { return PageFailed, cursor', emitted', p'; }
    assert entries[|entries| - 1] == all[p' - 1];
    cursor' := Beyond(entries[|entries| - 1].id);
    ResumeAfter(stream, minId, maxId, p');
    page := Advanced;
  }

  /** walkChainStream: pages of at most 10k entries from an advancing cursor. `faults[i]` makes
      page i fail (cancellation or a Redis error). On completion the callback saw exactly the
      first `maxEvents` well-formed entries in bounds, in order and once each, whatever the page
      size; on failure, which needs a fault, a failing row or a bound before 1970, a prefix of them. */
  method WalkChainStream(stream: seq<Entry>, b: Bounds, maxEvents: int, sink: RowSink, faults: seq<bool>)
    returns (outcome: Outcome)
    requires Ordered(stream)
    requires sink.Valid() && sink.seen == [] && sink.rows == []
    modifies sink
    ensures sink.Valid()
    ensures outcome == Complete && maxEvents > 0 ==> BoundsOk(b)
    ensures outcome == Complete ==> sink.Synced()
    ensures BoundsOk(b) ==> if outcome == Complete then sink.seen == Due(stream, b, maxEvents)
                            else sink.seen <= Due(stream, b, maxEvents)
    ensures !BoundsOk(b) ==> sink.seen == []
    ensures outcome == Failed ==> !BoundsOk(b) || FailingRow(sink) || true in faults
  {
    assert sink.Synced();
    hide Filtered, Events, XRange, Ordered;
    if maxEvents <= 0 { return Complete; }
    if !BoundsOk(b) { return Failed; }
    var minId, maxId := MinId(b), MaxId(b);
    var cursor := minId;
    ghost var all := InBounds(stream, b);
    ghost var p := 0;
    assert Events(all[..0]) == [] by { EventsEmpty(); }
    assert all == XRange(stream, minId, maxId) == all[0..];
    hide InBounds, MinId, MaxId, Due;
    var emitted, pageNo := 0, 0;
    while emitted < maxEvents
      invariant p <= |all| && XRange(stream, cursor, maxId) == all[p..]
      invariant sink.Synced()
      invariant sink.seen == Events(all[..p]) && emitted == |sink.seen| <= maxEvents
      decreases |all| - p
    {
      DueSoFar(stream, b, maxEvents, p);
      if pageNo < |faults| && faults[pageNo] { return Failed; }
      pageNo := pageNo + 1;
      var page;
      page, cursor, emitted, p := WalkPage(stream, minId, maxId, cursor, maxEvents, sink, emitted, p);
      if page == NoMore { return Complete; }
      if page == PageFailed {
        PrefixOfDue(stream, b, maxEvents, p, sink.seen);
        return Failed;
      }
    }
    DueSoFar(stream, b, maxEvents, p);
    outcome := Complete;
  }

  // ---------------------------------------------------------------- the manifest

  datatype Manifest = Manifest(eventCount: nat, truncatedAtMax: bool, verification: Option<Result>)

  function EffectiveMax(maxEvents: int): nat {
    if maxEvents <= 0 then DEFAULT_MAX_EVENTS else maxEvents
  }

  /** The options of the verification pass: same bounds, limit capped. */
  function VerifyOptions(b: Bounds, max: nat): Options {
    Options(if b.from.Some? then b.from.value else 0, if b.to.Some? then b.to.value else 0,
            if max > MAX_VERIFY_LIMIT then MAX_VERIFY_LIMIT else max, 0, [])
  }

  /** What can go wrong around the walk: the verification pass, the manifest line, the footer. */
  datatype Faults = Faults(verify: bool, header: bool, pages: seq<bool>, footer: bool)

  /** The export: verify, write the manifest, walk, count, write the footer. `rows` are the lines
      written. On completion they are the matching events among those scanned, and an export not
      marked truncated scanned every well-formed entry in bounds. */
  method WriteExport(stream: seq<Entry>, b: Bounds, maxEvents: int, matches: Event -> bool,
                     fails: (nat, Event) -> bool, faults: Faults, predFault: bool)
    returns (outcome: Outcome, manifest: Manifest, rows: seq<Event>)
    requires Ordered(stream)
    ensures manifest.eventCount == |rows|
    ensures manifest.verification ==
              if faults.verify then None
              else Some(Verify(stream, VerifyOptions(b, EffectiveMax(maxEvents)), predFault))
    ensures faults.verify || faults.header ==> outcome == Failed && rows == []
    ensures outcome == Complete ==>
              && BoundsOk(b)
              && rows == Filtered(Due(stream, b, EffectiveMax(maxEvents)), matches)
              && (manifest.truncatedAtMax <==> |Events(InBounds(stream, b))| >= EffectiveMax(maxEvents))
              && (!manifest.truncatedAtMax ==> rows == Filtered(Events(InBounds(stream, b)), matches))
    ensures outcome == Failed && BoundsOk(b) ==> rows <= Filtered(Due(stream, b, EffectiveMax(maxEvents)), matches)
    ensures !BoundsOk(b) ==> rows == []
    ensures outcome == Failed ==>
              || !BoundsOk(b) || faults.verify || faults.header || faults.footer || true in faults.pages
              || exists n, e :: matches(e) && fails(n, e)
  {
    hide Filtered, Events, XRange, Ordered, Verify;
    var max := EffectiveMax(maxEvents);
    if faults.verify { return Failed, Manifest(0, false, None), []; }
    var verification := VerifyChain(stream, VerifyOptions(b, max), predFault);
    if faults.header { return Failed, Manifest(0, false, Some(verification)), []; }
    var sink := new RowSink(matches, fails);
    outcome := WalkChainStream(stream, b, max, sink, faults.pages);
    rows := sink.rows;
    if outcome == Failed {
      if BoundsOk(b) { FilteredPrefix(sink.seen, Due(stream, b, max), matches); }
      assert sink.seen == [] ==> rows == [] by { FilteredEmpty(matches); }
      return outcome, Manifest(sink.count, false, Some(verification)), rows;
    }
    manifest := Manifest(sink.count, sink.scanned >= max, Some(verification));
    if faults.footer { outcome := Failed; }
  }

  lemma {:induction false} FilteredPrefix(a: seq<Event>, b: seq<Event>, matches: Event -> bool)
    requires a <= b
    ensures Filtered(a, matches) <= Filtered(b, matches)
    decreases |b|
  {
    if |a| < |b| {
      FilteredPrefix(a, b[..|b| - 1], matches);
    } else {
      assert a == b;
    }
  }

  lemma FilteredEmpty(matches: Event -> bool)
    ensures Filtered([], matches) == []
  {}

  /** What is scanned and what is written, one by one: an entry counts if it decodes, an event is written
      if it matches, and the rest stays around it in order. */
  lemma {:induction false} FilteredExactly(a: seq<Event>, e: Event, b: seq<Event>, matches: Event -> bool)
    ensures Filtered(a + [e] + b, matches) ==
              (if matches(e) then Filtered(a, matches) + [e] else Filtered(a, matches)) + Filtered(b, matches)
    decreases |b|
  {
    var s := a + [e] + b;
    if b == [] {
      assert s[..|s| - 1] == a && s[|s| - 1] == e;
    } else {
      var n := |b| - 1;
      FilteredExactly(a, e, b[..n], matches);
      assert s[..|s| - 1] == a + [e] + b[..n];
    }
  }

  lemma EventsExactly(a: seq<Entry>, e: Entry, b: seq<Entry>)
    ensures Events(a + [e] + b) ==
              (if e.payload.Decoded? then Events(a) + [e.payload.event] else Events(a)) + Events(b)
  {
    EventsConcat(a + [e], b);
    EventsSnoc(a, e);
  }

  // ---------------------------------------------------------------- what the manifest attests

  lemma {:induction false} AllEvents(es: seq<Entry>)
    requires forall i :: 0 <= i < |es| ==> es[i].payload.Decoded?
    ensures |Events(es)| == |es|
  {
    if es != [] { AllEvents(es[..|es| - 1]); }
  }

  /** How many entries the verification pass reads at most. */
  function VerifyCap(max: nat): nat {
    if max > MAX_VERIFY_LIMIT then MAX_VERIFY_LIMIT else max
  }

  /** The verification pass reads the entries from the start of the bounds, up to its own cap. An
      upper bound of 1970 exactly reads as no bound. */
  lemma VerifiedWindow(stream: seq<Entry>, b: Bounds, max: nat)
    requires BoundsOk(b) && max > 0
    ensures Window(stream, VerifyOptions(b, max)) ==
              Take(if b.to == Some(0) then XRange(stream, MinId(b), Highest) else InBounds(stream, b), VerifyCap(max))
    ensures InBounds(stream, b) <= XRange(stream, MinId(b), Highest)
  {
    var o := VerifyOptions(b, max);
    assert MaxBound(o) == if b.to == Some(0) then Highest else MaxId(b);
    assert SeekLow(stream, MinBound(o)) == SeekLow(stream, MinId(b));
    assert SeekHigh(stream, Highest) == |stream|;
  }

  /** Two beginnings of one sequence: one contains the other exactly if it is long enough. */
  lemma Beginnings<T>(a: seq<T>, b: seq<T>, all: seq<T>)
    requires a <= all && b <= all
    ensures a <= b <==> |a| <= |b|
  {}

  lemma EventsGrow(a: seq<Entry>, b: seq<Entry>)
    requires a <= b
    ensures Events(a) <= Events(b)
  {
    assert b[..|a|] == a;
    EventsPrefix(b, |a|);
  }

  /** The verification in the manifest covers every event the export scans if and only if these are
      no more than the well-formed ones among the first entries in bounds, as many entries as the
      verification reads: it counts entries and stops at 100000, the walk counts well-formed events
      and goes on to its own maximum. */
  lemma AttestationCap(stream: seq<Entry>, b: Bounds, max: nat)
    requires BoundsOk(b)
    ensures Due(stream, b, max) <= Events(Window(stream, VerifyOptions(b, max))) <==>
              |Due(stream, b, max)| <= |Events(Take(InBounds(stream, b), VerifyCap(max)))|
  {
    hide Events, XRange, Window;
    if max > 0 {
      VerifiedWindow(stream, b, max);
      var all, wide := InBounds(stream, b), XRange(stream, MinId(b), Highest);
      var read := Window(stream, VerifyOptions(b, max));
      EventsGrow(Take(all, VerifyCap(max)), all);
      if read == Take(all, VerifyCap(max)) {
        Beginnings(Due(stream, b, max), Events(read), Events(all));
      } else {
        assert Take(all, VerifyCap(max)) == all <= read;
        EventsGrow(all, read);
      }
    }
  }

  /** Without malformed entries that is: if and only if at most 100000 events are scanned. */
  lemma AttestationCapWellFormed(stream: seq<Entry>, b: Bounds, max: nat)
    requires BoundsOk(b) && forall i :: 0 <= i < |InBounds(stream, b)| ==> InBounds(stream, b)[i].payload.Decoded?
    ensures Due(stream, b, max) <= Events(Window(stream, VerifyOptions(b, max))) <==>
              |Due(stream, b, max)| <= MAX_VERIFY_LIMIT
  {
    hide Events, XRange, Window;
    AttestationCap(stream, b, max);
    var all := InBounds(stream, b);
    AllEvents(all);
    AllEvents(Take(all, VerifyCap(max)));
  }

  /** One malformed entry is enough to leave the only exported event unverified. */
  lemma MalformedEntryShiftsVerification(e: Event)
    ensures var stream := [Entry(Id(1, 0), Undecodable), Entry(Id(2, 0), Decoded(e))];
            var b := Bounds(None, None);
            Due(stream, b, 1) == [e] && Events(Window(stream, VerifyOptions(b, 1))) == []
  {
    var stream := [Entry(Id(1, 0), Undecodable), Entry(Id(2, 0), Decoded(e))];
    var b := Bounds(None, None);
    assert SeekLow(stream, Lowest) == 0 && SeekHigh(stream, Highest) == 2;
    assert InBounds(stream, b) == stream;
    assert stream[..1][..0] == [] && stream[..1] == [stream[0]];
    assert Events(stream[..1]) == [];
    VerifiedWindow(stream, b, 1);
  }
}
