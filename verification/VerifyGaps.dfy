/**
 Which entries a report blames (core/audit/chain_verify.go): what a window covers, and which entry each
 hash, HMAC and order gap stands for.
 */
module VerifyGaps {
  import opened Wrappers
  import opened AuditEvent
  import opened Redis
  import opened ChainVerify
  import opened VerifyAccounting
  import VerifyWindows

  // ---------------------------------------------------------------- what is read

  /** The entry is between the two times, given in milliseconds; 0 or less is no bound. */
  predicate InTime(o: Options, e: Entry) {
    (o.sinceMs > 0 ==> e.id.ms >= o.sinceMs) && (o.untilMs > 0 ==> e.id.ms <= o.untilMs)
  }

  /** A window is a stretch of the stream that holds the entries in time, oldest first: all of them, or
      as many as the limit says, which is 10000 unless given and never above 100000. */
  lemma WindowReads(stream: seq<Entry>, o: Options) returns (i: nat)
    requires Ordered(stream)
    ensures var es := Window(stream, o);
            var limit := if o.limit <= 0 then 10_000 else if o.limit > 100_000 then 100_000 else o.limit;
            && i + |es| <= |stream| && es == stream[i..i + |es|] && |es| <= limit
            && (forall k :: 0 <= k < i ==> !InTime(o, stream[k]))
            && (forall k :: i <= k < i + |es| ==> InTime(o, stream[k]))
            && (|es| < limit ==> forall k :: i + |es| <= k < |stream| ==> !InTime(o, stream[k]))
  {
    var lo, hi := SeekLow(stream, MinBound(o)), SeekHigh(stream, MaxBound(o));
    RangeIsFilter(stream, MinBound(o), MaxBound(o));
    forall k | 0 <= k < |stream| ensures InTime(o, stream[k]) <==> lo <= k < hi {
      BoundsAreTimes(o, stream[k].id);
    }
    hide SeekLow, SeekHigh;
    i := if lo <= hi then lo else 0;
    if lo > hi { assert Window(stream, o) == []; }
  }

  lemma BoundsAreTimes(o: Options, id: StreamId)
    ensures FromLow(MinBound(o), id) <==> (o.sinceMs > 0 ==> id.ms >= o.sinceMs)
    ensures UpToHigh(MaxBound(o), id) <==> (o.untilMs > 0 ==> id.ms <= o.untilMs)
  {}

  // ---------------------------------------------------------------- what is blamed

  /** What an entry is compared with: the last decoded event before it, or what the walk started from. */
  datatype Prev = Prev(known: bool, hash: Hash, seq_: int64)

  function PrevOf(w: Walker, es: seq<Entry>): Prev {
    if es == [] then Prev(w.hasPrev, w.prevHash, w.prevSeq)
    else match es[|es| - 1].payload
    case Decoded(e) => Prev(true, e.eventHash, e.seq_)
    case _ => PrevOf(w, es[..|es| - 1])
  }

  /** The entry fails this check, and carries this seq. An entry that does not decode carries the one due
      next. */
  predicate Fails(kind: GapType, prev: Prev, key: Key, entry: Entry, q: int64) {
    match entry.payload
    case Decoded(e) =>
      && q == e.seq_
      && (match kind
          case HashMismatch => !VerifyEventHash(e) || (prev.known && e.prevHash != prev.hash)
          case HmacMismatch => key != [] && !VerifyEventHMAC(e, key)
          case OutOfOrder => prev.known && e.seq_ < prev.seq_
          case _ => false)
    case _ => kind == HashMismatch && q == Inc(prev.seq_)
  }

  lemma {:induction false} RunHasOneKind(lo: int, hi: int, kind: GapType, g: Gap)
    requires MIN_INT64 <= lo && hi <= MAX_INT64 + 1
    ensures g in GapRun(lo, hi, kind) ==> g.kind == kind
    decreases hi - lo
  {
    if lo < hi { RunHasOneKind(lo + 1, hi, kind, g); }
  }

  /** The gaps one entry adds. */
  lemma EntryGaps(w: Walker, first: bool, o: Options, entry: Entry, kind: GapType, q: int64)
    requires kind in {HashMismatch, HmacMismatch, OutOfOrder}
    ensures Gap(q, kind) in WalkEntry(w, first, o, entry).r.gaps <==>
              Gap(q, kind) in w.r.gaps || Fails(kind, Prev(w.hasPrev, w.prevHash, w.prevSeq), o.hmacKey, entry, q)
  {
    hide VerifyEventHash, GapRun;
    match entry.payload
    case Decoded(e) =>
      var g, prev := Gap(q, kind), Prev(w.hasPrev, w.prevHash, w.prevSeq);
      var high := (if e.seq_ - 1 > MAX_TRIMMED_GAPS then MAX_TRIMMED_GAPS else e.seq_ - 1) + 1;
      RunHasOneKind(1, high, RetentionTrimmed, g);
      RunHasOneKind(Inc(w.prevSeq), e.seq_, Missing, g);
      assert g !in TrimmedGaps(first, o, e.seq_);
      assert g in OrderGaps(w, e.seq_) <==> kind == OutOfOrder && q == e.seq_ && w.hasPrev && e.seq_ < w.prevSeq;
      assert g in HashGaps(w, e) <==> kind == HashMismatch && Fails(kind, prev, o.hmacKey, entry, q);
      assert g in HmacGaps(o.hmacKey, e) <==> kind == HmacMismatch && Fails(kind, prev, o.hmacKey, entry, q);
      hide TrimmedGaps, OrderGaps, HashGaps, HmacGaps, VerifyEventHMAC;
    case _ =>
  }

  lemma {:induction false} WalkPrev(w: Walker, first: bool, o: Options, es: seq<Entry>)
    ensures var v := Walk(w, first, o, es); Prev(v.hasPrev, v.prevHash, v.prevSeq) == PrevOf(w, es)
    decreases |es|
  {
    hide EventGaps, OrderGaps, HashGaps, HmacGaps, VerifyEventHMAC;
    if es != [] {
      var n := |es| - 1;
      WalkPrev(w, first, o, es[..n]);
      WalkLast(w, first, o, es);
    }
  }

  lemma WalkLast(w: Walker, first: bool, o: Options, es: seq<Entry>)
    requires es != []
    ensures var n := |es| - 1;
            Walk(w, first, o, es) == WalkEntry(Walk(w, first, o, es[..n]), first && n == 0, o, es[n])
  {
    hide WalkEntry;
    var n := |es| - 1;
    assert es == es[..n] + [es[n]];
    VerifyWindows.WalkConcat(w, first, o, es[..n], [es[n]]);
    assert [es[n]][1..] == [];
  }

  ghost predicate SomeFails(w: Walker, key: Key, es: seq<Entry>, kind: GapType, q: int64) {
    exists i :: 0 <= i < |es| && Fails(kind, PrevOf(w, es[..i]), key, es[i], q)
  }

  lemma {:induction false} WalkBlames(w: Walker, first: bool, o: Options, es: seq<Entry>, kind: GapType, q: int64)
    requires kind in {HashMismatch, HmacMismatch, OutOfOrder}
    ensures Gap(q, kind) in Walk(w, first, o, es).r.gaps <==>
              Gap(q, kind) in w.r.gaps || SomeFails(w, o.hmacKey, es, kind, q)
    decreases |es|
  {
    hide WalkEntry, Fails, PrevOf;
    if es == [] {
      assert Walk(w, first, o, es) == w;
    } else {
      var n := |es| - 1;
      var es' := es[..n];
      WalkBlames(w, first, o, es', kind, q);
      WalkPrev(w, first, o, es');
      WalkLast(w, first, o, es);
      EntryGaps(Walk(w, first, o, es'), first && n == 0, o, es[n], kind, q);
      if i :| 0 <= i < |es'| && Fails(kind, PrevOf(w, es'[..i]), o.hmacKey, es'[i], q) {
        assert es'[..i] == es[..i] && es'[i] == es[i];
      }
      if i :| 0 <= i < |es| && Fails(kind, PrevOf(w, es[..i]), o.hmacKey, es[i], q) {
        if i < n { assert es'[..i] == es[..i] && es'[i] == es[i]; }
      }
      hide Walk;
    }
  }

  /** On every stream: a hash, HMAC or order gap is reported at a seq if and only if some entry of the
      window carries that seq and fails that check. */
  lemma GapsNameTheirEntries(stream: seq<Entry>, o: Options, predFault: bool, kind: GapType, q: int64)
    requires kind in {HashMismatch, HmacMismatch, OutOfOrder} && Window(stream, o) != []
    ensures var es := Window(stream, o);
            Gap(q, kind) in Verify(stream, o, predFault).gaps <==>
              SomeFails(Bootstrap(stream, o, es[0].id, predFault), o.hmacKey, es, kind, q)
  {
    hide Walk, Window, Bootstrap, SomeFails;
    var es := Window(stream, o);
    var w := Bootstrap(stream, o, es[0].id, predFault);
    BootstrapBlank(stream, o, es[0].id, predFault);
    WalkBlames(w, true, o, es, kind, q);
  }

  // ---------------------------------------------------------------- what is counted

  datatype Counter = Total | Verified | TagVerified | TagSkipped

  function Counted(r: Result, c: Counter): nat {
    match c
    case Total => r.totalEvents
    case Verified => r.verifiedEvents
    case TagVerified => r.hmacVerified
    case TagSkipped => r.hmacSkipped
  }

  /** The entry belongs to this count: it decodes; its hash recomputes and links; with a key, its tag
      recomputes or it has none. */
  predicate Counts(c: Counter, prev: Prev, key: Key, entry: Entry) {
    && entry.payload.Decoded?
    && var e := entry.payload.event;
       match c
       case Total => true
       case Verified => VerifyEventHash(e) && (prev.known ==> e.prevHash == prev.hash)
       case TagVerified => key != [] && e.hmac == Hmac(key, Cleared(e)) && Marshals(e)
       case TagSkipped => key != [] && e.hmac == NoTag
  }

  function Number(c: Counter, w: Walker, key: Key, es: seq<Entry>): nat {
    if es == [] then 0
    else
      var n := |es| - 1;
      Number(c, w, key, es[..n]) + (if Counts(c, PrevOf(w, es[..n]), key, es[n]) then 1 else 0)
  }

  lemma EntryCounts(c: Counter, w: Walker, first: bool, o: Options, entry: Entry)
    ensures Counted(WalkEntry(w, first, o, entry).r, c) ==
              Counted(w.r, c)
              + (if Counts(c, Prev(w.hasPrev, w.prevHash, w.prevSeq), o.hmacKey, entry) then 1 else 0)
  {
    hide EventGaps, OrderGaps, HmacGaps;
  }

  lemma {:induction false} WalkCounts(c: Counter, w: Walker, first: bool, o: Options, es: seq<Entry>)
    ensures Counted(Walk(w, first, o, es).r, c) == Counted(w.r, c) + Number(c, w, o.hmacKey, es)
    decreases |es|
  {
    hide WalkEntry, Counts, PrevOf, Counted;
    if es == [] {
      assert Walk(w, first, o, es) == w;
    } else {
      var n := |es| - 1;
      WalkCounts(c, w, first, o, es[..n]);
      WalkPrev(w, first, o, es[..n]);
      WalkLast(w, first, o, es);
      EntryCounts(c, Walk(w, first, o, es[..n]), first && n == 0, o, es[n]);
      hide Walk;
    }
  }

  /** On every stream each counter of the report is the number of entries of the window it stands for. */
  lemma CountersExactly(c: Counter, stream: seq<Entry>, o: Options, predFault: bool)
    requires Window(stream, o) != []
    ensures var es := Window(stream, o);
            Counted(Verify(stream, o, predFault), c) ==
              Number(c, Bootstrap(stream, o, es[0].id, predFault), o.hmacKey, es)
  {
    hide Walk, Window, Bootstrap, Number;
    var es := Window(stream, o);
    var w := Bootstrap(stream, o, es[0].id, predFault);
    BootstrapBlank(stream, o, es[0].id, predFault);
    WalkCounts(c, w, true, o, es);
  }
}
