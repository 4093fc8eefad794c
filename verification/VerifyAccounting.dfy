/**
 What a report of the checker means, on arbitrary streams: when it says compromised, which
 seqs it lists as missing, what "ok" guarantees, and that every entry is accounted for once.
 */
module VerifyAccounting {
  import opened Wrappers
  import opened AuditEvent
  import opened Redis
  import opened ChainVerify

  // ---------------------------------------------------------------- counting gaps

  function Count(gaps: seq<Gap>, kind: GapType): nat {
    if gaps == [] then 0 else (if gaps[0].kind == kind then 1 else 0) + Count(gaps[1..], kind)
  }

  lemma {:induction false} CountConcat(a: seq<Gap>, b: seq<Gap>, kind: GapType)
    ensures Count(a + b, kind) == Count(a, kind) + Count(b, kind)
  {
    if a == [] {
      assert a + b == b;
    } else {
      assert (a + b)[1..] == a[1..] + b;
      CountConcat(a[1..], b, kind);
    }
  }

  lemma {:induction false} CountRun(lo: int, hi: int, k: GapType, kind: GapType)
    requires MIN_INT64 <= lo <= hi <= MAX_INT64 + 1
    ensures Count(GapRun(lo, hi, k), kind) == if k == kind then hi - lo else 0
    decreases hi - lo
  {
    if lo < hi {
      CountRun(lo + 1, hi, k, kind);
      assert GapRun(lo, hi, k)[1..] == GapRun(lo + 1, hi, k);
    }
  }

  /** Some gap is not explained by retention. */
  ghost predicate Tampered(gaps: seq<Gap>) {
    exists i :: 0 <= i < |gaps| && gaps[i].kind != RetentionTrimmed
  }

  lemma TamperedConcat(a: seq<Gap>, b: seq<Gap>)
    ensures Tampered(a + b) <==> Tampered(a) || Tampered(b)
  {
    if Tampered(a) {
      var i :| 0 <= i < |a| && a[i].kind != RetentionTrimmed;
      assert (a + b)[i] == a[i];
    }
    if Tampered(b) {
      var i :| 0 <= i < |b| && b[i].kind != RetentionTrimmed;
      assert (a + b)[|a| + i] == b[i];
    }
  }

  /** Gaps of one event, by kind. */
  lemma EventCounts(w: Walker, first: bool, o: Options, e: Event)
    ensures var g := EventGaps(w, first, o, e);
            && Count(g, HashMismatch) == |HashGaps(w, e)|
            && Count(g, HmacMismatch) == |HmacGaps(o.hmacKey, e)|
            && (Tampered(g) <==> OrderGaps(w, e.seq_) + HashGaps(w, e) + HmacGaps(o.hmacKey, e) != [])
  {
    hide GapRun;
    var t, p, h, m := TrimmedGaps(first, o, e.seq_), OrderGaps(w, e.seq_), HashGaps(w, e), HmacGaps(o.hmacKey, e);
    TrimmedCounts(first, o, e.seq_);
    OrderCounts(w, e.seq_);
    hide TrimmedGaps, OrderGaps;
    assert Count(h, HashMismatch) == |h| && Count(h, HmacMismatch) == 0;
    assert Count(m, HmacMismatch) == |m| && Count(m, HashMismatch) == 0;
    CountConcat(t + p + h, m, HashMismatch);
    CountConcat(t + p, h, HashMismatch);
    CountConcat(t, p, HashMismatch);
    CountConcat(t + p + h, m, HmacMismatch);
    CountConcat(t + p, h, HmacMismatch);
    CountConcat(t, p, HmacMismatch);
    TamperedConcat(t + p + h, m);
    TamperedConcat(t + p, h);
    TamperedConcat(t, p);
    assert h != [] ==> h[0].kind == HashMismatch;
    assert m != [] ==> m[0].kind == HmacMismatch;
  }

  lemma TrimmedCounts(first: bool, o: Options, q: int64)
    ensures var t := TrimmedGaps(first, o, q);
            Count(t, HashMismatch) == 0 && Count(t, HmacMismatch) == 0 && !Tampered(t)
  {
    hide GapRun;
    if first && o.sinceMs == 0 && q > 1 {
      var hi := (if q - 1 > MAX_TRIMMED_GAPS then MAX_TRIMMED_GAPS else q - 1) + 1;
      CountRun(1, hi, RetentionTrimmed, HashMismatch);
      CountRun(1, hi, RetentionTrimmed, HmacMismatch);
      GapRunLength(1, hi, RetentionTrimmed);
    }
  }

  lemma OrderCounts(w: Walker, q: int64)
    ensures var p := OrderGaps(w, q);
            Count(p, HashMismatch) == 0 && Count(p, HmacMismatch) == 0 && (Tampered(p) <==> p != [])
  {
    hide GapRun;
    if w.hasPrev {
      if q < w.prevSeq {
        assert OrderGaps(w, q)[0].kind == OutOfOrder;
      } else if q > Inc(w.prevSeq) {
        CountRun(Inc(w.prevSeq), q, Missing, HashMismatch);
        CountRun(Inc(w.prevSeq), q, Missing, HmacMismatch);
        GapRunLength(Inc(w.prevSeq), q, Missing);
        assert OrderGaps(w, q)[0].kind == Missing;
      }
    }
  }

  // ---------------------------------------------------------------- the books

  function DecodedCount(es: seq<Entry>): nat {
    if es == [] then 0 else (if es[0].payload.Decoded? then 1 else 0) + DecodedCount(es[1..])
  }

  ghost predicate Flagged(r: Result) {
    r.status == Compromised <==> Tampered(r.gaps)
  }

  function HmacTotal(r: Result): nat {
    r.hmacVerified + r.hmacSkipped + Count(r.gaps, HmacMismatch)
  }

  lemma EntryBooks(w: Walker, first: bool, o: Options, entry: Entry)
    requires Flagged(w.r)
    ensures var r, r' := w.r, WalkEntry(w, first, o, entry).r;
            && Flagged(r')
            && r'.verifiedEvents + Count(r'.gaps, HashMismatch) == r.verifiedEvents + Count(r.gaps, HashMismatch) + 1
            && r'.totalEvents == r.totalEvents + (if entry.payload.Decoded? then 1 else 0)
            && (o.hmacKey != [] ==> HmacTotal(r') == HmacTotal(r) + (if entry.payload.Decoded? then 1 else 0))
  {
    match entry.payload
    case Decoded(e) =>
      var g := EventGaps(w, first, o, e);
      EventCounts(w, first, o, e);
      hide EventGaps, OrderGaps;
      CountConcat(w.r.gaps, g, HashMismatch);
      CountConcat(w.r.gaps, g, HmacMismatch);
      TamperedConcat(w.r.gaps, g);
    case _ =>
      var g := [Gap(Inc(w.prevSeq), HashMismatch)];
      assert Count(g, HashMismatch) == 1 && Count(g, HmacMismatch) == 0;
      CountConcat(w.r.gaps, g, HashMismatch);
      CountConcat(w.r.gaps, g, HmacMismatch);
      TamperedConcat(w.r.gaps, g);
      assert g[0].kind == HashMismatch;
  }

  lemma {:induction false} WalkBooks(w: Walker, first: bool, o: Options, es: seq<Entry>)
    requires Flagged(w.r)
    ensures var r, r' := w.r, Walk(w, first, o, es).r;
            && Flagged(r')
            && r'.verifiedEvents + Count(r'.gaps, HashMismatch) == r.verifiedEvents + Count(r.gaps, HashMismatch) + |es|
            && r'.totalEvents == r.totalEvents + DecodedCount(es)
            && (o.hmacKey != [] ==> HmacTotal(r') == HmacTotal(r) + DecodedCount(es))
    decreases |es|
  {
    if es != [] {
      EntryBooks(w, first, o, es[0]);
      WalkBooks(WalkEntry(w, first, o, es[0]), false, o, es[1..]);
    }
  }

  lemma BootstrapBlank(stream: seq<Entry>, o: Options, first: StreamId, predFault: bool)
    ensures var r := Bootstrap(stream, o, first, predFault).r;
            (r == EmptyResult(o) || r == EmptyResult(o).(status := Partial)) && Flagged(r)
  {
    hide LastUpTo, XRevBefore;
  }

  /** On every stream: compromised exactly when some gap is not retention; partial or ok mean only
      retention gaps; every entry read is verified or is a hash gap; with a key every decoded event
      is HMAC-verified, skipped or an HMAC gap. */
  lemma VerdictAccounting(stream: seq<Entry>, o: Options, predFault: bool)
    ensures var r := Verify(stream, o, predFault);
            var es := Window(stream, o);
            && (r.status == Compromised <==> Tampered(r.gaps))
            && (r.status == Intact ==> r.gaps == [])
            && r.verifiedEvents + Count(r.gaps, HashMismatch) == |es|
            && r.totalEvents == DecodedCount(es)
            && (o.hmacKey != [] ==> r.hmacVerified + r.hmacSkipped + Count(r.gaps, HmacMismatch) == r.totalEvents)
  {
    var es := Window(stream, o);
    if es != [] {
      var w := Bootstrap(stream, o, es[0].id, predFault);
      BootstrapBlank(stream, o, es[0].id, predFault);
      WalkBooks(w, true, o, es);
      hide Walk, Bootstrap, Window;
    }
  }

  // ---------------------------------------------------------------- missing seqs

  /** Seqs of the decoded events, in stream order. */
  function Seqs(es: seq<Entry>): seq<int64> {
    if es == [] then []
    else (if es[0].payload.Decoded? then [es[0].payload.event.seq_] else []) + Seqs(es[1..])
  }

  /** The seqs strictly between neighbours that jump forward. */
  function Skipped(hasPrev: bool, prev: int, qs: seq<int64>): seq<int>
    decreases |qs|
  {
    if qs == [] then []
    else (if hasPrev && prev < qs[0] then seq(qs[0] - prev - 1, i => prev + 1 + i) else [])
         + Skipped(true, qs[0], qs[1..])
  }

  ghost predicate AnyTag(es: seq<Entry>) {
    exists i :: 0 <= i < |es| && es[i].payload.Decoded? && es[i].payload.event.hmac != NoTag
  }

  lemma AnyTagCons(es: seq<Entry>)
    requires es != []
    ensures AnyTag(es) <==> (es[0].payload.Decoded? && es[0].payload.event.hmac != NoTag) || AnyTag(es[1..])
  {
    if i :| 0 <= i < |es| && es[i].payload.Decoded? && es[i].payload.event.hmac != NoTag {
      if i > 0 { assert es[1..][i - 1] == es[i]; }
    }
    if i :| 0 <= i < |es[1..]| && es[1..][i].payload.Decoded? && es[1..][i].payload.event.hmac != NoTag {
      assert es[i + 1] == es[1..][i];
    }
  }

  lemma {:induction false} WalkRange(w: Walker, first: bool, o: Options, es: seq<Entry>)
    ensures var r := Walk(w, first, o, es).r;
            && r.lastSeq == (if Seqs(es) == [] then w.r.lastSeq else Seqs(es)[|Seqs(es)| - 1])
            && r.firstSeq ==
                (if first && es != [] && es[0].payload.Decoded? then es[0].payload.event.seq_ else w.r.firstSeq)
            && (r.hmacSeen <==> w.r.hmacSeen || AnyTag(es))
            && r.retentionBoundarySeq == w.r.retentionBoundarySeq
    decreases |es|
  {
    if es != [] {
      var w' := WalkEntry(w, first, o, es[0]);
      assert Walk(w, first, o, es) == Walk(w', false, o, es[1..]);
      WalkRange(w', false, o, es[1..]);
      AnyTagCons(es);
      hide EventGaps, AnyTag, Walk;
    }
  }

  /** The report names the first and the last seq of the window, and says whether any tag was seen. */
  lemma ReportRange(stream: seq<Entry>, o: Options, predFault: bool)
    ensures var r := Verify(stream, o, predFault);
            var es := Window(stream, o);
            && r.lastSeq == (if Seqs(es) == [] then 0 else Seqs(es)[|Seqs(es)| - 1])
            && r.firstSeq == (if es != [] && es[0].payload.Decoded? then es[0].payload.event.seq_ else 0)
            && (r.hmacSeen <==> AnyTag(es))
            && r.retentionBoundarySeq == o.retentionBoundarySeq
  {
    var es := Window(stream, o);
    if es != [] {
      var w := Bootstrap(stream, o, es[0].id, predFault);
      WalkRange(w, true, o, es);
      BootstrapReport(stream, o, es[0].id, predFault);
    }
    hide Walk, Bootstrap, Window;
  }

  lemma BootstrapReport(stream: seq<Entry>, o: Options, first: StreamId, predFault: bool)
    ensures var r := Bootstrap(stream, o, first, predFault).r;
            r.lastSeq == 0 && r.firstSeq == 0 && !r.hmacSeen && r.retentionBoundarySeq == o.retentionBoundarySeq
  {}

  /** Neighbours that both carry the largest int64, where `prev + 1` wraps. */
  function TopPairs(hasPrev: bool, prev: int, qs: seq<int64>): nat
    decreases |qs|
  {
    if qs == [] then 0
    else (if hasPrev && prev == MAX_INT64 && qs[0] == MAX_INT64 then 1 else 0) + TopPairs(true, qs[0], qs[1..])
  }

  function MissingSeqs(gaps: seq<Gap>): seq<int> {
    if gaps == [] then []
    else if gaps[0].kind == Missing then [gaps[0].atSeq] + MissingSeqs(gaps[1..])
    else MissingSeqs(gaps[1..])
  }

  lemma {:induction false} MissingConcat(a: seq<Gap>, b: seq<Gap>)
    ensures MissingSeqs(a + b) == MissingSeqs(a) + MissingSeqs(b)
  {
    if a == [] {
      assert a + b == b;
    } else {
      MissingConcat(a[1..], b);
      assert (a + b)[0] == a[0] && (a + b)[1..] == a[1..] + b;
      Assoc([a[0].atSeq], MissingSeqs(a[1..]), MissingSeqs(b));
    }
  }

  lemma {:induction false} MissingRun(lo: int, hi: int, k: GapType)
    requires MIN_INT64 <= lo <= hi <= MAX_INT64 + 1
    ensures MissingSeqs(GapRun(lo, hi, k)) == if k == Missing then seq(hi - lo, i => lo + i) else []
    decreases hi - lo
  {
    if lo < hi {
      MissingRun(lo + 1, hi, k);
      MissingCons(Gap(lo, k), GapRun(lo + 1, hi, k));
      CountUp(lo, hi - lo - 1);
      hide MissingSeqs;
    }
  }

  lemma MissingCons(g: Gap, gaps: seq<Gap>)
    ensures MissingSeqs([g] + gaps) == if g.kind == Missing then [g.atSeq] + MissingSeqs(gaps) else MissingSeqs(gaps)
  {
    assert ([g] + gaps)[1..] == gaps;
  }

  lemma CountUp(lo: int, n: nat)
    ensures seq(n + 1, i => lo + i) == [lo] + seq(n, i => lo + 1 + i)
  {}

  lemma EventMissing(w: Walker, first: bool, o: Options, e: Event)
    ensures MissingSeqs(EventGaps(w, first, o, e)) == MissingSeqs(OrderGaps(w, e.seq_))
  {
    hide GapRun;
    var t, p, h, m := TrimmedGaps(first, o, e.seq_), OrderGaps(w, e.seq_), HashGaps(w, e), HmacGaps(o.hmacKey, e);
    assert MissingSeqs(t) == [] by {
      if t != [] {
        MissingRun(1, (if e.seq_ - 1 > MAX_TRIMMED_GAPS then MAX_TRIMMED_GAPS else e.seq_ - 1) + 1, RetentionTrimmed);
      }
    }
    hide TrimmedGaps, OrderGaps;
    MissingConcat(t + p + h, m);
    MissingConcat(t + p, h);
    MissingConcat(t, p);
  }

  /** One event: its missing gaps are the skipped seqs, unless it repeats the largest int64. */
  lemma OrderMissing(w: Walker, q: int64)
    ensures var top := w.hasPrev && w.prevSeq == MAX_INT64 && q == MAX_INT64;
            && (!top ==> MissingSeqs(OrderGaps(w, q)) == Skipped(w.hasPrev, w.prevSeq, [q]))
            && (top ==> Skipped(w.hasPrev, w.prevSeq, [q]) == []
                        && |MissingSeqs(OrderGaps(w, q))| >= 1)
  {
    hide GapRun;
    assert [q][1..] == [];
    if w.hasPrev && q >= w.prevSeq && q > Inc(w.prevSeq) {
      MissingRun(Inc(w.prevSeq), q, Missing);
      if w.prevSeq < MAX_INT64 {
        assert seq(q - (w.prevSeq + 1), i => w.prevSeq + 1 + i) == seq(q - w.prevSeq - 1, i => w.prevSeq + 1 + i);
      }
    }
  }

  lemma SkippedCons(hasPrev: bool, prev: int, q: int64, qs: seq<int64>)
    ensures Skipped(hasPrev, prev, [q] + qs) == Skipped(hasPrev, prev, [q]) + Skipped(true, q, qs)
    ensures TopPairs(hasPrev, prev, [q] + qs) ==
              (if hasPrev && prev == MAX_INT64 && q == MAX_INT64 then 1 else 0) + TopPairs(true, q, qs)
  {
    assert ([q] + qs)[1..] == qs;
    assert [q][1..] == [];
  }

  /** What one entry adds to the missing list. */
  lemma EntryMissing(w: Walker, first: bool, o: Options, entry: Entry)
    ensures var w' := WalkEntry(w, first, o, entry);
            match entry.payload
            case Decoded(e) =>
              w'.hasPrev && w'.prevSeq == e.seq_
              && MissingSeqs(w'.r.gaps) == MissingSeqs(w.r.gaps) + MissingSeqs(OrderGaps(w, e.seq_))
            case _ =>
              w'.hasPrev == w.hasPrev && w'.prevSeq == w.prevSeq && MissingSeqs(w'.r.gaps) == MissingSeqs(w.r.gaps)
  {
    match entry.payload
    case Decoded(e) =>
      MissingConcat(w.r.gaps, EventGaps(w, first, o, e));
      EventMissing(w, first, o, e);
    case _ =>
      var g := [Gap(Inc(w.prevSeq), HashMismatch)];
      assert MissingSeqs(g) == [];
      MissingConcat(w.r.gaps, g);
  }

  lemma {:induction false} WalkMissing(w: Walker, first: bool, o: Options, es: seq<Entry>)
    requires TopPairs(w.hasPrev, w.prevSeq, Seqs(es)) == 0
    ensures MissingSeqs(Walk(w, first, o, es).r.gaps) ==
              MissingSeqs(w.r.gaps) + Skipped(w.hasPrev, w.prevSeq, Seqs(es))
    decreases |es|
  {
    if es != [] {
      var w', rest := WalkEntry(w, first, o, es[0]), es[1..];
      assert Walk(w, first, o, es) == Walk(w', false, o, rest);
      EntryMissing(w, first, o, es[0]);
      if es[0].payload.Decoded? {
        var q := es[0].payload.event.seq_;
        assert Seqs(es) == [q] + Seqs(rest);
        OrderMissing(w, q);
        SkippedCons(w.hasPrev, w.prevSeq, q, Seqs(rest));
      } else {
        assert Seqs(es) == Seqs(rest);
      }
      hide WalkEntry, OrderGaps, MissingSeqs, Walk, Seqs, Skipped, TopPairs;
      WalkMissing(w', false, o, rest);
    }
  }

  lemma {:induction false} WalkMissingMore(w: Walker, first: bool, o: Options, es: seq<Entry>)
    ensures |MissingSeqs(Walk(w, first, o, es).r.gaps)| >=
              |MissingSeqs(w.r.gaps)| + |Skipped(w.hasPrev, w.prevSeq, Seqs(es))|
                + TopPairs(w.hasPrev, w.prevSeq, Seqs(es))
    decreases |es|
  {
    if es != [] {
      var w', rest := WalkEntry(w, first, o, es[0]), es[1..];
      assert Walk(w, first, o, es) == Walk(w', false, o, rest);
      EntryMissing(w, first, o, es[0]);
      if es[0].payload.Decoded? {
        var q := es[0].payload.event.seq_;
        assert Seqs(es) == [q] + Seqs(rest);
        OrderMissing(w, q);
        SkippedCons(w.hasPrev, w.prevSeq, q, Seqs(rest));
      } else {
        assert Seqs(es) == Seqs(rest);
      }
      hide WalkEntry, OrderGaps, MissingSeqs, Walk, Seqs, Skipped, TopPairs;
      WalkMissingMore(w', false, o, rest);
    }
  }

  /** The missing gaps list exactly the seqs skipped by forward jumps, in order, if and only if
      no two neighbours both carry the largest int64. */
  lemma MissingExact(stream: seq<Entry>, o: Options, predFault: bool)
    requires Window(stream, o) != []
    ensures var es := Window(stream, o);
            var w := Bootstrap(stream, o, es[0].id, predFault);
            MissingSeqs(Verify(stream, o, predFault).gaps) == Skipped(w.hasPrev, w.prevSeq, Seqs(es))
            <==> TopPairs(w.hasPrev, w.prevSeq, Seqs(es)) == 0
  {
    var es := Window(stream, o);
    var w := Bootstrap(stream, o, es[0].id, predFault);
    BootstrapBlank(stream, o, es[0].id, predFault);
    if TopPairs(w.hasPrev, w.prevSeq, Seqs(es)) == 0 { WalkMissing(w, true, o, es); }
    WalkMissingMore(w, true, o, es);
    hide Walk, Bootstrap, Window, Skipped, TopPairs;
  }

  /** Two neighbours with the largest int64 skip nothing, and yet missing gaps are reported. */
  lemma TopPairReportsMissing(stream: seq<Entry>, o: Options, a: Event, b: Event)
    requires o.sinceMs == 0 && a.seq_ == b.seq_ == MAX_INT64
    requires |Window(stream, o)| == 2 && Window(stream, o)[0].payload == Decoded(a)
               && Window(stream, o)[1].payload == Decoded(b)
    ensures Skipped(false, 0, Seqs(Window(stream, o))) == []
    ensures MissingSeqs(Verify(stream, o, false).gaps) != []
  {
    hide GapRun, Walk, Window, Verify, MissingSeqs;
    var es := Window(stream, o);
    MissingExact(stream, o, false);
    assert es[1..][1..] == [] && es[1..][0] == es[1];
    assert Seqs(es[1..]) == [MAX_INT64];
    assert Seqs(es) == [MAX_INT64, MAX_INT64];
    SkippedCons(false, 0, MAX_INT64, [MAX_INT64]);
    SkippedCons(true, MAX_INT64, MAX_INT64, []);
    assert [MAX_INT64] + [MAX_INT64] == [MAX_INT64, MAX_INT64] && [MAX_INT64] + [] == [MAX_INT64];
  }

  // ---------------------------------------------------------------- what "ok" guarantees

  /** Seq may stay or advance by one; the walk has no case for an equal seq. */
  predicate StepOk(p: int64, q: int64) {
    (q == p && p != MAX_INT64) || q == p + 1
  }

  predicate EventOk(e: Event, key: Key) {
    VerifyEventHash(e) && (key != [] ==> VerifyEventHMAC(e, key))
  }

  predicate LinkedAfter(hasPrev: bool, prevHash: Hash, prevSeq: int64, e: Event) {
    hasPrev ==> e.prevHash == prevHash && StepOk(prevSeq, e.seq_)
  }

  /** Every entry decodes, recomputes and links to the one before it. */
  ghost predicate Clean(hasPrev: bool, prevHash: Hash, prevSeq: int64, key: Key, es: seq<Entry>) {
    && (forall i :: 0 <= i < |es| ==> es[i].payload.Decoded? && EventOk(es[i].payload.event, key))
    && (es != [] ==> LinkedAfter(hasPrev, prevHash, prevSeq, es[0].payload.event))
    && (forall i :: 0 < i < |es| ==>
          LinkedAfter(true, es[i - 1].payload.event.eventHash, es[i - 1].payload.event.seq_, es[i].payload.event))
  }

  lemma CleanCons(hasPrev: bool, prevHash: Hash, prevSeq: int64, key: Key, es: seq<Entry>)
    requires es != []
    ensures Clean(hasPrev, prevHash, prevSeq, key, es) <==>
              && es[0].payload.Decoded? && EventOk(es[0].payload.event, key)
              && LinkedAfter(hasPrev, prevHash, prevSeq, es[0].payload.event)
              && Clean(true, es[0].payload.event.eventHash, es[0].payload.event.seq_, key, es[1..])
  {
    hide EventOk, LinkedAfter;
    var t := es[1..];
    assert forall i :: 1 <= i < |es| ==> es[i] == t[i - 1];
    if && es[0].payload.Decoded? && EventOk(es[0].payload.event, key)
       && LinkedAfter(hasPrev, prevHash, prevSeq, es[0].payload.event)
       && Clean(true, es[0].payload.event.eventHash, es[0].payload.event.seq_, key, t) {
      forall i | 0 < i < |es|
        ensures LinkedAfter(true, es[i - 1].payload.event.eventHash, es[i - 1].payload.event.seq_, es[i].payload.event)
      {
        if i > 1 { assert es[i] == t[i - 1] && es[i - 1] == t[i - 2]; }
      }
    }
    if Clean(hasPrev, prevHash, prevSeq, key, es) {
      forall i | 0 < i < |t|
        ensures LinkedAfter(true, t[i - 1].payload.event.eventHash, t[i - 1].payload.event.seq_, t[i].payload.event)
      {
        assert t[i] == es[i + 1] && t[i - 1] == es[i];
      }
    }
  }

  /** An event adds no tamper gap exactly when it is sound and linked. */
  lemma SoundEvent(w: Walker, o: Options, e: Event)
    ensures OrderGaps(w, e.seq_) + HashGaps(w, e) + HmacGaps(o.hmacKey, e) == [] <==>
              EventOk(e, o.hmacKey) && LinkedAfter(w.hasPrev, w.prevHash, w.prevSeq, e)
  {
    if w.hasPrev && e.seq_ > Inc(w.prevSeq) {
      GapRunLength(Inc(w.prevSeq), e.seq_, Missing);
    }
    hide GapRun;
  }

  lemma {:induction false} WalkClean(w: Walker, first: bool, o: Options, es: seq<Entry>)
    requires w.r.status != Compromised
    ensures var r := Walk(w, first, o, es).r;
            if Clean(w.hasPrev, w.prevHash, w.prevSeq, o.hmacKey, es)
            then r.status == w.r.status
                 && r.gaps == w.r.gaps + (if es == [] then [] else TrimmedGaps(first, o, es[0].payload.event.seq_))
            else r.status == Compromised
    decreases |es|
  {
    if es != [] {
      CleanCons(w.hasPrev, w.prevHash, w.prevSeq, o.hmacKey, es);
      var w' := WalkEntry(w, first, o, es[0]);
      match es[0].payload
      case Decoded(e) =>
        SoundEvent(w, o, e);
        hide OrderGaps, HashGaps, HmacGaps, EventOk, Clean, LinkedAfter, VerifyEventHMAC;
        if w'.r.status == Compromised {
          StaysCompromised(w', false, o, es[1..]);
        } else {
          WalkClean(w', false, o, es[1..]);
          assert w'.r.gaps == w.r.gaps + TrimmedGaps(first, o, e.seq_);
        }
      case _ =>
        StaysCompromised(w', false, o, es[1..]);
    }
  }

  lemma {:induction false} StaysCompromised(w: Walker, first: bool, o: Options, es: seq<Entry>)
    requires w.r.status == Compromised
    ensures Walk(w, first, o, es).r.status == Compromised
    decreases |es|
  {
    if es != [] { StaysCompromised(WalkEntry(w, first, o, es[0]), false, o, es[1..]); }
  }

  /** What a windowed walk finds when it looks up the entry before its first one. */
  function Predecessor(stream: seq<Entry>, first: StreamId): Option<Entry> {
    LastUpTo(stream, XRevBefore(first))
  }

  /** The first entry of the window is compared with the entry before it. */
  predicate LinkChecked(stream: seq<Entry>, o: Options, first: StreamId, predFault: bool) {
    o.sinceMs > 0 && !predFault && Predecessor(stream, first).Some? && Predecessor(stream, first).value.payload.Decoded?
  }

  /** The lookup gives no reason to doubt the window's start: it is not made, it fails, or it finds
      an entry that does not decode or whose hash recomputes. */
  predicate Undisputed(stream: seq<Entry>, o: Options, first: StreamId, predFault: bool) {
    || o.sinceMs <= 0 || predFault
    || (var p := Predecessor(stream, first);
        p.Some? && (p.value.payload.Decoded? ==> VerifyEventHash(p.value.payload.event)))
  }

  lemma BootstrapIs(stream: seq<Entry>, o: Options, first: StreamId, predFault: bool)
    ensures var w := Bootstrap(stream, o, first, predFault);
            && (w.r.status == Intact <==> Undisputed(stream, o, first, predFault))
            && (w.r.status == Intact ==>
                  if LinkChecked(stream, o, first, predFault)
                  then var e := Predecessor(stream, first).value.payload.event;
                       w.hasPrev && w.prevHash == e.eventHash && w.prevSeq == e.seq_
                  else !w.hasPrev)
  {
    hide LastUpTo, XRevBefore, VerifyEventHash;
  }

  /** Without a comparison the first link does not matter. */
  lemma CleanUnchecked(prevHash: Hash, prevSeq: int64, key: Key, es: seq<Entry>)
    ensures Clean(false, prevHash, prevSeq, key, es) <==> Clean(false, NoHash, 0, key, es)
  {
    hide EventOk;
  }

  /** Every entry of the window is clean; its first one follows `pred` if that is given. */
  ghost predicate CleanAfter(pred: Option<Event>, key: Key, es: seq<Entry>) {
    if pred.Some? then Clean(true, pred.value.eventHash, pred.value.seq_, key, es) else Clean(false, NoHash, 0, key, es)
  }

  /** "ok" on a non-empty window if and only if the lookup gave no reason to doubt its start, every
      entry decodes, recomputes and links to the one before it with a seq step of 0 or 1 (the first
      one to the entry found by the lookup, if that decodes), and an unwindowed walk starts at seq 1
      or below. */
  lemma IntactMeans(stream: seq<Entry>, o: Options, predFault: bool)
    requires Window(stream, o) != []
    ensures var es := Window(stream, o);
            var first := es[0].id;
            Verify(stream, o, predFault).status == Intact <==>
              && Undisputed(stream, o, first, predFault)
              && CleanAfter(if LinkChecked(stream, o, first, predFault)
                            then Some(Predecessor(stream, first).value.payload.event) else None, o.hmacKey, es)
              && (o.sinceMs == 0 ==> es[0].payload.event.seq_ <= 1)
  {
    hide Walk, Bootstrap, Window, GapRun, Clean, Predecessor, VerifyEventHash, Undisputed, LinkChecked;
    var es := Window(stream, o);
    var w := Bootstrap(stream, o, es[0].id, predFault);
    BootstrapBlank(stream, o, es[0].id, predFault);
    BootstrapIs(stream, o, es[0].id, predFault);
    WalkClean(w, true, o, es);
    CleanUnchecked(w.prevHash, w.prevSeq, o.hmacKey, es);
    CleanDecodes(w.hasPrev, w.prevHash, w.prevSeq, o.hmacKey, es);
    if Clean(w.hasPrev, w.prevHash, w.prevSeq, o.hmacKey, es) && o.sinceMs == 0 && es[0].payload.event.seq_ > 1 {
      var q := es[0].payload.event.seq_;
      GapRunLength(1, (if q - 1 > MAX_TRIMMED_GAPS then MAX_TRIMMED_GAPS else q - 1) + 1, RetentionTrimmed);
    }
  }

  lemma CleanDecodes(hasPrev: bool, prevHash: Hash, prevSeq: int64, key: Key, es: seq<Entry>)
    requires es != []
    ensures Clean(hasPrev, prevHash, prevSeq, key, es) ==> es[0].payload.Decoded?
  {}
}
