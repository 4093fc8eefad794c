/**
 Windowed verification: the bootstrap reads the immediate predecessor of the window, so the
 reports of two adjacent windows add up to the report of one walk over their union.
 */
module VerifyWindows {
  import opened Wrappers
  import opened AuditEvent
  import opened Redis
  import opened ChainVerify
  import opened VerifyAccounting

  /** xRevBefore finds the greatest ID strictly below its argument exactly for IDs other than 0-0
      whose parts fit an int64; otherwise the source falls back to "+". */
  lemma XRevBeforeIsPredecessor(id: StreamId)
    ensures (exists p :: XRevBefore(id) == At(p) && Lt(p, id) && forall x :: Lt(x, id) ==> Le(x, p)) <==>
              id.ms <= MAX_INT64 && id.n <= MAX_INT64 && id != Id(0, 0)
  {
    if id.ms <= MAX_INT64 && id.n <= MAX_INT64 && id != Id(0, 0) {
      var p := XRevBefore(id).id;
      assert XRevBefore(id) == At(p) && Lt(p, id);
      forall x | Lt(x, id) ensures Le(x, p) {}
    }
  }

  lemma UpToPredecessor(id: StreamId, x: StreamId)
    requires id.ms <= MAX_INT64 && id.n <= MAX_INT64 && id != Id(0, 0)
    ensures UpToHigh(XRevBefore(id), x) <==> Lt(x, id)
  {}

  /** The entry the bootstrap reads is the one right before the window's first entry. */
  lemma BootstrapReadsPredecessor(stream: seq<Entry>, i: nat)
    requires Ordered(stream) && i < |stream|
    requires var id := stream[i].id; id.ms <= MAX_INT64 && id.n <= MAX_INT64 && id != Id(0, 0)
    ensures LastUpTo(stream, XRevBefore(stream[i].id)) == if i == 0 then None else Some(stream[i - 1])
  {
    var hi := XRevBefore(stream[i].id);
    forall k | 0 <= k < |stream| ensures UpToHigh(hi, stream[k].id) <==> k < i {
      UpToPredecessor(stream[i].id, stream[k].id);
      assert k < i ==> Lt(stream[k].id, stream[i].id);
      assert i < k ==> Lt(stream[i].id, stream[k].id);
    }
    LastUpToIsSeekHigh(stream, hi);
    RangeIsFilter(stream, Lowest, hi);
    hide XRevBefore, UpToHigh;
    assert SeekHigh(stream, hi) == i;
  }

  /** What "ok" says about a window that starts at entry `i` of the stream: its first entry follows
      the entry before it, whose hash recomputes, exactly when the lookup succeeds and that entry
      decodes. Otherwise the first link is not looked at; and without an entry before it, only a
      failing lookup lets the window pass. */
  lemma WindowStartMeans(stream: seq<Entry>, o: Options, predFault: bool, i: nat)
    requires Ordered(stream) && o.sinceMs > 0 && i < |stream|
    requires Window(stream, o) != [] && Window(stream, o)[0] == stream[i]
    requires stream[i].id.ms <= MAX_INT64 && stream[i].id.n <= MAX_INT64
    ensures var es := Window(stream, o);
            Verify(stream, o, predFault).status == Intact <==>
              if predFault || (i > 0 && !stream[i - 1].payload.Decoded?) then CleanAfter(None, o.hmacKey, es)
              else i > 0 && VerifyEventHash(stream[i - 1].payload.event)
                   && CleanAfter(Some(stream[i - 1].payload.event), o.hmacKey, es)
  {
    assert stream[i].id.ms >= 1 by { RangeIsFilter(stream, MinBound(o), MaxBound(o)); }
    hide Verify, Window, CleanAfter, VerifyEventHash, LastUpTo, XRevBefore, Ordered;
    BootstrapReadsPredecessor(stream, i);
    IntactMeans(stream, o, predFault);
  }

  /** So the first link of a window is not checked behind an entry that does not decode: whatever PrevHash
      the first event claims, the window is ok. */
  lemma UndecodablePredecessorIsSkipped(e: Event)
    requires VerifyEventHash(e)
    ensures var o := Options(2, 0, 0, 0, []);
            var stream := [Entry(Id(1, 0), Undecodable), Entry(Id(2, 0), Decoded(e))];
            Window(stream, o) == [stream[1]] && Verify(stream, o, false).status == Intact
  {
    var o := Options(2, 0, 0, 0, []);
    var stream := [Entry(Id(1, 0), Undecodable), Entry(Id(2, 0), Decoded(e))];
    hide VerifyEventHash, Walk, GapRun;
    assert SeekLow(stream, MinBound(o)) == 1 && SeekHigh(stream, MaxBound(o)) == 2;
    assert Window(stream, o) == [stream[1]];
    hide Window, SeekLow, SeekHigh;
    WindowStartMeans(stream, o, false, 1);
  }

  // ---------------------------------------------------------------- the walk is additive

  /** The counters of two reports add up, and their gap lists concatenate. */
  ghost predicate Sum(r: Result, a: Result, b: Result) {
    && r.gaps == a.gaps + b.gaps
    && r.totalEvents == a.totalEvents + b.totalEvents
    && r.verifiedEvents == a.verifiedEvents + b.verifiedEvents
    && r.hmacVerified == a.hmacVerified + b.hmacVerified
    && r.hmacSkipped == a.hmacSkipped + b.hmacSkipped
  }

  lemma {:induction false} WalkConcat(w: Walker, first: bool, o: Options, a: seq<Entry>, b: seq<Entry>)
    ensures Walk(w, first, o, a + b) == Walk(Walk(w, first, o, a), first && a == [], o, b)
    decreases |a|
  {
    if a == [] {
      assert a + b == b;
    } else {
      assert (a + b)[1..] == a[1..] + b && (a + b)[0] == a[0];
      WalkConcat(WalkEntry(w, first, o, a[0]), false, o, a[1..], b);
    }
  }

  /** One entry after the first reports the same, whatever was reported before it and in
      whichever windowed walk it occurs. */
  lemma EntryAdds(w: Walker, v: Walker, base: Result, first: bool, o: Options, p: Options, entry: Entry)
    requires w.prevHash == v.prevHash && w.prevSeq == v.prevSeq && w.hasPrev == v.hasPrev
    requires o.hmacKey == p.hmacKey && p.sinceMs != 0
    requires Sum(w.r, base, v.r)
    ensures var w', v' := WalkEntry(w, false, o, entry), WalkEntry(v, first, p, entry);
            && w'.prevHash == v'.prevHash && w'.prevSeq == v'.prevSeq && w'.hasPrev == v'.hasPrev
            && Sum(w'.r, base, v'.r)
  {
    match entry.payload
    case Decoded(e) =>
      SameGaps(w, v, first, o, p, e);
      Assoc(base.gaps, v.r.gaps, EventGaps(v, first, p, e));
      hide EventGaps, OrderGaps, HashGaps, HmacGaps, VerifyEventHMAC;
    case _ =>
  }

  lemma SameGaps(w: Walker, v: Walker, first: bool, o: Options, p: Options, e: Event)
    requires w.prevHash == v.prevHash && w.prevSeq == v.prevSeq && w.hasPrev == v.hasPrev
    requires o.hmacKey == p.hmacKey && p.sinceMs != 0
    ensures HashGaps(w, e) == HashGaps(v, e) && EventGaps(w, false, o, e) == EventGaps(v, first, p, e)
  {
    assert OrderGaps(w, e.seq_) == OrderGaps(v, e.seq_) && HashGaps(w, e) == HashGaps(v, e);
    hide OrderGaps, HashGaps, HmacGaps;
  }

  lemma {:induction false} WalkAdds(w: Walker, v: Walker, base: Result, first: bool, o: Options, p: Options,
                                    es: seq<Entry>)
    requires w.prevHash == v.prevHash && w.prevSeq == v.prevSeq && w.hasPrev == v.hasPrev
    requires o.hmacKey == p.hmacKey && p.sinceMs != 0
    requires Sum(w.r, base, v.r)
    ensures Sum(Walk(w, false, o, es).r, base, Walk(v, first, p, es).r)
    decreases |es|
  {
    if es != [] {
      EntryAdds(w, v, base, first, o, p, es[0]);
      WalkAdds(WalkEntry(w, false, o, es[0]), WalkEntry(v, first, p, es[0]), base, false, o, p, es[1..]);
    }
  }

  // ---------------------------------------------------------------- gluing

  /** No limit cuts the window short. */
  predicate Unlimited(stream: seq<Entry>, o: Options) {
    |XRange(stream, MinBound(o), MaxBound(o))| <= EffectiveLimit(o.limit)
  }

  /** `b` starts at the millisecond after `a` ends, and `u` spans both. */
  predicate Adjacent(a: Options, b: Options, u: Options) {
    && 0 < a.untilMs < MAX_INT64 && b.sinceMs == a.untilMs + 1
    && (b.untilMs <= 0 || b.untilMs >= b.sinceMs)
    && u.sinceMs == a.sinceMs && u.untilMs == b.untilMs
    && a.hmacKey == b.hmacKey == u.hmacKey
  }

  /** The last entry of a window decodes and its hash recomputes. */
  predicate EndsSound(es: seq<Entry>) {
    && es != []
    && es[|es| - 1].payload.Decoded?
    && VerifyEventHash(es[|es| - 1].payload.event)
  }

  /** The first entry past the first window is the first from the second one's start. */
  lemma CutPoint(stream: seq<Entry>, a: Options, b: Options)
    requires Ordered(stream) && 0 < a.untilMs < MAX_INT64 && b.sinceMs == a.untilMs + 1
    ensures SeekHigh(stream, MaxBound(a)) == SeekLow(stream, MinBound(b))
  {
    var hi, lo := MaxBound(a), MinBound(b);
    RangeIsFilter(stream, lo, hi);
    forall k | 0 <= k < |stream| ensures UpToHigh(hi, stream[k].id) <==> !FromLow(lo, stream[k].id) {}
    hide UpToHigh, FromLow, MaxBound, MinBound;
  }

  /** Adjacent windows split the union at the entry where the second one starts. */
  lemma WindowsConcat(stream: seq<Entry>, a: Options, b: Options, u: Options) returns (i: nat)
    requires Ordered(stream) && Adjacent(a, b, u)
    requires Unlimited(stream, a) && Unlimited(stream, b) && Unlimited(stream, u)
    requires Window(stream, a) != [] && Window(stream, b) != []
    ensures Window(stream, u) == Window(stream, a) + Window(stream, b)
    ensures 0 < i < |stream| && stream[i] == Window(stream, b)[0]
    ensures stream[i - 1] == Window(stream, a)[|Window(stream, a)| - 1]
    ensures Window(stream, a)[0] == Window(stream, u)[0]
  {
    hide Window, Unlimited, SeekLow, SeekHigh, Ordered;
    CutPoint(stream, a, b);
    assert MinBound(u) == MinBound(a) && MaxBound(u) == MaxBound(b);
    hide MinBound, MaxBound;
    WindowIs(stream, a);
    WindowIs(stream, b);
    WindowIs(stream, u);
    i := SeekLow(stream, MinBound(b));
    JoinSlices(stream, SeekLow(stream, MinBound(a)), i, SeekHigh(stream, MaxBound(u)));
  }

  lemma WindowIs(stream: seq<Entry>, o: Options)
    requires Unlimited(stream, o)
    ensures Window(stream, o) ==
              var i, j := SeekLow(stream, MinBound(o)), SeekHigh(stream, MaxBound(o));
              if i <= j then stream[i..j] else []
  {
    hide SeekLow, SeekHigh, MinBound, MaxBound;
  }

  lemma JoinSlices<T>(s: seq<T>, i: nat, j: nat, k: nat)
    requires i <= j <= k <= |s|
    ensures s[i..k] == s[i..j] + s[j..k]
  {}

  lemma {:induction false} WalkEndsAt(w: Walker, first: bool, o: Options, es: seq<Entry>)
    requires es != [] && es[|es| - 1].payload.Decoded?
    ensures var e := es[|es| - 1].payload.event;
            var w' := Walk(w, first, o, es);
            w'.prevHash == e.eventHash && w'.prevSeq == e.seq_ && w'.hasPrev
    decreases |es|
  {
    var init := es[..|es| - 1];
    assert es == init + [es[|es| - 1]];
    WalkSnoc(w, first, o, init, es[|es| - 1]);
  }

  /** Two adjacent, unlimited, non-empty windows report together exactly what one walk over their
      union reports, provided the first ends in an entry whose hash recomputes and the second
      starts at an ID that fits int64. Tampering elsewhere does not matter. */
  lemma WindowGluing(stream: seq<Entry>, a: Options, b: Options, u: Options, f: bool)
    requires Ordered(stream) && Adjacent(a, b, u)
    requires Unlimited(stream, a) && Unlimited(stream, b) && Unlimited(stream, u)
    requires Window(stream, b) != [] && EndsSound(Window(stream, a))
    requires var id := Window(stream, b)[0].id; id.ms <= MAX_INT64 && id.n <= MAX_INT64
    ensures Sum(Verify(stream, u, f), Verify(stream, a, f), Verify(stream, b, false))
    ensures Verify(stream, u, f).status == Compromised <==>
              Verify(stream, a, f).status == Compromised || Verify(stream, b, false).status == Compromised
  {
    var ea, eb := Window(stream, a), Window(stream, b);
    var i := WindowsConcat(stream, a, b, u);
    hide Verify, Walk, Bootstrap, LastUpTo, XRevBefore, Sum;
    assert eb[0].id != Id(0, 0) by { RangeIsFilter(stream, MinBound(b), MaxBound(b)); }
    BootstrapReadsPredecessor(stream, i);
    var w, v := Bootstrap(stream, a, ea[0].id, f), Bootstrap(stream, b, eb[0].id, false);
    Bootstraps(stream, a, b, u, f, ea, eb[0].id);
    GlueWalks(w, v, a, b, u, ea, eb);
    SumOfVerdicts(stream, a, b, u, f);
  }

  lemma Bootstraps(stream: seq<Entry>, a: Options, b: Options, u: Options, f: bool, ea: seq<Entry>, first: StreamId)
    requires Adjacent(a, b, u) && EndsSound(ea)
    requires LastUpTo(stream, XRevBefore(first)) == Some(ea[|ea| - 1])
    ensures Bootstrap(stream, b, first, false) ==
              Walker(ea[|ea| - 1].payload.event.eventHash, ea[|ea| - 1].payload.event.seq_, true, EmptyResult(b))
    ensures var w := Bootstrap(stream, a, ea[0].id, f);
            Bootstrap(stream, u, ea[0].id, f) == w.(r := w.r.(retentionBoundarySeq := u.retentionBoundarySeq))
  {
    hide LastUpTo, XRevBefore, VerifyEventHash;
  }

  lemma SumOfVerdicts(stream: seq<Entry>, a: Options, b: Options, u: Options, f: bool)
    requires Window(stream, a) != [] && Window(stream, b) != [] && Window(stream, u) != []
    requires Sum(Walk(Bootstrap(stream, u, Window(stream, u)[0].id, f), true, u, Window(stream, u)).r,
                 Walk(Bootstrap(stream, a, Window(stream, a)[0].id, f), true, a, Window(stream, a)).r,
                 Walk(Bootstrap(stream, b, Window(stream, b)[0].id, false), true, b, Window(stream, b)).r)
    ensures Sum(Verify(stream, u, f), Verify(stream, a, f), Verify(stream, b, false))
    ensures Verify(stream, u, f).status == Compromised <==>
              Verify(stream, a, f).status == Compromised || Verify(stream, b, false).status == Compromised
  {
    hide Bootstrap, Window, Walk;
    assert Sum(Verify(stream, u, f), Verify(stream, a, f), Verify(stream, b, false));
    VerdictAccounting(stream, a, f);
    VerdictAccounting(stream, b, false);
    VerdictAccounting(stream, u, f);
    TamperedConcat(Verify(stream, a, f).gaps, Verify(stream, b, false).gaps);
    hide Verify, Tampered, Count;
  }

  lemma GlueWalks(w: Walker, v: Walker, a: Options, b: Options, u: Options, ea: seq<Entry>, eb: seq<Entry>)
    requires Adjacent(a, b, u) && EndsSound(ea)
    requires v == Walker(ea[|ea| - 1].payload.event.eventHash, ea[|ea| - 1].payload.event.seq_, true, EmptyResult(b))
    ensures var w' := w.(r := w.r.(retentionBoundarySeq := u.retentionBoundarySeq));
            Sum(Walk(w', true, u, ea + eb).r, Walk(w, true, a, ea).r, Walk(v, true, b, eb).r)
  {
    var w' := w.(r := w.r.(retentionBoundarySeq := u.retentionBoundarySeq));
    WalkConcat(w', true, u, ea, eb);
    SameReport(w', w, true, u, a, ea);
    var m := Walk(w', true, u, ea);
    WalkEndsAt(w', true, u, ea);
    hide Walk;
    assert m.r.gaps == m.r.gaps + [];
    WalkAdds(m, v, Walk(w, true, a, ea).r, true, u, b, eb);
  }

  /** Options that agree on the start and the key walk alike. */
  lemma {:induction false} SameReport(w: Walker, v: Walker, first: bool, o: Options, p: Options, es: seq<Entry>)
    requires o.sinceMs == p.sinceMs && o.hmacKey == p.hmacKey
    requires w == v.(r := v.r.(retentionBoundarySeq := w.r.retentionBoundarySeq))
    ensures Walk(w, first, o, es) ==
              Walk(v, first, p, es).(r := Walk(v, first, p, es).r.(retentionBoundarySeq := w.r.retentionBoundarySeq))
    decreases |es|
  {
    if es != [] {
      SameReport(WalkEntry(w, first, o, es[0]), WalkEntry(v, first, p, es[0]), false, o, p, es[1..]);
    }
  }
}
