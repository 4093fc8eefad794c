/**
 The integrity checker (core/audit/chain_verify.go): `Verify` defines the walk, the method
 `VerifyChain` runs it as the source does, in loops over local variables.
 */
module ChainVerify {
  import opened Wrappers
  import opened AuditEvent
  import opened Redis

  datatype Status = Intact | Compromised | Partial

  datatype GapType = Missing | OutOfOrder | HashMismatch | RetentionTrimmed | HmacMismatch

  datatype Gap = Gap(atSeq: int64, kind: GapType)

  datatype Result = Result(
    status: Status, totalEvents: nat, verifiedEvents: nat, gaps: seq<Gap>,
    retentionBoundarySeq: int64, firstSeq: int64, lastSeq: int64,
    hmacVerified: nat, hmacSkipped: nat, hmacSeen: bool)

  const MAX_TRIMMED_GAPS: int64 := 1000
  const DEFAULT_VERIFY_LIMIT: int64 := 10_000
  const MAX_VERIFY_LIMIT: int64 := 100_000

  datatype Options = Options(sinceMs: int64, untilMs: int64, limit: int64, retentionBoundarySeq: int64, hmacKey: Key)

  function EffectiveLimit(limit: int64): nat {
    if limit <= 0 then DEFAULT_VERIFY_LIMIT
    else if limit > MAX_VERIFY_LIMIT then MAX_VERIFY_LIMIT
    else limit
  }

  function MinBound(o: Options): Bound {
    if o.sinceMs > 0 then At(Id(o.sinceMs, 0)) else Lowest
  }

  function MaxBound(o: Options): Bound {
    if o.untilMs > 0 then At(Id(o.untilMs, MAX_UINT64)) else Highest
  }

  /** The entries one call reads. */
  function Window(stream: seq<Entry>, o: Options): seq<Entry> {
    XRangeN(stream, MinBound(o), MaxBound(o), EffectiveLimit(o.limit))
  }

  /** xRevBefore: the ID just below `id`, or "+" where the source gives up (parts beyond int64,
      and 0-0, which has no predecessor). */
  function XRevBefore(id: StreamId): Bound {
    if id.ms > MAX_INT64 || id.n > MAX_INT64 then Highest
    else if id.n > 0 then At(Id(id.ms, id.n - 1))
    else if id.ms > 0 then At(Id(id.ms - 1, MAX_UINT64))
    else Highest
  }

  // ---------------------------------------------------------------- the walk

  /** Loop state: what the next entry is compared with, and the report so far. */
  datatype Walker = Walker(prevHash: Hash, prevSeq: int64, hasPrev: bool, r: Result)

  function GapRun(lo: int, hi: int, kind: GapType): seq<Gap>
    requires -0x8000_0000_0000_0000 <= lo && hi <= MAX_INT64 + 1
    decreases hi - lo
  {
    if lo >= hi then [] else [Gap(lo, kind)] + GapRun(lo + 1, hi, kind)
  }

  /** Seqs 1 .. first-1 are reported as trimmed, at most 1000 of them. */
  function TrimmedGaps(first: bool, o: Options, q: int64): seq<Gap> {
    if first && o.sinceMs == 0 && q > 1
    then GapRun(1, (if q - 1 > MAX_TRIMMED_GAPS then MAX_TRIMMED_GAPS else q - 1) + 1, RetentionTrimmed)
    else []
  }

  function OrderGaps(w: Walker, q: int64): seq<Gap> {
    if !w.hasPrev then []
    else if q < w.prevSeq then [Gap(q, OutOfOrder)]
    else if q > Inc(w.prevSeq) then GapRun(Inc(w.prevSeq), q, Missing)
    else []
  }

  function HashGaps(w: Walker, e: Event): seq<Gap> {
    if !VerifyEventHash(e) || (w.hasPrev && e.prevHash != w.prevHash) then [Gap(e.seq_, HashMismatch)] else []
  }

  function HmacGaps(key: Key, e: Event): seq<Gap> {
    if key != [] && e.hmac != NoTag && !VerifyEventHMAC(e, key) then [Gap(e.seq_, HmacMismatch)] else []
  }

  function EventGaps(w: Walker, first: bool, o: Options, e: Event): seq<Gap> {
    TrimmedGaps(first, o, e.seq_) + OrderGaps(w, e.seq_) + HashGaps(w, e) + HmacGaps(o.hmacKey, e)
  }

  function WalkEvent(w: Walker, first: bool, o: Options, e: Event): Walker {
    var r := w.r;
    var tampered := OrderGaps(w, e.seq_) + HashGaps(w, e) + HmacGaps(o.hmacKey, e) != [];
    Walker(e.eventHash, e.seq_, true, r.(
      status := if tampered then Compromised else r.status,
      totalEvents := r.totalEvents + 1,
      verifiedEvents := r.verifiedEvents + if HashGaps(w, e) == [] then 1 else 0,
      gaps := r.gaps + EventGaps(w, first, o, e),
      firstSeq := if first then e.seq_ else r.firstSeq,
      lastSeq := e.seq_,
      hmacSeen := r.hmacSeen || e.hmac != NoTag,
      hmacSkipped := r.hmacSkipped + if o.hmacKey != [] && e.hmac == NoTag then 1 else 0,
      hmacVerified := r.hmacVerified +
        if o.hmacKey != [] && e.hmac != NoTag && VerifyEventHMAC(e, o.hmacKey) then 1 else 0))
  }

  function WalkEntry(w: Walker, first: bool, o: Options, entry: Entry): Walker {
    match entry.payload
    case Decoded(e) => WalkEvent(w, first, o, e)
    case _ => w.(r := w.r.(status := Compromised, gaps := w.r.gaps + [Gap(Inc(w.prevSeq), HashMismatch)]))
  }

  function Walk(w: Walker, first: bool, o: Options, es: seq<Entry>): Walker
    decreases |es|
  {
    if es == [] then w else Walk(WalkEntry(w, first, o, es[0]), false, o, es[1..])
  }

  function EmptyResult(o: Options): Result {
    Result(Intact, 0, 0, [], o.retentionBoundarySeq, 0, 0, 0, 0, false)
  }

  /** The loop state before the first entry: a windowed walk looks up the entry before it.
      `predFault` says that this lookup failed. */
  function Bootstrap(stream: seq<Entry>, o: Options, first: StreamId, predFault: bool): Walker {
    var blank := Walker(NoHash, 0, false, EmptyResult(o));
    if o.sinceMs <= 0 || predFault then blank
    else match LastUpTo(stream, XRevBefore(first))
    case None => blank.(r := blank.r.(status := Partial))
    case Some(pred) =>
      match pred.payload
      case Decoded(e) =>
        if VerifyEventHash(e) then Walker(e.eventHash, e.seq_, true, blank.r)
        else blank.(r := blank.r.(status := Partial))
      case _ => blank
  }

  function Verdict(r: Result): Result {
    if r.status == Intact && r.gaps != [] then r.(status := Partial) else r
  }

  function Verify(stream: seq<Entry>, o: Options, predFault: bool): Result {
    var es := Window(stream, o);
    if es == [] then EmptyResult(o)
    else Verdict(Walk(Bootstrap(stream, o, es[0].id, predFault), true, o, es).r)
  }

  // ---------------------------------------------------------------- the loops

  lemma {:induction false} GapRunSnoc(lo: int, hi: int, kind: GapType)
    requires MIN_INT64 <= lo <= hi <= MAX_INT64
    ensures GapRun(lo, hi + 1, kind) == GapRun(lo, hi, kind) + [Gap(hi, kind)]
    decreases hi - lo
  {
    if lo < hi { GapRunSnoc(lo + 1, hi, kind); }
  }

  lemma {:induction false} GapRunLength(lo: int, hi: int, kind: GapType)
    requires MIN_INT64 <= lo <= hi <= MAX_INT64 + 1
    ensures |GapRun(lo, hi, kind)| == hi - lo
    ensures forall i :: 0 <= i < hi - lo ==> GapRun(lo, hi, kind)[i] == Gap(lo + i, kind)
    decreases hi - lo
  {
    if lo < hi { GapRunLength(lo + 1, hi, kind); }
  }

  lemma {:induction false} WalkSnoc(w: Walker, first: bool, o: Options, es: seq<Entry>, e: Entry)
    ensures Walk(w, first, o, es + [e]) == WalkEntry(Walk(w, first, o, es), first && es == [], o, e)
    decreases |es|
  {
    if es == [] {
      assert es + [e] == [e];
      assert [e][1..] == [];
    } else {
      assert (es + [e])[1..] == es[1..] + [e];
      WalkSnoc(WalkEntry(w, first, o, es[0]), false, o, es[1..], e);
    }
  }

  /** Append the gaps lo .. hi-1, as the source's inner loops do. */
  method AppendGaps(gaps: seq<Gap>, lo: int64, hi: int64, kind: GapType) returns (out: seq<Gap>)
    ensures out == gaps + GapRun(lo, hi, kind)
  {
    out := gaps;
    var missing := lo;
    while missing < hi
      invariant lo <= missing && (missing <= hi || missing == lo)
      invariant out == gaps + GapRun(lo, missing, kind)
      decreases hi - missing
    {
      GapRunSnoc(lo, missing, kind);
      out := out + [Gap(missing, kind)];
      missing := missing + 1;
    }
  }

  function Raise(status: Status, gaps: seq<Gap>): Status {
    if gaps != [] then Compromised else status
  }

  /** The retention prefix and the missing / out-of-order check. */
  method CheckOrder(w: Walker, i: nat, o: Options, q: int64) returns (status: Status, gaps: seq<Gap>)
    ensures gaps == w.r.gaps + TrimmedGaps(i == 0, o, q) + OrderGaps(w, q)
    ensures status == Raise(w.r.status, OrderGaps(w, q))
  {
    hide GapRun;
    status, gaps := w.r.status, w.r.gaps;
    if i == 0 && o.sinceMs == 0 && q > 1 {
      var emit := q - 1;
      if emit > MAX_TRIMMED_GAPS { emit := MAX_TRIMMED_GAPS; }
      gaps := AppendGaps(gaps, 1, emit + 1, RetentionTrimmed);
    }
    if w.hasPrev {
      if q < w.prevSeq {
        status, gaps := Compromised, gaps + [Gap(q, OutOfOrder)];
      } else if q > Inc(w.prevSeq) {
        status := Compromised;
        gaps := AppendGaps(gaps, Inc(w.prevSeq), q, Missing);
        assert GapRun(Inc(w.prevSeq), q, Missing) != [] by { GapRunLength(Inc(w.prevSeq), q, Missing); }
      }
    }
  }

  /** Hash recomputation, then linkage. */
  method CheckHash(w: Walker, e: Event, status: Status, gaps: seq<Gap>)
    returns (status': Status, gaps': seq<Gap>, ok: bool)
    ensures gaps' == gaps + HashGaps(w, e) && status' == Raise(status, HashGaps(w, e))
    ensures ok <==> HashGaps(w, e) == []
  {
    status', gaps', ok := status, gaps, false;
    if !VerifyEventHash(e) {
      status', gaps' := Compromised, gaps + [Gap(e.seq_, HashMismatch)];
    } else if w.hasPrev && e.prevHash != w.prevHash {
      status', gaps' := Compromised, gaps + [Gap(e.seq_, HashMismatch)];
    } else {
      ok := true;
    }
  }

  /** HMAC verification, when a key is supplied and the event carries a tag. */
  method CheckHmac(key: Key, e: Event, status: Status, gaps: seq<Gap>, skipped: nat, verified: nat)
    returns (status': Status, gaps': seq<Gap>, skipped': nat, verified': nat)
    ensures gaps' == gaps + HmacGaps(key, e) && status' == Raise(status, HmacGaps(key, e))
    ensures skipped' == skipped + if key != [] && e.hmac == NoTag then 1 else 0
    ensures verified' == verified + if key != [] && e.hmac != NoTag && VerifyEventHMAC(e, key) then 1 else 0
  {
    status', gaps', skipped', verified' := status, gaps, skipped, verified;
    if key != [] {
      if e.hmac == NoTag {
        skipped' := skipped + 1;
      } else if !VerifyEventHMAC(e, key) {
        status', gaps' := Compromised, gaps + [Gap(e.seq_, HmacMismatch)];
      } else {
        verified' := verified + 1;
      }
    }
  }

  /** One loop iteration of VerifyChain on a decoded event. */
  method VisitEvent(w: Walker, i: nat, o: Options, e: Event) returns (w': Walker)
    ensures w' == WalkEvent(w, i == 0, o, e)
  {
    var r := w.r;
    var status, gaps := CheckOrder(w, i, o, e.seq_);
    var ok;
    status, gaps, ok := CheckHash(w, e, status, gaps);
    var skipped, verified;
    status, gaps, skipped, verified := CheckHmac(o.hmacKey, e, status, gaps, r.hmacSkipped, r.hmacVerified);
    hide OrderGaps, TrimmedGaps, HashGaps, HmacGaps, VerifyEventHMAC;
    assert gaps == r.gaps + EventGaps(w, i == 0, o, e);
    w' := Walker(e.eventHash, e.seq_, true,
                 Result(status, r.totalEvents + 1, r.verifiedEvents + if ok then 1 else 0, gaps,
                        r.retentionBoundarySeq, if i == 0 then e.seq_ else r.firstSeq, e.seq_,
                        verified, skipped, r.hmacSeen || e.hmac != NoTag));
  }

  /** VerifyChain computes `Verify`. */
  method VerifyChain(stream: seq<Entry>, o: Options, predFault: bool) returns (r: Result)
    ensures r == Verify(stream, o, predFault)
  {
    var es := Window(stream, o);
    if es == [] { return EmptyResult(o); }
    var w := Bootstrap(stream, o, es[0].id, predFault);
    ghost var w0 := w;
    for i := 0 to |es|
      invariant w == Walk(w0, true, o, es[..i])
    {
      assert es[..i + 1] == es[..i] + [es[i]];
      WalkSnoc(w0, true, o, es[..i], es[i]);
      match es[i].payload
      case NoEventField =>
        w := w.(r := w.r.(status := Compromised, gaps := w.r.gaps + [Gap(Inc(w.prevSeq), HashMismatch)]));
      case Undecodable =>
        w := w.(r := w.r.(status := Compromised, gaps := w.r.gaps + [Gap(Inc(w.prevSeq), HashMismatch)]));
      case Decoded(e) =>
        w := VisitEvent(w, i, o, e);
    }
    assert es[..|es|] == es;
    r := w.r;
    if r.status == Intact && r.gaps != [] { r := r.(status := Partial); }
  }
}
