/**
 What the checker makes of an entry that was altered after it was written (core/audit/chain_verify.go):
 the hash covers every field but Seq, EventHash and HMAC, and the next entry covers the hash.
 */
module TamperEvidence {
  import opened Wrappers
  import opened AuditEvent
  import opened Redis
  import opened ChainVerify
  import opened VerifyAccounting
  import opened VerifyTheorems
  import VerifyWindows

  /** The stream with the event of entry `k` exchanged. */
  function Altered(stream: seq<Entry>, k: nat, e: Event): seq<Entry>
    requires k < |stream|
  {
    stream[k := Entry(stream[k].id, Decoded(e))]
  }

  /** Range queries look at IDs only. */
  lemma {:induction false} SameSeek(s: seq<Entry>, t: seq<Entry>, lo: Bound, hi: Bound)
    requires |s| == |t| && forall i :: 0 <= i < |s| ==> s[i].id == t[i].id
    ensures SeekLow(s, lo) == SeekLow(t, lo) && SeekHigh(s, hi) == SeekHigh(t, hi)
  {
    hide FromLow, UpToHigh;
    if s != [] { SameSeek(s[1..], t[1..], lo, hi); }
  }

  /** The place of stream entry `k` in the window. */
  function PlaceOf(stream: seq<Entry>, o: Options, k: nat): int {
    k - SeekLow(stream, MinBound(o))
  }

  lemma AlteredWindow(stream: seq<Entry>, o: Options, k: nat, e: Event)
    requires k < |stream| && 0 <= PlaceOf(stream, o, k) < |Window(stream, o)|
    ensures var es, j := Window(stream, o), PlaceOf(stream, o, k);
            es[j] == stream[k] && Window(Altered(stream, k, e), o) == es[j := Entry(stream[k].id, Decoded(e))]
  {
    hide SeekLow, SeekHigh, EffectiveLimit;
    SameSeek(stream, Altered(stream, k, e), MinBound(o), MaxBound(o));
  }

  /** The alteration touches what is hashed. */
  predicate Differs(a: Event, b: Event) {
    a.body != b.body || a.prevHash != b.prevHash
  }

  lemma CleanEntry(key: Key, es: seq<Entry>, j: nat)
    requires Clean(false, NoHash, 0, key, es) && j < |es|
    ensures es[j].payload.Decoded? && EventOk(es[j].payload.event, key)
    ensures j + 1 < |es| ==>
              es[j + 1].payload.Decoded? && es[j + 1].payload.event.prevHash == es[j].payload.event.eventHash
  {
    hide EventOk;
    if j + 1 < |es| {
      var e, next := es[j].payload.event, es[j + 1].payload.event;
      assert LinkedAfter(true, es[j + 1 - 1].payload.event.eventHash, es[j + 1 - 1].payload.event.seq_, next);
    }
  }

  /** In a window that was not compromised, an entry whose body or PrevHash is altered makes the walk
      compromised: always if another entry follows it in the window or if its EventHash is kept, and
      with a key also if its HMAC is. So what can go unnoticed is an alteration of the window's last
      entry that comes with a new digest and, where there is a key, a new tag. */
  lemma AlterationIsNoticed(stream: seq<Entry>, o: Options, f: bool, f': bool, k: nat, e: Event)
    requires k < |stream| && 0 <= PlaceOf(stream, o, k) < |Window(stream, o)|
    requires Verify(stream, o, f).status != Compromised
    requires stream[k].payload.Decoded? && Differs(stream[k].payload.event, e)
    ensures var j, was := PlaceOf(stream, o, k), stream[k].payload.event;
            j < |Window(stream, o)| - 1 || e.eventHash == was.eventHash
            || (o.hmacKey != [] && was.hmac != NoTag && e.hmac == was.hmac) ==>
              Verify(Altered(stream, k, e), o, f').status == Compromised
  {
    hide Verify, Window, PlaceOf, Clean, VerifyEventHash, VerifyEventHMAC, MinBound;
    var es, j, was := Window(stream, o), PlaceOf(stream, o, k), stream[k].payload.event;
    var es' := Window(Altered(stream, k, e), o);
    AlteredWindow(stream, o, k, e);
    assert j + 1 < |es| ==> es'[j + 1] == es[j + 1];
    AcceptedIsClean(stream, o, f);
    CleanEntry(o.hmacKey, es, j);
    if Verify(Altered(stream, k, e), o, f').status != Compromised {
      AcceptedIsClean(Altered(stream, k, e), o, f');
      CleanEntry(o.hmacKey, es', j);
      HashPins(was, e);
      if o.hmacKey != [] && was.hmac != NoTag && e.hmac == was.hmac { TagPins(was, o.hmacKey, e, o.hmacKey); }
    }
  }

  /** The lookup before the window does not see the altered entry. */
  lemma SameStart(stream: seq<Entry>, o: Options, f: bool, k: nat, e: Event)
    requires Ordered(stream) && k < |stream| && 0 <= PlaceOf(stream, o, k) < |Window(stream, o)|
    requires var id := Window(stream, o)[0].id; o.sinceMs > 0 ==> id.ms <= MAX_INT64 && id.n <= MAX_INT64
    ensures var id := Window(stream, o)[0].id;
            Bootstrap(Altered(stream, k, e), o, id, f) == Bootstrap(stream, o, id, f)
  {
    if o.sinceMs > 0 {
      var i := SeekLow(stream, MinBound(o));
      assert Window(stream, o)[0] == stream[i] && stream[i].id.ms >= 1;
      hide Window, SeekLow, SeekHigh, LastUpTo, XRevBefore;
      VerifyWindows.BootstrapReadsPredecessor(stream, i);
      VerifyWindows.BootstrapReadsPredecessor(Altered(stream, k, e), i);
    }
  }

  lemma CleanButLast(hasPrev: bool, prevHash: Hash, prevSeq: int64, key: Key, es: seq<Entry>, e: Event)
    requires es != [] && Clean(hasPrev, prevHash, prevSeq, key, es)
    requires var was := es[|es| - 1].payload.event; e.seq_ == was.seq_ && e.prevHash == was.prevHash
    ensures var n := |es| - 1;
            Clean(hasPrev, prevHash, prevSeq, key, es[n := Entry(es[n].id, Decoded(e))]) <==> EventOk(e, key)
  {
    hide EventOk, StepOk;
    var n := |es| - 1;
    var es' := es[n := Entry(es[n].id, Decoded(e))];
    assert es'[n].payload.event == e;
    forall i | 0 < i < |es|
      ensures LinkedAfter(true, es'[i - 1].payload.event.eventHash, es'[i - 1].payload.event.seq_, es'[i].payload.event)
    {
      assert LinkedAfter(true, es[i - 1].payload.event.eventHash, es[i - 1].payload.event.seq_, es[i].payload.event);
    }
  }

  /** The last entry has nothing behind it: with Seq and PrevHash kept, an alteration of it goes unnoticed
      if and only if its digest and, where a key is given, its tag recompute. */
  lemma LastEntryExactly(stream: seq<Entry>, o: Options, f: bool, k: nat, e: Event)
    requires Ordered(stream) && k < |stream| && 0 <= PlaceOf(stream, o, k) == |Window(stream, o)| - 1
    requires var id := Window(stream, o)[0].id; o.sinceMs > 0 ==> id.ms <= MAX_INT64 && id.n <= MAX_INT64
    requires Verify(stream, o, f).status != Compromised && stream[k].payload.Decoded?
    requires e.seq_ == stream[k].payload.event.seq_ && e.prevHash == stream[k].payload.event.prevHash
    ensures Verify(Altered(stream, k, e), o, f).status != Compromised <==>
              VerifyEventHash(e) && (o.hmacKey != [] ==> VerifyEventHMAC(e, o.hmacKey))
  {
    hide Window, PlaceOf, Clean, VerifyEventHash, VerifyEventHMAC, MinBound, Walk, Bootstrap;
    var es := Window(stream, o);
    var w := Bootstrap(stream, o, es[0].id, f);
    AlteredWindow(stream, o, k, e);
    SameStart(stream, o, f, k, e);
    var es' := Window(Altered(stream, k, e), o);
    assert es'[0].id == es[0].id;
    BootstrapBlank(stream, o, es[0].id, f);
    WalkClean(w, true, o, es);
    WalkClean(w, true, o, es');
    CleanButLast(w.hasPrev, w.prevHash, w.prevSeq, o.hmacKey, es, e);
  }
}
