/**
 Cross-component results about the checker: it accepts every log the append protocol can
 produce, it pins down history, and adjacent windows add up to one walk.
 */
module VerifyTheorems {
  import opened AuditEvent
  import opened Redis
  import opened Chain
  import opened ChainSafety
  import opened ChainCommits
  import opened ChainVerify
  import opened VerifyAccounting

  // ---------------------------------------------------------------- unique history

  /** An accepted window is clean. */
  lemma AcceptedIsClean(stream: seq<Entry>, o: Options, predFault: bool)
    requires Window(stream, o) != [] && Verify(stream, o, predFault).status != Compromised
    ensures Clean(false, NoHash, 0, o.hmacKey, Window(stream, o))
  {
    var es := Window(stream, o);
    var w := Bootstrap(stream, o, es[0].id, predFault);
    BootstrapBlank(stream, o, es[0].id, predFault);
    WalkClean(w, true, o, es);
    hide Walk, Bootstrap, Window;
  }

  lemma {:induction false} AgreeBackwards(a: seq<Entry>, ka: Key, b: seq<Entry>, kb: Key, i: nat)
    requires Clean(false, NoHash, 0, ka, a) && Clean(false, NoHash, 0, kb, b)
    requires i < |a| && i < |b|
    requires a[|a| - 1].payload.event.eventHash == b[|b| - 1].payload.event.eventHash
    ensures a[|a| - 1 - i].payload.event.eventHash == b[|b| - 1 - i].payload.event.eventHash
    ensures a[|a| - 1 - i].payload.event.body == b[|b| - 1 - i].payload.event.body
    ensures a[|a| - 1 - i].payload.event.prevHash == b[|b| - 1 - i].payload.event.prevHash
  {
    hide VerifyEventHash, VerifyEventHMAC;
    var x, y := a[|a| - 1 - i].payload.event, b[|b| - 1 - i].payload.event;
    assert EventOk(x, ka) && EventOk(y, kb);
    if i > 0 {
      AgreeBackwards(a, ka, b, kb, i - 1);
      var x', y' := a[|a| - i].payload.event, b[|b| - i].payload.event;
      assert LinkedAfter(true, x.eventHash, x.seq_, x') && LinkedAfter(true, y.eventHash, y.seq_, y');
    }
    HashPins(x, y);
  }

  predicate EndsWith(es: seq<Entry>, h: Hash) {
    es != [] && es[|es| - 1].payload.Decoded? && es[|es| - 1].payload.event.eventHash == h
  }

  /** Two windows that are not compromised and end in the same EventHash agree backwards, entry
      by entry over the shorter length, on every field but Seq and HMAC. */
  lemma UniqueHistory(s1: seq<Entry>, o1: Options, f1: bool, s2: seq<Entry>, o2: Options, f2: bool, h: Hash, i: nat)
    requires Verify(s1, o1, f1).status != Compromised && Verify(s2, o2, f2).status != Compromised
    requires EndsWith(Window(s1, o1), h) && EndsWith(Window(s2, o2), h)
    requires i < |Window(s1, o1)| && i < |Window(s2, o2)|
    ensures var a, b := Window(s1, o1), Window(s2, o2);
            && a[|a| - 1 - i].payload.Decoded? && b[|b| - 1 - i].payload.Decoded?
            && a[|a| - 1 - i].payload.event.eventHash == b[|b| - 1 - i].payload.event.eventHash
            && a[|a| - 1 - i].payload.event.prevHash == b[|b| - 1 - i].payload.event.prevHash
            && a[|a| - 1 - i].payload.event.body == b[|b| - 1 - i].payload.event.body
  {
    hide Verify, Window, EventOk, LinkedAfter;
    AcceptedIsClean(s1, o1, f1);
    AcceptedIsClean(s2, o2, f2);
    AgreeBackwards(Window(s1, o1), o1.hmacKey, Window(s2, o2), o2.hmacKey, i);
  }

  /** The number of entries, among the last `i`, that repeat the seq of the one before them. */
  ghost function Repeats(es: seq<Entry>, i: nat): nat
    requires i < |es| && forall k :: 0 <= k < |es| ==> es[k].payload.Decoded?
  {
    if i == 0 then 0
    else
      var k := |es| - i;
      Repeats(es, i - 1) + (if es[k].payload.event.seq_ == es[k - 1].payload.event.seq_ then 1 else 0)
  }

  lemma {:induction false} SeqFromEnd(es: seq<Entry>, key: Key, i: nat)
    requires Clean(false, NoHash, 0, key, es) && i < |es|
    ensures es[|es| - 1 - i].payload.event.seq_ == es[|es| - 1].payload.event.seq_ - i + Repeats(es, i)
  {
    hide EventOk;
    if i > 0 {
      SeqFromEnd(es, key, i - 1);
      var k := |es| - i;
      assert LinkedAfter(true, es[k - 1].payload.event.eventHash, es[k - 1].payload.event.seq_, es[k].payload.event);
    }
  }

  /** When Seq agrees too: for two windows that are not compromised and end in the same EventHash, the
      Seqs at distance i from the end are equal if and only if the last Seqs differ by exactly the
      difference in the numbers of repeated Seqs over those i entries. Without repeats they are equal
      exactly when the last ones are. */
  lemma SeqsAgreeExactly(s1: seq<Entry>, o1: Options, f1: bool, s2: seq<Entry>, o2: Options, f2: bool, h: Hash, i: nat)
    requires Verify(s1, o1, f1).status != Compromised && Verify(s2, o2, f2).status != Compromised
    requires EndsWith(Window(s1, o1), h) && EndsWith(Window(s2, o2), h)
    requires i < |Window(s1, o1)| && i < |Window(s2, o2)|
    ensures var a, b := Window(s1, o1), Window(s2, o2);
            var m, n := |a| - 1, |b| - 1;
            && (forall k :: 0 <= k < |a| ==> a[k].payload.Decoded?)
            && (forall k :: 0 <= k < |b| ==> b[k].payload.Decoded?)
            && a[m - i].payload.event.body == b[n - i].payload.event.body
            && a[m - i].payload.event.prevHash == b[n - i].payload.event.prevHash
            && (a[m - i].payload.event.seq_ == b[n - i].payload.event.seq_ <==>
                  a[m].payload.event.seq_ - b[n].payload.event.seq_ == Repeats(b, i) - Repeats(a, i))
            && (Repeats(a, i) == Repeats(b, i) == 0 ==>
                  (a[m - i].payload.event.seq_ == b[n - i].payload.event.seq_ <==>
                     a[m].payload.event.seq_ == b[n].payload.event.seq_))
  {
    hide Verify, Window, EventOk, LinkedAfter, Repeats;
    AcceptedIsClean(s1, o1, f1);
    AcceptedIsClean(s2, o2, f2);
    UniqueHistory(s1, o1, f1, s2, o2, f2, h, i);
    SeqFromEnd(Window(s1, o1), o1.hmacKey, i);
    SeqFromEnd(Window(s2, o2), o2.hmacKey, i);
  }

  /** Seq is not a hashed field: two one-entry streams that differ in it alone both verify, with
      the same EventHash. */
  lemma SeqIsNotAttested(id: StreamId, e: Event)
    requires Marshals(e) && e.eventHash == Sha256(Cleared(e)) && e.hmac == NoTag
    ensures var o := Options(0, 0, 0, 0, []);
            var a, b := [Entry(id, Decoded(e.(seq_ := 0)))], [Entry(id, Decoded(e.(seq_ := 1)))];
            && Verify(a, o, false).status == Intact && Verify(b, o, false).status == Intact
            && Window(a, o) == a && Window(b, o) == b && a != b
  {
    var o := Options(0, 0, 0, 0, []);
    SingleIsIntact(id, e.(seq_ := 0), o);
    SingleIsIntact(id, e.(seq_ := 1), o);
  }

  lemma SingleIsIntact(id: StreamId, e: Event, o: Options)
    requires o == Options(0, 0, 0, 0, []) && VerifyEventHash(e) && 0 <= e.seq_ <= 1
    ensures Window([Entry(id, Decoded(e))], o) == [Entry(id, Decoded(e))]
    ensures Verify([Entry(id, Decoded(e))], o, false).status == Intact
  {
    hide GapRun, VerifyEventHash;
    var s := [Entry(id, Decoded(e))];
    assert SeekLow(s, Lowest) == 0 && SeekHigh(s, Highest) == 1;
    assert Window(s, o) == s;
    var w := Bootstrap(s, o, id, false);
    assert EventGaps(w, true, o, e) == [];
    assert Walk(w, true, o, s) == Walk(WalkEvent(w, true, o, e), false, o, s[1..]);
    assert s[1..] == [];
  }

  // ---------------------------------------------------------------- completeness

  lemma WindowIsPrefix(stream: seq<Entry>, o: Options)
    requires o.sinceMs <= 0
    ensures Window(stream, o) <= stream
  {
    assert SeekLow(stream, Lowest) == 0;
  }

  /** With one HMAC key everywhere, every chained event carries its tag. */
  ghost predicate Tagged(s: State, key: Key) {
    && (forall c :: c in s.chainers ==> s.chainers[c].key == key)
    && (forall t, i :: 0 <= i < |History(s, t)| ==> EntryTagged(History(s, t)[i], key))
    && (forall id :: id in s.calls && s.calls[id].pc.Armed? ==>
        s.calls[id].event.hmac == Hmac(key, Cleared(s.calls[id].event)))
  }

  predicate EntryTagged(e: Entry, key: Key) {
    e.payload.Decoded? ==> e.payload.event.hmac == Hmac(key, Cleared(e.payload.event))
  }

  lemma PrepareTags(e: Event, raw: RawHead, key: Key)
    requires key != []
    ensures Prepare(e, raw, key).Filled? ==>
              Prepare(e, raw, key).event.hmac == Hmac(key, Cleared(Prepare(e, raw, key).event))
  {}

  lemma ArmTags(s: State, id: nat, raw: RawHead, cached: bool, key: Key)
    requires IsCall(s, id) && key != [] && s.chainers[s.calls[id].chainer].key == key
    ensures var s' := Arm(s, id, raw, cached);
            && s'.chainers == s.chainers && id in s'.calls
            && (s'.calls[id].pc.Armed? ==> s'.calls[id].event.hmac == Hmac(key, Cleared(s'.calls[id].event)))
  {
    PrepareTags(s.calls[id].event, raw, key);
    hide Prepare;
  }

  lemma QuietTags(s: State, st: Step, key: Key)
    requires key != [] && Tagged(s, key) && Enabled(s, st) && !st.RunScript? && !st.Trim? && !st.DropHead?
    ensures var s' := Apply(s, st);
            && (forall c :: c in s'.chainers ==> s'.chainers[c].key == key)
            && st.id in s'.calls
            && (s'.calls[st.id].pc.Armed? ==> s'.calls[st.id].event.hmac == Hmac(key, Cleared(s'.calls[st.id].event)))
  {
    hide HeadKey, StreamKey, Prepare;
    match st
    case ReadCache(id) =>
      var ch := s.chainers[s.calls[id].chainer];
      if ch.cache.Cached? { ArmTags(s, id, ch.cache.raw, true, key); }
      hide Arm;
    case ReadHead(id, fault) =>
      var g := Get(s.db, HeadKey(s.calls[id].Tenant()));
      if g.Got? { ArmTags(s, id, g.value, false, key); }
      hide Arm;
    case Invoke(_, _, _) =>
    case Acquire(_) =>
    case Cancel(_) =>
    case StoreCache(_) =>
    case Invalidate(_) =>
    case Wake(_) =>
  }

  lemma ScriptTags(s: State, st: Step, key: Key)
    requires st.RunScript? && key != [] && Tagged(s, key) && Enabled(s, st)
    ensures Tagged(DoRunScript(s, st.id, st.streamId, st.netFault), key)
  {
    hide HeadKey, StreamKey, AppendScript;
    var s' := DoRunScript(s, st.id, st.streamId, st.netFault);
    ScriptShape(s, st.id, st.streamId, st.netFault);
    hide DoRunScript, Get, Entries;
    var u := s.calls[st.id].Tenant();
    forall t, i | 0 <= i < |History(s', t)| ensures EntryTagged(History(s', t)[i], key) {
      if t != u || s'.log == s.log {
        assert History(s', t) == History(s, t);
      } else if i < |History(s', t)| - 1 {
        assert EntryTagged(History(s, t)[i], key);
      }
    }
  }

  lemma StepKeepsTags(s: State, st: Step, key: Key)
    requires key != [] && Tagged(s, key) && Enabled(s, st)
    ensures Tagged(Apply(s, st), key)
  {
    hide HeadKey, StreamKey;
    var s' := Apply(s, st);
    if st.RunScript? {
      ScriptTags(s, st, key);
      hide DoRunScript, Tagged;
    } else if !st.Trim? && !st.DropHead? {
      QuietShape(s, st);
      QuietTags(s, st, key);
      hide Apply;
      forall t, i | 0 <= i < |History(s', t)| ensures EntryTagged(History(s', t)[i], key) {
        assert History(s', t) == History(s, t);
      }
    } else {
      forall t, i | 0 <= i < |History(s', t)| ensures EntryTagged(History(s', t)[i], key) {
        assert History(s', t) == History(s, t);
      }
    }
  }

  lemma {:induction false} RunKeepsTags(s: State, steps: seq<Step>, key: Key)
    requires key != [] && Tagged(s, key) && ValidRun(s, steps)
    ensures Tagged(Run(s, steps), key)
    decreases |steps|
  {
    if steps != [] {
      StepKeepsTags(s, steps[0], key);
      RunKeepsTags(Apply(s, steps[0]), steps[1..], key);
    }
  }

  /** The tail of a chain, read from its start, is clean and verifies completely. */
  lemma TailIsClean(h: seq<Entry>, t: string, k: nat, n: nat, key: Key)
    requires Chained(h, t) && |h| <= MAX_INT64 && k <= n <= |h|
    requires key == [] || forall i :: 0 <= i < |h| ==> EntryTagged(h[i], key)
    ensures Clean(false, NoHash, 0, key, h[k..n])
  {
    var es := h[k..n];
    forall i | 0 <= i < |es| ensures es[i].payload.Decoded? && EventOk(es[i].payload.event, key) {
      assert LinkOk(h, t, k + i) && es[i] == h[k + i];
    }
    forall i | 0 < i < |es|
      ensures LinkedAfter(true, es[i - 1].payload.event.eventHash, es[i - 1].payload.event.seq_, es[i].payload.event)
    {
      assert LinkOk(h, t, k + i) && LinkOk(h, t, k + i - 1) && es[i] == h[k + i] && es[i - 1] == h[k + i - 1];
    }
  }

  /** For every log built by the protocol, trimmed by k leading entries: an unwindowed, non-empty
      walk verifies every entry it reads and is ok when k = 0, else partial with exactly
      min(k, 1000) retention gaps numbered from 1. A key must be the one all writers sign with;
      the chain must be short of 2^63 events, where its seq wraps. */
  lemma CheckerCompleteness(s: State, steps: seq<Step>, t: string, o: Options, predFault: bool)
    requires Init(s) && ValidRun(s, steps)
    requires o.hmacKey == [] || forall c :: c in s.chainers ==> s.chainers[c].key == o.hmacKey
    requires Entries(Run(s, steps).db, StreamKey(t)).Got? && |History(Run(s, steps), t)| <= MAX_INT64
    requires o.sinceMs == 0 && Window(Entries(Run(s, steps).db, StreamKey(t)).value, o) != []
    ensures var stream := Entries(Run(s, steps).db, StreamKey(t)).value;
            var k := |History(Run(s, steps), t)| - |stream|;
            var r := Verify(stream, o, predFault);
            && k >= 0
            && r.verifiedEvents == r.totalEvents == |Window(stream, o)|
            && r.status == (if k == 0 then Intact else Partial)
            && r.gaps == GapRun(1, (if k > MAX_TRIMMED_GAPS then MAX_TRIMMED_GAPS else k) + 1, RetentionTrimmed)
  {
    hide GapRun, HeadKey, StreamKey, Verify, Run, ValidRun, Window, Clean, EntryTagged, Chained, IsSuffix, Entries,
      Init, History;
    var s' := Run(s, steps);
    var stream := Entries(s'.db, StreamKey(t)).value;
    ReachableTail(s, steps, t, o.hmacKey, stream);
    var h := History(s', t);
    var k := |h| - |stream|;
    WindowIsPrefix(stream, o);
    var es := Window(stream, o);
    WindowOfTail(h, t, stream, es);
    TailIsClean(h, t, k, k + |es|, o.hmacKey);
    CleanReport(stream, o, predFault, k);
  }

  lemma WindowOfTail(h: seq<Entry>, t: string, stream: seq<Entry>, es: seq<Entry>)
    requires Chained(h, t) && IsSuffix(stream, h) && es <= stream && es != [] && |h| <= MAX_INT64
    ensures var k := |h| - |stream|;
            && 0 <= k < k + |es| <= |h| && es == h[k..k + |es|]
            && es[0].payload.Decoded? && es[0].payload.event.seq_ == k + 1
  {
    var k := |h| - |stream|;
    assert es == h[k..][..|es|] == h[k..k + |es|];
    assert LinkOk(h, t, k) && es[0] == h[k];
  }

  /** In a reachable state the stream is the tail of a (tagged) chain. */
  lemma ReachableTail(s: State, steps: seq<Step>, t: string, key: Key, stream: seq<Entry>)
    requires Init(s) && ValidRun(s, steps)
    requires key == [] || forall c :: c in s.chainers ==> s.chainers[c].key == key
    requires Entries(Run(s, steps).db, StreamKey(t)) == Got(stream)
    ensures var h := History(Run(s, steps), t);
            && Chained(h, t) && IsSuffix(stream, h)
            && (key == [] || forall i :: 0 <= i < |h| ==> EntryTagged(h[i], key))
  {
    hide HeadKey, StreamKey;
    InitInv(s);
    RunKeepsInv(s, steps);
    if key != [] { RunKeepsTags(s, steps, key); }
    var s' := Run(s, steps);
    hide Run, ValidRun;
    assert TenantInv(s'.db, History(s', t), t);
    hide Chained, EntryTagged;
  }

  lemma CleanReport(stream: seq<Entry>, o: Options, predFault: bool, k: nat)
    requires o.sinceMs == 0 && Window(stream, o) != [] && k < MAX_INT64
    requires Clean(false, NoHash, 0, o.hmacKey, Window(stream, o))
    requires Window(stream, o)[0].payload.event.seq_ == k + 1
    ensures var r := Verify(stream, o, predFault);
            && r.verifiedEvents == r.totalEvents == |Window(stream, o)|
            && r.status == (if k == 0 then Intact else Partial)
            && r.gaps == GapRun(1, (if k > MAX_TRIMMED_GAPS then MAX_TRIMMED_GAPS else k) + 1, RetentionTrimmed)
  {
    hide GapRun;
    var es := Window(stream, o);
    var w := Bootstrap(stream, o, es[0].id, predFault);
    WalkClean(w, true, o, es);
    WalkBooks(w, true, o, es);
    AllDecoded(es);
    var hi := (if k > MAX_TRIMMED_GAPS then MAX_TRIMMED_GAPS else k) + 1;
    GapRunLength(1, hi, RetentionTrimmed);
    CountRun(1, hi, RetentionTrimmed, HashMismatch);
    var r := Walk(w, true, o, es).r;
    hide Walk, Window;
    assert TrimmedGaps(true, o, k + 1) == GapRun(1, hi, RetentionTrimmed);
    assert r.gaps == GapRun(1, hi, RetentionTrimmed) && Count(w.r.gaps, HashMismatch) == 0;
    assert Verify(stream, o, predFault) == Verdict(r);
  }

  lemma {:induction false} AllDecoded(es: seq<Entry>)
    requires forall i :: 0 <= i < |es| ==> es[i].payload.Decoded?
    ensures DecodedCount(es) == |es|
  {
    if es != [] { AllDecoded(es[1..]); }
  }
}
