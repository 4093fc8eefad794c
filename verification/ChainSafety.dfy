/**
 Safety of the append protocol over every interleaving, including retention trims, head
 deletions, lost replies and tenants whose stream key is another tenant's head key.
 */
module ChainSafety {
  import opened AuditEvent
  import opened Redis
  import opened Chain

  /** Seq of the i-th event after genesis: 1, 2, 3, ... until the int64 wraps. */
  function SeqAt(i: nat): int64 {
    if i < MAX_INT64 then i + 1 else MIN_INT64
  }

  /** Entry i belongs to `t`, carries the i-th seq, its own digest and its predecessor's. */
  ghost predicate LinkOk(h: seq<Entry>, t: string, i: int)
    requires 0 <= i < |h|
  {
    && h[i].payload.Decoded?
    && var e := h[i].payload.event;
       && e.body.tenantID == t
       && e.seq_ == SeqAt(i)
       && VerifyEventHash(e)
       && (if i == 0 then e.prevHash == NoHash
           else h[i - 1].payload.Decoded? && e.prevHash == h[i - 1].payload.event.eventHash)
  }

  /** A complete chain from genesis; only its last entry can carry a wrapped seq. */
  ghost predicate Chained(h: seq<Entry>, t: string) {
    && |h| <= MAX_INT64 + 1
    && forall i :: 0 <= i < |h| ==> LinkOk(h, t, i)
  }

  predicate IsSuffix(es: seq<Entry>, h: seq<Entry>) {
    |es| <= |h| && es == h[|h| - |es|..]
  }

  /** The stream is what retention left of the chain; the head, if any, names its last event. */
  ghost predicate TenantInv(db: Store, h: seq<Entry>, t: string) {
    && Chained(h, t)
    && (Entries(db, StreamKey(t)).Got? ==>
          IsSuffix(Entries(db, StreamKey(t)).value, h) && Ordered(Entries(db, StreamKey(t)).value))
    && (Get(db, HeadKey(t)).Got? && Get(db, HeadKey(t)).value != NoHead ==>
          |h| > 0 && h[|h| - 1].payload.Decoded? &&
          var e := h[|h| - 1].payload.event;
          Get(db, HeadKey(t)).value == Head(e.seq_, e.eventHash))
  }

  /** The event's chain fields were computed from `raw`. */
  predicate FilledFrom(e: Event, raw: RawHead) {
    var p := ParseChainHead(raw);
    p.Parsed? && e.prevHash == p.hash && e.seq_ == Inc(p.seq_) && VerifyEventHash(e)
  }

  predicate CallOk(c: Call) {
    && (c.Tenant() == "" ==> c.pc.Done?)
    && (c.pc.Armed? ==> FilledFrom(c.event, c.pc.raw))
  }

  ghost predicate Inv(s: State) {
    && (forall t :: TenantInv(s.db, History(s, t), t))
    && (forall id :: id in s.calls ==> CallOk(s.calls[id]))
  }

  // ---------------------------------------------------------------- keys

  lemma KeysApart(t: string, u: string)
    ensures HeadKey(t) != StreamKey(t)
    ensures t != u ==> StreamKey(t) != StreamKey(u) && HeadKey(t) != HeadKey(u)
  {
    assert |HeadKey(t)| == |StreamKey(t)| + |CHAIN_HEAD_INFIX|;
    assert StreamKey(t)[|CHAIN_KEY_PREFIX|..] == t;
    assert StreamKey(u)[|CHAIN_KEY_PREFIX|..] == u;
    var p := CHAIN_KEY_PREFIX + CHAIN_HEAD_INFIX;
    assert HeadKey(t)[|p|..] == t;
    assert HeadKey(u)[|p|..] == u;
  }

  // ---------------------------------------------------------------- the committing step

  lemma Extend(h: seq<Entry>, t: string, entry: Entry)
    requires Chained(h, t)
    requires |h| <= MAX_INT64 && LinkOk(h + [entry], t, |h|)
    ensures Chained(h + [entry], t)
  {
    forall i | 0 <= i < |h + [entry]| ensures LinkOk(h + [entry], t, i) {
      if i < |h| { assert LinkOk(h, t, i); }
    }
  }

  lemma OrderedSnoc(es: seq<Entry>, entry: Entry)
    requires Ordered(es)
    requires es == [] || Lt(es[|es| - 1].id, entry.id)
    ensures Ordered(es + [entry])
  {
    forall i, j | 0 <= i < j < |es + [entry]| ensures Lt((es + [entry])[i].id, (es + [entry])[j].id) {
      if j == |es| { assert i == |es| - 1 || Lt(es[i].id, es[|es| - 1].id); }
    }
  }

  /** An event computed from the head that names the chain's last event is its next link. */
  lemma NextLink(h: seq<Entry>, t: string, raw: RawHead, entry: Entry)
    requires Chained(h, t)
    requires entry.payload.Decoded? && FilledFrom(entry.payload.event, raw)
    requires entry.payload.event.body.tenantID == t
    requires if raw == NoHead then h == [] else
               |h| > 0 && h[|h| - 1].payload.Decoded? &&
               raw == Head(h[|h| - 1].payload.event.seq_, h[|h| - 1].payload.event.eventHash)
    ensures Chained(h + [entry], t)
  {
    if raw != NoHead { assert LinkOk(h, t, |h| - 1); }
    Extend(h, t, entry);
  }

  /** A commit extends the committing tenant's own chain. */
  lemma CommitOwn(db: Store, h: seq<Entry>, t: string, raw: RawHead, entry: Entry)
    requires TenantInv(db, h, t)
    requires entry.payload.Decoded? && FilledFrom(entry.payload.event, raw)
    requires entry.payload.event.body.tenantID == t
    requires Get(db, HeadKey(t)) == Got(raw) && Entries(db, StreamKey(t)).Got?
    requires FreshId(db, StreamKey(t), entry.id)
    requires raw == NoHead ==> Entries(db, StreamKey(t)).value == []
    ensures var db' := db[StreamKey(t) := Stream(Entries(db, StreamKey(t)).value + [entry])]
                         [HeadKey(t) := Str(Head(entry.payload.event.seq_, entry.payload.event.eventHash))];
            TenantInv(db', (if raw == NoHead then [] else h) + [entry], t)
  {
    KeysApart(t, t);
    var es := Entries(db, StreamKey(t)).value;
    var before := if raw == NoHead then [] else h;
    NextLink(before, t, raw, entry);
    OrderedSnoc(es, entry);
    assert IsSuffix(es + [entry], before + [entry]);
  }

  /** It leaves every other tenant's chain alone, even when their keys collide. */
  lemma CommitOther(db: Store, h: seq<Entry>, t: string, u: string, v: Value, w: Value)
    requires t != u && TenantInv(db, h, u)
    requires Get(db, HeadKey(t)).Got? && Entries(db, StreamKey(t)).Got?
    requires v.Stream? && w.Str?
    ensures TenantInv(db[StreamKey(t) := v][HeadKey(t) := w], h, u)
  {
    KeysApart(t, u);
    KeysApart(t, t);
  }

  lemma RunScriptTenant(s: State, s': State, id: nat, sid: StreamId, u: string)
    requires Inv(s) && id in s.calls && s.calls[id].pc.Armed?
    requires CommitShape(s, s', id, sid)
    ensures TenantInv(s'.db, History(s', u), u)
  {
    hide HeadKey, StreamKey;
    var c := s.calls[id];
    var t := c.Tenant();
    assert CallOk(c);
    assert TenantInv(s.db, History(s, u), u);
    if u == t {
      CommitOwn(s.db, History(s, t), t, c.pc.raw, Entry(sid, Decoded(c.event)));
    } else {
      CommitOther(s.db, History(s, u), t, u,
                  Stream(Entries(s.db, StreamKey(t)).value + [Entry(sid, Decoded(c.event))]),
                  Str(Head(c.event.seq_, c.event.eventHash)));
    }
  }

  lemma RunScriptKeepsInv(s: State, id: nat, sid: StreamId, fault: Fault)
    requires Inv(s) && Enabled(s, RunScript(id, sid, fault))
    ensures Inv(DoRunScript(s, id, sid, fault))
  {
    var s' := DoRunScript(s, id, sid, fault);
    ScriptShape(s, id, sid, fault);
    hide HeadKey, StreamKey, DoRunScript;
    assert CallOk(s.calls[id]);
    forall u ensures TenantInv(s'.db, History(s', u), u) {
      if s'.log == s.log {
        assert TenantInv(s.db, History(s, u), u);
      } else {
        RunScriptTenant(s, s', id, sid, u);
      }
    }
  }

  // ---------------------------------------------------------------- the environment

  lemma TrimKeepsInv(s: State, t: string, k: nat)
    requires Inv(s)
    ensures Inv(DoTrim(s, t, k))
  {
    var s' := DoTrim(s, t, k);
    forall u ensures TenantInv(s'.db, History(s', u), u) {
      assert TenantInv(s.db, History(s, u), u);
      KeysApart(t, u);
      KeysApart(t, t);
    }
  }

  lemma DropHeadKeepsInv(s: State, t: string)
    requires Inv(s)
    ensures Inv(s.(db := s.db - {HeadKey(t)}))
  {
    var s' := s.(db := s.db - {HeadKey(t)});
    forall u ensures TenantInv(s'.db, History(s', u), u) {
      assert TenantInv(s.db, History(s, u), u);
      KeysApart(t, u);
      KeysApart(t, t);
    }
  }

  // ---------------------------------------------------------------- every step, every run

  lemma PrepareFills(e: Event, raw: RawHead, key: Key)
    ensures Prepare(e, raw, key).event.body == e.body
    ensures Prepare(e, raw, key).Filled? ==> FilledFrom(Prepare(e, raw, key).event, raw)
  {}

  lemma QuietCalls(s: State, st: Step)
    requires Inv(s) && Enabled(s, st)
    requires !st.RunScript? && !st.Trim? && !st.DropHead?
    ensures st.id in Apply(s, st).calls && CallOk(Apply(s, st).calls[st.id])
  {
    hide HeadKey, StreamKey;
    match st
    case Invoke(_, _, _) =>
    case ReadCache(id) =>
      var ch := s.chainers[s.calls[id].chainer];
      assert CallOk(s.calls[id]);
      if ch.cache.Cached? { PrepareFills(s.calls[id].event, ch.cache.raw, ch.key); }
    case ReadHead(id, fault) =>
      var c := s.calls[id];
      var g := Get(s.db, HeadKey(c.Tenant()));
      assert CallOk(c);
      if g.Got? { PrepareFills(c.event, g.value, s.chainers[c.chainer].key); }
    case Acquire(id) => assert CallOk(s.calls[id]);
    case Cancel(id) => assert CallOk(s.calls[id]);
    case StoreCache(id) => assert CallOk(s.calls[id]);
    case Invalidate(id) => assert CallOk(s.calls[id]);
    case Wake(id) => assert CallOk(s.calls[id]);
  }

  lemma StepKeepsInv(s: State, st: Step)
    requires Inv(s) && Enabled(s, st)
    ensures Inv(Apply(s, st))
  {
    if st.RunScript? {
      RunScriptKeepsInv(s, st.id, st.streamId, st.netFault);
    } else if st.Trim? {
      TrimKeepsInv(s, st.tenant, st.count);
    } else if st.DropHead? {
      DropHeadKeepsInv(s, st.tenant);
    } else {
      var s' := Apply(s, st);
      QuietCalls(s, st);
      QuietShape(s, st);
      hide HeadKey, StreamKey, Apply;
      forall u ensures TenantInv(s'.db, History(s', u), u) {
        assert TenantInv(s.db, History(s, u), u);
      }
    }
  }

  /** In every reachable state every tenant's surviving stream is the tail of a valid chain. */
  lemma {:induction false} RunKeepsInv(s: State, steps: seq<Step>)
    requires Inv(s) && ValidRun(s, steps)
    ensures Inv(Run(s, steps))
    decreases |steps|
  {
    if steps != [] {
      StepKeepsInv(s, steps[0]);
      RunKeepsInv(Apply(s, steps[0]), steps[1..]);
    }
  }
}
