/**
 What the append protocol leaves behind besides the streams (core/audit/chain.go): heads that parse,
 caches that hold heads which were really committed, and events whose chain fields are cleared after
 a lost attempt.
 */
module ChainHeads {
  import opened AuditEvent
  import opened Redis
  import opened Chain
  import opened ChainSafety
  import opened ChainCommits

  /** No head, or a seq with a digest in hex. */
  predicate GoodHead(raw: RawHead) {
    raw == NoHead || (raw.Head? && raw.hash.Sha256?)
  }

  predicate CallHeadOk(c: Call) {
    (c.pc.Armed? || c.pc.Won?) ==> c.event.eventHash.Sha256?
  }

  predicate CacheHeadOk(ch: Chainer) {
    ch.cache.Cached? ==> GoodHead(ch.cache.raw)
  }

  ghost predicate StoredOk(db: Store) {
    forall k :: k in db && db[k].Str? ==> GoodHead(db[k].head)
  }

  /** Every stored head, every cached head and every head about to be stored is good. */
  ghost predicate HeadsOk(s: State) {
    && StoredOk(s.db)
    && (forall c :: c in s.chainers ==> CacheHeadOk(s.chainers[c]))
    && (forall id :: id in s.calls ==> CallHeadOk(s.calls[id]))
  }

  lemma ParseGood(raw: RawHead)
    requires GoodHead(raw)
    ensures ParseChainHead(raw) == ParseError <==> raw.Head? && raw.seq_ < 0
    ensures raw.Head? && raw.seq_ >= 0 ==> ParseChainHead(raw) == Parsed(raw.seq_, raw.hash)
  {}

  lemma ArmHead(s: State, id: nat, raw: RawHead, cached: bool)
    requires IsCall(s, id)
    ensures var s' := Arm(s, id, raw, cached);
            s'.chainers == s.chainers && id in s'.calls && CallHeadOk(s'.calls[id])
  {}

  /** A step of one call that leaves Redis alone. */
  lemma QuietHeads(s: State, st: Step)
    requires HeadsOk(s) && Enabled(s, st) && !st.RunScript? && !st.Trim? && !st.DropHead?
    ensures st.id in Apply(s, st).calls && CallHeadOk(Apply(s, st).calls[st.id])
    ensures forall c :: c in Apply(s, st).chainers ==> CacheHeadOk(Apply(s, st).chainers[c])
  {
    hide HeadKey, StreamKey, StoredOk;
    if st.ReadCache? {
      var cache := s.chainers[s.calls[st.id].chainer].cache;
      if cache.Cached? { ArmHead(s, st.id, cache.raw, true); }
      hide Arm;
    } else if st.ReadHead? {
      var g := Get(s.db, HeadKey(s.calls[st.id].Tenant()));
      if g.Got? { ArmHead(s, st.id, g.value, false); }
      hide Arm;
    } else if st.Invoke? || st.Acquire? || st.Cancel? || st.Wake? {
      PlainHeads(s, st);
      hide Apply;
    } else {
      assert CallHeadOk(s.calls[st.id]) && CacheHeadOk(s.chainers[s.calls[st.id].chainer]);
    }
  }

  lemma PlainHeads(s: State, st: Step)
    requires Enabled(s, st) && (st.Invoke? || st.Acquire? || st.Cancel? || st.Wake?)
    ensures st.id in Apply(s, st).calls && CallHeadOk(Apply(s, st).calls[st.id]) && Apply(s, st).chainers == s.chainers
  {
    hide HeadKey, StreamKey;
  }

  lemma ScriptHeads(s: State, s': State, id: nat, sid: StreamId)
    requires HeadsOk(s) && id in s.calls && s.calls[id].pc.Armed?
    requires NoCommitShape(s, s', id) || CommitShape(s, s', id, sid)
    ensures HeadsOk(s')
  {
    hide HeadKey, StreamKey, Get, Entries, FreshId;
    assert CallHeadOk(s.calls[id]);
    forall j | j in s'.calls ensures CallHeadOk(s'.calls[j]) {
      assert CallHeadOk(s.calls[j]);
    }
  }

  lemma StepKeepsHeads(s: State, st: Step)
    requires HeadsOk(s) && Enabled(s, st)
    ensures HeadsOk(Apply(s, st))
  {
    hide HeadKey, StreamKey;
    var s' := Apply(s, st);
    if st.RunScript? {
      ScriptShape(s, st.id, st.streamId, st.netFault);
      ScriptHeads(s, s', st.id, st.streamId);
      hide Apply, HeadsOk;
    } else if !st.Trim? && !st.DropHead? {
      QuietShape(s, st);
      QuietHeads(s, st);
      hide Apply, CallHeadOk, CacheHeadOk, StoredOk;
    }
  }

  lemma {:induction false} RunKeepsHeads(s: State, steps: seq<Step>)
    requires HeadsOk(s) && ValidRun(s, steps)
    ensures HeadsOk(Run(s, steps))
    decreases |steps|
  {
    hide HeadsOk, Enabled, Apply;
    if steps != [] {
      StepKeepsHeads(s, steps[0]);
      RunKeepsHeads(Apply(s, steps[0]), steps[1..]);
    }
  }

  /** The step takes `raw` as the head of its attempt: from the cache, or from Redis. */
  predicate Reads(s: State, st: Step, raw: RawHead) {
    match st
    case ReadCache(id) => IsCall(s, id) && s.chainers[s.calls[id].chainer].cache == Cached(s.calls[id].Tenant(), raw)
    case ReadHead(id, fault) => IsCall(s, id) && !fault && Get(s.db, HeadKey(s.calls[id].Tenant())) == Got(raw)
    case _ => false
  }

  lemma ArmUnparsable(s: State, id: nat, raw: RawHead, cached: bool)
    requires IsCall(s, id)
    ensures id in Arm(s, id, raw, cached).calls
    ensures Arm(s, id, raw, cached).calls[id].pc == Done(Err(HeadUnparsable)) <==> ParseChainHead(raw) == ParseError
  {}

  lemma ReadIsGood(s: State, st: Step, raw: RawHead)
    requires HeadsOk(s) && Reads(s, st, raw)
    ensures GoodHead(raw)
  {
    hide HeadKey;
    assert CacheHeadOk(s.chainers[s.calls[st.id].chainer]);
  }

  /** In every reachable state, an attempt fails to parse the head it reads if and only if that head
      carries a negative seq; so the protocol never produces a head it cannot read before its seq
      wraps. */
  lemma UnparsableMeansWrapped(s: State, steps: seq<Step>, st: Step, raw: RawHead)
    requires Init(s) && ValidRun(s, steps) && Enabled(Run(s, steps), st) && Reads(Run(s, steps), st, raw)
    ensures st.id in Apply(Run(s, steps), st).calls
    ensures Apply(Run(s, steps), st).calls[st.id].pc == Done(Err(HeadUnparsable)) <==> raw.Head? && raw.seq_ < 0
  {
    hide HeadKey, StreamKey, Arm, ParseChainHead, Run, ValidRun;
    var e := Run(s, steps);
    RunKeepsHeads(s, steps);
    ReadIsGood(e, st, raw);
    ParseGood(raw);
    ArmUnparsable(e, st.id, raw, st.ReadCache?);
  }

  // ---------------------------------------------------------------- caches

  /** The commit left this head behind. */
  predicate Names(k: Commit, raw: RawHead) {
    && k.chain != [] && k.chain[|k.chain| - 1].payload.Decoded?
    && var e := k.chain[|k.chain| - 1].payload.event; raw == Head(e.seq_, e.eventHash)
  }

  ghost predicate Committed(log: seq<Commit>, t: string, raw: RawHead) {
    exists k :: 0 <= k < |log| && log[k].tenant == t && Names(log[k], raw)
  }

  ghost predicate CacheCommitted(s: State, ch: Chainer) {
    ch.cache.Cached? ==> Committed(s.log, ch.cache.tenant, ch.cache.raw)
  }

  ghost predicate CachesOk(s: State) {
    forall c :: c in s.chainers ==> CacheCommitted(s, s.chainers[c])
  }

  lemma CommittedLater(log: seq<Commit>, more: seq<Commit>, t: string, raw: RawHead)
    requires Committed(log, t, raw)
    ensures Committed(log + more, t, raw)
  {
    var k :| 0 <= k < |log| && log[k].tenant == t && Names(log[k], raw);
    assert (log + more)[k] == log[k];
  }

  /** A call that has won stores the head of its own commit. */
  lemma WonNamesItsCommit(s: State, id: nat)
    requires LogInv(s) && id in s.calls && s.calls[id].pc.Won?
    ensures var c := s.calls[id]; Committed(s.log, c.Tenant(), Head(c.event.seq_, c.event.eventHash))
  {
    var c := s.calls[id];
    assert CallLogged(s.log, id, c);
    CommitsAreLogged(s.log, id);
    var mine := CommitsBy(s.log, id);
    var k :| 0 <= k < |s.log| && s.log[k] == mine[0];
    assert Names(s.log[k], Head(c.event.seq_, c.event.eventHash));
  }

  lemma StoreKeepsCaches(s: State, id: nat)
    requires LogInv(s) && CachesOk(s) && Enabled(s, StoreCache(id))
    ensures CachesOk(DoStoreCache(s, id))
  {
    hide LogInv, Committed;
    WonNamesItsCommit(s, id);
    var s' := DoStoreCache(s, id);
    forall c | c in s'.chainers ensures CacheCommitted(s', s'.chainers[c]) { assert CacheCommitted(s, s.chainers[c]); }
  }

  lemma InvalidateKeepsCaches(s: State, id: nat)
    requires CachesOk(s) && Enabled(s, Invalidate(id))
    ensures CachesOk(DoInvalidate(s, id))
  {
    hide Committed;
    var s' := DoInvalidate(s, id);
    forall c | c in s'.chainers ensures CacheCommitted(s', s'.chainers[c]) { assert CacheCommitted(s, s.chainers[c]); }
  }

  lemma SameCaches(s: State, s': State)
    requires CachesOk(s) && s'.chainers == s.chainers && s.log <= s'.log
    ensures CachesOk(s')
  {
    hide Names;
    forall c | c in s'.chainers && s'.chainers[c].cache.Cached? ensures CacheCommitted(s', s'.chainers[c]) {
      assert CacheCommitted(s, s.chainers[c]);
      CommittedLater(s.log, s'.log[|s.log|..], s.chainers[c].cache.tenant, s.chainers[c].cache.raw);
      assert s.log + s'.log[|s.log|..] == s'.log;
    }
  }

  lemma ChainersSame(s: State, st: Step)
    requires Enabled(s, st) && !st.StoreCache? && !st.Invalidate?
    ensures Apply(s, st).chainers == s.chainers && s.log <= Apply(s, st).log
  {
    hide HeadKey, StreamKey, Prepare;
    if st.RunScript? {
      ScriptShape(s, st.id, st.streamId, st.netFault);
      hide DoRunScript;
    }
  }

  lemma StepKeepsCaches(s: State, st: Step)
    requires LogInv(s) && CachesOk(s) && Enabled(s, st)
    ensures CachesOk(Apply(s, st))
  {
    hide LogInv, CachesOk, HeadKey, StreamKey;
    if st.StoreCache? {
      StoreKeepsCaches(s, st.id);
    } else if st.Invalidate? {
      InvalidateKeepsCaches(s, st.id);
    } else {
      ChainersSame(s, st);
      SameCaches(s, Apply(s, st));
      hide Apply;
    }
  }

  lemma {:induction false} RunKeepsCaches(s: State, steps: seq<Step>)
    requires Inv(s) && LogInv(s) && CachesOk(s) && ValidRun(s, steps)
    ensures CachesOk(Run(s, steps))
    decreases |steps|
  {
    hide Inv, LogInv, CachesOk, Enabled, Apply;
    if steps != [] {
      StepKeepsInv(s, steps[0]);
      StepKeepsLog(s, steps[0]);
      StepKeepsCaches(s, steps[0]);
      RunKeepsCaches(Apply(s, steps[0]), steps[1..]);
    }
  }

  /** However stale, a cached head was once the head that a commit of that tenant left behind. */
  lemma CachedHeadsWereHeads(s: State, steps: seq<Step>, ch: nat)
    requires Init(s) && ValidRun(s, steps) && ch in Run(s, steps).chainers && Run(s, steps).chainers[ch].cache.Cached?
    ensures var cache := Run(s, steps).chainers[ch].cache;
            Committed(Run(s, steps).log, cache.tenant, cache.raw)
  {
    hide Inv, LogInv, ValidRun, Run, Committed;
    InitInv(s);
    RunKeepsCaches(s, steps);
    assert CacheCommitted(Run(s, steps), Run(s, steps).chainers[ch]);
  }

  // ---------------------------------------------------------------- cleared fields

  predicate FieldsCleared(e: Event) {
    e.seq_ == 0 && e.prevHash == NoHash && e.eventHash == NoHash && e.hmac == NoTag
  }

  /** After a lost attempt, and until the next head is read, the event carries no chain fields. */
  predicate ClearedAfterLoss(c: Call) {
    c.pc.Backoff? || ((c.pc.LoopTop? || c.pc.Fetch?) && c.attempt > 0) || c.pc == Done(Err(CasExhausted)) ==>
      FieldsCleared(c.event)
  }

  lemma StepKeepsCleared(s: State, st: Step, id: nat)
    requires Enabled(s, st) && id in Apply(s, st).calls
    requires id in s.calls ==> ClearedAfterLoss(s.calls[id]) && (s.calls[id].pc.Waiting? ==> s.calls[id].attempt == 0)
    ensures ClearedAfterLoss(Apply(s, st).calls[id])
    ensures Apply(s, st).calls[id].pc.Waiting? ==> Apply(s, st).calls[id].attempt == 0
  {
    hide HeadKey, StreamKey, FieldsCleared;
    if st.RunScript? {
      ScriptCleared(s, st, id);
      hide DoRunScript;
    } else if !st.Trim? && !st.DropHead? {
      QuietShape(s, st);
      if id == st.id {
        OwnCleared(s, st);
      }
      hide Apply;
    }
  }

  /** A script leaves every call as it was but its own, which it takes past the cleared points. */
  lemma ScriptCleared(s: State, st: Step, id: nat)
    requires st.RunScript? && Enabled(s, st) && id in DoRunScript(s, st.id, st.streamId, st.netFault).calls
    requires id in s.calls ==> ClearedAfterLoss(s.calls[id]) && (s.calls[id].pc.Waiting? ==> s.calls[id].attempt == 0)
    ensures var c := DoRunScript(s, st.id, st.streamId, st.netFault).calls[id];
            ClearedAfterLoss(c) && (c.pc.Waiting? ==> c.attempt == 0)
  {
    hide HeadKey, StreamKey, FieldsCleared, AppendScript;
    ScriptShape(s, st.id, st.streamId, st.netFault);
    hide DoRunScript;
  }

  lemma ArmCleared(s: State, id: nat, raw: RawHead, cached: bool)
    requires IsCall(s, id)
    ensures id in Arm(s, id, raw, cached).calls && ClearedAfterLoss(Arm(s, id, raw, cached).calls[id])
    ensures !Arm(s, id, raw, cached).calls[id].pc.Waiting?
  {}

  lemma OwnCleared(s: State, st: Step)
    requires Enabled(s, st) && !st.RunScript? && !st.Trim? && !st.DropHead? && st.id in Apply(s, st).calls
    requires st.id in s.calls ==>
               ClearedAfterLoss(s.calls[st.id]) && (s.calls[st.id].pc.Waiting? ==> s.calls[st.id].attempt == 0)
    ensures ClearedAfterLoss(Apply(s, st).calls[st.id])
    ensures Apply(s, st).calls[st.id].pc.Waiting? ==> Apply(s, st).calls[st.id].attempt == 0
  {
    hide HeadKey, StreamKey, Prepare, Get;
    if st.ReadCache? {
      var cache := s.chainers[s.calls[st.id].chainer].cache;
      if cache.Cached? { ArmCleared(s, st.id, cache.raw, true); }
      hide Arm, FieldsCleared;
    } else if st.ReadHead? {
      var g := Get(s.db, HeadKey(s.calls[st.id].Tenant()));
      if g.Got? { ArmCleared(s, st.id, g.value, false); }
      hide Arm, FieldsCleared;
    } else if !st.Invalidate? {
      hide FieldsCleared;
    }
  }

  lemma {:induction false} RunKeepsCleared(s: State, steps: seq<Step>, id: nat)
    requires ValidRun(s, steps) && id in Run(s, steps).calls
    requires id in s.calls ==> ClearedAfterLoss(s.calls[id]) && (s.calls[id].pc.Waiting? ==> s.calls[id].attempt == 0)
    ensures ClearedAfterLoss(Run(s, steps).calls[id])
    decreases |steps|
  {
    hide ClearedAfterLoss, Enabled, Apply;
    if steps != [] {
      var s' := Apply(s, steps[0]);
      if id in s'.calls { StepKeepsCleared(s, steps[0], id); }
      RunKeepsCleared(s', steps[1..], id);
    }
  }

  /** In every reachable state, a call between a lost attempt and its next read, and one that gave
      up, leaves the caller's event without seq, digests or tag. */
  lemma GivingUpClearsTheEvent(s: State, steps: seq<Step>, id: nat)
    requires Init(s) && ValidRun(s, steps) && id in Run(s, steps).calls
    ensures ClearedAfterLoss(Run(s, steps).calls[id])
  {
    RunKeepsCleared(s, steps, id);
  }

  // ---------------------------------------------------------------- when the fields are empty

  /** Where a call's event has no chain fields, if it arrived without: before its head is read, after a
      lost attempt, and on every error but two. */
  predicate EmptyPoint(pc: Pc) {
    match pc
    case Waiting => true
    case LoopTop => true
    case Fetch => true
    case Backoff => true
    case Done(r) => r != Ok && r != Err(MarshalFailed) && r != Err(ScriptFailed)
    case _ => false
  }

  /** `clean`: the event arrived without chain fields. */
  predicate FieldsFollow(c: Call, clean: bool) {
    if EmptyPoint(c.pc) then clean ==> FieldsCleared(c.event) else !FieldsCleared(c.event)
  }

  lemma PrepareFields(e: Event, raw: RawHead, key: Key)
    ensures match Prepare(e, raw, key)
            case Filled(f) => !FieldsCleared(f)
            case Unfilled(f, err) => if err == HeadUnparsable then f == e else err == MarshalFailed && !FieldsCleared(f)
  {}

  lemma ArmFields(s: State, id: nat, raw: RawHead, cached: bool, clean: bool)
    requires IsCall(s, id) && (s.calls[id].pc.LoopTop? || s.calls[id].pc.Fetch?) && FieldsFollow(s.calls[id], clean)
    ensures id in Arm(s, id, raw, cached).calls && FieldsFollow(Arm(s, id, raw, cached).calls[id], clean)
  {
    PrepareFields(s.calls[id].event, raw, s.chainers[s.calls[id].chainer].key);
    hide Prepare, FieldsCleared;
  }

  lemma PlainFields(s: State, st: Step, clean: bool)
    requires Enabled(s, st) && (st.Acquire? || st.Cancel? || st.StoreCache? || st.Invalidate? || st.Wake?)
    requires FieldsFollow(s.calls[st.id], clean)
    ensures st.id in Apply(s, st).calls && FieldsFollow(Apply(s, st).calls[st.id], clean)
  {
    hide HeadKey, StreamKey, DoReadCache, DoReadHead, DoRunScript, DoTrim;
  }

  lemma OwnFields(s: State, st: Step, clean: bool)
    requires Enabled(s, st) && !st.RunScript? && !st.Trim? && !st.DropHead? && !st.Invoke?
    requires FieldsFollow(s.calls[st.id], clean)
    ensures st.id in Apply(s, st).calls && FieldsFollow(Apply(s, st).calls[st.id], clean)
  {
    hide HeadKey, StreamKey, Prepare, Get;
    if st.ReadCache? {
      var cache := s.chainers[s.calls[st.id].chainer].cache;
      if cache.Cached? { ArmFields(s, st.id, cache.raw, true, clean); }
      hide Arm, FieldsCleared;
    } else if st.ReadHead? {
      var g := Get(s.db, HeadKey(s.calls[st.id].Tenant()));
      if g.Got? { ArmFields(s, st.id, g.value, false, clean); }
      hide Arm, FieldsCleared;
    } else {
      PlainFields(s, st, clean);
      hide Apply, FieldsFollow;
    }
  }

  lemma ScriptFields(s: State, st: Step, id: nat, clean: bool)
    requires st.RunScript? && Enabled(s, st) && id in s.calls && FieldsFollow(s.calls[id], clean)
    ensures var s' := DoRunScript(s, st.id, st.streamId, st.netFault);
            id in s'.calls && FieldsFollow(s'.calls[id], clean)
  {
    hide HeadKey, StreamKey, FieldsCleared, AppendScript;
    ScriptShape(s, st.id, st.streamId, st.netFault);
    hide DoRunScript;
  }

  lemma StepKeepsFields(s: State, st: Step, id: nat, clean: bool)
    requires Enabled(s, st) && id in s.calls && FieldsFollow(s.calls[id], clean)
    ensures id in Apply(s, st).calls && FieldsFollow(Apply(s, st).calls[id], clean)
  {
    hide HeadKey, StreamKey, FieldsFollow;
    if st.RunScript? {
      ScriptFields(s, st, id, clean);
      hide DoRunScript;
    } else if !st.Trim? && !st.DropHead? {
      QuietShape(s, st);
      if id == st.id { OwnFields(s, st, clean); }
      hide Apply;
    }
  }

  /** In every run: a call's chain fields are filled exactly from the read of a usable head to the end of
      the attempt, and stay filled when the event cannot be encoded or the script fails. */
  lemma {:induction false} RunKeepsFields(s: State, steps: seq<Step>, id: nat, clean: bool)
    requires ValidRun(s, steps) && id in s.calls && FieldsFollow(s.calls[id], clean)
    ensures id in Run(s, steps).calls && FieldsFollow(Run(s, steps).calls[id], clean)
    decreases |steps|
  {
    hide FieldsFollow, Enabled, Apply;
    if steps != [] {
      StepKeepsFields(s, steps[0], id, clean);
      RunKeepsFields(Apply(s, steps[0]), steps[1..], id, clean);
    }
  }
}
