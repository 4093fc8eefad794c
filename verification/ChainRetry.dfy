/**
 The retry bound: without head deletions, an Append call loses at most one attempt to a stale
 cache and every other lost attempt to a distinct commit by somebody else on its tenant.
 */
module ChainRetry {
  import opened AuditEvent
  import opened Redis
  import opened Chain
  import opened ChainSafety

  /** Lost attempts this call can account for. */
  function Budget(c: Call): nat {
    c.foreign + if c.usedCache then 1 else 0
  }

  /** The tenant's head is absent only while its stream is empty. */
  predicate GenesisOk(db: Store, t: string) {
    Get(db, HeadKey(t)) == Got(NoHead) && Entries(db, StreamKey(t)).Got? ==> Entries(db, StreamKey(t)).value == []
  }

  predicate LockOk(s: State, id: nat, c: Call) {
    c.Holds() ==> (c.chainer, c.Tenant()) in s.locks && s.locks[(c.chainer, c.Tenant())] == id
  }

  /** After a cached attempt the slot no longer offers this tenant's head, except the very
      value being tried. */
  predicate CacheOk(cache: Cache, c: Call) {
    c.usedCache && !c.pc.Won? && cache.Cached? && cache.tenant == c.Tenant() ==>
      (c.pc.Armed? || c.pc.Lost?) && cache.raw == c.pc.raw
  }

  predicate Accounted(db: Store, c: Call) {
    match c.pc
    case Waiting => c.attempt == 0 && !c.usedCache
    case LoopTop => c.attempt <= Budget(c)
    case Fetch => c.attempt <= Budget(c)
    case Armed(raw, cached) =>
      && c.attempt <= Budget(c)
      && (c.attempt + 1 <= Budget(c) || Get(db, HeadKey(c.Tenant())) in {Got(raw), WrongType})
    case Lost(_) => c.attempt + 1 <= Budget(c)
    case Backoff => c.attempt + 1 <= Budget(c)
    case Won => c.attempt <= Budget(c)
    case Done(r) => c.attempt <= Budget(c) && (r == Err(CasExhausted) ==> c.attempt == MAX_CAS_RETRIES)
  }

  predicate CallRetryOk(s: State, c: Call) {
    && c.chainer in s.chainers
    && c.attempt <= MAX_CAS_RETRIES
    && Accounted(s.db, c)
    && (c.Holds() ==> c.attempt < MAX_CAS_RETRIES && CacheOk(s.chainers[c.chainer].cache, c))
  }

  ghost predicate RetryInv(s: State, t: string) {
    && GenesisOk(s.db, t)
    && (forall id :: id in s.calls ==> LockOk(s, id, s.calls[id]))
    && (forall id :: id in s.calls && s.calls[id].Tenant() == t ==> CallRetryOk(s, s.calls[id]))
  }

  // ---------------------------------------------------------------- locks

  /** A step of call `id` keeps its chainer, tenant and foreign count, and moves only its own lock. */
  ghost predicate OwnLock(s: State, s': State, id: nat)
    requires id in s'.calls
  {
    var c' := s'.calls[id];
    var key := (c'.chainer, c'.Tenant());
    && (id in s.calls ==>
          s.calls[id].chainer == c'.chainer && s.calls[id].Tenant() == c'.Tenant() && s.calls[id].foreign == c'.foreign)
    && (id !in s.calls ==> c'.foreign == 0)
    && s'.chainers.Keys == s.chainers.Keys && c'.chainer in s.chainers
    && (|| (s'.locks == s.locks && (id in s.calls ==> s.calls[id].Holds() == c'.Holds())
        && (id !in s.calls ==> !c'.Holds()))
        || (key !in s.locks && s'.locks == s.locks[key := id])
        || (s'.locks == s.locks - {key} && !c'.Holds() && id in s.calls && s.calls[id].Holds()))
  }

  lemma ArmLock(s: State, id: nat, raw: RawHead, cached: bool)
    requires IsCall(s, id) && (s.calls[id].pc.LoopTop? || s.calls[id].pc.Fetch?)
    ensures id in Arm(s, id, raw, cached).calls && OwnLock(s, Arm(s, id, raw, cached), id)
  {
    PrepareFills(s.calls[id].event, raw, s.chainers[s.calls[id].chainer].key);
  }

  lemma QuietLock(s: State, st: Step)
    requires Enabled(s, st) && !st.RunScript? && !st.Trim? && !st.DropHead?
    requires st.id in Apply(s, st).calls
    ensures OwnLock(s, Apply(s, st), st.id)
  {
    hide HeadKey, StreamKey;
    if st.ReadCache? {
      var cache := s.chainers[s.calls[st.id].chainer].cache;
      if cache.Cached? { ArmLock(s, st.id, cache.raw, true); }
      hide Arm;
    } else if st.ReadHead? {
      var g := Get(s.db, HeadKey(s.calls[st.id].Tenant()));
      if g.Got? { ArmLock(s, st.id, g.value, false); }
      hide Arm;
    } else if st.Invoke? || st.Acquire? || st.Cancel? {
      PlainLock(s, st);
      hide Apply;
    } else {
      CacheLock(s, st);
      hide Apply;
    }
  }

  lemma PlainLock(s: State, st: Step)
    requires Enabled(s, st) && (st.Invoke? || st.Acquire? || st.Cancel?)
    ensures st.id in Apply(s, st).calls && OwnLock(s, Apply(s, st), st.id)
  {}

  lemma CacheLock(s: State, st: Step)
    requires Enabled(s, st) && (st.StoreCache? || st.Invalidate? || st.Wake?)
    ensures st.id in Apply(s, st).calls && OwnLock(s, Apply(s, st), st.id)
  {
    if st.StoreCache? {
      StoreLock(s, st.id);
      hide DoStoreCache;
    } else if st.Invalidate? {
      hide DoStoreCache, DoWake;
    } else {
      WakeLock(s, st.id);
      hide DoWake;
    }
    hide OwnLock;
  }

  lemma StoreLock(s: State, id: nat)
    requires Enabled(s, StoreCache(id))
    ensures id in DoStoreCache(s, id).calls && OwnLock(s, DoStoreCache(s, id), id)
  {}

  lemma WakeLock(s: State, id: nat)
    requires Enabled(s, Wake(id))
    ensures id in DoWake(s, id).calls && OwnLock(s, DoWake(s, id), id)
  {}

  lemma ScriptLock(s: State, s': State, id: nat, sid: StreamId)
    requires id in s.calls && s.calls[id].pc.Armed? && s.calls[id].chainer in s.chainers
    requires NoCommitShape(s, s', id) || CommitShape(s, s', id, sid)
    ensures OwnLock(s, s', id)
  {
    hide HeadKey, StreamKey, Get, Entries, CountForeign;
  }

  /** Locks stay exclusive when only call `id` moved (others may have counted a commit). */
  lemma LocksKept(s: State, s': State, id: nat)
    requires forall j :: j in s.calls ==> LockOk(s, j, s.calls[j])
    requires id in s'.calls && OwnLock(s, s', id)
    requires s'.calls.Keys == s.calls.Keys + {id}
    requires forall j :: j in s.calls && j != id ==>
               s'.calls[j].pc == s.calls[j].pc && s'.calls[j].event == s.calls[j].event
                 && s'.calls[j].chainer == s.calls[j].chainer
    ensures forall j :: j in s'.calls ==> LockOk(s', j, s'.calls[j])
  {
    if id in s.calls { assert LockOk(s, id, s.calls[id]); }
    forall j | j in s'.calls ensures LockOk(s', j, s'.calls[j]) {
      if j != id { assert LockOk(s, j, s.calls[j]); }
    }
  }

  // ---------------------------------------------------------------- steps that leave Redis alone

  lemma ArmRetry(s: State, id: nat, raw: RawHead, cached: bool)
    requires IsCall(s, id) && CallRetryOk(s, s.calls[id])
    requires if cached
               then s.calls[id].pc.LoopTop?
                 && s.chainers[s.calls[id].chainer].cache == Cached(s.calls[id].Tenant(), raw)
               else s.calls[id].pc.Fetch? && Get(s.db, HeadKey(s.calls[id].Tenant())) == Got(raw)
    ensures var s' := Arm(s, id, raw, cached); id in s'.calls && CallRetryOk(s', s'.calls[id])
  {
    hide HeadKey, StreamKey;
    PrepareFills(s.calls[id].event, raw, s.chainers[s.calls[id].chainer].key);
  }

  lemma QuietOwn(s: State, st: Step)
    requires Enabled(s, st) && !st.RunScript? && !st.Trim? && !st.DropHead?
    requires st.id in s.calls ==> CallRetryOk(s, s.calls[st.id])
    ensures st.id in Apply(s, st).calls && CallRetryOk(Apply(s, st), Apply(s, st).calls[st.id])
  {
    hide HeadKey, StreamKey;
    if st.ReadCache? {
      var c := s.calls[st.id];
      var cache := s.chainers[c.chainer].cache;
      if cache.Cached? && cache.tenant == c.Tenant() { ArmRetry(s, st.id, cache.raw, true); }
      hide Arm;
    } else if st.ReadHead? {
      var g := Get(s.db, HeadKey(s.calls[st.id].Tenant()));
      if g.Got? { ArmRetry(s, st.id, g.value, false); }
      hide Arm;
    } else if st.Invoke? || st.Acquire? || st.Cancel? {
      PlainOwn(s, st);
      hide Apply;
    } else {
      CacheOwn(s, st);
      hide Apply;
    }
  }

  lemma PlainOwn(s: State, st: Step)
    requires Enabled(s, st) && (st.Invoke? || st.Acquire? || st.Cancel?)
    requires st.id in s.calls ==> CallRetryOk(s, s.calls[st.id])
    ensures st.id in Apply(s, st).calls && CallRetryOk(Apply(s, st), Apply(s, st).calls[st.id])
  {
    hide HeadKey, StreamKey, Get;
  }

  lemma CacheOwn(s: State, st: Step)
    requires Enabled(s, st) && (st.StoreCache? || st.Invalidate? || st.Wake?)
    requires st.id in s.calls ==> CallRetryOk(s, s.calls[st.id])
    ensures st.id in Apply(s, st).calls && CallRetryOk(Apply(s, st), Apply(s, st).calls[st.id])
  {
    hide HeadKey, StreamKey, Get;
  }

  /** Another call's step cannot put this call's tenant back into a cache it has tried. */
  lemma QuietOther(s: State, st: Step, j: nat)
    requires Enabled(s, st) && !st.RunScript? && !st.Trim? && !st.DropHead?
    requires j in s.calls && j != st.id && CallRetryOk(s, s.calls[j])
    requires LockOk(s, j, s.calls[j])
    requires st.id in s.calls ==> LockOk(s, st.id, s.calls[st.id])
    ensures CallRetryOk(Apply(s, st), s.calls[j])
  {
    hide HeadKey, StreamKey;
    QuietShape(s, st);
    assert Apply(s, st).chainers.Keys == s.chainers.Keys by { QuietLock(s, st); }
    if st.StoreCache? {
    } else if st.Invalidate? {
    } else {
      assert Apply(s, st).chainers == s.chainers by { QuietChainers(s, st); }
      hide Apply;
    }
  }

  lemma QuietChainers(s: State, st: Step)
    requires Enabled(s, st) && !st.RunScript? && !st.Trim? && !st.DropHead? && !st.StoreCache? && !st.Invalidate?
    ensures Apply(s, st).chainers == s.chainers
  {
    hide HeadKey, StreamKey, Prepare;
  }

  lemma QuietKeepsRetry(s: State, st: Step, t: string)
    requires RetryInv(s, t) && Enabled(s, st) && !st.RunScript? && !st.Trim? && !st.DropHead?
    ensures RetryInv(Apply(s, st), t)
  {
    hide HeadKey, StreamKey;
    var s' := Apply(s, st);
    QuietShape(s, st);
    QuietLock(s, st);
    LocksKept(s, s', st.id);
    if s'.calls[st.id].Tenant() == t { QuietOwn(s, st); }
    forall j | j in s'.calls && s'.calls[j].Tenant() == t && j != st.id ensures CallRetryOk(s', s'.calls[j]) {
      assert LockOk(s, j, s.calls[j]);
      if st.id in s.calls { assert LockOk(s, st.id, s.calls[st.id]); }
      QuietOther(s, st, j);
    }
  }

  // ---------------------------------------------------------------- the script

  /** A lost attempt is paid for: its expected head was cached, or somebody committed since. */
  lemma LostCall(s: State, s': State, id: nat, j: nat)
    requires id in s.calls && s.calls[id].pc.Armed? && s.calls[id].chainer in s.chainers
    requires NoCommitShape(s, s', id)
    requires j in s.calls && CallRetryOk(s, s.calls[j]) && GenesisOk(s.db, s.calls[j].Tenant())
    ensures j in s'.calls && CallRetryOk(s', s'.calls[j])
  {
    hide HeadKey, StreamKey, Get, Entries;
    if j != id { assert s'.calls[j] == s.calls[j]; }
  }

  lemma LostKeepsRetry(s: State, s': State, id: nat, t: string)
    requires RetryInv(s, t) && id in s.calls && s.calls[id].pc.Armed? && s.calls[id].chainer in s.chainers
    requires NoCommitShape(s, s', id)
    ensures RetryInv(s', t)
  {
    hide HeadKey, StreamKey, Get, Entries;
    ScriptLock(s, s', id, Id(0, 0));
    LocksKept(s, s', id);
    hide OwnLock, LockOk;
    forall j | j in s'.calls && s'.calls[j].Tenant() == t ensures CallRetryOk(s', s'.calls[j]) {
      LostCall(s, s', id, j);
    }
    hide CallRetryOk;
  }

  /** Effect of a commit on tenant `u` on what another tenant's calls can observe. */
  lemma CommitView(db: Store, u: string, t: string, v: Value, w: Value)
    requires Get(db, HeadKey(u)).Got? && Entries(db, StreamKey(u)).Got? && v.Stream? && w.Str? && u != t
    ensures var db' := db[StreamKey(u) := v][HeadKey(u) := w];
            && (Get(db', HeadKey(t)) == Get(db, HeadKey(t)) || Get(db', HeadKey(t)) == WrongType)
            && (Entries(db', StreamKey(t)) == Entries(db, StreamKey(t)) || Entries(db', StreamKey(t)) == WrongType)
  {
    KeysApart(u, t);
  }

  /** A commit by `id` keeps every call's account: the others on its tenant count it. */
  lemma CommitCall(s: State, s': State, id: nat, sid: StreamId, j: nat)
    requires id in s.calls && s.calls[id].pc.Armed? && s.calls[id].chainer in s.chainers
    requires CommitShape(s, s', id, sid)
    requires j in s.calls && CallRetryOk(s, s.calls[j])
    requires var u, t := s.calls[id].Tenant(), s.calls[j].Tenant();
             u != t ==> Get(s'.db, HeadKey(t)) == Get(s.db, HeadKey(t)) || Get(s'.db, HeadKey(t)) == WrongType
    ensures j in s'.calls && CallRetryOk(s', s'.calls[j])
  {
    hide HeadKey, StreamKey, Get, Entries;
    if j == id {
    } else if s.calls[j].Tenant() == s.calls[id].Tenant() {
    } else {
      assert s'.calls[j] == s.calls[j];
    }
  }

  lemma CommitGenesis(s: State, s': State, id: nat, sid: StreamId, t: string)
    requires id in s.calls && s.calls[id].pc.Armed? && GenesisOk(s.db, t)
    requires CommitShape(s, s', id, sid)
    ensures GenesisOk(s'.db, t)
    ensures s.calls[id].Tenant() != t ==>
              Get(s'.db, HeadKey(t)) == Get(s.db, HeadKey(t)) || Get(s'.db, HeadKey(t)) == WrongType
  {
    hide HeadKey, StreamKey;
    var c := s.calls[id];
    var u := c.Tenant();
    KeysApart(u, u);
    if u != t {
      CommitView(s.db, u, t, Stream(Entries(s.db, StreamKey(u)).value + [Entry(sid, Decoded(c.event))]),
                 Str(Head(c.event.seq_, c.event.eventHash)));
    }
  }

  lemma CommitKeepsRetry(s: State, s': State, id: nat, sid: StreamId, t: string)
    requires RetryInv(s, t) && id in s.calls && s.calls[id].pc.Armed? && s.calls[id].chainer in s.chainers
    requires CommitShape(s, s', id, sid)
    ensures RetryInv(s', t)
  {
    hide HeadKey, StreamKey, Get, Entries, OwnLock, LockOk, GenesisOk, CommitShape, CallRetryOk;
    ScriptLock(s, s', id, sid);
    CommitOthers(s, s', id, sid);
    LocksKept(s, s', id);
    CommitGenesis(s, s', id, sid, t);
    forall j | j in s'.calls && s'.calls[j].Tenant() == t ensures CallRetryOk(s', s'.calls[j]) {
      CommitCall(s, s', id, sid, j);
    }
  }

  /** A commit leaves the others where they are, apart from their count of foreign commits. */
  lemma CommitOthers(s: State, s': State, id: nat, sid: StreamId)
    requires id in s.calls && s.calls[id].pc.Armed? && CommitShape(s, s', id, sid)
    ensures id in s'.calls && s'.calls.Keys == s.calls.Keys + {id}
    ensures forall j :: j in s.calls && j != id ==>
              s'.calls[j].pc == s.calls[j].pc && s'.calls[j].event == s.calls[j].event
                && s'.calls[j].chainer == s.calls[j].chainer
    ensures forall j :: j in s.calls ==> s'.calls[j].Tenant() == s.calls[j].Tenant()
  {
    hide HeadKey, StreamKey, Get, Entries, FreshId;
  }

  // ---------------------------------------------------------------- the environment

  lemma TrimKeepsRetry(s: State, u: string, k: nat, t: string)
    requires RetryInv(s, t)
    ensures RetryInv(DoTrim(s, u, k), t)
  {
    var s' := DoTrim(s, u, k);
    KeysApart(u, t);
    hide HeadKey, StreamKey;
    assert Get(s'.db, HeadKey(t)) == Get(s.db, HeadKey(t));
    assert s'.calls == s.calls && s'.locks == s.locks && s'.chainers == s.chainers;
    forall j | j in s'.calls ensures LockOk(s', j, s'.calls[j]) { assert LockOk(s, j, s.calls[j]); }
    forall j | j in s'.calls && s'.calls[j].Tenant() == t ensures CallRetryOk(s', s'.calls[j]) {
      assert CallRetryOk(s, s.calls[j]);
    }
  }

  lemma DropKeepsRetry(s: State, u: string, t: string)
    requires RetryInv(s, t) && u != t
    ensures RetryInv(s.(db := s.db - {HeadKey(u)}), t)
  {
    var s' := s.(db := s.db - {HeadKey(u)});
    KeysApart(u, t);
    hide HeadKey, StreamKey;
    assert Get(s'.db, HeadKey(t)) == Get(s.db, HeadKey(t));
    forall j | j in s'.calls ensures LockOk(s', j, s'.calls[j]) { assert LockOk(s, j, s.calls[j]); }
    forall j | j in s'.calls && s'.calls[j].Tenant() == t ensures CallRetryOk(s', s'.calls[j]) {
      assert CallRetryOk(s, s.calls[j]);
    }
  }

  // ---------------------------------------------------------------- every run

  lemma StepKeepsRetry(s: State, st: Step, t: string)
    requires RetryInv(s, t) && Enabled(s, st) && st != DropHead(t)
    ensures RetryInv(Apply(s, st), t)
  {
    if st.RunScript? {
      ScriptShape(s, st.id, st.streamId, st.netFault);
      var s' := Apply(s, st);
      if s'.log == s.log { LostKeepsRetry(s, s', st.id, t); } else { CommitKeepsRetry(s, s', st.id, st.streamId, t); }
    } else if st.Trim? {
      TrimKeepsRetry(s, st.tenant, st.count, t);
    } else if st.DropHead? {
      DropKeepsRetry(s, st.tenant, t);
    } else {
      QuietKeepsRetry(s, st, t);
    }
  }

  lemma {:induction false} RunKeepsRetry(s: State, steps: seq<Step>, t: string)
    requires RetryInv(s, t) && ValidRun(s, steps) && DropHead(t) !in steps
    ensures RetryInv(Run(s, steps), t)
    decreases |steps|
  {
    if steps != [] {
      StepKeepsRetry(s, steps[0], t);
      RunKeepsRetry(Apply(s, steps[0]), steps[1..], t);
    }
  }

  // ---------------------------------------------------------------- counting from the log

  /** Commits on a tenant by calls other than `id`. */
  function ForeignCommits(log: seq<Commit>, t: string, id: nat): nat {
    if log == [] then 0
    else
      var last := log[|log| - 1];
      ForeignCommits(log[..|log| - 1], t, id) + if last.tenant == t && last.call != id then 1 else 0
  }

  ghost predicate Counted(s: State) {
    forall id :: id in s.calls ==> s.calls[id].foreign <= ForeignCommits(s.log, s.calls[id].Tenant(), id)
  }

  lemma CountQuiet(s: State, s': State, id: nat)
    requires Counted(s) && Quiet(s, s', id) && OwnLock(s, s', id)
    ensures Counted(s')
  {
    hide HeadKey, StreamKey, ForeignCommits;
    forall j | j in s'.calls ensures s'.calls[j].foreign <= ForeignCommits(s'.log, s'.calls[j].Tenant(), j) {
      if j != id { assert s'.calls[j] == s.calls[j]; }
    }
  }

  lemma CountScript(s: State, s': State, id: nat, sid: StreamId)
    requires Counted(s) && id in s.calls && s.calls[id].pc.Armed?
    requires if s'.log == s.log then NoCommitShape(s, s', id) else CommitShape(s, s', id, sid)
    ensures Counted(s')
  {
    hide HeadKey, StreamKey, Get, Entries, FreshId;
    assert s'.log != s.log ==> s'.log[..|s'.log| - 1] == s.log;
  }

  lemma StepKeepsCount(s: State, st: Step)
    requires Counted(s) && Enabled(s, st)
    ensures Counted(Apply(s, st))
  {
    hide HeadKey, StreamKey, Counted;
    if st.RunScript? {
      ScriptShape(s, st.id, st.streamId, st.netFault);
      CountScript(s, Apply(s, st), st.id, st.streamId);
      hide Apply, DoRunScript;
    } else if st.Trim? || st.DropHead? {
      CountFrame(s, Apply(s, st));
    } else {
      QuietShape(s, st);
      QuietLock(s, st);
      CountQuiet(s, Apply(s, st), st.id);
      hide Apply;
    }
  }

  lemma CountFrame(s: State, s': State)
    ensures Counted(s) && s'.calls == s.calls && s'.log == s.log ==> Counted(s')
  {}

  lemma {:induction false} RunKeepsCount(s: State, steps: seq<Step>)
    requires Counted(s) && ValidRun(s, steps)
    ensures Counted(Run(s, steps))
    decreases |steps|
  {
    if steps != [] {
      StepKeepsCount(s, steps[0]);
      RunKeepsCount(Apply(s, steps[0]), steps[1..]);
    }
  }

  /** Attempts this call has lost so far. */
  function Misses(c: Call): nat {
    c.attempt + if c.pc.Lost? || c.pc.Backoff? then 1 else 0
  }

  /** Under every interleaving without a deletion of this tenant's head, a call has lost at most
      one attempt to its cache and one per foreign commit made while it ran; so a call that gave
      up leaves at least 1023 commits of others on its tenant in the log. */
  lemma RetryBound(s: State, steps: seq<Step>, t: string, id: nat)
    requires Init(s) && ValidRun(s, steps) && DropHead(t) !in steps
    requires id in Run(s, steps).calls && Run(s, steps).calls[id].Tenant() == t
    ensures var s' := Run(s, steps);
            var c := s'.calls[id];
            && Misses(c) <= c.foreign + (if c.usedCache then 1 else 0)
            && c.foreign <= ForeignCommits(s'.log, t, id)
            && (c.pc == Done(Err(CasExhausted)) ==>
                  Misses(c) == MAX_CAS_RETRIES && c.foreign >= MAX_CAS_RETRIES - 1
                  && ForeignCommits(s'.log, t, id) >= MAX_CAS_RETRIES - 1)
  {
    RunKeepsRetry(s, steps, t);
    RunKeepsCount(s, steps);
    var s' := Run(s, steps);
    assert CallRetryOk(s', s'.calls[id]);
  }
}
