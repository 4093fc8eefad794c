/**
 The append protocol of core/audit/chain.go as a state machine.

 Any number of processes (`Chainer`) run any number of concurrent `Append` calls against
 one Redis. A step is one atomic action: a mutex-protected cache access, one Redis command,
 the append script, or an action of the environment (retention trims, head deletion).
 Local computation is folded into the step that precedes it.
 */
module Chain {
  import opened Wrappers
  import opened AuditEvent
  import opened Redis

  const CHAIN_KEY_PREFIX := "audit:chain:"
  const CHAIN_HEAD_INFIX := "head:"
  const MAX_CAS_RETRIES: nat := 1024
  const HASH_HEX_LEN: nat := 64

  function StreamKey(tenant: string): string { CHAIN_KEY_PREFIX + tenant }
  function HeadKey(tenant: string): string { CHAIN_KEY_PREFIX + CHAIN_HEAD_INFIX + tenant }

  datatype ParsedHead = Parsed(seq_: int64, hash: Hash) | ParseError

  function ParseChainHead(raw: RawHead): ParsedHead {
    match raw
    case NoHead => Parsed(0, NoHash)
    case BadHead(_) => ParseError
    case Head(q, h) =>
      if q < 0 || (h != NoHash && HashLen(h) != HASH_HEX_LEN) then ParseError else Parsed(q, h)
  }

  // ---------------------------------------------------------------- the append script

  datatype ScriptReply = Committed | CasMiss | ScriptError
  datatype ScriptResult = ScriptResult(db: Store, reply: ScriptReply)

  /** chainAppendScript: compare the head, refuse genesis on a non-empty stream, XADD, SET. */
  function AppendScript(db: Store, headKey: string, streamKey: string,
                        expected: RawHead, entry: Entry, newHead: RawHead): ScriptResult
  {
    match Get(db, headKey)
    case WrongType => ScriptResult(db, ScriptError)
    case Got(head) =>
      if head != expected then ScriptResult(db, CasMiss) else
      match Entries(db, streamKey)
      case WrongType => ScriptResult(db, ScriptError)
      case Got(es) =>
        if expected == NoHead && es != [] then ScriptResult(db, CasMiss)
        else ScriptResult(db[streamKey := Stream(es + [entry])][headKey := Str(newHead)], Committed)
  }

  // ---------------------------------------------------------------- system state

  datatype Error = TenantRequired | Cancelled | ReadHeadFailed | HeadUnparsable
                 | MarshalFailed | ScriptFailed | CasExhausted

  datatype Result = Ok | Err(error: Error)

  /** Program counter of one Append call. `cached` says where the expected head came from. */
  datatype Pc =
    | Waiting
    | LoopTop
    | Fetch
    | Armed(raw: RawHead, cached: bool)
    | Won
    | Lost(raw: RawHead)
    | Backoff
    | Done(result: Result)

  /** `attempt` is the loop counter; `usedCache` and `foreign` record, for the retry bound,
      whether an attempt was based on the cache and how many other commits hit the tenant. */
  datatype Call = Call(chainer: nat, event: Event, pc: Pc, attempt: nat, usedCache: bool, foreign: nat)
  {
    function Tenant(): string { event.body.tenantID }
    predicate Holds() { !pc.Waiting? && !pc.Done? }
  }

  datatype Cache = NoCache | Cached(tenant: string, raw: RawHead)

  datatype Chainer = Chainer(key: Key, cache: Cache)

  /** One commit, with the tenant's chain since its genesis up to and including it. */
  datatype Commit = Commit(call: nat, tenant: string, chain: seq<Entry>)

  /** `history` holds each tenant's chain since its latest genesis, before retention;
      `log` all commits. Both only record; no step reads them. */
  datatype State = State(
    db: Store,
    chainers: map<nat, Chainer>,
    calls: map<nat, Call>,
    locks: map<(nat, string), nat>,
    history: map<string, seq<Entry>>,
    log: seq<Commit>)

  function History(s: State, t: string): seq<Entry> {
    if t in s.history then s.history[t] else []
  }

  datatype Fault = NoFault | BeforeCommit | AfterCommit

  datatype Step =
    | Invoke(id: nat, chainer: nat, event: Event)
    | Acquire(id: nat)
    | Cancel(id: nat)
    | ReadCache(id: nat)
    | ReadHead(id: nat, fault: bool)
    | RunScript(id: nat, streamId: StreamId, netFault: Fault)
    | StoreCache(id: nat)
    | Invalidate(id: nat)
    | Wake(id: nat)
    | Trim(tenant: string, count: nat)
    | DropHead(tenant: string)

  // ---------------------------------------------------------------- local computation

  datatype Prepared = Filled(event: Event) | Unfilled(event: Event, error: Error)

  /** Fill in PrevHash, Seq, EventHash and (with a key) HMAC from the head just read. */
  function Prepare(e: Event, raw: RawHead, key: Key): Prepared {
    match ParseChainHead(raw)
    case ParseError => Unfilled(e, HeadUnparsable)
    case Parsed(q, h) =>
      var linked := e.(prevHash := h, seq_ := Inc(q));
      match ComputeEventHash(linked)
      case None => Unfilled(linked, MarshalFailed)
      case Some(digest) =>
        var hashed := linked.(eventHash := digest);
        if key == [] then Filled(hashed)
        else Filled(hashed.(hmac := Hmac(key, Cleared(hashed))))
  }

  function ClearChainFields(e: Event): Event {
    e.(seq_ := 0, prevHash := NoHash, eventHash := NoHash, hmac := NoTag)
  }

  // ---------------------------------------------------------------- steps

  function Put(s: State, id: nat, c: Call): State {
    s.(calls := s.calls[id := c])
  }

  /** Return from Append: the deferred unlock runs. */
  function Finish(s: State, id: nat, c: Call, r: Result): State {
    s.(calls := s.calls[id := c.(pc := Done(r))], locks := s.locks - {(c.chainer, c.Tenant())})
  }

  predicate IsCall(s: State, id: nat) {
    id in s.calls && s.calls[id].chainer in s.chainers
  }

  /** XADD * assigns an ID above every entry of the stream. */
  predicate FreshId(db: Store, key: string, id: StreamId) {
    match Entries(db, key)
    case WrongType => true
    case Got(es) => es == [] || Lt(es[|es| - 1].id, id)
  }

  predicate Enabled(s: State, st: Step) {
    match st
    case Invoke(id, ch, e) => id !in s.calls && ch in s.chainers
    case Acquire(id) => IsCall(s, id) && s.calls[id].pc.Waiting?
                        && (s.calls[id].chainer, s.calls[id].Tenant()) !in s.locks
    case Cancel(id) => IsCall(s, id) && (s.calls[id].pc.LoopTop? || s.calls[id].pc.Backoff?)
    case ReadCache(id) => IsCall(s, id) && s.calls[id].pc.LoopTop?
    case ReadHead(id, _) => IsCall(s, id) && s.calls[id].pc.Fetch?
    case RunScript(id, sid, fault) => IsCall(s, id) && s.calls[id].pc.Armed?
                                      && (fault == BeforeCommit || FreshId(s.db, StreamKey(s.calls[id].Tenant()), sid))
    case StoreCache(id) => IsCall(s, id) && s.calls[id].pc.Won?
    case Invalidate(id) => IsCall(s, id) && s.calls[id].pc.Lost?
    case Wake(id) => IsCall(s, id) && s.calls[id].pc.Backoff?
    case Trim(_, _) => true
    case DropHead(_) => true
  }

  /** Use `raw` as the expected head of this attempt. */
  function Arm(s: State, id: nat, raw: RawHead, cached: bool): State
    requires IsCall(s, id)
  {
    var c := s.calls[id];
    match Prepare(c.event, raw, s.chainers[c.chainer].key)
    case Unfilled(e, err) => Finish(s, id, c.(event := e), Err(err))
    case Filled(e) =>
      Put(s, id, c.(event := e, pc := Armed(raw, cached), usedCache := c.usedCache || cached))
  }

  function DoReadCache(s: State, id: nat): State
    requires IsCall(s, id)
  {
    var c := s.calls[id];
    var cache := s.chainers[c.chainer].cache;
    if cache.Cached? && cache.tenant == c.Tenant() then Arm(s, id, cache.raw, true)
    else Put(s, id, c.(pc := Fetch))
  }

  function DoReadHead(s: State, id: nat, fault: bool): State
    requires IsCall(s, id)
  {
    var c := s.calls[id];
    match Get(s.db, HeadKey(c.Tenant()))
    case WrongType => Finish(s, id, c, Err(ReadHeadFailed))
    case Got(raw) => if fault then Finish(s, id, c, Err(ReadHeadFailed)) else Arm(s, id, raw, false)
  }

  /** Every call holding the tenant's lock elsewhere sees one more foreign commit. */
  function CountForeign(calls: map<nat, Call>, id: nat, t: string): map<nat, Call> {
    map j | j in calls ::
      if j != id && calls[j].Holds() && calls[j].Tenant() == t
      then calls[j].(foreign := calls[j].foreign + 1) else calls[j]
  }

  /** The script added `entry` on top of `raw`: log the commit. */
  function DoCommit(s: State, id: nat, entry: Entry, lostReply: bool): State
    requires IsCall(s, id) && s.calls[id].pc.Armed?
  {
    var c := s.calls[id];
    var t := c.Tenant();
    var chain := (if c.pc.raw == NoHead then [] else History(s, t)) + [entry];
    var s1 := s.(calls := CountForeign(s.calls, id, t),
                 history := s.history[t := chain],
                 log := s.log + [Commit(id, t, chain)]);
    if lostReply then Finish(s1, id, c, Err(ScriptFailed)) else Put(s1, id, c.(pc := Won))
  }

  function DoRunScript(s: State, id: nat, sid: StreamId, fault: Fault): State
    requires IsCall(s, id) && s.calls[id].pc.Armed?
  {
    var c := s.calls[id];
    var t, raw := c.Tenant(), c.pc.raw;
    var entry := Entry(sid, Decoded(c.event));
    var r := AppendScript(s.db, HeadKey(t), StreamKey(t), raw, entry, Head(c.event.seq_, c.event.eventHash));
    if fault == BeforeCommit || r.reply == ScriptError then Finish(s, id, c, Err(ScriptFailed))
    else if r.reply == Committed then DoCommit(s.(db := r.db), id, entry, fault == AfterCommit)
    else if fault == AfterCommit then Finish(s, id, c, Err(ScriptFailed))
    else Put(s, id, c.(pc := Lost(raw)))
  }

  function DoStoreCache(s: State, id: nat): State
    requires IsCall(s, id)
  {
    var c := s.calls[id];
    var entry := Cached(c.Tenant(), Head(c.event.seq_, c.event.eventHash));
    Finish(s.(chainers := s.chainers[c.chainer := s.chainers[c.chainer].(cache := entry)]), id, c, Ok)
  }

  function DoInvalidate(s: State, id: nat): State
    requires IsCall(s, id) && s.calls[id].pc.Lost?
  {
    var c := s.calls[id];
    var ch := s.chainers[c.chainer];
    var cache := if ch.cache == Cached(c.Tenant(), c.pc.raw) then NoCache else ch.cache;
    Put(s.(chainers := s.chainers[c.chainer := ch.(cache := cache)]), id,
        c.(event := ClearChainFields(c.event), pc := Backoff))
  }

  function DoWake(s: State, id: nat): State
    requires IsCall(s, id)
  {
    var c := s.calls[id];
    var c1 := c.(attempt := c.attempt + 1);
    if c1.attempt < MAX_CAS_RETRIES then Put(s, id, c1.(pc := LoopTop))
    else Finish(s, id, c1, Err(CasExhausted))
  }

  function DoTrim(s: State, t: string, k: nat): State {
    match Entries(s.db, StreamKey(t))
    case WrongType => s
    case Got(es) =>
      if StreamKey(t) !in s.db then s
      else s.(db := s.db[StreamKey(t) := Stream(es[if k <= |es| then k else |es|..])])
  }

  function Apply(s: State, st: Step): State
    requires Enabled(s, st)
  {
    match st
    case Invoke(id, ch, e) =>
      Put(s, id, Call(ch, e, if e.body.tenantID == "" then Done(Err(TenantRequired)) else Waiting, 0, false, 0))
    case Acquire(id) =>
      var c := s.calls[id];
      Put(s.(locks := s.locks[(c.chainer, c.Tenant()) := id]), id, c.(pc := LoopTop))
    case Cancel(id) => Finish(s, id, s.calls[id], Err(Cancelled))
    case ReadCache(id) => DoReadCache(s, id)
    case ReadHead(id, fault) => DoReadHead(s, id, fault)
    case RunScript(id, sid, fault) => DoRunScript(s, id, sid, fault)
    case StoreCache(id) => DoStoreCache(s, id)
    case Invalidate(id) => DoInvalidate(s, id)
    case Wake(id) => DoWake(s, id)
    case Trim(t, k) => DoTrim(s, t, k)
    case DropHead(t) => s.(db := s.db - {HeadKey(t)})
  }

  /** Start: empty Redis, no calls, any processes with empty caches. */
  predicate Init(s: State) {
    && s.db == map[] && s.calls == map[] && s.locks == map[] && s.history == map[] && s.log == []
    && forall c | c in s.chainers :: s.chainers[c].cache == NoCache
  }

  predicate ValidRun(s: State, steps: seq<Step>)
    decreases |steps|
  {
    steps == [] || (Enabled(s, steps[0]) && ValidRun(Apply(s, steps[0]), steps[1..]))
  }

  function Run(s: State, steps: seq<Step>): State
    requires ValidRun(s, steps)
    decreases |steps|
  {
    if steps == [] then s else Run(Apply(s, steps[0]), steps[1..])
  }

  // ---------------------------------------------------------------- shapes of the steps

  /** The commit appended exactly the event the caller now holds. */
  predicate Carries(k: Commit, c: Call) {
    k.tenant == c.Tenant() && k.chain != [] && k.chain[|k.chain| - 1].payload == Decoded(c.event)
  }

  /** The script committed: the head was as expected, one entry was added, one commit logged. */
  ghost predicate CommitShape(s: State, s': State, id: nat, sid: StreamId)
    requires id in s.calls && s.calls[id].pc.Armed?
  {
    var c := s.calls[id];
    var t, raw := c.Tenant(), c.pc.raw;
    var entry := Entry(sid, Decoded(c.event));
    var chain := (if raw == NoHead then [] else History(s, t)) + [entry];
    && Get(s.db, HeadKey(t)) == Got(raw)
    && Entries(s.db, StreamKey(t)).Got?
    && (raw == NoHead ==> Entries(s.db, StreamKey(t)).value == [])
    && FreshId(s.db, StreamKey(t), sid)
    && s'.db == s.db[StreamKey(t) := Stream(Entries(s.db, StreamKey(t)).value + [entry])]
                    [HeadKey(t) := Str(Head(c.event.seq_, c.event.eventHash))]
    && s'.history == s.history[t := chain]
    && s'.log == s.log + [Commit(id, t, chain)]
    && id in s'.calls && s'.calls == CountForeign(s.calls, id, t)[id := s'.calls[id]]
    && (s'.calls[id] == c.(pc := Won) || s'.calls[id] == c.(pc := Done(Err(ScriptFailed))))
    && s'.chainers == s.chainers
    && s'.locks == if s'.calls[id].pc.Won? then s.locks else s.locks - {(c.chainer, t)}
  }

  /** It did not: nothing but the call (and its lock, if it returned) changed. */
  ghost predicate NoCommitShape(s: State, s': State, id: nat)
    requires id in s.calls && s.calls[id].pc.Armed?
  {
    var c := s.calls[id];
    && s'.db == s.db && s'.history == s.history && s'.log == s.log && s'.chainers == s.chainers
    && id in s'.calls && s'.calls == s.calls[id := s'.calls[id]]
    && (s'.calls[id] == c.(pc := Lost(c.pc.raw)) || s'.calls[id] == c.(pc := Done(Err(ScriptFailed))))
    && (s'.calls[id].pc.Lost? ==>
          s'.locks == s.locks &&
          ((Get(s.db, HeadKey(c.Tenant())).Got? && Get(s.db, HeadKey(c.Tenant())) != Got(c.pc.raw))
           || (Get(s.db, HeadKey(c.Tenant())) == Got(NoHead) && Entries(s.db, StreamKey(c.Tenant())).Got?
               && Entries(s.db, StreamKey(c.Tenant())).value != [])))
    && (s'.calls[id].pc.Done? ==> s'.locks == s.locks - {(c.chainer, c.Tenant())})
  }

  lemma DoCommitShape(s: State, id: nat, entry: Entry, lostReply: bool)
    requires IsCall(s, id) && s.calls[id].pc.Armed?
    ensures var s' := DoCommit(s, id, entry, lostReply);
            var c := s.calls[id];
            var chain := (if c.pc.raw == NoHead then [] else History(s, c.Tenant())) + [entry];
            && s'.db == s.db && s'.chainers == s.chainers
            && s'.history == s.history[c.Tenant() := chain]
            && s'.log == s.log + [Commit(id, c.Tenant(), chain)]
            && id in s'.calls && s'.calls == CountForeign(s.calls, id, c.Tenant())[id := s'.calls[id]]
            && s'.calls[id] == c.(pc := if lostReply then Done(Err(ScriptFailed)) else Won)
            && s'.locks == if lostReply then s.locks - {(c.chainer, c.Tenant())} else s.locks
  {}

  lemma ScriptReplies(db: Store, hk: string, sk: string, raw: RawHead, entry: Entry, newHead: RawHead)
    ensures var r := AppendScript(db, hk, sk, raw, entry, newHead);
            && (r.reply != Committed ==> r.db == db)
            && (r.reply == Committed ==>
                  && Get(db, hk) == Got(raw) && Entries(db, sk).Got?
                  && (raw == NoHead ==> Entries(db, sk).value == [])
                  && r.db == db[sk := Stream(Entries(db, sk).value + [entry])][hk := Str(newHead)])
            && (r.reply == CasMiss ==>
                  || (Get(db, hk).Got? && Get(db, hk) != Got(raw))
                  || (Get(db, hk) == Got(NoHead) && Entries(db, sk).Got? && Entries(db, sk).value != []))
  {}

  lemma ScriptShape(s: State, id: nat, sid: StreamId, fault: Fault)
    requires Enabled(s, RunScript(id, sid, fault))
    ensures var s' := DoRunScript(s, id, sid, fault);
            if s'.log == s.log then NoCommitShape(s, s', id) else CommitShape(s, s', id, sid)
  {
    var c := s.calls[id];
    var r := AppendScript(s.db, HeadKey(c.Tenant()), StreamKey(c.Tenant()), c.pc.raw,
                          Entry(sid, Decoded(c.event)), Head(c.event.seq_, c.event.eventHash));
    ScriptReplies(s.db, HeadKey(c.Tenant()), StreamKey(c.Tenant()), c.pc.raw,
                  Entry(sid, Decoded(c.event)), Head(c.event.seq_, c.event.eventHash));
    if fault != BeforeCommit && r.reply == Committed {
      DoCommitShape(s.(db := r.db), id, Entry(sid, Decoded(c.event)), fault == AfterCommit);
    }
    hide HeadKey, StreamKey, DoCommit, AppendScript, Get, Entries, CountForeign, FreshId;
  }

  /** A step of one call that leaves Redis and the record alone, and returns Ok only after a
      won script. */
  ghost predicate Quiet(s: State, s': State, id: nat) {
    && s'.db == s.db && s'.history == s.history && s'.log == s.log
    && id in s'.calls && s'.calls == s.calls[id := s'.calls[id]]
    && !s'.calls[id].pc.Won? && s'.calls[id].pc != Done(Err(ScriptFailed))
    && (s'.calls[id].pc == Done(Ok) ==>
          id in s.calls && s.calls[id].pc.Won? && s'.calls[id].event == s.calls[id].event)
    && (id in s.calls ==>
          !s.calls[id].pc.Done? && (s.calls[id].pc.Won? ==> s'.calls[id].pc == Done(Ok)))
  }

  lemma ArmShape(s: State, id: nat, raw: RawHead, cached: bool)
    requires IsCall(s, id) && (s.calls[id].pc.LoopTop? || s.calls[id].pc.Fetch?)
    ensures Quiet(s, Arm(s, id, raw, cached), id)
  {}

  lemma QuietShape(s: State, st: Step)
    requires Enabled(s, st) && !st.RunScript? && !st.Trim? && !st.DropHead?
    ensures Quiet(s, Apply(s, st), st.id)
  {
    hide HeadKey, StreamKey;
    if st.ReadCache? {
      var cache := s.chainers[s.calls[st.id].chainer].cache;
      if cache.Cached? { ArmShape(s, st.id, cache.raw, true); }
      hide Arm;
    } else if st.ReadHead? {
      var g := Get(s.db, HeadKey(s.calls[st.id].Tenant()));
      if g.Got? { ArmShape(s, st.id, g.value, false); }
      hide Arm;
    } else {
      match st
      case Invoke(_, _, _) =>
      case Acquire(_) =>
      case Cancel(_) =>
      case StoreCache(_) =>
      case Invalidate(_) =>
      case Wake(_) =>
    }
  }
}
