/**
 `Chainer.Append` as the retry loop the source runs (core/audit/chain.go), over a shared system
 in which everybody else may move between any two of its accesses. What the others do, which
 network calls fail and when the context is cancelled is the caller's choice (`Turn`), so the
 contract holds for every schedule: the loop takes exactly steps of the state machine.
 */
module ChainerLoop {
  import opened Wrappers
  import opened AuditEvent
  import opened Redis
  import opened Chain
  import opened ChainSafety
  import opened ChainCommits
  import opened ChainRetry
  import ChainHeads

  lemma {:induction false} RunSplit(s: State, a: seq<Step>, b: seq<Step>)
    requires ValidRun(s, a + b)
    ensures ValidRun(s, a) && ValidRun(Run(s, a), b) && Run(s, a + b) == Run(Run(s, a), b)
    decreases |a|
  {
    if a == [] {
      assert a + b == b;
    } else {
      assert (a + b)[1..] == a[1..] + b;
      RunSplit(Apply(s, a[0]), a[1..], b);
    }
  }

  lemma {:induction false} RunSnoc(s: State, steps: seq<Step>, st: Step)
    requires ValidRun(s, steps) && Enabled(Run(s, steps), st)
    ensures ValidRun(s, steps + [st]) && Run(s, steps + [st]) == Apply(Run(s, steps), st)
    decreases |steps|
  {
    if steps == [] {
      assert (steps + [st])[1..] == [];
    } else {
      RunSnoc(Apply(s, steps[0]), steps[1..], st);
      assert (steps + [st])[0] == steps[0];
      assert (steps + [st])[1..] == steps[1..] + [st];
    }
  }

  /** A step that is not one of call `id`. */
  predicate Elsewhere(st: Step, id: nat) {
    st.Trim? || st.DropHead? || st.id != id
  }

  /** The call as others leave it: they can only raise its count of foreign commits. */
  predicate Untouched(c: Call, c': Call) {
    c'.(foreign := c.foreign) == c
  }

  lemma ElsewhereKeepsCall(s: State, st: Step, id: nat)
    requires Enabled(s, st) && Elsewhere(st, id) && id in s.calls
    ensures id in Apply(s, st).calls && Untouched(s.calls[id], Apply(s, st).calls[id])
    ensures Apply(s, st).chainers.Keys == s.chainers.Keys
  {
    hide HeadKey, StreamKey;
    if st.RunScript? {
      ScriptShape(s, st.id, st.streamId, st.netFault);
      hide DoRunScript;
    } else if !st.Trim? && !st.DropHead? {
      QuietShape(s, st);
      ChainersKept(s, st);
      hide Apply;
    }
  }

  lemma ChainersKept(s: State, st: Step)
    requires Enabled(s, st) && !st.RunScript? && !st.Trim? && !st.DropHead?
    ensures Apply(s, st).chainers.Keys == s.chainers.Keys
  {
    hide HeadKey, StreamKey, Prepare;
    match st
    case Invoke(_, _, _) =>
    case Acquire(_) =>
    case Cancel(_) =>
    case ReadCache(_) =>
    case ReadHead(_, _) =>
    case StoreCache(_) =>
    case Invalidate(_) =>
    case Wake(_) =>
  }

  /** The head does not parse, or the event does not encode. */
  predicate Unusable(pc: Pc) {
    pc == Done(Err(HeadUnparsable)) || pc == Done(Err(MarshalFailed))
  }

  /** Where a step of the call itself can take it. */
  predicate Follows(c: Call, st: Step, c': Call) {
    && c'.chainer == c.chainer && c'.event.body == c.event.body
    && (if st.Wake? then c'.attempt == c.attempt + 1 else c'.attempt == c.attempt)
    && match st
       case Acquire(_) => c'.pc.LoopTop?
       case Cancel(_) => c'.pc == Done(Err(Cancelled))
       case ReadCache(_) => c'.pc.Armed? || c'.pc.Fetch? || Unusable(c'.pc)
       case ReadHead(_, _) => c'.pc.Armed? || Unusable(c'.pc) || c'.pc == Done(Err(ReadHeadFailed))
       case RunScript(_, _, _) => c'.pc.Won? || c'.pc.Lost? || c'.pc == Done(Err(ScriptFailed))
       case StoreCache(_) => c'.pc == Done(Ok)
       case Invalidate(_) => c'.pc.Backoff?
       case Wake(_) => if c'.attempt < MAX_CAS_RETRIES then c'.pc.LoopTop? else c'.pc == Done(Err(CasExhausted))
       case _ => true
  }

  /** The call after taking `raw` as its expected head. */
  function ArmCall(c: Call, raw: RawHead, key: Key, cached: bool): Call {
    match Prepare(c.event, raw, key)
    case Unfilled(e, err) => c.(event := e, pc := Done(Err(err)))
    case Filled(e) => c.(event := e, pc := Armed(raw, cached), usedCache := c.usedCache || cached)
  }

  /** The call after reading a head from the cache or from Redis. */
  function ReadResult(s: State, st: Step): Call
    requires (st.ReadCache? || st.ReadHead?) && IsCall(s, st.id)
  {
    var c := s.calls[st.id];
    var ch := s.chainers[c.chainer];
    if st.ReadCache? then
      if ch.cache.Cached? && ch.cache.tenant == c.Tenant() then ArmCall(c, ch.cache.raw, ch.key, true)
        else c.(pc := Fetch)
    else
      var g := Get(s.db, HeadKey(c.Tenant()));
      if st.fault || g.WrongType? then c.(pc := Done(Err(ReadHeadFailed))) else ArmCall(c, g.value, ch.key, false)
  }

  lemma ArmGives(s: State, id: nat, raw: RawHead, cached: bool)
    requires IsCall(s, id)
    ensures id in Arm(s, id, raw, cached).calls
    ensures Arm(s, id, raw, cached).calls[id] == ArmCall(s.calls[id], raw, s.chainers[s.calls[id].chainer].key, cached)
  {
    hide Prepare;
  }

  lemma ReadGives(s: State, st: Step)
    requires Enabled(s, st) && (st.ReadCache? || st.ReadHead?)
    ensures st.id in Apply(s, st).calls && Apply(s, st).calls[st.id] == ReadResult(s, st)
  {
    hide Arm, ArmCall, HeadKey, StreamKey;
    if st.ReadCache? {
      var cache := s.chainers[s.calls[st.id].chainer].cache;
      if cache.Cached? { ArmGives(s, st.id, cache.raw, true); }
    } else {
      var g := Get(s.db, HeadKey(s.calls[st.id].Tenant()));
      if g.Got? { ArmGives(s, st.id, g.value, false); }
    }
  }

  lemma OtherStepsKeepEvent(s: State, st: Step)
    requires Enabled(s, st)
               && (st.Acquire? || st.Cancel? || st.StoreCache? || st.Wake? || st.Invalidate? || st.RunScript?)
    ensures st.id in Apply(s, st).calls
    ensures Apply(s, st).calls[st.id].event ==
              if st.Invalidate? then ClearChainFields(s.calls[st.id].event) else s.calls[st.id].event
  {
    hide HeadKey, StreamKey;
    if st.RunScript? {
      ScriptShape(s, st.id, st.streamId, st.netFault);
      hide DoRunScript;
    }
  }

  /** Nobody changes an HMAC key. */
  ghost predicate SameKeys(s: State, s': State) {
    forall c :: c in s.chainers ==> c in s'.chainers && s'.chainers[c].key == s.chainers[c].key
  }

  lemma KeysKept(s: State, st: Step)
    requires Enabled(s, st)
    ensures SameKeys(s, Apply(s, st))
  {
    hide HeadKey, StreamKey, Prepare;
    if st.RunScript? {
      ScriptShape(s, st.id, st.streamId, st.netFault);
      hide DoRunScript;
    }
  }

  /** Fill in the chain fields one after the other, as the loop body does. */
  method FillChainFields(event: Event, raw: RawHead, key: Key) returns (out: Event, err: Option<Error>)
    ensures Prepare(event, raw, key) == if err.None? then Filled(out) else Unfilled(out, err.value)
  {
    out := event;
    var head := ParseChainHead(raw);
    if head.ParseError? { return out, Some(HeadUnparsable); }
    out := out.(prevHash := head.hash);
    out := out.(seq_ := Inc(head.seq_));
    var digest := ComputeEventHash(out);
    if digest.None? { return out, Some(MarshalFailed); }
    out := out.(eventHash := digest.value);
    if |key| > 0 {
      var tag := ComputeEventHMAC(out, key);
      if tag.None? { return out, Some(MarshalFailed); }
      out := out.(hmac := tag.value);
    }
    err := None;
  }

  lemma ArmFollows(s: State, id: nat, raw: RawHead, cached: bool)
    requires IsCall(s, id)
    ensures var s' := Arm(s, id, raw, cached);
            && IsCall(s', id) && (s'.calls[id].pc.Armed? || Unusable(s'.calls[id].pc))
            && s'.calls[id].chainer == s.calls[id].chainer && s'.calls[id].event.body == s.calls[id].event.body
            && s'.calls[id].attempt == s.calls[id].attempt
  {
    PrepareFills(s.calls[id].event, raw, s.chainers[s.calls[id].chainer].key);
  }

  lemma OwnStep(s: State, st: Step)
    requires Enabled(s, st) && !st.Invoke? && !st.Trim? && !st.DropHead?
    ensures IsCall(Apply(s, st), st.id) && Follows(s.calls[st.id], st, Apply(s, st).calls[st.id])
    ensures Apply(s, st).chainers.Keys == s.chainers.Keys
  {
    hide HeadKey, StreamKey;
    if !st.RunScript? { ChainersKept(s, st); }
    if st.RunScript? {
      ScriptShape(s, st.id, st.streamId, st.netFault);
      hide DoRunScript;
    } else if st.ReadCache? {
      var cache := s.chainers[s.calls[st.id].chainer].cache;
      if cache.Cached? { ArmFollows(s, st.id, cache.raw, true); }
      hide Arm;
    } else if st.ReadHead? {
      var g := Get(s.db, HeadKey(s.calls[st.id].Tenant()));
      if g.Got? { ArmFollows(s, st.id, g.value, false); }
      hide Arm;
    } else if st.Acquire? || st.Cancel? {
      PlainStep(s, st);
      hide Apply;
    } else {
      CacheStep(s, st);
      hide Apply;
    }
  }

  lemma PlainStep(s: State, st: Step)
    requires Enabled(s, st) && (st.Acquire? || st.Cancel?)
    ensures IsCall(Apply(s, st), st.id) && Follows(s.calls[st.id], st, Apply(s, st).calls[st.id])
  {
    hide HeadKey, StreamKey;
  }

  lemma CacheStep(s: State, st: Step)
    requires Enabled(s, st) && (st.StoreCache? || st.Invalidate? || st.Wake?)
    ensures IsCall(Apply(s, st), st.id) && Follows(s.calls[st.id], st, Apply(s, st).calls[st.id])
  {
    hide HeadKey, StreamKey;
  }

  /** One loop iteration's environment: what others do before each access, and what fails. */
  datatype Turn = Turn(
    beforeCheck: seq<Step>, beforeGet: seq<Step>, beforeScript: seq<Step>,
    afterScript: seq<Step>, duringBackoff: seq<Step>,
    cancelled: bool, readFault: bool, scriptFault: Fault, cancelledInBackoff: bool,
    streamId: StreamId)

  function TurnAt(turns: seq<Turn>, i: nat): Turn {
    if i < |turns| then turns[i]
    else Turn([], [], [], [], [], false, false, NoFault, false, Id(0, 0))
  }

  /** The ID XADD assigns: the proposed one if it is larger than the last, else the next one. */
  function AssignId(db: Store, key: string, proposed: StreamId): (r: Option<StreamId>)
    ensures r.Some? ==> FreshId(db, key, r.value)
  {
    if FreshId(db, key, proposed) then Some(proposed)
    else
      var last := Entries(db, key).value[|Entries(db, key).value| - 1].id;
      if last.n < MAX_UINT64 then Some(Id(last.ms, last.n + 1))
      else if last.ms < MAX_UINT64 then Some(Id(last.ms + 1, 0))
      else None
  }

  class System {
    var s: State
    ghost var start: State
    ghost var trace: seq<Step>

    /** The current state is the one the recorded steps lead to. */
    ghost predicate Valid()
      reads this
    {
      ValidRun(start, trace) && s == Run(start, trace)
    }

    constructor (s0: State)
      ensures s == s0 && start == s0 && trace == [] && Valid()
    {
      s, start, trace := s0, s0, [];
    }

    method Do(st: Step)
      requires Valid() && Enabled(s, st)
      modifies this
      ensures Valid() && start == old(start) && trace == old(trace) + [st]
      ensures s == Apply(old(s), st)
    {
      RunSnoc(start, trace, st);
      s := Apply(s, st);
      trace := trace + [st];
    }

    /** Let the others run: those of `steps` that are possible and not ours. */
    method Interfere(steps: seq<Step>, id: nat)
      requires Valid() && id in s.calls
      modifies this
      ensures Valid() && start == old(start) && old(trace) <= trace
      ensures id in s.calls && Untouched(old(s.calls[id]), s.calls[id])
      ensures s.chainers.Keys == old(s.chainers.Keys) && SameKeys(old(s), s)
    {
      for i := 0 to |steps|
        invariant Valid() && start == old(start) && old(trace) <= trace
        invariant id in s.calls && Untouched(old(s.calls[id]), s.calls[id])
        invariant s.chainers.Keys == old(s.chainers.Keys) && SameKeys(old(s), s)
      {
        if Enabled(s, steps[i]) && Elsewhere(steps[i], id) {
          ElsewhereKeepsCall(s, steps[i], id);
          KeysKept(s, steps[i]);
          Do(steps[i]);
        }
      }
    }

    /** A step of our own call. */
    method Own(st: Step)
      requires Valid() && Enabled(s, st) && !st.Invoke? && !st.Trim? && !st.DropHead?
      modifies this
      ensures Valid() && start == old(start) && old(trace) <= trace
      ensures s.chainers.Keys == old(s.chainers.Keys)
      ensures IsCall(s, st.id) && Follows(old(s).calls[st.id], st, s.calls[st.id])
      ensures if st.ReadCache? || st.ReadHead? then s.calls[st.id] == ReadResult(old(s), st)
              else s.calls[st.id].event ==
                     if st.Invalidate? then ClearChainFields(old(s).calls[st.id].event) else old(s).calls[st.id].event
      ensures SameKeys(old(s), s)
    {
      KeysKept(s, st);
      if st.ReadCache? || st.ReadHead? { ReadGives(s, st); } else { OtherStepsKeepEvent(s, st); }
      hide Apply, Follows, Prepare;
      OwnStep(s, st);
      Do(st);
    }

    /** GET the head; a call that fails ends the append. */
    method FetchHead(id: nat, event: Event, ghost key: Key, turn: Turn) returns (raw: Option<RawHead>)
      requires Valid() && IsCall(s, id) && s.calls[id].pc.Fetch? && s.calls[id].event == event
      requires s.chainers[s.calls[id].chainer].key == key
      modifies this
      ensures Valid() && start == old(start) && old(trace) <= trace
      ensures s.chainers.Keys == old(s.chainers.Keys)
      ensures IsCall(s, id) && s.calls[id].attempt == old(s).calls[id].attempt
      ensures raw.None? ==> s.calls[id].event == event && s.calls[id].pc == Done(Err(ReadHeadFailed))
      ensures raw.Some? ==>
                && s.calls[id].event == Prepare(event, raw.value, key).event && s.calls[id].event.body == event.body
                && (s.calls[id].pc.Armed? || Unusable(s.calls[id].pc))
    {
      hide ValidRun, Run, Apply, Prepare, HeadKey, StreamKey, Get;
      Interfere(turn.beforeGet, id);
      var reply := Get(s.db, HeadKey(event.body.tenantID));
      Own(ReadHead(id, turn.readFault));
      if reply.WrongType? || turn.readFault { return None; }
      ChainHeads.PrepareFields(event, reply.value, key);
      raw := Some(reply.value);
    }

    /** Read the head this attempt will expect, from the cache or from Redis, and fill the caller's
        event in from it. */
    method ReadExpectedHead(id: nat, event: Event, turn: Turn) returns (ev: Event)
      requires Valid() && IsCall(s, id) && s.calls[id].pc.LoopTop? && s.calls[id].event == event
      modifies this
      ensures Valid() && start == old(start) && old(trace) <= trace
      ensures s.chainers.Keys == old(s.chainers.Keys)
      ensures IsCall(s, id) && s.calls[id].event == ev && ev.body == event.body
      ensures s.calls[id].attempt == old(s).calls[id].attempt
      ensures s.calls[id].pc.Armed? || Unusable(s.calls[id].pc) || s.calls[id].pc == Done(Err(ReadHeadFailed))
    {
      hide ValidRun, Run, Apply, Prepare, HeadKey, StreamKey, Get, Untouched;
      var chainer := s.chainers[s.calls[id].chainer];
      var tenant := event.body.tenantID;
      Own(ReadCache(id));
      var raw;
      if chainer.cache.Cached? && chainer.cache.tenant == tenant {
        raw := chainer.cache.raw;
      } else {
        var stored := FetchHead(id, event, chainer.key, turn);
        if stored.None? { return event; }
        raw := stored.value;
      }
      var err;
      ev, err := FillChainFields(event, raw, chainer.key);
    }

    /** Run the script on the head this attempt expects. */
    method RunAppendScript(id: nat, turn: Turn)
      requires Valid() && IsCall(s, id) && s.calls[id].pc.Armed?
      modifies this
      ensures Valid() && start == old(start) && old(trace) <= trace
      ensures s.chainers.Keys == old(s.chainers.Keys)
      ensures IsCall(s, id) && s.calls[id].event == old(s).calls[id].event
      ensures s.calls[id].attempt == old(s).calls[id].attempt
      ensures s.calls[id].pc.Won? || s.calls[id].pc.Lost? || s.calls[id].pc == Done(Err(ScriptFailed))
    {
      hide ValidRun, Run, Apply;
      var sid := AssignId(s.db, StreamKey(s.calls[id].Tenant()), turn.streamId);
      if sid.Some? {
        Own(RunScript(id, sid.value, turn.scriptFault));
      } else {
        // XADD has no ID left to assign: the script fails
        Own(RunScript(id, turn.streamId, BeforeCommit));
      }
    }

    /** After the script: cache the new head and return, or clear the chain fields, back off and go
        round again. */
    method SettleAttempt(id: nat, event: Event, turn: Turn) returns (done: bool, ev: Event)
      requires Valid() && IsCall(s, id) && (s.calls[id].pc.Won? || s.calls[id].pc.Lost?) && s.calls[id].event == event
      modifies this
      ensures Valid() && start == old(start) && old(trace) <= trace
      ensures s.chainers.Keys == old(s.chainers.Keys)
      ensures IsCall(s, id) && s.calls[id].event == ev && ev.body == event.body
      ensures done ==> s.calls[id].pc.Done?
      ensures s.calls[id].pc == Done(Err(Cancelled)) ==> turn.cancelledInBackoff
      ensures !done ==> s.calls[id].pc.LoopTop? && s.calls[id].attempt == old(s).calls[id].attempt + 1 < MAX_CAS_RETRIES
    {
      hide ValidRun, Run, Apply, SameKeys, ReadResult, HeadKey, StreamKey;
      ev := event;
      if s.calls[id].pc.Won? {
        Own(StoreCache(id));
        return true, ev;
      }
      Own(Invalidate(id));
      ev := ev.(seq_ := 0, prevHash := NoHash, eventHash := NoHash, hmac := NoTag);
      Interfere(turn.duringBackoff, id);
      if turn.cancelledInBackoff { Own(Cancel(id)); } else { Own(Wake(id)); }
      done := s.calls[id].pc.Done?;
    }

    /** One iteration of the retry loop; `done` when Append returns. */
    method Attempt(id: nat, event: Event, turn: Turn) returns (done: bool, ev: Event)
      requires Valid() && IsCall(s, id) && s.calls[id].pc.LoopTop? && s.calls[id].event == event
      modifies this
      ensures Valid() && start == old(start) && old(trace) <= trace
      ensures s.chainers.Keys == old(s.chainers.Keys)
      ensures IsCall(s, id) && s.calls[id].event == ev && ev.body == event.body
      ensures done ==> s.calls[id].pc.Done?
      ensures s.calls[id].pc == Done(Err(Cancelled)) ==> turn.cancelled || turn.cancelledInBackoff
      ensures !done ==> s.calls[id].pc.LoopTop? && s.calls[id].attempt == old(s).calls[id].attempt + 1 < MAX_CAS_RETRIES
    {
      hide ValidRun, Run, Apply, SameKeys, ReadResult, HeadKey, StreamKey;
      Interfere(turn.beforeCheck, id);
      if turn.cancelled {
        Own(Cancel(id));
        return true, event;
      }
      ev := ReadExpectedHead(id, event, turn);
      if s.calls[id].pc.Done? { return true, ev; }
      Interfere(turn.beforeScript, id);
      RunAppendScript(id, turn);
      if s.calls[id].pc.Done? { return true, ev; }
      Interfere(turn.afterScript, id);
      done, ev := SettleAttempt(id, ev, turn);
    }

    /** Append; `None` while the tenant lock is never released to it. On return the caller's
        event is the call's event, chain fields included. Started from an empty Redis, Ok means
        exactly one commit, of that event at the end of a valid chain; only a script that failed
        leaves it open whether the event was committed; and giving up means that others committed
        1023 times, unless the head was deleted. */
    method Append(id: nat, chainer: nat, event: Event, beforeLock: seq<Step>, turns: seq<Turn>)
      returns (result: Option<Result>, out: Event)
      requires Valid() && id !in s.calls && chainer in s.chainers
      modifies this
      ensures Valid() && start == old(start) && old(trace) <= trace
      ensures IsCall(s, id) && s.calls[id].event == out && out.body == event.body
      ensures s.chainers.Keys == old(s.chainers.Keys)
      ensures result.Some? <==> s.calls[id].pc.Done?
      ensures result.Some? ==> s.calls[id].pc == Done(result.value)
      ensures Init(start) && result.Some? ==> Settled(id)
      ensures result == Some(Err(Cancelled)) ==>
                exists i :: 0 <= i < |turns| && (turns[i].cancelled || turns[i].cancelledInBackoff)
      ensures ChainHeads.FieldsFollow(s.calls[id], ChainHeads.FieldsCleared(event))
    {
      Do(Invoke(id, chainer, event));
      hide ValidRun, Run, Apply, SameKeys, ReadResult, HeadKey, StreamKey, Settled;
      ghost var invoked := trace;
      ghost var clean := ChainHeads.FieldsCleared(event);
      assert ChainHeads.FieldsFollow(s.calls[id], clean);
      hide ChainHeads.FieldsFollow, ChainHeads.FieldsCleared;
      if event.body.tenantID == "" {
        Returned(id);
        return Some(Err(TenantRequired)), event;
      }
      Interfere(beforeLock, id);
      if (chainer, event.body.tenantID) in s.locks {
        FieldsKept(invoked, id, clean);
        return None, s.calls[id].event;
      }
      Own(Acquire(id));
      out := RetryLoop(id, event, turns);
      Returned(id);
      FieldsKept(invoked, id, clean);
      result := Some(s.calls[id].pc.result);
    }

    /** The attempts, up to the one that returns. */
    method RetryLoop(id: nat, event: Event, turns: seq<Turn>) returns (out: Event)
      requires Valid() && IsCall(s, id) && s.calls[id].pc.LoopTop? && s.calls[id].attempt == 0
                 && s.calls[id].event == event
      modifies this
      ensures Valid() && start == old(start) && old(trace) <= trace
      ensures IsCall(s, id) && s.calls[id].event == out && out.body == event.body
      ensures s.chainers.Keys == old(s.chainers.Keys)
      ensures s.calls[id].pc.Done?
      ensures s.calls[id].pc == Done(Err(Cancelled)) ==>
                exists i :: 0 <= i < |turns| && (turns[i].cancelled || turns[i].cancelledInBackoff)
    {
      hide ValidRun, Run, Apply, SameKeys, ReadResult, HeadKey, StreamKey;
      out := event;
      var attempt := 0;
      var done := false;
      while !done
        invariant Valid() && start == old(start) && old(trace) <= trace
        invariant IsCall(s, id) && s.calls[id].event == out && out.body == event.body
        invariant s.chainers.Keys == old(s.chainers.Keys)
        invariant done ==> s.calls[id].pc.Done?
        invariant s.calls[id].pc == Done(Err(Cancelled)) ==>
                    exists i :: 0 <= i < |turns| && (turns[i].cancelled || turns[i].cancelledInBackoff)
        invariant !done ==> s.calls[id].pc.LoopTop? && s.calls[id].attempt == attempt < MAX_CAS_RETRIES
        decreases !done, MAX_CAS_RETRIES - attempt
      {
        done, out := Attempt(id, out, TurnAt(turns, attempt));
        attempt := attempt + 1;
      }
    }

    lemma FieldsKept(early: seq<Step>, id: nat, clean: bool)
      requires Valid() && early <= trace && ValidRun(start, early)
      requires id in Run(start, early).calls && ChainHeads.FieldsFollow(Run(start, early).calls[id], clean)
      ensures id in s.calls && ChainHeads.FieldsFollow(s.calls[id], clean)
    {
      hide ChainHeads.FieldsFollow;
      var rest := trace[|early|..];
      assert trace == early + rest;
      RunSplit(start, early, rest);
      ChainHeads.RunKeepsFields(Run(start, early), rest, id, clean);
    }

    /** What the protocol guarantees of a call that has returned. */
    ghost predicate Settled(id: nat)
      requires id in s.calls && s.calls[id].pc.Done?
      reads this
    {
      var c := s.calls[id];
      var mine := CommitsBy(s.log, id);
      && (c.pc.result == Ok ==> |mine| == 1 && Carries(mine[0], c) && Chained(mine[0].chain, c.Tenant()))
      && (c.pc.result != Ok && c.pc.result != Err(ScriptFailed) ==> mine == [])
      && (c.pc.result == Err(CasExhausted) && DropHead(c.Tenant()) !in trace ==>
            c.foreign >= MAX_CAS_RETRIES - 1 && ForeignCommits(s.log, c.Tenant(), id) >= MAX_CAS_RETRIES - 1)
    }

    lemma Returned(id: nat)
      requires Valid() && id in s.calls && s.calls[id].pc.Done?
      ensures Init(start) ==> Settled(id)
    {
      hide Run, ValidRun, Init;
      if Init(start) {
        AppendReturns(start, trace, id);
        if DropHead(s.calls[id].Tenant()) !in trace { RetryBound(start, trace, s.calls[id].Tenant(), id); }
      }
    }
  }
}
