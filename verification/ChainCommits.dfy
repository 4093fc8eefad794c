/**
 What a return value of Append says about the log: success is exactly one atomic append,
 a lost script reply at most one, any other error none.
 */
module ChainCommits {
  import opened AuditEvent
  import opened Redis
  import opened Chain
  import opened ChainSafety

  /** The commits made by one call, in order. */
  function CommitsBy(log: seq<Commit>, id: nat): seq<Commit> {
    if log == [] then []
    else
      var last := log[|log| - 1];
      CommitsBy(log[..|log| - 1], id) + (if last.call == id then [last] else [])
  }

  predicate CallLogged(log: seq<Commit>, id: nat, c: Call) {
    var mine := CommitsBy(log, id);
    match c.pc
    case Won => |mine| == 1 && Carries(mine[0], c)
    case Done(Ok) => |mine| == 1 && Carries(mine[0], c)
    case Done(Err(ScriptFailed)) => mine == [] || (|mine| == 1 && Carries(mine[0], c))
    case _ => mine == []
  }

  ghost predicate LogInv(s: State) {
    && (forall id: nat :: if id in s.calls then CallLogged(s.log, id, s.calls[id]) else CommitsBy(s.log, id) == [])
    && (forall k :: 0 <= k < |s.log| ==> Chained(s.log[k].chain, s.log[k].tenant))
  }

  lemma CommitsBySnoc(log: seq<Commit>, k: Commit, id: nat)
    ensures CommitsBy(log + [k], id) == CommitsBy(log, id) + (if k.call == id then [k] else [])
  {
    assert (log + [k])[..|log|] == log;
  }

  /** A step that logs nothing and changes one call keeps LogInv if that call still agrees. */
  lemma OneCallChanged(s: State, s': State, id: nat)
    requires LogInv(s) && s'.log == s.log
    requires id in s'.calls && s'.calls == s.calls[id := s'.calls[id]]
    requires CallLogged(s.log, id, s'.calls[id])
    ensures LogInv(s')
  {
    forall j: nat ensures if j in s'.calls then CallLogged(s'.log, j, s'.calls[j]) else CommitsBy(s'.log, j) == [] {
      if j != id && j in s.calls { assert CallLogged(s.log, j, s.calls[j]); }
    }
  }

  lemma CommitKeepsLog(s: State, s': State, id: nat, k: Commit)
    requires LogInv(s) && id in s.calls && s.calls[id].pc.Armed?
    requires s'.log == s.log + [k] && k.call == id && Chained(k.chain, k.tenant)
    requires id in s'.calls && s'.calls == CountForeign(s.calls, id, k.tenant)[id := s'.calls[id]]
    requires s'.calls[id].pc in {Won, Done(Err(ScriptFailed))} && Carries(k, s'.calls[id])
    ensures LogInv(s')
  {
    assert CallLogged(s.log, id, s.calls[id]);
    forall j: nat ensures if j in s'.calls then CallLogged(s'.log, j, s'.calls[j]) else CommitsBy(s'.log, j) == [] {
      CommitsBySnoc(s.log, k, j);
      if j in s.calls { assert CallLogged(s.log, j, s.calls[j]); }
    }
  }

  lemma RunScriptKeepsLog(s: State, id: nat, sid: StreamId, fault: Fault)
    requires Inv(s) && LogInv(s) && Enabled(s, RunScript(id, sid, fault))
    ensures LogInv(DoRunScript(s, id, sid, fault))
  {
    hide HeadKey, StreamKey, DoRunScript, LogInv, Get, Entries, CountForeign;
    var s' := DoRunScript(s, id, sid, fault);
    ScriptShape(s, id, sid, fault);
    if s'.log == s.log {
      LostKeepsLog(s, s', id);
    } else {
      RunScriptKeepsInv(s, id, sid, fault);
      WonKeepsLog(s, s', id, sid);
    }
  }

  lemma LostKeepsLog(s: State, s': State, id: nat)
    requires LogInv(s) && id in s.calls && s.calls[id].pc.Armed? && NoCommitShape(s, s', id)
    ensures LogInv(s')
  {
    hide HeadKey, StreamKey, Get, Entries;
    assert CallLogged(s.log, id, s.calls[id]);
    OneCallChanged(s, s', id);
  }

  lemma WonKeepsLog(s: State, s': State, id: nat, sid: StreamId)
    requires LogInv(s) && Inv(s') && id in s.calls && s.calls[id].pc.Armed? && CommitShape(s, s', id, sid)
    ensures LogInv(s')
  {
    hide HeadKey, StreamKey, Get, Entries, CountForeign, FreshId, LogInv, CallOk;
    var t := s.calls[id].Tenant();
    assert TenantInv(s'.db, History(s', t), t);
    hide TenantInv, Inv;
    assert Chained(History(s', t), t) by { ChainOf(s', t); }
    CommitKeepsLog(s, s', id, Commit(id, t, History(s', t)));
  }

  lemma ChainOf(s: State, t: string)
    requires TenantInv(s.db, History(s, t), t)
    ensures Chained(History(s, t), t)
  {}

  lemma StepKeepsLog(s: State, st: Step)
    requires Inv(s) && LogInv(s) && Enabled(s, st)
    ensures LogInv(Apply(s, st))
  {
    if st.RunScript? {
      RunScriptKeepsLog(s, st.id, st.streamId, st.netFault);
    } else if !st.Trim? && !st.DropHead? {
      QuietShape(s, st);
      var s' := Apply(s, st);
      assert CallLogged(s.log, st.id, s'.calls[st.id]) by {
        if !st.Invoke? { assert CallLogged(s.log, st.id, s.calls[st.id]); }
      }
      OneCallChanged(s, s', st.id);
    }
  }

  lemma {:induction false} RunKeepsLog(s: State, steps: seq<Step>)
    requires Inv(s) && LogInv(s) && ValidRun(s, steps)
    ensures Inv(Run(s, steps)) && LogInv(Run(s, steps))
    decreases |steps|
  {
    if steps != [] {
      StepKeepsInv(s, steps[0]);
      StepKeepsLog(s, steps[0]);
      RunKeepsLog(Apply(s, steps[0]), steps[1..]);
    }
  }

  lemma InitInv(s: State)
    requires Init(s)
    ensures Inv(s) && LogInv(s)
  {
    forall t ensures TenantInv(s.db, History(s, t), t) {
      assert Chained(History(s, t), t);
    }
  }

  // ---------------------------------------------------------------- main results

  /** Neighbours in a stream: consecutive seqs, linked by digest, each digest its own event's. */
  ghost predicate StreamLinked(es: seq<Entry>, t: string) {
    && (forall i :: 0 <= i < |es| ==>
          es[i].payload.Decoded? && es[i].payload.event.body.tenantID == t
          && VerifyEventHash(es[i].payload.event))
    && (forall i :: 0 < i < |es| ==>
          && es[i].payload.event.seq_ == Inc(es[i - 1].payload.event.seq_)
          && es[i].payload.event.prevHash == es[i - 1].payload.event.eventHash)
  }

  /** Under every interleaving, each tenant's surviving stream is linked and consecutive. */
  lemma StreamsStayLinked(s: State, steps: seq<Step>, t: string)
    requires Init(s) && ValidRun(s, steps)
    ensures var es := Entries(Run(s, steps).db, StreamKey(t));
            es.Got? ==> StreamLinked(es.value, t) && Ordered(es.value)
  {
    hide Run, ValidRun, Init, HeadKey, StreamKey, Entries, Get, TenantInv;
    InitInv(s);
    RunKeepsInv(s, steps);
    var s' := Run(s, steps);
    assert TenantInv(s'.db, History(s', t), t);
    SuffixLinked(s'.db, History(s', t), t);
  }

  /** What is left of a valid chain after trims is linked. */
  lemma SuffixLinked(db: Store, h: seq<Entry>, t: string)
    requires TenantInv(db, h, t)
    ensures var es := Entries(db, StreamKey(t));
            es.Got? ==> StreamLinked(es.value, t) && Ordered(es.value)
  {
    hide HeadKey, StreamKey;
    var es := Entries(db, StreamKey(t));
    if es.Got? {
      var k := |h| - |es.value|;
      forall i | 0 <= i < |es.value|
        ensures es.value[i] == h[k + i] && LinkOk(h, t, k + i)
      {}
      forall i | 0 < i < |es.value|
        ensures es.value[i].payload.event.seq_ == Inc(es.value[i - 1].payload.event.seq_)
        ensures es.value[i].payload.event.prevHash == es.value[i - 1].payload.event.eventHash
      {
        assert LinkOk(h, t, k + i) && LinkOk(h, t, k + i - 1);
        assert es.value[i - 1] == h[k + i - 1];
      }
    }
  }

  /** A returned Append: Ok means exactly one commit, of the event now held by the caller and
      at the end of a valid chain; a lost script reply at most one; any other error none. */
  lemma AppendReturns(s: State, steps: seq<Step>, id: nat)
    requires Init(s) && ValidRun(s, steps)
    requires id in Run(s, steps).calls && Run(s, steps).calls[id].pc.Done?
    ensures var s' := Run(s, steps);
            var c := s'.calls[id];
            var mine := CommitsBy(s'.log, id);
            && (c.pc.result == Ok ==> |mine| == 1)
            && (c.pc.result == Err(ScriptFailed) ==> |mine| <= 1)
            && (c.pc.result != Ok && c.pc.result != Err(ScriptFailed) ==> mine == [])
            && forall k :: 0 <= k < |mine| ==> Carries(mine[k], c) && Chained(mine[k].chain, c.Tenant())
  {
    InitInv(s);
    RunKeepsLog(s, steps);
    var s' := Run(s, steps);
    assert CallLogged(s'.log, id, s'.calls[id]);
    CommitsAreLogged(s'.log, id);
  }

  lemma {:induction false} CommitsAreLogged(log: seq<Commit>, id: nat)
    ensures forall k :: 0 <= k < |CommitsBy(log, id)| ==> CommitsBy(log, id)[k] in log
    ensures forall k :: 0 <= k < |CommitsBy(log, id)| ==> CommitsBy(log, id)[k].call == id
  {
    if log != [] {
      CommitsAreLogged(log[..|log| - 1], id);
    }
  }

  /** A commit is one atomic compare-and-append: the expected head was the head, genesis met an
      empty stream, the stream grew by exactly the caller's event and the head names it. */
  lemma CommitIsAtomic(s: State, st: Step)
    requires Enabled(s, st) && Apply(s, st).log != s.log
    ensures st.RunScript?
    ensures var c := s.calls[st.id];
            var t := c.Tenant();
            var s' := Apply(s, st);
            && |s'.log| == |s.log| + 1
            && Get(s.db, HeadKey(t)) == Got(c.pc.raw)
            && Entries(s.db, StreamKey(t)).Got?
            && (Get(s.db, HeadKey(t)) == Got(NoHead) ==> Entries(s.db, StreamKey(t)).value == [])
            && Entries(s'.db, StreamKey(t)) ==
                 Got(Entries(s.db, StreamKey(t)).value + [Entry(st.streamId, Decoded(c.event))])
            && Get(s'.db, HeadKey(t)) == Got(Head(c.event.seq_, c.event.eventHash))
  {
    if !st.RunScript? && !st.Trim? && !st.DropHead? { QuietShape(s, st); }
    if st.RunScript? { KeysApart(s.calls[st.id].Tenant(), s.calls[st.id].Tenant()); }
  }

  /** Without a commit only trimming and losing the head change Redis. */
  lemma QuietDb(s: State, st: Step)
    requires Enabled(s, st) && !st.Trim? && !st.DropHead? && Apply(s, st).log == s.log
    ensures Apply(s, st).db == s.db
  {
    if st.RunScript? {
      ScriptShape(s, st.id, st.streamId, st.netFault);
    } else {
      QuietShape(s, st);
      hide Apply;
    }
    hide Enabled, DoRunScript, HeadKey, StreamKey, Get, Entries;
  }

  lemma TrimKeepsSuffix(s: State, t: string, k: nat, u: string)
    requires Enabled(s, Trim(t, k))
    requires Entries(s.db, StreamKey(u)).Got? && Entries(DoTrim(s, t, k).db, StreamKey(u)).Got?
    ensures IsSuffix(Entries(DoTrim(s, t, k).db, StreamKey(u)).value, Entries(s.db, StreamKey(u)).value)
  {
    KeysApart(t, u);
    hide StreamKey, HeadKey;
  }

  /** Without a commit no stream gains an entry. */
  lemma NoCommitNoGrowth(s: State, st: Step, u: string)
    requires Enabled(s, st) && Apply(s, st).log == s.log
    requires Entries(s.db, StreamKey(u)).Got? && Entries(Apply(s, st).db, StreamKey(u)).Got?
    ensures IsSuffix(Entries(Apply(s, st).db, StreamKey(u)).value, Entries(s.db, StreamKey(u)).value)
  {
    hide StreamKey, HeadKey, Enabled;
    if st.Trim? {
      TrimKeepsSuffix(s, st.tenant, st.count, u);
    } else if st.DropHead? {
      assert Apply(s, st).db == s.db - {HeadKey(st.tenant)};
    } else {
      QuietDb(s, st);
      hide Apply;
    }
  }
}
