/**
 The NATS audit consumer (core/audit/consumer.go): chain, then export, then ack; at-least-once
 redelivery is an arbitrary sequence of deliveries.
 */
module Consumer {
  import opened Wrappers
  import opened AuditEvent
  import opened Redis
  import opened Chain
  import opened ChainSafety
  import opened ChainCommits
  import opened ChainerLoop
  import ChainHeads

  const MAX_AUDIT_EVENT_BYTES: nat := 1048576

  datatype FailMode = Strict | Permissive

  /** A bus packet: not an audit alert, or an alert of `size` bytes that may decode. */
  datatype Packet = NotAudit | Alert(size: nat, decoded: Option<Event>)

  /** What the environment does to one delivery. */
  datatype Delivery = Delivery(packet: Packet, beforeLock: seq<Step>, turns: seq<Turn>, exportOk: bool, sinkOk: bool)

  /** How a delivery ended; `Blocked` never returned because its tenant lock was never free. */
  datatype Handling = Ignored | Oversized | Malformed | Unchained | Blocked | Exported | ExportFailed

  predicate Acked(h: Handling) {
    h != ExportFailed && h != Blocked
  }

  // ---------------------------------------------------------------- finished calls stay finished

  lemma DoneIsFinal(s: State, st: Step, id: nat)
    requires Enabled(s, st) && id in s.calls && s.calls[id].pc.Done?
    ensures id in Apply(s, st).calls && Apply(s, st).calls[id] == s.calls[id]
  {
    hide HeadKey, StreamKey;
    if st.RunScript? {
      ScriptShape(s, st.id, st.streamId, st.netFault);
      hide DoRunScript;
    } else if !st.Trim? && !st.DropHead? {
      QuietShape(s, st);
      hide Apply;
    }
  }

  lemma {:induction false} RunKeepsDone(s: State, steps: seq<Step>, id: nat)
    requires ValidRun(s, steps) && id in s.calls && s.calls[id].pc.Done?
    ensures id in Run(s, steps).calls && Run(s, steps).calls[id] == s.calls[id]
    decreases |steps|
  {
    if steps != [] {
      DoneIsFinal(s, steps[0], id);
      RunKeepsDone(Apply(s, steps[0]), steps[1..], id);
    }
  }

  /** Extending the trace keeps every finished call. */
  lemma LaterKeepsDone(start: State, early: seq<Step>, late: seq<Step>, id: nat)
    requires ValidRun(start, late) && early <= late && ValidRun(start, early)
    requires id in Run(start, early).calls && Run(start, early).calls[id].pc.Done?
    ensures id in Run(start, late).calls && Run(start, late).calls[id] == Run(start, early).calls[id]
  {
    var rest := late[|early|..];
    assert late == early + rest;
    RunSplit(start, early, rest);
    RunKeepsDone(Run(start, early), rest, id);
  }

  /** Some number up to |m| is no key of m. */
  lemma {:induction false} UnusedId(m: set<nat>, n: nat)
    requires forall i :: 0 <= i < n ==> i in m
    ensures n <= |m|
  {
    if n > 0 {
      UnusedId(m - {n - 1}, n - 1);
    }
  }

  class NATSAuditConsumer {
    const chain: System
    const chainer: Option<nat>
    const mode: FailMode
    const hasSink: bool
    var exported: seq<Event>
    var stepHashes: seq<(string, Hash)>
    /** The Append call behind each exported event. */
    ghost var calls: seq<nat>

    /** With a chainer in strict mode, everything exported is a committed event. */
    ghost predicate Valid()
      reads this, chain
    {
      && chain.Valid() && Init(chain.start)
      && (chainer.Some? ==> chainer.value in chain.s.chainers)
      && (mode == Strict && chainer.Some? ==>
            && |calls| == |exported|
            && forall k :: 0 <= k < |exported| ==> Backed(chain.s, calls[k], exported[k]))
    }

    /** The event is what a successful Append call left with its caller. */
    static predicate Backed(s: State, id: nat, e: Event) {
      id in s.calls && s.calls[id].pc == Done(Ok) && s.calls[id].event == e
    }

    /** A finished Append call for this event that returned an error. */
    static predicate Refused(s: State, id: nat, e: Event) {
      id in s.calls && s.calls[id].pc.Done? && s.calls[id].pc.result != Ok && s.calls[id].event.body == e.body
    }

    constructor (c: System, ch: Option<nat>, m: FailMode, sink: bool)
      requires c.Valid() && Init(c.start) && (ch.Some? ==> ch.value in c.s.chainers)
      ensures Valid() && chain == c && chainer == ch && mode == m && exported == []
    {
      chain, chainer, mode, hasSink := c, ch, m, sink;
      exported, stepHashes, calls := [], [], [];
    }

    /** A fresh identifier for one more Append call. */
    method NewCallId() returns (id: nat)
      ensures id !in chain.s.calls
    {
      id := 0;
      while id in chain.s.calls
        invariant forall i :: 0 <= i < id ==> i in chain.s.calls
        decreases |chain.s.calls.Keys| - id
      {
        UnusedId(chain.s.calls.Keys, id + 1);
        id := id + 1;
      }
    }

    /** The hash of a job's event goes back to its workflow step once the event is chained. */
    ghost predicate WritesBack(d: Delivery, h: Handling, call: nat)
      reads this, chain
    {
      && h in {Exported, ExportFailed} && chainer.Some? && hasSink && d.sinkOk
      && call in chain.s.calls && chain.s.calls[call].pc == Done(Ok)
      && chain.s.calls[call].event.eventHash != NoHash && chain.s.calls[call].event.body.jobID != ""
    }

    ghost function StepHash(call: nat): (string, Hash)
      requires call in chain.s.calls
      reads this, chain
    {
      (chain.s.calls[call].event.body.jobID, chain.s.calls[call].event.eventHash)
    }

    /** What goes to the exporter: the event as Append left it, or as it came without a chainer. */
    ghost function Sent(event: Event, call: nat): Event
      requires chainer.Some? ==> call in chain.s.calls
      reads this, chain
    {
      if chainer.Some? then chain.s.calls[call].event else event
    }

    /** The call of a delivery that got past Append: chain fields are empty on an event that came without
        them exactly when Append failed for another reason than its encoding or the script. */
    ghost predicate Returned(event: Event, call: nat)
      reads this, chain
    {
      && call in chain.s.calls && chain.s.calls[call].pc.Done?
      && ChainHeads.FieldsFollow(chain.s.calls[call], ChainHeads.FieldsCleared(event))
    }

    /** handle, once the event is decoded: chain it, write its hash back, export it. */
    method ChainAndExport(event: Event, d: Delivery) returns (h: Handling, ghost call: nat)
      requires Valid()
      modifies this, chain
      ensures Valid() && chain.start == old(chain.start) && old(chain.trace) <= chain.trace
      ensures h in {Unchained, Blocked, Exported, ExportFailed}
      ensures h == Unchained ==> mode == Strict && chainer.Some? && Refused(chain.s, call, event)
      ensures h == Blocked ==> chainer.Some? && call in chain.s.calls && !chain.s.calls[call].pc.Done?
      ensures h == Exported ==> d.exportOk
      ensures h == ExportFailed ==> !d.exportOk
      ensures chainer.Some? ==> call !in old(chain.s).calls && (Chains(h) ==> Returned(event, call))
      ensures h in {Exported, ExportFailed} && mode == Strict && chainer.Some? ==> chain.s.calls[call].pc == Done(Ok)
      ensures h == Exported ==> exported == old(exported) + [Sent(event, call)] && Sent(event, call).body == event.body
      ensures h != Exported ==> exported == old(exported)
      ensures stepHashes == old(stepHashes) + (if WritesBack(d, h, call) then [StepHash(call)] else [])
    {
      hide Run, ValidRun, Init, ChainHeads.FieldsFollow, ChainHeads.FieldsCleared;
      call := 0;
      var out := event;
      if chainer.Some? {
        var id := NewCallId();
        call := id;
        var result;
        result, out := ChainEvent(id, event, d);
        if result == None { return Blocked, call; }
        if result.value != Ok {
          if mode == Strict { return Unchained, call; }
        } else if hasSink && out.eventHash != NoHash && out.body.jobID != "" && d.sinkOk {
          stepHashes := stepHashes + [(out.body.jobID, out.eventHash)];
        }
      }
      if !d.exportOk { return ExportFailed, call; }
      exported, calls := exported + [out], calls + [call];
      h := Exported;
    }

    /** handle: skip, drop, or chain and export. Ack is `Acked(h)`. */
    method Handle(d: Delivery) returns (h: Handling, ghost call: nat)
      requires Valid()
      modifies this, chain
      ensures Valid() && chain.start == old(chain.start) && old(chain.trace) <= chain.trace
      ensures Justified(d, h, mode, chainer.Some?)
      ensures h == Unchained ==>
                mode == Strict && chainer.Some? && d.packet.Alert? && d.packet.decoded.Some?
                && Refused(chain.s, call, d.packet.decoded.value)
      ensures h == Blocked ==> chainer.Some? && call in chain.s.calls && !chain.s.calls[call].pc.Done?
      ensures chainer.Some? && Chains(h) ==>
                && call !in old(chain.s).calls && d.packet.Alert? && d.packet.decoded.Some?
                && Returned(d.packet.decoded.value, call)
                && (mode == Strict && h != Unchained ==> chain.s.calls[call].pc == Done(Ok))
      ensures h == Exported ==>
                && d.exportOk && d.packet.Alert? && d.packet.decoded.Some?
                && exported == old(exported) + [Sent(d.packet.decoded.value, call)]
                && Sent(d.packet.decoded.value, call).body == d.packet.decoded.value.body
      ensures h != Exported ==> exported == old(exported)
      ensures stepHashes == old(stepHashes) + (if WritesBack(d, h, call) then [StepHash(call)] else [])
    {
      hide Run, ValidRun, Init, Backed, Refused, Returned, StepHash, Valid;
      call := 0;
      if d.packet.NotAudit? { return Ignored, call; }
      if d.packet.size > MAX_AUDIT_EVENT_BYTES { return Oversized, call; }
      if d.packet.decoded.None? { return Malformed, call; }
      h, call := ChainAndExport(d.packet.decoded.value, d);
    }

    /** Append, keeping what earlier exports rest on. */
    method ChainEvent(id: nat, event: Event, d: Delivery) returns (result: Option<Result>, out: Event)
      requires Valid() && chainer.Some? && id !in chain.s.calls
      modifies chain
      ensures Valid() && chain.start == old(chain.start) && old(chain.trace) <= chain.trace
      ensures out.body == event.body
      ensures id in chain.s.calls && chain.s.calls[id].event == out
      ensures result.None? ==> !chain.s.calls[id].pc.Done?
      ensures result == Some(Ok) ==> Backed(chain.s, id, out)
      ensures result.Some? && result != Some(Ok) ==> Refused(chain.s, id, event)
      ensures ChainHeads.FieldsFollow(chain.s.calls[id], ChainHeads.FieldsCleared(event))
    {
      hide ChainHeads.FieldsFollow, ChainHeads.FieldsCleared;
      ghost var before, trace0 := chain.s, chain.trace;
      result, out := chain.Append(id, chainer.value, event, d.beforeLock, d.turns);
      hide Run, ValidRun, Init;
      if mode == Strict {
        forall k | 0 <= k < |exported| ensures Backed(chain.s, calls[k], exported[k]) {
          assert Backed(before, calls[k], exported[k]);
          LaterKeepsDone(chain.start, trace0, chain.trace, calls[k]);
        }
      }
    }

    /** Any sequence of deliveries, redeliveries included; `ids` names the Append call of each. Every
        delivery that gets as far appends again, so in strict mode a message has one commit per
        delivery that reached the exporter, and at most one more per delivery whose script failed. */
    method Consume(ds: seq<Delivery>) returns (hs: seq<Handling>, ghost ids: seq<nat>)
      requires Valid()
      modifies this, chain
      ensures Valid() && chain.start == old(chain.start) && |hs| == |ds| && |ids| == |ds|
      ensures forall k :: 0 <= k < |ds| ==> Justified(ds[k], hs[k], mode, chainer.Some?)
      ensures SentBodies(old(exported), exported, Bodies(ds, hs))
      ensures chainer.Some? ==> CallsOf(chain.s, hs, ids, mode == Strict)
      ensures mode == Strict && chainer.Some? ==>
                && (forall k :: 0 <= k < |exported| ==> Attested(chain.s, exported[k]))
                && forall p :: ToExporter(ds, hs, p) <= Commits(chain.s, ds, hs, ids, p)
                               <= ToExporter(ds, hs, p) + InDoubt(chain.s, ds, hs, ids, p)
    {
      hide Run, ValidRun, Init, Bodies, Attested, Justified, Valid, CallsOf, SentBodies;
      hs, ids := [], [];
      assert ds[..0] == [];
      NothingSent(exported);
      NoCalls(chain.s, mode == Strict);
      for i := 0 to |ds|
        invariant Valid() && chain.start == old(chain.start) && |hs| == i && |ids| == i
        invariant forall k :: 0 <= k < i ==> Justified(ds[k], hs[k], mode, chainer.Some?)
        invariant SentBodies(old(exported), exported, Bodies(ds[..i], hs))
        invariant chainer.Some? ==> CallsOf(chain.s, hs, ids, mode == Strict)
      {
        ghost var sent, trace0 := exported, chain.trace;
        OpenValid();
        var h;
        ghost var id;
        h, id := Handle(ds[i]);
        BodiesNext(ds, i, hs, h);
        OneMoreSent(old(exported), sent, exported, Bodies(ds[..i], hs), ds[i], h);
        if chainer.Some? {
          OpenValid();
          CallsGrow(chain.start, trace0, chain.trace, hs, ids, mode == Strict, h, id);
        }
        hs, ids := hs + [h], ids + [id];
      }
      assert ds[..|ds|] == ds;
      if mode == Strict && chainer.Some? { AllAttested(ds, hs, ids); }
    }

    lemma OpenValid()
      requires Valid()
      ensures chain.Valid() && Init(chain.start) && chain.s == Run(chain.start, chain.trace)
      ensures ValidRun(chain.start, chain.trace)
    {}

    lemma AllAttested(ds: seq<Delivery>, hs: seq<Handling>, ids: seq<nat>)
      requires Valid() && mode == Strict && chainer.Some? && |ds| == |hs| == |ids| && CallsOf(chain.s, hs, ids, true)
      ensures forall k :: 0 <= k < |exported| ==> Attested(chain.s, exported[k])
      ensures forall p :: ToExporter(ds, hs, p) <= Commits(chain.s, ds, hs, ids, p)
                          <= ToExporter(ds, hs, p) + InDoubt(chain.s, ds, hs, ids, p)
    {
      hide Run, ValidRun, Init, Attested, CallsOf;
      forall k | 0 <= k < |exported| ensures Attested(chain.s, exported[k]) {
        BackedIsAttested(chain.start, chain.trace, calls[k], exported[k]);
      }
      forall p
        ensures ToExporter(ds, hs, p) <= Commits(chain.s, ds, hs, ids, p)
                <= ToExporter(ds, hs, p) + InDoubt(chain.s, ds, hs, ids, p)
      {
        CommitsCounted(chain.start, chain.trace, ds, hs, ids, p);
      }
    }
  }

  // ---------------------------------------------------------------- commits per message

  /** The delivery got a result from Append. */
  predicate Chains(h: Handling) {
    h in {Exported, ExportFailed, Unchained}
  }

  /** Each delivery that got a result has a finished call of its own, a successful one if it went on to
      the exporter in strict mode. */
  ghost predicate CallsOf(s: State, hs: seq<Handling>, ids: seq<nat>, strict: bool) {
    && |hs| == |ids|
    && (forall k :: 0 <= k < |hs| && Chains(hs[k]) ==>
          && ids[k] in s.calls && s.calls[ids[k]].pc.Done?
          && (strict && hs[k] != Unchained ==> s.calls[ids[k]].pc == Done(Ok))
          && (hs[k] == Unchained ==> s.calls[ids[k]].pc != Done(Ok)))
    && (forall j, k :: 0 <= j < k < |hs| && Chains(hs[j]) && Chains(hs[k]) ==> ids[j] != ids[k])
  }

  lemma NoCalls(s: State, strict: bool)
    ensures CallsOf(s, [], [], strict)
  {}

  lemma CallsGrow(start: State, early: seq<Step>, late: seq<Step>, hs: seq<Handling>, ids: seq<nat>, strict: bool,
                  h: Handling, id: nat)
    requires ValidRun(start, early) && ValidRun(start, late) && early <= late
    requires CallsOf(Run(start, early), hs, ids, strict)
    requires var s := Run(start, late);
             Chains(h) ==>
               && id !in Run(start, early).calls && id in s.calls && s.calls[id].pc.Done?
               && (strict && h != Unchained ==> s.calls[id].pc == Done(Ok))
               && (h == Unchained ==> s.calls[id].pc != Done(Ok))
    ensures CallsOf(Run(start, late), hs + [h], ids + [id], strict)
  {
    hide Run, ValidRun;
    forall k | 0 <= k < |hs| && Chains(hs[k])
      ensures ids[k] in Run(start, late).calls && Run(start, late).calls[ids[k]] == Run(start, early).calls[ids[k]]
    {
      LaterKeepsDone(start, early, late, ids[k]);
    }
  }

  /** Deliveries of a packet that went to the exporter. */
  function ToExporter(ds: seq<Delivery>, hs: seq<Handling>, p: Packet): nat
    requires |ds| == |hs|
  {
    if ds == [] then 0
    else
      var n := |ds| - 1;
      ToExporter(ds[..n], hs[..n], p) + (if ds[n].packet == p && hs[n] in {Exported, ExportFailed} then 1 else 0)
  }

  /** Deliveries of a packet that were dropped after a failed script. */
  function InDoubt(s: State, ds: seq<Delivery>, hs: seq<Handling>, ids: seq<nat>, p: Packet): nat
    requires |ds| == |hs| == |ids|
  {
    if ds == [] then 0
    else
      var n := |ds| - 1;
      InDoubt(s, ds[..n], hs[..n], ids[..n], p)
      + (if ds[n].packet == p && hs[n] == Unchained && ids[n] in s.calls
        && s.calls[ids[n]].pc == Done(Err(ScriptFailed))
         then 1 else 0)
  }

  /** Commits made for a packet by the calls of its deliveries. */
  function Commits(s: State, ds: seq<Delivery>, hs: seq<Handling>, ids: seq<nat>, p: Packet): nat
    requires |ds| == |hs| == |ids|
  {
    if ds == [] then 0
    else
      var n := |ds| - 1;
      Commits(s, ds[..n], hs[..n], ids[..n], p)
      + (if ds[n].packet == p && Chains(hs[n]) then |CommitsBy(s.log, ids[n])| else 0)
  }

  lemma {:induction false} CommitsCounted(start: State, trace: seq<Step>, ds: seq<Delivery>, hs: seq<Handling>,
                                          ids: seq<nat>, p: Packet)
    requires Init(start) && ValidRun(start, trace) && |ds| == |hs|
    requires CallsOf(Run(start, trace), hs, ids, true)
    ensures var s := Run(start, trace);
            ToExporter(ds, hs, p) <= Commits(s, ds, hs, ids, p) <= ToExporter(ds, hs, p) + InDoubt(s, ds, hs, ids, p)
  {
    hide Run, ValidRun, Init, CommitsBy;
    if ds != [] {
      var n := |ds| - 1;
      CommitsCounted(start, trace, ds[..n], hs[..n], ids[..n], p);
      if Chains(hs[n]) { CommitsOfCall(start, trace, ids[n]); }
    }
  }

  lemma CommitsOfCall(start: State, trace: seq<Step>, id: nat)
    requires Init(start) && ValidRun(start, trace)
    requires id in Run(start, trace).calls && Run(start, trace).calls[id].pc.Done?
    ensures var n, pc := |CommitsBy(Run(start, trace).log, id)|, Run(start, trace).calls[id].pc;
            && (pc == Done(Ok) ==> n == 1)
            && (pc == Done(Err(ScriptFailed)) ==> n <= 1)
            && (pc != Done(Ok) && pc != Done(Err(ScriptFailed)) ==> n == 0)
  {
    AppendReturns(start, trace, id);
  }

  // ---------------------------------------------------------------- what was sent

  /** These bodies were exported, in order, since `before`. */
  ghost predicate SentBodies(before: seq<Event>, after: seq<Event>, bodies: seq<Body>) {
    && |after| == |before| + |bodies| && before <= after
    && forall k :: 0 <= k < |bodies| ==> after[|before| + k].body == bodies[k]
  }

  lemma NothingSent(exported: seq<Event>)
    ensures SentBodies(exported, exported, Bodies([], []))
  {}

  lemma OneMoreSent(before: seq<Event>, sent: seq<Event>, after: seq<Event>, bodies: seq<Body>, d: Delivery,
                    h: Handling)
    requires SentBodies(before, sent, bodies)
    requires h != Exported ==> after == sent
    requires h == Exported ==>
               && d.packet.Alert? && d.packet.decoded.Some? && |after| == |sent| + 1 && sent <= after
               && after[|sent|].body == d.packet.decoded.value.body
    ensures SentBodies(before, after, if h == Exported then bodies + [d.packet.decoded.value.body] else bodies)
  {}

  /** How a delivery may end. A message is not acked only if its export failed or its tenant's lock
      was never free; an acked audit message was exported, refused by the chain in strict mode,
      oversized or malformed. */
  predicate Justified(d: Delivery, h: Handling, mode: FailMode, chained: bool) {
    match d.packet
    case NotAudit => h == Ignored
    case Alert(size, decoded) =>
      if size > MAX_AUDIT_EVENT_BYTES then h == Oversized
      else if decoded.None? then h == Malformed
      else
        || (h == Exported && d.exportOk)
        || (h == ExportFailed && !d.exportOk)
        || (h == Unchained && mode == Strict && chained)
        || (h == Blocked && chained)
  }

  /** The bodies of the deliveries that were exported, in order. */
  function Bodies(ds: seq<Delivery>, hs: seq<Handling>): seq<Body>
    requires |ds| == |hs|
  {
    if ds == [] then []
    else
      var n := |ds| - 1;
      var before := Bodies(ds[..n], hs[..n]);
      if hs[n] == Exported && ds[n].packet.Alert? && ds[n].packet.decoded.Some?
      then before + [ds[n].packet.decoded.value.body] else before
  }

  lemma BodiesNext(ds: seq<Delivery>, i: nat, hs: seq<Handling>, h: Handling)
    requires i < |ds| && |hs| == i
    ensures Bodies(ds[..i + 1], hs + [h]) ==
              if h == Exported && ds[i].packet.Alert? && ds[i].packet.decoded.Some?
              then Bodies(ds[..i], hs) + [ds[i].packet.decoded.value.body] else Bodies(ds[..i], hs)
  {
    assert ds[..i + 1][..i] == ds[..i] && (hs + [h])[..i] == hs;
  }

  /** Exactly one commit of some call carries the event, at the end of a valid chain of its tenant. */
  ghost predicate Attested(s: State, e: Event) {
    exists id :: AttestedBy(s, id, e)
  }

  ghost predicate AttestedBy(s: State, id: nat, e: Event) {
    var mine := CommitsBy(s.log, id);
    && |mine| == 1
    && mine[0].tenant == e.body.tenantID
    && Chained(mine[0].chain, e.body.tenantID)
    && mine[0].chain != [] && mine[0].chain[|mine[0].chain| - 1].payload == Decoded(e)
  }

  /** Strict mode: an event left by a successful Append is an entry of its tenant's valid chain,
      with the same Seq, PrevHash, EventHash and HMAC, committed exactly once. */
  lemma BackedIsAttested(start: State, trace: seq<Step>, id: nat, e: Event)
    requires Init(start) && ValidRun(start, trace)
    requires id in Run(start, trace).calls
    requires Run(start, trace).calls[id].pc == Done(Ok) && Run(start, trace).calls[id].event == e
    ensures Attested(Run(start, trace), e)
  {
    AppendReturns(start, trace, id);
    hide Run, ValidRun, Init;
    assert AttestedBy(Run(start, trace), id, e);
  }
}
