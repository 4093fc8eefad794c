/**
 `BufferedExporter` as the source writes it (core/audit/buffer.go): fields updated in place by
 Send, Close, the select loop, the drain loop and the retry loop. Arrivals of other goroutines,
 select choices, export results and the drain deadline are parameters. Every method takes
 exactly actions of `Buffer.Next`, so the results about all runs apply to it.
 */
module BufferLoop {
  import opened AuditEvent
  import opened Buffer

  lemma {:induction false} RunSnoc(b: Buf, c: Config, as_: seq<Action>, a: Action)
    requires ValidRun(b, c, as_) && Enabled(Run(b, c, as_), a)
    ensures ValidRun(b, c, as_ + [a]) && Run(b, c, as_ + [a]) == Next(Run(b, c, as_), c, a)
    decreases |as_|
  {
    if as_ == [] {
      assert (as_ + [a])[1..] == [];
    } else {
      RunSnoc(Next(b, c, as_[0]), c, as_[1..], a);
      assert (as_ + [a])[1..] == as_[1..] + [a];
    }
  }

  /** What another goroutine does. */
  datatype Arrival = Sends(event: Event) | Closes

  /** One export attempt: arrivals meanwhile, its result, and whether the wait after it is cut
      short by the drain deadline. */
  datatype Attempt = Attempt(arrivals: seq<Arrival>, ok: bool, expired: bool)

  /** One round of the select loop: arrivals before it, the branch taken, attempts if it flushes. */
  datatype Branch = FromQueue | FromTicker | FromDone
  datatype Round = Round(arrivals: seq<Arrival>, branch: Branch, attempts: seq<Attempt>)

  class BufferedExporter {
    const c: Config
    var queue: seq<Event>
    var closed: bool
    var batch: seq<Event>
    var drops: nat
    ghost var pc: Pc
    ghost var accepted: seq<Event>
    ghost var handed: seq<Batch>
    ghost var trace: seq<Action>

    ghost function State(): Buf
      reads this
    {
      Buf(queue, closed, batch, pc, drops, accepted, handed)
    }

    ghost predicate Valid()
      reads this
    {
      && c.maxRetries > 0
      && ValidRun(Initial(), c, trace)
      && State() == Run(Initial(), c, trace)
      && Inv(State(), c)
    }

    constructor (config: Config)
      requires config.maxRetries > 0
      ensures Valid() && c == config && trace == [] && State() == Initial()
    {
      c := config;
      queue, closed, batch, drops := [], false, [], 0;
      pc, accepted, handed, trace := Selecting, [], [], [];
    }

    /** Record that the fields just took action `a` from state `b`. */
    ghost method Took(b: Buf, a: Action)
      requires c.maxRetries > 0 && ValidRun(Initial(), c, trace) && b == Run(Initial(), c, trace) && Inv(b, c)
      requires Enabled(b, a) && State() == Next(b, c, a)
      modifies this`trace
      ensures Valid() && trace == old(trace) + [a]
    {
      RunSnoc(Initial(), c, trace, a);
      NextKeepsInv(b, c, a);
      trace := trace + [a];
    }

    /** Enqueue unless closed or full; never blocks. */
    method SendEvent(e: Event) returns (taken: bool)
      requires Valid()
      modifies this
      ensures Valid() && trace == old(trace) + [Send(e)]
      ensures taken <==> !old(closed) && |old(queue)| < c.capacity
      ensures queue == if taken then old(queue) + [e] else old(queue)
      ensures pc == old(pc) && batch == old(batch) && closed == old(closed) && handed == old(handed)
    {
      hide Run, ValidRun, Inv;
      ghost var b := State();
      taken := !closed && |queue| < c.capacity;
      if taken {
        queue := queue + [e];
        accepted := accepted + [e];
      }
      Took(b, Send(e));
    }

    /** The critical section of Close: later Sends are refused, the loop is told to drain. */
    method MarkClosed()
      requires Valid()
      modifies this
      ensures Valid() && closed && trace == old(trace) + [Close]
      ensures queue == old(queue) && pc == old(pc) && batch == old(batch) && handed == old(handed)
    {
      hide Run, ValidRun, Inv;
      ghost var b := State();
      closed := true;
      Took(b, Close);
    }

    method Arrive(arrivals: seq<Arrival>)
      requires Valid()
      modifies this
      ensures Valid() && old(trace) <= trace
      ensures pc == old(pc) && batch == old(batch) && handed == old(handed)
      ensures old(closed) ==> closed && queue == old(queue)
    {
      hide Run, ValidRun, Inv;
      for i := 0 to |arrivals|
        invariant Valid() && old(trace) <= trace
        invariant pc == old(pc) && batch == old(batch) && handed == old(handed)
        invariant old(closed) ==> closed && queue == old(queue)
      {
        match arrivals[i]
        case Sends(e) => var _ := SendEvent(e);
        case Closes => MarkClosed();
      }
    }

    /** exportWithRetry: up to maxRetries attempts with a wait between them; only the drain's
        context can expire. */
    method ExportWithRetry(draining: bool, attempts: seq<Attempt>)
      requires Valid() && pc.Exporting? && handed != [] && handed[|handed| - 1].failures == 0
      requires handed[|handed| - 1].fate == InFlight && handed[|handed| - 1].draining == draining
      modifies this
      ensures Valid() && old(trace) <= trace
      ensures pc == old(pc).after && batch == old(batch)
      ensures old(closed) ==> closed && queue == old(queue)
    {
      hide Run, ValidRun, Inv;
      var attempt := 0;
      while attempt < c.maxRetries
        invariant Valid() && old(trace) <= trace
        invariant pc == old(pc) && batch == old(batch) && pc.Exporting?
        invariant old(closed) ==> closed && queue == old(queue)
        invariant handed != [] && handed[|handed| - 1].fate == InFlight && handed[|handed| - 1].draining == draining
        invariant attempt == handed[|handed| - 1].failures < c.maxRetries
      {
        var now := if attempt < |attempts| then attempts[attempt] else Attempt([], true, false);
        Arrive(now.arrivals);
        attempt := attempt + 1;
        var over := ExportOnce(draining, attempt, now);
        if over { return; }
      }
    }

    /** One attempt and what follows from it: delivered, dropped, abandoned, or tried again. */
    method ExportOnce(draining: bool, attempt: nat, now: Attempt) returns (over: bool)
      requires Valid() && pc.Exporting? && handed != [] && handed[|handed| - 1].failures + 1 == attempt <= c.maxRetries
      requires handed[|handed| - 1].fate == InFlight && handed[|handed| - 1].draining == draining
      modifies this
      ensures Valid() && old(trace) <= trace
      ensures pc == (if over then old(pc).after else old(pc))
      ensures batch == old(batch) && closed == old(closed) && queue == old(queue)
      ensures over <==> now.ok || attempt == c.maxRetries || (now.expired && draining)
      ensures !over ==>
                && handed != [] && handed[|handed| - 1].fate == InFlight && handed[|handed| - 1].draining == draining
                && handed[|handed| - 1].failures == attempt < c.maxRetries
    {
      hide Run, ValidRun, Inv;
      ghost var b := State();
      ghost var last := |handed| - 1;
      if now.ok {
        handed := handed[last := handed[last].(fate := Delivered)];
        pc := pc.after;
        Took(b, ExportOk);
        return true;
      }
      if attempt >= c.maxRetries {
        drops := drops + 1;
        handed := handed[last := handed[last].(failures := attempt, fate := Dropped)];
        pc := pc.after;
        Took(b, ExportFailed(now.expired));
        return true;
      }
      if now.expired && draining {
        handed := handed[last := handed[last].(failures := attempt, fate := Abandoned)];
        pc := pc.after;
        Took(b, ExportFailed(now.expired));
        return true;
      }
      handed := handed[last := handed[last].(failures := attempt)];
      Took(b, ExportFailed(now.expired));
      over := false;
    }

    /** flush, as the last part of action `a` begun in state `b`: a copy of the batch goes to
        exportWithRetry and the batch is emptied; nothing happens when it is empty. */
    method FlushBatch(ghost b: Buf, ghost a: Action, ghost after: Pc, draining: bool, attempts: seq<Attempt>)
      requires c.maxRetries > 0 && ValidRun(Initial(), c, trace) && b == Run(Initial(), c, trace) && Inv(b, c)
      requires Enabled(b, a) && Next(b, c, a) == Flush(State(), after)
      requires !after.Exporting? && draining == !after.Selecting?
      modifies this
      ensures Valid() && old(trace) < trace
      ensures pc == after && batch == []
      ensures old(closed) ==> closed && queue == old(queue)
    {
      hide Run, ValidRun, Inv, Next;
      if batch == [] {
        pc := after;
        Took(b, a);
        return;
      }
      handed := handed + [Batch(batch, InFlight, 0, draining)];
      batch := [];
      pc := Exporting(after);
      Took(b, a);
      ExportWithRetry(draining, attempts);
    }

    /** Receive one event into the batch; flush when the batch is full. */
    method TakeOne(draining: bool, attempts: seq<Attempt>)
      requires Valid() && queue != [] && pc == (if draining then Draining else Selecting)
      modifies this
      ensures Valid() && old(trace) < trace && pc == old(pc)
      ensures old(closed) ==> closed && queue == old(queue)[1..]
    {
      hide Run, ValidRun, Inv;
      ghost var b := State();
      ghost var a := if draining then DrainReceive else Receive;
      batch, queue := batch + [queue[0]], queue[1..];
      if |batch| >= c.batchSize {
        FlushBatch(b, a, b.pc, draining, attempts);
      } else {
        Took(b, a);
      }
    }

    /** drainQueuedEvents: take what is queued, flushing full batches, then flush the rest. */
    method DrainQueuedEvents(attempts: seq<seq<Attempt>>)
      requires Valid() && pc.Draining? && closed
      modifies this
      ensures Valid() && old(trace) <= trace
      ensures pc.Stopped? && queue == [] && batch == []
    {
      hide Run, ValidRun, Inv;
      var i := 0;
      while queue != []
        invariant Valid() && old(trace) <= trace && pc.Draining? && closed
        decreases |queue|
      {
        TakeOne(true, if i < |attempts| then attempts[i] else []);
        i := i + 1;
      }
      FlushBatch(State(), DrainDone, Stopped, true, if i < |attempts| then attempts[i] else []);
    }

    /** The select loop over any sequence of rounds; `stopped` when it returned, after which Close
        can return: nothing is queued and nothing accepted is unaccounted for. */
    method Loop(rounds: seq<Round>, drainAttempts: seq<seq<Attempt>>) returns (stopped: bool)
      requires Valid() && pc.Selecting?
      modifies this
      ensures Valid() && old(trace) <= trace
      ensures stopped ==> pc.Stopped? && queue == [] && batch == [] && accepted == Flatten(handed)
    {
      hide Run, ValidRun, Inv;
      for i := 0 to |rounds|
        invariant Valid() && old(trace) <= trace && pc.Selecting?
      {
        Arrive(rounds[i].arrivals);
        match rounds[i].branch
        case FromQueue =>
          if queue != [] { TakeOne(false, rounds[i].attempts); }
        case FromTicker =>
          FlushBatch(State(), Tick, Selecting, false, rounds[i].attempts);
        case FromDone =>
          if closed {
            ghost var b := State();
            pc := Draining;
            Took(b, StartDrain);
            DrainQueuedEvents(drainAttempts);
            assert accepted == Flatten(handed) by { Conservation(); }
            return true;
          }
      }
      stopped := false;
    }

    lemma Conservation()
      requires Valid() && queue == [] && batch == []
      ensures accepted == Flatten(handed)
    {
      hide Run, ValidRun;
    }
  }
}
