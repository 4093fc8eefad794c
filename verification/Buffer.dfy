/**
 The batching queue in front of a SIEM exporter (core/audit/buffer.go): producers `Send`
 without blocking, one loop batches, exports with retries and drains on `Close`.

 `Buf` is the whole state between two atomic actions; `Next` is one action. The class below
 runs the source's own loops and takes exactly these actions.
 */
module Buffer {
  import opened AuditEvent

  /** Fate of a batch handed to exportWithRetry. */
  datatype Fate = InFlight | Delivered | Dropped | Abandoned

  datatype Batch = Batch(events: seq<Event>, fate: Fate, failures: nat, draining: bool)

  /** Where the loop goroutine is. While exporting, `after` says where it continues. */
  datatype Pc = Selecting | Draining | Stopped | Exporting(after: Pc)

  datatype Config = Config(capacity: nat, batchSize: int, maxRetries: nat)

  datatype Buf = Buf(
    queue: seq<Event>, closed: bool, batch: seq<Event>, pc: Pc, drops: nat,
    accepted: seq<Event>, handed: seq<Batch>)

  datatype Action =
    | Send(event: Event)
    | Close
    | Receive
    | Tick
    | StartDrain
    | DrainReceive
    | DrainDone
    | ExportOk
    | ExportFailed(drainExpired: bool)

  function Initial(): Buf {
    Buf([], false, [], Selecting, 0, [], [])
  }

  /** flush: hand the current batch over, or do nothing when it is empty. */
  function Flush(b: Buf, after: Pc): Buf {
    if b.batch == [] then b.(pc := after)
    else b.(batch := [], pc := Exporting(after),
            handed := b.handed + [Batch(b.batch, InFlight, 0, !after.Selecting?)])
  }

  /** Take the oldest queued event into the batch; flush a full batch. */
  function Accumulate(b: Buf, c: Config): Buf
    requires b.queue != []
  {
    var b1 := b.(queue := b.queue[1..], batch := b.batch + [b.queue[0]]);
    if |b1.batch| >= c.batchSize then Flush(b1, b.pc) else b1
  }

  /** The result of the current attempt: settle the batch or go on to the next attempt. The drain
      deadline can only end the wait between two attempts. */
  function Settle(b: Buf, c: Config, ok: bool, expired: bool): Buf
    requires b.pc.Exporting? && b.handed != []
  {
    var last := |b.handed| - 1;
    var h := b.handed[last];
    if ok then b.(pc := b.pc.after, handed := b.handed[last := h.(fate := Delivered)])
    else
      var h1 := h.(failures := h.failures + 1);
      if h1.failures >= c.maxRetries
      then b.(pc := b.pc.after, drops := b.drops + 1, handed := b.handed[last := h1.(fate := Dropped)])
      else if expired && h.draining
      then b.(pc := b.pc.after, handed := b.handed[last := h1.(fate := Abandoned)])
      else b.(handed := b.handed[last := h1])
  }

  predicate Enabled(b: Buf, a: Action) {
    match a
    case Send(_) => true
    case Close => true
    case Receive => b.pc.Selecting? && b.queue != []
    case Tick => b.pc.Selecting?
    case StartDrain => b.pc.Selecting? && b.closed
    case DrainReceive => b.pc.Draining? && b.queue != []
    case DrainDone => b.pc.Draining? && b.queue == []
    case ExportOk => b.pc.Exporting? && b.handed != []
    case ExportFailed(_) => b.pc.Exporting? && b.handed != []
  }

  function Next(b: Buf, c: Config, a: Action): Buf
    requires Enabled(b, a)
  {
    match a
    case Send(e) =>
      if b.closed || |b.queue| >= c.capacity then b
      else b.(queue := b.queue + [e], accepted := b.accepted + [e])
    case Close => b.(closed := true)
    case Receive => Accumulate(b, c)
    case Tick => Flush(b, Selecting)
    case StartDrain => b.(pc := Draining)
    case DrainReceive => Accumulate(b, c)
    case DrainDone => Flush(b, Stopped)
    case ExportOk => Settle(b, c, true, false)
    case ExportFailed(expired) => Settle(b, c, false, expired)
  }

  predicate ValidRun(b: Buf, c: Config, as_: seq<Action>)
    decreases |as_|
  {
    as_ == [] || (Enabled(b, as_[0]) && ValidRun(Next(b, c, as_[0]), c, as_[1..]))
  }

  function Run(b: Buf, c: Config, as_: seq<Action>): Buf
    requires ValidRun(b, c, as_)
    decreases |as_|
  {
    if as_ == [] then b else Run(Next(b, c, as_[0]), c, as_[1..])
  }

  // ---------------------------------------------------------------- invariant

  /** All events handed over, batch after batch. */
  function Flatten(hs: seq<Batch>): seq<Event> {
    if hs == [] then [] else Flatten(hs[..|hs| - 1]) + hs[|hs| - 1].events
  }

  function DroppedCount(hs: seq<Batch>): nat {
    if hs == [] then 0 else DroppedCount(hs[..|hs| - 1]) + if hs[|hs| - 1].fate == Dropped then 1 else 0
  }

  /** A batch size below one flushes every event on its own. */
  function MaxBatch(c: Config): nat {
    if c.batchSize < 1 then 1 else c.batchSize
  }

  /** Delivered once, dropped after exactly maxRetries failures, or abandoned while draining. */
  predicate Accounted(h: Batch, c: Config) {
    && 0 < |h.events| <= MaxBatch(c)
    && match h.fate
       case InFlight => h.failures < c.maxRetries
       case Delivered => h.failures < c.maxRetries
       case Dropped => h.failures == c.maxRetries
       case Abandoned => h.draining && 0 < h.failures < c.maxRetries
  }

  function Base(pc: Pc): Pc {
    if pc.Exporting? then pc.after else pc
  }

  /** Every batch handed over is accounted for; only the current one can be in flight. */
  ghost predicate Books(hs: seq<Batch>, exporting: bool, drops: nat, c: Config) {
    && (forall i :: 0 <= i < |hs| ==> Accounted(hs[i], c))
    && (forall i :: 0 <= i < |hs| ==> (hs[i].fate == InFlight <==> exporting && i == |hs| - 1))
    && (exporting ==> hs != [])
    && drops == DroppedCount(hs)
  }

  /** The loop drains only after Close, and stops only with nothing left. */
  predicate Phase(b: Buf) {
    && (b.pc.Exporting? ==> !b.pc.after.Exporting? && b.batch == []
                            && b.handed != [] && b.handed[|b.handed| - 1].draining == !b.pc.after.Selecting?)
    && (!Base(b.pc).Selecting? ==> b.closed)
    && (Base(b.pc).Stopped? ==> b.queue == [] && b.batch == [])
  }

  ghost predicate Conserved(b: Buf) {
    b.accepted == Flatten(b.handed) + b.batch + b.queue
  }

  ghost predicate Inv(b: Buf, c: Config) {
    && Conserved(b)
    && Books(b.handed, b.pc.Exporting?, b.drops, c)
    && Phase(b)
    && |b.queue| <= c.capacity && |b.batch| < MaxBatch(c)
  }

  lemma FlattenSnoc(hs: seq<Batch>, h: Batch)
    ensures Flatten(hs + [h]) == Flatten(hs) + h.events
    ensures DroppedCount(hs + [h]) == DroppedCount(hs) + if h.fate == Dropped then 1 else 0
  {
    assert (hs + [h])[..|hs|] == hs;
  }

  lemma FlattenUpdate(hs: seq<Batch>, h: Batch)
    requires hs != [] && h.events == hs[|hs| - 1].events
    ensures Flatten(hs[|hs| - 1 := h]) == Flatten(hs)
    ensures hs[|hs| - 1].fate == InFlight ==>
              DroppedCount(hs[|hs| - 1 := h]) == DroppedCount(hs) + if h.fate == Dropped then 1 else 0
  {
    assert hs[|hs| - 1 := h][..|hs| - 1] == hs[..|hs| - 1];
  }

  lemma BooksSnoc(hs: seq<Batch>, drops: nat, c: Config, h: Batch)
    requires Books(hs, false, drops, c) && Accounted(h, c) && h.fate == InFlight
    ensures Books(hs + [h], true, drops, c)
  {
    FlattenSnoc(hs, h);
    hide Accounted, DroppedCount;
  }

  lemma BooksUpdate(hs: seq<Batch>, drops: nat, c: Config, h: Batch)
    requires Books(hs, true, drops, c) && Accounted(h, c) && h.events == hs[|hs| - 1].events
    ensures Books(hs[|hs| - 1 := h], h.fate == InFlight, drops + (if h.fate == Dropped then 1 else 0), c)
  {
    FlattenUpdate(hs, h);
    hide Accounted, DroppedCount;
  }

  /** Handing a batch over keeps everything accepted in order and accounted for. */
  lemma FlushKeepsInv(b: Buf, c: Config, after: Pc)
    requires !after.Exporting? && !b.pc.Exporting? && c.maxRetries > 0
    requires Conserved(b) && Books(b.handed, false, b.drops, c)
    requires |b.queue| <= c.capacity && |b.batch| <= MaxBatch(c)
    requires !after.Selecting? ==> b.closed
    requires after.Stopped? ==> b.queue == []
    ensures Inv(Flush(b, after), c)
  {
    hide Books, Flatten, DroppedCount, MaxBatch;
    if b.batch != [] {
      var h := Batch(b.batch, InFlight, 0, !after.Selecting?);
      assert Accounted(h, c);
      hide Accounted;
      FlattenSnoc(b.handed, h);
      BooksSnoc(b.handed, b.drops, c, h);
    }
    assert MaxBatch(c) > 0 by { SomeBatch(c); }
  }

  lemma SomeBatch(c: Config)
    ensures MaxBatch(c) > 0
  {}

  lemma AccumulateKeepsInv(b: Buf, c: Config)
    requires Inv(b, c) && c.maxRetries > 0 && b.queue != []
    requires b.pc.Selecting? || b.pc.Draining?
    ensures Inv(Accumulate(b, c), c)
  {
    hide Books, Flatten;
    var b1 := b.(queue := b.queue[1..], batch := b.batch + [b.queue[0]]);
    assert Flatten(b.handed) + b.batch + b.queue == Flatten(b.handed) + b1.batch + b1.queue;
    if |b1.batch| >= c.batchSize { FlushKeepsInv(b1, c, b.pc); }
  }

  lemma SettleKeepsInv(b: Buf, c: Config, ok: bool, expired: bool)
    requires Inv(b, c) && b.pc.Exporting?
    ensures Inv(Settle(b, c, ok, expired), c)
  {
    var last := |b.handed| - 1;
    var h := b.handed[last];
    assert Accounted(h, c) && h.fate == InFlight;
    var b' := Settle(b, c, ok, expired);
    var h' := b'.handed[last];
    assert b'.handed == b.handed[last := h'];
    assert Accounted(h', c);
    BooksUpdate(b.handed, b.drops, c, h');
    FlattenUpdate(b.handed, h');
    hide Books, Flatten;
  }

  lemma NextKeepsInv(b: Buf, c: Config, a: Action)
    requires Inv(b, c) && c.maxRetries > 0 && Enabled(b, a)
    ensures Inv(Next(b, c, a), c)
  {
    hide Books, Flatten, Settle, Accumulate, Flush;
    match a
    case Send(e) => assert Flatten(b.handed) + b.batch + (b.queue + [e]) == Flatten(b.handed) + b.batch + b.queue + [e];
    case Close =>
    case Receive => AccumulateKeepsInv(b, c);
    case Tick => FlushKeepsInv(b, c, Selecting);
    case StartDrain =>
    case DrainReceive => AccumulateKeepsInv(b, c);
    case DrainDone => FlushKeepsInv(b, c, Stopped);
    case ExportOk => SettleKeepsInv(b, c, true, false);
    case ExportFailed(expired) => SettleKeepsInv(b, c, false, expired);
  }

  lemma {:induction false} RunKeepsInv(b: Buf, c: Config, as_: seq<Action>)
    requires Inv(b, c) && c.maxRetries > 0 && ValidRun(b, c, as_)
    ensures Inv(Run(b, c, as_), c)
    decreases |as_|
  {
    if as_ != [] {
      NextKeepsInv(b, c, as_[0]);
      RunKeepsInv(Next(b, c, as_[0]), c, as_[1..]);
    }
  }

  /** In every reachable state, whatever the interleaving: the accepted events are, in order, all
      batches handed to export, the current batch and the queue; batches are non-empty and no
      larger than the batch size; each settled batch was delivered, dropped after exactly
      maxRetries failures (and counted), or abandoned in the drain. Once the loop has stopped, so
      once Close returns, nothing is queued and every batch is settled. */
  lemma BufferConservation(c: Config, as_: seq<Action>)
    requires c.maxRetries > 0 && ValidRun(Initial(), c, as_)
    ensures var b := Run(Initial(), c, as_);
            && b.accepted == Flatten(b.handed) + b.batch + b.queue
            && (forall i :: 0 <= i < |b.handed| ==> Accounted(b.handed[i], c))
            && b.drops == DroppedCount(b.handed)
            && (b.pc.Stopped? ==> b.closed && b.accepted == Flatten(b.handed)
                                  && forall i :: 0 <= i < |b.handed| ==> b.handed[i].fate != InFlight)
  {
    RunKeepsInv(Initial(), c, as_);
    hide Run, Flatten, Accounted;
  }

  /** A batch is handed over exactly when an event fills it up, or when a tick or the end of the drain
      finds one begun. */
  predicate HandsOver(b: Buf, c: Config, a: Action) {
    match a
    case Receive => |b.batch| + 1 == (if c.batchSize < 1 then 1 else c.batchSize)
    case DrainReceive => |b.batch| + 1 == (if c.batchSize < 1 then 1 else c.batchSize)
    case Tick => b.batch != []
    case DrainDone => b.batch != []
    case _ => false
  }

  /** In every reachable state: what is handed over is the batch begun, with the event that fills it up. */
  lemma HandedOverExactly(c: Config, as_: seq<Action>, a: Action)
    requires c.maxRetries > 0 && ValidRun(Initial(), c, as_) && Enabled(Run(Initial(), c, as_), a)
    ensures var b := Run(Initial(), c, as_);
            var b' := Next(b, c, a);
            if HandsOver(b, c, a) then
              && |b'.handed| == |b.handed| + 1 && b'.handed[..|b.handed|] == b.handed && b'.batch == []
              && b'.handed[|b.handed|].events == b.batch + (if a.Receive? || a.DrainReceive? then [b.queue[0]] else [])
            else |b'.handed| == |b.handed|
  {
    RunKeepsInv(Initial(), c, as_);
    hide Run, ValidRun, Flatten, Books;
  }
}
