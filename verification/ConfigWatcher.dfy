/**
 registerSchedulerConfigNotifications and watchConfigChanges as the source runs them
 (cmd/cordum-scheduler/config_overlay.go), with writers and notifications between any two of the
 watcher's own steps.
 */
module ConfigWatcher {
  import opened Wrappers
  import opened JsonValue
  import opened Canonical
  import opened CanonicalWriter
  import opened Routing
  import opened ConfigWatch

  /** What happens around the watcher: a document is stored, or the notification of a write arrives. */
  datatype Event = Put(doc: Doc) | Notify(k: nat)

  /** One pass of the select loop: what happens before it, which case is ready, whether the load
      succeeds, and what happens just before and just after it. */
  datatype Round = Round(before: seq<Event>, tick: bool, loads: bool, during: seq<Event>, after: seq<Event>)

  class Watcher {
    /** The stored document and the number of writes so far, the first one included. */
    var doc: Doc
    var count: nat
    /** The channel of capacity one. */
    var token: bool
    var lastPoolsHash: Option<Digest>
    var routing: PoolRouting
    const parse: Parser
    ghost var start: State
    ghost var trace: seq<Step>

    ghost function Now(): State
      requires ValidRun(start, trace, parse)
      reads this
    {
      Run(start, trace, parse)
    }

    /** The fields are those of the state the recorded steps lead to. */
    ghost predicate Tracks(pc: Pc)
      reads this
    {
      && Init(start) && ValidRun(start, trace, parse)
      && var e := Now();
         && e.pc == pc && e.writes != [] && doc == e.writes[|e.writes| - 1] && count == |e.writes| && token == e.token
         && lastPoolsHash == e.lastHash && routing == e.routing
    }

    constructor (first: Doc, initial: PoolRouting, parser: Parser)
      requires DocOk(first)
      ensures Tracks(Idle) && routing == initial && doc == first
    {
      doc, count, token, lastPoolsHash, routing, parse := first, 1, false, None, initial, parser;
      start, trace := State([first], -1, false, Idle, -1, false, None, None, initial), [];
    }

    ghost method Note(st: Step)
      requires ValidRun(start, trace, parse) && Enabled(Now(), st)
      modifies this`trace
      ensures ValidRun(start, trace, parse) && Now() == Apply(old(Now()), st, parse) && trace == old(trace) + [st]
    {
      Extend(start, trace, st, parse);
      trace := trace + [st];
    }

    /** Earlier writes are still there, and the watcher has not moved. */
    ghost predicate Kept(writes: seq<Doc>, hash: Option<Digest>, r: PoolRouting)
      reads this
    {
      ValidRun(start, trace, parse) && writes <= Now().writes && lastPoolsHash == hash && routing == r
    }

    method PutDoc(d: Doc, ghost pc: Pc)
      requires Tracks(pc) && DocOk(d)
      modifies this
      ensures Tracks(pc) && start == old(start) && count == old(count) + 1
      ensures Kept(old(Now().writes), old(lastPoolsHash), old(routing))
    {
      hide Run, ValidRun, Init, DocOk;
      Note(Write(d));
      doc, count := d, count + 1;
    }

    /** The subscription callback: a full channel swallows the notification. */
    method OnConfigChanged(k: nat, ghost pc: Pc)
      requires Tracks(pc) && k < count
      modifies this
      ensures Tracks(pc) && start == old(start) && token && count == old(count)
      ensures Kept(old(Now().writes), old(lastPoolsHash), old(routing))
    {
      hide Run, ValidRun, Init;
      Note(Deliver(k));
      if !token { token := true; }
    }

    method Interfere(events: seq<Event>, ghost pc: Pc)
      requires Tracks(pc) && EventsOk(events)
      modifies this
      ensures Tracks(pc) && start == old(start) && count == old(count) + Puts(events)
      ensures Kept(old(Now().writes), old(lastPoolsHash), old(routing))
    {
      hide Run, ValidRun, Init, DocOk;
      for i := 0 to |events|
        invariant Tracks(pc) && start == old(start) && count == old(count) + Puts(events[..i])
        invariant Kept(old(Now().writes), old(lastPoolsHash), old(routing))
      {
        assert events[..i + 1][..i] == events[..i];
        match events[i]
        case Put(d) => PutDoc(d, pc);
        case Notify(k) => if k < count { OnConfigChanged(k, pc); }
      }
      assert events[..|events|] == events;
    }

    /** loadConfigSnapshot: the pools of the document and their digest, if they are usable. */
    method LoadSnapshot() returns (pools: Option<PoolsConfig>, hash: Digest)
      ensures pools == PoolsOf(doc, parse)
      ensures pools.Some? ==> hash == HashOf(doc)
    {
      hide Encode, Normalize;
      pools, hash := None, Sha256("");
      if doc.Missing? { return; }
      if "pools" in doc.data {
        var normalized := NormalizePools(doc.data["pools"]);
        var cfg := parse(normalized);
        if cfg.None? { return; }
        hash := HashValue(normalized);
        pools := cfg;
      }
    }

    /** reload: a failing load leaves everything as it is; pools with a new digest replace the
        routing. */
    method Reload(loads: bool, during: seq<Event>, after: seq<Event>)
      requires Tracks(Loading)
      requires EventsOk(during) && EventsOk(after)
      modifies this
      ensures Tracks(Idle) && start == old(start) && Now().failed == !loads
      ensures count == old(count) + Puts(during) + (if loads then Puts(after) else 0)
      ensures loads ==> Now().lastRead == old(count) + Puts(during) - 1
    {
      hide Run, ValidRun, Init, EventsOk, Puts, PoolsOf, HashOf, RoutingOf;
      Interfere(during, Loading);
      if !loads {
        Note(LoadFails);
        return;
      }
      var pools, hash := LoadSnapshot();
      ghost var read, at := doc, |Now().writes| - 1;
      Note(Load);
      Interfere(after, Loaded(at));
      assert read == Now().writes[at];
      Adopt(pools, hash, at);
    }

    /** The rest of reload: pools with a new digest replace the routing. */
    method Adopt(pools: Option<PoolsConfig>, hash: Digest, ghost at: nat)
      requires Tracks(Loaded(at)) && at < |Now().writes| && pools == PoolsOf(Now().writes[at], parse)
      requires pools.Some? ==> hash == HashOf(Now().writes[at])
      modifies this
      ensures Tracks(Idle) && start == old(start) && count == old(count)
      ensures !Now().failed && Now().lastRead == at
    {
      hide Run, ValidRun, Init, PoolsOf, HashOf, RoutingOf;
      Note(ApplySnapshot);
      if pools.Some? && lastPoolsHash != Some(hash) {
        routing := BuildRouting(pools.value);
        lastPoolsHash := Some(hash);
      }
    }

    /** watchConfigChanges: a poll reads everything stored before it, and after any number of rounds, if
        no token is waiting and the last reload could load the document, the routing in force is that
        of a snapshot read no earlier than the last notified write, provided its pools are usable. */
    method WatchConfigChanges(rounds: seq<Round>)
      requires Tracks(Idle)
      requires forall r :: 0 <= r < |rounds| ==> RoundOk(rounds[r])
      modifies this
      ensures Tracks(Idle) && start == old(start)
      ensures rounds != [] && rounds[|rounds| - 1].tick && rounds[|rounds| - 1].loads ==>
                !Now().failed && Now().lastRead >= old(count) + Puts(rounds[|rounds| - 1].before) - 1
      ensures !token && !Now().failed ==> Now().notified <= Now().lastRead < |Now().writes|
      ensures !token && !Now().failed && Now().lastRead >= 0 && PoolsOf(Now().writes[Now().lastRead], parse).Some? ==>
                routing == RoutingOf(PoolsOf(Now().writes[Now().lastRead], parse).value)
      ensures !token && !Now().failed && Now().notified == |Now().writes| - 1 && PoolsOf(doc, parse).Some? ==>
                routing == RoutingOf(PoolsOf(doc, parse).value)
    {
      hide Run, ValidRun, Init, PoolsOf, RoutingOf, EventsOk, Puts;
      for r := 0 to |rounds|
        invariant Tracks(Idle) && start == old(start) && count >= old(count)
        invariant r > 0 && rounds[r - 1].tick && rounds[r - 1].loads ==>
                    !Now().failed && Now().lastRead >= old(count) + Puts(rounds[r - 1].before) - 1
      {
        assert RoundOk(rounds[r]);
        Interfere(rounds[r].before, Idle);
        if rounds[r].tick {
          Note(Tick);
        } else if token {
          Note(TakeToken);
          token := false;
        } else {
          continue;
        }
        Reload(rounds[r].loads, rounds[r].during, rounds[r].after);
      }
      NoLostChange(start, trace, parse);
    }
  }

  /** How many documents are stored. */
  function Puts(events: seq<Event>): nat {
    if events == [] then 0 else Puts(events[..|events| - 1]) + (if events[|events| - 1].Put? then 1 else 0)
  }

  ghost predicate EventsOk(events: seq<Event>) {
    forall i :: 0 <= i < |events| && events[i].Put? ==> DocOk(events[i].doc)
  }

  ghost predicate RoundOk(r: Round) {
    EventsOk(r.before) && EventsOk(r.during) && EventsOk(r.after)
  }

  /** normalizePoolsOverlay */
  method NormalizePools(raw: Json) returns (r: Json)
    ensures r == Normalize(raw)
  {
    if !raw.Obj? { return raw; }
    var out: map<string, Json> := map[];
    if "topics" in raw.fields {
      out := out["topics" := raw.fields["topics"]];
    } else if "Topics" in raw.fields {
      out := out["topics" := raw.fields["Topics"]];
    }
    if "pools" in raw.fields {
      out := out["pools" := raw.fields["pools"]];
    } else if "Pools" in raw.fields {
      out := out["pools" := raw.fields["Pools"]];
    }
    assert out == Normalize(raw).fields;
    r := Obj(out);
  }
}
