/**
 The part of Redis the audit chain relies on: typed keys, streams whose entries have
 strictly increasing IDs, and inclusive / exclusive ID ranges.
 */
module Redis {
  import opened Wrappers
  import opened AuditEvent

  type uint64 = x: int | 0 <= x <= 0xFFFF_FFFF_FFFF_FFFF

  const MAX_UINT64: uint64 := 0xFFFF_FFFF_FFFF_FFFF

  /** A stream ID "<ms>-<n>". */
  datatype StreamId = Id(ms: uint64, n: uint64)

  predicate Lt(a: StreamId, b: StreamId) {
    a.ms < b.ms || (a.ms == b.ms && a.n < b.n)
  }

  predicate Le(a: StreamId, b: StreamId) {
    a == b || Lt(a, b)
  }

  /** What the "event" field of a stream entry decodes to. */
  datatype Payload = NoEventField | Undecodable | Decoded(event: Event)

  datatype Entry = Entry(id: StreamId, payload: Payload)

  ghost predicate Ordered(s: seq<Entry>) {
    forall i, j :: 0 <= i < j < |s| ==> Lt(s[i].id, s[j].id)
  }

  /** "seq:hash" as stored under a head key; text that does not parse is `BadHead`. */
  datatype RawHead = NoHead | Head(seq_: int64, hash: Hash) | BadHead(text: NonEmpty)

  datatype Value = Str(head: RawHead) | Stream(entries: seq<Entry>)

  type Store = map<string, Value>

  /** Redis answers WRONGTYPE when a key holds the other kind of value. */
  datatype Reply<+T> = Got(value: T) | WrongType

  function Get(db: Store, key: string): Reply<RawHead> {
    if key !in db then Got(NoHead) else
    match db[key]
    case Str(h) => Got(h)
    case Stream(_) => WrongType
  }

  function Entries(db: Store, key: string): Reply<seq<Entry>> {
    if key !in db then Got([]) else
    match db[key]
    case Str(_) => WrongType
    case Stream(es) => Got(es)
  }

  /** Range ends: "-", "+", "<id>" (inclusive) and "(<id>" (exclusive). */
  datatype Bound = Lowest | Highest | At(id: StreamId) | Beyond(id: StreamId)

  predicate FromLow(lo: Bound, id: StreamId) {
    match lo
    case Lowest => true
    case Highest => false
    case At(b) => Le(b, id)
    case Beyond(b) => Lt(b, id)
  }

  predicate UpToHigh(hi: Bound, id: StreamId) {
    match hi
    case Lowest => false
    case Highest => true
    case At(b) => Le(id, b)
    case Beyond(b) => Lt(id, b)
  }

  /** Number of leading entries below `lo`. */
  function SeekLow(s: seq<Entry>, lo: Bound): (i: nat)
    ensures i <= |s|
    ensures forall k :: 0 <= k < i ==> !FromLow(lo, s[k].id)
    ensures i < |s| ==> FromLow(lo, s[i].id)
  {
    if s == [] || FromLow(lo, s[0].id) then 0
    else
      var rest := SeekLow(s[1..], lo);
      assert forall k :: 1 <= k < |s| ==> s[k] == s[1..][k - 1];
      rest + 1
  }

  /** Number of leading entries not above `hi`. */
  function SeekHigh(s: seq<Entry>, hi: Bound): (j: nat)
    ensures j <= |s|
    ensures forall k :: 0 <= k < j ==> UpToHigh(hi, s[k].id)
    ensures j < |s| ==> !UpToHigh(hi, s[j].id)
  {
    if s == [] || !UpToHigh(hi, s[0].id) then 0
    else
      var rest := SeekHigh(s[1..], hi);
      assert forall k :: 1 <= k < |s| ==> s[k] == s[1..][k - 1];
      rest + 1
  }

  /** XRANGE: start at the first entry from `lo`, stop at the first one above `hi`. */
  function XRange(s: seq<Entry>, lo: Bound, hi: Bound): seq<Entry> {
    var i, j := SeekLow(s, lo), SeekHigh(s, hi);
    if i <= j then s[i..j] else []
  }

  function Take<T>(s: seq<T>, n: nat): seq<T> {
    if n <= |s| then s[..n] else s
  }

  function XRangeN(s: seq<Entry>, lo: Bound, hi: Bound, n: nat): seq<Entry> {
    Take(XRange(s, lo, hi), n)
  }

  /** XREVRANGE s hi - COUNT 1: the last entry at or below `hi`. */
  function LastUpTo(s: seq<Entry>, hi: Bound): Option<Entry> {
    if s == [] then None
    else if UpToHigh(hi, s[|s| - 1].id) then Some(s[|s| - 1])
    else LastUpTo(s[..|s| - 1], hi)
  }

  /** On an ordered stream a range query is the filter by ID. */
  lemma RangeIsFilter(s: seq<Entry>, lo: Bound, hi: Bound)
    requires Ordered(s)
    ensures forall k :: 0 <= k < |s| ==> (FromLow(lo, s[k].id) <==> SeekLow(s, lo) <= k)
    ensures forall k :: 0 <= k < |s| ==> (UpToHigh(hi, s[k].id) <==> k < SeekHigh(s, hi))
  {
    var i, j := SeekLow(s, lo), SeekHigh(s, hi);
    forall k | i <= k < |s| ensures FromLow(lo, s[k].id) {
      assert i == k || Lt(s[i].id, s[k].id);
    }
    forall k | j <= k < |s| ensures !UpToHigh(hi, s[k].id) {
      assert j == k || Lt(s[j].id, s[k].id);
    }
  }

  /** XREVRANGE finds the entry just before position SeekHigh. */
  lemma {:induction false} LastUpToIsSeekHigh(s: seq<Entry>, hi: Bound)
    requires Ordered(s)
    ensures LastUpTo(s, hi) == if SeekHigh(s, hi) == 0 then None else Some(s[SeekHigh(s, hi) - 1])
  {
    RangeIsFilter(s, Lowest, hi);
    if s != [] && !UpToHigh(hi, s[|s| - 1].id) {
      var t := s[..|s| - 1];
      LastUpToIsSeekHigh(t, hi);
      RangeIsFilter(t, Lowest, hi);
      assert forall k :: 0 <= k < |t| ==> t[k] == s[k];
      assert SeekHigh(s, hi) == SeekHigh(t, hi);
    }
  }
}
