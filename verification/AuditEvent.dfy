/**
 Audit events and their digests (core/audit/exporter.go, core/audit/chain.go).

 SHA-256 and HMAC-SHA256 are symbolic: a digest is the constructor `Sha256` applied
 to the event that was hashed, so two digests are equal exactly when the hashed
 events are. A string that is no digest of anything is `RawHash` / `RawTag`.
 */
module AuditEvent {
  import opened Wrappers

  const MAX_INT64: int := 0x7FFF_FFFF_FFFF_FFFF
  const MIN_INT64: int := -0x8000_0000_0000_0000

  type int64 = x: int | -0x8000_0000_0000_0000 <= x <= 0x7FFF_FFFF_FFFF_FFFF

  /** Go's `x + 1` on an int64: wraps at the top. */
  function Inc(x: int64): int64 {
    if x == MAX_INT64 then MIN_INT64 else x + 1
  }

  type NonEmpty = s: string | |s| > 0 witness "x"

  /** An HMAC key; the empty key means "HMAC disabled". */
  type Key = seq<bv8>

  datatype Time = Time(year: int, nanosInYear: int)

  /** The event fields the chain does not assign. */
  datatype Body = Body(
    timestamp: Time, eventType: string, severity: string, tenantID: string,
    agentID: string, agentName: string, agentRiskTier: string, jobID: string,
    action: string, decision: string, matchedRule: string, reason: string,
    riskTags: seq<string>, capabilities: seq<string>,
    policyVersion: string, identity: string, extra: map<string, string>)

  datatype Event = Event(body: Body, seq_: int64, eventHash: Hash, prevHash: Hash, hmac: Tag)

  /** A digest field: the empty string, a digest in hex, or any other text. */
  datatype Hash = NoHash | Sha256(of: Event) | RawHash(text: NonEmpty)

  datatype Tag = NoTag | Hmac(key: Key, of: Event) | RawTag(text: NonEmpty)

  /** The clone that is hashed: Seq, EventHash and HMAC cleared, PrevHash kept. */
  function Cleared(e: Event): Event {
    e.(seq_ := 0, eventHash := NoHash, hmac := NoTag)
  }

  /** encoding/json refuses timestamps whose year has not four digits. */
  predicate Marshals(e: Event) {
    0 <= e.body.timestamp.year <= 9999
  }

  function ComputeEventHash(e: Event): Option<Hash> {
    if Marshals(e) then Some(Sha256(Cleared(e))) else None
  }

  function ComputeEventHMAC(e: Event, key: Key): Option<Tag> {
    if Marshals(e) then Some(Hmac(key, Cleared(e))) else None
  }

  /** VerifyEventHash; an encoding error counts as "does not verify", as in its callers. */
  predicate VerifyEventHash(e: Event) {
    ComputeEventHash(e) == Some(e.eventHash)
  }

  predicate VerifyEventHMAC(e: Event, key: Key) {
    e.hmac == NoTag || key == [] || ComputeEventHMAC(e, key) == Some(e.hmac)
  }

  /** Two digests that recompute are equal exactly when every event field and PrevHash are. */
  lemma HashPins(a: Event, b: Event)
    requires VerifyEventHash(a) && VerifyEventHash(b)
    ensures a.eventHash == b.eventHash <==> a.body == b.body && a.prevHash == b.prevHash
  {}

  /** Two tags that recompute are equal exactly when the keys, every event field and PrevHash are. */
  lemma TagPins(a: Event, ka: Key, b: Event, kb: Key)
    requires a.hmac != NoTag && ka != [] && VerifyEventHMAC(a, ka)
    requires b.hmac != NoTag && kb != [] && VerifyEventHMAC(b, kb)
    ensures a.hmac == b.hmac <==> ka == kb && a.body == b.body && a.prevHash == b.prevHash
  {}

  /** Length in bytes of a hash field's text. */
  function HashLen(h: Hash): nat {
    match h
    case NoHash => 0
    case Sha256(_) => 64
    case RawHash(t) => |t|
  }
}
