/**
 What a pack install changes at the gateway (cmd/cordumctl/pack.go): schemas, workflows, config
 documents and topics, reached through REST calls any of which may fail.
 */
module PackStore {
  import opened Wrappers
  import opened JsonValue

  const POLICY_SCOPE := "system"
  const POLICY_ID := "policy"
  const POLICY_KEY := "bundles"

  /** A config document's data. */
  type Data = map<string, Json>

  datatype Store = Store(
    schemas: map<string, Json>,
    workflows: map<string, Json>,
    docs: map<(string, string), Data>,
    topics: map<string, Json>)

  // ---------------------------------------------------------------- cells

  /** The places an install writes to, one value each. */
  datatype Cell =
    | SchemaCell(id: string)
    | WorkflowCell(id: string)
    | ConfigCell(scope: string, scopeID: string, key: string)
    | FragmentCell(fragmentID: string)
    | TopicCell(name: string)

  /** The key that holds all policy fragments is not a cell of its own. */
  predicate RealCell(c: Cell) {
    c != ConfigCell(POLICY_SCOPE, POLICY_ID, POLICY_KEY)
  }

  /** Null and absent are the same. */
  function NonNull(m: map<string, Json>, k: string): Option<Json> {
    if k in m && m[k] != Null then Some(m[k]) else None
  }

  function DataOf(st: Store, scope: string, id: string): Data {
    if (scope, id) in st.docs then st.docs[(scope, id)] else map[]
  }

  /** The policy fragments, keyed by fragment ID. */
  function Fragments(st: Store): map<string, Json> {
    var data := DataOf(st, POLICY_SCOPE, POLICY_ID);
    if POLICY_KEY in data then Fields(data[POLICY_KEY]) else map[]
  }

  function View(st: Store, c: Cell): Option<Json> {
    match c
    case SchemaCell(id) => NonNull(st.schemas, id)
    case WorkflowCell(id) => NonNull(st.workflows, id)
    case ConfigCell(scope, id, key) => NonNull(DataOf(st, scope, id), key)
    case FragmentCell(f) => if f in Fragments(st) then Some(Fragments(st)[f]) else None
    case TopicCell(n) => if n in st.topics then Some(st.topics[n]) else None
  }

  /** Exactly cell `c` now holds `v`. */
  ghost predicate Wrote(st: Store, st': Store, c: Cell, v: Option<Json>) {
    && View(st', c) == v
    && forall d :: RealCell(d) && d != c ==> View(st', d) == View(st, d)
  }

  lemma WroteSchema(st: Store, id: string, v: Json)
    requires v != Null
    ensures Wrote(st, st.(schemas := st.schemas[id := v]), SchemaCell(id), Some(v))
    ensures Wrote(st, st.(schemas := st.schemas - {id}), SchemaCell(id), None)
  {}

  lemma WroteWorkflow(st: Store, id: string, v: Json)
    requires v != Null
    ensures Wrote(st, st.(workflows := st.workflows[id := v]), WorkflowCell(id), Some(v))
    ensures Wrote(st, st.(workflows := st.workflows - {id}), WorkflowCell(id), None)
  {}

  lemma WroteTopic(st: Store, n: string, v: Json)
    ensures Wrote(st, st.(topics := st.topics[n := v]), TopicCell(n), Some(v))
    ensures Wrote(st, st.(topics := st.topics - {n}), TopicCell(n), None)
  {}

  function PutDoc(st: Store, scope: string, id: string, data: Data): Store {
    st.(docs := st.docs[(scope, id) := data])
  }

  lemma WroteConfig(st: Store, scope: string, id: string, key: string, v: Json)
    requires RealCell(ConfigCell(scope, id, key))
    ensures Wrote(st, PutDoc(st, scope, id, DataOf(st, scope, id)[key := v]), ConfigCell(scope, id, key),
                  if v == Null then None else Some(v))
  {}

  lemma WroteConfigDelete(st: Store, scope: string, id: string, key: string)
    requires RealCell(ConfigCell(scope, id, key))
    ensures Wrote(st, PutDoc(st, scope, id, DataOf(st, scope, id) - {key}), ConfigCell(scope, id, key), None)
  {}

  lemma WroteFragment(st: Store, f: string, v: Json)
    ensures var data := DataOf(st, POLICY_SCOPE, POLICY_ID);
            && Wrote(st, PutDoc(st, POLICY_SCOPE, POLICY_ID, data[POLICY_KEY := Obj(Fragments(st)[f := v])]),
                FragmentCell(f), Some(v))
            && Wrote(st, PutDoc(st, POLICY_SCOPE, POLICY_ID, data[POLICY_KEY := Obj(Fragments(st) - {f})]),
                FragmentCell(f), None)
  {}

  // ---------------------------------------------------------------- the gateway

  datatype Reply<+T> = Found(value: T) | NotFound | CallFailed

  /** The REST API. Call number `clock` fails, without effect, when the oracle says so. */
  class Gateway {
    var st: Store
    var clock: nat
    const fails: nat -> bool

    constructor (s: Store, f: nat -> bool)
      ensures st == s && clock == 0 && fails == f
    {
      st, clock, fails := s, 0, f;
    }

    /** No call fails. */
    ghost predicate Reliable() {
      forall n :: !fails(n)
    }

    /** One step that may fail: a local check or the transport of a call. */
    method Tick() returns (ok: bool)
      modifies this`clock
      ensures clock == old(clock) + 1 && ok == !fails(old(clock))
    {
      ok := !fails(clock);
      clock := clock + 1;
    }

    method GetConfig(scope: string, id: string) returns (r: Reply<Data>)
      modifies this`clock
      ensures Reliable() ==> !r.CallFailed?
      ensures r.Found? ==> (scope, id) in st.docs && r.value == DataOf(st, scope, id)
      ensures r.NotFound? ==> (scope, id) !in st.docs
    {
      var ok := Tick();
      if !ok { return CallFailed; }
      if (scope, id) in st.docs { return Found(st.docs[(scope, id)]); }
      r := NotFound;
    }

    method SetConfig(scope: string, id: string, data: Data) returns (ok: bool)
      modifies this
      ensures Reliable() ==> ok
      ensures st == if ok then PutDoc(old(st), scope, id, data) else old(st)
    {
      ok := Tick();
      if ok { st := PutDoc(st, scope, id, data); }
    }

    method GetSchema(id: string) returns (r: Reply<Json>)
      modifies this`clock
      ensures Reliable() ==> !r.CallFailed?
      ensures r.Found? ==> id in st.schemas && r.value == st.schemas[id]
      ensures r.NotFound? ==> id !in st.schemas
    {
      var ok := Tick();
      if !ok { return CallFailed; }
      if id in st.schemas { return Found(st.schemas[id]); }
      r := NotFound;
    }

    method RegisterSchema(id: string, v: Json) returns (ok: bool)
      modifies this
      ensures Reliable() ==> ok
      ensures st == if ok then old(st).(schemas := old(st).schemas[id := v]) else old(st)
    {
      ok := Tick();
      if ok { st := st.(schemas := st.schemas[id := v]); }
    }

    /** Deleting a schema that is not there is an error. */
    method DeleteSchema(id: string) returns (ok: bool)
      modifies this
      ensures Reliable() && id in old(st).schemas ==> ok
      ensures st == if ok then old(st).(schemas := old(st).schemas - {id}) else old(st)
    {
      ok := Tick();
      ok := ok && id in st.schemas;
      if ok { st := st.(schemas := st.schemas - {id}); }
    }

    method GetWorkflow(id: string) returns (r: Reply<Json>)
      modifies this`clock
      ensures Reliable() ==> !r.CallFailed?
      ensures r.Found? ==> id in st.workflows && r.value == st.workflows[id]
      ensures r.NotFound? ==> id !in st.workflows
    {
      var ok := Tick();
      if !ok { return CallFailed; }
      if id in st.workflows { return Found(st.workflows[id]); }
      r := NotFound;
    }

    /** A workflow is stored under its own "id" member. */
    method CreateWorkflow(w: Json) returns (ok: bool)
      modifies this
      ensures Reliable() && Field(w, "id").Str? ==> ok
      ensures ok ==> Field(w, "id").Str? && st == old(st).(workflows := old(st).workflows[Field(w, "id").s := w])
      ensures !ok ==> st == old(st)
    {
      ok := Tick();
      ok := ok && Field(w, "id").Str?;
      if ok { st := st.(workflows := st.workflows[Field(w, "id").s := w]); }
    }

    method DeleteWorkflow(id: string) returns (ok: bool)
      modifies this
      ensures Reliable() && id in old(st).workflows ==> ok
      ensures st == if ok then old(st).(workflows := old(st).workflows - {id}) else old(st)
    {
      ok := Tick();
      ok := ok && id in st.workflows;
      if ok { st := st.(workflows := st.workflows - {id}); }
    }

    method RegisterTopic(name: string, reg: Json) returns (ok: bool)
      modifies this
      ensures Reliable() ==> ok
      ensures st == if ok then old(st).(topics := old(st).topics[name := reg]) else old(st)
    {
      ok := Tick();
      if ok { st := st.(topics := st.topics[name := reg]); }
    }

    method RemoveTopic(name: string) returns (r: Reply<()>)
      modifies this
      ensures Reliable() ==> !r.CallFailed?
      ensures r.Found? ==> st == old(st).(topics := old(st).topics - {name})
      ensures r.NotFound? ==> st == old(st) && name !in st.topics
      ensures r.CallFailed? ==> st == old(st)
    {
      var ok := Tick();
      if !ok { return CallFailed; }
      if name !in st.topics { return NotFound; }
      st := st.(topics := st.topics - {name});
      r := Found(());
    }
  }
}
