/**
 The canonical encoder as the source runs it, on a shared string builder, and the digests that
 decide whether an install step is a no-op (cmd/cordumctl/pack.go).
 */
module CanonicalWriter {
  import opened Wrappers
  import opened JsonValue
  import opened Canonical

  class Builder {
    var text: string

    constructor ()
      ensures text == ""
    {
      text := "";
    }

    method Write(s: string)
      modifies this
      ensures text == old(text) + s
    {
      text := text + s;
    }
  }

  /** appendCanonical */
  method AppendCanonical(buf: Builder, j: Json)
    modifies buf
    ensures buf.text == old(buf.text) + Encode(j)
    decreases j, 1
  {
    match j
    case Null => buf.Write("null");
    case Obj(_) => AppendCanonicalMap(buf, j);
    case Arr(_) => AppendCanonicalSlice(buf, j);
    case Bool(b) => buf.Write(if b then "true" else "false");
    case Num(l) => buf.Write(l);
    case Str(s) => buf.Write(Quote(s));
  }

  /** One member with its separator. */
  ghost function MemberText(j: Json, ks: seq<string>, i: nat): string
    requires j.Obj? && i < |ks| && ks[i] in j.fields
  {
    (if i > 0 then "," else "") + Quote(ks[i]) + ":" + Encode(j.fields[ks[i]])
  }

  /** What is still to be written when the first i members are done. */
  ghost function MembersFrom(j: Json, ks: seq<string>, i: nat): string
    requires j.Obj? && i <= |ks| && forall k :: 0 <= k < |ks| ==> ks[k] in j.fields
  {
    if i == |ks| then "" else (if i > 0 then "," else "") + EncodeMembers(j, ks[i..])
  }

  lemma MembersStep(j: Json, ks: seq<string>, i: nat)
    requires j.Obj? && i < |ks| && forall k :: 0 <= k < |ks| ==> ks[k] in j.fields
    ensures MembersFrom(j, ks, i) == MemberText(j, ks, i) + MembersFrom(j, ks, i + 1)
  {
    hide Encode, Quote;
    var rest := ks[i..];
    assert rest[0] == ks[i] && rest[1..] == ks[i + 1..];
  }

  lemma MembersAll(j: Json, ks: seq<string>)
    requires j.Obj? && forall k :: 0 <= k < |ks| ==> ks[k] in j.fields
    ensures MembersFrom(j, ks, 0) == EncodeMembers(j, ks)
  {
    hide Encode, Quote;
    assert ks[0..] == ks;
  }

  method WriteMember(buf: Builder, j: Json, keys: seq<string>, i: nat)
    requires j.Obj? && i < |keys| && keys[i] in j.fields
    modifies buf
    ensures buf.text == old(buf.text) + MemberText(j, keys, i)
    decreases j, 0, 0
  {
    hide Encode, Quote;
    if i > 0 { buf.Write(","); }
    buf.Write(Quote(keys[i]));
    buf.Write(":");
    AppendCanonical(buf, j.fields[keys[i]]);
  }

  /** The member loop of appendCanonicalMap. */
  method WriteMembers(buf: Builder, j: Json, keys: seq<string>)
    requires j.Obj? && forall k :: 0 <= k < |keys| ==> keys[k] in j.fields
    modifies buf
    ensures buf.text == old(buf.text) + MembersFrom(j, keys, 0)
    decreases j, 0, 1
  {
    hide MembersFrom, MemberText;
    ghost var want := buf.text + MembersFrom(j, keys, 0);
    for i := 0 to |keys|
      invariant buf.text + MembersFrom(j, keys, i) == want
    {
      MembersStep(j, keys, i);
      Assoc(buf.text, MemberText(j, keys, i), MembersFrom(j, keys, i + 1));
      WriteMember(buf, j, keys, i);
    }
    NothingLeft(j, keys);
    assert buf.text + "" == buf.text;
  }

  /** appendCanonicalMap */
  method AppendCanonicalMap(buf: Builder, j: Json)
    requires j.Obj?
    modifies buf
    ensures buf.text == old(buf.text) + Encode(j)
    decreases j, 0, 2
  {
    var keys := SortKeys(j.fields.Keys);
    MembersAll(j, keys);
    ghost var inner := MembersFrom(j, keys, 0);
    assert Encode(j) == "{" + inner + "}";
    hide Encode, SortedKeys, Sorted, MembersFrom;
    ghost var start := buf.text;
    buf.Write("{");
    WriteMembers(buf, j, keys);
    buf.Write("}");
    Bracketed(start, "{", inner, "}");
  }

  lemma Bracketed(start: string, a: string, inner: string, b: string)
    ensures start + a + inner + b == start + (a + inner + b)
  {}

  lemma NothingLeft(j: Json, ks: seq<string>)
    requires j.Obj? && forall k :: 0 <= k < |ks| ==> ks[k] in j.fields
    ensures MembersFrom(j, ks, |ks|) == ""
  {}

  ghost function ItemText(j: Json, i: nat): string
    requires j.Arr? && i < |j.items|
  {
    (if i > 0 then "," else "") + Encode(j.items[i])
  }

  /** What is still to be written when the first i items are done. */
  ghost function ItemsFrom(j: Json, i: nat): string
    requires j.Arr? && i <= |j.items|
  {
    if i == |j.items| then "" else (if i > 0 then "," else "") + EncodeItems(j, j.items[i..])
  }

  lemma ItemsStep(j: Json, i: nat)
    requires j.Arr? && i < |j.items|
    ensures ItemsFrom(j, i) == ItemText(j, i) + ItemsFrom(j, i + 1)
  {
    hide Encode;
    var rest := j.items[i..];
    assert rest[0] == j.items[i] && rest[1..] == j.items[i + 1..];
  }

  lemma ItemsAll(j: Json)
    requires j.Arr?
    ensures ItemsFrom(j, 0) == EncodeItems(j, j.items) && ItemsFrom(j, |j.items|) == ""
  {
    hide Encode;
    assert j.items[0..] == j.items;
  }

  /** The item loop of appendCanonicalSlice. */
  method WriteItems(buf: Builder, j: Json)
    requires j.Arr?
    modifies buf
    ensures buf.text == old(buf.text) + ItemsFrom(j, 0)
    decreases j, 0, 1
  {
    ItemsAll(j);
    hide Encode, ItemsFrom;
    ghost var want := buf.text + ItemsFrom(j, 0);
    for i := 0 to |j.items|
      invariant buf.text + ItemsFrom(j, i) == want
    {
      ItemsStep(j, i);
      Assoc(buf.text, ItemText(j, i), ItemsFrom(j, i + 1));
      WriteItem(buf, j, i);
      hide ItemText;
    }
    assert buf.text + "" == buf.text;
  }

  method WriteItem(buf: Builder, j: Json, i: nat)
    requires j.Arr? && i < |j.items|
    modifies buf
    ensures buf.text == old(buf.text) + ItemText(j, i)
    decreases j, 0, 0
  {
    hide Encode;
    if i > 0 { buf.Write(","); }
    AppendCanonical(buf, j.items[i]);
  }

  /** appendCanonicalSlice */
  method AppendCanonicalSlice(buf: Builder, j: Json)
    requires j.Arr?
    modifies buf
    ensures buf.text == old(buf.text) + Encode(j)
    decreases j, 0, 2
  {
    ItemsAll(j);
    ghost var inner := ItemsFrom(j, 0);
    assert Encode(j) == "[" + inner + "]";
    hide Encode, ItemsFrom, EncodeItems;
    ghost var start := buf.text;
    buf.Write("[");
    WriteItems(buf, j);
    buf.Write("]");
    Bracketed(start, "[", inner, "]");
  }

  /** canonicalJSON: the same bytes whatever order the maps were iterated in. */
  method CanonicalJSON(j: Json) returns (r: string)
    ensures r == Encode(j)
  {
    var buf := new Builder();
    AppendCanonical(buf, j);
    r := buf.text;
  }

  // ---------------------------------------------------------------- digests

  /** SHA-256 of a byte string, symbolically. */
  datatype Digest = Sha256(bytes: string)

  method HashValue(j: Json) returns (d: Digest)
    ensures d == Sha256(Encode(j))
  {
    var bytes := CanonicalJSON(j);
    d := Sha256(bytes);
  }

  /** normalizeWorkflowMap: timestamps do not count as content. */
  function WorkflowContent(fields: map<string, Json>): map<string, Json> {
    fields - {"created_at", "updated_at"}
  }

  /** The no-op test of planSchemas: equal digests exactly when the schemas are equal. */
  lemma SchemaNoop(existing: Json, wanted: Json)
    requires WellFormed(existing) && WellFormed(wanted)
    ensures Sha256(Encode(existing)) == Sha256(Encode(wanted)) <==> existing == wanted
  {
    EncodeInjective(existing, wanted);
  }

  /** Equal on every key but the timestamps. */
  ghost predicate SameContent(a: map<string, Json>, b: map<string, Json>) {
    forall k :: k != "created_at" && k != "updated_at" ==>
      (k in a <==> k in b) && (k in a && k in b ==> a[k] == b[k])
  }

  lemma ContentEqual(a: map<string, Json>, b: map<string, Json>)
    ensures WorkflowContent(a) == WorkflowContent(b) <==> SameContent(a, b)
  {
    var x, y := WorkflowContent(a), WorkflowContent(b);
    if x == y {
      forall k | k != "created_at" && k != "updated_at"
        ensures (k in a <==> k in b) && (k in a && k in b ==> a[k] == b[k])
      {
        assert (k in a <==> k in x) && (k in b <==> k in y);
      }
    }
  }

  /** The no-op test of planWorkflows: equal digests exactly when the workflows agree on every key
      but created_at and updated_at. */
  lemma WorkflowNoop(existing: map<string, Json>, wanted: map<string, Json>)
    requires WellFormed(Obj(existing)) && WellFormed(Obj(wanted))
    ensures Sha256(Encode(Obj(WorkflowContent(existing)))) == Sha256(Encode(Obj(WorkflowContent(wanted)))) <==>
              SameContent(existing, wanted)
  {
    hide Encode, SameContent;
    EncodeInjective(Obj(WorkflowContent(existing)), Obj(WorkflowContent(wanted)));
    ContentEqual(existing, wanted);
  }
}
