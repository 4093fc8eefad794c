/**
 Canonical JSON (cmd/cordumctl/pack.go, cmd/cordum-scheduler/config_overlay.go): object members in
 key order, no whitespace, strings and numbers as encoding/json writes them.
 */
module Canonical {
  import opened Wrappers
  import opened JsonValue

  // ---------------------------------------------------------------- key order

  /** Lexicographic order of code points, which is the byte order sort.Strings uses. */
  predicate Less(a: string, b: string) {
    b != [] && (a == [] || a[0] < b[0] || (a[0] == b[0] && Less(a[1..], b[1..])))
  }

  lemma {:induction false} LessTotal(a: string, b: string)
    ensures a == b || Less(a, b) || Less(b, a)
    ensures !(Less(a, b) && Less(b, a)) && !Less(a, a)
  {
    if a != [] && b != [] {
      LessTotal(a[1..], b[1..]);
      if a[0] == b[0] && a[1..] == b[1..] { assert a == [a[0]] + a[1..] == b; }
    }
    if a != [] { LessTotal(a[1..], a[1..]); }
  }

  lemma {:induction false} LessTrans(a: string, b: string, c: string)
    requires Less(a, b) && Less(b, c)
    ensures Less(a, c)
  {
    if a != [] && a[0] == b[0] && b[0] == c[0] { LessTrans(a[1..], b[1..], c[1..]); }
  }

  /** A proper prefix is below, and otherwise the smaller of the first differing characters decides. */
  lemma {:induction false} LessByFirstDifference(a: string, b: string)
    ensures Less(a, b) <==> a < b || exists i :: 0 <= i < |a| && i < |b| && a[..i] == b[..i] && a[i] < b[i]
  {
    if a != [] && b != [] {
      var s, t := a[1..], b[1..];
      LessByFirstDifference(s, t);
      if a[0] < b[0] { assert a[..0] == b[..0]; }
      if a[0] == b[0] {
        assert a < b <==> s < t by { assert a == [a[0]] + s && b == [b[0]] + t; }
        if i :| 0 <= i < |s| && i < |t| && s[..i] == t[..i] && s[i] < t[i] {
          assert a[..i + 1] == [a[0]] + s[..i] && b[..i + 1] == [b[0]] + t[..i] && a[i + 1] < b[i + 1];
        }
      }
      if i :| 0 <= i < |a| && i < |b| && a[..i] == b[..i] && a[i] < b[i] {
        if i > 0 {
          assert a[..i][0] == b[..i][0] && s[..i - 1] == a[..i][1..] && t[..i - 1] == b[..i][1..];
          assert s[i - 1] < t[i - 1];
        }
      }
    }
  }

  ghost predicate Sorted(ks: seq<string>) {
    forall i, j :: 0 <= i < j < |ks| ==> Less(ks[i], ks[j])
  }

  ghost predicate Lists(ks: seq<string>, s: set<string>) {
    Sorted(ks) && (forall i :: 0 <= i < |ks| ==> ks[i] in s) && (forall k :: k in s ==> k in ks)
  }

  /** A set has one sorted listing. */
  lemma {:induction false} ListingUnique(a: seq<string>, b: seq<string>, s: set<string>)
    requires Lists(a, s) && Lists(b, s)
    ensures a == b
    decreases |a|
  {
    assert forall i :: 0 <= i < |a| ==> a[i] in b;
    assert forall i :: 0 <= i < |b| ==> b[i] in a;
    if a != [] && b != [] {
      assert a[0] in b && b[0] in a;
      LessTotal(a[0], b[0]);
      assert a[0] == b[0];
      TailLists(a, s);
      TailLists(b, s);
      ListingUnique(a[1..], b[1..], s - {a[0]});
      assert a == [a[0]] + a[1..] && b == [b[0]] + b[1..];
    }
  }

  lemma TailLists(a: seq<string>, s: set<string>)
    requires Lists(a, s) && a != []
    ensures Lists(a[1..], s - {a[0]})
  {
    var t := a[1..];
    forall i | 0 <= i < |t| ensures t[i] in s - {a[0]} {
      assert t[i] == a[i + 1];
      LessTotal(a[0], a[i + 1]);
    }
    forall k | k in s - {a[0]} ensures k in t {
      var i :| 0 <= i < |a| && a[i] == k;
      assert a[i] == t[i - 1];
    }
  }

  /** Number of leading keys below k. */
  function Position(ks: seq<string>, k: string): (i: nat)
    ensures i <= |ks|
    ensures forall j :: 0 <= j < i ==> Less(ks[j], k)
    ensures i < |ks| ==> !Less(ks[i], k)
  {
    if ks == [] || !Less(ks[0], k) then 0
    else
      var rest := Position(ks[1..], k);
      assert forall j :: 1 <= j < |ks| ==> ks[j] == ks[1..][j - 1];
      rest + 1
  }

  function Insert(ks: seq<string>, k: string): seq<string> {
    ks[..Position(ks, k)] + [k] + ks[Position(ks, k)..]
  }

  lemma InsertLists(ks: seq<string>, k: string, s: set<string>)
    requires Lists(ks, s) && k !in s
    ensures Lists(Insert(ks, k), s + {k})
  {
    hide Less, Position, Sorted;
    var i := Position(ks, k);
    var r := Insert(ks, k);
    assert Sorted(r) by { InsertSorted(ks, k); }
    forall x | x in s + {k} ensures x in r {
      if x == k { assert r[i] == k; } else {
        var j :| 0 <= j < |ks| && ks[j] == x;
        assert r[if j < i then j else j + 1] == x;
      }
    }
  }

  lemma InsertSorted(ks: seq<string>, k: string)
    requires Sorted(ks) && k !in ks
    ensures Sorted(Insert(ks, k))
  {
    hide Less, Position;
    var i := Position(ks, k);
    var r := Insert(ks, k);
    forall j | i <= j < |ks| ensures Less(k, ks[j]) {
      LessTotal(ks[i], k);
      if j > i { LessTrans(k, ks[i], ks[j]); }
    }
    forall a, b | 0 <= a < b < |r| ensures Less(r[a], r[b]) {
      InsertAt(ks, k, a);
      InsertAt(ks, k, b);
      if a < i < b { LessTrans(ks[a], k, ks[b - 1]); }
    }
  }

  lemma InsertAt(ks: seq<string>, k: string, a: nat)
    requires a <= |ks|
    ensures var i := Position(ks, k);
            |Insert(ks, k)| == |ks| + 1
            && Insert(ks, k)[a] == if a < i then ks[a] else if a == i then k else ks[a - 1]
  {
    hide Position, Less;
  }

  /** The sorted listing of a set of keys. */
  ghost function SortedKeys(s: set<string>): (ks: seq<string>)
    ensures Lists(ks, s)
  {
    if s == {} then []
    else
      var k :| k in s;
      InsertLists(SortedKeys(s - {k}), k, s - {k});
      assert s - {k} + {k} == s;
      Insert(SortedKeys(s - {k}), k)
  }

  /** The keys of a Go map in sorted order, whatever order the map yields them in. */
  method SortKeys(s: set<string>) returns (ks: seq<string>)
    ensures ks == SortedKeys(s)
  {
    ks := [];
    var todo := s;
    assert Lists(ks, s - todo);
    while todo != {}
      invariant todo <= s && Lists(ks, s - todo)
      decreases todo
    {
      var k :| k in todo;
      InsertLists(ks, k, s - todo);
      assert s - (todo - {k}) == s - todo + {k};
      ks := Insert(ks, k);
      todo := todo - {k};
    }
    assert s - todo == s;
    ListingUnique(ks, SortedKeys(s), s);
  }

  // ---------------------------------------------------------------- scalars

  /** Characters of a JSON number literal; none of them can follow a value. */
  predicate NumChar(c: char) {
    '0' <= c <= '9' || c == '-' || c == '+' || c == '.' || c == 'e' || c == 'E'
  }

  predicate NumLiteral(s: string) {
    s != "" && forall i :: 0 <= i < |s| ==> NumChar(s[i])
  }

  /** Scalars whose own encoding is delimited. */
  ghost predicate WellFormed(j: Json) {
    match j
    case Num(l) => NumLiteral(l)
    case Arr(items) => forall i :: 0 <= i < |items| ==> WellFormed(items[i])
    case Obj(fields) => forall k :: k in fields ==> WellFormed(fields[k])
    case _ => true
  }

  function HexDigit(n: nat): char
    requires n < 16
  {
    "0123456789abcdef"[n]
  }

  /** "\u" and four hex digits. */
  function UnicodeEscape(n: nat): string
    requires n < 0x10000
  {
    ['\\', 'u', HexDigit(n / 4096), HexDigit(n / 256 % 16), HexDigit(n / 16 % 16), HexDigit(n % 16)]
  }

  /** Characters encoding/json writes as \uXXXX. */
  predicate NeedsUnicode(c: char) {
    c < ' ' || c == '<' || c == '>' || c == '&' || c == '\U{2028}' || c == '\U{2029}'
  }

  /** How encoding/json writes one character of a string. */
  function Escape(c: char): string {
    if c == '\"' then "\\\""
    else if c == '\\' then "\\\\"
    else if c == '\n' then "\\n"
    else if c == '\r' then "\\r"
    else if c == '\t' then "\\t"
    else if c == '\U{0008}' then "\\b"
    else if c == '\U{000C}' then "\\f"
    else if NeedsUnicode(c) then UnicodeEscape(c as int)
    else [c]
  }

  function EscapeAll(s: string): string {
    if s == "" then "" else Escape(s[0]) + EscapeAll(s[1..])
  }

  function Quote(s: string): string {
    "\"" + EscapeAll(s) + "\""
  }

  // ---------------------------------------------------------------- encoding

  ghost function Encode(j: Json): string
    decreases j, 1
  {
    match j
    case Null => "null"
    case Bool(b) => if b then "true" else "false"
    case Num(l) => l
    case Str(s) => Quote(s)
    case Arr(items) => "[" + EncodeItems(j, items) + "]"
    case Obj(fields) => "{" + EncodeMembers(j, SortedKeys(fields.Keys)) + "}"
  }

  ghost function EncodeItems(j: Json, items: seq<Json>): string
    requires j.Arr? && forall i :: 0 <= i < |items| ==> items[i] in j.items
    decreases j, 0, |items|
  {
    if items == [] then ""
    else if |items| == 1 then Encode(items[0])
    else Encode(items[0]) + "," + EncodeItems(j, items[1..])
  }

  ghost function EncodeMembers(j: Json, ks: seq<string>): string
    requires j.Obj? && forall i :: 0 <= i < |ks| ==> ks[i] in j.fields
    decreases j, 0, |ks|
  {
    if ks == [] then ""
    else
      var member := Quote(ks[0]) + ":" + Encode(j.fields[ks[0]]);
      if |ks| == 1 then member else member + "," + EncodeMembers(j, ks[1..])
  }

  // ---------------------------------------------------------------- decoding

  function HexValue(c: char): Option<nat> {
    if '0' <= c <= '9' then Some(c as int - '0' as int)
    else if 'a' <= c <= 'f' then Some(c as int - 'a' as int + 10)
    else None
  }

  /** One character of a string body. */
  function DecodeChar(s: string): (r: Option<(char, string)>)
    ensures r.Some? ==> |r.value.1| < |s|
  {
    if s == "" then None
    else if s[0] != '\\' then Some((s[0], s[1..]))
    else if |s| < 2 then None
    else if s[1] == '\"' then Some(('\"', s[2..]))
    else if s[1] == '\\' then Some(('\\', s[2..]))
    else if s[1] == 'n' then Some(('\n', s[2..]))
    else if s[1] == 'r' then Some(('\r', s[2..]))
    else if s[1] == 't' then Some(('\t', s[2..]))
    else if s[1] == 'b' then Some(('\U{0008}', s[2..]))
    else if s[1] == 'f' then Some(('\U{000C}', s[2..]))
    else if s[1] == 'u' && |s| >= 6 then
      var a, b, c, d := HexValue(s[2]), HexValue(s[3]), HexValue(s[4]), HexValue(s[5]);
      if a.None? || b.None? || c.None? || d.None? then None
      else
        var n := a.value * 4096 + b.value * 256 + c.value * 16 + d.value;
        if n < 0xD800 then Some((n as char, s[6..])) else None
    else None
  }

  /** A string body up to and including its closing quote. */
  function DecodeChars(s: string): (r: Option<(string, string)>)
    ensures r.Some? ==> |r.value.1| < |s|
    decreases |s|
  {
    if s == "" then None
    else if s[0] == '\"' then Some(("", s[1..]))
    else match DecodeChar(s)
    case None => None
    case Some(c) =>
      match DecodeChars(c.1)
      case None => None
      case Some(r) => Some(([c.0] + r.0, r.1))
  }

  function NumLen(s: string): (n: nat)
    ensures n <= |s|
  {
    if s == "" || !NumChar(s[0]) then 0 else 1 + NumLen(s[1..])
  }

  /** A value and what follows it. */
  function Decode(s: string): (r: Option<(Json, string)>)
    ensures r.Some? ==> |r.value.1| < |s|
    decreases |s|, 0
  {
    if s == "" then None
    else if s[0] == 'n' then (if "null" <= s then Some((Null, s[4..])) else None)
    else if s[0] == 't' then (if "true" <= s then Some((Bool(true), s[4..])) else None)
    else if s[0] == 'f' then (if "false" <= s then Some((Bool(false), s[5..])) else None)
    else if s[0] == '\"' then
      match DecodeChars(s[1..])
      case None => None
      case Some(r) => Some((Str(r.0), r.1))
    else if s[0] == '[' then
      if |s| > 1 && s[1] == ']' then Some((Arr([]), s[2..]))
      else match DecodeItems(s[1..])
      case None => None
      case Some(r) => Some((Arr(r.0), r.1))
    else if s[0] == '{' then
      if |s| > 1 && s[1] == '}' then Some((Obj(map[]), s[2..]))
      else match DecodeMembers(s[1..])
      case None => None
      case Some(r) => Some((Obj(r.0), r.1))
    else
      var n := NumLen(s);
      if n == 0 then None else Some((Num(s[..n]), s[n..]))
  }

  /** Items up to and including the closing bracket. */
  function DecodeItems(s: string): (r: Option<(seq<Json>, string)>)
    ensures r.Some? ==> |r.value.1| < |s|
    decreases |s|, 1
  {
    match Decode(s)
    case None => None
    case Some(v) =>
      if v.1 == "" then None
      else if v.1[0] == ']' then Some(([v.0], v.1[1..]))
      else if v.1[0] == ',' then
        match DecodeItems(v.1[1..])
        case None => None
        case Some(r) => Some(([v.0] + r.0, r.1))
      else None
  }

  /** Members up to and including the closing brace; a repeated key keeps its last value. */
  function DecodeMembers(s: string): (r: Option<(map<string, Json>, string)>)
    ensures r.Some? ==> |r.value.1| < |s|
    decreases |s|, 1
  {
    if s == "" || s[0] != '\"' then None
    else match DecodeChars(s[1..])
    case None => None
    case Some(k) =>
      if k.1 == "" || k.1[0] != ':' then None
      else match Decode(k.1[1..])
      case None => None
      case Some(v) =>
        if v.1 == "" then None
        else if v.1[0] == '}' then Some((map[k.0 := v.0], v.1[1..]))
        else if v.1[0] == ',' then
          match DecodeMembers(v.1[1..])
          case None => None
          case Some(r) => Some((map[k.0 := v.0] + r.0, r.1))
        else None
  }

  // ---------------------------------------------------------------- round trip

  lemma HexRoundTrip(n: nat)
    requires n < 16
    ensures HexValue(HexDigit(n)) == Some(n)
  {}

  lemma HexDigits(n: nat)
    requires n < 0x10000
    ensures n / 4096 < 16 && n / 4096 * 4096 + n / 256 % 16 * 256 + n / 16 % 16 * 16 + n % 16 == n
  {}

  lemma DecodeUnicode(n: nat, rest: string)
    requires n < 0xD800
    ensures DecodeChar(UnicodeEscape(n) + rest) == Some((n as char, rest))
    ensures UnicodeEscape(n) != "" && UnicodeEscape(n)[0] == '\\'
  {
    HexDigits(n);
    var a, b, c, d := n / 4096, n / 256 % 16, n / 16 % 16, n % 16;
    HexRoundTrip(a);
    HexRoundTrip(b);
    HexRoundTrip(c);
    HexRoundTrip(d);
    hide HexDigit, HexValue;
    var s := UnicodeEscape(n) + rest;
    assert s == ['\\', 'u', HexDigit(a), HexDigit(b), HexDigit(c), HexDigit(d)] + rest;
    DecodeFourDigits(s, a, b, c, d);
    assert s[6..] == rest;
  }

  lemma DecodeFourDigits(s: string, a: nat, b: nat, c: nat, d: nat)
    requires |s| >= 6 && s[0] == '\\' && s[1] == 'u'
    requires HexValue(s[2]) == Some(a) && HexValue(s[3]) == Some(b) && HexValue(s[4]) == Some(c)
               && HexValue(s[5]) == Some(d)
    requires a * 4096 + b * 256 + c * 16 + d < 0xD800
    ensures DecodeChar(s) == Some(((a * 4096 + b * 256 + c * 16 + d) as char, s[6..]))
  {
    hide HexValue;
  }

  lemma DecodeEscape(c: char, rest: string)
    ensures DecodeChar(Escape(c) + rest) == Some((c, rest))
    ensures Escape(c) != "" && Escape(c)[0] != '\"'
  {
    hide UnicodeEscape;
    if NeedsUnicode(c) { DecodeUnicode(c as int, rest); }
    assert |Escape(c)| == 2 ==> (Escape(c) + rest)[2..] == rest;
    assert |Escape(c)| == 1 ==> (Escape(c) + rest)[1..] == rest;
    hide HexValue;
  }

  lemma {:induction false} DecodeQuoted(s: string, rest: string)
    ensures DecodeChars(EscapeAll(s) + "\"" + rest) == Some((s, rest))
  {
    if s == "" {
      assert EscapeAll(s) + "\"" + rest == "\"" + rest;
    } else {
      DecodeQuoted(s[1..], rest);
      DecodeEscape(s[0], EscapeAll(s[1..]) + "\"" + rest);
      var t := Escape(s[0]) + (EscapeAll(s[1..]) + "\"" + rest);
      assert EscapeAll(s) + "\"" + rest == t;
      assert t[0] == Escape(s[0])[0];
      hide Escape, DecodeChar, EscapeAll;
      assert [s[0]] + s[1..] == s;
    }
  }

  predicate Delimited(rest: string) {
    rest == "" || !NumChar(rest[0])
  }

  lemma {:induction false} NumLenIs(l: string, rest: string)
    requires (forall i :: 0 <= i < |l| ==> NumChar(l[i])) && Delimited(rest)
    ensures NumLen(l + rest) == |l|
  {
    if l == "" {
      assert l + rest == rest;
    } else {
      assert (l + rest)[1..] == l[1..] + rest;
      NumLenIs(l[1..], rest);
    }
  }

  /** No value starts with a closing bracket. */
  lemma EncodeHead(j: Json)
    requires WellFormed(j)
    ensures Encode(j) != "" && Encode(j)[0] != ']' && Encode(j)[0] != '}'
  {}

  lemma DecodeNumber(l: string, rest: string)
    requires NumLiteral(l) && Delimited(rest)
    ensures Decode(l + rest) == Some((Num(l), rest))
  {
    hide DecodeChars, DecodeItems, DecodeMembers;
    var s := l + rest;
    NumLenIs(l, rest);
    assert s[0] == l[0] && NumChar(s[0]);
    hide NumLen;
    assert s[..|l|] == l && s[|l|..] == rest;
  }

  lemma DecodeLiteral(j: Json, rest: string)
    requires j.Null? || j.Bool?
    ensures Decode(Encode(j) + rest) == Some((j, rest))
  {
    hide DecodeChars, DecodeItems, DecodeMembers, NumLen;
    var s := Encode(j) + rest;
    assert Encode(j) <= s && s[|Encode(j)|..] == rest;
  }

  lemma DecodeStr(t: string, rest: string)
    ensures Decode(Quote(t) + rest) == Some((Str(t), rest))
  {
    hide DecodeChars, DecodeItems, DecodeMembers, NumLen, EscapeAll;
    var s := Quote(t) + rest;
    DecodeQuoted(t, rest);
    assert s[0] == '\"' && s[1..] == EscapeAll(t) + "\"" + rest;
  }

  /** Decoding inverts encoding, whatever follows the value. */
  lemma {:induction false} DecodeEncode(j: Json, rest: string)
    requires WellFormed(j) && Delimited(rest)
    ensures Decode(Encode(j) + rest) == Some((j, rest))
    decreases j, 1
  {
    hide Decode;
    if j.Arr? {
      DecodeEncodeArr(j, rest);
    } else if j.Obj? {
      DecodeEncodeObj(j, rest);
    } else if j.Num? {
      DecodeNumber(j.lit, rest);
    } else if j.Str? {
      DecodeStr(j.s, rest);
    } else {
      DecodeLiteral(j, rest);
    }
  }

  lemma {:induction false} DecodeEncodeArr(j: Json, rest: string)
    requires WellFormed(j) && j.Arr?
    ensures Decode(Encode(j) + rest) == Some((j, rest))
    decreases j, 0
  {
    hide DecodeChars, DecodeMembers, NumLen, Quote;
    var s := Encode(j) + rest;
    if j.items == [] {
      assert EncodeItems(j, j.items) == "";
      assert Encode(j) == "[]";
      assert s[0] == '[' && s[1] == ']' && s[2..] == rest;
    } else {
      var inner := EncodeItems(j, j.items);
      ItemsHead(j, j.items);
      DecodeEncodeItems(j, j.items, rest);
      assert s == "[" + (inner + "]" + rest);
      hide EncodeItems, DecodeItems;
      assert s[1..] == inner + "]" + rest;
      assert s[0] == '[' && s[1] == inner[0];
    }
  }

  lemma {:induction false} DecodeEncodeObj(j: Json, rest: string)
    requires WellFormed(j) && j.Obj?
    ensures Decode(Encode(j) + rest) == Some((j, rest))
    decreases j, 0
  {
    hide SortedKeys, Sorted, DecodeChars, DecodeItems, NumLen, Quote;
    var s := Encode(j) + rest;
    var ks := SortedKeys(j.fields.Keys);
    assert forall k :: k in j.fields.Keys ==> k in ks;
    if ks == [] {
      assert j.fields == map[];
      assert EncodeMembers(j, ks) == "";
      assert Encode(j) == "{}";
      assert s[0] == '{' && s[1] == '}' && s[2..] == rest;
    } else {
      var inner := EncodeMembers(j, ks);
      MembersHead(j, ks);
      DecodeEncodeMembers(j, ks, rest);
      assert s == "{" + (inner + "}" + rest);
      hide EncodeMembers, DecodeMembers;
      assert s[1..] == inner + "}" + rest;
      assert s[0] == '{' && s[1] == inner[0];
      assert Restrict(j.fields, ks) == j.fields;
    }
  }

  lemma ItemsHead(j: Json, items: seq<Json>)
    requires j.Arr? && WellFormed(j) && items != [] && forall i :: 0 <= i < |items| ==> items[i] in j.items
    ensures EncodeItems(j, items) != "" && EncodeItems(j, items)[0] != ']'
  {
    assert items[0] in j.items;
    EncodeHead(items[0]);
    hide Encode;
  }

  lemma MembersHead(j: Json, ks: seq<string>)
    requires j.Obj? && ks != [] && forall i :: 0 <= i < |ks| ==> ks[i] in j.fields
    ensures EncodeMembers(j, ks) != "" && EncodeMembers(j, ks)[0] == '\"'
  {
    hide Encode;
  }

  lemma {:induction false} DecodeEncodeItems(j: Json, items: seq<Json>, rest: string)
    requires j.Arr? && WellFormed(j) && items != [] && forall i :: 0 <= i < |items| ==> items[i] in j.items
    ensures DecodeItems(EncodeItems(j, items) + "]" + rest) == Some((items, rest))
    decreases j, 0, |items|
  {
    hide Encode, Decode;
    var v := items[0];
    assert v in j.items;
    if |items| == 1 {
      DecodeEncode(v, "]" + rest);
      assert EncodeItems(j, items) + "]" + rest == Encode(v) + ("]" + rest);
      assert ("]" + rest)[1..] == rest;
      assert items == [v];
    } else {
      var more := EncodeItems(j, items[1..]) + "]" + rest;
      DecodeEncode(v, "," + more);
      DecodeEncodeItems(j, items[1..], rest);
      assert EncodeItems(j, items) + "]" + rest == Encode(v) + ("," + more);
      assert ("," + more)[1..] == more;
      assert items == [v] + items[1..];
    }
  }

  function Restrict(fields: map<string, Json>, ks: seq<string>): map<string, Json>
    requires forall i :: 0 <= i < |ks| ==> ks[i] in fields
  {
    map k | k in ks :: fields[k]
  }

  /** One member in front of `tail`, which starts with ',' or '}'. */
  lemma DecodeMember(k: string, v: Json, tail: string)
    requires tail != "" && (tail[0] == ',' || tail[0] == '}')
    requires Decode(Encode(v) + tail) == Some((v, tail))
    ensures DecodeMembers(Quote(k) + ":" + Encode(v) + tail) ==
              if tail[0] == '}' then Some((map[k := v], tail[1..]))
              else match DecodeMembers(tail[1..])
                   case None => None
                   case Some(r) => Some((map[k := v] + r.0, r.1))
  {
    hide Encode, Decode, DecodeChars, EscapeAll;
    var s := Quote(k) + ":" + Encode(v) + tail;
    var after := ":" + (Encode(v) + tail);
    DecodeQuoted(k, after);
    assert s[0] == '\"' && s[1..] == EscapeAll(k) + "\"" + after;
    assert after[0] == ':' && after[1..] == Encode(v) + tail;
  }

  lemma {:induction false} DecodeEncodeMembers(j: Json, ks: seq<string>, rest: string)
    requires j.Obj? && WellFormed(j) && ks != [] && Sorted(ks) && forall i :: 0 <= i < |ks| ==> ks[i] in j.fields
    ensures DecodeMembers(EncodeMembers(j, ks) + "}" + rest) == Some((Restrict(j.fields, ks), rest))
    decreases j, 0, |ks|
  {
    hide Encode, Decode, DecodeMembers, Quote, Less;
    var k := ks[0];
    var v := j.fields[k];
    var s := EncodeMembers(j, ks) + "}" + rest;
    if |ks| == 1 {
      var tail := "}" + rest;
      DecodeEncode(v, tail);
      DecodeMember(k, v, tail);
      assert s == Quote(k) + ":" + Encode(v) + tail;
      assert tail[1..] == rest;
      assert Restrict(j.fields, ks) == map[k := v];
    } else {
      var more := EncodeMembers(j, ks[1..]) + "}" + rest;
      var tail := "," + more;
      DecodeEncode(v, tail);
      DecodeMember(k, v, tail);
      DecodeEncodeMembers(j, ks[1..], rest);
      assert s == Quote(k) + ":" + Encode(v) + tail;
      assert tail[1..] == more;
      RestrictCons(j.fields, ks);
    }
  }

  lemma RestrictCons(fields: map<string, Json>, ks: seq<string>)
    requires ks != [] && Sorted(ks) && forall i :: 0 <= i < |ks| ==> ks[i] in fields
    ensures Restrict(fields, ks) == map[ks[0] := fields[ks[0]]] + Restrict(fields, ks[1..])
  {
    assert ks == [ks[0]] + ks[1..];
  }

  /** Canonical JSON is injective: equal bytes mean equal values. */
  lemma EncodeInjective(a: Json, b: Json)
    requires WellFormed(a) && WellFormed(b)
    ensures Encode(a) == Encode(b) <==> a == b
  {
    DecodeEncode(a, "");
    DecodeEncode(b, "");
    assert Encode(a) + "" == Encode(a) && Encode(b) + "" == Encode(b);
  }

  // ---------------------------------------------------------------- the characters it uses

  /** Neither a control character nor one that is special in HTML or in JavaScript source. */
  predicate Plain(c: char) {
    c >= ' ' && c !in {'<', '>', '&', '\U{2028}', '\U{2029}'}
  }

  predicate AllPlain(s: string) {
    forall i :: 0 <= i < |s| ==> Plain(s[i])
  }

  lemma EscapeIsPlain(c: char)
    ensures AllPlain(Escape(c))
  {
    hide HexDigit;
    if NeedsUnicode(c) {
      var n := c as int;
      DigitIsPlain(n / 4096);
      DigitIsPlain(n / 256 % 16);
      DigitIsPlain(n / 16 % 16);
      DigitIsPlain(n % 16);
    }
  }

  lemma DigitIsPlain(n: nat)
    requires n < 16
    ensures Plain(HexDigit(n))
  {}

  lemma {:induction false} QuoteIsPlain(s: string)
    ensures AllPlain(EscapeAll(s)) && AllPlain(Quote(s))
  {
    hide Escape, Plain;
    assert Plain('\"') by { PlainMarks(); }
    if s != "" {
      EscapeIsPlain(s[0]);
      QuoteIsPlain(s[1..]);
    }
  }

  lemma PlainMarks()
    ensures Plain('\"') && AllPlain("null") && AllPlain("true") && AllPlain("false") && AllPlain(",") && AllPlain(":")
    ensures AllPlain("[") && AllPlain("]") && AllPlain("{") && AllPlain("}")
    ensures forall c :: NumChar(c) ==> Plain(c)
  {}

  /** Canonical text holds no control characters, no <, > or & and no line or paragraph separators,
      whatever the strings in it. */
  lemma {:induction false} EncodeIsPlain(j: Json)
    requires WellFormed(j)
    ensures AllPlain(Encode(j))
    decreases j, 1
  {
    hide Plain, Quote, NumChar;
    PlainMarks();
    match j
    case Str(s) => QuoteIsPlain(s);
    case Arr(items) => ItemsArePlain(j, items);
    case Obj(fields) => MembersArePlain(j, SortedKeys(fields.Keys));
    case _ =>
  }

  lemma {:induction false} ItemsArePlain(j: Json, items: seq<Json>)
    requires j.Arr? && WellFormed(j) && forall i :: 0 <= i < |items| ==> items[i] in j.items
    ensures AllPlain(EncodeItems(j, items))
    decreases j, 0, |items|
  {
    hide Plain, Quote, Encode;
    PlainMarks();
    if items != [] {
      EncodeIsPlain(items[0]);
      if |items| > 1 { ItemsArePlain(j, items[1..]); }
    }
  }

  lemma {:induction false} MembersArePlain(j: Json, ks: seq<string>)
    requires j.Obj? && WellFormed(j) && forall i :: 0 <= i < |ks| ==> ks[i] in j.fields
    ensures AllPlain(EncodeMembers(j, ks))
    decreases j, 0, |ks|
  {
    hide Plain, Quote, Encode;
    PlainMarks();
    if ks != [] {
      QuoteIsPlain(ks[0]);
      EncodeIsPlain(j.fields[ks[0]]);
      if |ks| > 1 { MembersArePlain(j, ks[1..]); }
    }
  }
}
