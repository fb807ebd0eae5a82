/** JavaScript values as the application's routes and handlers see them after
    `JSON.parse` or before `JSON.stringify`, and the parts of the language's
    semantics the model needs: property access (which throws on `null` and
    `undefined`), optional chaining, truthiness, `??`, `||`, `typeof x ===
    'object'`, the `in` operator, `String(x)` and `JSON.stringify`.
    Numbers are modelled as integers. */
module Js {
  import opened Wrappers
  import opened Strings

  datatype JsValue =
    | Undefined
    | Null
    | Bool(b: bool)
    | Num(n: int)
    | Str(s: string)
    | Arr(items: seq<JsValue>)
    | Obj(props: seq<(string, JsValue)>)

  /** `fetch` followed by `response.json()`: the fetch can reject, and the body
      can fail to parse (`json == None`). */
  datatype FetchReply = FetchThrew | Replied(ok: bool, json: Option<JsValue>)

  predicate IsNullish(v: JsValue) {
    v.Undefined? || v.Null?
  }

  /** JavaScript truthiness: `undefined`, `null`, `false`, `0` and `''` are falsy. */
  predicate Truthy(v: JsValue) {
    match v
    case Undefined => false
    case Null => false
    case Bool(b) => b
    case Num(n) => n != 0
    case Str(s) => s != ""
    case _ => true
  }

  /** `typeof v === 'object'` (true for `null` and for arrays). */
  predicate IsObjectType(v: JsValue) {
    v.Null? || v.Arr? || v.Obj?
  }

  /** A typed optional string field as a JavaScript value. */
  function OptStr(o: Option<string>): JsValue {
    match o
    case Some(s) => Str(s)
    case None => Undefined
  }

  /** A string value with at least one character. */
  predicate IsNonEmptyStr(v: JsValue) {
    v.Str? && v.s != ""
  }

  /** The value bound to `key` in an object literal (the first binding), or `undefined`. */
  function Lookup(props: seq<(string, JsValue)>, key: string): JsValue {
    if props == [] then Undefined
    else if props[0].0 == key then props[0].1
    else Lookup(props[1..], key)
  }

  /** The binding at position `k` is the one found when no earlier key matches. */
  lemma {:induction false} LookupAt(props: seq<(string, JsValue)>, key: string, k: nat)
    requires k < |props| && props[k].0 == key
    requires forall m :: 0 <= m < k ==> props[m].0 != key
    ensures Lookup(props, key) == props[k].1
  {
    if k > 0 {
      assert forall m :: 0 <= m < k - 1 ==> props[1..][m] == props[m + 1];
      LookupAt(props[1..], key, k - 1);
    }
  }

  /** `v[key]` for a named property: `None` stands for the TypeError thrown when
      `v` is `null` or `undefined`. Primitives, and arrays, have none of the
      named properties the application reads. */
  function Get(v: JsValue, key: string): (r: Option<JsValue>)
    ensures r.None? <==> IsNullish(v)
    ensures v.Obj? ==> r == Some(Lookup(v.props, key))
  {
    match v
    case Undefined => None
    case Null => None
    case Obj(ps) => Some(Lookup(ps, key))
    case _ => Some(Undefined)
  }

  /** `v?.[key]`: `undefined` when `v` is nullish, otherwise `v[key]`. */
  function OptGet(v: JsValue, key: string): JsValue {
    match Get(v, key)
    case Some(x) => x
    case None => Undefined
  }

  /** `a ?? b`. */
  function Coalesce(a: JsValue, b: JsValue): JsValue {
    if IsNullish(a) then b else a
  }

  /** `a || b`. */
  function Or(a: JsValue, b: JsValue): JsValue {
    if Truthy(a) then a else b
  }

  /** `key in v` for a value whose `typeof` is 'object' and which is not null:
      an object's own keys; for an array its indices and `length`. */
  predicate Has(v: JsValue, key: string) {
    match v
    case Obj(ps) => exists i :: 0 <= i < |ps| && ps[i].0 == key
    case Arr(items) => key == "length" || exists i :: 0 <= i < |items| && key == NatToString(i)
    case _ => false
  }

  /** A key bound to anything but `undefined` is one of the object's keys, so
      `'k' in v && v.k === x` is `v.k === x` for such an `x`. */
  lemma {:induction false} LookupHas(props: seq<(string, JsValue)>, key: string)
    ensures !Lookup(props, key).Undefined? ==> Has(Obj(props), key)
  {
    if props != [] && props[0].0 != key {
      LookupHas(props[1..], key);
      if !Lookup(props, key).Undefined? {
        var i :| 0 <= i < |props[1..]| && props[1..][i].0 == key;
        assert props[i + 1].0 == key;
      }
    }
  }

  /** `v[i]` for an index on a value that is not nullish. */
  function Index(v: JsValue, i: nat): JsValue {
    match v
    case Arr(items) => if i < |items| then items[i] else Undefined
    case Str(s) => if i < |s| then Str([s[i]]) else Undefined
    case Obj(ps) => Lookup(ps, NatToString(i))
    case _ => Undefined
  }

  /** `v?.[i]`. */
  function OptIndex(v: JsValue, i: nat): JsValue {
    if IsNullish(v) then Undefined else Index(v, i)
  }

  /** `String(v)`, which is also what a template literal `${v}` and the `+`
      operator on a string produce. Plain objects print as "[object Object]";
      arrays join their elements with ',' (nullish elements print as ''). */
  function ToJsString(v: JsValue): string {
    match v
    case Undefined => "undefined"
    case Null => "null"
    case Bool(b) => if b then "true" else "false"
    case Num(n) => IntToString(n)
    case Str(s) => s
    case Arr(items) =>
      Join(seq(|items|, i requires 0 <= i < |items| =>
             if IsNullish(items[i]) then "" else ToJsString(items[i])), ",")
    case Obj(_) => "[object Object]"
  }

  /** Lower-case hexadecimal digit. */
  function HexDigit(d: nat): char
    requires d < 16
  {
    "0123456789abcdef"[d]
  }

  /** How `JSON.stringify` writes one code point inside a string literal. */
  function EscapeChar(c: char): string {
    if c == '"' then "\\\""
    else if c == '\\' then "\\\\"
    else if c == '\U{8}' then "\\b"
    else if c == '\t' then "\\t"
    else if c == '\n' then "\\n"
    else if c == '\U{C}' then "\\f"
    else if c == '\r' then "\\r"
    else if (c as int) < 0x20 then "\\u00" + [HexDigit(c as int / 16), HexDigit(c as int % 16)]
    else [c]
  }

  function EscapeString(s: string): string {
    if s == [] then "" else EscapeChar(s[0]) + EscapeString(s[1..])
  }

  /** A JSON string literal. */
  function Quote(s: string): string {
    "\"" + EscapeString(s) + "\""
  }

  /** The members of an object that `JSON.stringify` writes: those whose value is
      not `undefined`. */
  function Somes(xs: seq<Option<string>>): seq<string> {
    if xs == [] then []
    else if xs[0].Some? then [xs[0].value] + Somes(xs[1..])
    else Somes(xs[1..])
  }

  /** `JSON.stringify(v)`. `undefined` only occurs inside arrays in what the
      application serialises, where it is written as `null`; object members whose
      value is `undefined` are omitted. */
  function Stringify(v: JsValue): string {
    match v
    case Undefined => "null"
    case Null => "null"
    case Bool(b) => if b then "true" else "false"
    case Num(n) => IntToString(n)
    case Str(s) => Quote(s)
    case Arr(items) =>
      "[" + Join(seq(|items|, i requires 0 <= i < |items| => Stringify(items[i])), ",") + "]"
    case Obj(ps) =>
      "{" + Join(Somes(seq(|ps|, i requires 0 <= i < |ps| =>
                   if ps[i].1.Undefined? then None
                   else Some(Quote(ps[i].0) + ":" + Stringify(ps[i].1)))), ",") + "}"
  }

  lemma {:induction false} EscapeStringNoNewline(s: string)
    ensures '\n' !in EscapeString(s)
  {
    if s != [] {
      EscapeStringNoNewline(s[1..]);
      assert '\n' !in EscapeChar(s[0]);
    }
  }

  lemma {:induction false} JoinAvoids(parts: seq<string>, sep: string, c: char)
    requires forall i :: 0 <= i < |parts| ==> c !in parts[i]
    requires c !in sep
    ensures c !in Join(parts, sep)
  {
    if |parts| > 1 {
      JoinAvoids(parts[1..], sep, c);
    }
  }

  lemma {:induction false} SomesAvoid(xs: seq<Option<string>>, c: char)
    requires forall i :: 0 <= i < |xs| && xs[i].Some? ==> c !in xs[i].value
    ensures forall i :: 0 <= i < |Somes(xs)| ==> c !in Somes(xs)[i]
  {
    if xs != [] {
      SomesAvoid(xs[1..], c);
    }
  }

  /** A serialised value never contains a raw line feed: `JSON.stringify`
      escapes it inside string literals and writes no whitespace between
      tokens. This is what makes newline-delimited framing sound. */
  lemma {:induction false} StringifyNoNewline(v: JsValue)
    ensures '\n' !in Stringify(v)
  {
    match v
    case Undefined =>
    case Null =>
    case Bool(b) =>
    case Num(n) =>
    case Str(s) => EscapeStringNoNewline(s);
    case Arr(items) =>
      var parts := seq(|items|, i requires 0 <= i < |items| => Stringify(items[i]));
      forall i | 0 <= i < |items| ensures '\n' !in parts[i] {
        StringifyNoNewline(items[i]);
      }
      JoinAvoids(parts, ",", '\n');
    case Obj(ps) =>
      var xs := seq(|ps|, i requires 0 <= i < |ps| =>
                  if ps[i].1.Undefined? then None
                  else Some(Quote(ps[i].0) + ":" + Stringify(ps[i].1)));
      forall i | 0 <= i < |xs| && xs[i].Some? ensures '\n' !in xs[i].value {
        StringifyNoNewline(ps[i].1);
        EscapeStringNoNewline(ps[i].0);
      }
      SomesAvoid(xs, '\n');
      JoinAvoids(Somes(xs), ",", '\n');
  }

  /** A serialised object starts with '{' and ends with '}', so `trim` leaves it alone. */
  lemma StringifyObjectTrimmed(ps: seq<(string, JsValue)>)
    ensures var t := Stringify(Obj(ps)); t[0] == '{' && t[|t| - 1] == '}' && Trim(t) == t
  {
    var t := Stringify(Obj(ps));
    TrimKeeps(t);
  }
}
