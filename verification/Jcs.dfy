/** The canonical JSON encoder (RFC 8785, sections 3.2.2.2 and 3.2.3, for null, strings, unsigned
    64-bit integers, arrays and string-keyed objects). */
module Jcs {
  import opened Utf

  type U64 = n: nat | n < 0x1_0000_0000_0000_0000

  datatype Value =
    | Null
    | Str(s: string)
    | Num(n: U64)
    | Arr(items: seq<Value>)
    | Obj(fields: map<string, Value>)
    | Other // a value the encoder refuses

  /** No refused value anywhere inside. */
  predicate Supported(v: Value) {
    match v
    case Other => false
    case Arr(items) => forall x | x in items :: Supported(x)
    case Obj(fields) => forall k | k in fields :: Supported(fields[k])
    case _ => true
  }

  // ---- the order of object members ----

  predicate UnitsLess(u: seq<Unit>, w: seq<Unit>) {
    if w == [] then false
    else if u == [] then true
    else if u[0] != w[0] then u[0] < w[0]
    else UnitsLess(u[1..], w[1..])
  }

  /** Strings in the order of their UTF-16 code units. */
  predicate Less(a: string, b: string) {
    UnitsLess(Utf16(a), Utf16(b))
  }

  method JcsLess(a: string, b: string) returns (r: bool)
    ensures r == Less(a, b)
  {
    var ua, ub := Utf16(a), Utf16(b);
    var i := 0;
    assert ua[0..] == ua && ub[0..] == ub;
    while i < |ua| && i < |ub|
      invariant i <= |ua| && i <= |ub|
      invariant Less(a, b) == UnitsLess(ua[i..], ub[i..])
    {
      if ua[i] != ub[i] {
        return ua[i] < ub[i];
      }
      assert ua[i..][1..] == ua[i + 1..] && ub[i..][1..] == ub[i + 1..];
      i := i + 1;
    }
    return |ua| < |ub|;
  }

  lemma {:induction false} UnitsOrder(u: seq<Unit>, w: seq<Unit>, x: seq<Unit>)
    ensures !UnitsLess(u, u)
    ensures u != w ==> UnitsLess(u, w) || UnitsLess(w, u)
    ensures UnitsLess(u, w) && UnitsLess(w, x) ==> UnitsLess(u, x)
  {
    if u != [] {
      UnitsOrder(u[1..], if w == [] then [] else w[1..], if x == [] then [] else x[1..]);
      if w != [] && u[0] == w[0] {
        assert u == [u[0]] + u[1..] && w == [w[0]] + w[1..];
      }
    }
  }

  /** Because UTF-16 tells strings apart, Less is a strict total order on strings. */
  lemma LessIsStrictTotalOrder(a: string, b: string, c: string)
    ensures !Less(a, a)
    ensures a != b ==> Less(a, b) || Less(b, a)
    ensures Less(a, b) && Less(b, c) ==> Less(a, c)
  {
    UnitsOrder(Utf16(a), Utf16(b), Utf16(c));
    if Utf16(a) == Utf16(b) {
      Utf16Injective(a, b);
    }
  }

  predicate Increasing(keys: seq<string>) {
    forall i, j | 0 <= i < j < |keys| :: Less(keys[i], keys[j])
  }

  function Elements(keys: seq<string>): set<string> {
    set k | k in keys
  }

  /** An increasing list is determined by its elements. */
  lemma {:induction false} IncreasingUnique(a: seq<string>, b: seq<string>)
    requires Increasing(a) && Increasing(b) && Elements(a) == Elements(b)
    ensures a == b
  {
    hide Less;
    if a == [] || b == [] {
      NoElements(a);
      NoElements(b);
    } else {
      assert a[0] in Elements(b) && b[0] in Elements(a);
      var i :| 0 <= i < |b| && b[i] == a[0];
      var j :| 0 <= j < |a| && a[j] == b[0];
      LessIsStrictTotalOrder(a[0], b[0], a[0]);
      assert a[0] == b[0];
      TailElements(a);
      TailElements(b);
      IncreasingUnique(a[1..], b[1..]);
      assert a == [a[0]] + a[1..] && b == [b[0]] + b[1..];
    }
  }

  lemma NoElements(a: seq<string>)
    ensures Elements(a) == {} <==> a == []
  {
    if a != [] {
      assert a[0] in Elements(a);
    }
  }

  lemma TailElements(a: seq<string>)
    requires a != [] && Increasing(a)
    ensures Elements(a[1..]) == Elements(a) - {a[0]}
  {
    hide Less;
    forall k | k in a[1..]
      ensures k != a[0]
    {
      var i :| 0 <= i < |a[1..]| && a[1..][i] == k;
      assert Less(a[0], a[i + 1]);
      LessIsStrictTotalOrder(a[0], a[0], a[0]);
    }
    forall k | k in Elements(a) - {a[0]}
      ensures k in a[1..]
    {
      var i :| 0 <= i < |a| && a[i] == k;
      assert a[1..][i - 1] == k;
    }
  }

  method Insert(sorted: seq<string>, k: string) returns (r: seq<string>)
    requires Increasing(sorted) && k !in sorted
    ensures Increasing(r) && Elements(r) == Elements(sorted) + {k}
  {
    hide Less;
    var i := 0;
    while i < |sorted|
      invariant i <= |sorted|
      invariant forall j | 0 <= j < i :: Less(sorted[j], k)
    {
      var before := JcsLess(sorted[i], k);
      if !before {
        break;
      }
      i := i + 1;
    }
    r := sorted[..i] + [k] + sorted[i..];
    Inserted(sorted, i, k);
  }

  lemma Inserted(sorted: seq<string>, i: nat, k: string)
    requires Increasing(sorted) && i <= |sorted| && k !in sorted
    requires forall j | 0 <= j < i :: Less(sorted[j], k)
    requires i < |sorted| ==> !Less(sorted[i], k)
    ensures var r := sorted[..i] + [k] + sorted[i..];
            Increasing(r) && Elements(r) == Elements(sorted) + {k}
  {
    hide Less;
    if i < |sorted| {
      LessIsStrictTotalOrder(k, sorted[i], k);
      forall j | i <= j < |sorted|
        ensures Less(k, sorted[j])
      {
        LessIsStrictTotalOrder(k, sorted[i], sorted[j]);
      }
    }
    assert sorted == sorted[..i] + sorted[i..];
  }

  /** The keys of an object, in whatever order the map yields them, sorted. */
  method SortedKeys(fields: map<string, Value>) returns (keys: seq<string>)
    ensures keys == KeysOf(fields.Keys)
  {
    hide Increasing;
    keys := [];
    var rest := fields.Keys;
    assert Increasing([]) by { NoKeys(); }
    while rest != {}
      invariant rest <= fields.Keys
      invariant Increasing(keys) && Elements(keys) == fields.Keys - rest
      decreases |rest|
    {
      var k :| k in rest;
      assert k !in Elements(keys);
      keys := Insert(keys, k);
      rest := rest - {k};
    }
    IncreasingUnique(keys, KeysOf(fields.Keys));
  }

  lemma NoKeys()
    ensures Increasing([])
  {
  }

  ghost function KeysOf(keys: set<string>): (sorted: seq<string>)
    ensures Increasing(sorted) && Elements(sorted) == keys
    decreases |keys|
  {
    if keys == {} then []
    else
      var k :| k in keys;
      InsertExists(KeysOf(keys - {k}), k);
      var sorted: seq<string> :| Increasing(sorted) && Elements(sorted) == Elements(KeysOf(keys - {k})) + {k};
      sorted
  }

  lemma InsertExists(sorted: seq<string>, k: string)
    requires Increasing(sorted) && k !in sorted
    ensures exists r: seq<string> :: Increasing(r) && Elements(r) == Elements(sorted) + {k}
  {
    hide Less;
    var i := 0;
    while i < |sorted| && Less(sorted[i], k)
      invariant i <= |sorted|
      invariant forall j | 0 <= j < i :: Less(sorted[j], k)
    {
      i := i + 1;
    }
    Inserted(sorted, i, k);
  }

  // ---- the text of a value ----

  function HexDigit(n: nat): char
    requires n < 16
  {
    "0123456789abcdef"[n]
  }

  function EscapedChar(c: char): (t: string)
    ensures t != ""
  {
    if c == '"' then "\\\""
    else if c == '\\' then "\\\\"
    else if c as int == 0x08 then "\\b"
    else if c == '\t' then "\\t"
    else if c == '\n' then "\\n"
    else if c as int == 0x0C then "\\f"
    else if c == '\r' then "\\r"
    else if c as int < 0x20 then "\\u00" + [HexDigit(c as int / 16), HexDigit(c as int % 16)]
    else [c]
  }

  function Escaped(s: string): string {
    if s == "" then "" else EscapedChar(s[0]) + Escaped(s[1..])
  }

  function Quoted(s: string): string {
    "\"" + Escaped(s) + "\""
  }

  function Decimal(n: nat): string {
    if n < 10 then [('0' as int + n) as char] else Decimal(n / 10) + [('0' as int + n % 10) as char]
  }

  function Comma(i: nat): string {
    if i > 0 then "," else ""
  }

  ghost function Text(v: Value): string
    decreases v
  {
    match v
    case Null => "null"
    case Str(s) => Quoted(s)
    case Num(n) => Decimal(n)
    case Arr(_) => "[" + ItemsText(v, 0) + "]"
    case Obj(fields) => "{" + FieldsText(v, KeysOf(fields.Keys), 0) + "}"
    case Other => ""
  }

  ghost function ItemsText(v: Value, i: nat): string
    requires v.Arr? && i <= |v.items|
    decreases v, |v.items| - i
  {
    if i == |v.items| then "" else Comma(i) + Text(v.items[i]) + ItemsText(v, i + 1)
  }

  ghost function FieldsText(v: Value, keys: seq<string>, i: nat): string
    requires v.Obj? && i <= |keys| && forall k | k in keys :: k in v.fields
    decreases v, |keys| - i
  {
    if i == |keys| then ""
    else Comma(i) + Quoted(keys[i]) + ":" + Text(v.fields[keys[i]]) + FieldsText(v, keys, i + 1)
  }

  /** The canonical bytes of a value. */
  ghost function Bytes(v: Value): seq<Byte> {
    Utf8(Text(v))
  }
}
