/** The encoder as it runs: everything is appended to one buffer. */
module JcsEncoder {
  import opened Wrappers
  import opened Utf
  import opened Jcs

  /** The byte buffer; `text` is what has been written to it so far. */
  class Buffer {
    var bytes: seq<Byte>
    ghost var text: string

    ghost predicate Valid()
      reads this
    {
      bytes == Utf8(text)
    }

    constructor ()
      ensures Valid() && text == ""
    {
      bytes, text := [], "";
    }

    method WriteString(s: string)
      requires Valid()
      modifies this
      ensures Valid() && text == old(text) + s
    {
      Utf8Concat(text, s);
      bytes, text := bytes + Utf8(s), text + s;
    }

    method WriteRune(r: char)
      requires Valid()
      modifies this
      ensures Valid() && text == old(text) + [r]
    {
      Utf8Concat(text, [r]);
      Utf8One(r);
      bytes, text := bytes + Utf8Char(r), text + [r];
    }
  }

  /** Writing x brings the buffer closer to goal, what is left to write being x + y. */
  lemma Closer(a: string, x: string, y: string, end: string, goal: string)
    requires a + (x + y) + end == goal
    ensures a + x + y + end == goal
  {
    assert a + x + y == a + (x + y);
  }

  method EncodeString(buf: Buffer, s: string)
    requires buf.Valid()
    modifies buf
    ensures buf.Valid() && buf.text == old(buf.text) + Quoted(s)
  {
    ghost var goal := buf.text + Quoted(s);
    buf.WriteRune('"');
    StringStart(old(buf.text), s);
    hide Utf8, Escaped, EscapedChar, Quoted;
    for i := 0 to |s|
      invariant buf.Valid()
      invariant buf.text + Escaped(s[i..]) + "\"" == goal
    {
      StringStep(s, i);
      Closer(buf.text, EscapedChar(s[i]), Escaped(s[i + 1..]), "\"", goal);
      EncodeChar(buf, s[i]);
    }
    StringEnd(buf.text, s);
    buf.WriteRune('"');
  }

  lemma StringStart(before: string, s: string)
    ensures before + "\"" + Escaped(s[0..]) + "\"" == before + Quoted(s)
  {
    assert s[0..] == s;
    assert before + "\"" + Escaped(s) + "\"" == before + ("\"" + Escaped(s) + "\"");
  }

  lemma StringStep(s: string, i: nat)
    requires i < |s|
    ensures Escaped(s[i..]) == EscapedChar(s[i]) + Escaped(s[i + 1..])
  {
    assert s[i..][1..] == s[i + 1..];
  }

  lemma StringEnd(before: string, s: string)
    ensures before + Escaped(s[|s|..]) == before
  {
  }

  method EncodeChar(buf: Buffer, r: char)
    requires buf.Valid()
    modifies buf
    ensures buf.Valid() && buf.text == old(buf.text) + EscapedChar(r)
  {
    hide Utf8;
    if r == '"' {
      buf.WriteString("\\\"");
    } else if r == '\\' {
      buf.WriteString("\\\\");
    } else if r as int == 0x08 {
      buf.WriteString("\\b");
    } else if r == '\t' {
      buf.WriteString("\\t");
    } else if r == '\n' {
      buf.WriteString("\\n");
    } else if r as int == 0x0C {
      buf.WriteString("\\f");
    } else if r == '\r' {
      buf.WriteString("\\r");
    } else if r as int < 0x20 {
      buf.WriteString("\\u00");
      buf.WriteRune(HexDigit(r as int / 16));
      buf.WriteRune(HexDigit(r as int % 16));
    } else {
      buf.WriteRune(r);
    }
  }

  /** Appends the canonical text of v, or fails on a value it does not know. */
  method EncodeValue(buf: Buffer, v: Value) returns (ok: bool)
    requires buf.Valid()
    modifies buf
    ensures buf.Valid()
    ensures ok == Supported(v)
    ensures ok ==> buf.text == old(buf.text) + Text(v)
    decreases v, 1
  {
    hide Quoted, Decimal, FieldsText;
    match v
    case Null => buf.WriteString("null"); return true;
    case Str(s) => EncodeString(buf, s); return true;
    case Num(n) => buf.WriteString(Decimal(n)); return true;
    case Arr(items) => ok := EncodeItems(buf, v);
    case Obj(fields) => ok := EncodeObject(buf, v);
    case Other => return false;
  }

  method EncodeItems(buf: Buffer, v: Value) returns (ok: bool)
    requires buf.Valid() && v.Arr?
    modifies buf
    ensures buf.Valid()
    ensures ok == Supported(v)
    ensures ok ==> buf.text == old(buf.text) + Text(v)
    decreases v, 0
  {
    hide Utf8, ItemsText;
    ghost var goal := buf.text + Text(v);
    ItemsStart(buf.text, v);
    buf.WriteRune('[');
    for i := 0 to |v.items|
      invariant buf.Valid()
      invariant forall j | 0 <= j < i :: Supported(v.items[j])
      invariant buf.text + ItemsText(v, i) + "]" == goal
    {
      ItemsStep(v, i);
      Closer(buf.text, Comma(i) + Text(v.items[i]), ItemsText(v, i + 1), "]", goal);
      ok := EncodeItem(buf, v, i);
      if !ok {
        return;
      }
    }
    ItemsEnd(buf.text, v);
    buf.WriteRune(']');
    ok := true;
  }

  method EncodeItem(buf: Buffer, v: Value, i: nat) returns (ok: bool)
    requires buf.Valid() && v.Arr? && i < |v.items|
    modifies buf
    ensures buf.Valid()
    ensures ok == Supported(v.items[i])
    ensures ok ==> buf.text == old(buf.text) + (Comma(i) + Text(v.items[i]))
    decreases v.items[i], 2
  {
    hide Utf8, Text, Supported;
    if i > 0 {
      buf.WriteRune(',');
    }
    assert buf.text == old(buf.text) + Comma(i);
    ok := EncodeValue(buf, v.items[i]);
  }

  lemma ItemsStart(before: string, v: Value)
    requires v.Arr?
    ensures before + ['['] + ItemsText(v, 0) + "]" == before + Text(v)
  {
    hide ItemsText;
    assert before + "[" + ItemsText(v, 0) + "]" == before + ("[" + ItemsText(v, 0) + "]");
  }

  lemma ItemsStep(v: Value, i: nat)
    requires v.Arr? && i < |v.items|
    ensures ItemsText(v, i) == (Comma(i) + Text(v.items[i])) + ItemsText(v, i + 1)
  {
  }

  lemma ItemsEnd(before: string, v: Value)
    requires v.Arr?
    ensures before + ItemsText(v, |v.items|) == before
  {
  }

  method EncodeObject(buf: Buffer, v: Value) returns (ok: bool)
    requires buf.Valid() && v.Obj?
    modifies buf
    ensures buf.Valid()
    ensures ok == Supported(v)
    ensures ok ==> buf.text == old(buf.text) + Text(v)
    decreases v, 0
  {
    hide Utf8, Text, Quoted, Supported, FieldsText, KeysOf;
    var keys := SortedKeys(v.fields);
    KeysAre(v, keys);
    SupportedFields(v, keys);
    ghost var goal := buf.text + Text(v);
    FieldsStart(buf.text, v, keys);
    buf.WriteRune('{');
    for i := 0 to |keys|
      invariant buf.Valid()
      invariant forall j | 0 <= j < i :: Supported(v.fields[keys[j]])
      invariant buf.text + FieldsText(v, keys, i) + "}" == goal
    {
      FieldsStep(v, keys, i);
      Closer(buf.text, Comma(i) + Quoted(keys[i]) + ":" + Text(v.fields[keys[i]]), FieldsText(v, keys, i + 1), "}",
        goal);
      ok := EncodeField(buf, v, keys, i);
      if !ok {
        return;
      }
    }
    FieldsEnd(buf.text, v, keys);
    buf.WriteRune('}');
    ok := true;
  }

  method EncodeField(buf: Buffer, v: Value, keys: seq<string>, i: nat) returns (ok: bool)
    requires buf.Valid() && v.Obj? && i < |keys| && keys[i] in v.fields
    modifies buf
    ensures buf.Valid()
    ensures ok == Supported(v.fields[keys[i]])
    ensures ok ==> buf.text == old(buf.text) + (Comma(i) + Quoted(keys[i]) + ":" + Text(v.fields[keys[i]]))
    decreases v.fields[keys[i]], 2
  {
    hide Utf8, Text, Supported, Quoted;
    if i > 0 {
      buf.WriteRune(',');
    }
    assert buf.text == old(buf.text) + Comma(i);
    EncodeString(buf, keys[i]);
    buf.WriteRune(':');
    assert buf.text == old(buf.text) + (Comma(i) + Quoted(keys[i]) + ":");
    ok := EncodeValue(buf, v.fields[keys[i]]);
  }

  lemma KeysAre(v: Value, keys: seq<string>)
    requires v.Obj? && keys == KeysOf(v.fields.Keys)
    ensures forall k :: k in keys <==> k in v.fields
  {
    assert forall k :: k in keys <==> k in Elements(keys);
  }

  lemma SupportedFields(v: Value, keys: seq<string>)
    requires v.Obj? && forall k :: k in keys <==> k in v.fields
    ensures Supported(v) <==> forall j | 0 <= j < |keys| :: Supported(v.fields[keys[j]])
  {
  }

  lemma FieldsStart(before: string, v: Value, keys: seq<string>)
    requires v.Obj? && keys == KeysOf(v.fields.Keys) && forall k | k in keys :: k in v.fields
    ensures before + ['{'] + FieldsText(v, keys, 0) + "}" == before + Text(v)
  {
    hide FieldsText;
    assert before + "{" + FieldsText(v, keys, 0) + "}" == before + ("{" + FieldsText(v, keys, 0) + "}");
  }

  lemma FieldsStep(v: Value, keys: seq<string>, i: nat)
    requires v.Obj? && i < |keys| && forall k | k in keys :: k in v.fields
    ensures FieldsText(v, keys, i)
         == (Comma(i) + Quoted(keys[i]) + ":" + Text(v.fields[keys[i]])) + FieldsText(v, keys, i + 1)
  {
  }

  lemma FieldsEnd(before: string, v: Value, keys: seq<string>)
    requires v.Obj? && forall k | k in keys :: k in v.fields
    ensures before + FieldsText(v, keys, |keys|) == before
  {
  }

  /** The canonical bytes of every value without an unsupported part, an error for the others. */
  method CanonicalJson(v: Value) returns (r: Option<seq<Byte>>)
    ensures r == if Supported(v) then Some(Bytes(v)) else None
  {
    hide Text, Supported;
    var buf := new Buffer();
    var ok := EncodeValue(buf, v);
    assert "" + Text(v) == Text(v);
    return if ok then Some(buf.bytes) else None;
  }
}
