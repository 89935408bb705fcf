/** A reader of the canonical form, and the proof that it undoes the encoder. */
module JcsDecoder {
  import opened Wrappers
  import opened Utf
  import opened Jcs

  // ---- reading ----

  function HexValue(c: char): Option<nat> {
    if '0' <= c <= '9' then Some(c as int - '0' as int)
    else if 'a' <= c <= 'f' then Some(c as int - 'a' as int + 10)
    else None
  }

  /** One character of a quoted string: what it stands for, and how many characters it takes. */
  function ReadChar(t: string): (r: Option<(char, nat)>)
    requires t != ""
    ensures r.Some? ==> 1 <= r.value.1 <= |t|
  {
    if t[0] != '\\' then Some((t[0], 1))
    else if |t| >= 2 && t[1] in "\"\\btnfr" then
      Some((if t[1] == 'b' then 8 as char else if t[1] == 't' then '\t' else if t[1] == 'n' then '\n'
            else if t[1] == 'f' then 12 as char else if t[1] == 'r' then '\r' else t[1], 2))
    else if |t| >= 6 && t[1..4] == "u00" then
      match (HexValue(t[4]), HexValue(t[5]))
      case (Some(h), Some(l)) => Some(((16 * h + l) as char, 6))
      case _ => None
    else None
  }

  /** Up to and including the closing quote. */
  function ReadString(t: string): (r: Option<(string, string)>)
    ensures r.Some? ==> |r.value.1| < |t|
    decreases |t|
  {
    if t == "" then None
    else if t[0] == '"' then Some(("", t[1..]))
    else match ReadChar(t)
      case None => None
      case Some((c, n)) =>
        match ReadString(t[n..])
        case None => None
        case Some((s, rest)) => Some(([c] + s, rest))
  }

  predicate IsDigit(c: char) {
    '0' <= c <= '9'
  }

  function ReadDigits(t: string, n: nat): (r: (nat, string))
    ensures |r.1| <= |t|
    decreases |t|
  {
    if t == "" || !IsDigit(t[0]) then (n, t)
    else ReadDigits(t[1..], 10 * n + (t[0] as int - '0' as int))
  }

  predicate Starts(t: string, c: char) {
    t != "" && t[0] == c
  }

  function ReadValue(t: string): (r: Option<(Value, string)>)
    ensures r.Some? ==> |r.value.1| < |t|
    decreases |t|, 1
  {
    if |t| >= 4 && t[..4] == "null" then Some((Null, t[4..]))
    else if Starts(t, '"') then
      match ReadString(t[1..])
      case None => None
      case Some((s, rest)) => Some((Str(s), rest))
    else if Starts(t, '[') then ReadItems(t[1..], [])
    else if Starts(t, '{') then ReadFields(t[1..], map[])
    else if t != "" && IsDigit(t[0]) then
      var (n, rest) := ReadDigits(t[1..], t[0] as int - '0' as int);
      if n < 0x1_0000_0000_0000_0000 then Some((Num(n), rest)) else None
    else None
  }

  function ReadItems(t: string, seen: seq<Value>): (r: Option<(Value, string)>)
    ensures r.Some? ==> |r.value.1| < |t|
    decreases |t|, 2
  {
    if Starts(t, ']') then Some((Arr(seen), t[1..]))
    else if seen != [] && !Starts(t, ',') then None
    else match ReadValue(if seen == [] then t else t[1..])
      case None => None
      case Some((v, rest)) => ReadItems(rest, seen + [v])
  }

  function ReadFields(t: string, seen: map<string, Value>): (r: Option<(Value, string)>)
    ensures r.Some? ==> |r.value.1| < |t|
    decreases |t|, 2
  {
    if Starts(t, '}') then Some((Obj(seen), t[1..]))
    else if |seen| > 0 && !Starts(t, ',') then None
    else
      var q := if |seen| == 0 then t else t[1..];
      if !Starts(q, '"') then None
      else match ReadString(q[1..])
        case None => None
        case Some((key, colon)) =>
          if !Starts(colon, ':') then None
          else match ReadValue(colon[1..])
            case None => None
            case Some((v, rest)) => ReadFields(rest, seen[key := v])
  }

  function Decode(b: seq<Byte>): Option<Value> {
    match FromUtf8(b)
    case None => None
    case Some(t) =>
      match ReadValue(t)
      case Some((v, "")) => Some(v)
      case _ => None
  }

  // ---- reading undoes writing ----

  lemma HexDigitReads(n: nat)
    requires n < 16
    ensures HexValue(HexDigit(n)) == Some(n)
  {
  }

  lemma ReadCharOfEscaped(c: char, rest: string)
    ensures EscapedChar(c)[0] != '"'
    ensures ReadChar(EscapedChar(c) + rest) == Some((c, |EscapedChar(c)|))
  {
    var t := EscapedChar(c) + rest;
    if c as int < 0x20 {
      HexDigitReads(c as int / 16);
      HexDigitReads(c as int % 16);
      if |EscapedChar(c)| == 6 {
        assert t[1..4] == "u00";
      }
    }
  }

  lemma {:induction false} ReadStringOfEscaped(s: string, rest: string)
    ensures ReadString(Escaped(s) + "\"" + rest) == Some((s, rest))
  {
    var t := Escaped(s) + "\"" + rest;
    if s == "" {
      assert t[1..] == rest;
    } else {
      var tail := Escaped(s[1..]) + "\"" + rest;
      ReadStringOfEscaped(s[1..], rest);
      ReadCharOfEscaped(s[0], tail);
      assert t == EscapedChar(s[0]) + tail;
      assert t[|EscapedChar(s[0])|..] == tail;
      assert s == [s[0]] + s[1..];
    }
  }

  lemma {:induction false} ReadDigitsOfDecimal(n: nat, rest: string)
    ensures IsDigit(Decimal(n)[0])
    ensures ReadDigits(Decimal(n) + rest, 0) == ReadDigits(rest, n)
    decreases n
  {
    var d := ('0' as int + n % 10) as char;
    assert ([d] + rest)[1..] == rest;
    if n >= 10 {
      ReadDigitsOfDecimal(n / 10, [d] + rest);
      assert Decimal(n) + rest == Decimal(n / 10) + ([d] + rest);
    }
  }

  /** After a number there may be anything but another digit; after other values anything. */
  predicate MayFollow(v: Value, rest: string) {
    v.Num? && rest != "" ==> !IsDigit(rest[0])
  }

  lemma ReadNumber(n: U64, rest: string)
    requires MayFollow(Num(n), rest)
    ensures ReadValue(Decimal(n) + rest) == Some((Num(n), rest))
  {
    var t := Decimal(n) + rest;
    ReadDigitsOfDecimal(n, rest);
    assert t[0] == Decimal(n)[0];
    assert ReadDigits(t, 0) == ReadDigits(t[1..], t[0] as int - '0' as int);
  }

  lemma ReadQuoted(s: string, rest: string)
    ensures ReadValue(Quoted(s) + rest) == Some((Str(s), rest))
  {
    hide ReadString, Escaped;
    var t := Quoted(s) + rest;
    assert t[0] == '"' && t[1..] == Escaped(s) + "\"" + rest;
    ReadStringOfEscaped(s, rest);
  }

  /** Values begin with neither a bracket nor a brace nor a comma that would end or continue a list. */
  lemma TextStart(v: Value)
    requires Supported(v)
    ensures Text(v) != "" && Text(v)[0] != ']' && Text(v)[0] != ','
  {
    if v.Num? {
      ReadDigitsOfDecimal(v.n, "");
    }
  }

  /** Whatever legally follows, the text of a value reads back as that value and leaves the rest. */
  lemma {:induction false} ReadText(v: Value, rest: string)
    requires Supported(v) && MayFollow(v, rest)
    ensures ReadValue(Text(v) + rest) == Some((v, rest))
    decreases v
  {
    hide Quoted, Decimal, ItemsText, FieldsText, ReadValue, ReadItems, ReadFields, Supported;
    match v
    case Null =>
      ReadNull(rest);
    case Str(s) =>
      ReadQuoted(s, rest);
    case Num(n) =>
      ReadNumber(n, rest);
    case Arr(items) =>
      ReadBracket(ItemsText(v, 0), rest);
      ReadItemsText(v, 0, rest);
      assert items[..0] == [];
    case Obj(fields) =>
      var keys := KeysOf(fields.Keys);
      KeysAre(fields, keys);
      ReadBrace(FieldsText(v, keys, 0), rest);
      ReadFieldsText(v, keys, 0, rest);
      assert Seen(fields, keys[..0]) == map[];
    case Other =>
      NotSupported();
  }

  lemma NotSupported()
    ensures !Supported(Other)
  {
  }

  lemma ReadNull(rest: string)
    ensures ReadValue("null" + rest) == Some((Null, rest))
  {
    assert ("null" + rest)[..4] == "null" && ("null" + rest)[4..] == rest;
  }

  lemma ReadBracket(body: string, rest: string)
    ensures ReadValue("[" + body + "]" + rest) == ReadItems(body + "]" + rest, [])
  {
    hide ReadItems;
    var t := "[" + body + "]" + rest;
    assert t[1..] == body + "]" + rest;
    assert |t| >= 4 ==> t[..4][0] == '[';
  }

  lemma ReadBrace(body: string, rest: string)
    ensures ReadValue("{" + body + "}" + rest) == ReadFields(body + "}" + rest, map[])
  {
    hide ReadFields;
    var t := "{" + body + "}" + rest;
    assert t[1..] == body + "}" + rest;
    assert |t| >= 4 ==> t[..4][0] == '{';
  }

  lemma {:induction false} ReadItemsText(v: Value, i: nat, rest: string)
    requires v.Arr? && i <= |v.items| && Supported(v)
    ensures ReadItems(ItemsText(v, i) + "]" + rest, v.items[..i]) == Some((v, rest))
    decreases v, |v.items| - i
  {
    hide Text, ItemsText, ReadValue, ReadItems, Supported, MayFollow, Comma;
    if i == |v.items| {
      assert v.items[..i] == v.items;
      ItemsEnd(v, rest);
      ReadBracketEnd(v.items, rest);
    } else {
      var item, after := v.items[i], ItemsText(v, i + 1) + "]" + rest;
      ItemsStep(v, i, rest);
      SupportedItem(v, i);
      ReadText(item, after);
      ReadItem(i, item, after, v.items[..i]);
      ReadItemsText(v, i + 1, rest);
      assert v.items[..i] + [item] == v.items[..i + 1];
    }
  }

  lemma SupportedItem(v: Value, i: nat)
    requires v.Arr? && Supported(v) && i < |v.items|
    ensures Supported(v.items[i])
  {
  }

  lemma ItemsEnd(v: Value, rest: string)
    requires v.Arr?
    ensures ItemsText(v, |v.items|) + "]" + rest == "]" + rest
  {
  }

  lemma ItemsStep(v: Value, i: nat, rest: string)
    requires v.Arr? && i < |v.items|
    ensures var after := ItemsText(v, i + 1) + "]" + rest;
            MayFollow(v.items[i], after)
            && ItemsText(v, i) + "]" + rest == Comma(i) + (Text(v.items[i]) + after)
  {
    hide Text;
    var after := ItemsText(v, i + 1) + "]" + rest;
    assert after[0] == if i + 1 == |v.items| then ']' else ',';
  }

  lemma ReadBracketEnd(seen: seq<Value>, rest: string)
    ensures ReadItems("]" + rest, seen) == Some((Arr(seen), rest))
  {
    assert ("]" + rest)[1..] == rest;
  }

  lemma ReadItem(i: nat, item: Value, after: string, seen: seq<Value>)
    requires Supported(item) && |seen| == i && ReadValue(Text(item) + after) == Some((item, after))
    ensures ReadItems(Comma(i) + (Text(item) + after), seen) == ReadItems(after, seen + [item])
  {
    hide Text, ReadValue;
    var q := Text(item) + after;
    var t := Comma(i) + q;
    TextStart(item);
    assert q[0] == Text(item)[0];
    assert (if i == 0 then t else t[1..]) == q;
    assert t[0] == if i == 0 then q[0] else ',';
  }

  ghost function Seen(fields: map<string, Value>, keys: seq<string>): map<string, Value>
    requires forall k | k in keys :: k in fields
  {
    map k | k in keys :: fields[k]
  }

  lemma KeysAre(fields: map<string, Value>, keys: seq<string>)
    requires keys == KeysOf(fields.Keys)
    ensures forall k :: k in keys <==> k in fields
  {
    assert forall k :: k in keys <==> k in Elements(keys);
  }

  lemma {:induction false} ReadFieldsText(v: Value, keys: seq<string>, i: nat, rest: string)
    requires v.Obj? && i <= |keys| && Supported(v)
    requires forall k :: k in keys <==> k in v.fields
    ensures ReadFields(FieldsText(v, keys, i) + "}" + rest, Seen(v.fields, keys[..i])) == Some((v, rest))
    decreases v, |keys| - i
  {
    hide Text, FieldsText, ReadValue, ReadFields, Quoted, Supported, MayFollow, Comma;
    var t, seen := FieldsText(v, keys, i) + "}" + rest, Seen(v.fields, keys[..i]);
    if i == |keys| {
      assert keys[..i] == keys && seen == v.fields;
      FieldsEnd(v, keys, rest);
      ReadBraceEnd(seen, rest);
    } else {
      var item := v.fields[keys[i]];
      var after := FieldsText(v, keys, i + 1) + "}" + rest;
      SeenSome(v.fields, keys, i);
      FieldsStep(v, keys, i, rest);
      SupportedField(v, keys[i]);
      ReadText(item, after);
      ReadField(i, keys[i], item, Text(item), after, seen);
      ReadFieldsText(v, keys, i + 1, rest);
      assert seen[keys[i] := item] == Seen(v.fields, keys[..i + 1]);
    }
  }

  lemma SupportedField(v: Value, key: string)
    requires v.Obj? && Supported(v) && key in v.fields
    ensures Supported(v.fields[key])
  {
  }

  lemma FieldsEnd(v: Value, keys: seq<string>, rest: string)
    requires v.Obj? && forall k | k in keys :: k in v.fields
    ensures FieldsText(v, keys, |keys|) + "}" + rest == "}" + rest
  {
  }

  lemma FieldsStep(v: Value, keys: seq<string>, i: nat, rest: string)
    requires v.Obj? && i < |keys| && forall k | k in keys :: k in v.fields
    ensures var after := FieldsText(v, keys, i + 1) + "}" + rest;
            && MayFollow(v.fields[keys[i]], after)
            && FieldsText(v, keys, i) + "}" + rest
            == Comma(i) + (Quoted(keys[i]) + (":" + (Text(v.fields[keys[i]]) + after)))
  {
    hide Text, Quoted, Comma, FieldsText;
    FieldsNoDigit(v, keys, i + 1, rest);
    FieldsUnfold(v, keys, i);
    Regroup(Comma(i), Quoted(keys[i]), Text(v.fields[keys[i]]), FieldsText(v, keys, i + 1), "}" + rest);
    Tail(FieldsText(v, keys, i), rest);
    Tail(FieldsText(v, keys, i + 1), rest);
  }

  lemma Tail(t: string, rest: string)
    ensures t + "}" + rest == t + ("}" + rest)
  {
  }

  lemma FieldsNoDigit(v: Value, keys: seq<string>, i: nat, rest: string)
    requires v.Obj? && 0 < i <= |keys| && forall k | k in keys :: k in v.fields
    ensures var after := FieldsText(v, keys, i) + "}" + rest; after != "" && !IsDigit(after[0])
  {
    hide Text, Quoted;
    var after := FieldsText(v, keys, i) + "}" + rest;
    assert after[0] == if i == |keys| then '}' else ',';
  }

  lemma FieldsUnfold(v: Value, keys: seq<string>, i: nat)
    requires v.Obj? && i < |keys| && forall k | k in keys :: k in v.fields
    ensures FieldsText(v, keys, i)
         == Comma(i) + Quoted(keys[i]) + ":" + Text(v.fields[keys[i]]) + FieldsText(v, keys, i + 1)
  {
  }

  lemma Regroup(a: string, b: string, d: string, e: string, f: string)
    ensures (a + b + ":" + d + e) + f == a + (b + (":" + (d + (e + f))))
  {
    assert a + b + ":" + d + e == (a + b + ":") + (d + e);
    assert ((a + b + ":") + (d + e)) + f == (a + b + ":") + (d + (e + f));
    assert (a + b + ":") + (d + (e + f)) == a + (b + (":" + (d + (e + f))));
  }

  lemma SeenSome(fields: map<string, Value>, keys: seq<string>, i: nat)
    requires i <= |keys| && forall k | k in keys :: k in fields
    ensures |Seen(fields, keys[..i])| > 0 <==> i > 0
  {
    if i > 0 {
      assert keys[..i][0] in Seen(fields, keys[..i]);
    }
  }

  lemma ReadBraceEnd(seen: map<string, Value>, rest: string)
    ensures ReadFields("}" + rest, seen) == Some((Obj(seen), rest))
  {
    assert ("}" + rest)[1..] == rest;
  }

  lemma ReadField(i: nat, key: string, item: Value, text: string, after: string, seen: map<string, Value>)
    requires ReadValue(text + after) == Some((item, after)) && (|seen| > 0 <==> i > 0)
    ensures ReadFields(Comma(i) + (Quoted(key) + (":" + (text + after))), seen) == ReadFields(after, seen[key := item])
  {
    hide ReadValue, Escaped, ReadString;
    var colon := ":" + (text + after);
    var q := Quoted(key) + colon;
    var t := Comma(i) + q;
    assert (if i == 0 then t else t[1..]) == q;
    assert q[1..] == Escaped(key) + "\"" + colon;
    ReadStringOfEscaped(key, colon);
    assert colon[1..] == text + after;
    assert t[0] == if i == 0 then '"' else ',';
  }

  /** Decoding the canonical bytes of a value returns exactly that value. */
  lemma DecodeBytes(v: Value)
    requires Supported(v)
    ensures Decode(Bytes(v)) == Some(v)
  {
    hide Text, ReadValue;
    FromUtf8OfUtf8(Text(v));
    ReadText(v, "");
    assert Text(v) + "" == Text(v);
  }

  /** Different values have different canonical bytes. */
  lemma BytesInjective(v: Value, w: Value)
    requires Supported(v) && Supported(w) && Bytes(v) == Bytes(w)
    ensures v == w
  {
    DecodeBytes(v);
    DecodeBytes(w);
  }
}
