/** The bech32 encoder, and the decoder of BIP-173 that undoes it. */
module Bech32 {
  import opened Wrappers
  import B = BitGroups
  import C = Checksum

  const CHARSET := "qpzry9x8gf2tvdw0s3jn54khce6mua7l"

  datatype Error =
    | Data(error: B.Error)
    | EmptyHrp
    | HrpCharacter
    | MixedCase
    | NoSeparator
    | TooShort
    | NoSymbol
    | BadChecksum

  // ---- letters ----

  function LowerChar(c: char): char {
    if 'A' <= c <= 'Z' then (c as int + 32) as char else c
  }

  function UpperChar(c: char): char {
    if 'a' <= c <= 'z' then (c as int - 32) as char else c
  }

  function Lower(s: string): (t: string)
    ensures |t| == |s|
  {
    seq(|s|, i requires 0 <= i < |s| => LowerChar(s[i]))
  }

  function Upper(s: string): (t: string)
    ensures |t| == |s|
  {
    seq(|s|, i requires 0 <= i < |s| => UpperChar(s[i]))
  }

  predicate Printable(s: string) {
    forall i | 0 <= i < |s| :: 33 <= s[i] as int <= 126
  }

  predicate ValidHrp(hrp: string) {
    hrp != "" && Printable(hrp) && (Upper(hrp) == hrp || Lower(hrp) == hrp)
  }

  function CharOctet(c: char): bv8 {
    if c as int < 256 then c as int as bv8 else 0
  }

  function Octets(s: string): (o: seq<bv8>)
    ensures |o| == |s|
  {
    seq(|s|, i requires 0 <= i < |s| => CharOctet(s[i]))
  }

  function ByteOctet(v: B.Byte): bv8 {
    v as bv8
  }

  function DataOctets(d: seq<B.Byte>): (o: seq<bv8>)
    ensures |o| == |d|
  {
    seq(|d|, i requires 0 <= i < |d| => ByteOctet(d[i]))
  }

  function OctetByte(v: bv8): B.Byte {
    v as int
  }

  function OctetData(o: seq<bv8>): (d: seq<B.Byte>)
    ensures |d| == |o|
  {
    seq(|o|, i requires 0 <= i < |o| => OctetByte(o[i]))
  }

  // ---- symbols ----

  predicate Symbols(values: seq<B.Byte>) {
    forall i | 0 <= i < |values| :: values[i] < 32
  }

  function Char(v: B.Byte): char
    requires v < 32
  {
    CHARSET[v]
  }

  function Chars(values: seq<B.Byte>): (s: string)
    requires Symbols(values)
    ensures |s| == |values|
  {
    seq(|values|, i requires 0 <= i < |values| => Char(values[i]))
  }

  /** The place of a character in the table, 32 if it has none. */
  function Rank(c: char): B.Byte {
    Place(c, 0)
  }

  function Place(c: char, from: nat): (r: B.Byte)
    requires from <= 32
    ensures from <= r <= 32 && (r < 32 ==> CHARSET[r] == c)
    ensures forall i | from <= i < r :: CHARSET[i] != c
    decreases 32 - from
  {
    if from == 32 || CHARSET[from] == c then from else Place(c, from + 1)
  }

  function Ranks(s: string): (values: seq<B.Byte>)
    ensures |values| == |s|
  {
    seq(|s|, i requires 0 <= i < |s| => Rank(s[i]))
  }

  lemma CharsetDistinct(i: nat, j: nat)
    requires i < j < 32
    ensures CHARSET[i] != CHARSET[j]
  {
  }

  lemma CharsetPlain(i: nat)
    requires i < 32
    ensures CHARSET[i] != '1' && LowerChar(CHARSET[i]) == CHARSET[i] && 33 <= CHARSET[i] as int <= 126
  {
  }

  // ---- encoding ----

  /** What Encode writes before it puts the whole text in the case of the human-readable part. */
  function Body(hrp: string, values: seq<B.Byte>): (text: string)
    requires Symbols(values)
  {
    hide *;
    var check := OctetData(C.ChecksumOf(Octets(Lower(hrp)), DataOctets(values)));
    CheckSymbols(Lower(hrp), values);
    Lower(hrp) + "1" + Chars(values) + Chars(check)
  }

  lemma CheckSymbols(hrp: string, values: seq<B.Byte>)
    ensures |C.ChecksumOf(Octets(hrp), DataOctets(values))| == 6
    ensures Symbols(OctetData(C.ChecksumOf(Octets(hrp), DataOctets(values))))
    ensures DataOctets(OctetData(C.ChecksumOf(Octets(hrp), DataOctets(values))))
         == C.ChecksumOf(Octets(hrp), DataOctets(values))
    ensures C.Verifies(Octets(hrp), DataOctets(values) + C.ChecksumOf(Octets(hrp), DataOctets(values)))
  {
    hide C.Verifies, C.ChecksumOf;
    var sum := C.ChecksumOf(Octets(hrp), DataOctets(values));
    C.ChecksumVerifies(Octets(hrp), DataOctets(values));
    forall i | 0 <= i < 6
      ensures OctetByte(sum[i]) < 32 && ByteOctet(OctetByte(sum[i])) == sum[i]
    {
      ThereAndBack(sum[i]);
    }
  }

  lemma ThereAndBack(v: bv8)
    requires v < 32
    ensures OctetByte(v) < 32 && ByteOctet(OctetByte(v)) == v
  {
  }

  lemma FiveBitSymbols(data: seq<B.Byte>)
    ensures B.Regrouped(data, 8, 5, true).Ok? && Symbols(B.Regrouped(data, 8, 5, true).value)
  {
    hide B.Regrouped;
    B.BytesRoundTrip(data);
    var values := B.Regrouped(data, 8, 5, true).value;
    forall i | 0 <= i < |values|
      ensures values[i] < 32
    {
      assert values[i] in values;
    }
  }

  function Encoded(hrp: string, data: seq<B.Byte>): Result<string, Error> {
    FiveBitSymbols(data);
    if hrp == "" then Err(EmptyHrp)
    else if !Printable(hrp) then Err(HrpCharacter)
    else if !ValidHrp(hrp) then Err(MixedCase)
    else
      var text := Body(hrp, B.Regrouped(data, 8, 5, true).value);
      Ok(if Lower(hrp) == hrp then text else Upper(text))
  }

  predicate IsLower(c: char) {
    'a' <= c <= 'z'
  }

  predicate IsUpper(c: char) {
    'A' <= c <= 'Z'
  }

  /** Each refusal has its own condition on the human-readable part: it is empty, it has a character
      outside 33 to 126, or it has letters of both cases.  The data is never refused. */
  lemma EncodeRefusals(hrp: string, data: seq<B.Byte>)
    ensures Encoded(hrp, data) == Err(EmptyHrp) <==> |hrp| == 0
    ensures Encoded(hrp, data) == Err(HrpCharacter)
       <==> |hrp| > 0 && exists i :: 0 <= i < |hrp| && !(33 <= hrp[i] as int <= 126)
    ensures Encoded(hrp, data) == Err(MixedCase)
       <==> && |hrp| > 0 && (forall i | 0 <= i < |hrp| :: 33 <= hrp[i] as int <= 126)
            && exists i, j :: 0 <= i < |hrp| && 0 <= j < |hrp| && IsLower(hrp[i]) && IsUpper(hrp[j])
    ensures Encoded(hrp, data).Err? ==>
              Encoded(hrp, data) == Err(EmptyHrp) || Encoded(hrp, data) == Err(HrpCharacter)
              || Encoded(hrp, data) == Err(MixedCase)
  {
    hide B.Regrouped, Body;
    CasesExactly(hrp);
  }

  lemma CasesExactly(hrp: string)
    ensures Upper(hrp) == hrp || Lower(hrp) == hrp
       <==> !exists i, j :: 0 <= i < |hrp| && 0 <= j < |hrp| && IsLower(hrp[i]) && IsUpper(hrp[j])
  {
    UpperExactly(hrp);
    LowerExactly(hrp);
  }

  lemma UpperExactly(s: string)
    ensures Upper(s) == s <==> forall i | 0 <= i < |s| :: !IsLower(s[i])
  {
    if Upper(s) == s {
      assert forall i | 0 <= i < |s| :: UpperChar(s[i]) == s[i];
    }
  }

  lemma LowerExactly(s: string)
    ensures Lower(s) == s <==> forall i | 0 <= i < |s| :: !IsUpper(s[i])
  {
    if Lower(s) == s {
      assert forall i | 0 <= i < |s| :: LowerChar(s[i]) == s[i];
    }
  }

  method Encode(hrp: string, data: seq<B.Byte>) returns (r: Result<string, Error>)
    ensures r == Encoded(hrp, data)
  {
    hide B.Regrouped, C.ChecksumOf, Char;
    FiveBitSymbols(data);
    var regrouped := B.ConvertBits(data, 8, 5, true);
    var values := regrouped.value;
    if |hrp| < 1 {
      return Err(EmptyHrp);
    }
    for p := 0 to |hrp|
      invariant Printable(hrp[..p])
    {
      if hrp[p] as int < 33 || hrp[p] as int > 126 {
        return Err(HrpCharacter);
      }
    }
    if Upper(hrp) != hrp && Lower(hrp) != hrp {
      return Err(MixedCase);
    }
    var wasLower := Lower(hrp) == hrp;
    var lhrp := Lower(hrp);
    var text := lhrp + "1";
    text := Write(text, values);
    var check := C.CreateChecksum(Octets(lhrp), DataOctets(values));
    CheckSymbols(lhrp, values);
    text := Write(text, OctetData(check));
    assert text == Body(hrp, values);
    return Ok(if wasLower then text else Upper(text));
  }

  /** One character of the table for each value. */
  method Write(before: string, values: seq<B.Byte>) returns (text: string)
    requires Symbols(values)
    ensures text == before + Chars(values)
  {
    hide Char;
    text := before;
    for k := 0 to |values|
      invariant text == before + Chars(values)[..k]
    {
      text := text + [Char(values[k])];
    }
    assert Chars(values)[..|values|] == Chars(values);
  }

  // ---- decoding ----

  /** The last separator; the table has no '1', so it ends the human-readable part. */
  function LastOne(s: string): (at: Option<nat>)
    ensures at.Some? ==> at.value < |s| && s[at.value] == '1'
  {
    if s == "" then None
    else if s[|s| - 1] == '1' then Some(|s| - 1)
    else LastOne(s[..|s| - 1])
  }

  /** The decoder of BIP-173, but for its limit of 90 characters, which Encode does not keep either. */
  function Decoded(text: string): Result<(string, seq<B.Byte>), Error> {
    var s := Lower(text);
    :- Need(Upper(text) == text || s == text, MixedCase);
    var at := LastOne(s);
    :- Need(at.Some?, NoSeparator);
    var hrp, symbols := s[..at.value], s[at.value + 1..];
    :- Need(hrp != "", EmptyHrp);
    :- Need(Printable(hrp), HrpCharacter);
    :- Need(|symbols| >= 6, TooShort);
    var values := Ranks(symbols);
    :- Need(Symbols(values), NoSymbol);
    :- Need(C.Verifies(Octets(hrp), DataOctets(values)), BadChecksum);
    match B.Regrouped(values[..|values| - 6], 5, 8, false)
    case Ok(data) => Ok((hrp, data))
    case Err(e) => Err(Data(e))
  }

  // ---- decoding undoes encoding ----

  lemma RankOfChar(v: B.Byte)
    requires v < 32
    ensures Rank(Char(v)) == v
  {
    var r := Rank(Char(v));
    if r < v {
      CharsetDistinct(r, v);
    }
  }

  lemma RanksOfChars(values: seq<B.Byte>)
    requires Symbols(values)
    ensures Ranks(Chars(values)) == values
  {
    hide Rank, Char;
    forall i | 0 <= i < |values|
      ensures Rank(Char(values[i])) == values[i]
    {
      RankOfChar(values[i]);
    }
  }

  lemma CharsPlain(values: seq<B.Byte>)
    requires Symbols(values)
    ensures '1' !in Chars(values) && Lower(Chars(values)) == Chars(values)
  {
    forall i | 0 <= i < |values|
      ensures Char(values[i]) != '1' && LowerChar(Char(values[i])) == Char(values[i])
    {
      CharsetPlain(values[i]);
    }
  }

  lemma {:induction false} LastOneIs(a: string, b: string)
    requires '1' !in b
    ensures LastOne(a + "1" + b) == Some(|a|)
  {
    var s := a + "1" + b;
    if b == "" {
      assert s[|s| - 1] == '1';
    } else {
      LastOneIs(a, b[..|b| - 1]);
      assert s[..|s| - 1] == a + "1" + b[..|b| - 1];
      assert s[|s| - 1] == b[|b| - 1];
    }
  }

  lemma CaseLaws(s: string)
    ensures Lower(Lower(s)) == Lower(s) && Upper(Upper(s)) == Upper(s) && Lower(Upper(s)) == Lower(s)
  {
    forall i | 0 <= i < |s|
      ensures LowerChar(LowerChar(s[i])) == LowerChar(s[i])
      ensures UpperChar(UpperChar(s[i])) == UpperChar(s[i])
      ensures LowerChar(UpperChar(s[i])) == LowerChar(s[i])
    {
    }
  }

  lemma LowerConcat(a: string, b: string)
    ensures Lower(a + b) == Lower(a) + Lower(b)
  {
  }

  lemma LowerPrintable(s: string)
    requires Printable(s)
    ensures Printable(Lower(s))
  {
  }

  lemma DataOctetsConcat(u: seq<B.Byte>, v: seq<B.Byte>)
    ensures DataOctets(u + v) == DataOctets(u) + DataOctets(v)
  {
  }

  lemma CharsConcat(u: seq<B.Byte>, v: seq<B.Byte>)
    requires Symbols(u) && Symbols(v)
    ensures Symbols(u + v) && Chars(u + v) == Chars(u) + Chars(v)
  {
  }

  /** A lower-case text of the right shape decodes to what its parts say. */
  lemma DecodedParts(hrp: string, values: seq<B.Byte>, text: string)
    requires hrp != "" && Printable(hrp) && Lower(hrp) == hrp && Symbols(values) && |values| >= 6
    requires Lower(text) == hrp + "1" + Chars(values) && (Upper(text) == text || Lower(text) == text)
    ensures Decoded(text) ==
            if !C.Verifies(Octets(hrp), DataOctets(values)) then Err(BadChecksum)
            else match B.Regrouped(values[..|values| - 6], 5, 8, false)
              case Ok(data) => Ok((hrp, data))
              case Err(e) => Err(Data(e))
  {
    hide C.Verifies, B.Regrouped, Rank, Char, LastOne, Octets;
    CharsPlain(values);
    RanksOfChars(values);
    LastOneIs(hrp, Chars(values));
    var s := hrp + "1" + Chars(values);
    assert s[..|hrp|] == hrp && s[|hrp| + 1..] == Chars(values);
  }

  /** Encode succeeds on exactly the valid human-readable parts, and what it writes decodes to
      that part in lower case and the same bytes. */
  lemma DecodeEncode(hrp: string, data: seq<B.Byte>)
    ensures Encoded(hrp, data).Ok? <==> ValidHrp(hrp)
    ensures ValidHrp(hrp) ==> Decoded(Encoded(hrp, data).value) == Ok((Lower(hrp), data))
  {
    hide C.Verifies, C.ChecksumOf, B.Regrouped, Decoded, Chars, Octets, DataOctets, OctetData;
    if ValidHrp(hrp) {
      FiveBitSymbols(data);
      B.BytesRoundTrip(data);
      var values := B.Regrouped(data, 8, 5, true).value;
      var low := Lower(hrp);
      CaseLaws(hrp);
      LowerPrintable(hrp);
      CheckSymbols(low, values);
      var check := OctetData(C.ChecksumOf(Octets(low), DataOctets(values)));
      CharsConcat(values, check);
      DataOctetsConcat(values, check);
      BodyIsLower(low, values + check);
      var text := low + "1" + Chars(values + check);
      assert Body(hrp, values) == text;
      CaseLaws(text);
      var written := Encoded(hrp, data).value;
      assert (values + check)[..|values + check| - 6] == values;
      DecodedParts(low, values + check, written);
    }
  }

  lemma BodyIsLower(low: string, all: seq<B.Byte>)
    requires Lower(low) == low && Symbols(all)
    ensures Lower(low + "1" + Chars(all)) == low + "1" + Chars(all)
  {
    hide Char;
    CharsPlain(all);
    LowerConcat(low, "1");
    LowerConcat(low + "1", Chars(all));
  }

  // ---- one wrong symbol ----

  lemma CharOfRank(c: char)
    requires c in CHARSET
    ensures Rank(c) < 32 && Char(Rank(c)) == c
  {
  }

  lemma OctetBack(v: int)
    requires 0 <= v < 32
    ensures (v as bv8) as int == v
  {
  }

  lemma WrongSymbolNoticed(hrp: string, values: seq<B.Byte>, j: nat, r: B.Byte)
    requires j < |values| && Symbols(values) && r < 32 && r != values[j]
    requires C.Verifies(Octets(hrp), DataOctets(values))
    ensures !C.Verifies(Octets(hrp), DataOctets(values[j := r]))
  {
    hide C.Verifies, Octets;
    OctetBack(r);
    OctetBack(values[j]);
    assert ByteOctet(r) != ByteOctet(values[j]);
    hide ByteOctet;
    C.NoticesOneError(Octets(hrp), DataOctets(values), DataOctets(values[j := r]), j);
  }

  lemma CharsOfRanks(symbols: string)
    requires Symbols(Ranks(symbols))
    ensures Chars(Ranks(symbols)) == symbols
  {
  }

  /** A text in one case decodes as its lower-case form. */
  lemma CaseDoesNotMatter(text: string)
    requires Upper(text) == text || Lower(text) == text
    ensures Decoded(text) == Decoded(Lower(text))
  {
    hide C.Verifies, B.Regrouped, LastOne, Ranks, Octets, DataOctets, Printable, Symbols, Lower, Upper;
    CaseLaws(text);
  }

  predicate OneCase(text: string) {
    Upper(text) == text || Lower(text) == text
  }

  /** In an accepted text, whatever its case, any one symbol after the separator replaced by another
      makes the decoder report the checksum, or the mixed case if the new symbol is in the other. */
  lemma OneWrongSymbol(text: string, i: nat, c: char)
    requires Decoded(text).Ok?
    requires LastOne(Lower(text)).Some? && LastOne(Lower(text)).value < i < |text|
    requires LowerChar(c) in CHARSET && LowerChar(c) != LowerChar(text[i])
    ensures Decoded(text[i := c]) == if OneCase(text[i := c]) then Err(BadChecksum) else Err(MixedCase)
  {
    hide LastOne;
    var low := Lower(text);
    CaseDoesNotMatter(text);
    CaseLaws(text);
    OneWrongLowerSymbol(low, i, LowerChar(c));
    assert Lower(text[i := c]) == low[i := LowerChar(c)];
    if OneCase(text[i := c]) {
      CaseDoesNotMatter(text[i := c]);
    }
  }

  lemma OneWrongLowerSymbol(text: string, i: nat, c: char)
    requires Decoded(text).Ok? && Lower(text) == text
    requires LastOne(text).Some? && LastOne(text).value < i < |text|
    requires c in CHARSET && c != text[i]
    ensures Decoded(text[i := c]) == Err(BadChecksum)
  {
    hide C.Verifies, B.Regrouped, Rank, Char, LastOne, Octets, DataOctets;
    var at := LastOne(text).value;
    var hrp, symbols := text[..at], text[at + 1..];
    var values, j := Ranks(symbols), i - at - 1;
    CharsOfRanks(symbols);
    CharOfRank(c);
    assert text == hrp + "1" + symbols;
    assert hrp == Lower(text)[..at];
    WrongSymbolNoticed(hrp, values, j, Rank(c));
    var wrong := values[j := Rank(c)];
    assert text[i := c] == hrp + "1" + Chars(wrong) by {
      assert Chars(wrong) == symbols[j := c];
    }
    BodyIsLower(hrp, wrong);
    DecodedParts(hrp, wrong, text[i := c]);
  }
}
