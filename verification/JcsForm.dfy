/** The canonical form said in code points and in literal text. */
module JcsForm {
  import opened Utf
  import opened Jcs

  // ---- the order of members ----

  /** In UTF-16 a character beyond U+FFFF comes before those from U+E000 to U+FFFF. */
  predicate CharBefore(c: char, d: char) {
    var m, n := c as int, d as int;
    if m < 0x10000 && n >= 0x10000 then m < 0xE000
    else if m >= 0x10000 && n < 0x10000 then n >= 0xE000
    else m < n
  }

  /** At the first difference a is before b, or a is a proper prefix of b. */
  predicate Before(a: string, b: string) {
    exists n :: 0 <= n <= |a| && FirstDifference(a, b, n)
  }

  predicate FirstDifference(a: string, b: string, n: nat) {
    && n <= |a| && n < |b| && a[..n] == b[..n] && (n == |a| || CharBefore(a[n], b[n]))
  }

  lemma {:induction false} SameStart(u: seq<Unit>, x: seq<Unit>, y: seq<Unit>)
    ensures UnitsLess(u + x, u + y) == UnitsLess(x, y)
  {
    if u == [] {
      assert u + x == x && u + y == y;
    } else {
      SameStart(u[1..], x, y);
      assert (u + x)[1..] == u[1..] + x && (u + y)[1..] == u[1..] + y;
    }
  }

  lemma CharOrder(c: char, d: char, x: seq<Unit>, y: seq<Unit>)
    requires c != d
    ensures UnitsLess(Utf16Char(c) + x, Utf16Char(d) + y) == CharBefore(c, d)
  {
    var u, w := Utf16Char(c) + x, Utf16Char(d) + y;
    if c as int >= 0x10000 && d as int >= 0x10000 {
      var p, q := c as int - 0x10000, d as int - 0x10000;
      assert p == p / 1024 * 1024 + p % 1024 && q == q / 1024 * 1024 + q % 1024;
      assert u[1..][0] == 0xDC00 + p % 1024 && w[1..][0] == 0xDC00 + q % 1024;
    }
  }

  /** The order of the members is the order of the code points, but for those beyond U+FFFF. */
  lemma {:induction false} LessExactly(a: string, b: string)
    ensures Less(a, b) <==> Before(a, b)
  {
    hide Before, Utf16Char;
    if a == "" || b == "" {
      BeforeEmpty(a, b);
    } else if a[0] != b[0] {
      CharOrder(a[0], b[0], Utf16(a[1..]), Utf16(b[1..]));
      BeforeHeads(a, b);
    } else {
      LessExactly(a[1..], b[1..]);
      SameStart(Utf16Char(a[0]), Utf16(a[1..]), Utf16(b[1..]));
      BeforeTails(a, b);
    }
  }

  lemma BeforeEmpty(a: string, b: string)
    requires a == "" || b == ""
    ensures Before(a, b) <==> a == "" && b != ""
  {
    if a == "" && b != "" {
      assert FirstDifference(a, b, 0);
    }
  }

  lemma BeforeHeads(a: string, b: string)
    requires a != "" && b != "" && a[0] != b[0]
    ensures Before(a, b) <==> CharBefore(a[0], b[0])
  {
    if CharBefore(a[0], b[0]) {
      assert FirstDifference(a, b, 0);
    }
    if Before(a, b) {
      var n :| 0 <= n <= |a| && FirstDifference(a, b, n);
      assert n > 0 ==> a[..n][0] == b[..n][0];
    }
  }

  lemma BeforeTails(a: string, b: string)
    requires a != "" && b != "" && a[0] == b[0]
    ensures Before(a, b) <==> Before(a[1..], b[1..])
  {
    if Before(a, b) {
      var n :| 0 <= n <= |a| && FirstDifference(a, b, n);
      assert n > 0;
      assert a[1..][..n - 1] == a[..n][1..] && b[1..][..n - 1] == b[..n][1..];
      assert FirstDifference(a[1..], b[1..], n - 1);
    }
    if Before(a[1..], b[1..]) {
      var n :| 0 <= n <= |a[1..]| && FirstDifference(a[1..], b[1..], n);
      assert a[..n + 1] == [a[0]] + a[1..][..n] && b[..n + 1] == [b[0]] + b[1..][..n];
      assert FirstDifference(a, b, n + 1);
    }
  }

  // ---- escapes and numbers ----

  /** Every character is written as RFC 8785 section 3.2.2.2 says: seven short escapes, lower-case hex
      for the other controls, and anything else as it is. */
  lemma EscapesExactly(c: char)
    ensures c as int == 0x22 ==> Quoted([c]) == "\"\\\"\""
    ensures c as int == 0x5C ==> Quoted([c]) == "\"\\\\\""
    ensures c as int == 0x08 ==> Quoted([c]) == "\"\\b\""
    ensures c as int == 0x09 ==> Quoted([c]) == "\"\\t\""
    ensures c as int == 0x0A ==> Quoted([c]) == "\"\\n\""
    ensures c as int == 0x0C ==> Quoted([c]) == "\"\\f\""
    ensures c as int == 0x0D ==> Quoted([c]) == "\"\\r\""
    ensures c as int == 0x0F ==> Quoted([c]) == "\"\\u000f\""
    ensures c as int < 0x10 && c as int !in {0x08, 0x09, 0x0A, 0x0C, 0x0D} ==>
              Quoted([c]) == "\"\\u000" + ["0123456789abcdef"[c as int]] + "\""
    ensures 0x10 <= c as int < 0x20 ==> Quoted([c]) == "\"\\u001" + ["0123456789abcdef"[c as int - 0x10]] + "\""
    ensures c as int >= 0x20 && c != '"' && c != '\\' ==> Quoted([c]) == ['"', c, '"']
  {
    assert Escaped([c]) == EscapedChar(c) + Escaped([c][1..]);
  }

  lemma {:induction false} QuotedConcat(a: string, b: string)
    ensures Escaped(a + b) == Escaped(a) + Escaped(b)
  {
    hide EscapedChar;
    if a == "" {
      assert a + b == b;
    } else {
      QuotedConcat(a[1..], b);
      assert (a + b)[1..] == a[1..] + b;
    }
  }

  /** Numbers are written without leading zeros. */
  lemma {:induction false} DecimalShortest(n: nat)
    ensures Decimal(n) != "" && (Decimal(n)[0] == '0' <==> n == 0)
    ensures n == 0 ==> Decimal(n) == "0"
  {
    if n >= 10 {
      DecimalShortest(n / 10);
    }
  }
}
