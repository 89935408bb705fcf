/** UTF-8 and UTF-16 of strings of Unicode scalar values. */
module Utf {
  import opened Wrappers

  type Byte = b: int | 0 <= b < 256

  // ---- UTF-8 ----

  function Utf8Char(c: char): (b: seq<Byte>)
    ensures b != []
  {
    var r := c as int;
    if r < 0x80 then [r]
    else if r < 0x800 then [0xC0 + r / 64, 0x80 + r % 64]
    else if r < 0x10000 then [0xE0 + r / 4096, 0x80 + r / 64 % 64, 0x80 + r % 64]
    else [0xF0 + r / 262144, 0x80 + r / 4096 % 64, 0x80 + r / 64 % 64, 0x80 + r % 64]
  }

  function Utf8(s: string): seq<Byte> {
    if s == "" then [] else Utf8Char(s[0]) + Utf8(s[1..])
  }

  /** How many bytes the character with this first byte takes; 0 for no first byte. */
  function Width(first: Byte): nat {
    if first < 0x80 then 1
    else if first < 0xC0 then 0
    else if first < 0xE0 then 2
    else if first < 0xF0 then 3
    else 4
  }

  function Scalar(b: seq<Byte>): int
    requires b != [] && |b| == Width(b[0])
  {
    var x: int := b[0];
    if |b| == 1 then x
    else if |b| == 2 then (x - 0xC0) * 64 + Tail(b[1])
    else if |b| == 3 then (x - 0xE0) * 4096 + Tail(b[1]) * 64 + Tail(b[2])
    else (x - 0xF0) * 262144 + Tail(b[1]) * 4096 + Tail(b[2]) * 64 + Tail(b[3])
  }

  function Tail(b: Byte): int {
    (b as int) - 0x80
  }

  predicate IsScalar(r: int) {
    0 <= r < 0xD800 || 0xE000 <= r < 0x11_0000
  }

  /** Reads UTF-8 back; it need only be right on what Utf8 writes. */
  function FromUtf8(b: seq<Byte>): Option<string> {
    if b == [] then Some("")
    else
      var n := Width(b[0]);
      if n == 0 || |b| < n || !IsScalar(Scalar(b[..n])) then None
      else match FromUtf8(b[n..])
        case None => None
        case Some(rest) => Some([Scalar(b[..n]) as char] + rest)
  }

  lemma Utf8CharReads(c: char)
    ensures |Utf8Char(c)| == Width(Utf8Char(c)[0])
    ensures Scalar(Utf8Char(c)) == c as int
  {
    var r := c as int;
    if 0x800 <= r < 0x10000 {
      assert r == r / 4096 * 4096 + r / 64 % 64 * 64 + r % 64;
    } else if 0x10000 <= r {
      assert r / 64 == r / 4096 * 64 + r / 64 % 64;
      assert r / 4096 == r / 262144 * 64 + r / 4096 % 64;
    }
  }

  lemma {:induction false} FromUtf8OfUtf8(s: string)
    ensures FromUtf8(Utf8(s)) == Some(s)
  {
    if s != "" {
      FromUtf8OfUtf8(s[1..]);
      Utf8CharReads(s[0]);
      var b, n := Utf8(s), |Utf8Char(s[0])|;
      assert b[..n] == Utf8Char(s[0]) && b[n..] == Utf8(s[1..]);
      assert s == [s[0]] + s[1..];
    }
  }

  lemma {:induction false} Utf8Concat(a: string, b: string)
    ensures Utf8(a + b) == Utf8(a) + Utf8(b)
  {
    hide Utf8Char;
    if a == "" {
      assert a + b == b;
    } else {
      Utf8Concat(a[1..], b);
      assert (a + b)[1..] == a[1..] + b;
      assert Utf8(a + b) == Utf8Char(a[0]) + Utf8(a[1..] + b);
      assert Utf8Char(a[0]) + (Utf8(a[1..]) + Utf8(b)) == (Utf8Char(a[0]) + Utf8(a[1..])) + Utf8(b);
    }
  }

  lemma Utf8One(c: char)
    ensures Utf8([c]) == Utf8Char(c)
  {
    assert Utf8([c]) == Utf8Char(c) + Utf8([c][1..]);
  }

  // ---- UTF-16 ----

  type Unit = u: int | 0 <= u < 0x10000

  function Utf16Char(c: char): (u: seq<Unit>)
    ensures u != []
  {
    var r := c as int;
    if r < 0x10000 then [r] else [0xD800 + (r - 0x10000) / 1024, 0xDC00 + (r - 0x10000) % 1024]
  }

  function Utf16(s: string): seq<Unit> {
    if s == "" then [] else Utf16Char(s[0]) + Utf16(s[1..])
  }

  lemma Utf16CharPrefix(c: char, d: char, x: seq<Unit>, y: seq<Unit>)
    requires Utf16Char(c) + x == Utf16Char(d) + y
    ensures c == d && x == y
  {
    var u, w := Utf16Char(c) + x, Utf16Char(d) + y;
    assert u[0] == Utf16Char(c)[0] && w[0] == Utf16Char(d)[0];
    assert |Utf16Char(c)| == |Utf16Char(d)|;
    if |Utf16Char(c)| == 2 {
      assert u[1] == Utf16Char(c)[1] && w[1] == Utf16Char(d)[1];
      var p, q := c as int - 0x10000, d as int - 0x10000;
      assert p == p / 1024 * 1024 + p % 1024 && q == q / 1024 * 1024 + q % 1024;
    }
    assert x == u[|Utf16Char(c)|..] && y == w[|Utf16Char(d)|..];
  }

  lemma {:induction false} Utf16Injective(a: string, b: string)
    requires Utf16(a) == Utf16(b)
    ensures a == b
  {
    if a != "" && b != "" {
      Utf16CharPrefix(a[0], b[0], Utf16(a[1..]), Utf16(b[1..]));
      Utf16Injective(a[1..], b[1..]);
      assert a == [a[0]] + a[1..] && b == [b[0]] + b[1..];
    }
  }
}
