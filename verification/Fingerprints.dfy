/** Keys in hexadecimal and the fingerprint of a member, and the order of fingerprints. */
module Fingerprints {
  import opened Wrappers
  import opened Utf
  import opened RosterWire

  // ---- writing hexadecimal ----

  /** Two digits for each byte, the higher half first; digits above nine as letters from `ten` on. */
  function Hex(b: seq<Byte>, ten: char): string
    requires ten == 'a' || ten == 'A'
  {
    if b == [] then "" else [Digit(b[0] / 16, ten), Digit(b[0] % 16, ten)] + Hex(b[1..], ten)
  }

  function Digit(n: nat, ten: char): char
    requires n < 16 && (ten == 'a' || ten == 'A')
  {
    if n < 10 then "0123456789"[n] else if ten == 'a' then "abcdef"[n - 10] else "ABCDEF"[n - 10]
  }

  lemma DigitReads(n: nat, ten: char)
    requires n < 16 && (ten == 'a' || ten == 'A')
    ensures Nibble(Digit(n, ten)) == Some(n)
  {
  }

  /** Bytes written in hexadecimal, in either case, read back. */
  lemma {:induction false} HexReads(b: seq<Byte>, ten: char)
    requires ten == 'a' || ten == 'A'
    ensures FromHex(Hex(b, ten)) == Some(b)
  {
    hide Nibble, Digit;
    if b != [] {
      var s := Hex(b, ten);
      HexReads(b[1..], ten);
      DigitReads(b[0] / 16, ten);
      DigitReads(b[0] % 16, ten);
      assert s[2..] == Hex(b[1..], ten);
      assert b == [b[0]] + b[1..];
    }
  }

  // ---- reading it ----

  predicate IsHexDigit(c: char) {
    c in "0123456789abcdefABCDEF"
  }

  lemma NibbleExactly(c: char)
    ensures Nibble(c).Some? <==> IsHexDigit(c)
    ensures Nibble(c).Some? ==> Nibble(c).value < 16
  {
    hide *;
    assert Nibble(c).Some? ==> Nibble(c).value < 16 by { NibbleSmall(c); }
    NibbleDigit(c);
  }

  lemma NibbleSmall(c: char)
    ensures Nibble(c).Some? ==> Nibble(c).value < 16
  {
  }

  lemma NibbleDigit(c: char)
    ensures Nibble(c).Some? <==> IsHexDigit(c)
  {
    var digits := "0123456789abcdefABCDEF";
    if '0' <= c <= '9' {
      assert digits[c as int - '0' as int] == c;
    } else if 'a' <= c <= 'f' {
      assert digits[10 + c as int - 'a' as int] == c;
    } else if 'A' <= c <= 'F' {
      assert digits[16 + c as int - 'A' as int] == c;
    }
  }

  /** Exactly the texts of an even number of hexadecimal digits can be read, two digits a byte. */
  lemma {:induction false} FromHexExactly(s: string)
    ensures FromHex(s).Some? <==> |s| % 2 == 0 && forall i | 0 <= i < |s| :: IsHexDigit(s[i])
    ensures FromHex(s).Some? ==> 2 * |FromHex(s).value| == |s|
  {
    hide Nibble, IsHexDigit;
    if |s| == 1 {
    } else if s != "" {
      NibbleExactly(s[0]);
      NibbleExactly(s[1]);
      FromHexExactly(s[2..]);
      assert forall i | 2 <= i < |s| :: s[i] == s[2..][i - 2];
    }
  }

  predicate IsKey(s: string) {
    |s| == 64 && forall i | 0 <= i < 64 :: IsHexDigit(s[i])
  }

  /** A member has a fingerprint exactly if both keys are 64 hexadecimal digits. */
  lemma FingerprintExactly(m: Member, sha: Sha)
    ensures Fingerprint(m, sha).Some? <==> IsKey(m.x25519) && IsKey(m.ed25519)
  {
    hide IsHexDigit, FromHex;
    FromHexExactly(m.x25519);
    FromHexExactly(m.ed25519);
  }

  /** It is the hash of the X25519 key followed by the Ed25519 key, whatever case they are written in,
      and does not depend on the name. */
  lemma FingerprintOfKeys(name: string, x: seq<Byte>, ed: seq<Byte>, t: char, u: char, sha: Sha)
    requires |x| == 32 && |ed| == 32 && t in "aA" && u in "aA"
    ensures Fingerprint(Member(name, Hex(x, t), Hex(ed, u)), sha) == Some(sha(x + ed))
  {
    hide FromHex, Hex;
    HexReads(x, t);
    HexReads(ed, u);
  }

  // ---- the order ----

  predicate FirstLess(a: string, b: string, n: nat) {
    && n <= |a| && n < |b| && a[..n] == b[..n] && (n == |a| || a[n] < b[n])
  }

  /** Fingerprints are ordered by their first difference, a proper prefix coming first. */
  lemma {:induction false} TextLessExactly(a: string, b: string)
    ensures TextLess(a, b) <==> exists n :: 0 <= n <= |a| && FirstLess(a, b, n)
  {
    if a != "" && b != "" && a[0] == b[0] {
      TextLessExactly(a[1..], b[1..]);
      if TextLess(a[1..], b[1..]) {
        var n :| 0 <= n <= |a[1..]| && FirstLess(a[1..], b[1..], n);
        assert a[..n + 1] == [a[0]] + a[1..][..n] && b[..n + 1] == [b[0]] + b[1..][..n];
        assert FirstLess(a, b, n + 1);
      }
      if n :| 0 <= n <= |a| && FirstLess(a, b, n) {
        assert n > 0;
        assert a[1..][..n - 1] == a[..n][1..] && b[1..][..n - 1] == b[..n][1..];
        assert FirstLess(a[1..], b[1..], n - 1);
      }
    } else if TextLess(a, b) {
      assert FirstLess(a, b, 0);
    } else {
      NotFirstLess(a, b);
    }
  }

  lemma NotFirstLess(a: string, b: string)
    requires b == "" || (a != "" && b[0] < a[0])
    ensures forall n :: 0 <= n <= |a| ==> !FirstLess(a, b, n)
  {
    forall n | 0 <= n <= |a|
      ensures !FirstLess(a, b, n)
    {
      if 0 < n <= |b| {
        assert a[..n][0] == a[0] && b[..n][0] == b[0];
      }
    }
  }
}
