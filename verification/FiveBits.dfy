/** Regrouping bytes into five-bit symbols, said in plain numbers. */
module FiveBits {
  import opened Wrappers
  import B = BitGroups

  /** Five bytes are eight symbols. */
  function Eight(a: B.Byte, b: B.Byte, c: B.Byte, d: B.Byte, e: B.Byte): (s: seq<B.Byte>)
    ensures |s| == 8
  {
    [a / 8, a % 8 * 4 + b / 64, b / 2 % 32, b % 2 * 16 + c / 16, c % 16 * 2 + d / 128, d / 4 % 32, d % 4 * 8 + e / 32,
     e % 32]
  }

  // ---- bits of numbers ----

  lemma BitsNext(x: nat, n: nat)
    ensures B.Bits(x, n + 1) == B.Bits(x / 2, n) + [x % 2 == 1]
  {
  }

  lemma BitsFive(x: nat)
    ensures B.Bits(x, 5) == [x / 16 % 2 == 1, x / 8 % 2 == 1, x / 4 % 2 == 1, x / 2 % 2 == 1, x % 2 == 1]
  {
    hide B.Bits;
    BitsNext(x, 4);
    BitsNext(x / 2, 3);
    BitsNext(x / 4, 2);
    BitsNext(x / 8, 1);
    BitsNext(x / 16, 0);
    assert B.Bits(x / 32, 0) == [];
  }

  lemma AllCons(x: B.Byte, rest: seq<B.Byte>, w: nat)
    ensures B.AllBits([x] + rest, w) == B.Bits(x, w) + B.AllBits(rest, w)
  {
    assert ([x] + rest)[1..] == rest;
  }

  lemma AllFive(a: B.Byte, b: B.Byte, c: B.Byte, d: B.Byte, e: B.Byte)
    ensures B.AllBits([a, b, c, d, e], 8)
         == B.Bits(a, 8) + (B.Bits(b, 8) + (B.Bits(c, 8) + (B.Bits(d, 8) + B.Bits(e, 8))))
  {
    hide B.Bits;
    AllCons(a, [b, c, d, e], 8);
    AllCons(b, [c, d, e], 8);
    AllCons(c, [d, e], 8);
    AllCons(d, [e], 8);
    AllCons(e, [], 8);
    assert [a, b, c, d, e] == [a] + [b, c, d, e];
    assert [b, c, d, e] == [b] + [c, d, e];
    assert [c, d, e] == [c] + [d, e];
    assert [d, e] == [d] + [e];
    assert [e] == [e] + [];
  }

  lemma AllEight(s: seq<B.Byte>)
    requires |s| == 8
    ensures B.AllBits(s, 5)
         == B.Bits(s[0], 5) + (B.Bits(s[1], 5) + (B.Bits(s[2], 5) + (B.Bits(s[3], 5) + (B.Bits(s[4], 5)
            + (B.Bits(s[5], 5) + (B.Bits(s[6], 5) + B.Bits(s[7], 5)))))))
  {
    hide B.Bits;
    AllCons(s[0], s[1..], 5);
    AllCons(s[1], s[2..], 5);
    AllCons(s[2], s[3..], 5);
    AllCons(s[3], s[4..], 5);
    AllCons(s[4], s[5..], 5);
    AllCons(s[5], s[6..], 5);
    AllCons(s[6], s[7..], 5);
    AllCons(s[7], [], 5);
    assert s == [s[0]] + s[1..];
    assert s[1..] == [s[1]] + s[2..];
    assert s[2..] == [s[2]] + s[3..];
    assert s[3..] == [s[3]] + s[4..];
    assert s[4..] == [s[4]] + s[5..];
    assert s[5..] == [s[5]] + s[6..];
    assert s[6..] == [s[6]] + s[7..];
    assert s[7..] == [s[7]] + [];
  }

  lemma Recut(a: seq<bool>, b: seq<bool>, c: seq<bool>, d: seq<bool>, e: seq<bool>)
    requires |a| == |b| == |c| == |d| == |e| == 8
    ensures a + (b + (c + (d + e)))
         == a[..5] + ((a[5..] + b[..2]) + (b[2..7] + ((b[7..] + c[..4]) + ((c[4..] + d[..1])
            + (d[1..6] + ((d[6..] + e[..3]) + e[3..]))))))
  {
    var de := d[1..6] + ((d[6..] + e[..3]) + e[3..]);
    assert d + e == d[..1] + de;
    var cd := (c[4..] + d[..1]) + de;
    assert c + (d + e) == c[..4] + cd;
    var bc := b[2..7] + ((b[7..] + c[..4]) + cd);
    assert b + (c + (d + e)) == b[..2] + bc;
  }

  function W(b: bool): nat {
    if b then 1 else 0
  }

  /** A byte from its bits. */
  function Byte(t: seq<bool>): nat
    requires |t| == 8
  {
    128 * W(t[0]) + 64 * W(t[1]) + 32 * W(t[2]) + 16 * W(t[3]) + 8 * W(t[4]) + 4 * W(t[5]) + 2 * W(t[6]) + W(t[7])
  }

  function Symbol(t: seq<bool>): nat
    requires |t| == 5
  {
    16 * W(t[0]) + 8 * W(t[1]) + 4 * W(t[2]) + 2 * W(t[3]) + W(t[4])
  }

  lemma By2(h: nat, l: nat)
    requires l < 2
    ensures (2 * h + l) / 2 == h && (2 * h + l) % 2 == l
  {
  }

  lemma By4(h: nat, l: nat)
    requires l < 4
    ensures (4 * h + l) / 4 == h && (4 * h + l) % 4 == l
  {
  }

  lemma By8(h: nat, l: nat)
    requires l < 8
    ensures (8 * h + l) / 8 == h && (8 * h + l) % 8 == l
  {
  }

  lemma By16(h: nat, l: nat)
    requires l < 16
    ensures (16 * h + l) / 16 == h && (16 * h + l) % 16 == l
  {
  }

  lemma By32(h: nat, l: nat)
    requires l < 32
    ensures (32 * h + l) / 32 == h && (32 * h + l) % 32 == l
  {
  }

  lemma By64(h: nat, l: nat)
    requires l < 64
    ensures (64 * h + l) / 64 == h && (64 * h + l) % 64 == l
  {
  }

  lemma By128(h: nat, l: nat)
    requires l < 128
    ensures (128 * h + l) / 128 == h && (128 * h + l) % 128 == l
  {
  }

  lemma Part2(t: seq<bool>)
    requires |t| == 8
    ensures Byte(t) / 2
         == 64 * W(t[0]) + 32 * W(t[1]) + 16 * W(t[2]) + 8 * W(t[3]) + 4 * W(t[4]) + 2 * W(t[5]) + W(t[6])
    ensures Byte(t) % 2 == W(t[7])
  {
    By2(64 * W(t[0]) + 32 * W(t[1]) + 16 * W(t[2]) + 8 * W(t[3]) + 4 * W(t[4]) + 2 * W(t[5]) + W(t[6]), W(t[7]));
  }

  lemma Part4(t: seq<bool>)
    requires |t| == 8
    ensures Byte(t) / 4 == 32 * W(t[0]) + 16 * W(t[1]) + 8 * W(t[2]) + 4 * W(t[3]) + 2 * W(t[4]) + W(t[5])
    ensures Byte(t) % 4 == 2 * W(t[6]) + W(t[7])
  {
    By4(32 * W(t[0]) + 16 * W(t[1]) + 8 * W(t[2]) + 4 * W(t[3]) + 2 * W(t[4]) + W(t[5]), 2 * W(t[6]) + W(t[7]));
  }

  lemma Part8(t: seq<bool>)
    requires |t| == 8
    ensures Byte(t) / 8 == 16 * W(t[0]) + 8 * W(t[1]) + 4 * W(t[2]) + 2 * W(t[3]) + W(t[4])
    ensures Byte(t) % 8 == 4 * W(t[5]) + 2 * W(t[6]) + W(t[7])
  {
    By8(16 * W(t[0]) + 8 * W(t[1]) + 4 * W(t[2]) + 2 * W(t[3]) + W(t[4]), 4 * W(t[5]) + 2 * W(t[6]) + W(t[7]));
  }

  lemma Part16(t: seq<bool>)
    requires |t| == 8
    ensures Byte(t) / 16 == 8 * W(t[0]) + 4 * W(t[1]) + 2 * W(t[2]) + W(t[3])
    ensures Byte(t) % 16 == 8 * W(t[4]) + 4 * W(t[5]) + 2 * W(t[6]) + W(t[7])
  {
    By16(8 * W(t[0]) + 4 * W(t[1]) + 2 * W(t[2]) + W(t[3]), 8 * W(t[4]) + 4 * W(t[5]) + 2 * W(t[6]) + W(t[7]));
  }

  lemma Part32(t: seq<bool>)
    requires |t| == 8
    ensures Byte(t) / 32 == 4 * W(t[0]) + 2 * W(t[1]) + W(t[2])
    ensures Byte(t) % 32 == 16 * W(t[3]) + 8 * W(t[4]) + 4 * W(t[5]) + 2 * W(t[6]) + W(t[7])
  {
    By32(4 * W(t[0]) + 2 * W(t[1]) + W(t[2]), 16 * W(t[3]) + 8 * W(t[4]) + 4 * W(t[5]) + 2 * W(t[6]) + W(t[7]));
  }

  lemma Part64(t: seq<bool>)
    requires |t| == 8
    ensures Byte(t) / 64 == 2 * W(t[0]) + W(t[1])
    ensures Byte(t) % 64 == 32 * W(t[2]) + 16 * W(t[3]) + 8 * W(t[4]) + 4 * W(t[5]) + 2 * W(t[6]) + W(t[7])
  {
    By64(2 * W(t[0]) + W(t[1]), 32 * W(t[2]) + 16 * W(t[3]) + 8 * W(t[4]) + 4 * W(t[5]) + 2 * W(t[6]) + W(t[7]));
  }

  lemma Part128(t: seq<bool>)
    requires |t| == 8
    ensures Byte(t) / 128 == W(t[0])
    ensures Byte(t) % 128
      == 64 * W(t[1]) + 32 * W(t[2]) + 16 * W(t[3]) + 8 * W(t[4]) + 4 * W(t[5]) + 2 * W(t[6]) + W(t[7])
  {
    By128(W(t[0]), 64 * W(t[1]) + 32 * W(t[2]) + 16 * W(t[3]) + 8 * W(t[4]) + 4 * W(t[5]) + 2 * W(t[6]) + W(t[7]));
  }

  lemma SymbolBits(t: seq<bool>)
    requires |t| == 5
    ensures B.Bits(Symbol(t), 5) == t
  {
    hide B.Bits;
    var x := Symbol(t);
    BitsFive(x);
    assert x / 2 == 8 * W(t[0]) + 4 * W(t[1]) + 2 * W(t[2]) + W(t[3]);
    assert x / 4 == 4 * W(t[0]) + 2 * W(t[1]) + W(t[2]);
    assert x / 8 == 2 * W(t[0]) + W(t[1]);
    assert x / 16 == W(t[0]);
  }

  lemma {:induction false} BitsValue(x: nat, n: nat, p: nat)
    requires n <= 8 && x < p && p == B.Pow2(n)
    ensures B.FromBits(B.Bits(x, n)) == x
  {
    B.BitsValue(x, n);
    if n > 0 {
      BitsValue(x / 2, n - 1, B.Pow2(n - 1));
      B.BitsValue(x / 2, n - 1);
    }
  }

  lemma ByteIs(x: B.Byte)
    ensures Byte(B.Bits(x, 8)) == x
  {
    assert B.Pow2(8) == 256;
    BitsValue(x, 8, 256);
    FromEight(B.Bits(x, 8));
  }

  lemma FromEight(t: seq<bool>)
    requires |t| == 8
    ensures B.FromBits(t) == Byte(t)
  {
    FromFive(t[..5]);
    FromNext(t[..6]);
    FromNext(t[..7]);
    FromNext(t);
    assert t[..6][..5] == t[..5] && t[..7][..6] == t[..6];
  }

  lemma FromFive(t: seq<bool>)
    requires |t| == 5
    ensures B.FromBits(t) == Symbol(t)
  {
    hide B.FromBits;
    FromNext(t[..1]);
    FromNext(t[..2]);
    FromNext(t[..3]);
    FromNext(t[..4]);
    FromNext(t);
    assert t[..1][..0] == [] && t[..2][..1] == t[..1] && t[..3][..2] == t[..2] && t[..4][..3] == t[..3];
    assert B.FromBits([]) == 0;
  }

  lemma FromNext(t: seq<bool>)
    requires t != []
    ensures B.FromBits(t) == 2 * B.FromBits(t[..|t| - 1]) + W(t[|t| - 1])
  {
  }

  lemma MiddleSmall(t: seq<bool>)
    requires |t| == 8
    ensures (32 * (2 * W(t[0]) + W(t[1])) + Symbol(t[2..7])) % 32 == Symbol(t[2..7])
    ensures (32 * W(t[0]) + Symbol(t[1..6])) % 32 == Symbol(t[1..6])
  {
    By32(2 * W(t[0]) + W(t[1]), Symbol(t[2..7]));
    By32(W(t[0]), Symbol(t[1..6]));
  }

  lemma FirstBits(a: B.Byte)
    ensures B.Bits(a / 8, 5) == B.Bits(a, 8)[..5]
  {
    hide B.Bits, W;
    ByteIs(a);
    Part8(B.Bits(a, 8));
    SymbolBits(B.Bits(a, 8)[..5]);
    assert a / 8 == Symbol(B.Bits(a, 8)[..5]);
  }

  lemma SecondBits(a: B.Byte, b: B.Byte)
    ensures B.Bits(a % 8 * 4 + b / 64, 5) == B.Bits(a, 8)[5..] + B.Bits(b, 8)[..2]
  {
    hide B.Bits, W;
    ByteIs(a);
    ByteIs(b);
    Part8(B.Bits(a, 8));
    Part64(B.Bits(b, 8));
    SymbolBits(B.Bits(a, 8)[5..] + B.Bits(b, 8)[..2]);
    assert a % 8 * 4 + b / 64 == Symbol(B.Bits(a, 8)[5..] + B.Bits(b, 8)[..2]);
  }

  lemma ThirdBits(b: B.Byte)
    ensures B.Bits(b / 2 % 32, 5) == B.Bits(b, 8)[2..7]
  {
    hide B.Bits, W;
    ByteIs(b);
    Part2(B.Bits(b, 8));
    MiddleSmall(B.Bits(b, 8));
    SymbolBits(B.Bits(b, 8)[2..7]);
    assert b / 2 % 32 == Symbol(B.Bits(b, 8)[2..7]);
  }

  lemma FourthBits(b: B.Byte, c: B.Byte)
    ensures B.Bits(b % 2 * 16 + c / 16, 5) == B.Bits(b, 8)[7..] + B.Bits(c, 8)[..4]
  {
    hide B.Bits, W;
    ByteIs(b);
    ByteIs(c);
    Part2(B.Bits(b, 8));
    Part16(B.Bits(c, 8));
    SymbolBits(B.Bits(b, 8)[7..] + B.Bits(c, 8)[..4]);
    assert b % 2 * 16 + c / 16 == Symbol(B.Bits(b, 8)[7..] + B.Bits(c, 8)[..4]);
  }

  lemma FifthBits(c: B.Byte, d: B.Byte)
    ensures B.Bits(c % 16 * 2 + d / 128, 5) == B.Bits(c, 8)[4..] + B.Bits(d, 8)[..1]
  {
    hide B.Bits, W;
    ByteIs(c);
    ByteIs(d);
    Part16(B.Bits(c, 8));
    Part128(B.Bits(d, 8));
    SymbolBits(B.Bits(c, 8)[4..] + B.Bits(d, 8)[..1]);
    assert c % 16 * 2 + d / 128 == Symbol(B.Bits(c, 8)[4..] + B.Bits(d, 8)[..1]);
  }

  lemma SixthBits(d: B.Byte)
    ensures B.Bits(d / 4 % 32, 5) == B.Bits(d, 8)[1..6]
  {
    hide B.Bits, W;
    ByteIs(d);
    Part4(B.Bits(d, 8));
    MiddleSmall(B.Bits(d, 8));
    SymbolBits(B.Bits(d, 8)[1..6]);
    assert d / 4 % 32 == Symbol(B.Bits(d, 8)[1..6]);
  }

  lemma SeventhBits(d: B.Byte, e: B.Byte)
    ensures B.Bits(d % 4 * 8 + e / 32, 5) == B.Bits(d, 8)[6..] + B.Bits(e, 8)[..3]
  {
    hide B.Bits, W;
    ByteIs(d);
    ByteIs(e);
    Part4(B.Bits(d, 8));
    Part32(B.Bits(e, 8));
    SymbolBits(B.Bits(d, 8)[6..] + B.Bits(e, 8)[..3]);
    assert d % 4 * 8 + e / 32 == Symbol(B.Bits(d, 8)[6..] + B.Bits(e, 8)[..3]);
  }

  lemma EighthBits(e: B.Byte)
    ensures B.Bits(e % 32, 5) == B.Bits(e, 8)[3..]
  {
    hide B.Bits, W;
    ByteIs(e);
    Part32(B.Bits(e, 8));
    SymbolBits(B.Bits(e, 8)[3..]);
    assert e % 32 == Symbol(B.Bits(e, 8)[3..]);
  }

  lemma EightBits(a: B.Byte, b: B.Byte, c: B.Byte, d: B.Byte, e: B.Byte)
    ensures B.AllBits([a, b, c, d, e], 8) == B.AllBits(Eight(a, b, c, d, e), 5)
  {
    hide B.Bits, B.AllBits;
    AllFive(a, b, c, d, e);
    AllEight(Eight(a, b, c, d, e));
    Recut(B.Bits(a, 8), B.Bits(b, 8), B.Bits(c, 8), B.Bits(d, 8), B.Bits(e, 8));
    FirstBits(a);
    SecondBits(a, b);
    ThirdBits(b);
    FourthBits(b, c);
    FifthBits(c, d);
    SixthBits(d);
    SeventhBits(d, e);
    EighthBits(e);
  }

  lemma EightFits(a: B.Byte, b: B.Byte, c: B.Byte, d: B.Byte, e: B.Byte)
    ensures B.Fits(Eight(a, b, c, d, e), 5)
  {
    forall v | v in Eight(a, b, c, d, e)
      ensures B.Shr(v, 5) == 0
    {
      assert v < 32;
    }
  }

  lemma {:induction false} AllBitsSplit(u: seq<B.Byte>, v: seq<B.Byte>, w: nat)
    ensures B.AllBits(u + v, w) == B.AllBits(u, w) + B.AllBits(v, w)
  {
    if u == [] {
      assert u + v == v;
      assert B.AllBits([], w) == [];
    } else {
      AllBitsSplit(u[1..], v, w);
      assert u + v == [u[0]] + (u[1..] + v) && u == [u[0]] + u[1..];
      hide B.AllBits, B.Bits;
      AllCons(u[0], u[1..] + v, w);
      AllCons(u[0], u[1..], w);
      Associates(B.Bits(u[0], w), B.AllBits(u[1..], w), B.AllBits(v, w));
    }
  }

  lemma Associates(x: seq<bool>, y: seq<bool>, z: seq<bool>)
    ensures x + (y + z) == x + y + z
  {
  }

  /** Regrouping from eight bits to five goes five bytes at a time. */
  lemma RegroupsFive(a: B.Byte, b: B.Byte, c: B.Byte, d: B.Byte, e: B.Byte, rest: seq<B.Byte>)
    ensures B.Regrouped(rest, 8, 5, true).Ok?
    ensures B.Regrouped([a, b, c, d, e] + rest, 8, 5, true)
         == Ok(Eight(a, b, c, d, e) + B.Regrouped(rest, 8, 5, true).value)
  {
    hide B.AllBits, B.Groups, B.Rest, B.Fits, Eight;
    var first, others := B.AllBits(Eight(a, b, c, d, e), 5), B.AllBits(rest, 8);
    B.EveryByteFits(rest);
    B.EveryByteFits([a, b, c, d, e] + rest);
    AllBitsSplit([a, b, c, d, e], rest, 8);
    EightBits(a, b, c, d, e);
    EightFits(a, b, c, d, e);
    B.GroupsOfAllBits(Eight(a, b, c, d, e), 5);
    B.GroupsAppend(first, others, 5);
    assert [] + others == others;
    var padded := B.Padded(others, 5);
    assert B.Padded(first + others, 5) == first + padded;
    B.GroupsAppend(first, padded, 5);
    assert [] + padded == padded;
  }

  lemma RegroupsNothing()
    ensures B.Regrouped([], 8, 5, true) == Ok([])
  {
  }

  // ---- the last bytes ----

  lemma {:induction false} RestLength(b: seq<bool>)
    ensures |B.Rest(b, 5)| == |b| % 5
    decreases |b|
  {
    if |b| >= 5 {
      RestLength(b[5..]);
    }
  }

  lemma {:induction false} AllBitsLength(s: seq<B.Byte>, w: nat)
    ensures w == 5 ==> |B.AllBits(s, w)| == 5 * |s|
    ensures w == 8 ==> |B.AllBits(s, w)| == 8 * |s|
  {
    if s != [] {
      AllBitsLength(s[1..], w);
    }
  }

  /** Zero bytes add zero bits. */
  lemma {:induction false} ZeroBytes(n: nat)
    ensures B.AllBits(seq(n, _ => 0 as B.Byte), 8) == B.Zeros(8 * n)
  {
    if n > 0 {
      ZeroBytes(n - 1);
      B.ZeroBits(8);
      assert seq(n, _ => 0 as B.Byte)[1..] == seq(n - 1, _ => 0 as B.Byte);
    }
  }

  /** How many symbols n bytes need. */
  function Needed(n: nat): nat {
    (8 * n + 4) / 5
  }

  /** Up to four bytes at the end are as many symbols as they need of what they are with zeros after them. */
  lemma RegroupsLast(rest: seq<B.Byte>, zeros: seq<B.Byte>)
    requires 1 <= |rest| <= 4 && zeros == seq(5 - |rest|, _ => 0 as B.Byte)
    ensures var all := rest + zeros;
      && |all| == 5
      && B.Regrouped(rest, 8, 5, true) == Ok(Eight(all[0], all[1], all[2], all[3], all[4])[..Needed(|rest|)])
  {
    hide B.AllBits, B.Groups, B.Rest, B.Fits, B.Padded, Eight;
    var all := rest + zeros;
    var eight := Eight(all[0], all[1], all[2], all[3], all[4]);
    var k, bits := Needed(|rest|), B.AllBits(rest, 8);
    assert all == [all[0], all[1], all[2], all[3], all[4]];
    EightBits(all[0], all[1], all[2], all[3], all[4]);
    AllBitsSplit(rest, zeros, 8);
    ZeroBytes(5 - |rest|);
    PaddedBits(rest, k);
    FirstSymbols(eight, k);
    AllBitsLength(rest, 8);
    assert B.Padded(bits, 5) == (bits + B.Zeros(8 * (5 - |rest|)))[..5 * k];
    EightFits(all[0], all[1], all[2], all[3], all[4]);
    assert B.Fits(eight[..k], 5) by { FewerFit(eight, k); }
    B.GroupsOfAllBits(eight[..k], 5);
    B.EveryByteFits(rest);
  }

  lemma FewerFit(s: seq<B.Byte>, k: nat)
    requires k <= |s| && B.Fits(s, 5)
    ensures B.Fits(s[..k], 5)
  {
  }

  lemma PaddedBits(rest: seq<B.Byte>, k: nat)
    requires 1 <= |rest| <= 4 && k == Needed(|rest|)
    ensures k <= 8 && 8 * |rest| <= 5 * k
    ensures B.Padded(B.AllBits(rest, 8), 5) == B.AllBits(rest, 8) + B.Zeros(5 * k - 8 * |rest|)
  {
    hide B.AllBits, B.Rest, B.Zeros;
    AllBitsLength(rest, 8);
    RestLength(B.AllBits(rest, 8));
    LastLengths(|rest|);
  }

  lemma LastLengths(n: nat)
    requires 1 <= n <= 4
    ensures 5 - 8 * n % 5 == 5 * Needed(n) - 8 * n && 8 * n % 5 != 0 && Needed(n) <= 8
  {
    if n == 1 {
    } else if n == 2 {
    } else if n == 3 {
    } else {
      assert n == 4;
    }
  }

  lemma FirstSymbols(eight: seq<B.Byte>, k: nat)
    requires |eight| == 8 && k <= 8
    ensures |B.AllBits(eight, 5)| == 40 && B.AllBits(eight[..k], 5) == B.AllBits(eight, 5)[..5 * k]
  {
    hide B.AllBits;
    assert eight == eight[..k] + eight[k..];
    AllBitsSplit(eight[..k], eight[k..], 5);
    AllBitsLength(eight, 5);
    AllBitsLength(eight[..k], 5);
  }
}
