/** The BIP-173 checksum: a 30-bit linear register that absorbs one symbol at a time. */
module Checksum {
  // ---- the checksum register ----

  const GENERATOR: seq<bv32> := [0x3b6a57b2, 0x26508e6d, 0x1ea119fa, 0x3d4233dd, 0x2a1462b3]

  // Named so that proofs about the register can leave the bits alone.
  function Xor(a: bv32, b: bv32): bv32 {
    a ^ b
  }

  function Top(chk: bv32): bv32 {
    chk >> 25
  }

  function Kept(chk: bv32): bv32 {
    (chk & 0x1ffffff) << 5
  }

  predicate Bit(top: bv32, i: nat)
    requires i < 5
  {
    (top >> i) & 1 == 1
  }

  function Tap(top: bv32, i: nat): bv32
    requires i < 5
  {
    if Bit(top, i) then GENERATOR[i] else 0
  }

  /** What the first n bits shifted out feed back. */
  function Taps(top: bv32, n: nat): bv32
    requires n <= 5
  {
    if n == 0 then 0 else Xor(Taps(top, n - 1), Tap(top, n - 1))
  }

  function Sym(v: bv8): bv32 {
    v as bv32
  }

  function Step(chk: bv32, v: bv32): bv32 {
    Xor(Xor(Kept(chk), v), Taps(Top(chk), 5))
  }

  function Absorb(chk: bv32, values: seq<bv8>): bv32
    decreases |values|
  {
    if values == [] then chk else Step(Absorb(chk, values[..|values| - 1]), Sym(values[|values| - 1]))
  }

  function Polymod(values: seq<bv8>): bv32 {
    Absorb(1, values)
  }

  method ComputePolymod(values: seq<bv8>) returns (chk: bv32)
    ensures chk == Polymod(values)
  {
    chk := 1;
    for k := 0 to |values|
      invariant chk == Polymod(values[..k])
    {
      assert values[..k + 1][..k] == values[..k];
      chk := ComputeStep(chk, Sym(values[k]));
    }
    assert values[..|values|] == values;
  }

  method ComputeStep(before: bv32, v: bv32) returns (chk: bv32)
    ensures chk == Step(before, v)
  {
    hide Xor, Kept, Top, Bit;
    var top := Top(before);
    chk := Xor(Kept(before), v);
    ghost var shifted := chk;
    XorUnit(shifted);
    for i := 0 to 5
      invariant chk == Xor(shifted, Taps(top, i))
    {
      XorAssociative(shifted, Taps(top, i), Tap(top, i));
      XorUnit(chk);
      if Bit(top, i) {
        chk := Xor(chk, GENERATOR[i]);
      }
    }
  }

  // ---- bit-vector facts ----

  lemma XorUnit(a: bv32)
    ensures Xor(a, 0) == a && Xor(0, a) == a && Xor(a, a) == 0
  {
  }

  lemma XorAssociative(a: bv32, b: bv32, c: bv32)
    ensures Xor(Xor(a, b), c) == Xor(a, Xor(b, c))
  {
  }

  lemma XorCancelRight(a: bv32, b: bv32, c: bv32)
    requires Xor(a, c) == Xor(b, c)
    ensures a == b
  {
  }

  lemma XorCancelLeft(a: bv32, b: bv32, c: bv32)
    requires Xor(c, a) == Xor(c, b)
    ensures a == b
  {
  }

  lemma XorZero(a: bv32, b: bv32)
    requires Xor(a, b) == 0
    ensures a == b
  {
  }

  lemma XorCommutes(a: bv32, b: bv32)
    ensures Xor(a, b) == Xor(b, a)
  {
  }

  lemma XorPairs(x: bv32, y: bv32, p: bv32, q: bv32)
    ensures Xor(Xor(x, y), Xor(p, q)) == Xor(Xor(x, p), Xor(y, q))
  {
    hide Xor;
    XorAssociative(x, y, Xor(p, q));
    XorAssociative(y, p, q);
    XorCommutes(y, p);
    XorAssociative(p, y, q);
    XorAssociative(x, p, Xor(y, q));
  }

  lemma XorBelow(a: bv32, b: bv32)
    requires a < 0x4000_0000 && b < 0x4000_0000
    ensures Xor(a, b) < 0x4000_0000
  {
  }

  lemma LowBelow(chk: bv32)
    ensures Kept(chk) < 0x4000_0000
  {
  }

  lemma ShiftXor(a: bv32, b: bv32, i: nat)
    requires i < 5
    ensures (a ^ b) >> i == (a >> i) ^ (b >> i)
  {
    if i == 0 {
    } else if i == 1 {
    } else if i == 2 {
    } else if i == 3 {
    } else {
      assert i == 4;
    }
  }

  lemma LowestBitXor(a: bv32, b: bv32)
    ensures (a ^ b) & 1 == (a & 1) ^ (b & 1)
    ensures a & 1 == 0 || a & 1 == 1
  {
  }

  lemma BitXor(a: bv32, b: bv32, i: nat)
    requires i < 5
    ensures Bit(Xor(a, b), i) <==> Bit(a, i) != Bit(b, i)
  {
    ShiftXor(a, b, i);
    LowestBitXor(a >> i, b >> i);
    LowestBitXor(b >> i, a >> i);
  }

  // ---- the register step is linear and injective ----

  lemma TapLinear(a: bv32, b: bv32, i: nat)
    requires i < 5
    ensures Tap(Xor(a, b), i) == Xor(Tap(a, i), Tap(b, i))
  {
    hide Xor, Bit;
    BitXor(a, b, i);
    XorUnit(GENERATOR[i]);
    XorUnit(0);
  }

  lemma {:induction false} TapsLinear(a: bv32, b: bv32, n: nat)
    requires n <= 5
    ensures Taps(Xor(a, b), n) == Xor(Taps(a, n), Taps(b, n))
  {
    hide Xor, Tap;
    XorUnit(0);
    if n > 0 {
      TapsLinear(a, b, n - 1);
      TapLinear(a, b, n - 1);
      XorPairs(Taps(a, n - 1), Taps(b, n - 1), Tap(a, n - 1), Tap(b, n - 1));
    }
  }

  lemma {:induction false} TapsBelow(top: bv32, n: nat)
    requires n <= 5
    ensures Taps(top, n) < 0x4000_0000
  {
    if n > 0 {
      TapsBelow(top, n - 1);
      XorBelow(Taps(top, n - 1), Tap(top, n - 1));
    }
  }

  /** The low five bits of what is fed back already tell the bits shifted out apart. */
  lemma FiveTaps(t: bv32, a: bv32, b: bv32, c: bv32, d: bv32, e: bv32)
    requires t < 32
    requires a == if t & 1 == 1 then 0x3b6a57b2 else 0
    requires b == if (t >> 1) & 1 == 1 then 0x26508e6d else 0
    requires c == if (t >> 2) & 1 == 1 then 0x1ea119fa else 0
    requires d == if (t >> 3) & 1 == 1 then 0x3d4233dd else 0
    requires e == if (t >> 4) & 1 == 1 then 0x2a1462b3 else 0
    requires Xor(Xor(Xor(Xor(a, b), c), d), e) & 31 == 0
    ensures t == 0
  {
  }

  lemma TapZero(t: bv32)
    ensures Tap(t, 0) == if t & 1 == 1 then 0x3b6a57b2 else 0
  {
    assert t >> 0 == t;
  }

  lemma TapsInjective(t: bv32)
    requires t < 32 && Taps(t, 5) & 31 == 0
    ensures t == 0
  {
    hide Xor;
    TapZero(t);
    XorUnit(Tap(t, 0));
    assert Taps(t, 1) == Tap(t, 0);
    assert Taps(t, 2) == Xor(Taps(t, 1), Tap(t, 1));
    assert Taps(t, 3) == Xor(Taps(t, 2), Tap(t, 2));
    assert Taps(t, 4) == Xor(Taps(t, 3), Tap(t, 3));
    FiveTaps(t, Tap(t, 0), Tap(t, 1), Tap(t, 2), Tap(t, 3), Tap(t, 4));
  }

  lemma TopBelow(a: bv32, b: bv32)
    requires a < 0x4000_0000 && b < 0x4000_0000
    ensures Xor(Top(a), Top(b)) < 32
  {
  }

  lemma HalvesTell(a: bv32, b: bv32)
    requires Top(a) == Top(b) && Kept(a) == Kept(b)
    ensures a == b
  {
  }

  /** Low parts have five zero bits, so equal registers have equal low five bits fed back. */
  lemma LowFiveFromTaps(a: bv32, b: bv32, v: bv32, f: bv32, g: bv32)
    requires Xor(Xor(Kept(a), v), f) == Xor(Xor(Kept(b), v), g)
    ensures Xor(f, g) & 31 == 0
  {
  }

  lemma StepInjective(a: bv32, b: bv32, v: bv32)
    requires a < 0x4000_0000 && b < 0x4000_0000 && Step(a, v) == Step(b, v)
    ensures a == b
  {
    hide Xor, Kept, Top, Taps;
    LowFiveFromTaps(a, b, v, Taps(Top(a), 5), Taps(Top(b), 5));
    TapsLinear(Top(a), Top(b), 5);
    TopBelow(a, b);
    TapsInjective(Xor(Top(a), Top(b)));
    XorZero(Top(a), Top(b));
    XorCancelRight(Xor(Kept(a), v), Xor(Kept(b), v), Taps(Top(a), 5));
    XorCancelRight(Kept(a), Kept(b), v);
    HalvesTell(a, b);
  }

  lemma StepBelow(chk: bv32, v: bv32)
    requires v < 256
    ensures Step(chk, v) < 0x4000_0000
  {
    hide Xor, Kept, Top, Taps;
    TapsBelow(Top(chk), 5);
    LowBelow(chk);
    XorBelow(Kept(chk), v);
    XorBelow(Xor(Kept(chk), v), Taps(Top(chk), 5));
  }

  lemma StepTellsSymbols(a: bv32, v: bv32, w: bv32)
    requires Step(a, v) == Step(a, w)
    ensures v == w
  {
    hide Xor, Kept, Top, Taps;
    XorCancelRight(Xor(Kept(a), v), Xor(Kept(a), w), Taps(Top(a), 5));
    XorCancelLeft(v, w, Kept(a));
  }

  lemma SymBelow(v: bv8)
    ensures Sym(v) < 256
  {
  }

  lemma SymInjective(v: bv8, w: bv8)
    requires Sym(v) == Sym(w)
    ensures v == w
  {
  }

  lemma {:induction false} AbsorbBelow(chk: bv32, values: seq<bv8>)
    requires chk < 0x4000_0000
    ensures Absorb(chk, values) < 0x4000_0000
    decreases |values|
  {
    hide Step, Sym;
    if values != [] {
      SymBelow(values[|values| - 1]);
      StepBelow(Absorb(chk, values[..|values| - 1]), Sym(values[|values| - 1]));
    }
  }

  /** Two words of one length that differ in exactly one place have different checksums. */
  lemma DetectsOneError(u: seq<bv8>, w: seq<bv8>, i: nat)
    requires |u| == |w| && i < |u| && u[i] != w[i]
    requires forall k | 0 <= k < |u| && k != i :: u[k] == w[k]
    ensures Polymod(u) != Polymod(w)
  {
    StaysApart(u, w, i, |u|);
    assert u[..|u|] == u && w[..|w|] == w;
  }

  lemma {:induction false} StaysApart(u: seq<bv8>, w: seq<bv8>, i: nat, n: nat)
    requires |u| == |w| && i < n <= |u| && u[i] != w[i]
    requires forall k | 0 <= k < |u| && k != i :: u[k] == w[k]
    ensures Polymod(u[..n]) != Polymod(w[..n])
    decreases n
  {
    hide Step, Sym;
    assert u[..n][..n - 1] == u[..n - 1] && w[..n][..n - 1] == w[..n - 1];
    var a, b := Polymod(u[..n - 1]), Polymod(w[..n - 1]);
    if n - 1 == i {
      assert u[..i] == w[..i];
      if Polymod(u[..n]) == Polymod(w[..n]) {
        StepTellsSymbols(a, Sym(u[i]), Sym(w[i]));
        SymInjective(u[i], w[i]);
      }
    } else {
      StaysApart(u, w, i, n - 1);
      AbsorbBelow(1, u[..n - 1]);
      AbsorbBelow(1, w[..n - 1]);
      if Polymod(u[..n]) == Polymod(w[..n]) {
        StepInjective(a, b, Sym(u[n - 1]));
      }
    }
  }

  // ---- the six checksum symbols ----

  function HighBits(c: bv8): bv8 {
    c >> 5
  }

  function LowBits(c: bv8): bv8 {
    c & 31
  }

  /** The human-readable part, already in lower case, as BIP-173 feeds it to the register. */
  function Expanded(hrp: seq<bv8>): seq<bv8> {
    seq(|hrp|, i requires 0 <= i < |hrp| => HighBits(hrp[i])) + [0]
    + seq(|hrp|, i requires 0 <= i < |hrp| => LowBits(hrp[i]))
  }

  method HrpExpand(hrp: seq<bv8>) returns (ret: seq<bv8>)
    ensures ret == Expanded(hrp)
  {
    hide HighBits, LowBits;
    ret := [];
    for k := 0 to |hrp|
      invariant ret == Expanded(hrp)[..k]
    {
      ret := ret + [HighBits(hrp[k])];
    }
    ret := ret + [0];
    for k := 0 to |hrp|
      invariant ret == Expanded(hrp)[..|hrp| + 1 + k]
    {
      ret := ret + [LowBits(hrp[k])];
    }
    assert Expanded(hrp)[..|Expanded(hrp)|] == Expanded(hrp);
  }

  function Five(x: bv32): bv32 {
    x & 31
  }

  function Down(mod: bv32, p: nat): bv32
    requires p < 6
  {
    Five(mod >> (5 * (5 - p)))
  }

  /** The five bits of mod that end at bit 5 * (5 - p). */
  function Group(mod: bv32, p: nat): bv8
    requires p < 6
  {
    DownBelow(mod, p);
    Down(mod, p) as bv8
  }

  function ChecksumOf(hrp: seq<bv8>, data: seq<bv8>): seq<bv8> {
    var mod := Xor(Polymod(Expanded(hrp) + data + [0, 0, 0, 0, 0, 0]), 1);
    seq(6, p requires 0 <= p < 6 => Group(mod, p))
  }

  method CreateChecksum(hrp: seq<bv8>, data: seq<bv8>) returns (ret: seq<bv8>)
    ensures ret == ChecksumOf(hrp, data)
  {
    hide Polymod, Xor, Group, Expanded;
    var values := HrpExpand(hrp);
    values := values + data + [0, 0, 0, 0, 0, 0];
    var mod := ComputePolymod(values);
    mod := Xor(mod, 1);
    ret := [];
    for p := 0 to 6
      invariant ret == ChecksumOf(hrp, data)[..p]
    {
      ret := ret + [Group(mod, p)];
    }
  }

  // ---- the checksum makes the register end at 1 ----

  lemma KeptXor(z: bv32, d: bv32)
    ensures Kept(Xor(z, d)) == Xor(Kept(z), Kept(d))
  {
  }

  lemma TopIgnoresLow(z: bv32, d: bv32)
    requires d < 0x200_0000
    ensures Top(Xor(z, d)) == Top(z)
  {
  }

  /** A small difference moves through the register by a plain shift. */
  lemma StepDifference(z: bv32, d: bv32, e: bv32)
    requires d < 0x200_0000
    ensures Step(Xor(z, d), e) == Xor(Step(z, 0), Xor(Kept(d), e))
  {
    hide Xor, Kept, Top, Taps;
    KeptXor(z, d);
    TopIgnoresLow(z, d);
    XorUnit(Kept(z));
    var t, x := Taps(Top(z), 5), Xor(Kept(d), e);
    XorAssociative(Kept(z), Kept(d), e);
    XorAssociative(Kept(z), x, t);
    XorCommutes(x, t);
    XorAssociative(Kept(z), t, x);
  }

  /** The symbols as one number, five bits each. */
  function Packed(c: seq<bv8>): bv32 {
    if c == [] then 0 else Xor(Kept(Packed(c[..|c| - 1])), Sym(c[|c| - 1]))
  }

  predicate FiveBits(c: seq<bv8>) {
    forall i | 0 <= i < |c| :: c[i] < 32
  }

  function Bound(n: nat): bv32
    requires n <= 5
  {
    if n == 0 then 1
    else if n == 1 then 0x20
    else if n == 2 then 0x400
    else if n == 3 then 0x8000
    else if n == 4 then 0x10_0000
    else 0x200_0000
  }

  lemma Grows(d: bv32, e: bv8, n: nat)
    requires n < 5 && e < 32 && d < Bound(n)
    ensures Xor(Kept(d), Sym(e)) < Bound(n + 1)
  {
    if n == 0 {
    } else if n == 1 {
    } else if n == 2 {
    } else if n == 3 {
    } else {
      assert n == 4;
    }
  }

  lemma {:induction false} PackedBelow(c: seq<bv8>)
    requires |c| <= 5 && FiveBits(c)
    ensures Packed(c) < Bound(|c|)
  {
    hide Xor, Kept, Sym, Bound;
    if c == [] {
      BoundAtZero();
    } else {
      var shorter := c[..|c| - 1];
      PackedBelow(shorter);
      Grows(Packed(shorter), c[|c| - 1], |shorter|);
    }
  }

  lemma BoundAtZero()
    ensures Bound(0) == 1
  {
  }

  lemma AbsorbAppend(chk: bv32, values: seq<bv8>, v: bv8)
    ensures Absorb(chk, values + [v]) == Step(Absorb(chk, values), Sym(v))
  {
    assert (values + [v])[..|values|] == values;
  }

  function Zeros(n: nat): seq<bv8> {
    seq(n, _ => 0)
  }

  lemma {:induction false} DifferenceOf(values: seq<bv8>, c: seq<bv8>)
    requires |c| <= 6 && FiveBits(c)
    ensures Polymod(values + c) == Xor(Polymod(values + Zeros(|c|)), Packed(c))
    decreases |c|, 0
  {
    if c == [] {
      assert values + c == values && values + Zeros(|c|) == values;
      XorUnit(Polymod(values));
    } else {
      hide Xor, Kept, Sym, Step, Absorb;
      DifferenceLast(values, c[..|c| - 1], c[|c| - 1]);
      assert c[..|c| - 1] + [c[|c| - 1]] == c;
    }
  }

  lemma BoundLast(n: nat)
    requires n <= 5
    ensures Bound(n) <= 0x200_0000
  {
  }

  lemma {:induction false} DifferenceLast(values: seq<bv8>, c: seq<bv8>, e: bv8)
    requires |c| <= 5 && FiveBits(c) && e < 32
    ensures Polymod(values + (c + [e])) == Xor(Polymod(values + Zeros(|c| + 1)), Packed(c + [e]))
    decreases |c|, 1
  {
    hide Xor, Kept, Step, Absorb, Bound;
    DifferenceOf(values, c);
    PackedBelow(c);
    BoundLast(|c|);
    var zeros := Zeros(|c|);
    assert values + (c + [e]) == (values + c) + [e];
    assert values + Zeros(|c| + 1) == (values + zeros) + [0];
    AbsorbAppend(1, values + c, e);
    AbsorbAppend(1, values + zeros, 0);
    StepDifference(Polymod(values + zeros), Packed(c), Sym(e));
    assert (c + [e])[..|c|] == c;
  }

  lemma GroupBelow(mod: bv32, p: nat)
    requires p < 6
    ensures Group(mod, p) < 32
  {
    hide Down;
    DownBelow(mod, p);
    Narrowed(Down(mod, p));
  }

  /** The shift with its distance written out. */
  function Shifted(m: bv32, p: nat): bv32
    requires p < 6
  {
    if p == 0 then m >> 25 else if p == 1 then m >> 20 else if p == 2 then m >> 15
    else if p == 3 then m >> 10 else if p == 4 then m >> 5 else m
  }

  function Digit(m: bv32, p: nat): bv32
    requires p < 6
  {
    Five(Shifted(m, p))
  }

  lemma ShiftDown(m: bv32, p: nat)
    requires p < 6
    ensures m >> (5 * (5 - p)) == Shifted(m, p)
  {
    if p == 0 {
    } else if p == 1 {
    } else if p == 2 {
    } else if p == 3 {
    } else if p == 4 {
    } else {
      assert p == 5;
    }
  }

  lemma DownIsDigit(m: bv32, p: nat)
    requires p < 6
    ensures Down(m, p) == Digit(m, p)
  {
    hide Five, Shifted;
    ShiftDown(m, p);
  }

  lemma DownBelow(m: bv32, p: nat)
    requires p < 6
    ensures Down(m, p) < 32
  {
  }

  lemma Narrowed(x: bv32)
    requires x < 32
    ensures Sym(x as bv8) == x && x as bv8 < 32
  {
  }

  lemma GroupIsDigit(m: bv32, p: nat)
    requires p < 6
    ensures Sym(Group(m, p)) == Digit(m, p)
  {
    hide Sym, Down, Digit;
    DownBelow(m, p);
    Narrowed(Down(m, p));
    DownIsDigit(m, p);
  }

  lemma Reassembled(m: bv32)
    requires m < 0x4000_0000
    ensures Xor(Kept(Xor(Kept(Xor(Kept(Xor(Kept(Xor(Kept(Digit(m, 0)), Digit(m, 1))), Digit(m, 2))),
                Digit(m, 3))), Digit(m, 4))), Digit(m, 5)) == m
  {
  }

  lemma PackedSix(a: bv8, b: bv8, c: bv8, d: bv8, e: bv8, f: bv8)
    ensures Packed([a, b, c, d, e, f])
         == Xor(Kept(Xor(Kept(Xor(Kept(Xor(Kept(Xor(Kept(Sym(a)), Sym(b))), Sym(c))), Sym(d))), Sym(e))), Sym(f))
  {
    hide Sym;
    var all := [a, b, c, d, e, f];
    assert Kept(0) == 0;
    XorUnit(Sym(a));
    hide Xor, Kept;
    assert all[..5] == [a, b, c, d, e] && all[..4] == [a, b, c, d];
    assert [a, b, c, d, e][..4] == [a, b, c, d];
    assert [a, b, c, d][..3] == [a, b, c];
    assert [a, b, c][..2] == [a, b];
    assert [a, b][..1] == [a];
    assert [a][..0] == [];
    assert Packed([a]) == Sym(a);
    assert Packed([a, b]) == Xor(Kept(Sym(a)), Sym(b));
    assert Packed([a, b, c]) == Xor(Kept(Packed([a, b])), Sym(c));
    assert Packed([a, b, c, d]) == Xor(Kept(Packed([a, b, c])), Sym(d));
    assert Packed([a, b, c, d, e]) == Xor(Kept(Packed([a, b, c, d])), Sym(e));
  }

  lemma PackedGroups(m: bv32)
    requires m < 0x4000_0000
    ensures Packed(seq(6, p requires 0 <= p < 6 => Group(m, p))) == m
  {
    hide Xor, Kept, Sym, Group, Packed, Digit;
    var a, b, c, d, e, f := Group(m, 0), Group(m, 1), Group(m, 2), Group(m, 3), Group(m, 4), Group(m, 5);
    assert seq(6, p requires 0 <= p < 6 => Group(m, p)) == [a, b, c, d, e, f];
    GroupIsDigit(m, 0);
    GroupIsDigit(m, 1);
    GroupIsDigit(m, 2);
    GroupIsDigit(m, 3);
    GroupIsDigit(m, 4);
    GroupIsDigit(m, 5);
    PackedSix(a, b, c, d, e, f);
    Reassembled(m);
  }

  /** What a BIP-173 decoder tests. */
  predicate Verifies(hrp: seq<bv8>, symbols: seq<bv8>) {
    Polymod(Expanded(hrp) + symbols) == 1
  }

  /** For every human-readable part and all data the six symbols make the test succeed. */
  lemma ChecksumVerifies(hrp: seq<bv8>, data: seq<bv8>)
    ensures |ChecksumOf(hrp, data)| == 6 && FiveBits(ChecksumOf(hrp, data))
    ensures Verifies(hrp, data + ChecksumOf(hrp, data))
  {
    hide Xor, Absorb, Group, Packed, Expanded;
    var values, c := Expanded(hrp) + data, ChecksumOf(hrp, data);
    forall p | 0 <= p < 6
      ensures c[p] < 32
    {
      GroupBelow(Xor(Polymod(values + [0, 0, 0, 0, 0, 0]), 1), p);
    }
    assert Zeros(6) == [0, 0, 0, 0, 0, 0];
    var z := Polymod(values + [0, 0, 0, 0, 0, 0]);
    AbsorbBelow(1, values + [0, 0, 0, 0, 0, 0]);
    XorBelow(z, 1);
    PackedGroups(Xor(z, 1));
    DifferenceOf(values, c);
    XorAssociative(z, z, 1);
    XorUnit(z);
    XorUnit(1);
    assert Expanded(hrp) + (data + c) == values + c;
  }

  /** So a single wrong symbol, in the data or in the checksum, is always noticed. */
  lemma NoticesOneError(hrp: seq<bv8>, u: seq<bv8>, w: seq<bv8>, i: nat)
    requires |u| == |w| && i < |u| && u[i] != w[i]
    requires forall k | 0 <= k < |u| && k != i :: u[k] == w[k]
    ensures !(Verifies(hrp, u) && Verifies(hrp, w))
  {
    hide Absorb, Expanded;
    DetectsOneError(Expanded(hrp) + u, Expanded(hrp) + w, |Expanded(hrp)| + i);
  }
}
