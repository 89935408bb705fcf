/** Regrouping bytes into groups of another width, as bech32 does: a loop over a 32-bit
    accumulator that wraps, proved equal to cutting one long bit string into pieces. */
module BitGroups {
  import opened Wrappers

  type Byte = b: int | 0 <= b < 256

  datatype Error = DataRange | IllegalPadding | NonZeroPadding

  // Unsigned words as the loop uses them; every shift and mask moves one bit at a time.

  function Shl(x: nat, n: nat): nat {
    if n == 0 then x else 2 * Shl(x, n - 1)
  }

  function Shr(x: nat, n: nat): nat
    decreases n
  {
    if n == 0 then x else Shr(x / 2, n - 1)
  }

  /** The n low bits as a number: a mask, or the wrap of an n-bit word. */
  function Low(x: nat, n: nat): nat
    decreases n
  {
    if n == 0 then 0 else 2 * Low(x / 2, n - 1) + x % 2
  }

  /** A 32-bit word keeps 32 bits. */
  function Wrapped(x: nat): nat {
    Low(x, 32)
  }

  /** The low byte, masked to n bits. */
  function Masked(x: nat, n: nat): nat {
    Low(Low(x, 8), n)
  }

  function Pow2(n: nat): nat {
    Shl(1, n)
  }

  // ---- bit strings, most significant bit first ----

  /** The n low bits of v. */
  function Bits(v: nat, n: nat): (b: seq<bool>)
    ensures |b| == n
    decreases n
  {
    if n == 0 then [] else Bits(v / 2, n - 1) + [v % 2 == 1]
  }

  function FromBits(b: seq<bool>): (v: nat)
    ensures v < Pow2(|b|)
  {
    if b == [] then 0 else 2 * FromBits(b[..|b| - 1]) + if b[|b| - 1] then 1 else 0
  }

  function AllBits(data: seq<Byte>, width: nat): seq<bool>
  {
    if data == [] then [] else Bits(data[0], width) + AllBits(data[1..], width)
  }

  /** The numbers read from b in pieces of the given width; an incomplete last piece is left. */
  function Groups(b: seq<bool>, width: nat): seq<Byte>
    requires 1 <= width <= 8
  {
    AtMostByte(width);
    if |b| < width then [] else [FromBits(b[..width])] + Groups(b[width..], width)
  }

  function Rest(b: seq<bool>, width: nat): (rest: seq<bool>)
    requires width > 0
    ensures |rest| < width && |rest| <= |b|
  {
    if |b| < width then b else Rest(b[width..], width)
  }

  function Zeros(n: nat): seq<bool> {
    seq(n, _ => false)
  }

  function Padded(b: seq<bool>, width: nat): seq<bool>
    requires width > 0
  {
    var rest := |Rest(b, width)|;
    if rest == 0 then b else b + Zeros(width - rest)
  }

  predicate Fits(data: seq<Byte>, width: nat) {
    forall v | v in data :: Shr(v, width) == 0
  }

  /** What regrouping means: the bit string of the input, cut anew. */
  function Regrouped(data: seq<Byte>, frombits: nat, tobits: nat, pad: bool): Result<seq<Byte>, Error>
    requires 1 <= tobits <= 8
  {
    var all := AllBits(data, frombits);
    var rest := Rest(all, tobits);
    if !Fits(data, frombits) then Err(DataRange)
    else if pad then Ok(Groups(Padded(all, tobits), tobits))
    else if |rest| >= frombits then Err(IllegalPadding)
    else if true in rest then Err(NonZeroPadding)
    else Ok(Groups(all, tobits))
  }

  // ---- the loop ----

  method ConvertBits(data: seq<Byte>, frombits: nat, tobits: nat, pad: bool)
    returns (r: Result<seq<Byte>, Error>)
    requires 1 <= frombits <= 8 && 1 <= tobits <= 8
    ensures r == Regrouped(data, frombits, tobits, pad)
  {
    hide Fits, Regrouped, Cut, Groups, Rest, Bits, Wrapped, Low, Shl, Shr;
    var ret: seq<Byte>, acc: nat, bits: nat := [], 0, 0;
    NothingYet(frombits, tobits);
    for k := 0 to |data|
      invariant Cut(data[..k], frombits, tobits, ret, acc, bits)
    {
      var value := data[k];
      if Shr(value, frombits) != 0 {
        NoFit(data, k, frombits, tobits, pad);
        return Err(DataRange);
      }
      // The shift leaves the low bits clear, so adding the value is the bitwise or.
      var word := Wrapped(Shl(acc, frombits)) + value;
      var more, left := Emit(ret, word, bits + frombits, tobits);
      Absorbed(data, k, frombits, tobits, ret, acc, bits, more, left);
      ret, acc, bits := more, word, left;
    }
    assert data[..|data|] == data;
    r := Finish(ret, acc, bits, frombits, tobits, pad, data);
  }

  /** What the loop has reached: the complete groups of what it has seen, and the rest in the accumulator. */
  ghost predicate Cut(seen: seq<Byte>, frombits: nat, tobits: nat, ret: seq<Byte>, acc: nat, bits: nat)
    requires 1 <= tobits <= 8
  {
    && Fits(seen, frombits)
    && ret == Groups(AllBits(seen, frombits), tobits)
    && Bits(acc, bits) == Rest(AllBits(seen, frombits), tobits)
  }

  /** The end of the loop: the bits that make no complete group. */
  method Finish(sent: seq<Byte>, acc: nat, bits: nat, frombits: nat, tobits: nat, pad: bool, ghost data: seq<Byte>)
    returns (r: Result<seq<Byte>, Error>)
    requires 1 <= frombits <= 8 && 1 <= tobits <= 8 && Cut(data, frombits, tobits, sent, acc, bits)
    ensures r == Regrouped(data, frombits, tobits, pad)
  {
    hide Low, Shl, Shr, Bits, FromBits, Groups, Rest, AllBits, Masked;
    LeftAligned(acc, bits, tobits);
    if pad {
      if bits == 0 {
        return Ok(sent);
      }
      PaddedGroups(AllBits(data, frombits), tobits);
      return Ok(sent + [Masked(Shl(acc, tobits - bits), tobits)]);
    } else if bits >= frombits {
      return Err(IllegalPadding);
    }
    ZeroMeansZeros(Bits(acc, bits) + Zeros(tobits - bits));
    return if Masked(Shl(acc, tobits - bits), tobits) != 0 then Err(NonZeroPadding) else Ok(sent);
  }

  /** The inner loop: hand out complete groups from the pending bits. */
  method Emit(sent: seq<Byte>, acc: nat, pending: nat, tobits: nat) returns (ret: seq<Byte>, bits: nat)
    requires 1 <= tobits <= 8
    ensures ret == sent + Groups(Bits(acc, pending), tobits)
    ensures Bits(acc, bits) == Rest(Bits(acc, pending), tobits)
  {
    hide Low, Shr, Bits, FromBits, Masked;
    ret, bits := sent, pending;
    while bits >= tobits
      invariant ret + Groups(Bits(acc, bits), tobits) == sent + Groups(Bits(acc, pending), tobits)
      invariant Rest(Bits(acc, bits), tobits) == Rest(Bits(acc, pending), tobits)
    {
      bits := bits - tobits;
      NextGroup(acc, bits, tobits);
      ret := ret + [Masked(Shr(acc, bits), tobits)];
    }
  }

  // ---- the accumulator as a bit string ----

  lemma AtMostByte(width: nat)
    requires width <= 8
    ensures Pow2(width) <= 256
  {
    assert Shl(1, 3) == 8;
    assert Shl(1, 6) == 64;
    if width <= 3 {
    } else if width <= 6 {
    } else {
    }
  }

  lemma {:induction false} BitsValue(x: nat, n: nat)
    ensures FromBits(Bits(x, n)) == Low(x, n)
    decreases n
  {
    if n > 0 {
      BitsValue(x / 2, n - 1);
      assert Bits(x, n)[..n - 1] == Bits(x / 2, n - 1);
    }
  }

  lemma {:induction false} LowLow(x: nat, m: nat, n: nat)
    requires n <= m
    ensures Low(Low(x, m), n) == Low(x, n)
    decreases n
  {
    if n > 0 {
      LowLow(x / 2, m - 1, n - 1);
    }
  }

  /** Bits above the n lowest do not show. */
  lemma {:induction false} BitsLow(x: nat, m: nat, n: nat)
    requires n <= m
    ensures Bits(Low(x, m), n) == Bits(x, n)
    decreases n
  {
    if n > 0 {
      BitsLow(x / 2, m - 1, n - 1);
    }
  }

  lemma {:induction false} LowShl(x: nat, f: nat, m: nat, v: nat)
    requires f <= m && Shr(v, f) == 0
    ensures Low(Shl(x, f), m) + v == Low(Shl(x, f) + v, m)
    decreases f
  {
    if f > 0 {
      LowShl(x, f - 1, m - 1, v / 2);
    }
  }

  lemma {:induction false} BitsShift(x: nat, n: nat, v: nat, f: nat)
    requires Shr(v, f) == 0
    ensures Bits(Shl(x, f) + v, n + f) == Bits(x, n) + Bits(v, f)
    decreases f
  {
    if f > 0 {
      BitsShift(x, n, v / 2, f - 1);
    }
  }

  lemma {:induction false} BitsSplit(x: nat, low: nat, high: nat)
    ensures Bits(x, high + low) == Bits(Shr(x, low), high) + Bits(x, low)
    decreases low
  {
    if low > 0 {
      BitsSplit(x / 2, low - 1, high);
    }
  }

  /** Shifting in a value appends its bits, although the accumulator wraps at 32 bits. */
  lemma Shifted(acc: nat, bits: nat, f: nat, value: Byte)
    requires f <= 8 && bits < 8 && Shr(value, f) == 0
    ensures Bits(Wrapped(Shl(acc, f)) + value, bits + f) == Bits(acc, bits) + Bits(value, f)
  {
    hide Low, Shl, Bits;
    LowShl(acc, f, 32, value);
    BitsLow(Shl(acc, f) + value, 32, bits + f);
    BitsShift(acc, bits, value, f);
  }

  lemma NextGroup(acc: nat, bits: nat, tobits: nat)
    requires 1 <= tobits <= 8
    ensures Masked(Shr(acc, bits), tobits) < 256
    ensures Groups(Bits(acc, bits + tobits), tobits)
         == [Masked(Shr(acc, bits), tobits)] + Groups(Bits(acc, bits), tobits)
    ensures Rest(Bits(acc, bits + tobits), tobits) == Rest(Bits(acc, bits), tobits)
  {
    BitsSplit(acc, bits, tobits);
    BitsValue(Shr(acc, bits), tobits);
    LowLow(Shr(acc, bits), 8, tobits);
    AtMostByte(tobits);
    assert Bits(acc, bits + tobits)[..tobits] == Bits(Shr(acc, bits), tobits);
    assert Bits(acc, bits + tobits)[tobits..] == Bits(acc, bits);
  }

  /** The last group: the pending bits at its left end, zeros after them. */
  lemma LeftAligned(acc: nat, bits: nat, tobits: nat)
    requires bits <= tobits <= 8
    ensures Masked(Shl(acc, tobits - bits), tobits) < 256
    ensures Masked(Shl(acc, tobits - bits), tobits) == FromBits(Bits(acc, bits) + Zeros(tobits - bits))
  {
    hide Low, Shl, Bits, FromBits;
    var f := tobits - bits;
    ZeroBits(f);
    BitsShift(acc, bits, 0, f);
    BitsValue(Shl(acc, f), tobits);
    LowLow(Shl(acc, f), 8, tobits);
    AtMostByte(tobits);
  }

  lemma {:induction false} ZeroBits(n: nat)
    ensures Bits(0, n) == Zeros(n) && Shr(0, n) == 0
  {
    if n > 0 {
      ZeroBits(n - 1);
    }
  }

  lemma {:induction false} ZeroMeansZeros(b: seq<bool>)
    ensures FromBits(b) == 0 <==> true !in b
  {
    if b != [] {
      ZeroMeansZeros(b[..|b| - 1]);
      assert b == b[..|b| - 1] + [b[|b| - 1]];
    }
  }

  // ---- cutting bit strings ----

  lemma {:induction false} AllBitsAppend(data: seq<Byte>, v: Byte, width: nat)
    ensures AllBits(data + [v], width) == AllBits(data, width) + Bits(v, width)
  {
    if data == [] {
      assert data + [v] == [v];
    } else {
      AllBitsAppend(data[1..], v, width);
      assert (data + [v])[1..] == data[1..] + [v];
    }
  }

  lemma {:induction false} GroupsAppend(a: seq<bool>, b: seq<bool>, width: nat)
    requires 1 <= width <= 8
    ensures Groups(a + b, width) == Groups(a, width) + Groups(Rest(a, width) + b, width)
    ensures Rest(a + b, width) == Rest(Rest(a, width) + b, width)
  {
    if |a| >= width {
      GroupsAppend(a[width..], b, width);
      assert (a + b)[..width] == a[..width] && (a + b)[width..] == a[width..] + b;
    }
  }

  lemma NothingYet(frombits: nat, tobits: nat)
    requires 1 <= tobits <= 8
    ensures Cut([], frombits, tobits, [], 0, 0)
  {
  }

  lemma NoFit(data: seq<Byte>, k: nat, frombits: nat, tobits: nat, pad: bool)
    requires 1 <= tobits <= 8 && k < |data| && Shr(data[k], frombits) != 0
    ensures Regrouped(data, frombits, tobits, pad) == Err(DataRange)
  {
    assert data[k] in data;
  }

  /** One value more: what was pending, with the value's bits behind it, is cut on. */
  lemma Absorbed(data: seq<Byte>, k: nat, frombits: nat, tobits: nat, ret: seq<Byte>, acc: nat, bits: nat,
                 more: seq<Byte>, left: nat)
    requires frombits <= 8 && 1 <= tobits <= 8 && k < |data| && Shr(data[k], frombits) == 0
    requires Cut(data[..k], frombits, tobits, ret, acc, bits)
    requires var word := Wrapped(Shl(acc, frombits)) + data[k];
             more == ret + Groups(Bits(word, bits + frombits), tobits)
             && Bits(word, left) == Rest(Bits(word, bits + frombits), tobits)
    ensures Cut(data[..k + 1], frombits, tobits, more, Wrapped(Shl(acc, frombits)) + data[k], left)
  {
    hide Low, Shl, Shr, Bits, Groups, Rest, AllBits, Wrapped;
    assert data[..k + 1] == data[..k] + [data[k]];
    Shifted(acc, bits, frombits, data[k]);
    AllBitsAppend(data[..k], data[k], frombits);
    GroupsAppend(AllBits(data[..k], frombits), Bits(data[k], frombits), tobits);
  }

  lemma PaddedGroups(all: seq<bool>, width: nat)
    requires 1 <= width <= 8 && Rest(all, width) != []
    ensures FromBits(Rest(all, width) + Zeros(width - |Rest(all, width)|)) < 256
    ensures Groups(Padded(all, width), width)
         == Groups(all, width) + [FromBits(Rest(all, width) + Zeros(width - |Rest(all, width)|))]
  {
    var last := Rest(all, width) + Zeros(width - |Rest(all, width)|);
    AtMostByte(width);
    GroupsAppend(all, Zeros(width - |Rest(all, width)|), width);
    assert last[..width] == last && last[width..] == [];
  }

  // ---- regrouping there and back ----

  lemma {:induction false} LowOfFitting(v: nat, n: nat)
    requires Shr(v, n) == 0
    ensures Low(v, n) == v
    decreases n
  {
    if n > 0 {
      LowOfFitting(v / 2, n - 1);
    }
  }

  lemma {:induction false} GroupsOfAllBits(data: seq<Byte>, width: nat)
    requires 1 <= width <= 8 && Fits(data, width)
    ensures Groups(AllBits(data, width), width) == data && Rest(AllBits(data, width), width) == []
  {
    if data != [] {
      GroupsOfAllBits(data[1..], width);
      BitsValue(data[0], width);
      LowOfFitting(data[0], width);
      var all := AllBits(data, width);
      assert all[..width] == Bits(data[0], width) && all[width..] == AllBits(data[1..], width);
    }
  }

  lemma {:induction false} BitsOfValue(b: seq<bool>)
    ensures Bits(FromBits(b), |b|) == b && Shr(FromBits(b), |b|) == 0
  {
    if b != [] {
      BitsOfValue(b[..|b| - 1]);
    }
  }

  lemma {:induction false} AllBitsOfGroups(b: seq<bool>, width: nat)
    requires 1 <= width <= 8 && Rest(b, width) == []
    ensures AllBits(Groups(b, width), width) == b && Fits(Groups(b, width), width)
  {
    hide Bits, FromBits, Shr;
    if b != [] {
      AllBitsOfGroups(b[width..], width);
      BitsOfValue(b[..width]);
      var g := Groups(b, width);
      assert g[1..] == Groups(b[width..], width);
    }
  }

  lemma PaddedIsComplete(b: seq<bool>, width: nat)
    requires 1 <= width <= 8
    ensures Rest(Padded(b, width), width) == []
  {
    if Rest(b, width) != [] {
      var zeros := Zeros(width - |Rest(b, width)|);
      GroupsAppend(b, zeros, width);
      assert (Rest(b, width) + zeros)[width..] == [];
    }
  }

  /** The zero bits that padding adds. */
  function PaddingOf(data: seq<Byte>, frombits: nat, tobits: nat): nat
    requires 1 <= tobits <= 8
  {
    var rest := |Rest(AllBits(data, frombits), tobits)|;
    if rest == 0 then 0 else tobits - rest
  }

  lemma {:induction false} GroupsOfZeros(z: nat, width: nat)
    requires 1 <= width <= 8
    ensures true !in Rest(Zeros(z), width)
    ensures z < width ==> Groups(Zeros(z), width) == [] && Rest(Zeros(z), width) == Zeros(z)
    ensures z >= width ==> Groups(Zeros(z), width) != []
  {
    if z >= width {
      GroupsOfZeros(z - width, width);
      assert Zeros(z)[width..] == Zeros(z - width);
    }
  }

  /** Regrouping with padding and back without it returns the input exactly when the padding
      is shorter than an input group. */
  lemma RoundTripExactly(data: seq<Byte>, f: nat, t: nat)
    requires 1 <= f <= 8 && 1 <= t <= 8 && Fits(data, f)
    ensures Regrouped(data, f, t, true).Ok?
    ensures Regrouped(Regrouped(data, f, t, true).value, t, f, false) == Ok(data)
       <==> PaddingOf(data, f, t) < f
  {
    hide Bits, FromBits, Groups, Rest, AllBits, Fits;
    var all, z := AllBits(data, f), PaddingOf(data, f, t);
    assert Padded(all, t) == all + Zeros(z);
    PaddedIsComplete(all, t);
    AllBitsOfGroups(Padded(all, t), t);
    GroupsOfAllBits(data, f);
    GroupsAppend(all, Zeros(z), f);
    assert [] + Zeros(z) == Zeros(z);
    GroupsOfZeros(z, f);
    var g := Regrouped(data, f, t, true).value;
    assert AllBits(g, t) == all + Zeros(z);
    assert Regrouped(g, t, f, false) == Ok(data + Groups(Zeros(z), f));
    assert data + [] == data;
    assert Groups(Zeros(z), f) != [] ==> |data + Groups(Zeros(z), f)| > |data|;
  }

  lemma EveryByteFits(data: seq<Byte>)
    ensures Fits(data, 8)
  {
  }

  /** For any bytes: 8 to 5 bits with padding never fails, and 5 to 8 without padding undoes it. */
  lemma BytesRoundTrip(data: seq<Byte>)
    ensures Regrouped(data, 8, 5, true).Ok?
    ensures Fits(Regrouped(data, 8, 5, true).value, 5)
    ensures Regrouped(Regrouped(data, 8, 5, true).value, 5, 8, false) == Ok(data)
  {
    hide Bits, FromBits, Groups, Rest, AllBits, Fits;
    EveryByteFits(data);
    RoundTripExactly(data, 8, 5);
    PaddedIsComplete(AllBits(data, 8), 5);
    AllBitsOfGroups(Padded(AllBits(data, 8), 5), 5);
  }
}
