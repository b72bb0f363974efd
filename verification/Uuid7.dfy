/**
  UUIDv7 identifiers (section 5.7 of RFC 9562), built with the bitwise
  operators of unbounded integers.
 */
module Uuid7 {
  import opened Common

  // ------------------------------------------------- bits of natural numbers

  datatype Op = And | Or | AndNot

  function Bit(op: Op, x: nat, y: nat): nat {
    match op
    case And => if x == 1 && y == 1 then 1 else 0
    case Or => if x == 1 || y == 1 then 1 else 0
    case AndNot => if x == 1 && y == 0 then 1 else 0
  }

  /** `a & b`, `a | b` and `a & ~b` */
  function Bitwise(op: Op, a: nat, b: nat): nat
    decreases a + b
  {
    if a == 0 && b == 0 then 0 else 2 * Bitwise(op, a / 2, b / 2) + Bit(op, a % 2, b % 2)
  }

  /** `a << n` */
  function Shl(a: nat, n: nat): nat { if n == 0 then a else 2 * Shl(a, n - 1) }

  /** `a >> n` */
  function Shr(a: nat, n: nat): nat { if n == 0 then a else Shr(a / 2, n - 1) }

  /** The lowest `n` bits. */
  function Low(a: nat, n: nat): nat { if n == 0 then 0 else 2 * Low(a / 2, n - 1) + a % 2 }

  predicate Below(a: nat, n: nat) { a < Shl(1, n) }

  // ----------------------------------------------------------- the generator

  /** The integer `new` hands to `UUID`, given its clock and random bits. */
  function Assemble(timestamp: nat, random: nat): nat {
    WithVariant(WithRandom(Stamped(timestamp, 80, 76), random, 76), 62)
  }

  /** `(timestamp << m) | (0b0111 << q)` */
  function Stamped(timestamp: nat, m: nat, q: nat): nat { Bitwise(Or, Shl(timestamp, m), Shl(7, q)) }

  /** `value | (random & ((1 << q) - 1))` */
  function WithRandom(value: nat, random: nat, q: nat): nat { Bitwise(Or, value, Bitwise(And, random, Mask(q))) }

  /** `(value & ~(0b11 << p)) | (0b10 << p)` */
  function WithVariant(value: nat, p: nat): nat { Bitwise(Or, Bitwise(AndNot, value, Shl(3, p)), Shl(2, p)) }

  /** `(1 << n) - 1`, as `MaskIs` states */
  function Mask(n: nat): nat { if n == 0 then 0 else 2 * Mask(n - 1) + 1 }

  /** `UUID(int=value)` refuses more than 128 bits. */
  function New(timestamp: nat, random: nat): Option<nat> {
    var value := Assemble(timestamp, random);
    if Below(value, 128) then Some(value) else None
  }

  // ---------------------------------------------------------------- bit laws

  lemma {:induction false} MaskIs(n: nat)
    ensures Mask(n) == Shl(1, n) - 1
  {
    if n > 0 { MaskIs(n - 1); }
  }

  lemma {:induction false} ShlZero(n: nat)
    ensures Shl(0, n) == 0
  {
    if n > 0 { ShlZero(n - 1); }
  }

  lemma {:induction false} ShlAdds(a: nat, b: nat, n: nat)
    ensures Shl(a + b, n) == Shl(a, n) + Shl(b, n)
  {
    if n > 0 { ShlAdds(a, b, n - 1); }
  }

  lemma {:induction false} ShlGrows(a: nat, b: nat, n: nat)
    ensures a < b ==> Shl(a, n) + Shl(1, n) <= Shl(b, n)
  {
    if n > 0 { ShlGrows(a, b, n - 1); }
  }

  lemma {:induction false} ShlShl(a: nat, m: nat, n: nat)
    ensures Shl(Shl(a, m), n) == Shl(a, m + n)
  {
    if n > 0 { ShlShl(a, m, n - 1); }
  }

  /** A number is its high part shifted, plus its low part. */
  lemma {:induction false} Parts(a: nat, n: nat)
    ensures a == Shl(Shr(a, n), n) + Low(a, n) && Below(Low(a, n), n)
  {
    if n > 0 { Parts(a / 2, n - 1); }
  }

  /** And those parts are the only ones. */
  lemma {:induction false} PartsAreUnique(hi: nat, lo: nat, n: nat)
    requires Below(lo, n)
    ensures Shr(Shl(hi, n) + lo, n) == hi && Low(Shl(hi, n) + lo, n) == lo
  {
    if n > 0 {
      var x := Shl(hi, n) + lo;
      assert x / 2 == Shl(hi, n - 1) + lo / 2 && x % 2 == lo % 2;
      PartsAreUnique(hi, lo / 2, n - 1);
    }
  }

  lemma HalfShl(a: nat, b: nat, n: nat)
    requires n > 0
    ensures (Shl(a, n) + b) / 2 == Shl(a, n - 1) + b / 2 && (Shl(a, n) + b) % 2 == b % 2
  {
  }

  /** Bitwise operators work on high and low parts separately. */
  lemma {:induction false} Blocks(op: Op, a: nat, b: nat, c: nat, d: nat, n: nat)
    requires Below(b, n) && Below(d, n)
    ensures Bitwise(op, Shl(a, n) + b, Shl(c, n) + d) == Shl(Bitwise(op, a, c), n) + Bitwise(op, b, d)
  {
    if n == 0 {
      assert b == 0 && d == 0;
    } else {
      HalfShl(a, b, n);
      HalfShl(c, d, n);
      Blocks(op, a, b / 2, c, d / 2, n - 1);
      Doubled(op, Shl(a, n) + b, Shl(c, n) + d);
      Doubled(op, b, d);
    }
  }

  lemma Doubled(op: Op, a: nat, b: nat)
    ensures Bitwise(op, a, b) == 2 * Bitwise(op, a / 2, b / 2) + Bit(op, a % 2, b % 2)
  {
  }

  lemma {:induction false} NothingThere(a: nat)
    ensures Bitwise(Or, a, 0) == a && Bitwise(Or, 0, a) == a && Bitwise(AndNot, a, 0) == a
  {
    if a > 0 { NothingThere(a / 2); }
  }

  lemma {:induction false} MaskedIsLow(a: nat, n: nat)
    ensures Bitwise(And, a, Mask(n)) == Low(a, n)
  {
    if n == 0 {
      AndZero(a);
    } else {
      assert Mask(n) / 2 == Mask(n - 1) && Mask(n) % 2 == 1;
      MaskedIsLow(a / 2, n - 1);
    }
  }

  lemma {:induction false} AndZero(a: nat)
    ensures Bitwise(And, a, 0) == 0
  {
    if a > 0 { AndZero(a / 2); }
  }

  /** Setting bits above a number that has none there is adding them. */
  lemma OrAbove(hi: nat, lo: nat, n: nat)
    requires Below(lo, n)
    ensures Bitwise(Or, Shl(hi, n), lo) == Shl(hi, n) + lo
  {
    ShlZero(n);
    ShlPositive(n);
    Blocks(Or, hi, 0, 0, lo, n);
    NothingThere(hi);
    NothingThere(lo);
  }

  lemma {:induction false} ShlPositive(n: nat)
    ensures Shl(1, n) > 0
  {
    if n > 0 { ShlPositive(n - 1); }
  }

  /** Overwriting the two bits at `n` with `two`. */
  lemma Overwrite(hi: nat, mid: nat, lo: nat, n: nat, two: nat)
    requires mid < 4 && two < 4 && Below(lo, n)
    ensures Bitwise(Or, Bitwise(AndNot, Shl(Shl(hi, 2) + mid, n) + lo, Shl(3, n)), Shl(two, n))
         == Shl(Shl(hi, 2) + two, n) + lo
  {
    var top := Shl(hi, 2);
    TwoBits(hi, mid, two);
    ApplyAt(AndNot, top + mid, lo, 3, n);
    ApplyAt(Or, top, lo, two, n);
  }

  lemma {:induction false} ApplyAt(op: Op, hi: nat, lo: nat, bits: nat, n: nat)
    requires Below(lo, n) && !op.And?
    ensures Bitwise(op, Shl(hi, n) + lo, Shl(bits, n)) == Shl(Bitwise(op, hi, bits), n) + lo
  {
    if n > 0 {
      HalfShl(hi, lo, n);
      HalfShl(bits, 0, n);
      Doubled(op, Shl(hi, n) + lo, Shl(bits, n));
      ApplyAt(op, hi, lo / 2, bits, n - 1);
    }
  }

  lemma TwoBits(hi: nat, mid: nat, two: nat)
    requires mid < 4 && two < 4
    ensures Bitwise(AndNot, Shl(hi, 2) + mid, 3) == Shl(hi, 2) && Bitwise(Or, Shl(hi, 2), two) == Shl(hi, 2) + two
  {
    assert Shl(hi, 2) == 2 * Shl(hi, 1) && Shl(hi, 1) == 2 * Shl(hi, 0) && Shl(1, 2) == 4;
    Blocks(AndNot, hi, mid, 0, 3, 2);
    assert Shl(0, 2) == 0;
    NothingThere(hi);
    ClearsTwo(mid);
    OrAbove(hi, two, 2);
  }

  lemma ClearsTwo(mid: nat)
    requires mid < 4
    ensures Bitwise(AndNot, mid, 3) == 0
  {
    Doubled(AndNot, mid, 3);
    Doubled(AndNot, mid / 2, 1);
    assert mid / 2 / 2 == 0;
  }

  // -------------------------------------------------------------- the layout

  /** Timestamp, version 7, twelve random bits, variant 10, `p` random bits. */
  function LayoutAt(timestamp: nat, high: nat, low: nat, p: nat): nat {
    Shl(Shl(Shl(Shl(timestamp, 4) + 7, 12) + high, 2) + 2, p) + low
  }

  function Layout(timestamp: nat, high: nat, low: nat): nat { LayoutAt(timestamp, high, low, 62) }

  /** The random bits that survive: all but numbers 62 and 63. */
  function High(random: nat): nat { Low(Shr(random, 64), 12) }

  function Rest(random: nat): nat { Low(random, 62) }

  lemma {:induction false} LowLow(a: nat, m: nat, n: nat)
    ensures Low(Low(a, m + n), n) == Low(a, n)
  {
    if n > 0 {
      var x := Low(a, m + n);
      assert x == 2 * Low(a / 2, m + n - 1) + a % 2;
      LowLow(a / 2, m, n - 1);
    }
  }

  lemma {:induction false} ShrLow(a: nat, m: nat, n: nat)
    ensures Shr(Low(a, m + n), n) == Low(Shr(a, n), m)
  {
    if n > 0 {
      var x := Low(a, m + n);
      assert x == 2 * Low(a / 2, m + n - 1) + a % 2;
      ShrLow(a / 2, m, n - 1);
    }
  }

  lemma {:induction false} ShrShr(a: nat, m: nat, n: nat)
    ensures Shr(Shr(a, n), m) == Shr(a, m + n)
  {
    if n > 0 { ShrShr(a / 2, m, n - 1); }
  }

  /** The masked random bits, in three parts. */
  lemma RandomParts(random: nat, p: nat) returns (mid: nat)
    ensures mid < 4
    ensures Low(random, p + 14) == Shl(Shl(Low(Shr(random, p + 2), 12), 2) + mid, p) + Low(random, p)
  {
    var r := Low(random, p + 14);
    mid := Low(Shr(r, p), 2);
    assert p + 14 == 12 + (p + 2) == 14 + p && p + 2 == 2 + p;
    Parts(r, p);
    Parts(Shr(r, p), 2);
    assert Shl(1, 2) == 4;
    LowLow(random, 14, p);
    ShrShr(r, 2, p);
    ShrLow(random, 12, p + 2);
  }

  /** Putting the version below the timestamp. */
  lemma VersionBelow(timestamp: nat, m: nat, n: nat)
    requires m == n + 4
    ensures Bitwise(Or, Shl(timestamp, m), Shl(7, n)) == Shl(Shl(timestamp, 4) + 7, n)
  {
    assert Below(Shl(7, n), m) by {
      ShlShl(1, 4, n);
      assert Shl(1, 4) == 16;
      ShlGrows(7, 16, n);
      ShlPositive(n);
    }
    OrAbove(timestamp, Shl(7, n), m);
    ShlShl(timestamp, 4, n);
    ShlAdds(Shl(timestamp, 4), 7, n);
  }

  lemma WithRandomIs(v: nat, random: nat, q: nat)
    ensures WithRandom(Shl(v, q), random, q) == Shl(v, q) + Low(random, q)
  {
    MaskedIsLow(random, q);
    Parts(random, q);
    OrAbove(v, Low(random, q), q);
  }

  lemma Regroup(v: nat, h: nat, mid: nat, l: nat, p: nat)
    ensures Shl(v, p + 14) + (Shl(Shl(h, 2) + mid, p) + l) == Shl(Shl(Shl(v, 12) + h, 2) + mid, p) + l
  {
    ShlAdds(Shl(v, 12), h, 2);
    ShlShl(v, 12, 2);
    ShlShl(v, 14, p);
    assert 14 + p == p + 14;
    ShlAdds(Shl(v, 14), Shl(h, 2) + mid, p);
  }

  lemma RegroupRandom(v: nat, random: nat, p: nat) returns (mid: nat)
    ensures mid < 4 && Below(Low(random, p), p)
    ensures Shl(v, p + 14) + Low(random, p + 14) ==
            Shl(Shl(Shl(v, 12) + Low(Shr(random, p + 2), 12), 2) + mid, p) + Low(random, p)
  {
    mid := RandomParts(random, p);
    Regroup(v, Low(Shr(random, p + 2), 12), mid, Low(random, p), p);
    Parts(random, p);
  }

  lemma AssembledAt(timestamp: nat, random: nat, m: nat, q: nat, p2: nat, p: nat)
    requires m == q + 4 && q == p + 14 && p2 == p + 2
    ensures WithVariant(WithRandom(Stamped(timestamp, m, q), random, q), p)
         == LayoutAt(timestamp, Low(Shr(random, p2), 12), Low(random, p), p)
  {
    var v := Shl(timestamp, 4) + 7;
    VersionBelow(timestamp, m, q);
    WithRandomIs(v, random, q);
    var mid := RegroupRandom(v, random, p);
    Overwrite(Shl(v, 12) + Low(Shr(random, p2), 12), mid, Low(random, p), p, 2);
  }

  /** What the bit operations of `new` build is the layout of the standard. */
  lemma AssembleIsLayout(timestamp: nat, random: nat)
    ensures Assemble(timestamp, random) == Layout(timestamp, High(random), Rest(random))
  {
    AssembledAt(timestamp, random, 80, 76, 64, 62);
  }

  // --------------------------------------------------------- what it promises

  lemma {:induction false} BelowShr(a: nat, k: nat, n: nat)
    ensures Below(a, k + n) <==> Below(Shr(a, n), k)
  {
    if n > 0 { BelowShr(a / 2, k, n - 1); }
  }

  lemma {:induction false} ShrIsMonotone(a: nat, b: nat, n: nat)
    requires a <= b
    ensures Shr(a, n) <= Shr(b, n)
  {
    if n > 0 { ShrIsMonotone(a / 2, b / 2, n - 1); }
  }

  lemma {:induction false} LowOfSmall(a: nat, n: nat)
    requires Below(a, n)
    ensures Low(a, n) == a
  {
    if n > 0 { LowOfSmall(a / 2, n - 1); }
  }

  lemma FieldsAt(timestamp: nat, high: nat, low: nat, p: nat)
    requires Below(high, 12) && Below(low, p)
    ensures var x := LayoutAt(timestamp, high, low, p);
            && Low(x, p) == low && Low(Shr(x, p), 2) == 2 && Low(Shr(x, p + 2), 12) == high
            && Low(Shr(x, p + 14), 4) == 7 && Shr(x, p + 18) == timestamp
  {
    var x := LayoutAt(timestamp, high, low, p);
    var v := Shl(timestamp, 4) + 7;
    var w := Shl(v, 12) + high;
    var y := Shl(w, 2) + 2;
    assert Shl(1, 2) == 4 && Shl(1, 4) == 16;
    PartsAreUnique(y, low, p);
    PartsAreUnique(w, 2, 2);
    PartsAreUnique(v, high, 12);
    PartsAreUnique(timestamp, 7, 4);
    assert Shr(x, p) == y;
    ShrShr(x, 2, p);
    ShrShr(x, 12, 2 + p);
    ShrShr(x, 4, 12 + (2 + p));
    assert 2 + p == p + 2 && 12 + (2 + p) == p + 14 && 4 + (12 + (2 + p)) == p + 18;
  }

  /** Every identifier carries version 7 and variant 10, gives its timestamp
      back by shifting, and holds all random bits but two. */
  lemma IdentifierFields(timestamp: nat, random: nat)
    ensures var x := Assemble(timestamp, random);
            && Shr(x, 80) == timestamp
            && Low(Shr(x, 76), 4) == 7
            && Low(Shr(x, 64), 12) == High(random)
            && Low(Shr(x, 62), 2) == 2
            && Low(x, 62) == Rest(random)
  {
    AssembleIsLayout(timestamp, random);
    Parts(Shr(random, 64), 12);
    Parts(random, 62);
    FieldsAt(timestamp, High(random), Rest(random), 62);
  }

  function Pow2(n: nat): (r: nat)
    ensures r > 0
  {
    if n == 0 then 1 else 2 * Pow2(n - 1)
  }

  lemma HalfMod(a: nat, p: nat)
    requires p > 0
    ensures a / 2 / p == a / (2 * p) && 2 * (a / 2 % p) + a % 2 == a % (2 * p)
  {
    var q, r := a / 2 / p, a / 2 % p;
    assert a == 2 * (a / 2) + a % 2 && a / 2 == q * p + r;
    Quotient(a, 2 * p, q, 2 * r + a % 2);
  }

  lemma OneAtLeast(k: int, b: int)
    requires k >= 1 && b > 0
    ensures k * b >= b
  {
    assert (k - 1) * b >= 0;
  }

  lemma NoMultiple(k: int, b: int)
    requires -b < k * b < b
    ensures k == 0
  {
    if k >= 1 { OneAtLeast(k, b); } else if k <= -1 { OneAtLeast(-k, b); }
  }

  lemma Quotient(a: nat, b: nat, q: nat, r: nat)
    requires r < b && a == q * b + r
    ensures a / b == q && a % b == r
  {
    var k := a / b - q;
    assert a / b * b + a % b == a;
    assert k * b == a / b * b - q * b;
    NoMultiple(k, b);
  }

  /** Shifts and masks are products, quotients and remainders. */
  lemma {:induction false} ShiftsExactly(a: nat, n: nat)
    ensures Shl(a, n) == a * Pow2(n) && Shr(a, n) == a / Pow2(n) && Low(a, n) == a % Pow2(n)
  {
    ShlIsProduct(a, n);
    if n > 0 {
      ShiftsExactly(a / 2, n - 1);
      HalfMod(a, Pow2(n - 1));
    }
  }

  lemma {:induction false} ShlIsProduct(a: nat, n: nat)
    ensures Shl(a, n) == a * Pow2(n)
  {
    if n > 0 {
      ShlIsProduct(a, n - 1);
      assert a * (2 * Pow2(n - 1)) == 2 * (a * Pow2(n - 1));
    }
  }

  lemma FourUp(n: nat)
    ensures Pow2(n + 2) == 4 * Pow2(n) && Pow2(n + 4) == 16 * Pow2(n)
  {
    assert Pow2(n + 1) == 2 * Pow2(n);
    assert Pow2(n + 2) == 2 * Pow2(n + 1);
    assert Pow2(n + 3) == 2 * Pow2(n + 2);
    assert Pow2(n + 4) == 2 * Pow2(n + 3);
  }

  lemma TwelveUp(n: nat)
    ensures Pow2(n + 2) == 4 * Pow2(n) && Pow2(n + 4) == 16 * Pow2(n) && Pow2(n + 12) == 4096 * Pow2(n)
  {
    FourUp(n);
    FourUp(n + 4);
    FourUp(n + 8);
  }

  lemma LayoutSum(t: nat, high: nat, low: nat, p: nat)
    ensures (((t * 16 + 7) * 4096 + high) * 4 + 2) * p + low ==
            t * (16 * (4096 * (4 * p))) + 7 * (4096 * (4 * p)) + high * (4 * p) + 2 * p + low
  {
  }

  lemma LayoutIs(t: nat, high: nat, low: nat, p: nat)
    ensures LayoutAt(t, high, low, p) ==
            t * Pow2(p + 18) + 7 * Pow2(p + 14) + high * Pow2(p + 2) + 2 * Pow2(p) + low
  {
    assert Shl(t, 4) == t * 16 by {
      ShiftsExactly(t, 4);
      assert Pow2(4) == 16;
    }
    var v := t * 16 + 7;
    assert Shl(v, 12) == v * 4096 by {
      ShiftsExactly(v, 12);
      TwelveUp(0);
    }
    var w := v * 4096 + high;
    assert Shl(w, 2) == w * 4 by {
      ShiftsExactly(w, 2);
      assert Pow2(2) == 4;
    }
    ShiftsExactly(w * 4 + 2, p);
    TwelveUp(p);
    TwelveUp(p + 2);
    TwelveUp(p + 14);
    LayoutSum(t, high, low, Pow2(p));
  }

  lemma PiecesAre(random: nat, p2: nat, p: nat)
    ensures Low(Shr(random, p2), 12) == random / Pow2(p2) % 4096 && Low(random, p) == random % Pow2(p)
  {
    ShiftsExactly(random, p2);
    ShiftsExactly(Shr(random, p2), 12);
    TwelveUp(0);
    ShiftsExactly(random, p);
  }

  lemma NumberAt(timestamp: nat, random: nat, m: nat, q: nat, p2: nat, p: nat)
    requires m == q + 4 && q == p + 14 && p2 == p + 2
    ensures WithVariant(WithRandom(Stamped(timestamp, m, q), random, q), p) ==
            timestamp * Pow2(m) + 7 * Pow2(q) + random / Pow2(p2) % 4096 * Pow2(p2) + 2 * Pow2(p) + random % Pow2(p)
  {
    AssembledAt(timestamp, random, m, q, p2, p);
    PiecesAre(random, p2, p);
    LayoutIs(timestamp, Low(Shr(random, p2), 12), Low(random, p), p);
  }

  /** The identifier as a number: timestamp, version 7, twelve random bits,
      variant 2 and 62 random bits, at their places. */
  lemma IdentifierIs(timestamp: nat, random: nat)
    ensures Assemble(timestamp, random) ==
            timestamp * Pow2(80) + 7 * Pow2(76) + random / Pow2(64) % 4096 * Pow2(64) + 2 * Pow2(62)
            + random % Pow2(62)
  {
    NumberAt(timestamp, random, 80, 76, 64, 62);
  }

  lemma TimestampComesBack(timestamp: nat, random: nat)
    ensures Shr(Assemble(timestamp, random), 80) == timestamp
  {
    IdentifierFields(timestamp, random);
  }

  lemma BelowByStamp(x: nat, timestamp: nat, k: nat, n: nat, m: nat)
    requires Shr(x, n) == timestamp && m == k + n
    ensures Below(x, m) <==> Below(timestamp, k)
  {
    BelowShr(x, k, n);
  }

  /** An identifier is made exactly for timestamps below 2^48. */
  lemma FitsExactly(timestamp: nat, random: nat)
    ensures New(timestamp, random).Some? <==> Below(timestamp, 48)
  {
    TimestampComesBack(timestamp, random);
    BelowByStamp(Assemble(timestamp, random), timestamp, 48, 80, 128);
  }

  lemma OrderedByStamp(x: nat, y: nat, n: nat)
    requires Shr(x, n) < Shr(y, n)
    ensures x < y
  {
  }

  /** Identifiers of a later millisecond are larger, whatever the random bits. */
  lemma LaterIsLarger(t: nat, r: nat, u: nat, q: nat)
    requires t < u
    ensures Assemble(t, r) < Assemble(u, q)
  {
    TimestampComesBack(t, r);
    TimestampComesBack(u, q);
    OrderedByStamp(Assemble(t, r), Assemble(u, q), 80);
  }

  lemma HighOfRandom(random: nat)
    requires Below(random, 74)
    ensures High(random) == Shr(random, 64)
  {
    BelowWider(Shr(random, 64), random, 10, 64, 74);
  }

  lemma BelowWider(high: nat, random: nat, k: nat, n: nat, m: nat)
    requires m == k + n && high == Shr(random, n) && Below(random, m)
    ensures Low(high, k + 2) == high
  {
    BelowShr(random, k, n);
    assert Shl(1, k + 2) == 2 * Shl(1, k + 1) && Shl(1, k + 1) == 2 * Shl(1, k);
    LowOfSmall(high, k + 2);
  }

  /** With 74 random bits, two identifiers coincide exactly when their
      timestamps and their random bits other than numbers 62 and 63 do. */
  lemma CoincideExactly(t: nat, r: nat, u: nat, q: nat)
    requires Below(r, 74) && Below(q, 74)
    ensures Assemble(t, r) == Assemble(u, q) <==> t == u && Shr(r, 64) == Shr(q, 64) && Low(r, 62) == Low(q, 62)
  {
    HighOfRandom(r);
    HighOfRandom(q);
    IdentifierFields(t, r);
    IdentifierFields(u, q);
    AssembleIsLayout(t, r);
    AssembleIsLayout(u, q);
  }
}
