/** Fixed-point numbers as integers: rounding down, wrapping around, and what both
    do to a value. */
module FixedPoint {
  /** The number from -half to half - 1 that is congruent to v modulo 2 * half. */
  function Wrap(v: int, half: int): (r: int)
    requires half > 0
    ensures -half <= r < half
    decreases if v < 0 then -2 * v else 2 * v + 1
  {
    if v < -half then Wrap(v + 2 * half, half) else if v >= half then Wrap(v - 2 * half, half) else v
  }

  /** The multiple of the modulus that is taken off. */
  lemma {:induction false} Turns(v: int, half: int) returns (q: int)
    requires half > 0
    ensures Wrap(v, half) == v - q * (2 * half)
    decreases if v < 0 then -2 * v else 2 * v + 1
  {
    if -half <= v < half {
      q := 0;
    } else {
      var d := if v < 0 then 1 else -1;
      var rest := Turns(v + d * (2 * half), half);
      q := rest - d;
      assert (rest - d) * (2 * half) == rest * (2 * half) - d * (2 * half);
    }
  }

  const M31: nat := 0x8000_0000

  /** In units of 1/scale of e's, y is e rounded down by at most b, up to multiples
      of 2^31. */
  ghost predicate Near(e: int, y: int, scale: int, b: int) {
    exists k: int :: Within(e, y, scale, b, k)
  }

  ghost predicate Within(e: int, y: int, scale: int, b: int, k: int) {
    0 <= e - y * scale - k * M31 <= b
  }

  lemma {:induction false} NearAdd(e: int, y: int, b: int, e': int, y': int, b': int, scale: int)
    requires Near(e, y, scale, b) && Near(e', y', scale, b')
    ensures Near(e + e', y + y', scale, b + b')
  {
    var k :| Within(e, y, scale, b, k);
    var k' :| Within(e', y', scale, b', k');
    assert (y + y') * scale == y * scale + y' * scale;
    assert Within(e + e', y + y', scale, b + b', k + k');
  }

  /** Wrapping around goes unnoticed if the modulus is a multiple of 2^31. */
  lemma {:induction false} NearWrap(e: int, y: int, scale: int, b: int, half: int, m: int)
    requires Near(e, y, scale, b) && half > 0 && 2 * half * scale == m * M31
    ensures Near(e, Wrap(y, half), scale, b)
  {
    var k :| Within(e, y, scale, b, k);
    var q := Turns(y, half);
    Scaled(y, q, 2 * half, scale, m * M31);
    assert q * (m * M31) == (q * m) * M31;
    assert Within(e, Wrap(y, half), scale, b, k + q * m);
  }

  lemma {:induction false} Scaled(y: int, q: int, t: int, scale: int, u: int)
    requires t * scale == u
    ensures (y - q * t) * scale == y * scale - q * u
  {
    assert (y - q * t) * scale == y * scale - q * t * scale;
    assert q * t * scale == q * (t * scale);
  }

  lemma {:induction false} NearTruncate(e: int, y: int, scale: int, b: int, t: int)
    requires Near(e, y, scale, b) && t > 0 && scale > 0
    ensures Near(e, y / t, scale * t, b + (t - 1) * scale)
  {
    var k :| Within(e, y, scale, b, k);
    var q, r := y / t, y % t;
    assert y == q * t + r;
    assert y * scale == q * (scale * t) + r * scale;
    assert 0 <= r * scale <= (t - 1) * scale;
    assert Within(e, q, scale * t, b + (t - 1) * scale, k);
  }

  lemma {:induction false} NearSelf(e: int)
    ensures Near(e, e, 1, 0)
  {
    assert Within(e, e, 1, 0, 0);
  }
}

/** What fir_super computes: one serial filter. */
module SerialFir {
  /** Samples before the first one and after the last one are zero. */
  function At(x: seq<int>, n: int): int {
    if 0 <= n < |x| then x[n] else 0
  }

  /** The serial filter: the sum of c[k] * x[n - k] over the first m taps. */
  function Serial(c: seq<int>, x: seq<int>, n: int, m: nat): int
    requires m <= |c|
  {
    if m == 0 then 0 else Serial(c, x, n, m - 1) + c[m - 1] * At(x, n - (m - 1))
  }

  /** Every fourth tap from tap r on. */
  function Branch(c: seq<int>, x: seq<int>, n: int, r: nat, m: nat): int
    requires r < 4 && 4 * m <= |c|
  {
    if m == 0 then 0 else Branch(c, x, n, r, m - 1) + c[4 * (m - 1) + r] * At(x, n - (4 * (m - 1) + r))
  }

  /** The polyphase decomposition. */
  lemma {:induction false} FourBranches(c: seq<int>, x: seq<int>, n: int, m: nat)
    requires 4 * m <= |c|
    ensures Serial(c, x, n, 4 * m)
            == Branch(c, x, n, 0, m) + Branch(c, x, n, 1, m) + Branch(c, x, n, 2, m) + Branch(c, x, n, 3, m)
  {
    if m > 0 {
      FourBranches(c, x, n, m - 1);
      var k := 4 * (m - 1);
      assert Serial(c, x, n, k + 4) == Serial(c, x, n, k + 3) + c[k + 3] * At(x, n - (k + 3));
      assert Serial(c, x, n, k + 3) == Serial(c, x, n, k + 2) + c[k + 2] * At(x, n - (k + 2));
      assert Serial(c, x, n, k + 2) == Serial(c, x, n, k + 1) + c[k + 1] * At(x, n - (k + 1));
      assert Serial(c, x, n, k + 1) == Serial(c, x, n, k) + c[k] * At(x, n - k);
    }
  }
}

/** fir_nosym_obj: a filter of ncoef taps. */
module SubFilter {
  import opened Sealing
  import opened FixedPoint
  import opened SerialFir

  const NCOEF: nat := 32
  const BOUND: nat := 32 * 0x7ff + 15 * 0x800   // less than 2^16 + 2^15

  /** A product keeps nineteen of its thirty fraction bits, in 21 bits. */
  function Prod(x: int, c: int): int {
    Wrap(x * c / 0x800, 0x10_0000)
  }

  /** The accumulator has 25 bits. */
  function Mac(x: int, c: int, acc: int): int {
    Wrap(Prod(x, c) + acc, 0x100_0000)
  }

  function Acc(regs: seq<int>, c: seq<int>, i: nat): int
    requires i <= |regs| && i <= |c|
  {
    if i == 0 then 0 else Mac(regs[i - 1], c[i - 1], Acc(regs, c, i - 1))
  }

  /** The accumulator as data: fifteen fraction bits in sixteen bits. */
  function ToData(acc: int): int {
    Wrap(acc / 16, 0x8000)
  }

  function Dot(regs: seq<int>, c: seq<int>, i: nat): int
    requires i <= |regs| && i <= |c|
  {
    if i == 0 then 0 else Dot(regs, c, i - 1) + regs[i - 1] * c[i - 1]
  }

  /** Truncation takes less than 2^11 from each product, and wrapping nothing that
      is not a multiple of 2^31. */
  lemma {:induction false} AccNear(regs: seq<int>, c: seq<int>, i: nat)
    requires i <= |regs| && i <= |c|
    ensures Near(Dot(regs, c, i), Acc(regs, c, i), 0x800, i * 0x7ff)
  {
    if i == 0 {
      assert Within(0, 0, 0x800, 0, 0);
    } else {
      AccNear(regs, c, i - 1);
      var x, k := regs[i - 1], c[i - 1];
      ProdNear(x, k);
      NearAdd(x * k, Prod(x, k), 0x7ff, Dot(regs, c, i - 1), Acc(regs, c, i - 1), (i - 1) * 0x7ff, 0x800);
      NearWrap(Dot(regs, c, i), Prod(x, k) + Acc(regs, c, i - 1), 0x800, i * 0x7ff, 0x100_0000, 32);
    }
  }

  lemma {:induction false} ProdNear(x: int, k: int)
    ensures Near(x * k, Prod(x, k), 0x800, 0x7ff)
  {
    NearSelf(x * k);
    NearTruncate(x * k, x * k, 1, 0, 0x800);
    NearWrap(x * k, x * k / 0x800, 0x800, 0x7ff, 0x10_0000, 2);
  }

  lemma {:induction false} OutputNear(regs: seq<int>, c: seq<int>)
    requires |regs| == |c| == NCOEF
    ensures Near(Dot(regs, c, NCOEF), ToData(Acc(regs, c, NCOEF)), 0x8000, BOUND)
  {
    AccNear(regs, c, NCOEF);
    var e, acc := Dot(regs, c, NCOEF), Acc(regs, c, NCOEF);
    NearTruncate(e, acc, 0x800, 32 * 0x7ff, 16);
    NearWrap(e, acc / 16, 0x8000, BOUND, 0x8000, 1);
  }

  /** Every fourth sample, back from number `base`. */
  function Fourth(x: seq<int>, base: int): (regs: seq<int>)
    ensures |regs| == NCOEF && forall i :: 0 <= i < NCOEF ==> regs[i] == At(x, base - 4 * i)
  {
    seq(NCOEF, i requires 0 <= i < NCOEF => At(x, base - 4 * i))
  }

  /** Shifting in the next one. */
  lemma {:induction false} FourthShift(x: seq<int>, base: int, din: int, more: seq<int>)
    requires base < |x| && din == At(x + more, base + 4)
    ensures [din] + Fourth(x, base)[..NCOEF - 1] == Fourth(x + more, base + 4)
  {
    forall i | 0 < i < NCOEF ensures At(x + more, base + 4 - 4 * i) == Fourth(x, base)[i - 1] {
      assert At(x + more, base + 4 - 4 * i) == At(x, base - 4 * (i - 1));
    }
  }

  /** Coefficient bank number r. */
  function Bank(coef: seq<int>, r: nat): (c: seq<int>)
    requires |coef| == 4 * NCOEF && r < 4
    ensures |c| == NCOEF
  {
    seq(NCOEF, k requires 0 <= k < NCOEF => coef[4 * k + r])
  }

  /** Its dot product with a bank is a branch of the serial filter. */
  lemma {:induction false} DotIsBranch(x: seq<int>, coef: seq<int>, r: nat, n: int, m: nat)
    requires |coef| == 4 * NCOEF && r < 4 && m <= NCOEF
    ensures Dot(Fourth(x, n - r), Bank(coef, r), m) == Branch(coef, x, n, r, m)
  {
    if m > 0 {
      DotIsBranch(x, coef, r, n, m - 1);
      assert n - (4 * (m - 1) + r) == n - r - 4 * (m - 1);
    }
  }

  /** What a sub-filter outputs when it holds every fourth sample back from number
      base. */
  function Sub(coef: seq<int>, x: seq<int>, base: int, r: nat): int
    requires |coef| == 4 * NCOEF && r < 4
  {
    var regs := Fourth(x, base);
    ToData(Acc(regs, Bank(coef, r), |regs|))
  }

  /** The coefficient table: row r holds every fourth coefficient from r on. */
  ghost predicate IsTable(cin: array2<int>, coef: seq<int>)
    reads cin
  {
    && |coef| == 4 * NCOEF && cin.Length0 == 4 && cin.Length1 == NCOEF
    && forall kind {:trigger Opened(kind)} :: Opened(kind) && kind == TABLE ==>
         forall r, k :: 0 <= r < 4 && 0 <= k < NCOEF ==> cin[r, k] == coef[4 * k + r]
  }

  // Kinds of sealed facts.
  const FILTER: nat := 0
  const PHASE: nat := 1
  const VALUE: nat := 2
  const SUPER: nat := 27
  const TABLE: nat := 28

  ghost predicate IsSub(d: int, coef: seq<int>, x: seq<int>, base: int, r: nat)
    requires |coef| == 4 * NCOEF && r < 4
  {
    forall k {:trigger Opened(k)} :: Opened(k) && k == VALUE ==> d == Sub(coef, x, base, r)
  }

  class FirNosymObj {
    const shift_reg: array<int>
    var acc: int

    /** The registers hold every fourth sample, back from the one that is `lag` before
        the end of x. */
    ghost predicate Holds(x: seq<int>, lag: int)
      reads shift_reg
    {
      forall k {:trigger Opened(k)} :: Opened(k) && k == FILTER ==>
        shift_reg.Length == NCOEF && shift_reg[..] == Fourth(x, |x| - lag)
    }

    constructor ()
      ensures (forall lag :: lag > 0 ==> Holds([], lag)) && fresh(shift_reg)
    {
      shift_reg := new int[NCOEF](_ => 0);
      acc := 0;
      new;
      forall lag | lag > 0 ensures Holds([], lag) {
        assert shift_reg[..] == Fourth([], 0 - lag);
      }
    }

    /** The output does not depend on the sample that is shifted in. */
    method Process(din: int, cin: array2<int>, r: nat, ghost coef: seq<int>, ghost x: seq<int>, ghost lag: int,
                   ghost more: seq<int>)
      returns (dout: int)
      requires IsTable(cin, coef) && r < 4
      requires Holds(x, lag) && lag > 0 && |more| == 4 && din == At(x + more, |x| + 4 - lag)
      modifies this, shift_reg
      ensures IsSub(dout, coef, x, |x| - lag, r) && Holds(x + more, lag)
    {
      assert Opened(FILTER) && Opened(TABLE);
      ghost var base := |x| - lag;
      ghost var regs, c := Fourth(x, base), Bank(coef, r);
      acc := 0;
      for i := 0 to NCOEF
        invariant shift_reg[..] == regs
        invariant acc == Acc(regs, c, i)
      {
        acc := Mac(shift_reg[i], cin[r, i], acc);
      }
      FourthShift(x, base, din, more);
      Shift(din);
      dout := ToData(acc);
    }

    method Shift(din: int)
      requires shift_reg.Length == NCOEF
      modifies shift_reg
      ensures shift_reg[..] == [din] + old(shift_reg[..])[..NCOEF - 1]
    {
      for i := NCOEF - 1 downto 0
        invariant forall j :: 0 <= j <= i ==> shift_reg[j] == old(shift_reg[j])
        invariant forall j :: i < j < NCOEF ==> shift_reg[j] == old(shift_reg[j - 1])
      {
        shift_reg[i + 1] := shift_reg[i];
      }
      shift_reg[0] := din;
    }
  }
}

/** fir_super: four samples a call. */
module SsrFir {
  import opened Sealing
  import opened FixedPoint
  import opened SerialFir
  import opened SubFilter

  function Out(coef: seq<int>, x: seq<int>, n: int): int
    requires |coef| == 4 * NCOEF
  {
    Wrap(Sub(coef, x, n, 0) + Sub(coef, x, n - 1, 1) + Sub(coef, x, n - 2, 2) + Sub(coef, x, n - 3, 3), 0x8000)
  }

  ghost predicate IsOut(d: int, coef: seq<int>, x: seq<int>, n: int)
    requires |coef| == 4 * NCOEF
  {
    forall k {:trigger Opened(k)} :: Opened(k) && k == VALUE ==> d == Out(coef, x, n)
  }

  lemma {:induction false} SumIsOut(coef: seq<int>, x: seq<int>, n: int, s0: int, s1: int, s2: int, s3: int)
    requires |coef| == 4 * NCOEF
    requires IsSub(s0, coef, x, n, 0) && IsSub(s1, coef, x, n - 1, 1)
    requires IsSub(s2, coef, x, n - 2, 2) && IsSub(s3, coef, x, n - 3, 3)
    ensures IsOut(Wrap(s0 + s1 + s2 + s3, 0x8000), coef, x, n)
  {
    assert Opened(VALUE);
  }

  /** The output is that of the serial filter over all 128 taps, rounded down by
      less than 2^18 + 2^17 units of 2^-30, modulo 2^31 units. */
  lemma {:induction false} OutNear(coef: seq<int>, x: seq<int>, n: int)
    requires |coef| == 4 * NCOEF
    ensures Near(Serial(coef, x, n, 4 * NCOEF), Out(coef, x, n), 0x8000, 4 * BOUND)
    ensures 4 * BOUND < 0x4_0000 + 0x2_0000
  {
    SubNear(coef, x, n, 0);
    SubNear(coef, x, n, 1);
    SubNear(coef, x, n, 2);
    SubNear(coef, x, n, 3);
    var b0, b1 := Branch(coef, x, n, 0, NCOEF), Branch(coef, x, n, 1, NCOEF);
    var b2, b3 := Branch(coef, x, n, 2, NCOEF), Branch(coef, x, n, 3, NCOEF);
    var s0, s1 := Sub(coef, x, n, 0), Sub(coef, x, n - 1, 1);
    var s2, s3 := Sub(coef, x, n - 2, 2), Sub(coef, x, n - 3, 3);
    FourNear(b0, b1, b2, b3, s0, s1, s2, s3);
    FourBranches(coef, x, n, NCOEF);
  }

  lemma {:induction false} FourNear(b0: int, b1: int, b2: int, b3: int, s0: int, s1: int, s2: int, s3: int)
    requires Near(b0, s0, 0x8000, BOUND) && Near(b1, s1, 0x8000, BOUND)
    requires Near(b2, s2, 0x8000, BOUND) && Near(b3, s3, 0x8000, BOUND)
    ensures Near(b0 + b1 + b2 + b3, Wrap(s0 + s1 + s2 + s3, 0x8000), 0x8000, 4 * BOUND)
  {
    NearAdd(b0, s0, BOUND, b1, s1, BOUND, 0x8000);
    NearAdd(b0 + b1, s0 + s1, 2 * BOUND, b2, s2, BOUND, 0x8000);
    NearAdd(b0 + b1 + b2, s0 + s1 + s2, 3 * BOUND, b3, s3, BOUND, 0x8000);
    NearWrap(b0 + b1 + b2 + b3, s0 + s1 + s2 + s3, 0x8000, 4 * BOUND, 0x8000, 1);
  }

  lemma {:induction false} SubNear(coef: seq<int>, x: seq<int>, n: int, r: nat)
    requires |coef| == 4 * NCOEF && r < 4
    ensures Near(Branch(coef, x, n, r, NCOEF), Sub(coef, x, n - r, r), 0x8000, BOUND)
  {
    OutputNear(Fourth(x, n - r), Bank(coef, r));
    DotIsBranch(x, coef, r, n, NCOEF);
  }

  /** If the serial result is in range, the output is it, rounded down: wrapping
      around on the way does no harm. */
  lemma {:induction false} InRange(coef: seq<int>, x: seq<int>, n: int)
    requires |coef| == 4 * NCOEF
    requires -0x4000_0000 + 0x4_0000 + 0x2_0000 <= Serial(coef, x, n, 4 * NCOEF) < 0x4000_0000
    ensures 0 <= Serial(coef, x, n, 4 * NCOEF) - Out(coef, x, n) * 0x8000 < 0x4_0000 + 0x2_0000
  {
    OutNear(coef, x, n);
    var k :| Within(Serial(coef, x, n, 4 * NCOEF), Out(coef, x, n), 0x8000, 4 * BOUND, k);
    assert k == 0;
  }

  method InitCoef(coef: seq<int>) returns (cin: array2<int>)
    requires |coef| == 4 * NCOEF
    ensures IsTable(cin, coef) && fresh(cin)
  {
    cin := new int[4, NCOEF];
    var i, k := 0, 0;
    while i < 4 * NCOEF
      invariant i == 4 * k && k <= NCOEF
      invariant forall r, j :: 0 <= r < 4 && 0 <= j < k ==> cin[r, j] == coef[4 * j + r]
    {
      cin[i % 4, k] := coef[i];
      cin[i % 4 + 1, k] := coef[i + 1];
      cin[i % 4 + 2, k] := coef[i + 2];
      cin[i % 4 + 3, k] := coef[i + 3];
      k := k + 1;
      i := i + 4;
    }
  }

  /** The samples that the registers keep. */
  lemma {:induction false} Newest(x: seq<int>, din: seq<int>)
    requires |din| == 4
    ensures |x + din| == |x| + 4
    ensures forall q :: 0 <= q < 4 ==> At(x + din, |x| + 4 - (4 - q)) == din[q]
    ensures forall n :: n < |x| ==> At(x + din, n) == At(x, n)
  {}

  /** The state of one of fir0 to fir3: four sub-filters and the registers before
      them. A sample of phase q reaches its sub-filter in output phase p at once, or
      one call later if q > p. */
  class Fir {
    ghost const p: int
    ghost const Repr: set<object>
    const f0: FirNosymObj
    const f1: FirNosymObj
    const f2: FirNosymObj
    const f3: FirNosymObj
    var r1: int
    var r2: int
    var r3: int

    /** The state after the samples x. */
    ghost predicate Valid(x: seq<int>)
      reads Repr
    {
      forall k {:trigger Opened(k)} :: Opened(k) && k == PHASE ==>
        && Separate()
        && f0.Holds(x, 4) && f1.Holds(x, 3 + Lag(1)) && f2.Holds(x, 2 + Lag(2)) && f3.Holds(x, 1 + Lag(3))
        && (p < 1 ==> r1 == At(x, |x| - 3)) && (p < 2 ==> r2 == At(x, |x| - 2)) && (p < 3 ==> r3 == At(x, |x| - 1))
    }

    ghost function Lag(q: int): int {
      if q > p then 4 else 0
    }

    ghost predicate Separate() {
      && this in Repr && f0 in Repr && f1 in Repr && f2 in Repr && f3 in Repr
      && f0.shift_reg in Repr && f1.shift_reg in Repr && f2.shift_reg in Repr && f3.shift_reg in Repr
      && f0 != f1 && f0 != f2 && f0 != f3 && f1 != f2 && f1 != f3 && f2 != f3
      && f0.shift_reg != f1.shift_reg && f0.shift_reg != f2.shift_reg && f0.shift_reg != f3.shift_reg
      && f1.shift_reg != f2.shift_reg && f1.shift_reg != f3.shift_reg && f2.shift_reg != f3.shift_reg
    }

    constructor (ghost p: int)
      ensures Valid([]) && fresh(Repr) && this.p == p
    {
      this.p := p;
      var g0 := new FirNosymObj();
      var g1 := new FirNosymObj();
      var g2 := new FirNosymObj();
      var g3 := new FirNosymObj();
      f0, f1, f2, f3 := g0, g1, g2, g3;
      r1, r2, r3 := 0, 0, 0;
      Repr := {this, g0, g1, g2, g3, g0.shift_reg, g1.shift_reg, g2.shift_reg, g3.shift_reg};
    }

    /** The four sub-filters, given their inputs and the coefficient bank of each. */
    method Subs(a0: int, a1: int, a2: int, a3: int, cin: array2<int>, b0: nat, b1: nat, b2: nat, b3: nat,
                ghost x: seq<int>, ghost din: seq<int>, ghost coef: seq<int>)
      returns (d0: int, d1: int, d2: int, d3: int)
      requires |din| == 4 && Valid(x) && IsTable(cin, coef) && b0 < 4 && b1 < 4 && b2 < 4 && b3 < 4
      requires a0 == At(x + din, |x|) && a1 == At(x + din, |x| + 1 - Lag(1))
      requires a2 == At(x + din, |x| + 2 - Lag(2)) && a3 == At(x + din, |x| + 3 - Lag(3))
      modifies f0, f1, f2, f3, f0.shift_reg, f1.shift_reg, f2.shift_reg, f3.shift_reg
      ensures f0.Holds(x + din, 4) && f1.Holds(x + din, 3 + Lag(1))
      ensures f2.Holds(x + din, 2 + Lag(2)) && f3.Holds(x + din, 1 + Lag(3))
      ensures IsSub(d0, coef, x, |x| - 4, b0) && IsSub(d1, coef, x, |x| - 3 - Lag(1), b1)
      ensures IsSub(d2, coef, x, |x| - 2 - Lag(2), b2) && IsSub(d3, coef, x, |x| - 1 - Lag(3), b3)
    {
      assert Opened(PHASE);
      d0 := f0.Process(a0, cin, b0, coef, x, 4, din);
      d1 := f1.Process(a1, cin, b1, coef, x, 3 + Lag(1), din);
      d2 := f2.Process(a2, cin, b2, coef, x, 2 + Lag(2), din);
      d3 := f3.Process(a3, cin, b3, coef, x, 1 + Lag(3), din);
    }

    method Fir0(din: seq<int>, cin: array2<int>, ghost x: seq<int>, ghost coef: seq<int>) returns (dout: int)
      requires p == 0 && |din| == 4 && Valid(x) && IsTable(cin, coef)
      modifies Repr
      ensures Valid(x + din) && IsOut(dout, coef, x, |x| - 4)
    {
      assert Opened(PHASE);
      Newest(x, din);
      var d0, d1, d2, d3 := Subs(din[0], r1, r2, r3, cin, 0, 3, 2, 1, x, din, coef);
      SumIsOut(coef, x, |x| - 4, d0, d3, d2, d1);
      dout := Wrap(d0 + d1 + d2 + d3, 0x8000);
      r1, r2, r3 := din[1], din[2], din[3];
    }

    method Fir1(din: seq<int>, cin: array2<int>, ghost x: seq<int>, ghost coef: seq<int>) returns (dout: int)
      requires p == 1 && |din| == 4 && Valid(x) && IsTable(cin, coef)
      modifies Repr
      ensures Valid(x + din) && IsOut(dout, coef, x, |x| - 3)
    {
      assert Opened(PHASE);
      Newest(x, din);
      var d0, d1, d2, d3 := Subs(din[0], din[1], r2, r3, cin, 1, 0, 3, 2, x, din, coef);
      SumIsOut(coef, x, |x| - 3, d1, d0, d3, d2);
      dout := Wrap(d0 + d1 + d2 + d3, 0x8000);
      r2, r3 := din[2], din[3];
    }

    method Fir2(din: seq<int>, cin: array2<int>, ghost x: seq<int>, ghost coef: seq<int>) returns (dout: int)
      requires p == 2 && |din| == 4 && Valid(x) && IsTable(cin, coef)
      modifies Repr
      ensures Valid(x + din) && IsOut(dout, coef, x, |x| - 2)
    {
      assert Opened(PHASE);
      Newest(x, din);
      var d0, d1, d2, d3 := Subs(din[0], din[1], din[2], r3, cin, 2, 1, 0, 3, x, din, coef);
      SumIsOut(coef, x, |x| - 2, d2, d1, d0, d3);
      dout := Wrap(d0 + d1 + d2 + d3, 0x8000);
      r3 := din[3];
    }

    method Fir3(din: seq<int>, cin: array2<int>, ghost x: seq<int>, ghost coef: seq<int>) returns (dout: int)
      requires p == 3 && |din| == 4 && Valid(x) && IsTable(cin, coef)
      modifies Repr
      ensures Valid(x + din) && IsOut(dout, coef, x, |x| - 1)
    {
      assert Opened(PHASE);
      Newest(x, din);
      var d0, d1, d2, d3 := Subs(din[0], din[1], din[2], din[3], cin, 3, 2, 1, 0, x, din, coef);
      SumIsOut(coef, x, |x| - 1, d3, d2, d1, d0);
      dout := Wrap(d0 + d1 + d2 + d3, 0x8000);
    }
  }

  /** The four outputs of one call, after the samples x. */
  ghost predicate IsFrame(dout: seq<int>, coef: seq<int>, x: seq<int>)
    requires |coef| == 4 * NCOEF
  {
    && |dout| == 4 && IsOut(dout[0], coef, x, |x| - 4) && IsOut(dout[1], coef, x, |x| - 3)
    && IsOut(dout[2], coef, x, |x| - 2) && IsOut(dout[3], coef, x, |x| - 1)
  }

  class FirSuper {
    const fir0: Fir
    const fir1: Fir
    const fir2: Fir
    const fir3: Fir

    ghost predicate Separate() {
      && fir0.Repr !! fir1.Repr && fir0.Repr !! fir2.Repr && fir0.Repr !! fir3.Repr
      && fir1.Repr !! fir2.Repr && fir1.Repr !! fir3.Repr && fir2.Repr !! fir3.Repr
      && fir0.p == 0 && fir1.p == 1 && fir2.p == 2 && fir3.p == 3
    }

    ghost predicate Valid(x: seq<int>)
      reads fir0.Repr, fir1.Repr, fir2.Repr, fir3.Repr
    {
      forall k {:trigger Opened(k)} :: Opened(k) && k == SUPER ==>
        Separate() && fir0.Valid(x) && fir1.Valid(x) && fir2.Valid(x) && fir3.Valid(x)
    }

    constructor ()
      ensures Valid([]) && fresh(fir0.Repr) && fresh(fir1.Repr) && fresh(fir2.Repr) && fresh(fir3.Repr)
    {
      fir0 := new Fir(0);
      fir1 := new Fir(1);
      fir2 := new Fir(2);
      fir3 := new Fir(3);
    }

    /** One call; x are the samples so far. */
    method Process(din: seq<int>, coef: seq<int>, ghost x: seq<int>) returns (dout: seq<int>)
      requires |din| == 4 && |coef| == 4 * NCOEF && Valid(x)
      modifies fir0.Repr, fir1.Repr, fir2.Repr, fir3.Repr
      ensures Valid(x + din)
      ensures IsFrame(dout, coef, x)
    {
      assert Opened(SUPER);
      var cin := InitCoef(coef);
      var y0, y1 := First(din, cin, x, coef);
      var y2, y3 := Second(din, cin, x, coef);
      dout := [y0, y1, y2, y3];
    }

    /** The first two of the four calls. */
    method First(din: seq<int>, cin: array2<int>, ghost x: seq<int>, ghost coef: seq<int>) returns (y0: int, y1: int)
      requires |din| == 4 && IsTable(cin, coef) && fir0.p == 0 && fir1.p == 1
      requires fir0.Repr !! fir1.Repr && cin !in fir0.Repr
      requires fir0.Valid(x) && fir1.Valid(x)
      modifies fir0.Repr, fir1.Repr
      ensures fir0.Valid(x + din) && fir1.Valid(x + din)
      ensures IsOut(y0, coef, x, |x| - 4) && IsOut(y1, coef, x, |x| - 3)
    {
      y0 := fir0.Fir0(din, cin, x, coef);
      y1 := fir1.Fir1(din, cin, x, coef);
    }

    /** The last two. */
    method Second(din: seq<int>, cin: array2<int>, ghost x: seq<int>, ghost coef: seq<int>) returns (y2: int, y3: int)
      requires |din| == 4 && IsTable(cin, coef) && fir2.p == 2 && fir3.p == 3
      requires fir2.Repr !! fir3.Repr && cin !in fir2.Repr
      requires fir2.Valid(x) && fir3.Valid(x)
      modifies fir2.Repr, fir3.Repr
      ensures fir2.Valid(x + din) && fir3.Valid(x + din)
      ensures IsOut(y2, coef, x, |x| - 2) && IsOut(y3, coef, x, |x| - 1)
    {
      y2 := fir2.Fir2(din, cin, x, coef);
      y3 := fir3.Fir3(din, cin, x, coef);
    }
  }

  /** Filtering n frames of four samples: the output is the serial filter's four
      samples, one frame, later. */
  method Run(x: seq<int>, coef: seq<int>) returns (y: seq<int>)
    requires |x| % 4 == 0 && |coef| == 4 * NCOEF
    ensures |y| == |x|
    ensures AllOut(coef, x, y)
    ensures forall n :: 0 <= n < |x| ==> Near(Serial(coef, x, n - 4, 4 * NCOEF), y[n], 0x8000, 4 * BOUND)
  {
    var f := new FirSuper();
    y := [];
    ghost var done := [];
    while |y| < |x|
      invariant f.Valid(done)
      invariant fresh(f.fir0.Repr) && fresh(f.fir1.Repr) && fresh(f.fir2.Repr) && fresh(f.fir3.Repr)
      invariant |y| % 4 == 0 && |y| <= |x| && done == x[..|y|] && AllOut(coef, x, y)
    {
      var dout := f.Process(x[|y|..|y| + 4], coef, done);
      NextFrame(coef, x, y, dout);
      done, y := done + x[|y|..|y| + 4], y + dout;
    }
    AllNear(coef, x, y);
  }

  /** The samples y are outputs, one frame late. */
  ghost predicate AllOut(coef: seq<int>, x: seq<int>, y: seq<int>)
    requires |coef| == 4 * NCOEF
  {
    forall n :: 0 <= n < |y| ==> IsOut(y[n], coef, x, n - 4)
  }

  lemma {:induction false} AllNear(coef: seq<int>, x: seq<int>, y: seq<int>)
    requires |coef| == 4 * NCOEF && AllOut(coef, x, y)
    ensures forall n :: 0 <= n < |y| ==> Near(Serial(coef, x, n - 4, 4 * NCOEF), y[n], 0x8000, 4 * BOUND)
  {
    forall n | 0 <= n < |y| ensures Near(Serial(coef, x, n - 4, 4 * NCOEF), y[n], 0x8000, 4 * BOUND) {
      assert IsOut(y[n], coef, x, n - 4) && Opened(VALUE);
      OutNear(coef, x, n - 4);
    }
  }

  lemma {:induction false} NextFrame(coef: seq<int>, x: seq<int>, y: seq<int>, dout: seq<int>)
    requires |coef| == 4 * NCOEF && |y| + 4 <= |x| && AllOut(coef, x, y) && IsFrame(dout, coef, x[..|y|])
    ensures AllOut(coef, x, y + dout) && x[..|y|] + x[|y|..|y| + 4] == x[..|y| + 4]
  {
    forall n | 0 <= n < |y + dout| ensures IsOut((y + dout)[n], coef, x, n - 4) {
      if n < |y| {
        assert (y + dout)[n] == y[n];
      } else {
        var p := n - |y|;
        assert (y + dout)[n] == dout[p];
        FrameAt(dout, coef, x[..|y|], p);
        StillOut(dout[p], coef, x, |y|, n - 4);
      }
    }
  }

  lemma {:induction false} FrameAt(dout: seq<int>, coef: seq<int>, x: seq<int>, p: nat)
    requires |coef| == 4 * NCOEF && IsFrame(dout, coef, x) && p < 4
    ensures IsOut(dout[p], coef, x, |x| + p - 4)
  {
    if p == 0 {} else if p == 1 {} else if p == 2 {} else {}
  }

  lemma {:induction false} StillOut(v: int, coef: seq<int>, x: seq<int>, m: nat, n: int)
    requires |coef| == 4 * NCOEF && n < m <= |x| && IsOut(v, coef, x[..m], n)
    ensures IsOut(v, coef, x, n)
  {
    assert Opened(VALUE);
    OutPrefix(coef, x, m);
  }

  /** Later samples do not change an output. */
  lemma {:induction false} OutPrefix(coef: seq<int>, x: seq<int>, m: nat)
    requires |coef| == 4 * NCOEF && m <= |x|
    ensures forall n :: n < m ==> Out(coef, x[..m], n) == Out(coef, x, n)
  {
    forall n | n < m ensures Out(coef, x[..m], n) == Out(coef, x, n) {
      assert Fourth(x[..m], n) == Fourth(x, n) && Fourth(x[..m], n - 1) == Fourth(x, n - 1);
      assert Fourth(x[..m], n - 2) == Fourth(x, n - 2) && Fourth(x[..m], n - 3) == Fourth(x, n - 3);
    }
  }
}
