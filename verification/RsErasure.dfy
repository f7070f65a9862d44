/** Bytes as polynomials over GF(2). The laws are proved of any ring whose elements
    are sums of the powers of one element x, so that no bit is looked at twice. */
module BinaryRing {
  import opened Sealing
  /** add is the sum, shift the product with x, and bits the coefficients of an
      element, that of x^0 first. */
  datatype Ring<!T(!new)> = Ring(add: (T, T) -> T, zero: T, one: T, shift: T -> T, bits: T -> seq<bool>)

  // Kinds of sealed laws.
  const SUMS: nat := 0
  const UNITS: nat := 1
  const BITS: nat := 2
  const ONES: nat := 21
  const ONE: nat := 22

  ghost predicate Laws<T(!new)>(r: Ring<T>) {
    HasSums(r) && HasUnits(r) && HasBits(r) && HasOnes(r) && HasOne(r)
  }

  ghost predicate HasSums<T(!new)>(r: Ring<T>) {
    forall k {:trigger Opened(k)} :: Opened(k) && k == SUMS ==> SumLaws(r)
  }

  ghost predicate HasUnits<T(!new)>(r: Ring<T>) {
    forall k {:trigger Opened(k)} :: Opened(k) && k == UNITS ==> UnitLaws(r)
  }

  ghost predicate HasBits<T(!new)>(r: Ring<T>) {
    forall k {:trigger Opened(k)} :: Opened(k) && k == BITS ==> SumBits(r)
  }

  ghost predicate HasOnes<T(!new)>(r: Ring<T>) {
    forall k {:trigger Opened(k)} :: Opened(k) && k == ONES ==> OneLaw(r)
  }

  ghost predicate HasOne<T(!new)>(r: Ring<T>) {
    forall k {:trigger Opened(k)} :: Opened(k) && k == ONE ==> OnlyFirst(r.bits(r.one))
  }

  /** Only the first bit is set. */
  ghost predicate OnlyFirst(bs: seq<bool>) {
    |bs| > 0 && bs[0] && forall i :: 1 <= i < |bs| ==> !bs[i]
  }

  ghost predicate SumLaws<T(!new)>(r: Ring<T>) {
    forall a, b, c, d :: r.add(r.add(a, b), r.add(c, d)) == r.add(r.add(a, c), r.add(b, d))
  }

  ghost predicate UnitLaws<T(!new)>(r: Ring<T>) {
    && (forall a :: r.add(a, r.zero) == a == r.add(r.zero, a) && r.add(a, a) == r.zero)
    && (forall a, b :: r.shift(r.add(a, b)) == r.add(r.shift(a), r.shift(b)))
    && r.shift(r.zero) == r.zero
  }

  ghost predicate SumBits<T(!new)>(r: Ring<T>) {
    && (forall a, b :: |r.bits(a)| == |r.bits(b)|)
    && (forall a, b {:trigger r.add(a, b)} :: r.bits(r.add(a, b)) == XorBits(r.bits(a), r.bits(b)))
  }

  ghost predicate OneLaw<T(!new)>(r: Ring<T>) {
    forall a {:trigger r.bits(a)} :: MulBits(r, r.one, r.bits(a)) == a
  }

  /** Multiplication by x^n. */
  function Power<T(!new)>(r: Ring<T>, a: T, n: nat): T {
    if n == 0 then a else r.shift(Power(r, a, n - 1))
  }

  function Gate<T(!new)>(r: Ring<T>, b: bool, a: T): T {
    if b then a else r.zero
  }

  /** The sum of a * x^i over the set bits i. */
  function MulBits<T(!new)>(r: Ring<T>, a: T, bs: seq<bool>): T {
    if bs == [] then r.zero
    else
      var n := |bs| - 1;
      r.add(MulBits(r, a, bs[..n]), Gate(r, bs[n], Power(r, a, n)))
  }

  function Mul<T(!new)>(r: Ring<T>, a: T, d: T): T {
    MulBits(r, a, r.bits(d))
  }

  function XorBits(bs: seq<bool>, cs: seq<bool>): (x: seq<bool>)
    requires |bs| == |cs|
    ensures |x| == |bs|
  {
    seq(|bs|, i requires 0 <= i < |bs| => bs[i] != cs[i])
  }

  lemma {:induction false} Swap<T(!new)>(r: Ring<T>, a: T, b: T, c: T, d: T)
    requires Laws(r)
    ensures r.add(r.add(a, b), r.add(c, d)) == r.add(r.add(a, c), r.add(b, d))
  {
    assert Opened(SUMS);
  }

  lemma {:induction false} AddZero<T(!new)>(r: Ring<T>, a: T)
    requires Laws(r)
    ensures r.add(a, r.zero) == a == r.add(r.zero, a) && r.add(a, a) == r.zero && r.shift(r.zero) == r.zero
  {
    assert Opened(UNITS);
  }

  lemma {:induction false} ShiftAdd<T(!new)>(r: Ring<T>, a: T, b: T)
    requires Laws(r)
    ensures r.shift(r.add(a, b)) == r.add(r.shift(a), r.shift(b))
  {
    assert Opened(UNITS);
  }

  lemma {:induction false} PowerLinear<T(!new)>(r: Ring<T>, a: T, b: T, n: nat)
    requires Laws(r)
    ensures Power(r, r.add(a, b), n) == r.add(Power(r, a, n), Power(r, b, n))
  {
    if n > 0 {
      PowerLinear(r, a, b, n - 1);
      ShiftAdd(r, Power(r, a, n - 1), Power(r, b, n - 1));
    }
  }

  lemma {:induction false} LeftLinear<T(!new)>(r: Ring<T>, a: T, b: T, bs: seq<bool>)
    requires Laws(r)
    ensures MulBits(r, r.add(a, b), bs) == r.add(MulBits(r, a, bs), MulBits(r, b, bs))
  {
    AddZero(r, r.zero);
    if bs != [] {
      var n := |bs| - 1;
      LeftLinear(r, a, b, bs[..n]);
      PowerLinear(r, a, b, n);
      Swap(r, MulBits(r, a, bs[..n]), MulBits(r, b, bs[..n]),
           Gate(r, bs[n], Power(r, a, n)), Gate(r, bs[n], Power(r, b, n)));
    }
  }

  lemma {:induction false} RightLinear<T(!new)>(r: Ring<T>, a: T, bs: seq<bool>, cs: seq<bool>)
    requires |bs| == |cs| && Laws(r)
    ensures MulBits(r, a, XorBits(bs, cs)) == r.add(MulBits(r, a, bs), MulBits(r, a, cs))
  {
    AddZero(r, r.zero);
    if bs != [] {
      var n := |bs| - 1;
      RightLinear(r, a, bs[..n], cs[..n]);
      assert XorBits(bs, cs)[..n] == XorBits(bs[..n], cs[..n]);
      AddZero(r, Power(r, a, n));
      Swap(r, MulBits(r, a, bs[..n]), MulBits(r, a, cs[..n]),
           Gate(r, bs[n], Power(r, a, n)), Gate(r, cs[n], Power(r, a, n)));
    }
  }

  /** Multiplying a factor by x multiplies the product by x. */
  lemma {:induction false} LeftShift<T(!new)>(r: Ring<T>, a: T, bs: seq<bool>)
    requires Laws(r)
    ensures MulBits(r, r.shift(a), bs) == r.shift(MulBits(r, a, bs))
  {
    AddZero(r, a);
    if bs != [] {
      var n := |bs| - 1;
      LeftShift(r, a, bs[..n]);
      PowerCommutes(r, a, n);
      ShiftAdd(r, MulBits(r, a, bs[..n]), Gate(r, bs[n], Power(r, a, n)));
    }
  }

  lemma {:induction false} PowerCommutes<T(!new)>(r: Ring<T>, a: T, n: nat)
    ensures Power(r, r.shift(a), n) == r.shift(Power(r, a, n))
  {
    if n > 0 {
      PowerCommutes(r, a, n - 1);
    }
  }

  lemma {:induction false} LeftPower<T(!new)>(r: Ring<T>, a: T, bs: seq<bool>, n: nat)
    requires Laws(r)
    ensures MulBits(r, Power(r, a, n), bs) == Power(r, MulBits(r, a, bs), n)
  {
    if n > 0 {
      LeftPower(r, a, bs, n - 1);
      LeftShift(r, Power(r, a, n - 1), bs);
    }
  }

  lemma {:induction false} ZeroTimes<T(!new)>(r: Ring<T>, bs: seq<bool>)
    requires Laws(r)
    ensures MulBits(r, r.zero, bs) == r.zero
  {
    if bs != [] {
      ZeroTimes(r, bs[..|bs| - 1]);
      ZeroPower(r, |bs| - 1);
      AddZero(r, r.zero);
    }
  }

  lemma {:induction false} ZeroPower<T(!new)>(r: Ring<T>, n: nat)
    requires Laws(r)
    ensures Power(r, r.zero, n) == r.zero
  {
    if n > 0 {
      ZeroPower(r, n - 1);
      AddZero(r, r.zero);
    }
  }

  /** (a * b) * c == (a * c) * b. */
  lemma {:induction false} Exchange<T(!new)>(r: Ring<T>, a: T, bs: seq<bool>, cs: seq<bool>)
    requires Laws(r)
    ensures MulBits(r, MulBits(r, a, bs), cs) == MulBits(r, MulBits(r, a, cs), bs)
  {
    ZeroTimes(r, bs);
    if cs != [] {
      var n := |cs| - 1;
      Exchange(r, a, bs, cs[..n]);
      LeftPower(r, a, bs, n);
      LeftLinear(r, MulBits(r, a, cs[..n]), Gate(r, cs[n], Power(r, a, n)), bs);
    }
  }

  lemma {:induction false} OneTimes<T(!new)>(r: Ring<T>, d: T)
    requires Laws(r)
    ensures Mul(r, r.one, d) == d && Mul(r, d, r.one) == d
  {
    assert Opened(ONES);
    assert Opened(ONE);
    OnlyBitZero(r, d, r.bits(r.one));
  }

  lemma {:induction false} OnlyBitZero<T(!new)>(r: Ring<T>, d: T, bs: seq<bool>)
    requires Laws(r) && OnlyFirst(bs)
    ensures MulBits(r, d, bs) == d
  {
    if |bs| > 1 {
      OnlyBitZero(r, d, bs[..|bs| - 1]);
    }
    AddZero(r, d);
  }

  lemma {:induction false} Commutative<T(!new)>(r: Ring<T>, a: T, b: T)
    requires Laws(r)
    ensures Mul(r, a, b) == Mul(r, b, a)
  {
    OneTimes(r, a);
    OneTimes(r, b);
    Exchange(r, r.one, r.bits(a), r.bits(b));
  }

  lemma {:induction false} Associative<T(!new)>(r: Ring<T>, a: T, b: T, c: T)
    requires Laws(r)
    ensures Mul(r, Mul(r, a, b), c) == Mul(r, a, Mul(r, b, c))
  {
    Commutative(r, a, b);
    Exchange(r, b, r.bits(a), r.bits(c));
    Commutative(r, Mul(r, b, c), a);
  }

  lemma {:induction false} Distributive<T(!new)>(r: Ring<T>, a: T, b: T, d: T)
    requires Laws(r)
    ensures Mul(r, r.add(a, b), d) == r.add(Mul(r, a, d), Mul(r, b, d))
    ensures Mul(r, d, r.add(a, b)) == r.add(Mul(r, d, a), Mul(r, d, b))
  {
    LeftLinear(r, a, b, r.bits(d));
    BitsOfSum(r, a, b);
    RightLinear(r, d, r.bits(a), r.bits(b));
  }

  lemma {:induction false} BitsOfSum<T(!new)>(r: Ring<T>, a: T, b: T)
    requires Laws(r)
    ensures |r.bits(a)| == |r.bits(b)| && r.bits(r.add(a, b)) == XorBits(r.bits(a), r.bits(b))
  {
    assert Opened(BITS);
  }
}

/** Matrices over such a ring. */
module GfMatrix {
  import opened BinaryRing

  type Matrix<T> = seq<seq<T>>

  ghost predicate Size<T(!new)>(m: Matrix<T>, rows: nat, cols: nat) {
    |m| == rows && forall i :: 0 <= i < rows ==> |m[i]| == cols
  }

  /** The dot product of the first n elements. */
  function Dot<T(!new)>(r: Ring<T>, a: seq<T>, d: seq<T>, n: nat): T
    requires n <= |a| && n <= |d|
  {
    if n == 0 then r.zero else r.add(Dot(r, a, d, n - 1), Mul(r, a[n - 1], d[n - 1]))
  }

  function Apply<T(!new)>(r: Ring<T>, m: Matrix<T>, v: seq<T>): seq<T>
    requires Size(m, |m|, |v|)
  {
    seq(|m|, i requires 0 <= i < |m| => Dot(r, m[i], v, |v|))
  }

  function Column<T(!new)>(m: Matrix<T>, j: nat): seq<T>
    requires forall i :: 0 <= i < |m| ==> j < |m[i]|
  {
    seq(|m|, i requires 0 <= i < |m| => m[i][j])
  }

  function Product<T(!new)>(r: Ring<T>, a: Matrix<T>, b: Matrix<T>, cols: nat): (p: Matrix<T>)
    requires Size(a, |a|, |b|) && Size(b, |b|, cols)
    ensures Size(p, |a|, cols)
  {
    seq(|a|, i requires 0 <= i < |a| =>
      seq(cols, j requires 0 <= j < cols => Dot(r, a[i], Column(b, j), |b|)))
  }

  /** Multiplying a dot product by one factor. */
  lemma {:induction false} DotTimes<T(!new)>(r: Ring<T>, x: T, a: seq<T>, v: seq<T>, n: nat)
    requires Laws(r)
    requires n <= |a| && n <= |v|
    ensures Mul(r, x, Dot(r, a, v, n)) == Dot(r, Scaled(r, x, a), v, n)
  {
    if n == 0 {
      Commutative(r, x, r.zero);
      ZeroTimes(r, r.bits(x));
    } else {
      DotTimes(r, x, a, v, n - 1);
      Distributive(r, Dot(r, a, v, n - 1), Mul(r, a[n - 1], v[n - 1]), x);
      Associative(r, x, a[n - 1], v[n - 1]);
    }
  }

  function Scaled<T(!new)>(r: Ring<T>, x: T, a: seq<T>): seq<T> {
    seq(|a|, j requires 0 <= j < |a| => Mul(r, x, a[j]))
  }

  function Sum<T(!new)>(r: Ring<T>, a: seq<T>, b: seq<T>): seq<T>
    requires |a| == |b|
  {
    seq(|a|, j requires 0 <= j < |a| => r.add(a[j], b[j]))
  }

  lemma {:induction false} DotSum<T(!new)>(r: Ring<T>, a: seq<T>, b: seq<T>, v: seq<T>, n: nat)
    requires Laws(r)
    requires |a| == |b| && n <= |a| && n <= |v|
    ensures Dot(r, Sum(r, a, b), v, n) == r.add(Dot(r, a, v, n), Dot(r, b, v, n))
  {
    AddZero(r, r.zero);
    if n > 0 {
      DotSum(r, a, b, v, n - 1);
      Distributive(r, a[n - 1], b[n - 1], v[n - 1]);
      Swap(r, Dot(r, a, v, n - 1), Dot(r, b, v, n - 1),
            Mul(r, a[n - 1], v[n - 1]), Mul(r, b[n - 1], v[n - 1]));
    }
  }

  /** The row a * e, from the first n rows of e only. */
  function RowProduct<T(!new)>(r: Ring<T>, a: seq<T>, e: Matrix<T>, cols: nat, n: nat): (p: seq<T>)
    requires n <= |a| && n <= |e| && Size(e, |e|, cols)
    ensures |p| == cols
  {
    seq(cols, j requires 0 <= j < cols => Dot(r, a, Column(e, j), n))
  }

  lemma {:induction false} RowProductStep<T(!new)>(r: Ring<T>, a: seq<T>, e: Matrix<T>, cols: nat, n: nat)
    requires n < |a| && n < |e| && Size(e, |e|, cols)
    ensures RowProduct(r, a, e, cols, n + 1) == Sum(r, RowProduct(r, a, e, cols, n), Scaled(r, a[n], e[n]))
  {}

  /** a * (e * v) == (a * e) * v, for the first n rows of e. */
  lemma {:induction false} RowAssociative<T(!new)>(r: Ring<T>, a: seq<T>, e: Matrix<T>, v: seq<T>, n: nat)
    requires Laws(r)
    requires n <= |a| && n <= |e| && Size(e, |e|, |v|)
    ensures Dot(r, a, Apply(r, e, v), n) == Dot(r, RowProduct(r, a, e, |v|, n), v, |v|)
  {
    if n == 0 {
      ZeroRow(r, RowProduct(r, a, e, |v|, 0), v, |v|);
    } else {
      RowAssociative(r, a, e, v, n - 1);
      NextRow(r, a, e, v, n - 1, RowProduct(r, a, e, |v|, n - 1));
    }
  }

  lemma {:induction false} NextRow<T(!new)>(r: Ring<T>, a: seq<T>, e: Matrix<T>, v: seq<T>, n: nat, row: seq<T>)
    requires Laws(r)
    requires n < |a| && n < |e| && Size(e, |e|, |v|) && row == RowProduct(r, a, e, |v|, n)
    requires Dot(r, a, Apply(r, e, v), n) == Dot(r, row, v, |v|)
    ensures Dot(r, a, Apply(r, e, v), n + 1) == Dot(r, RowProduct(r, a, e, |v|, n + 1), v, |v|)
  {
    var scaled := Scaled(r, a[n], e[n]);
    RowProductStep(r, a, e, |v|, n);
    DotSum(r, row, scaled, v, |v|);
    DotTimes(r, a[n], e[n], v, |v|);
  }

  lemma {:induction false} ZeroRow<T(!new)>(r: Ring<T>, z: seq<T>, v: seq<T>, n: nat)
    requires Laws(r)
    requires n <= |z| && n <= |v| && forall j :: 0 <= j < |z| ==> z[j] == r.zero
    ensures Dot(r, z, v, n) == r.zero
  {
    AddZero(r, r.zero);
    if n > 0 {
      ZeroRow(r, z, v, n - 1);
      ZeroTimes(r, r.bits(v[n - 1]));
    }
  }

  /** Applying d to data encoded by e is applying their product. */
  lemma {:induction false} ApplyProduct<T(!new)>(r: Ring<T>, d: Matrix<T>, e: Matrix<T>, v: seq<T>)
    requires Laws(r)
    requires Size(d, |d|, |e|) && Size(e, |e|, |v|)
    ensures Apply(r, d, Apply(r, e, v)) == Apply(r, Product(r, d, e, |v|), v)
  {
    forall i | 0 <= i < |d|
      ensures Dot(r, d[i], Apply(r, e, v), |e|) == Dot(r, Product(r, d, e, |v|)[i], v, |v|)
    {
      RowAssociative(r, d[i], e, v, |e|);
      assert Product(r, d, e, |v|)[i] == RowProduct(r, d[i], e, |v|, |e|);
    }
  }

  // A dot product, one bit of the right factors at a time.

  /** Bits 0 to i - 1 of the first n right factors. */
  function Partial<T(!new)>(r: Ring<T>, a: seq<T>, d: seq<T>, i: nat, n: nat): T
    requires n <= |a| && n <= |d| && forall j :: 0 <= j < n ==> i <= |r.bits(d[j])|
  {
    if n == 0 then r.zero
    else r.add(Partial(r, a, d, i, n - 1), MulBits(r, a[n - 1], r.bits(d[n - 1])[..i]))
  }

  /** Bit i of the first n right factors. */
  function BitRow<T(!new)>(r: Ring<T>, a: seq<T>, d: seq<T>, i: nat, n: nat): T
    requires n <= |a| && n <= |d| && forall j :: 0 <= j < n ==> i < |r.bits(d[j])|
  {
    if n == 0 then r.zero
    else r.add(BitRow(r, a, d, i, n - 1), Gate(r, r.bits(d[n - 1])[i], Power(r, a[n - 1], i)))
  }

  lemma {:induction false} PartialStep<T(!new)>(r: Ring<T>, a: seq<T>, d: seq<T>, i: nat, n: nat)
    requires Laws(r)
    requires n <= |a| && n <= |d| && forall j :: 0 <= j < n ==> i < |r.bits(d[j])|
    ensures Partial(r, a, d, i + 1, n) == r.add(Partial(r, a, d, i, n), BitRow(r, a, d, i, n))
  {
    AddZero(r, r.zero);
    if n > 0 {
      PartialStep(r, a, d, i, n - 1);
      var bs := r.bits(d[n - 1]);
      assert bs[..i + 1][..i] == bs[..i];
      Swap(r, Partial(r, a, d, i, n - 1), BitRow(r, a, d, i, n - 1),
           MulBits(r, a[n - 1], bs[..i]), Gate(r, bs[i], Power(r, a[n - 1], i)));
    }
  }

  lemma {:induction false} PartialStart<T(!new)>(r: Ring<T>, a: seq<T>, d: seq<T>, n: nat)
    requires Laws(r) && n <= |a| && n <= |d|
    ensures Partial(r, a, d, 0, n) == r.zero
  {
    AddZero(r, r.zero);
    if n > 0 {
      PartialStart(r, a, d, n - 1);
    }
  }

  lemma {:induction false} PartialEnd<T(!new)>(r: Ring<T>, a: seq<T>, d: seq<T>, i: nat, n: nat)
    requires n <= |a| && n <= |d| && forall j :: 0 <= j < n ==> i == |r.bits(d[j])|
    ensures Partial(r, a, d, i, n) == Dot(r, a, d, n)
  {
    if n > 0 {
      PartialEnd(r, a, d, i, n - 1);
      assert r.bits(d[n - 1])[..i] == r.bits(d[n - 1]);
    }
  }

  function Identity<T(!new)>(r: Ring<T>, n: nat): (m: Matrix<T>)
    ensures Size(m, n, n)
  {
    seq(n, i requires 0 <= i < n => seq(n, j requires 0 <= j < n => if i == j then r.one else r.zero))
  }

  lemma {:induction false} UnitRow<T(!new)>(r: Ring<T>, i: nat, v: seq<T>, n: nat)
    requires Laws(r)
    requires i < |v| && n <= |v|
    ensures Dot(r, Identity(r, |v|)[i], v, n) == if i < n then v[i] else r.zero
  {
    AddZero(r, r.zero);
    if n > 0 {
      UnitRow(r, i, v, n - 1);
      OneTimes(r, v[n - 1]);
      AddZero(r, v[n - 1]);
      AddZero(r, v[i]);
      ZeroTimes(r, r.bits(v[n - 1]));
    }
  }

  /** If d is an inverse of e, applying it to data encoded by e returns the data. */
  lemma {:induction false} DecodesWhatWasEncoded<T(!new)>(r: Ring<T>, d: Matrix<T>, e: Matrix<T>, v: seq<T>)
    requires Laws(r)
    requires Size(d, |d|, |e|) && Size(e, |e|, |v|) && Product(r, d, e, |v|) == Identity(r, |v|)
    ensures Apply(r, d, Apply(r, e, v)) == v
  {
    ApplyProduct(r, d, e, v);
    forall i | 0 <= i < |v| ensures Dot(r, Identity(r, |v|)[i], v, |v|) == v[i] {
      UnitRow(r, i, v, |v|);
    }
  }
}

/** The field arithmetic of rs_erasure. */
module Gf256 {
  import opened BinaryRing

  /** A byte: its bits, the least significant first. */
  type Gf = b: seq<bool> | |b| == 8 witness [false, false, false, false, false, false, false, false]

  const ZERO: Gf := [false, false, false, false, false, false, false, false]
  const X0: Gf := [true, false, false, false, false, false, false, false]

  function Xor(a: Gf, b: Gf): Gf {
    XorBits(a, b)
  }

  function ShiftLeft(a: Gf): Gf {
    [false] + a[..7]
  }

  /** Multiplication by x modulo x^8 + poly. */
  function Times2(poly: Gf, a: Gf): Gf {
    if a[7] then Xor(ShiftLeft(a), poly) else ShiftLeft(a)
  }

  function Gf8(poly: Gf): Ring<Gf> {
    Ring((a: Gf, b: Gf) => Xor(a, b), ZERO, X0, (a: Gf) => Times2(poly, a), (d: Gf) => d)
  }

  lemma {:induction false} XorSwap(a: Gf, b: Gf, c: Gf, d: Gf)
    ensures Xor(Xor(a, b), Xor(c, d)) == Xor(Xor(a, c), Xor(b, d))
  {}

  lemma {:induction false} XorZero(a: Gf)
    ensures Xor(a, ZERO) == a == Xor(ZERO, a) && Xor(a, a) == ZERO
  {}

  lemma {:induction false} ShiftXor(a: Gf, b: Gf)
    ensures ShiftLeft(Xor(a, b)) == Xor(ShiftLeft(a), ShiftLeft(b))
  {}

  lemma {:induction false} Times2Linear(poly: Gf, a: Gf, b: Gf)
    ensures Times2(poly, Xor(a, b)) == Xor(Times2(poly, a), Times2(poly, b))
  {
    ShiftXor(a, b);
    var s, t := ShiftLeft(a), ShiftLeft(b);
    XorSwap(s, poly, t, poly);
    XorSwap(s, poly, t, ZERO);
    XorSwap(s, ZERO, t, poly);
    XorZero(s);
    XorZero(t);
    XorZero(poly);
    XorZero(Xor(s, t));
  }

  /** The byte with only bit n set. */
  function Single(n: nat): Gf
    requires n < 8
  {
    seq(8, i => i == n)
  }

  lemma {:induction false} OnePower(poly: Gf, n: nat)
    requires n < 8
    ensures Power(Gf8(poly), X0, n) == Single(n)
  {
    if n > 0 {
      OnePower(poly, n - 1);
      assert ShiftLeft(Single(n - 1)) == Single(n);
    }
  }

  /** The low n bits. */
  function Low(d: Gf, n: nat): Gf {
    seq(8, i requires 0 <= i < 8 => i < n && d[i])
  }

  lemma {:induction false} OneTimesLow(poly: Gf, d: Gf, n: nat)
    requires n <= 8
    ensures MulBits(Gf8(poly), X0, d[..n]) == Low(d, n)
  {
    if n > 0 {
      OneTimesLow(poly, d, n - 1);
      assert d[..n][..n - 1] == d[..n - 1];
      OnePower(poly, n - 1);
      NextBit(d, n);
    }
  }

  lemma {:induction false} NextBit(d: Gf, n: nat)
    requires 0 < n <= 8
    ensures Xor(Low(d, n - 1), if d[n - 1] then Single(n - 1) else ZERO) == Low(d, n)
  {}

  lemma {:induction false} SwapAt(r: Ring<Gf>, poly: Gf, a: Gf, b: Gf, c: Gf, d: Gf)
    requires r == Gf8(poly)
    ensures r.add(r.add(a, b), r.add(c, d)) == r.add(r.add(a, c), r.add(b, d))
  {
    XorSwap(a, b, c, d);
  }

  lemma {:induction false} SumLawsHold(r: Ring<Gf>, poly: Gf)
    requires r == Gf8(poly)
    ensures HasSums(r)
  {
    forall a: Gf, b: Gf, c: Gf, d: Gf ensures r.add(r.add(a, b), r.add(c, d)) == r.add(r.add(a, c), r.add(b, d)) {
      SwapAt(r, poly, a, b, c, d);
    }
  }

  lemma {:induction false} ZeroAt(r: Ring<Gf>, poly: Gf, a: Gf)
    requires r == Gf8(poly)
    ensures r.add(a, r.zero) == a == r.add(r.zero, a) && r.add(a, a) == r.zero && r.shift(r.zero) == r.zero
  {
    XorZero(a);
    assert ShiftLeft(ZERO) == ZERO;
  }

  lemma {:induction false} ShiftAt(r: Ring<Gf>, poly: Gf, a: Gf, b: Gf)
    requires r == Gf8(poly)
    ensures r.shift(r.add(a, b)) == r.add(r.shift(a), r.shift(b))
  {
    Times2Linear(poly, a, b);
  }

  lemma {:induction false} UnitLawsHold(r: Ring<Gf>, poly: Gf)
    requires r == Gf8(poly)
    ensures HasUnits(r)
  {
    forall a: Gf ensures r.add(a, r.zero) == a == r.add(r.zero, a) && r.add(a, a) == r.zero {
      ZeroAt(r, poly, a);
    }
    forall a: Gf, b: Gf ensures r.shift(r.add(a, b)) == r.add(r.shift(a), r.shift(b)) {
      ShiftAt(r, poly, a, b);
    }
    ZeroAt(r, poly, ZERO);
  }

  lemma {:induction false} OneTimesAt(r: Ring<Gf>, poly: Gf, a: Gf)
    requires r == Gf8(poly)
    ensures MulBits(r, r.one, r.bits(a)) == a
  {
    OneTimesLow(poly, a, 8);
    assert a[..8] == a && Low(a, 8) == a;
  }

  lemma {:induction false} BitsAt(r: Ring<Gf>, poly: Gf, a: Gf, b: Gf)
    requires r == Gf8(poly)
    ensures |r.bits(a)| == |r.bits(b)| && r.bits(r.add(a, b)) == XorBits(r.bits(a), r.bits(b))
  {}

  lemma {:induction false} OneBits(r: Ring<Gf>, poly: Gf)
    requires r == Gf8(poly)
    ensures HasOne(r)
  {}

  lemma {:induction false} SumBitsHold(r: Ring<Gf>, poly: Gf)
    requires r == Gf8(poly)
    ensures HasBits(r)
  {
    forall a: Gf, b: Gf ensures |r.bits(a)| == |r.bits(b)| {
      BitsAt(r, poly, a, b);
    }
    forall a: Gf, b: Gf {:trigger r.add(a, b)} ensures r.bits(r.add(a, b)) == XorBits(r.bits(a), r.bits(b)) {
      BitsAt(r, poly, a, b);
    }
  }

  lemma {:induction false} OneLawHolds(r: Ring<Gf>, poly: Gf)
    requires r == Gf8(poly)
    ensures HasOnes(r)
  {
    forall a: Gf ensures MulBits(r, r.one, r.bits(a)) == a {
      OneTimesAt(r, poly, a);
    }
  }

  lemma {:induction false} LawsHold(poly: Gf)
    ensures Laws(Gf8(poly))
  {
    SumLawsHold(Gf8(poly), poly);
    UnitLawsHold(Gf8(poly), poly);
    SumBitsHold(Gf8(poly), poly);
    OneLawHolds(Gf8(poly), poly);
    OneBits(Gf8(poly), poly);
  }
}

/** rs_erasure: recovering four erased bytes. */
module RsErasure {
  import opened Arith
  import opened Sealing
  import opened BinaryRing
  import opened GfMatrix
  import opened Gf256
  import opened ErasureRank

  const DECMAT_BA: seq<nat> := [0, 256, 1024, 2048]
  const ROM_ROWS: nat := 3868
  const RSCODE_LEN: nat := 16
  const F_ROW_0: seq<nat> := [1, 1, 1, 1, 1, 1, 1, 1, 1, 1, 1, 1, 1, 1, 1, 1]
  const F_ROW_1: seq<nat> := [0, 1, 2, 3, 4, 5, 6, 7, 8, 9, 10, 11, 12, 13, 14, 15]
  const F_ROW_2: seq<nat> := [0, 0, 1, 3, 6, 10, 15, 21, 28, 36, 45, 55, 66, 78, 91, 105]
  const F_ROW_3: seq<nat> := [0, 0, 0, 1, 4, 10, 20, 35, 56, 84, 120, 165, 220, 286, 364, 455]
  const F_TBL: seq<nat> := F_ROW_0 + F_ROW_1 + F_ROW_2 + F_ROW_3

  function Table(p: nat, n: nat): nat {
    F_TBL[p % 4 * 16 + n % 16]
  }

  /** The table holds binomial coefficients. */
  lemma {:induction false} TableIsChoose(p: nat, n: nat)
    requires p < 4 && n < 16
    ensures Table(p, n) == Choose(n, p)
  {
    TableRow(p, n);
    RowIsChoose(p, n);
  }

  function Row(p: nat): (row: seq<nat>)
    requires p < 4
    ensures |row| == 16
  {
    if p == 0 then F_ROW_0 else if p == 1 then F_ROW_1 else if p == 2 then F_ROW_2 else F_ROW_3
  }

  lemma {:induction false} TableRow(p: nat, n: nat)
    requires p < 4 && n < 16
    ensures Table(p, n) == Row(p)[n]
  {
    Quarter(F_ROW_0, F_ROW_1, F_ROW_2, F_ROW_3, p, n);
  }

  lemma {:induction false} Quarter(a: seq<nat>, b: seq<nat>, c: seq<nat>, d: seq<nat>, p: nat, n: nat)
    requires |a| == |b| == |c| == |d| == 16 && p < 4 && n < 16
    ensures (a + b + c + d)[p % 4 * 16 + n % 16]
            == (if p == 0 then a else if p == 1 then b else if p == 2 then c else d)[n]
  {}

  lemma {:induction false} RowIsChoose(p: nat, n: nat)
    requires p < 4 && n < 16
    ensures Row(p)[n] == Choose(n, p)
  {
    ChooseFew(n);
    Rows(n);
  }

  lemma {:induction false} Rows(n: nat)
    requires n < 16
    ensures F_ROW_0[n] == 1 && F_ROW_1[n] == n
    ensures 2 * F_ROW_2[n] == n * (n - 1) && 6 * F_ROW_3[n] == n * (n - 1) * (n - 2)
  {}

  /** A number as a word of n bits. */
  function WordOf(e: nat, n: nat): (b: Word)
    requires e < Pow2(n)
    ensures |b| == n && Value(b) == e
    decreases n
  {
    if n == 0 then []
    else
      var half := Pow2(n - 1);
      var rest := WordOf(if e >= half then e - half else e, n - 1);
      assert ([e >= half] + rest)[1..] == rest;
      [e >= half] + rest
  }

  /** The shift register e holds the n bits of `rest` at its upper end. */
  ghost predicate Holds(e: nat, rest: nat, n: nat) {
    forall k {:trigger Opened(k)} :: Opened(k) && k == REGISTER ==>
      n <= 16 && rest < Pow2(n) && e == rest * Pow2(16 - n)
  }

  const REGISTER: nat := 3

  /** The next bit of the word v that the register holds. */
  lemma {:induction false} NextBit(e: nat, v: Word)
    requires v != [] && Holds(e, Value(v), |v|)
    ensures e < 0x1_0000 && e / 0x8000 == (if v[0] then 1 else 0)
    ensures Holds(e * 2 % 0x1_0000, Value(v[1..]), |v| - 1)
  {
    assert Opened(REGISTER);
    var n := |v|;
    var half, u := Pow2(n - 1), Pow2(16 - n);
    ValueBound(v[1..]);
    PowAdd(n - 1, 16 - n);
    Pow2Of15();
    ShiftOut(e, Value(v), Value(v[1..]), half, u);
  }

  lemma {:induction false} ShiftOut(e: nat, rest: nat, low: nat, half: nat, u: nat)
    requires e == rest * u && half * u == 0x8000 && u > 0 && low < half && (rest == low || rest == half + low)
    ensures e < 0x1_0000 && (e / 0x8000 == if rest == low then 0 else 1)
    ensures e * 2 % 0x1_0000 == low * (2 * u)
  {
    Order(low, half, u);
    Distribute(half, low, u);
    Doubled(e);
    assert low * (2 * u) == 2 * (low * u);
  }

  lemma {:induction false} Pow2Of15()
    ensures Pow2(15) == 0x8000 && Pow2(16) == 0x1_0000
  {
    PowAdd(4, 4);
    PowAdd(8, 8);
  }

  lemma {:induction false} Doubled(e: nat)
    requires e < 0x1_0000
    ensures e / 0x8000 == (if e >= 0x8000 then 1 else 0)
    ensures e * 2 % 0x1_0000 == if e >= 0x8000 then 2 * e - 0x1_0000 else 2 * e
  {}

  lemma {:induction false} Order(rest: nat, half: nat, u: nat)
    requires u > 0 && rest < half
    ensures rest * u < half * u
  {
    Distribute(half - rest, rest, u);
  }

  /** Shorter codes have the upper bits of the pattern padded with ones. */
  function PadLen(codeidx: nat): (n: nat)
    ensures n <= 6
  {
    2 * (3 - codeidx % 4)
  }

  /** The erased symbols of the code, as a word: the bits that are not set in the
      survival pattern. */
  function Erased(survival: nat, codeidx: nat): (w: Word)
    requires survival < 0x1_0000
    ensures |w| == 16 - PadLen(codeidx) && Value(w) == LowBits(0xffff - survival, |w|)
  {
    var n := 16 - PadLen(codeidx);
    WordOf(LowBits(0xffff - survival, n), n)
  }

  function LowBits(e: nat, n: nat): (r: nat)
    ensures r < Pow2(n)
  {
    e % Pow2(n)
  }

  ghost predicate IsPadded(e: nat, low: Word) {
    |low| <= 16 && e == Pow2(16) - Pow2(|low|) + Value(low)
  }

  // Bit by bit.

  function OrBits(bs: seq<bool>, cs: seq<bool>): (x: seq<bool>)
    requires |bs| == |cs|
    ensures |x| == |bs|
  {
    seq(|bs|, i requires 0 <= i < |bs| => bs[i] || cs[i])
  }

  /** (1 << k) - 1 in n bits. */
  function LowOnes(k: nat, n: nat): (b: Word)
    requires k <= n
    ensures |b| == n
  {
    seq(n, i requires 0 <= i < n => i >= n - k)
  }

  lemma {:induction false} LowOnesValue(k: nat, n: nat)
    requires k <= n
    ensures Value(LowOnes(k, n)) == Pow2(k) - 1
  {
    var b := LowOnes(k, n);
    if k == n {
      AllOnesValue(b);
    } else {
      LowOnesValue(k, n - 1);
      assert b[1..] == LowOnes(k, n - 1);
    }
  }

  /** b << k, of which |b| bits are kept. */
  function ShlBits(b: Word, k: nat): (c: Word)
    requires k <= |b|
    ensures |c| == |b|
  {
    b[k..] + seq(k, _ => false)
  }

  lemma {:induction false} ShlValue(b: Word, k: nat)
    requires k <= |b|
    ensures Value(ShlBits(b, k)) == Value(b[k..]) * Pow2(k)
  {
    var c, n := ShlBits(b, k), |b| - k;
    ValueSplit(c, n);
    assert c[..n] == b[k..] && c[n..] == LowOnes(0, k);
    LowOnesValue(0, k);
  }

  function Complement(b: Word): (c: Word)
    ensures |c| == |b|
  {
    seq(|b|, i requires 0 <= i < |b| => !b[i])
  }

  lemma {:induction false} ComplementValue(b: Word)
    ensures Value(Complement(b)) == Pow2(|b|) - 1 - Value(b)
  {
    if b != [] {
      ComplementValue(b[1..]);
      assert Complement(b)[1..] == Complement(b[1..]);
    }
  }

  lemma {:induction false} LowWord(c: Word, m: nat)
    requires m <= |c|
    ensures Value(c[m..]) == LowBits(Value(c), |c| - m)
  {
    ValueSplit(c, m);
    ValueBound(c[m..]);
    RemainderUnique(Value(c), Pow2(|c| - m), Value(c[..m]), Value(c[m..]));
  }

  lemma {:induction false} SixteenComplement(b: Word)
    requires |b| == 16
    ensures Value(Complement(b)) == 0xffff - Value(b)
  {
    ComplementValue(b);
    Pow2Of15();
  }

  /** The erased symbols of the code are those whose bits are not set. */
  lemma {:induction false} ErasedBits(b: Word, survival: nat, codeidx: nat)
    requires survival < 0x1_0000 && |b| == 16 && Value(b) == survival
    ensures Erased(survival, codeidx) == Complement(b)[PadLen(codeidx)..]
  {
    SixteenComplement(b);
    LowWord(Complement(b), PadLen(codeidx));
    ValueInjective(Erased(survival, codeidx), Complement(b)[PadLen(codeidx)..]);
  }

  /** A word with its m upper bits set. */
  lemma {:induction false} UpperOnes(w: Word, m: nat)
    requires m <= |w| && forall i :: 0 <= i < m ==> w[i]
    ensures Value(w) == Pow2(|w|) - Pow2(|w| - m) + Value(w[m..])
  {
    var n := |w| - m;
    ValueSplit(w, m);
    AllOnesValue(w[..m]);
    PowAdd(m, n);
    OneLess(Pow2(m), Pow2(n));
  }

  lemma {:induction false} OneLess(a: nat, b: nat)
    ensures (a - 1) * b == a * b - b
  {}

  /** The pattern with the bits of the survival pattern inverted and the m upper bits
      set. */
  function Padded(b: Word, m: nat): (w: Word)
    requires m <= |b|
    ensures |w| == |b|
  {
    var n := |b|;
    OrBits(XorBits(b, LowOnes(n, n)), ShlBits(LowOnes(m, n), n - m))
  }

  lemma {:induction false} PaddedIs(b: Word, m: nat)
    requires m <= |b|
    ensures (forall i :: 0 <= i < m ==> Padded(b, m)[i]) && Padded(b, m)[m..] == Complement(b)[m..]
  {}

  lemma {:induction false} PadLenBits(codeidx: nat)
    ensures codeidx % 4 < Pow2(2)
    ensures PadLen(codeidx) == 2 * Value(XorBits(LowOnes(2, 2), WordOf(codeidx % 4, 2)))
  {
    assert Pow2(2) == 4;
    var v := WordOf(codeidx % 4, 2);
    assert XorBits(LowOnes(2, 2), v) == Complement(v);
    ComplementValue(v);
  }

  /** Translating the survival pattern into the padded erasure pattern. */
  method Pad(survival: nat, padlen: nat, ghost codeidx: nat) returns (errpat: nat)
    requires survival < 0x1_0000 && padlen == PadLen(codeidx)
    ensures IsPadded(errpat, Erased(survival, codeidx))
  {
    Pow2Of15();
    var b := WordOf(survival, RSCODE_LEN);
    var erasure_pattern := XorBits(b, LowOnes(RSCODE_LEN, RSCODE_LEN));
    var padmask := ShlBits(LowOnes(padlen, RSCODE_LEN), RSCODE_LEN - padlen);
    var w := OrBits(erasure_pattern, padmask);
    errpat := Value(w);
    PadsErased(b, survival, codeidx, w);
  }

  lemma {:induction false} PadsErased(b: Word, survival: nat, codeidx: nat, w: Word)
    requires survival < 0x1_0000 && |b| == 16 && Value(b) == survival && w == Padded(b, PadLen(codeidx))
    ensures IsPadded(Value(w), Erased(survival, codeidx))
  {
    PaddedIs(b, PadLen(codeidx));
    ErasedBits(b, survival, codeidx);
    PadsLow(w, PadLen(codeidx), Erased(survival, codeidx));
  }

  lemma {:induction false} PadsLow(w: Word, m: nat, low: Word)
    requires m <= |w| == 16 && (forall i :: 0 <= i < m ==> w[i]) && w[m..] == low
    ensures IsPadded(Value(w), low)
  {
    UpperOnes(w, m);
  }

  lemma {:induction false} PadOnes(w: Word, m: nat, low: Word)
    requires m + |low| == |w| && Value(w) == Pow2(|w|) - Pow2(|low|) + Value(low)
    ensures (forall i :: 0 <= i < m ==> w[i]) && w[m..] == low
  {
    PowAdd(m, |low|);
    ValueSplit(w, m);
    ValueBound(w[m..]);
    ValueBound(w[..m]);
    ValueBound(low);
    TopPart(Value(w[..m]), Pow2(m), Pow2(|low|), Value(w[m..]), Value(low));
    AllOnesValue(w[..m]);
    ValueInjective(w[m..], low);
    forall i | 0 <= i < m ensures w[i] {
      assert w[..m][i];
    }
  }

  /** Dividing with remainder is unique. */
  lemma {:induction false} TopPart(top: nat, m: nat, u: nat, low: nat, low': nat)
    requires top < m && low < u && low' < u && top * u + low == m * u - u + low'
    ensures top == m - 1 && low == low'
  {
    Distribute(m - 1 - top, top, u);
    assert (m - 1) * u == m * u - u;
    if top < m - 1 {
      Distribute(m - 2 - top, 1, u);
    }
  }

  /** The row of the decoding matrix: how far the scan gets from the block of the
      code. */
  function Index(survival: nat, codeidx: nat): nat
    requires survival < 0x1_0000
  {
    DECMAT_BA[codeidx % 4] + Scan(Erased(survival, codeidx), 3)
  }

  /** One look at the table. */
  method Lookup(p: nat, L: nat) returns (n: nat)
    requires p < 4 && L < 16
    ensures n == Choose(L, p)
  {
    TableIsChoose(p, L);
    n := Table(p, L);
  }

  /** The loop that scans the pattern. */
  method FindIndex(survival: nat, codeidx: nat) returns (decmat_idx: nat)
    requires survival < 0x1_0000
    ensures decmat_idx == Index(survival, codeidx)
  {
    decmat_idx := DECMAT_BA[codeidx % 4];
    PadLenBits(codeidx);
    var padlen := 2 * Value(XorBits(LowOnes(2, 2), WordOf(codeidx % 4, 2)));
    var errpat := Pad(survival, padlen, codeidx);
    var scan := ScanPattern(errpat, 3 + padlen, padlen, Erased(survival, codeidx));
    decmat_idx := decmat_idx + scan;
  }

  method ScanPattern(pattern: nat, ones: nat, ghost padlen: nat, ghost low: Word) returns (scan: nat)
    requires padlen + |low| == 16 && ones == 3 + padlen && IsPadded(pattern, low)
    ensures scan == Scan(low, 3)
  {
    var errpat, p: int := pattern, ones;
    scan := 0;
    ghost var v := Start(pattern, low);
    for k := 0 to 16
      invariant |v| == 16 - k && Holds(errpat, Value(v), |v|) && Scanned(v, p, padlen - k, scan, low)
    {
      errpat, p, scan := ScanBit(errpat, p, k, scan, v, padlen, low);
      v := v[1..];
    }
  }

  /** The top bit of the pattern, the k-th that is looked at. */
  method ScanBit(errpat: nat, p: int, k: nat, scan: nat, ghost v: Word, ghost padlen: nat, ghost low: Word)
    returns (errpat': nat, p': int, scan': nat)
    requires k < 16 && |v| == 16 - k && Holds(errpat, Value(v), |v|) && Scanned(v, p, padlen - k, scan, low)
    ensures Holds(errpat', Value(v[1..]), |v| - 1) && Scanned(v[1..], p', padlen - k - 1, scan', low)
  {
    NextBit(errpat, v);
    ScanStep(v, p, padlen - k, scan, low);
    p', scan' := p, scan;
    var msb := errpat / 0x8000;
    if msb == 1 {
      p' := p - 1;
    } else if p >= 0 {
      var n := Lookup(p, 15 - k);
      scan' := scan + n;
    }
    errpat' := errpat * 2 % 0x1_0000;
  }

  /** With the word v still to come, p ones left less one, and `ahead` bits of padding
      to come. */
  ghost predicate Scanned(v: Word, p: int, ahead: int, scan: nat, low: Word) {
    && (if ahead > 0 then p == 3 + ahead && LeadingOnes(v, ahead) else p <= 3)
    && scan + Scan(v, p) == Scan(low, 3)
  }

  lemma {:induction false} ScanStep(v: Word, p: int, ahead: int, scan: nat, low: Word)
    requires v != [] && Scanned(v, p, ahead, scan, low)
    ensures v[0] ==> Scanned(v[1..], p - 1, ahead - 1, scan, low)
    ensures !v[0] ==> p <= 3
    ensures !v[0] ==> Scanned(v[1..], p, ahead - 1, scan + if p >= 0 then Choose(|v| - 1, p) else 0, low)
  {}

  /** The padded pattern as a word. */
  lemma {:induction false} Start(pattern: nat, low: Word) returns (v: Word)
    requires IsPadded(pattern, low)
    ensures |v| == 16 && Holds(pattern, Value(v), 16)
    ensures LeadingOnes(v, 16 - |low|)
    ensures Scan(v, 3 + 16 - |low|) == Scan(low, 3)
  {
    ValueBound(low);
    PowMono(|low|, 16);
    v := WordOf(pattern, 16);
    HoldsAll(v);
    PadOnes(v, 16 - |low|, low);
    ScanPastOnes(v, 16 - |low|, 3 + 16 - |low|);
    ManyOnes(v, 16 - |low|);
  }

  lemma {:induction false} HoldsAll(v: Word)
    requires |v| == 16
    ensures Holds(Value(v), Value(v), 16)
  {
    ValueBound(v);
    assert Pow2(16 - 16) == 1;
  }

  predicate LeadingOnes(v: Word, m: nat) {
    m == 0 || (v != [] && v[0] && LeadingOnes(v[1..], m - 1))
  }

  lemma {:induction false} ManyOnes(v: Word, m: nat)
    requires m <= |v| && forall i :: 0 <= i < m ==> v[i]
    ensures LeadingOnes(v, m)
  {
    if m > 0 {
      ManyOnes(v[1..], m - 1);
    }
  }

  /** How many patterns of four erasures the code has: 210, 495, 1001 or 1820. */
  function Patterns(codeidx: nat): nat {
    Choose(16 - PadLen(codeidx), 4)
  }

  lemma {:induction false} BlockSizes(codeidx: nat)
    ensures Patterns(codeidx) == [210, 495, 1001, 1820][codeidx % 4]
    ensures DECMAT_BA[codeidx % 4] + Patterns(codeidx) <= [256, 1024, 2048, ROM_ROWS][codeidx % 4]
  {
    ChooseFew(16 - PadLen(codeidx));
  }

  /** With four erasures the index is that of the block plus the number of larger
      patterns of four erasures of the code, and lies in the block. */
  lemma {:induction false} IndexCounts(survival: nat, codeidx: nat)
    requires survival < 0x1_0000 && Ones(Erased(survival, codeidx)) == 4
    ensures Index(survival, codeidx) == DECMAT_BA[codeidx % 4] + |Larger(Erased(survival, codeidx))|
    ensures Index(survival, codeidx) < DECMAT_BA[codeidx % 4] + Patterns(codeidx)
  {
    RankCounts(Erased(survival, codeidx));
    RankBound(Erased(survival, codeidx));
  }

  /** No two patterns of four erasures, of the same or of different codes, share a
      row of the ROM. */
  lemma {:induction false} IndexInjective(survival: nat, codeidx: nat, survival': nat, codeidx': nat)
    requires survival < 0x1_0000 && Ones(Erased(survival, codeidx)) == 4
    requires survival' < 0x1_0000 && Ones(Erased(survival', codeidx')) == 4
    ensures Index(survival, codeidx) == Index(survival', codeidx')
            <==> codeidx % 4 == codeidx' % 4 && Erased(survival, codeidx) == Erased(survival', codeidx')
  {
    IndexCounts(survival, codeidx);
    IndexCounts(survival', codeidx');
    BlockSizes(codeidx);
    BlockSizes(codeidx');
    if Index(survival, codeidx) == Index(survival', codeidx') {
      assert codeidx % 4 == codeidx' % 4;
      RankInjective(Erased(survival, codeidx), Erased(survival', codeidx'));
    }
  }

  /** Every row of a block is used. */
  lemma {:induction false} IndexOnto(codeidx: nat, row: nat) returns (survival: nat)
    requires row < Patterns(codeidx)
    ensures survival < 0x1_0000 && Ones(Erased(survival, codeidx)) == 4
    ensures Index(survival, codeidx) == DECMAT_BA[codeidx % 4] + row
  {
    var b := Unrank(16 - PadLen(codeidx), 4, row);
    SixteenBits(b);
    survival := 0xffff - Value(b);
    ErasedIs(survival, codeidx, b);
  }

  lemma {:induction false} SixteenBits(b: Word)
    requires |b| <= 16
    ensures Value(b) < 0x1_0000
  {
    ValueBound(b);
    PowMono(|b|, 16);
    Pow2Of15();
  }

  lemma {:induction false} ErasedIs(survival: nat, codeidx: nat, b: Word)
    requires survival < 0x1_0000 && |b| == 16 - PadLen(codeidx) && Value(b) == 0xffff - survival
    ensures Erased(survival, codeidx) == b
  {
    var w := Erased(survival, codeidx);
    ValueBound(b);
    SmallMod(Value(b), Pow2(|b|));
    assert Value(w) == LowBits(Value(b), |b|);
    ValueInjective(w, b);
  }

  lemma {:induction false} SmallMod(v: nat, m: nat)
    requires v < m
    ensures v % m == v
  {}

  /** For any pattern at all: the index leaves the block, by one, exactly when the
      erased symbols are among the last four of the code and are not all four. */
  lemma {:induction false} IndexInBlock(survival: nat, codeidx: nat)
    requires survival < 0x1_0000
    ensures Index(survival, codeidx) <= DECMAT_BA[codeidx % 4] + Patterns(codeidx)
    ensures Index(survival, codeidx) == DECMAT_BA[codeidx % 4] + Patterns(codeidx)
            <==> Value(Erased(survival, codeidx)) < 15
  {
    ScanBound(Erased(survival, codeidx), 3);
    assert Pow2(4) == 16;
  }

  /** Hence the ROM is read beyond its end exactly for the longest code with such a
      pattern, for instance when nothing is erased. */
  lemma {:induction false} BeyondTheRom(survival: nat, codeidx: nat)
    requires survival < 0x1_0000
    ensures Index(survival, codeidx) >= ROM_ROWS <==> codeidx % 4 == 3 && survival > 0xfff0
  {
    IndexInBlock(survival, codeidx);
    BlockSizes(codeidx);
    LongestCode(survival, codeidx);
  }

  lemma {:induction false} LongestCode(survival: nat, codeidx: nat)
    requires survival < 0x1_0000
    ensures codeidx % 4 == 3 ==> Value(Erased(survival, codeidx)) == 0xffff - survival
  {
    if codeidx % 4 == 3 {
      AllLow(0xffff - survival);
    }
  }

  lemma {:induction false} AllLow(v: nat)
    requires v < 0x1_0000
    ensures LowBits(v, 16) == v
  {
    Pow2Of15();
    var m := Pow2(16);
    SmallMod(v, m);
  }

  // The dot product, one bit of the data at a time.

  /** Row k of the decoding matrix. */
  function RowOf(rom: seq<Gf>, k: nat): (a: seq<Gf>)
    requires |rom| == 48 && k < 4
    ensures |a| == 12
  {
    rom[12 * k..12 * k + 12]
  }

  /** All that the loops need to know of the field. */
  ghost predicate Field(R: Ring<Gf>) {
    Laws(R) && R.zero == ZERO
  }

  /** Twelve bytes. */
  ghost predicate Data(R: Ring<Gf>, d: seq<Gf>) {
    |d| == 12 && forall j :: 0 <= j < 12 ==> |R.bits(d[j])| == 8
  }

  /** Guarded, so that the loops deal with the field by its laws alone. */
  ghost predicate IsGf8(R: Ring<Gf>, poly: Gf) {
    forall k {:trigger Opened(k)} :: Opened(k) && k == BYTES ==> R == Gf8(poly)
  }

  const BYTES: nat := 4

  lemma {:induction false} Gf8IsField(poly: Gf, d: seq<Gf>)
    requires |d| == 12
    ensures Field(Gf8(poly)) && IsGf8(Gf8(poly), poly) && Data(Gf8(poly), d)
  {
    LawsHold(poly);
  }

  /** After i bits the matrix element in row k, column j has been multiplied by
      x^i. */
  ghost predicate Cell(R: Ring<Gf>, r: seq<Gf>, rom: seq<Gf>, k: nat, j: nat, i: nat)
    requires |r| == |rom| == 48 && k < 4 && j < 12
  {
    r[12 * k + j] == Power(R, rom[12 * k + j], i)
  }

  /** How often the element in row k', column j' has been multiplied by x when, with
      bit i, the columns before j are done, and in column j the rows before k. */
  function Turns(i: nat, j: nat, k: nat, k': nat, j': nat): nat {
    if j' < j || (j' == j && k' < k) then i + 1 else i
  }

  ghost predicate Elements(R: Ring<Gf>, r: seq<Gf>, rom: seq<Gf>, i: nat, j: nat, k: nat) {
    && |r| == |rom| == 48
    && forall k', j' {:trigger Turns(i, j, k, k', j')} :: 0 <= k' < 4 && 0 <= j' < 12 ==>
         Cell(R, r, rom, k', j', Turns(i, j, k, k', j'))
  }

  lemma {:induction false} NextElement(R: Ring<Gf>, r: seq<Gf>, rom: seq<Gf>, i: nat, j: nat, k: nat, x: Gf)
    requires Elements(R, r, rom, i, j, k) && k < 4 && j < 12 && x == R.shift(r[12 * k + j])
    ensures Elements(R, r[12 * k + j := x], rom, i, j, k + 1)
    ensures Cell(R, r, rom, k, j, i)
  {
    var r' := r[12 * k + j := x];
    assert Turns(i, j, k, k, j) == i;
    forall k', j' {:trigger Turns(i, j, k + 1, k', j')} | 0 <= k' < 4 && 0 <= j' < 12
      ensures Cell(R, r', rom, k', j', Turns(i, j, k + 1, k', j'))
    {
      assert Cell(R, r, rom, k', j', Turns(i, j, k, k', j'));
      if k' != k || j' != j {
        assert r'[12 * k' + j'] == r[12 * k' + j'];
      } else {
        assert Power(R, rom[12 * k + j], i + 1) == R.shift(Power(R, rom[12 * k + j], i));
      }
    }
  }

  lemma {:induction false} NextColumn(R: Ring<Gf>, r: seq<Gf>, rom: seq<Gf>, i: nat, j: nat)
    requires Elements(R, r, rom, i, j, 4)
    ensures Elements(R, r, rom, i, j + 1, 0)
  {
    forall k', j' {:trigger Turns(i, j + 1, 0, k', j')} | 0 <= k' < 4 && 0 <= j' < 12
      ensures Cell(R, r, rom, k', j', Turns(i, j + 1, 0, k', j'))
    {
      assert Turns(i, j, 4, k', j') == Turns(i, j + 1, 0, k', j');
    }
  }

  lemma {:induction false} NextBitOfData(R: Ring<Gf>, r: seq<Gf>, rom: seq<Gf>, i: nat)
    requires Elements(R, r, rom, i, 12, 0)
    ensures Elements(R, r, rom, i + 1, 0, 0)
  {
    forall k', j' {:trigger Turns(i + 1, 0, 0, k', j')} | 0 <= k' < 4 && 0 <= j' < 12
      ensures Cell(R, r, rom, k', j', Turns(i + 1, 0, 0, k', j'))
    {
      assert Turns(i, 12, 0, k', j') == Turns(i + 1, 0, 0, k', j');
    }
  }

  /** The code symbol k then. */
  ghost function Symbol(R: Ring<Gf>, rom: seq<Gf>, d: seq<Gf>, k: nat, i: nat, j: nat): Gf
    requires Field(R) && |rom| == 48 && Data(R, d) && k < 4 && i < 8 && j <= 12
  {
    R.add(Partial(R, RowOf(rom, k), d, i, 12), BitRow(R, RowOf(rom, k), d, i, j))
  }

  /** One turn of the innermost loop. */
  method Element(tmp: Gf, ck: Gf, dj: Gf, i: nat, poly: Gf, ghost R: Ring<Gf>) returns (c: Gf, r: Gf)
    requires i < 8 && IsGf8(R, poly) && |R.bits(dj)| == 8
    ensures c == R.add(ck, Gate(R, R.bits(dj)[i], tmp))
    ensures r == R.shift(tmp)
  {
    assert Opened(BYTES);
    c := Xor(ck, if dj[i] then tmp else ZERO);
    r := if tmp[7] then Xor(ShiftLeft(tmp), poly) else ShiftLeft(tmp);
  }

  /** The innermost loop: column j of bit i. */
  method Column(c: array<Gf>, r: array<Gf>, d: seq<Gf>, i: nat, j: nat, poly: Gf, ghost R: Ring<Gf>,
                ghost rom: seq<Gf>)
    requires Field(R) && IsGf8(R, poly)
    requires c.Length == 4 && r.Length == 48 && c != r && Data(R, d) && |rom| == 48 && i < 8 && j < 12
    requires Elements(R, r[..], rom, i, j, 0) && Symbols(R, c[..], rom, d, i, j, 0)
    modifies c, r
    ensures Elements(R, r[..], rom, i, j + 1, 0) && Symbols(R, c[..], rom, d, i, j + 1, 0)
  {
    for k := 0 to 4
      invariant Elements(R, r[..], rom, i, j, k) && Symbols(R, c[..], rom, d, i, j, k)
    {
      var idx := k * 12 + j;
      var ck, x := Element(r[idx], c[k], d[j], i, poly, R);
      NextElement(R, r[..], rom, i, j, k, x);
      NextSymbol(R, c[..], rom, d, i, j, k, r[idx], ck);
      ghost var r', c' := r[..][idx := x], c[..][k := ck];
      c[k] := ck;
      r[idx] := x;
      assert r[..] == r' && c[..] == c';
    }
    NextColumn(R, r[..], rom, i, j);
  }

  /** The code symbols when, with bit i, the columns before j are done, and in
      column j the rows before k. */
  ghost predicate Symbols(R: Ring<Gf>, c: seq<Gf>, rom: seq<Gf>, d: seq<Gf>, i: nat, j: nat, k: nat)
    requires Field(R)
    requires |rom| == 48 && Data(R, d) && i < 8 && j <= 12
  {
    && |c| == 4 && (k > 0 ==> j < 12)
    && forall k' :: 0 <= k' < 4 ==> c[k'] == Symbol(R, rom, d, k', i, if k' < k then j + 1 else j)
  }

  lemma {:induction false} NextSymbol(R: Ring<Gf>, c: seq<Gf>, rom: seq<Gf>, d: seq<Gf>, i: nat, j: nat, k: nat,
                                      tmp: Gf, ck: Gf)
    requires Field(R)
    requires |rom| == 48 && Data(R, d) && i < 8 && j < 12 && k < 4
    requires Symbols(R, c, rom, d, i, j, k) && tmp == Power(R, rom[12 * k + j], i)
    requires ck == R.add(c[k], Gate(R, R.bits(d[j])[i], tmp))
    ensures Symbols(R, c[k := ck], rom, d, i, j, k + 1)
    ensures k == 3 ==> Symbols(R, c[k := ck], rom, d, i, j + 1, 0)
  {
    var x, y := Partial(R, RowOf(rom, k), d, i, 12), BitRow(R, RowOf(rom, k), d, i, j);
    AddAssociative(R, x, y, Gate(R, R.bits(d[j])[i], tmp));
    assert RowOf(rom, k)[j] == rom[12 * k + j];
  }

  lemma {:induction false} AddAssociative(r: Ring<Gf>, x: Gf, y: Gf, z: Gf)
    requires Laws(r)
    ensures r.add(r.add(x, y), z) == r.add(x, r.add(y, z))
  {
    AddZero(r, x);
    AddZero(r, z);
    Swap(r, x, y, r.zero, z);
  }

  /** All columns of bit i. */
  method BitOfData(c: array<Gf>, r: array<Gf>, d: seq<Gf>, i: nat, poly: Gf, ghost R: Ring<Gf>,
                ghost rom: seq<Gf>)
    requires Field(R) && IsGf8(R, poly)
    requires c.Length == 4 && r.Length == 48 && c != r && Data(R, d) && |rom| == 48 && i < 8
    requires Elements(R, r[..], rom, i, 0, 0) && Symbols(R, c[..], rom, d, i, 0, 0)
    modifies c, r
    ensures Elements(R, r[..], rom, i + 1, 0, 0) && Symbols(R, c[..], rom, d, i, 12, 0)
  {
    for j := 0 to 12
      invariant Elements(R, r[..], rom, i, j, 0) && Symbols(R, c[..], rom, d, i, j, 0)
    {
      Column(c, r, d, i, j, poly, R, rom);
    }
    NextBitOfData(R, r[..], rom, i);
  }

  /** The code symbols after i bits of the data. */
  ghost predicate Partials(R: Ring<Gf>, c: seq<Gf>, rom: seq<Gf>, d: seq<Gf>, i: nat)
    requires Field(R)
    requires |rom| == 48 && Data(R, d) && i <= 8
  {
    |c| == 4 && forall k :: 0 <= k < 4 ==> c[k] == Partial(R, RowOf(rom, k), d, i, 12)
  }

  lemma {:induction false} BeginBit(R: Ring<Gf>, c: seq<Gf>, rom: seq<Gf>, d: seq<Gf>, i: nat)
    requires Field(R)
    requires |rom| == 48 && Data(R, d) && i < 8 && Partials(R, c, rom, d, i)
    ensures Symbols(R, c, rom, d, i, 0, 0)
  {
    forall k | 0 <= k < 4 ensures c[k] == Symbol(R, rom, d, k, i, 0) {
      AddZero(R, c[k]);
    }
  }

  lemma {:induction false} EndBit(R: Ring<Gf>, c: seq<Gf>, rom: seq<Gf>, d: seq<Gf>, i: nat)
    requires Field(R)
    requires |rom| == 48 && Data(R, d) && i < 8 && Symbols(R, c, rom, d, i, 12, 0)
    ensures Partials(R, c, rom, d, i + 1)
  {
    forall k | 0 <= k < 4 ensures c[k] == Partial(R, RowOf(rom, k), d, i + 1, 12) {
      assert c[k] == Symbol(R, rom, d, k, i, 12);
      PartialStep(R, RowOf(rom, k), d, i, 12);
    }
  }

  /** The decoding matrix: four rows of twelve. */
  function Decoder(rom: seq<Gf>): (m: Matrix<Gf>)
    requires |rom| == 48
    ensures Size(m, 4, 12)
  {
    seq(4, k requires 0 <= k < 4 => RowOf(rom, k))
  }

  lemma {:induction false} StartValues(R: Ring<Gf>, c: seq<Gf>, r: seq<Gf>, d: seq<Gf>)
    requires Field(R)
    requires |r| == 48 && Data(R, d) && c == [ZERO, ZERO, ZERO, ZERO]
    ensures Elements(R, r, r, 0, 0, 0) && Partials(R, c, r, d, 0)
  {
    forall k | 0 <= k < 4 ensures Partial(R, RowOf(r, k), d, 0, 12) == ZERO {
      PartialStart(R, RowOf(r, k), d, 12);
    }
  }

  lemma {:induction false} EndValues(R: Ring<Gf>, c: seq<Gf>, rom: seq<Gf>, d: seq<Gf>)
    requires Field(R)
    requires |rom| == 48 && Data(R, d) && Partials(R, c, rom, d, 8)
    ensures c == Apply(R, Decoder(rom), d)
  {
    forall k | 0 <= k < 4 ensures c[k] == Dot(R, Decoder(rom)[k], d, 12) {
      PartialEnd(R, RowOf(rom, k), d, 8, 12);
    }
  }

  /** The matrix row is copied, the code symbols are cleared. */
  method Registers(rom: seq<Gf>) returns (c: array<Gf>, r: array<Gf>)
    requires |rom| == 48
    ensures fresh(c) && fresh(r) && c != r && c.Length == 4 && r.Length == 48
    ensures r[..] == rom && c[..] == [ZERO, ZERO, ZERO, ZERO]
  {
    r := new Gf[48](k requires 0 <= k < 48 => rom[k]);
    c := new Gf[4](_ => ZERO);
  }

  /** The dot products of the rows of the matrix with the data. */
  method Multiply(rom: seq<Gf>, d: seq<Gf>, poly: Gf, ghost R: Ring<Gf>) returns (c: array<Gf>)
    requires |rom| == 48 && Data(R, d) && Field(R) && IsGf8(R, poly)
    ensures fresh(c) && c[..] == Apply(R, Decoder(rom), d)
  {
    var r;
    c, r := Registers(rom);
    StartValues(R, c[..], rom, d);
    for i := 0 to 8
      invariant Elements(R, r[..], rom, i, 0, 0) && Partials(R, c[..], rom, d, i)
    {
      BeginBit(R, c[..], rom, d, i);
      BitOfData(c, r, d, i, poly, R, rom);
      EndBit(R, c[..], rom, d, i);
    }
    EndValues(R, c[..], rom, d);
  }

  /** The whole function: the code symbols are the product of the decoding matrix
      found for the pattern with the data. */
  method Decode(d: seq<Gf>, survival: nat, codeidx: nat, decmat_rom: seq<seq<Gf>>, poly: Gf) returns (c: array<Gf>)
    requires |d| == 12 && survival < 0x1_0000
    requires Index(survival, codeidx) < |decmat_rom| && forall i :: 0 <= i < |decmat_rom| ==> |decmat_rom[i]| == 48
    ensures fresh(c) && c[..] == Apply(Gf8(poly), Decoder(decmat_rom[Index(survival, codeidx)]), d)
  {
    var decmat_idx := FindIndex(survival, codeidx);
    Gf8IsField(poly, d);
    c := Multiply(decmat_rom[decmat_idx], d, poly, Gf8(poly));
  }

  /** Data encoded by a matrix of which the decoding matrix is the inverse is
      recovered. */
  lemma {:induction false} Recovers(poly: Gf, rom: seq<Gf>, encoder: Matrix<Gf>, lost: seq<Gf>)
    requires |rom| == 48 && |lost| == 4 && Size(encoder, 12, 4)
    requires Product(Gf8(poly), Decoder(rom), encoder, 4) == Identity(Gf8(poly), 4)
    ensures Apply(Gf8(poly), Decoder(rom), Apply(Gf8(poly), encoder, lost)) == lost
  {
    LawsHold(poly);
    DecodesWhatWasEncoded(Gf8(poly), Decoder(rom), encoder, lost);
  }

  /** In general, with the survivors and the lost bytes each given by a matrix over
      some source bytes v: whenever the decoding matrix takes the one to the other,
      the output is the lost bytes. */
  lemma {:induction false} RecoversErased(poly: Gf, rom: seq<Gf>, survivors: Matrix<Gf>, lost: Matrix<Gf>, v: seq<Gf>)
    requires |rom| == 48 && Size(survivors, 12, |v|) && Size(lost, 4, |v|)
    requires Product(Gf8(poly), Decoder(rom), survivors, |v|) == lost
    ensures Apply(Gf8(poly), Decoder(rom), Apply(Gf8(poly), survivors, v)) == Apply(Gf8(poly), lost, v)
  {
    LawsHold(poly);
    ApplyProduct(Gf8(poly), Decoder(rom), survivors, v);
  }
}
