/** The systolic multiply-accumulate chain (DSP/multi_chan_conv_fil/src/srcMac.cpp)
    for any number of taps and channels. */
module SrcDelayLine {
  import opened Arith

  const DATA_MAX: int := 0x8000
  const COEF_MAX: int := 0x2_0000
  const ACC_MAX: int := 0x8000_0000_0000

  type Sample = x: int | -DATA_MAX <= x < DATA_MAX
  type Coef = c: int | -COEF_MAX <= c < COEF_MAX

  /** Everything the chain is given in one call. */
  datatype MacIn = MacIn(toshift: bool, x: Sample, c: seq<Coef>)

  /** Forty-eight bit two's complement. */
  function WrapAcc(v: int): (w: int)
    ensures -ACC_MAX <= w < ACC_MAX
    ensures -ACC_MAX <= v < ACC_MAX ==> w == v
  {
    (v + ACC_MAX) % (2 * ACC_MAX) - ACC_MAX
  }

  /** The multiplier: sixteen by eighteen bits always fit its 36-bit register. */
  function Mul(x: Sample, c: Coef): (p: int)
    ensures -DATA_MAX * COEF_MAX <= p <= DATA_MAX * COEF_MAX
  {
    ProductBound(x, c);
    x * c
  }

  /** Stage i of a plain delay line that has been given xs; empty stages hold 0. */
  function Stage(xs: seq<Sample>, i: nat): Sample {
    if i < |xs| then xs[|xs| - 1 - i] else 0
  }

  /** The samples that slot u's channel has shifted in up to and including slot u. */
  function Shifted(h: seq<MacIn>, chMux: nat, u: int): seq<Sample>
    requires chMux > 0 && u < |h|
    decreases u
  {
    if u < 0 then []
    else Shifted(h, chMux, u - chMux) + if h[u].toshift then [h[u].x] else []
  }

  function CoefAt(h: seq<MacIn>, t: int, k: nat): Coef {
    if 0 <= t < |h| && k < |h[t].c| then h[t].c[k] else 0
  }

  /** Taps 0..m-1 of the dot product of slot u's delay line with the
      coefficients that reach tap k at call u + chMux + 1 + k. */
  function Dot(h: seq<MacIn>, chMux: nat, u: int, m: nat): int
    requires chMux > 0 && u < |h|
  {
    if m == 0 then 0
    else Dot(h, chMux, u, m - 1) + Mul(Stage(Shifted(h, chMux, u), m - 1), CoefAt(h, u + chMux + m, m - 1))
  }

  lemma {:induction false} ShiftedPrefix(h: seq<MacIn>, more: seq<MacIn>, chMux: nat, u: int)
    requires chMux > 0 && u < |h|
    ensures Shifted(h + more, chMux, u) == Shifted(h, chMux, u)
    decreases u
  {
    if u >= 0 {
      ShiftedPrefix(h, more, chMux, u - chMux);
    }
  }

  lemma {:induction false} DotPrefix(h: seq<MacIn>, more: seq<MacIn>, chMux: nat, u: int, m: nat)
    requires chMux > 0 && u + chMux + m < |h|
    ensures Dot(h + more, chMux, u, m) == Dot(h, chMux, u, m)
  {
    if m > 0 {
      DotPrefix(h, more, chMux, u, m - 1);
      ShiftedPrefix(h, more, chMux, u);
    }
  }

  lemma {:induction false} ProductBound(x: Sample, c: Coef)
    ensures -DATA_MAX * COEF_MAX <= x * c <= DATA_MAX * COEF_MAX
  {
    if x >= 0 {
      MulMonotone(c, COEF_MAX, x);
      MulMonotone(-COEF_MAX, c, x);
    } else {
      var n: nat := -(x as int);
      MulMonotone(c, COEF_MAX, n);
      MulMonotone(-COEF_MAX, c, n);
    }
  }

  /** Each tap adds at most 2^32 to the magnitude of the sum. */
  lemma {:induction false} DotBound(h: seq<MacIn>, chMux: nat, u: int, m: nat)
    requires chMux > 0 && u < |h|
    ensures -(m * 0x1_0000_0000) <= Dot(h, chMux, u, m) <= m * 0x1_0000_0000
  {
    if m > 0 {
      DotBound(h, chMux, u, m - 1);
    }
  }
}

module SrcMacChain {
  import opened Sealing
  import opened SrcDelayLine

  /** The registers of one tap. */
  datatype Tap = Tap(x: Sample, acc: int, toshift: bool, reg: seq<Sample>)

  /** The time-skewed image of the delay lines in tap i's registers: tap i lags
      i calls behind tap 0, and its accumulator holds the dot product of taps 0..i
      of one single slot. */
  ghost predicate TapSkewed(h: seq<MacIn>, chMux: nat, i: nat, r: Tap)
    requires chMux > 0
  {
    var t := |h|;
    && r.toshift == (t - 1 - i >= 0 && h[t - 1 - i].toshift)
    && r.x == Stage(Shifted(h, chMux, t - 1 - chMux - i), i)
    && r.acc == Dot(h, chMux, t - 2 - chMux - i, i + 1)
    && RegSkewed(h, chMux, i, r.reg)
  }

  ghost predicate Skewed(h: seq<MacIn>, chMux: nat, taps: seq<Tap>)
    requires chMux > 0
  {
    forall i :: 0 <= i < |taps| ==> TapSkewed(h, chMux, i, taps[i])
  }

  /** One clock of one tap: its registers r, the inputs (toshift, x, acc) that come
      from its predecessor, and its coefficient. */
  function NextTap(r: Tap, toshift: bool, x: Sample, c: Coef, acc: int): Tap
    requires |r.reg| > 0
  {
    var x' := r.reg[|r.reg| - 1];
    var mux := if toshift then x else x';
    Tap(x', WrapAcc(Mul(r.x, c) + acc), toshift, [mux] + r.reg[..|r.reg| - 1])
  }

  /** What one call writes to tap i. */
  function CallTap(z: MacIn, taps: seq<Tap>, i: nat): Tap
    requires i < |taps| == |z.c| && |taps[i].reg| > 0
  {
    if i == 0 then NextTap(taps[0], z.toshift, z.x, z.c[0], 0)
    else NextTap(taps[i], taps[i - 1].toshift, taps[i - 1].x, z.c[i], taps[i - 1].acc)
  }

  /** Skew is kept by every call. */
  lemma {:induction false} TapAdvance(h: seq<MacIn>, z: MacIn, chMux: nat, taps: seq<Tap>, i: nat)
    requires chMux > 0 && i < |taps| == |z.c| <= 0x7FFF
    requires Skewed(h, chMux, taps) && |taps[i].reg| > 0
    ensures TapSkewed(h + [z], chMux, i, CallTap(z, taps, i))
  {
    var r := taps[i];
    assert TapSkewed(h, chMux, i, r);
    assert i > 0 ==> TapSkewed(h, chMux, i - 1, taps[i - 1]);
    AccAdvance(h, z, chMux, i, r.x, if i == 0 then 0 else taps[i - 1].acc);
    var x := if i == 0 then z.x else taps[i - 1].x;
    var x' := r.reg[chMux - 1];
    MuxAdvance(h, z, chMux, i, x, x');
    RegAdvance(h, z, chMux, i, r.reg, if CallTap(z, taps, i).toshift then x else x');
  }

  lemma {:induction false} AccAdvance(h: seq<MacIn>, z: MacIn, chMux: nat, i: nat, x: Sample, pacc: int)
    requires chMux > 0 && i < |z.c| <= 0x7FFF
    requires x == Stage(Shifted(h, chMux, |h| - 1 - chMux - i), i)
    requires pacc == Dot(h, chMux, |h| - 1 - chMux - i, i)
    ensures var d := Dot(h + [z], chMux, |h| - 1 - chMux - i, i + 1);
            d == Mul(x, z.c[i]) + pacc && -ACC_MAX <= d < ACC_MAX
  {
    var u := |h| - 1 - chMux - i;
    ShiftedPrefix(h, [z], chMux, u);
    DotPrefix(h, [z], chMux, u, i);
    DotBound(h + [z], chMux, u, i + 1);
    assert CoefAt(h + [z], |h|, i) == z.c[i];
  }

  /** Shift register i holds the stage-i samples of the slots entered i, i+1, ...
      calls before its latest word. */
  ghost predicate RegSkewed(h: seq<MacIn>, chMux: nat, i: nat, reg: seq<Sample>)
    requires chMux > 0
  {
    && |reg| == chMux
    && forall a :: 0 <= a < chMux ==> reg[a] == Stage(Shifted(h, chMux, |h| - 1 - a - i), i)
  }

  /** The word pushed into shift register i at call t belongs to slot t-i. */
  lemma {:induction false} RegAdvance(h: seq<MacIn>, z: MacIn, chMux: nat, i: nat, reg: seq<Sample>, mux: Sample)
    requires chMux > 0 && RegSkewed(h, chMux, i, reg)
    requires mux == Stage(Shifted(h + [z], chMux, |h| - i), i)
    ensures RegSkewed(h + [z], chMux, i, [mux] + reg[..chMux - 1])
  {
    var reg' := [mux] + reg[..chMux - 1];
    forall a | 0 <= a < chMux
      ensures reg'[a] == Stage(Shifted(h + [z], chMux, |h| - a - i), i)
    {
      if a > 0 {
        var b := a - 1;
        assert reg'[a] == reg[b];
        ShiftedPrefix(h, [z], chMux, |h| - a - i);
      }
    }
  }

  lemma {:induction false} MuxAdvance(h: seq<MacIn>, z: MacIn, chMux: nat, i: nat, x: Sample, x': Sample)
    requires chMux > 0
    requires x' == Stage(Shifted(h, chMux, |h| - chMux - i), i)
    requires x == if i == 0 then z.x else Stage(Shifted(h, chMux, |h| - chMux - i), i - 1)
    ensures var h', u := h + [z], |h| - i;
            && x' == Stage(Shifted(h', chMux, u - chMux), i)
            && (if u >= 0 && h'[u].toshift then x else x') == Stage(Shifted(h', chMux, u), i)
  {
    ShiftedPrefix(h, [z], chMux, |h| - i - chMux);
  }

  /** One call as a whole. */
  ghost function CallTaps(z: MacIn, taps: seq<Tap>): (taps': seq<Tap>)
    requires |taps| == |z.c| && forall i :: 0 <= i < |taps| ==> |taps[i].reg| > 0
    ensures |taps'| == |taps|
    ensures forall i :: 0 <= i < |taps| ==> taps'[i] == CallTap(z, taps, i)
  {
    seq(|taps|, i requires 0 <= i < |taps| => CallTap(z, taps, i))
  }

  lemma {:induction false} SkewAdvance(h: seq<MacIn>, z: MacIn, chMux: nat, taps: seq<Tap>)
    requires chMux > 0 && |taps| == |z.c| <= 0x7FFF && Skewed(h, chMux, taps)
    ensures forall i :: 0 <= i < |taps| ==> |taps[i].reg| == chMux
    ensures Skewed(h + [z], chMux, CallTaps(z, taps))
  {
    RegsFull(h, chMux, taps);
    forall i | 0 <= i < |taps| ensures TapSkewed(h + [z], chMux, i, CallTaps(z, taps)[i]) {
      TapAdvance(h, z, chMux, taps, i);
    }
  }

  lemma {:induction false} LastAcc(h: seq<MacIn>, chMux: nat, taps: seq<Tap>)
    requires chMux > 0 && |taps| > 0 && Skewed(h, chMux, taps)
    ensures taps[|taps| - 1].acc == Dot(h, chMux, |h| - 1 - chMux - |taps|, |taps|)
  {
    var n := |taps|;
    var i := n - 1;
    assert TapSkewed(h, chMux, i, taps[i]);
    assert |h| - 2 - chMux - i == |h| - 1 - chMux - n && i + 1 == n;
  }

  /** With up to 47 taps every accumulator of the chain fits the 40 bits announced. */
  lemma {:induction false} FortyBits(h: seq<MacIn>, chMux: nat, taps: seq<Tap>)
    requires chMux > 0 && |taps| <= 47 && Skewed(h, chMux, taps)
    ensures forall i :: 0 <= i < |taps| ==> -0x80_0000_0000 <= taps[i].acc < 0x80_0000_0000
  {
    forall i | 0 <= i < |taps| ensures -0x80_0000_0000 <= taps[i].acc < 0x80_0000_0000 {
      assert TapSkewed(h, chMux, i, taps[i]);
      DotBound(h, chMux, |h| - 2 - chMux - i, i + 1);
    }
  }

  lemma {:induction false} RegsFull(h: seq<MacIn>, chMux: nat, taps: seq<Tap>)
    requires chMux > 0 && Skewed(h, chMux, taps)
    ensures forall i :: 0 <= i < |taps| ==> |taps[i].reg| == chMux
  {
    forall i | 0 <= i < |taps| ensures |taps[i].reg| == chMux {
      assert TapSkewed(h, chMux, i, taps[i]);
    }
  }

  class SrcMac {
    const numTap: nat
    const chMux: nat
    const xR: array<Sample>
    const accR: array<int>
    const toshiftR: array<bool>
    const shiftReg: array<seq<Sample>>
    ghost var hist: seq<MacIn>
    ghost var taps: seq<Tap>  // the registers, tap by tap

    ghost function Repr(): set<object> {
      {this, xR, accR, toshiftR, shiftReg}
    }

    ghost predicate Shape() {
      && 1 <= numTap <= 0x7FFF && chMux > 0
      && xR.Length == accR.Length == toshiftR.Length == shiftReg.Length == numTap
      && xR as object != accR
    }

    ghost function TapAt(i: nat): Tap
      requires Shape() && i < numTap
      reads Repr()
    {
      Tap(xR[i], accR[i], toshiftR[i], shiftReg[i])
    }

    ghost predicate Valid()
      reads Repr()
    {
      Shape() && |taps| == numTap
      && forall k {:trigger Opened(k)} :: Opened(k) && k == BLOCK ==>
           && (forall i :: 0 <= i < numTap ==> TapAt(i) == taps[i])
           && Skewed(hist, chMux, taps)
    }

    static const BLOCK: nat := 25

    constructor (numTap: nat, chMux: nat)
      requires 1 <= numTap <= 0x7FFF && chMux > 0
      ensures Valid() && fresh(Repr()) && hist == [] && this.numTap == numTap && this.chMux == chMux
    {
      this.numTap, this.chMux := numTap, chMux;
      xR := new Sample[numTap](_ => 0);
      accR := new int[numTap](_ => 0);
      toshiftR := new bool[numTap](_ => false);
      shiftReg := new seq<Sample>[numTap](_ => seq(chMux, _ => 0));
      hist := [];
      taps := seq(numTap, _ => Tap(0, 0, false, seq(chMux, _ => 0)));
      new;
      forall i | 0 <= i < numTap
        ensures TapSkewed([], chMux, i, taps[i])
      {
        DotAtRest(chMux, -2 - chMux - i, i + 1);
      }
    }

    /** One call: the accumulator that leaves the last tap is the complete dot
        product of the slot entered chMux + numTap calls ago. */
    method Step(toshift: bool, x: Sample, c: seq<Coef>) returns (acc: int)
      requires Valid() && |c| == numTap
      modifies Repr()
      ensures Valid() && hist == old(hist) + [MacIn(toshift, x, c)]
      ensures acc == Dot(hist, chMux, |hist| - 1 - chMux - numTap, numTap)
      ensures numTap <= 47 ==> forall i :: 0 <= i < numTap ==> -0x80_0000_0000 <= TapAt(i).acc < 0x80_0000_0000
    {
      acc := Clock(toshift, x, c);
      assert Opened(BLOCK);
      LastAcc(hist, chMux, taps);
      if numTap <= 47 {
        FortyBits(hist, chMux, taps);
      }
    }

    method Clock(toshift: bool, x: Sample, c: seq<Coef>) returns (acc: int)
      requires Valid() && |c| == numTap
      modifies Repr()
      ensures Valid() && hist == old(hist) + [MacIn(toshift, x, c)]
      ensures acc == taps[numTap - 1].acc
    {
      assert Opened(BLOCK);
      ghost var z := MacIn(toshift, x, c);
      SkewAdvance(hist, z, chMux, taps);
      ClockChain(toshift, x, c, taps);
      hist, taps := hist + [z], CallTaps(z, taps);
      acc := accR[numTap - 1];
      assert acc == TapAt(numTap - 1).acc;
    }

    /** All taps clocked once, the last one first so that each tap still reads its
        predecessor's old registers. */
    method ClockChain(toshift: bool, x: Sample, c: seq<Coef>, ghost taps0: seq<Tap>)
      requires Shape() && |c| == |taps0| == numTap
      requires forall i :: 0 <= i < numTap ==> TapAt(i) == taps0[i] && |taps0[i].reg| == chMux
      modifies xR, accR, toshiftR, shiftReg
      ensures forall i :: 0 <= i < numTap ==> TapAt(i) == CallTap(MacIn(toshift, x, c), taps0, i)
    {
      ghost var taps1 := CallTaps(MacIn(toshift, x, c), taps0);
      var i := numTap - 1;
      while i >= 1
        invariant 0 <= i < numTap
        invariant forall j :: 0 <= j <= i ==> TapAt(j) == taps0[j]
        invariant forall j :: i < j < numTap ==> TapAt(j) == taps1[j]
      {
        assert TapAt(i) == taps0[i] && TapAt(i - 1) == taps0[i - 1];
        ClockTap(i, toshiftR[i - 1], xR[i - 1], c[i], accR[i - 1]);
        i := i - 1;
      }
      assert TapAt(0) == taps0[0];
      ClockTap(0, toshift, x, c[0], 0);
    }

    /** The registers of tap i, clocked once. */
    method ClockTap(i: nat, toshift: bool, x: Sample, c: Coef, acc: int)
      requires Shape() && i < numTap && |shiftReg[i]| == chMux
      modifies xR, accR, toshiftR, shiftReg
      ensures TapAt(i) == NextTap(old(TapAt(i)), toshift, x, c, acc)
      ensures forall j :: 0 <= j < numTap && j != i ==> TapAt(j) == old(TapAt(j))
    {
      var mul := Mul(xR[i], c);
      accR[i] := WrapAcc(mul + acc);
      xR[i] := shiftReg[i][chMux - 1];
      var xMux: Sample := if toshift then x else xR[i];
      shiftReg[i] := [xMux] + shiftReg[i][..chMux - 1];
      toshiftR[i] := toshift;
    }
  }

  lemma {:induction false} DotAtRest(chMux: nat, u: int, m: nat)
    requires chMux > 0 && u < 0
    ensures Dot([], chMux, u, m) == 0
  {
    if m > 0 {
      DotAtRest(chMux, u, m - 1);
    }
  }
}
