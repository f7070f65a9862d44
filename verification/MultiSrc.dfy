/** The complete sample rate converter (DSP/multi_chan_conv_fil/src/multiSRC.cpp):
    controller, coefficient ROM, MAC chain and the delay line of the valid flag. */
module Resampling {
  import opened Arith
  import opened SrcRates
  import opened SrcReference
  import opened SrcDelayLine
  import opened SrcCoefRom

  datatype Slot = Slot(vld: bool, x: Sample, rat: Ratio)

  function Asks(h: seq<Slot>): (asks: seq<Ask>)
    ensures |asks| == |h|
    ensures forall u :: 0 <= u < |h| ==> asks[u] == Ask(h[u].vld, h[u].rat)
  {
    seq(|h|, u requires 0 <= u < |h| => Ask(h[u].vld, h[u].rat))
  }

  /** The samples that slot u's channel has taken up to and including slot u. */
  function Inputs(h: seq<Slot>, chMux: nat, u: int): seq<Sample>
    requires chMux > 0 && u < |h|
    decreases u
  {
    if u < 0 then []
    else Inputs(h, chMux, u - chMux) + if Takes(Asks(h), chMux, u) then [h[u].x] else []
  }

  /** Sample number i; everything before the first sample is zero. */
  function At(xs: seq<Sample>, i: int): Sample {
    if 0 <= i < |xs| then xs[i] else 0
  }

  /** Output number j of an ordinary polyphase resampler at ratio r: the filter
      phase j*M mod L applied to the n samples that end at number floor(j*M/L). */
  function Polyphase(rom: seq<seq<Coef>>, xs: seq<Sample>, r: Ratio, j: nat, n: nat): int {
    var l, m := STEP_IN_VEC[r], STEP_OUT_VEC[r];
    RatioBlocks(r);
    if n == 0 then 0
    else Polyphase(rom, xs, r, j, n - 1)
         + At(xs, j * m / l - (n - 1)) * RomAt(rom, n - 1, BA_VEC[r] + j * m % l)
  }

  /** A plain FIR over the contents of a delay line, with the coefficients of
      one ROM column. */
  function Fir(rom: seq<seq<Coef>>, xs: seq<Sample>, addr: nat, n: nat): int {
    if n == 0 then 0
    else Fir(rom, xs, addr, n - 1) + Mul(Stage(xs, n - 1), RomAt(rom, n - 1, addr))
  }

  lemma {:induction false} FirIsPolyphase(rom: seq<seq<Coef>>, xs: seq<Sample>, r: Ratio, j: nat, n: nat)
    requires STEP_IN_VEC[r] > 0 && j * STEP_OUT_VEC[r] / STEP_IN_VEC[r] == |xs| - 1
    ensures Fir(rom, xs, BA_VEC[r] + j * STEP_OUT_VEC[r] % STEP_IN_VEC[r], n) == Polyphase(rom, xs, r, j, n)
  {
    if n > 0 {
      FirIsPolyphase(rom, xs, r, j, n - 1);
      assert Stage(xs, n - 1) == At(xs, |xs| - 1 - (n - 1));
    }
  }

  /** A channel takes an input only when it is needed for the next output. */
  lemma {:induction false} NeverLate(h: seq<Ask>, chMux: nat, u: int)
    requires chMux > 0 && 0 <= u < |h| && FixedRatios(h, chMux)
    ensures var c := CountAfter(h, chMux, u);
            c.taken > 0 ==> (c.taken - 1) * STEP_IN_VEC[h[u].rat] <= c.made * STEP_OUT_VEC[h[u].rat]
    decreases u
  {
    if u >= chMux {
      NeverLate(h, chMux, u - chMux);
      assert KeepsRatio(h, chMux, u);
    }
    var b, c := CountAfter(h, chMux, u - chMux), CountAfter(h, chMux, u);
    MulMonotone(b.made, c.made, STEP_OUT_VEC[h[u].rat]);
  }

  lemma {:induction false} NewestIndex(a: int, l: nat, q: int)
    requires q * l <= a < (q + 1) * l
    ensures l > 0 && a / l == q
  {
    assert (q + 1) * l == q * l + l;
    RemainderUnique(a, l, q, a - q * l);
  }

  /** The input that an output waits for is the newest one. */
  lemma {:induction false} OutputNeedsNewest(h: seq<Ask>, chMux: nat, u: int)
    requires chMux > 0 && 0 <= u < |h| && FixedRatios(h, chMux) && Makes(h, chMux, u)
    ensures var l, m := STEP_IN_VEC[h[u].rat], STEP_OUT_VEC[h[u].rat];
            l > 0 && CountAfter(h, chMux, u - chMux).made * m / l == CountAfter(h, chMux, u).taken - 1
  {
    var l, m := STEP_IN_VEC[h[u].rat], STEP_OUT_VEC[h[u].rat];
    RatioBlocks(h[u].rat);
    if u >= chMux {
      NeverLate(h, chMux, u - chMux);
      assert KeepsRatio(h, chMux, u);
    }
    var b, c := CountAfter(h, chMux, u - chMux), CountAfter(h, chMux, u);
    NewestIndex(b.made * m, l, c.taken - 1);
  }

  lemma {:induction false} InputsCount(h: seq<Slot>, chMux: nat, u: int)
    requires chMux > 0 && u < |h|
    ensures |Inputs(h, chMux, u)| == CountAfter(Asks(h), chMux, u).taken
    decreases u
  {
    if u >= 0 {
      InputsCount(h, chMux, u - chMux);
    }
  }

  /** Channels never influence each other: what a channel takes and makes depends
      on its own slots only. */
  lemma {:induction false} ChannelIsolation(h: seq<Slot>, h': seq<Slot>, chMux: nat, u: int)
    requires chMux > 0 && u < |h| && u < |h'|
    requires forall v :: 0 <= v <= u && v % chMux == u % chMux ==> h[v] == h'[v]
    ensures CountAfter(Asks(h), chMux, u) == CountAfter(Asks(h'), chMux, u)
    ensures Inputs(h, chMux, u) == Inputs(h', chMux, u)
    decreases u
  {
    if u >= 0 {
      RemainderUnique(u - chMux, chMux, u / chMux - 1, u % chMux);
      ChannelIsolation(h, h', chMux, u - chMux);
      assert h[u] == h'[u] && Asks(h)[u] == Asks(h')[u];
    }
  }
}

module MultiSrcFilter {
  import opened Sealing
  import opened SrcRates
  import opened SrcReference
  import opened SrcDelayLine
  import opened SrcCoefRom
  import opened SrcController
  import opened SrcMacChain
  import opened Resampling

  /** At call t the MAC chain was given the sample of slot t, and at tap k the
      coefficient at the address computed chMux + 1 + k calls earlier. */
  ghost predicate FedAt(h: seq<Slot>, rom: seq<seq<Coef>>, chMux: nat, addrs: seq<nat>, mh: seq<MacIn>, t: nat)
    requires t < |h| == |mh|
  {
    && mh[t].x == h[t].x
    && |mh[t].c| == |rom|
    && forall k :: 0 <= k < |rom| ==> CoefAt(mh, t, k) == RomAt(rom, k, AddrAt(addrs, t - 1 - chMux - k))
  }

  /** How the three blocks have been wired together so far: flags vlds and
      addresses addrs left the controller, and mh entered the MAC chain. */
  ghost predicate Wired(h: seq<Slot>, rom: seq<seq<Coef>>, chMux: nat, vlds: seq<bool>, addrs: seq<nat>,
                        mh: seq<MacIn>)
    requires chMux > 0
  {
    && |h| == |vlds| == |addrs| == |mh|
    && (forall t :: 0 <= t < |h| ==> FedAt(h, rom, chMux, addrs, mh, t))
    && (FixedRatios(Asks(h), chMux) ==>
          forall u :: 0 <= u < |h| ==> Answers(Asks(h), chMux, u, vlds[u], mh[u].toshift, addrs[u]))
  }

  /** The same, sealed. */
  ghost predicate IsWired(h: seq<Slot>, rom: seq<seq<Coef>>, chMux: nat, vlds: seq<bool>, addrs: seq<nat>,
                          mh: seq<MacIn>)
    requires chMux > 0
  {
    forall k {:trigger Opened(k)} :: Opened(k) && k == WIRES ==> Wired(h, rom, chMux, vlds, addrs, mh)
  }

  const WIRES: nat := 26

  lemma {:induction false} WiredAdvance(h: seq<Slot>, s: Slot, rom: seq<seq<Coef>>, chMux: nat, vlds: seq<bool>,
                                        vld: bool, addrs: seq<nat>, addr: nat, mh: seq<MacIn>, z: MacIn)
    requires chMux > 0 && IsWired(h, rom, chMux, vlds, addrs, mh)
    requires z.x == s.x && Reads(rom, addrs + [addr], chMux, z.c)
    requires FixedRatios(Asks(h + [s]), chMux) ==> Answers(Asks(h + [s]), chMux, |h|, vld, z.toshift, addr)
    ensures IsWired(h + [s], rom, chMux, vlds + [vld], addrs + [addr], mh + [z])
  {
    assert Opened(WIRES);
    var h', vlds', addrs', mh' := h + [s], vlds + [vld], addrs + [addr], mh + [z];
    forall t | 0 <= t < |h'| ensures FedAt(h', rom, chMux, addrs', mh', t) {
      if t < |h| {
        assert FedAt(h, rom, chMux, addrs, mh, t);
        forall k | 0 <= k < |rom|
          ensures CoefAt(mh', t, k) == RomAt(rom, k, AddrAt(addrs', t - 1 - chMux - k))
        {
          assert CoefAt(mh, t, k) == RomAt(rom, k, AddrAt(addrs, t - 1 - chMux - k));
        }
      } else {
        forall k | 0 <= k < |rom|
          ensures CoefAt(mh', t, k) == RomAt(rom, k, AddrAt(addrs', t - 1 - chMux - k))
        {
          assert z.c[k] == RomAt(rom, k, AddrAt(addrs', |addrs'| - 2 - chMux - k));
        }
      }
    }
    if FixedRatios(Asks(h'), chMux) {
      assert h'[..|h|] == h;
      FixedPrefix(h', |h|, chMux);
      forall u | 0 <= u < |h'|
        ensures Answers(Asks(h'), chMux, u, vlds'[u], mh'[u].toshift, addrs'[u])
      {
        if u < |h| {
          AnswersLater(h, s, chMux, u, vlds[u], mh[u].toshift, addrs[u]);
        }
      }
    }
  }

  lemma {:induction false} AnswersLater(h: seq<Slot>, s: Slot, chMux: nat, u: nat, vld: bool, toshift: bool, addr: nat)
    requires chMux > 0 && u < |h| && Answers(Asks(h), chMux, u, vld, toshift, addr)
    ensures Answers(Asks(h + [s]), chMux, u, vld, toshift, addr)
  {
    assert Asks(h + [s]) == Asks(h) + [Ask(s.vld, s.rat)];
    CountAfterPrefix(Asks(h), [Ask(s.vld, s.rat)], chMux, u);
    CountAfterPrefix(Asks(h), [Ask(s.vld, s.rat)], chMux, u - chMux);
  }

  /** The skews cancel: the coefficients that meet slot u's samples are one
      single ROM column. */
  lemma {:induction false} DotIsFir(h: seq<Slot>, rom: seq<seq<Coef>>, chMux: nat, vlds: seq<bool>, addrs: seq<nat>,
                                    mh: seq<MacIn>, u: nat, n: nat)
    requires chMux > 0 && Wired(h, rom, chMux, vlds, addrs, mh)
    requires n <= |rom| && u + chMux + n < |h|
    ensures Dot(mh, chMux, u, n) == Fir(rom, Shifted(mh, chMux, u), addrs[u], n)
  {
    if n > 0 {
      DotIsFir(h, rom, chMux, vlds, addrs, mh, u, n - 1);
      var t, k := u + chMux + n, n - 1;
      assert FedAt(h, rom, chMux, addrs, mh, t);
      assert CoefAt(mh, t, k) == RomAt(rom, k, AddrAt(addrs, t - 1 - chMux - k));
    }
  }

  lemma {:induction false} ShiftedIsInputs(h: seq<Slot>, rom: seq<seq<Coef>>, chMux: nat, vlds: seq<bool>,
                                           addrs: seq<nat>, mh: seq<MacIn>, u: int)
    requires chMux > 0 && u < |h| == |mh| && IsWired(h, rom, chMux, vlds, addrs, mh) && FixedRatios(Asks(h), chMux)
    ensures Shifted(mh, chMux, u) == Inputs(h, chMux, u)
    decreases u
  {
    if u >= 0 {
      ShiftedIsInputs(h, rom, chMux, vlds, addrs, mh, u - chMux);
      ShiftsWhatItTakes(h, rom, chMux, vlds, addrs, mh, u);
    }
  }

  lemma {:induction false} ShiftsWhatItTakes(h: seq<Slot>, rom: seq<seq<Coef>>, chMux: nat, vlds: seq<bool>,
                                             addrs: seq<nat>, mh: seq<MacIn>, u: nat)
    requires chMux > 0 && u < |h| == |mh| && IsWired(h, rom, chMux, vlds, addrs, mh) && FixedRatios(Asks(h), chMux)
    ensures mh[u].toshift == Takes(Asks(h), chMux, u) && mh[u].x == h[u].x
  {
    assert Opened(WIRES);
    assert Answers(Asks(h), chMux, u, vlds[u], mh[u].toshift, addrs[u]);
    assert FedAt(h, rom, chMux, addrs, mh, u);
  }

  /** What has to leave the filter for slot u: a valid output exactly if the
      reference resampler makes one in that slot, and then the value of that
      output. */
  ghost predicate Delivers(h: seq<Slot>, rom: seq<seq<Coef>>, chMux: nat, u: int, vld: bool, y: int)
    requires chMux > 0 && u < |h|
  {
    && vld == Makes(Asks(h), chMux, u)
    && (vld ==> y == Polyphase(rom, Inputs(h, chMux, u), h[u].rat, CountAfter(Asks(h), chMux, u - chMux).made, |rom|))
  }

  lemma {:induction false} WiredDelivers(h: seq<Slot>, rom: seq<seq<Coef>>, chMux: nat, vlds: seq<bool>,
                                         addrs: seq<nat>, mh: seq<MacIn>, u: nat)
    requires chMux > 0 && Wired(h, rom, chMux, vlds, addrs, mh) && FixedRatios(Asks(h), chMux)
    requires u + chMux + |rom| < |h|
    ensures Delivers(h, rom, chMux, u, vlds[u], Dot(mh, chMux, u, |rom|))
  {
    assert Answers(Asks(h), chMux, u, vlds[u], mh[u].toshift, addrs[u]);
    if vlds[u] {
      DotIsFir(h, rom, chMux, vlds, addrs, mh, u, |rom|);
      ShiftedIsInputs(h, rom, chMux, vlds, addrs, mh, u);
      InputsCount(h, chMux, u);
      OutputNeedsNewest(Asks(h), chMux, u);
      var r, j := h[u].rat, CountAfter(Asks(h), chMux, u - chMux).made;
      FirIsPolyphase(rom, Inputs(h, chMux, u), r, j, |rom|);
    }
  }

  /** What leaves the filter for slot u under any rate schedule: the
      controller's flag of that slot and the FIR over that slot's delay line. */
  ghost predicate Aligned(rom: seq<seq<Coef>>, chMux: nat, vlds: seq<bool>, addrs: seq<nat>, mh: seq<MacIn>, u: int,
                          vld: bool, y: int)
    requires chMux > 0 && u < |vlds| == |addrs| == |mh|
  {
    if u < 0 then !vld
    else vld == vlds[u] && y == Fir(rom, Shifted(mh, chMux, u), addrs[u], |rom|)
  }

  lemma {:induction false} WiredOutput(h: seq<Slot>, rom: seq<seq<Coef>>, chMux: nat, vlds: seq<bool>, addrs: seq<nat>,
                                       mh: seq<MacIn>, u: int, vld: bool, y: int)
    requires chMux > 0 && IsWired(h, rom, chMux, vlds, addrs, mh) && |h| == |vlds| == |addrs| == |mh|
    requires u + chMux + |rom| < |h| && vld == (u >= 0 && vlds[u]) && y == Dot(mh, chMux, u, |rom|)
    ensures Aligned(rom, chMux, vlds, addrs, mh, u, vld, y)
    ensures FixedRatios(Asks(h), chMux) ==> Delivers(h, rom, chMux, u, vld, y)
  {
    assert Opened(WIRES);
    if u >= 0 {
      DotIsFir(h, rom, chMux, vlds, addrs, mh, u, |rom|);
      if FixedRatios(Asks(h), chMux) {
        WiredDelivers(h, rom, chMux, vlds, addrs, mh, u);
      }
    }
  }

  /** The delay line of the valid flag. */
  ghost predicate FlagsDelayed(vlds: seq<bool>, reg: seq<bool>) {
    forall a :: 0 <= a < |reg| ==> reg[a] == (|vlds| - 1 - a >= 0 && vlds[|vlds| - 1 - a])
  }

  /** The same, sealed. */
  ghost predicate AreDelayed(vlds: seq<bool>, reg: seq<bool>) {
    forall k {:trigger Opened(k)} :: Opened(k) && k == WIRES ==> FlagsDelayed(vlds, reg)
  }

  lemma {:induction false} FlagsAdvance(vlds: seq<bool>, v: bool, reg: seq<bool>)
    requires |reg| > 0 && FlagsDelayed(vlds, reg)
    ensures FlagsDelayed(vlds + [v], [v] + reg[..|reg| - 1])
  {
    var reg' := [v] + reg[..|reg| - 1];
    forall a | 0 <= a < |reg'|
      ensures reg'[a] == (|vlds| - a >= 0 && (vlds + [v])[|vlds| - a])
    {
      if a > 0 { var b := a - 1; assert reg'[a] == reg[b]; }
    }
  }

  class MultiSrc {
    const chMux: nat
    const rom: seq<seq<Coef>>
    const ctrl: SrcCtrl
    const coef: SrcCoef
    const mac: SrcMac
    var vldShftreg: seq<bool>
    ghost var slots: seq<Slot>
    ghost var vlds: seq<bool>

    ghost function Repr(): set<object> {
      {this} + ctrl.Repr() + coef.Repr() + mac.Repr()
    }

    ghost predicate Valid()
      reads Repr()
    {
      && 0 < |rom| <= 0x7FFF && chMux > 0
      && ctrl.Repr() !! coef.Repr() !! mac.Repr() && this !in ctrl.Repr() + coef.Repr() + mac.Repr()
      && ctrl.Valid() && coef.Valid() && mac.Valid()
      && ctrl.chMux == coef.chMux == mac.chMux == chMux
      && coef.rom == rom && mac.numTap == |rom|
      && |vldShftreg| == chMux + |rom| && AreDelayed(vlds, vldShftreg)
      && ctrl.hist == Asks(slots) && |slots| == |coef.hist| == |mac.hist| == |vlds|
      && IsWired(slots, rom, chMux, vlds, coef.hist, mac.hist)
    }

    constructor (rom: seq<seq<Coef>>, chMux: nat)
      requires 0 < |rom| <= 0x7FFF && RomShape(rom) && chMux > 0
      ensures Valid() && fresh(Repr()) && slots == [] && this.rom == rom && this.chMux == chMux
    {
      this.rom, this.chMux := rom, chMux;
      ctrl := new SrcCtrl(chMux);
      coef := new SrcCoef(rom, chMux);
      mac := new SrcMac(|rom|, chMux);
      vldShftreg := seq(chMux + |rom|, _ => false);
      slots, vlds := [], [];
    }

    /** One call: what leaves the filter belongs to the slot entered
        chMux + numTap calls ago. */
    method Step(vld: bool, x: Sample, rat: Ratio) returns (vldO: bool, y: int)
      requires Valid()
      modifies Repr()
      ensures Valid() && slots == old(slots) + [Slot(vld, x, rat)]
      ensures Aligned(rom, chMux, vlds, coef.hist, mac.hist, |old(slots)| - chMux - |rom|, vldO, y)
      ensures FixedRatios(Asks(slots), chMux) ==>
                Delivers(slots, rom, chMux, |old(slots)| - chMux - |rom|, vldO, y)
    {
      vldO, y := Clock(vld, x, rat);
      WiredOutput(slots, rom, chMux, vlds, coef.hist, mac.hist, |old(slots)| - chMux - |rom|, vldO, y);
    }

    method Clock(vld: bool, x: Sample, rat: Ratio) returns (vldO: bool, y: int)
      requires Valid()
      modifies Repr()
      ensures Valid() && slots == old(slots) + [Slot(vld, x, rat)]
      ensures var u := |old(slots)| - chMux - |rom|;
              vldO == (u >= 0 && vlds[u]) && y == Dot(mac.hist, chMux, u, |rom|)
    {
      ghost var s := Slot(vld, x, rat);
      assert Asks(slots + [s]) == Asks(slots) + [Ask(vld, rat)];
      var vldV;
      vldV, y := ClockBlocks(vld, x, rat);
      vldO := ShiftFlag(vldV);
      slots := slots + [s];
    }

    /** The three blocks, wired together. */
    method ClockBlocks(vld: bool, x: Sample, rat: Ratio) returns (vldV: bool, y: int)
      requires Valid() && Asks(slots + [Slot(vld, x, rat)]) == Asks(slots) + [Ask(vld, rat)]
      modifies ctrl.Repr(), coef.Repr(), mac.Repr()
      ensures ctrl.Valid() && coef.Valid() && mac.Valid()
      ensures ctrl.hist == Asks(slots + [Slot(vld, x, rat)]) && |coef.hist| == |mac.hist| == |slots| + 1
      ensures IsWired(slots + [Slot(vld, x, rat)], rom, chMux, vlds + [vldV], coef.hist, mac.hist)
      ensures y == Dot(mac.hist, chMux, |slots| - chMux - |rom|, |rom|)
    {
      var toshiftV, coefV;
      vldV, toshiftV, coefV := Prepare(vld, rat);
      ghost var addr := coef.hist[|slots|];
      y := mac.Step(toshiftV, x, coefV);
      WiredAdvance(slots, Slot(vld, x, rat), rom, chMux, vlds, vldV, old(coef.hist), addr, old(mac.hist),
                   MacIn(toshiftV, x, coefV));
    }

    /** Controller and coefficient ROM, the two stages before the MAC chain. */
    method Prepare(vld: bool, rat: Ratio) returns (vldV: bool, toshiftV: bool, coefV: seq<Coef>)
      requires ctrl.Repr() !! coef.Repr() && ctrl.Valid() && coef.Valid()
      requires ctrl.chMux == coef.chMux && |ctrl.hist| == |coef.hist|
      modifies ctrl.Repr() + coef.Repr()
      ensures ctrl.Valid() && coef.Valid()
      ensures ctrl.hist == old(ctrl.hist) + [Ask(vld, rat)]
      ensures |coef.hist| == |ctrl.hist| && coef.hist == old(coef.hist) + [coef.hist[|old(coef.hist)|]]
      ensures Reads(coef.rom, coef.hist, coef.chMux, coefV)
      ensures FixedRatios(ctrl.hist, ctrl.chMux) ==>
                Answers(ctrl.hist, ctrl.chMux, |old(ctrl.hist)|, vldV, toshiftV, coef.hist[|old(coef.hist)|])
    {
      var addrV;
      vldV, toshiftV, addrV := ctrl.Step(vld, rat);
      coefV := coef.Step(addrV);
    }

    /** Pushes v into the delay line and returns what leaves it. */
    method ShiftFlag(v: bool) returns (out: bool)
      requires |vldShftreg| > 0 && AreDelayed(vlds, vldShftreg)
      modifies this`vldShftreg, this`vlds
      ensures |vldShftreg| == |old(vldShftreg)| && AreDelayed(vlds, vldShftreg)
      ensures vlds == old(vlds) + [v]
      ensures var u := |old(vlds)| - |vldShftreg|; out == (u >= 0 && vlds[u])
    {
      assert Opened(WIRES);
      FlagsAdvance(vlds, v, vldShftreg);
      out := vldShftreg[|vldShftreg| - 1];
      vldShftreg := [v] + vldShftreg[..|vldShftreg| - 1];
      vlds := vlds + [v];
    }
  }

  /** How many of the outputs 0..t that belong to call t's channel were valid. */
  function Emitted(outs: seq<(bool, int)>, chMux: nat, t: int): nat
    requires chMux > 0 && t < |outs|
    decreases t
  {
    if t < 0 then 0 else Emitted(outs, chMux, t - chMux) + if outs[t].0 then 1 else 0
  }

  /** Call t's output is the one due for the slot entered chMux + numTap calls ago. */
  ghost predicate DueAt(h: seq<Slot>, rom: seq<seq<Coef>>, chMux: nat, outs: seq<(bool, int)>, t: nat)
    requires chMux > 0 && t < |outs| <= |h|
  {
    Delivers(h, rom, chMux, t - chMux - |rom|, outs[t].0, outs[t].1)
  }

  /** All outputs so far are due, sealed. */
  ghost predicate AllDue(h: seq<Slot>, rom: seq<seq<Coef>>, chMux: nat, outs: seq<(bool, int)>)
    requires chMux > 0 && |outs| <= |h|
  {
    forall k {:trigger Opened(k)} :: Opened(k) && k == WIRES ==>
      forall v :: 0 <= v < |outs| ==> DueAt(h, rom, chMux, outs, v)
  }

  lemma {:induction false} EmittedIsMade(h: seq<Slot>, rom: seq<seq<Coef>>, chMux: nat, outs: seq<(bool, int)>, t: int)
    requires chMux > 0 && t < |outs| == |h|
    requires forall v :: 0 <= v < |outs| ==> DueAt(h, rom, chMux, outs, v)
    ensures var u := t - chMux - |rom|;
            Emitted(outs, chMux, t) == CountAfter(Asks(h), chMux, u).made
    decreases t
  {
    if t >= 0 {
      EmittedIsMade(h, rom, chMux, outs, t - chMux);
      assert DueAt(h, rom, chMux, outs, t);
    }
  }

  lemma {:induction false} FixedPrefix(h: seq<Slot>, t: nat, chMux: nat)
    requires t <= |h| && FixedRatios(Asks(h), chMux)
    ensures FixedRatios(Asks(h[..t]), chMux)
  {
    forall u | chMux <= u < t ensures KeepsRatio(Asks(h[..t]), chMux, u) {
      assert KeepsRatio(Asks(h), chMux, u);
    }
  }

  /** Outputs delivered for a history stay right when more slots arrive. */
  lemma {:induction false} DeliversLater(h: seq<Slot>, t: nat, rom: seq<seq<Coef>>, chMux: nat, u: int, vld: bool,
                                         y: int)
    requires chMux > 0 && u < t <= |h| && FixedRatios(Asks(h), chMux)
    requires FixedRatios(Asks(h[..t]), chMux) ==> Delivers(h[..t], rom, chMux, u, vld, y)
    ensures Delivers(h, rom, chMux, u, vld, y)
  {
    FixedPrefix(h, t, chMux);
    PrefixCounts(h, t, chMux, u);
    PrefixCounts(h, t, chMux, u - chMux);
  }

  lemma {:induction false} PrefixCounts(h: seq<Slot>, t: nat, chMux: nat, u: int)
    requires chMux > 0 && u < t <= |h|
    ensures CountAfter(Asks(h[..t]), chMux, u) == CountAfter(Asks(h), chMux, u)
    ensures Inputs(h[..t], chMux, u) == Inputs(h, chMux, u)
    ensures u >= 0 ==> Asks(h[..t])[u] == Asks(h)[u]
  {
    ChannelIsolation(h[..t], h, chMux, u);
  }

  lemma {:induction false} DueAppend(h: seq<Slot>, rom: seq<seq<Coef>>, chMux: nat, outs: seq<(bool, int)>, vld: bool,
                                     y: int)
    requires chMux > 0 && |outs| < |h| && FixedRatios(Asks(h), chMux) && AllDue(h, rom, chMux, outs)
    requires var h' := h[..|outs| + 1];
             FixedRatios(Asks(h'), chMux) ==> Delivers(h', rom, chMux, |outs| - chMux - |rom|, vld, y)
    ensures AllDue(h, rom, chMux, outs + [(vld, y)])
  {
    assert Opened(WIRES);
    var outs' := outs + [(vld, y)];
    forall v | 0 <= v <= |outs| ensures DueAt(h, rom, chMux, outs', v) {
      if v < |outs| {
        assert DueAt(h, rom, chMux, outs, v) && outs'[v] == outs[v];
      } else {
        DeliversLater(h, v + 1, rom, chMux, v - chMux - |rom|, vld, y);
      }
    }
  }

  /** Call t's output, judged by the run's inputs and outputs alone: it is valid
      exactly if the reference makes an output in the slot entered
      chMux + numTap calls before, and the j-th valid output of a channel (counting
      from 0) is output j of the polyphase resampler applied to that channel's own
      inputs. */
  ghost predicate RightOutput(rom: seq<seq<Coef>>, chMux: nat, ins: seq<Slot>, outs: seq<(bool, int)>, t: nat)
    requires chMux > 0 && t < |ins| == |outs|
  {
    var u := t - chMux - |rom|;
    && outs[t].0 == Makes(Asks(ins), chMux, u)
    && (outs[t].0 ==>
          outs[t].1 == Polyphase(rom, Inputs(ins, chMux, u), ins[u].rat, Emitted(outs, chMux, t - chMux), |rom|))
  }

  lemma {:induction false} AllRight(rom: seq<seq<Coef>>, chMux: nat, ins: seq<Slot>, outs: seq<(bool, int)>)
    requires chMux > 0 && |ins| == |outs| && AllDue(ins, rom, chMux, outs)
    ensures forall t :: 0 <= t < |outs| ==> RightOutput(rom, chMux, ins, outs, t)
  {
    forall t | 0 <= t < |outs| ensures RightOutput(rom, chMux, ins, outs, t) {
      DueIsRight(rom, chMux, ins, outs, t);
    }
  }

  lemma {:induction false} DueIsRight(rom: seq<seq<Coef>>, chMux: nat, ins: seq<Slot>, outs: seq<(bool, int)>, t: nat)
    requires chMux > 0 && t < |ins| == |outs| && AllDue(ins, rom, chMux, outs)
    ensures RightOutput(rom, chMux, ins, outs, t)
  {
    assert Opened(WIRES);
    assert DueAt(ins, rom, chMux, outs, t);
    EmittedIsMade(ins, rom, chMux, outs, t - chMux);
  }

  /** One call of a run. */
  method RunOne(f: MultiSrc, s: Slot, ghost ins: seq<Slot>, ghost outs: seq<(bool, int)>) returns (out: (bool, int))
    requires f.Valid() && FixedRatios(Asks(ins), f.chMux) && |outs| < |ins| && s == ins[|outs|]
    requires f.slots == ins[..|outs|] && AllDue(ins, f.rom, f.chMux, outs)
    modifies f.Repr()
    ensures f.Valid() && f.slots == ins[..|outs| + 1] && AllDue(ins, f.rom, f.chMux, outs + [out])
  {
    assert ins[..|outs| + 1] == ins[..|outs|] + [s];
    var vld, y := f.Step(s.vld, s.x, s.rat);
    assert f.slots == ins[..|outs| + 1];
    DueAppend(ins, f.rom, f.chMux, outs, vld, y);
    out := (vld, y);
  }

  /** The filter from reset, called once per slot of a run in which every channel
      keeps its ratio. */
  method Run(rom: seq<seq<Coef>>, chMux: nat, ins: seq<Slot>) returns (outs: seq<(bool, int)>)
    requires 0 < |rom| <= 0x7FFF && RomShape(rom) && chMux > 0
    requires FixedRatios(Asks(ins), chMux)
    ensures |outs| == |ins|
    ensures forall t :: 0 <= t < |outs| ==> RightOutput(rom, chMux, ins, outs, t)
  {
    var f := new MultiSrc(rom, chMux);
    outs := [];
    for t := 0 to |ins|
      invariant f.Valid() && fresh(f.Repr()) && f.chMux == chMux && f.rom == rom
      invariant |outs| == t && f.slots == ins[..t]
      invariant AllDue(ins, rom, chMux, outs)
    {
      var out := RunOne(f, ins[t], ins, outs);
      outs := outs + [out];
    }
    AllRight(rom, chMux, ins, outs);
  }

  // The filter of the repository: eight channels, forty-seven taps.

  const CH_MUX: nat := 8
  const NUM_TAP: nat := 47

  /** Each tap adds at most 2^32 to the magnitude of an output. */
  lemma {:induction false} PolyphaseBound(rom: seq<seq<Coef>>, xs: seq<Sample>, r: Ratio, j: nat, n: nat)
    ensures -(n * 0x1_0000_0000) <= Polyphase(rom, xs, r, j, n) <= n * 0x1_0000_0000
  {
    var l, m := STEP_IN_VEC[r], STEP_OUT_VEC[r];
    RatioBlocks(r);
    if n > 0 {
      PolyphaseBound(rom, xs, r, j, n - 1);
      ProductBound(At(xs, j * m / l - (n - 1)), RomAt(rom, n - 1, BA_VEC[r] + j * m % l));
    }
  }

  /** Outputs appear exactly fifty-five calls after their slots, and fit forty
      bits. */
  method Convert(rom: seq<seq<Coef>>, ins: seq<Slot>) returns (outs: seq<(bool, int)>)
    requires |rom| == NUM_TAP && RomShape(rom) && FixedRatios(Asks(ins), CH_MUX)
    ensures |outs| == |ins|
    ensures forall t :: 0 <= t < |outs| ==>
              && RightOutput(rom, CH_MUX, ins, outs, t)
              && outs[t].0 == Makes(Asks(ins), CH_MUX, t - 55)
              && (outs[t].0 ==> -0x80_0000_0000 <= outs[t].1 < 0x80_0000_0000)
  {
    outs := Run(rom, CH_MUX, ins);
    forall t | 0 <= t < |outs|
      ensures outs[t].0 == Makes(Asks(ins), CH_MUX, t - 55)
      ensures outs[t].0 ==> -0x80_0000_0000 <= outs[t].1 < 0x80_0000_0000
    {
      assert RightOutput(rom, CH_MUX, ins, outs, t);
      if outs[t].0 {
        PolyphaseBound(rom, Inputs(ins, CH_MUX, t - 55), ins[t - 55].rat, Emitted(outs, CH_MUX, t - CH_MUX), NUM_TAP);
      }
    }
  }
}
