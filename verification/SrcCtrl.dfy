/** The per-channel rate controller of the multi-channel sample rate converter
    (DSP/multi_chan_conv_fil/src/srcCtrl.cpp) and its ratio tables (multiSRC.h). */
module SrcRates {
  // The seven conversion ratios: ratio r produces STEP_IN_VEC[r] outputs for
  // every STEP_OUT_VEC[r] inputs.
  const STEP_IN_VEC: seq<nat> := [1, 3, 5, 5, 4, 8, 6]
  const STEP_OUT_VEC: seq<nat> := [1, 4, 8, 6, 3, 5, 5]

  // First ROM column of each ratio: a running sum of STEP_IN_VEC.
  const BA0: nat := 0
  const BA1: nat := BA0 + STEP_IN_VEC[0]
  const BA2: nat := BA1 + STEP_IN_VEC[1]
  const BA3: nat := BA2 + STEP_IN_VEC[2]
  const BA4: nat := BA3 + STEP_IN_VEC[3]
  const BA5: nat := BA4 + STEP_IN_VEC[4]
  const BA6: nat := BA5 + STEP_IN_VEC[5]
  const BA_VEC: seq<nat> := [BA0, BA1, BA2, BA3, BA4, BA5, BA6]

  const ROM_WIDTH: nat := 32

  type Ratio = r: nat | r < 7

  /** A phase register is five bits wide. */
  function Wrap5(v: int): (w: nat)
    ensures w < 32
    ensures 0 <= v < 32 ==> w == v
  {
    v % 32
  }

  /** The blocks of the coefficient ROM tile its 32 columns: each ratio has
      one column per phase, and no phase arithmetic leaves five bits. */
  lemma {:induction false} RatioBlocks(r: Ratio)
    ensures 1 <= STEP_IN_VEC[r] <= 8 && 1 <= STEP_OUT_VEC[r] <= 8
    ensures BA_VEC[r] + STEP_IN_VEC[r] == if r == 6 then ROM_WIDTH else BA_VEC[r + 1]
    ensures BA_VEC[r] + STEP_OUT_VEC[r] <= ROM_WIDTH
  {
    assert r == 0 || r == 1 || r == 2 || r == 3 || r == 4 || r == 5 || r == 6;
  }
}

/** What a rational resampler has to do, stated without phases: output number j
    needs input number floor(j*M/L), and is produced in the first slot of its
    channel in which that input has arrived. */
module SrcReference {
  import opened Arith
  import opened SrcRates

  /** One call of the controller: is an input offered, and at which ratio. */
  datatype Ask = Ask(vld: bool, rat: Ratio)

  /** What a channel has consumed and produced so far. */
  datatype Count = Count(taken: nat, made: nat)

  /** Output number `made` can be computed from the `taken` inputs at hand. */
  predicate Ready(c: Count, r: Ratio) {
    c.made * STEP_OUT_VEC[r] < c.taken * STEP_IN_VEC[r]
  }

  predicate TakesInput(c: Count, a: Ask) {
    a.vld && !Ready(c, a.rat)
  }

  function Offer(c: Count, a: Ask): Count {
    if TakesInput(c, a) then Count(c.taken + 1, c.made) else c
  }

  function Serve(c: Count, a: Ask): Count {
    var c' := Offer(c, a);
    if Ready(c', a.rat) then Count(c'.taken, c'.made + 1) else c'
  }

  /** The counts of slot u's channel after slot u; slots u, u-chMux, u-2*chMux,
      and so on belong to one channel. */
  function CountAfter(h: seq<Ask>, chMux: nat, u: int): Count
    requires chMux > 0 && u < |h|
    decreases u
  {
    if u < 0 then Count(0, 0) else Serve(CountAfter(h, chMux, u - chMux), h[u])
  }

  predicate Takes(h: seq<Ask>, chMux: nat, u: int)
    requires chMux > 0 && u < |h|
  {
    u >= 0 && TakesInput(CountAfter(h, chMux, u - chMux), h[u])
  }

  predicate Makes(h: seq<Ask>, chMux: nat, u: int)
    requires chMux > 0 && u < |h|
  {
    u >= 0 && CountAfter(h, chMux, u).made > CountAfter(h, chMux, u - chMux).made
  }

  predicate KeepsRatio(h: seq<Ask>, chMux: nat, u: int)
    requires chMux <= u < |h|
  {
    h[u].rat == h[u - chMux].rat
  }

  /** Every channel keeps the ratio it started with. */
  ghost predicate FixedRatios(h: seq<Ask>, chMux: nat) {
    forall u :: chMux <= u < |h| ==> KeepsRatio(h, chMux, u)
  }

  lemma {:induction false} CountAfterPrefix(h: seq<Ask>, more: seq<Ask>, chMux: nat, u: int)
    requires chMux > 0 && u < |h|
    ensures CountAfter(h + more, chMux, u) == CountAfter(h, chMux, u)
    decreases u
  {
    if u >= 0 {
      CountAfterPrefix(h, more, chMux, u - chMux);
    }
  }

  /** The reference never runs more than one output ahead of its inputs. */
  lemma {:induction false} NeverAhead(h: seq<Ask>, chMux: nat, u: int)
    requires chMux > 0 && 0 <= u < |h| && FixedRatios(h, chMux)
    ensures var c := CountAfter(h, chMux, u);
            c.made > 0 ==> (c.made - 1) * STEP_OUT_VEC[h[u].rat] < c.taken * STEP_IN_VEC[h[u].rat]
    decreases u
  {
    var l, m := STEP_IN_VEC[h[u].rat], STEP_OUT_VEC[h[u].rat];
    if u >= chMux {
      NeverAhead(h, chMux, u - chMux);
      assert KeepsRatio(h, chMux, u);
    }
    var b := CountAfter(h, chMux, u - chMux);
    var c := CountAfter(h, chMux, u);
    RatioBlocks(h[u].rat);
    assert c.taken * l >= b.taken * l by { assert c.taken >= b.taken; MulMonotone(b.taken, c.taken, l); }
  }

  function CeilDiv(a: nat, b: nat): nat
    requires b > 0
  {
    (a + b - 1) / b
  }

  /** Conservation: whenever a channel has nothing left to compute, it has
      produced ceil(inputs * L / M) outputs. */
  lemma {:induction false} OutputsAreCeil(h: seq<Ask>, chMux: nat, u: int)
    requires chMux > 0 && 0 <= u < |h| && FixedRatios(h, chMux)
    requires !Ready(CountAfter(h, chMux, u), h[u].rat)
    ensures var c := CountAfter(h, chMux, u);
            STEP_OUT_VEC[h[u].rat] > 0 &&
            c.made == CeilDiv(c.taken * STEP_IN_VEC[h[u].rat], STEP_OUT_VEC[h[u].rat])
  {
    RatioBlocks(h[u].rat);
    NeverAhead(h, chMux, u);
    var c := CountAfter(h, chMux, u);
    var l, m := STEP_IN_VEC[h[u].rat], STEP_OUT_VEC[h[u].rat];
    CeilUnique(c.taken * l, m, c.made);
  }

  lemma {:induction false} CeilUnique(a: nat, m: nat, q: nat)
    requires m > 0 && a <= q * m
    requires q > 0 ==> (q - 1) * m < a
    ensures q == CeilDiv(a, m)
  {
    var d := CeilDiv(a, m);
    assert d * m <= a + m - 1 < d * m + m;
    assert (q + 1) * m == q * m + m && (d + 1) * m == d * m + m;
    if d < q {
      MulMonotone(d + 1, q, m);
    } else if d > q {
      MulMonotone(q + 1, d, m);
    }
  }
}

module SrcController {
  import opened Sealing
  import opened Arith
  import opened SrcRates
  import opened SrcReference

  /** A channel's registers agree with what the channel has consumed and
      produced: the phase is the exact remainder of L*inputs against M*outputs,
      and the two flags say where that remainder lies. */
  ghost predicate Tracks(c: Count, r: Ratio, phase: int, tokeep: bool, isskip: bool) {
    var l, m := STEP_IN_VEC[r], STEP_OUT_VEC[r];
    && c.made * m == c.taken * l + phase - (if tokeep then l else 0)
    && 0 <= phase < (if tokeep then l else m)
    && (isskip <==> phase >= l)
  }

  /** The registers of slot u's channel, when slot u is its latest slot; before
      its first slot a channel is at rest. */
  ghost predicate SlotTracks(h: seq<Ask>, chMux: nat, u: int, phase: seq<int>, tokeep: seq<bool>, isskip: seq<bool>)
    requires chMux > 0 && u < |h| && |phase| == |tokeep| == |isskip| == chMux
  {
    var ch := u % chMux;
    if u < 0 then phase[ch] == 0 && !tokeep[ch] && !isskip[ch]
    else Tracks(CountAfter(h, chMux, u), h[u].rat, phase[ch], tokeep[ch], isskip[ch])
  }

  ghost predicate AllTrack(h: seq<Ask>, chMux: nat, phase: seq<int>, tokeep: seq<bool>, isskip: seq<bool>)
    requires chMux > 0 && |phase| == |tokeep| == |isskip| == chMux
  {
    forall u :: |h| - chMux <= u < |h| ==> SlotTracks(h, chMux, u, phase, tokeep, isskip)
  }

  datatype Regs = Regs(phase: int, tokeep: bool, isskip: bool)

  /** The registers a call writes for the channel whose registers it read. */
  function NextRegs(g: Regs, r: Ratio, vld: bool): Regs {
    var l: int, m: int := STEP_IN_VEC[r], STEP_OUT_VEC[r];
    var p := Wrap5(g.phase + m);
    if (vld && !g.isskip) || g.tokeep then
      if p < l then Regs(p, true, false) else Regs(Wrap5(p - l), false, p / 2 >= l)
    else if vld then Regs(Wrap5(g.phase - l), false, g.phase / 2 >= l)
    else g
  }

  /** One slot of one channel, on registers and on counts. */
  lemma {:induction false} SlotStep(b: Count, r: Ratio, phase: nat, tokeep: bool, isskip: bool, vld: bool)
    requires Tracks(b, r, phase, tokeep, isskip)
    ensures !(tokeep && isskip)
    ensures tokeep <==> Ready(b, r)
    ensures (vld && !isskip) || tokeep <==> Ready(Offer(b, Ask(vld, r)), r)
    ensures (vld && !isskip) || tokeep ==> phase == b.made * STEP_OUT_VEC[r] % STEP_IN_VEC[r]
    ensures var g := NextRegs(Regs(phase, tokeep, isskip), r, vld);
            Tracks(Serve(b, Ask(vld, r)), r, g.phase, g.tokeep, g.isskip)
  {
    RatioBlocks(r);
    var l, m := STEP_IN_VEC[r], STEP_OUT_VEC[r];
    assert (b.taken + 1) * l == b.taken * l + l;
    assert (b.made + 1) * m == b.made * m + m;
    if (vld && !isskip) || tokeep {
      var q := if tokeep then b.taken - 1 else b.taken;
      assert b.made * m == q * l + phase by {
        assert (b.taken - 1) * l == b.taken * l - l;
      }
      RemainderUnique(b.made * m, l, q, phase);
    }
  }

  /** The channels of chMux consecutive slots are all different. */
  lemma {:induction false} WindowDistinct(t: int, u: int, chMux: nat)
    requires chMux > 0 && t - chMux < u < t
    ensures u % chMux != t % chMux
  {
    if u % chMux == t % chMux {
      assert t - u == (t / chMux - u / chMux) * chMux;
      var k := t / chMux - u / chMux;
      if k >= 1 { MulMonotone(1, k, chMux); } else { MulMonotone(k, 0, chMux); }
    }
  }

  lemma {:induction false} SameChannel(t: int, chMux: nat)
    requires chMux > 0
    ensures (t - chMux) % chMux == t % chMux
    ensures 0 <= t ==> (t + 1) % chMux == if t % chMux == chMux - 1 then 0 else t % chMux + 1
  {
    RemainderUnique(t - chMux, chMux, t / chMux - 1, t % chMux);
    if t % chMux == chMux - 1 {
      RemainderUnique(t + 1, chMux, t / chMux + 1, 0);
    } else {
      RemainderUnique(t + 1, chMux, t / chMux, t % chMux + 1);
    }
  }

  /** Rewriting the registers of the current channel keeps all channels tracked. */
  lemma {:induction false} TrackAppend(h: seq<Ask>, a: Ask, chMux: nat, phase: seq<int>, tokeep: seq<bool>,
                                       isskip: seq<bool>, p: int, k: bool, s: bool)
    requires chMux > 0 && |phase| == |tokeep| == |isskip| == chMux
    requires AllTrack(h, chMux, phase, tokeep, isskip)
    requires Tracks(CountAfter(h + [a], chMux, |h|), a.rat, p, k, s)
    ensures var ch := |h| % chMux;
            AllTrack(h + [a], chMux, phase[ch := p], tokeep[ch := k], isskip[ch := s])
  {
    var h' := h + [a];
    var c := |h| % chMux;
    var phase', tokeep', isskip' := phase[c := p], tokeep[c := k], isskip[c := s];
    forall u | |h'| - chMux <= u < |h'|
      ensures SlotTracks(h', chMux, u, phase', tokeep', isskip')
    {
      if u < |h| {
        WindowDistinct(|h|, u, chMux);
        CountAfterPrefix(h, [a], chMux, u);
        assert SlotTracks(h, chMux, u, phase, tokeep, isskip);
      }
    }
  }

  /** The answer to call u of history h is the reference's: an input is
      shifted in exactly when the reference takes it, an output is flagged
      exactly when the reference makes one, and its coefficient address is the
      output's phase inside the ratio's own ROM block. */
  ghost predicate Answers(h: seq<Ask>, chMux: nat, u: nat, vldO: bool, toshift: bool, addr: nat)
    requires chMux > 0 && u < |h|
  {
    var l, m := STEP_IN_VEC[h[u].rat], STEP_OUT_VEC[h[u].rat];
    && toshift == Takes(h, chMux, u)
    && vldO == Makes(h, chMux, u)
    && (vldO ==> l > 0 && addr == BA_VEC[h[u].rat] + CountAfter(h, chMux, u - chMux).made * m % l)
  }

  /** What the registers read by a call say about its answer and about the
      registers it leaves behind. */
  lemma {:induction false} CallAnswer(h: seq<Ask>, a: Ask, chMux: nat, phase: seq<int>, tokeep: seq<bool>,
                                      isskip: seq<bool>)
    requires chMux > 0 && |phase| == |tokeep| == |isskip| == chMux
    requires FixedRatios(h + [a], chMux)
    requires FixedRatios(h, chMux) ==> AllTrack(h, chMux, phase, tokeep, isskip)
    ensures var ch := |h| % chMux;
            var vldO := (a.vld && !isskip[ch]) || tokeep[ch];
            && Answers(h + [a], chMux, |h|, vldO, a.vld && !tokeep[ch], Wrap5(phase[ch] + BA_VEC[a.rat]))
            && var g := NextRegs(Regs(phase[ch], tokeep[ch], isskip[ch]), a.rat, a.vld);
               AllTrack(h + [a], chMux, phase[ch := g.phase], tokeep[ch := g.tokeep], isskip[ch := g.isskip])
  {
    var h', u := h + [a], |h|;
    forall v | chMux <= v < |h| ensures KeepsRatio(h, chMux, v) {
      assert KeepsRatio(h', chMux, v);
    }
    SameChannel(u, chMux);
    CountAfterPrefix(h, [a], chMux, u - chMux);
    RatioBlocks(a.rat);
    assert SlotTracks(h, chMux, u - chMux, phase, tokeep, isskip);
    if u >= chMux {
      assert KeepsRatio(h', chMux, u);
    }
    assert phase[u % chMux] >= 0;
    SlotStep(CountAfter(h', chMux, u - chMux), a.rat, phase[u % chMux], tokeep[u % chMux], isskip[u % chMux], a.vld);
    var g := NextRegs(Regs(phase[u % chMux], tokeep[u % chMux], isskip[u % chMux]), a.rat, a.vld);
    TrackAppend(h, a, chMux, phase, tokeep, isskip, g.phase, g.tokeep, g.isskip);
  }

  const BLOCK: nat := 23   // seals the invariants of the blocks

  class SrcCtrl {
    const chMux: nat
    const vecPhase: array<int>
    const vecTokeep: array<bool>
    const vecIsskip: array<bool>
    var cntR: nat
    var cntW: nat
    ghost var hist: seq<Ask>

    ghost function Repr(): set<object> {
      {this, vecPhase, vecTokeep, vecIsskip}
    }

    ghost predicate Valid()
      reads Repr()
    {
      chMux > 0
      && forall k {:trigger Opened(k)} :: Opened(k) && k == BLOCK ==>
           && vecPhase.Length == vecTokeep.Length == vecIsskip.Length == chMux
           && vecTokeep != vecIsskip
           && cntR == cntW == |hist| % chMux
           && (FixedRatios(hist, chMux) ==> AllTrack(hist, chMux, vecPhase[..], vecTokeep[..], vecIsskip[..]))
    }

    constructor (chMux: nat)
      requires chMux > 0
      ensures Valid() && fresh(Repr()) && hist == [] && this.chMux == chMux
    {
      this.chMux := chMux;
      vecPhase := new int[chMux](_ => 0);
      vecTokeep := new bool[chMux](_ => false);
      vecIsskip := new bool[chMux](_ => false);
      cntR, cntW := 0, 0;
      hist := [];
    }

    /** One call: under fixed ratios the registers implement the reference. */
    method Step(vld: bool, rat: Ratio) returns (vldO: bool, toshift: bool, addr: nat)
      requires Valid()
      modifies Repr()
      ensures Valid() && hist == old(hist) + [Ask(vld, rat)]
      ensures addr < ROM_WIDTH
      ensures FixedRatios(hist, chMux) ==> Answers(hist, chMux, |old(hist)|, vldO, toshift, addr)
    {
      assert Opened(BLOCK);
      ghost var h := hist + [Ask(vld, rat)];
      if FixedRatios(h, chMux) {
        CallAnswer(hist, Ask(vld, rat), chMux, vecPhase[..], vecTokeep[..], vecIsskip[..]);
      }
      SameChannel(|hist|, chMux);
      vldO, toshift, addr := Control(vld, rat);
      hist := h;
    }

    /** The registers of the channel under the read pointer. */
    ghost function Current(): Regs
      reads this, vecPhase, vecTokeep, vecIsskip
      requires cntR < chMux == vecPhase.Length == vecTokeep.Length == vecIsskip.Length
    {
      Regs(vecPhase[cntR], vecTokeep[cntR], vecIsskip[cntR])
    }

    method Control(vld: bool, rat: Ratio) returns (vldO: bool, toshift: bool, addr: nat)
      requires vecTokeep != vecIsskip
      requires cntR == cntW < chMux == vecPhase.Length == vecTokeep.Length == vecIsskip.Length
      modifies vecPhase, vecTokeep, vecIsskip, this`cntR, this`cntW
      ensures var g, g' := old(Current()), NextRegs(old(Current()), rat, vld);
              && toshift == (vld && !g.tokeep)
              && vldO == ((vld && !g.isskip) || g.tokeep)
              && addr == Wrap5(g.phase + BA_VEC[rat])
              && vecPhase[..] == old(vecPhase[..])[old(cntR) := g'.phase]
              && vecTokeep[..] == old(vecTokeep[..])[old(cntR) := g'.tokeep]
              && vecIsskip[..] == old(vecIsskip[..])[old(cntR) := g'.isskip]
      ensures cntR == cntW == if old(cntR) == chMux - 1 then 0 else old(cntR) + 1
    {
      var phase: int := vecPhase[cntR];
      var tokeep := vecTokeep[cntR];
      var isskip := vecIsskip[cntR];
      if cntR == chMux - 1 { cntR := 0; } else { cntR := cntR + 1; }

      var baseAddr := BA_VEC[rat];
      toshift := vld && !tokeep;
      vldO := (vld && !isskip) || tokeep;
      addr := Wrap5(phase + baseAddr);

      var stepIn := STEP_IN_VEC[rat];
      var stepOut := STEP_OUT_VEC[rat];
      if vldO {
        phase := Wrap5(phase + stepOut);
        if phase < stepIn {
          tokeep := true;
          isskip := false;
        } else {
          tokeep := false;
          isskip := phase / 2 >= stepIn;
          phase := Wrap5(phase - stepIn);
        }
      } else if vld {
        tokeep := false;
        isskip := phase / 2 >= stepIn;
        phase := Wrap5(phase - stepIn);
      }
      Save(phase, tokeep, isskip);
    }

    /** Writes the current channel's registers back and moves to the next channel. */
    method Save(phase: int, tokeep: bool, isskip: bool)
      requires vecTokeep != vecIsskip
      requires cntW < chMux == vecPhase.Length == vecTokeep.Length == vecIsskip.Length
      modifies vecPhase, vecTokeep, vecIsskip, this`cntW
      ensures vecPhase[..] == old(vecPhase[..])[old(cntW) := phase]
      ensures vecTokeep[..] == old(vecTokeep[..])[old(cntW) := tokeep]
      ensures vecIsskip[..] == old(vecIsskip[..])[old(cntW) := isskip]
      ensures cntW == if old(cntW) == chMux - 1 then 0 else old(cntW) + 1
    {
      vecPhase[cntW] := phase;
      vecTokeep[cntW] := tokeep;
      vecIsskip[cntW] := isskip;
      if cntW == chMux - 1 { cntW := 0; } else { cntW := cntW + 1; }
    }
  }
}
