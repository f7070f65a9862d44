/** The skewed address pipeline into the coefficient ROM
    (DSP/multi_chan_conv_fil/src/srcCoef.cpp). */
module SrcCoefRom {
  import opened Sealing
  import opened SrcRates
  import opened SrcDelayLine

  /** One ROM row per tap. The rows' contents are arbitrary. */
  ghost predicate RomShape(rom: seq<seq<Coef>>) {
    forall k :: 0 <= k < |rom| ==> |rom[k]| == ROM_WIDTH
  }

  function AddrAt(h: seq<nat>, t: int): nat {
    if 0 <= t < |h| then h[t] else 0
  }

  /** The delay line of chMux addresses, followed by one register per tap. */
  ghost predicate Delayed(h: seq<nat>, chMux: nat, addr: seq<nat>, dly: seq<nat>) {
    && |dly| == chMux
    && (forall a :: 0 <= a < chMux ==> dly[a] == AddrAt(h, |h| - 1 - a))
    && (forall i :: 0 <= i < |addr| ==> addr[i] == AddrAt(h, |h| - 1 - chMux - i))
    && (forall i :: 0 <= i < |addr| ==> addr[i] < ROM_WIDTH)
    && (forall a :: 0 <= a < chMux ==> dly[a] < ROM_WIDTH)
  }

  lemma {:induction false} DelayAdvance(h: seq<nat>, a: nat, chMux: nat, addr: seq<nat>, dly: seq<nat>)
    requires chMux > 0 && |addr| > 0 && a < ROM_WIDTH && Delayed(h, chMux, addr, dly)
    ensures Delayed(h + [a], chMux, [dly[chMux - 1]] + addr[..|addr| - 1], [a] + dly[..chMux - 1])
  {
    var addr', dly' := [dly[chMux - 1]] + addr[..|addr| - 1], [a] + dly[..chMux - 1];
    forall k | 0 <= k < chMux
      ensures dly'[k] == AddrAt(h + [a], |h| - k) && dly'[k] < ROM_WIDTH
    {
      if k > 0 { var j := k - 1; assert dly'[k] == dly[j]; }
    }
    forall k | 0 <= k < |addr|
      ensures addr'[k] == AddrAt(h + [a], |h| - chMux - k) && addr'[k] < ROM_WIDTH
    {
      if k > 0 { var j := k - 1; assert addr'[k] == addr[j]; }
    }
  }

  function RomAt(rom: seq<seq<Coef>>, k: nat, a: nat): Coef {
    if k < |rom| && a < |rom[k]| then rom[k][a] else 0
  }

  /** Tap k is given its coefficient at the address entered chMux + 1 + k calls
      before the latest one. */
  ghost predicate Reads(rom: seq<seq<Coef>>, h: seq<nat>, chMux: nat, c: seq<Coef>) {
    && |c| == |rom|
    && forall k :: 0 <= k < |c| ==> c[k] == RomAt(rom, k, AddrAt(h, |h| - 2 - chMux - k))
  }

  class SrcCoef {
    const numTap: nat
    const chMux: nat
    const rom: seq<seq<Coef>>
    const addr: array<nat>
    var addrDly: seq<nat>
    ghost var hist: seq<nat>

    ghost function Repr(): set<object> {
      {this, addr}
    }

    ghost predicate Valid()
      reads Repr()
    {
      chMux > 0 && numTap == |rom| > 0 && addr.Length == numTap && RomShape(rom)
      && forall k {:trigger Opened(k)} :: Opened(k) && k == BLOCK ==> Delayed(hist, chMux, addr[..], addrDly)
    }

    static const BLOCK: nat := 24

    constructor (rom: seq<seq<Coef>>, chMux: nat)
      requires |rom| > 0 && RomShape(rom) && chMux > 0
      ensures Valid() && fresh(Repr()) && hist == [] && this.rom == rom && this.chMux == chMux
    {
      this.numTap, this.rom, this.chMux := |rom|, rom, chMux;
      addr := new nat[|rom|](_ => 0);
      addrDly := seq(chMux, _ => 0);
      hist := [];
    }

    method Step(addrI: nat) returns (c: seq<Coef>)
      requires Valid() && addrI < ROM_WIDTH
      modifies Repr()
      ensures Valid() && hist == old(hist) + [addrI]
      ensures Reads(rom, hist, chMux, c)
    {
      assert Opened(BLOCK);
      c := [];
      for i := 0 to numTap
        invariant |c| == i
        invariant forall k :: 0 <= k < i ==> c[k] == RomAt(rom, k, AddrAt(hist, |hist| - 1 - chMux - k))
      {
        c := c + [rom[i][addr[i]]];
      }
      Advance(addrI);
    }

    method Advance(addrI: nat)
      requires Valid() && addrI < ROM_WIDTH
      modifies Repr()
      ensures Valid() && hist == old(hist) + [addrI]
    {
      assert Opened(BLOCK);
      ghost var addr0 := addr[..];
      DelayAdvance(hist, addrI, chMux, addr0, addrDly);
      var i := numTap - 1;
      while i >= 1
        invariant 0 <= i < numTap
        invariant forall k :: 0 <= k <= i ==> addr[k] == addr0[k]
        invariant forall k :: i < k < numTap ==> addr[k] == addr0[k - 1]
        modifies addr
      {
        addr[i] := addr[i - 1];
        i := i - 1;
      }
      addr[0] := addrDly[chMux - 1];
      assert addr[..] == [addrDly[chMux - 1]] + addr0[..numTap - 1];
      addrDly := [addrI] + addrDly[..chMux - 1];
      hist := hist + [addrI];
    }
  }
}
