/** What the dropper makes of any frames of more than two words: the queues of versions
    and fragments get one entry for each frame, the queue of sums may get none. */
module IpQueues {
  import opened RxStream
  import opened PacketWords
  import opened OnesComplement
  import opened IpStrip
  import IpDropper
  import IpPath

  /** A frame without its Ethernet header, and its entries. */
  datatype Item = Item(words: seq<Word>, entry: seq<bool>, version: bool, whole: bool)

  /** A frame that reaches the end of what is judged has an entry, any other one none. */
  ghost predicate IsItem(x: Item, ws: seq<Word>, f: IpPath.Frame, my: Ip)
    requires |ws| >= 3 && Lengths8(ws) && |f| > 14
  {
    var b := AllLanes(ws);
    && IsPacket(x.words, f[14..])
    && x.entry == (if IsJudged(b) then [Canon(Total(Summed(b))) == MAX && IsOurs(Address(b), my)] else [])
    && x.version == (b[14] / 16 == 4) && x.whole == Unfragmented(b[20], b[21])
  }

  ghost predicate AreItems(xs: seq<Item>, wss: seq<seq<Word>>, fs: seq<IpPath.Frame>, my: Ip) {
    |xs| == |wss| == |fs| && forall i :: 0 <= i < |xs| ==> IsItemOf(xs[i], wss[i], fs[i], my)
  }

  ghost predicate IsItemOf(x: Item, ws: seq<Word>, f: IpPath.Frame, my: Ip) {
    |ws| >= 3 && Lengths8(ws) && |f| > 14 && |x.entry| <= 1 && IsItem(x, ws, f, my)
  }

  function Entries(xs: seq<Item>): seq<bool> {
    if xs == [] then [] else xs[0].entry + Entries(xs[1..])
  }

  function Versions(xs: seq<Item>): seq<bool> {
    if xs == [] then [] else [xs[0].version] + Versions(xs[1..])
  }

  function Fragments(xs: seq<Item>): seq<bool> {
    if xs == [] then [] else [xs[0].whole] + Fragments(xs[1..])
  }

  function Words(xs: seq<Item>): seq<seq<Word>> {
    if xs == [] then [] else [xs[0].words] + Words(xs[1..])
  }

  /** Each frame is judged by the oldest entry left, whosever that is; when there is none
      it waits, and so do all after it. */
  function Passed(valids: seq<bool>, xs: seq<Item>): seq<seq<Word>> {
    if xs == [] || valids == [] then []
    else (if valids[0] && xs[0].version && xs[0].whole then [xs[0].words] else []) + Passed(valids[1..], xs[1..])
  }

  /** For any frames of more than two words, what is forwarded is what Passed says. */
  lemma {:induction false} ForwardsAs(data: DataRegs, header: FlagRegs, wss: seq<seq<Word>>, fs: seq<IpPath.Frame>,
                                      my: Ip)
    returns (xs: seq<Item>)
    requires Carry(wss, fs) && forall i :: 0 <= i < |fs| ==> |fs[i]| > 16
    requires data.wordCount == 0 && !data.wasLast && Word8(data.prevWord) && header.wordCount == 0
    ensures Lengths8(Concat(wss)) && AreItems(xs, wss, fs, my)
    ensures IpPath.Forward(data, header, Concat(wss), my) == Concat(Passed(Entries(xs), xs))
  {
    AllLengths(wss, fs);
    var subs;
    xs, subs := StagesAll(data, header, wss, fs, my);
    DropsAs(Entries(xs), xs, wss, fs, my);
  }

  lemma {:induction false} StagesAll(data: DataRegs, header: FlagRegs, wss: seq<seq<Word>>, fs: seq<IpPath.Frame>,
                                     my: Ip)
    returns (xs: seq<Item>, subs: seq<SubSums>)
    requires Carry(wss, fs) && forall i :: 0 <= i < |fs| ==> |fs[i]| > 16
    requires data.wordCount == 0 && !data.wasLast && Word8(data.prevWord) && header.wordCount == 0
    ensures Lengths8(Concat(wss)) && AreItems(xs, wss, fs, my) && IpDropper.Valids(subs) == Entries(xs)
    ensures DataRun(data, Concat(wss)) == Concat(Words(xs))
    ensures FlagRun(header, Concat(wss), my) == Flags(subs, Versions(xs), Fragments(xs))
    decreases |fs|
  {
    AllLengths(wss, fs);
    if fs == [] {
      xs, subs := [], [];
    } else {
      AllLengths(wss[1..], fs[1..]);
      var x, es, data', header' := StagesOne(data, header, wss[0], fs[0], Concat(wss[1..]), my);
      var xs', subs' := StagesAll(data', header', wss[1..], fs[1..], my);
      xs, subs := [x] + xs', es + subs';
      ItemBefore(x, xs', wss, fs, my);
      ValidsTogether(es, subs');
      OneMore([x.words], Words(xs'));
    }
  }

  lemma {:induction false} ItemBefore(x: Item, xs: seq<Item>, wss: seq<seq<Word>>, fs: seq<IpPath.Frame>, my: Ip)
    requires |wss| == |fs| > 0 && AreItems(xs, wss[1..], fs[1..], my) && IsItemOf(x, wss[0], fs[0], my)
    ensures AreItems([x] + xs, wss, fs, my) && Words([x] + xs) == [x.words] + Words(xs)
    ensures Entries([x] + xs) == x.entry + Entries(xs) && Versions([x] + xs) == [x.version] + Versions(xs)
    ensures Fragments([x] + xs) == [x.whole] + Fragments(xs)
  {
    var ys := [x] + xs;
    assert ys[1..] == xs;
    forall i | 1 <= i < |ys| ensures IsItemOf(ys[i], wss[i], fs[i], my) {
      assert IsItemOf(xs[i - 1], wss[1..][i - 1], fs[1..][i - 1], my);
    }
  }

  lemma {:induction false} ValidsTogether(a: seq<SubSums>, b: seq<SubSums>)
    ensures IpDropper.Valids(a + b) == IpDropper.Valids(a) + IpDropper.Valids(b)
  {}

  lemma {:induction false} StagesOne(data: DataRegs, header: FlagRegs, ws: seq<Word>, f: IpPath.Frame, more: seq<Word>,
                                     my: Ip)
    returns (x: Item, es: seq<SubSums>, data': DataRegs, header': FlagRegs)
    requires IsPacket(ws, f) && |f| > 16 && Lengths8(more)
    requires data.wordCount == 0 && !data.wasLast && Word8(data.prevWord) && header.wordCount == 0
    ensures data'.wordCount == 0 && !data'.wasLast && Word8(data'.prevWord) && header'.wordCount == 0
    ensures Lengths8(ws + more) && IsItemOf(x, ws, f, my) && IpDropper.Valids(es) == x.entry
    ensures DataRun(data, ws + more) == x.words + DataRun(data', more)
    ensures FlagRun(header, ws + more, my) == Flags(es, [x.version], [x.whole]).Then(FlagRun(header', more, my))
  {
    var d;
    d, data' := Strips(data, ws, f, more);
    header', es := FlagsOfFrame(header, ws, f, more, my);
    var b := AllLanes(ws);
    if IsJudged(b) {
      CombineStands(es[0].sums, Total(Summed(b)));
    }
    x := Item(d, IpDropper.Valids(es), b[14] / 16 == 4, Unfragmented(b[20], b[21]));
  }

  lemma {:induction false} DropsAs(valids: seq<bool>, xs: seq<Item>, wss: seq<seq<Word>>, fs: seq<IpPath.Frame>, my: Ip)
    requires AreItems(xs, wss, fs, my)
    ensures IpDropper.Run(IpDropper.FIRST, Concat(Words(xs)), valids, Versions(xs), Fragments(xs))
            == Concat(Passed(valids, xs))
    decreases |xs|
  {
    if xs != [] {
      var x, rest := xs[0], xs[1..];
      assert IsItemOf(x, wss[0], fs[0], my);
      forall i | 0 <= i < |rest| ensures IsItemOf(rest[i], wss[1..][i], fs[1..][i], my) {
        assert IsItemOf(xs[i + 1], wss[i + 1], fs[i + 1], my);
      }
      assert Words(xs)[1..] == Words(rest);
      if valids == [] {
        FirstWord(x.words, fs[0][14..]);
      } else {
        assert valids == [valids[0]] + valids[1..];
        IpDropper.PassesIff(x.words, fs[0][14..], Concat(Words(rest)), valids[0], x.version, x.whole, valids[1..],
                            Versions(rest), Fragments(rest));
        DropsAs(valids[1..], rest, wss[1..], fs[1..], my);
        OneMore(if valids[0] && x.version && x.whole then [x.words] else [], Passed(valids[1..], rest));
      }
    }
  }

  lemma {:induction false} OneMore(out: seq<seq<Word>>, outs: seq<seq<Word>>)
    requires |out| <= 1
    ensures Concat(out + outs) == (if out == [] then [] else out[0]) + Concat(outs)
  {
    if out == [] {
      assert out + outs == outs;
    } else {
      assert (out + outs)[1..] == outs;
    }
  }

  // Alignment.

  /** After every frame each queue has got as many entries as there have been frames if
      and only if every frame has an entry in the queue of sums. */
  lemma {:induction false} AlignedIff(xs: seq<Item>)
    requires forall i :: 0 <= i < |xs| ==> |xs[i].entry| <= 1
    ensures (forall n :: 0 <= n <= |xs| ==> |Entries(xs[..n])| == n)
            <==> forall i :: 0 <= i < |xs| ==> xs[i].entry != []
  {
    if forall i :: 0 <= i < |xs| ==> xs[i].entry != [] {
      forall n | 0 <= n <= |xs| ensures |Entries(xs[..n])| == n {
        EntriesAre(xs[..n]);
      }
    }
    if forall n :: 0 <= n <= |xs| ==> |Entries(xs[..n])| == n {
      forall i | 0 <= i < |xs| ensures xs[i].entry != [] {
        assert xs[..i + 1] == xs[..i] + [xs[i]];
        EntriesTogether(xs[..i], [xs[i]]);
        assert |Entries(xs[..i + 1])| == i + 1 && |Entries(xs[..i])| == i;
        EntriesOfOne(xs[i]);
      }
    }
  }

  lemma {:induction false} EntriesOfOne(x: Item)
    ensures Entries([x]) == x.entry
  {
    assert [x][1..] == [];
  }

  lemma {:induction false} EntriesAre(xs: seq<Item>)
    requires forall i :: 0 <= i < |xs| ==> |xs[i].entry| == 1
    ensures |Entries(xs)| == |xs|
  {
    if xs != [] {
      EntriesAre(xs[1..]);
    }
  }

  lemma {:induction false} EntriesTogether(a: seq<Item>, b: seq<Item>)
    ensures Entries(a + b) == Entries(a) + Entries(b)
  {
    if a == [] {
      assert a + b == b;
    } else {
      EntriesTogether(a[1..], b);
      FirstOf(a, b);
      assert a[0].entry + (Entries(a[1..]) + Entries(b)) == (a[0].entry + Entries(a[1..])) + Entries(b);
    }
  }

  lemma {:induction false} FirstOf(a: seq<Item>, b: seq<Item>)
    requires a != []
    ensures Entries(a + b) == a[0].entry + Entries(a[1..] + b)
    ensures (a + b)[0] == a[0] && (a + b)[1..] == a[1..] + b
  {
    assert (a + b)[1..] == a[1..] + b;
  }

  /** The frames that pass by their own entries. */
  function Own(xs: seq<Item>): seq<seq<Word>> {
    if xs == [] then []
    else (if xs[0].entry == [true] && xs[0].version && xs[0].whole then [xs[0].words] else []) + Own(xs[1..])
  }

  /** As long as every frame has an entry each is judged by its own. After one that has
      none, it and all later ones are judged by the entries of those behind them. */
  lemma {:induction false} Shifted(a: seq<Item>, b: seq<Item>)
    requires forall i :: 0 <= i < |a| ==> |a[i].entry| == 1
    ensures Passed(Entries(a + b), a + b) == Own(a) + Passed(Entries(b), b)
    ensures b != [] && b[0].entry == [] ==> Entries(b) == Entries(b[1..])
  {
    if a == [] {
      assert a + b == b;
    } else {
      Shifted(a[1..], b);
      FirstOf(a, b);
      FirstPassed(a[0], a[1..] + b, a + b);
    }
  }

  lemma {:induction false} FirstPassed(x: Item, rest: seq<Item>, xs: seq<Item>)
    requires |x.entry| == 1 && xs != [] && xs[0] == x && xs[1..] == rest && Entries(xs) == x.entry + Entries(rest)
    ensures Passed(Entries(xs), xs)
            == (if x.entry == [true] && x.version && x.whole then [x.words] else []) + Passed(Entries(rest), rest)
  {
    assert x.entry == [x.entry[0]] && Entries(xs)[1..] == Entries(rest);
  }

  /** So a run of frames that all have an entry is judged exactly. */
  lemma {:induction false} JudgedByOwn(xs: seq<Item>)
    requires forall i :: 0 <= i < |xs| ==> |xs[i].entry| == 1
    ensures Passed(Entries(xs), xs) == Own(xs)
  {
    Shifted(xs, []);
    assert xs + [] == xs;
  }
}
