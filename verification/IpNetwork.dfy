/** Streams between stages. Of every stream the models of this file and of
    SendNetwork.dfy and IcmpNetwork.dfy keep, besides what waits in it, what will still
    be written to it; each stage keeps its own equation between the two. */
module StreamQueues {
  import opened OnesComplement
  import opened RxStream
  import opened PacketWords

  lemma {:induction false} SplitWords(q: seq<Word>, f: seq<Word>)
    requires Lengths8(q + f)
    ensures Lengths8(q) && Lengths8(f)
  {
    forall i | 0 <= i < |q| ensures Word8(q[i]) { assert q[i] == (q + f)[i]; }
    forall i | 0 <= i < |f| ensures Word8(f[i]) { assert f[i] == (q + f)[|q| + i]; }
  }

  lemma {:induction false} Rejoined(q: seq<Word>, more: seq<Word>, n: nat)
    requires Lengths8(q) && Lengths8(more) && n <= |q|
    ensures Lengths8(q[n..] + more)
  {}

  /** Writing o to a stream that was to be written f. */
  lemma {:induction false} Written<T>(q: seq<T>, f: seq<T>, o: seq<T>, f': seq<T>)
    requires f == o + f'
    ensures (q + o) + f' == q + f
  {}

  lemma {:induction false} Nothing<T>(f: seq<T>)
    ensures [] + f == f
  {}

  lemma {:induction false} NumberParts(q: seq<nat>, f: seq<nat>)
    requires Sixteen(q + f)
    ensures Sixteen(q) && Sixteen(f)
  {
    forall i | 0 <= i < |q| ensures q[i] <= MAX { assert q[i] == (q + f)[i]; }
    forall i | 0 <= i < |f| ensures f[i] <= MAX { assert f[i] == (q + f)[|q| + i]; }
  }
}

/** The stages of the IP handler connected by streams, under every schedule. */
module IpReceiver {
  import opened Sealing
  import opened RxStream
  import opened PacketWords
  import opened StreamQueues
  import opened FrameEncoder
  import opened IpStrip
  import IpDropper
  import IpHandler
  import IpPath
  import LengthCutter
  import LengthFilter
  import MacFilter

  datatype Call = Arrive | CallDetect | CallLengthCheck | CallStrip | CallCheck | CallDropper | CallCut

  // What each stage will write, given what it will read.

  ghost predicate DetectLink(s: MacFilter.FilterRegs, ws: seq<Word>, mac: Mac, next: seq<Word>) {
    forall k {:trigger Opened(k)} :: Opened(k) && k == DETECT ==>
      Lengths8(ws) && Word8(s.prevWord) && MacFilter.Route(s, ws, mac).ip == next
  }

  ghost predicate LengthLink(s: LengthFilter.LengthRegs, ws: seq<Word>, next: seq<Word>) {
    forall k {:trigger Opened(k)} :: Opened(k) && k == LENGTH ==> Lengths8(ws) && LengthFilter.Run(s, ws) == next
  }

  ghost predicate StripLink(d: DataRegs, h: FlagRegs, ws: seq<Word>, my: Ip, next: seq<Word>, flags: Flags) {
    forall k {:trigger Opened(k)} :: Opened(k) && k == STRIP ==>
      Word8(d.prevWord) && Lengths8(ws) && DataRun(d, ws) == next && FlagRun(h, ws, my) == flags
  }

  ghost predicate CheckLink(ss: seq<SubSums>, next: seq<bool>) {
    forall k {:trigger Opened(k)} :: Opened(k) && k == CHECK ==> IpDropper.Valids(ss) == next
  }

  ghost predicate DropLink(s: IpDropper.Regs, ws: seq<Word>, valids: seq<bool>, versions: seq<bool>,
                           fragments: seq<bool>, next: seq<Word>) {
    forall k {:trigger Opened(k)} :: Opened(k) && k == DROPPING ==>
      (s.drop ==> !s.firstWord) && IpDropper.Run(s, ws, valids, versions, fragments) == next
  }

  ghost predicate CutLink(s: LengthCutter.Regs, ws: seq<Word>, next: seq<Word>) {
    forall k {:trigger Opened(k)} :: Opened(k) && k == CUTTING ==> Lengths8(ws) && LengthCutter.Run(s, ws) == next
  }

  const DETECT: nat := 38
  const LENGTH: nat := 39
  const STRIP: nat := 40
  const CHECK: nat := 41
  const DROPPING: nat := 42
  const CUTTING: nat := 43
  const NETWORK: nat := 44

  // One call of each stage, given what waits and what is still to come.

  method Detect(stage: MacFilter.DetectMacProtocol, q: seq<Word>, mac: Mac, ghost more: seq<Word>,
                ghost next: seq<Word>)
    returns (read: nat, o: seq<Word>, ghost next': seq<Word>)
    requires stage.dmp_fsmState <= 1 && DetectLink(stage.Registers(), q + more, mac, next)
    modifies stage
    ensures stage.dmp_fsmState <= 1 && read <= |q| && next == o + next'
    ensures DetectLink(stage.Registers(), q[read..] + more, mac, next')
    ensures if old(stage.dmp_fsmState) == 1 then read == 0 && stage.dmp_fsmState == 0
            else read == if q != [] then 1 else 0
  {
    assert Opened(DETECT);
    SplitWords(q, more);
    var out;
    read, out := stage.Step(q, mac, more);
    Rejoined(q, more, read);
    o, next' := out.ip, MacFilter.Route(stage.Registers(), q[read..] + more, mac).ip;
  }

  method CheckLength(stage: LengthFilter.LengthCheck, q: seq<Word>, ghost more: seq<Word>, ghost next: seq<Word>)
    returns (read: nat, o: seq<Word>, ghost next': seq<Word>)
    requires stage.Valid() && LengthLink(stage.Registers(), q + more, next)
    modifies stage
    ensures stage.Valid() && read <= |q| && next == o + next'
    ensures LengthLink(stage.Registers(), q[read..] + more, next')
    ensures if old(stage.dip_leftToWrite) > 0 then read == 0 && stage.dip_leftToWrite < old(stage.dip_leftToWrite)
            else read == if q != [] then 1 else 0
  {
    assert Opened(LENGTH);
    SplitWords(q, more);
    read, o := stage.Step(q, more);
    Rejoined(q, more, read);
    next' := LengthFilter.Run(stage.Registers(), q[read..] + more);
  }

  method Strip(stage: CheckIpChecksum, q: seq<Word>, my: Ip, ghost more: seq<Word>, ghost next: seq<Word>,
               ghost nextFlags: Flags)
    returns (read: nat, o: seq<Word>, flags: Flags, ghost next': seq<Word>, ghost nextFlags': Flags)
    requires stage.Valid() && StripLink(stage.Data(), stage.Header(), q + more, my, next, nextFlags)
    modifies stage, stage.cics_ip_sums
    ensures stage.Valid() && read <= |q| && next == o + next' && nextFlags == flags.Then(nextFlags')
    ensures StripLink(stage.Data(), stage.Header(), q[read..] + more, my, next', nextFlags')
    ensures if old(stage.cics_wasLast) then read == 0 && !stage.cics_wasLast else read == if q != [] then 1 else 0
  {
    assert Opened(STRIP);
    SplitWords(q, more);
    read, o, flags := stage.Step(q, my, more);
    Rejoined(q, more, read);
    next' := DataRun(stage.Data(), q[read..] + more);
    nextFlags' := FlagRun(stage.Header(), q[read..] + more, my);
  }

  method Check(q: seq<SubSums>, ghost more: seq<SubSums>, ghost next: seq<bool>)
    returns (valid: bool, ghost next': seq<bool>)
    requires q != [] && CheckLink(q + more, next)
    ensures valid == IpDropper.Valid(q[0]) && next == [valid] + next' && CheckLink(q[1..] + more, next')
  {
    assert Opened(CHECK);
    valid := IpDropper.Check(q[0]);
    assert q + more == [q[0]] + (q[1..] + more);
    IpPath.ValidsOf(q[0], q[1..] + more);
    next' := IpDropper.Valids(q[1..] + more);
  }

  method Drop(stage: IpDropper.IpInvalidDropper, q: seq<Word>, valids: seq<bool>, versions: seq<bool>,
              fragments: seq<bool>, ghost more: seq<Word>, ghost moreValids: seq<bool>, ghost moreVersions: seq<bool>,
              ghost moreFragments: seq<bool>, ghost next: seq<Word>)
    returns (read: nat, n: nat, o: seq<Word>, ghost next': seq<Word>)
    requires DropLink(stage.Registers(), q + more, valids + moreValids, versions + moreVersions,
                      fragments + moreFragments, next)
    modifies stage
    ensures read <= |q| && n <= |valids| && n <= |versions| && n <= |fragments| && next == o + next'
    ensures DropLink(stage.Registers(), q[read..] + more, valids[n..] + moreValids, versions[n..] + moreVersions,
                     fragments[n..] + moreFragments, next')
    ensures q != [] && (old(stage.iid_firstWord) ==> valids != [] && versions != [] && fragments != []) ==> read == 1
  {
    assert Opened(DROPPING);
    read, n, o := stage.Step(q, valids, versions, fragments, more, moreValids, moreVersions, moreFragments);
    next' := IpDropper.Run(stage.Registers(), q[read..] + more, valids[n..] + moreValids,
                           versions[n..] + moreVersions, fragments[n..] + moreFragments);
  }

  method Cut(stage: LengthCutter.CutLength, q: seq<Word>, ghost more: seq<Word>, ghost next: seq<Word>)
    returns (read: nat, o: seq<Word>, ghost next': seq<Word>)
    requires CutLink(stage.Registers(), q + more, next)
    modifies stage
    ensures read == (if q != [] then 1 else 0) && next == o + next'
    ensures CutLink(stage.Registers(), q[read..] + more, next')
  {
    assert Opened(CUTTING);
    SplitWords(q, more);
    read, o := stage.Step(q, more);
    Rejoined(q, more, read);
    next' := LengthCutter.Run(stage.Registers(), q[read..] + more);
  }

  // The streams and registers of all stages.

  /** What waits in each stream. */
  datatype Queues = Queues(dataIn: seq<Word>, ipFifo: seq<Word>, lengthFifo: seq<Word>, stripped: seq<Word>,
                           subSums: seq<SubSums>, valids: seq<bool>, versions: seq<bool>, fragments: seq<bool>,
                           kept: seq<Word>, out: seq<Word>)

  /** What will still be written to each stream. */
  datatype Later = Later(dataIn: seq<Word>, ipFifo: seq<Word>, lengthFifo: seq<Word>, stripped: seq<Word>,
                         flags: Flags, valids: seq<bool>, kept: seq<Word>, out: seq<Word>)

  datatype Registers = Registers(detect: MacFilter.FilterRegs, length: LengthFilter.LengthRegs, data: DataRegs,
                                 header: FlagRegs, drop: IpDropper.Regs, cut: LengthCutter.Regs)

  ghost predicate Network(q: Queues, l: Later, r: Registers, mac: Mac, my: Ip, total: seq<Word>) {
    && DetectLink(r.detect, q.dataIn + l.dataIn, mac, l.ipFifo)
    && LengthLink(r.length, q.ipFifo + l.ipFifo, l.lengthFifo)
    && StripLink(r.data, r.header, q.lengthFifo + l.lengthFifo, my, l.stripped, l.flags)
    && CheckLink(q.subSums + l.flags.subSums, l.valids)
    && DropLink(r.drop, q.stripped + l.stripped, q.valids + l.valids, q.versions + l.flags.versions,
                q.fragments + l.flags.fragments, l.kept)
    && CutLink(r.cut, q.kept + l.kept, l.out)
    && q.out + l.out == total
  }

  /** The same, sealed. */
  ghost predicate Works(q: Queues, l: Later, r: Registers, mac: Mac, my: Ip, total: seq<Word>) {
    forall k {:trigger Opened(k)} :: Opened(k) && k == NETWORK ==> Network(q, l, r, mac, my, total)
  }

  lemma {:induction false} Links(q: Queues, l: Later, r: Registers, mac: Mac, my: Ip, total: seq<Word>)
    requires Works(q, l, r, mac, my, total)
    ensures DetectLink(r.detect, q.dataIn + l.dataIn, mac, l.ipFifo)
    ensures LengthLink(r.length, q.ipFifo + l.ipFifo, l.lengthFifo)
    ensures StripLink(r.data, r.header, q.lengthFifo + l.lengthFifo, my, l.stripped, l.flags)
    ensures CheckLink(q.subSums + l.flags.subSums, l.valids)
    ensures DropLink(r.drop, q.stripped + l.stripped, q.valids + l.valids, q.versions + l.flags.versions,
                     q.fragments + l.flags.fragments, l.kept)
    ensures CutLink(r.cut, q.kept + l.kept, l.out)
  {
    assert Opened(NETWORK);
  }

  // What a call of each stage leaves.

  lemma {:induction false} AfterArrival(q: Queues, l: Later, r: Registers, mac: Mac, my: Ip, total: seq<Word>)
    requires Works(q, l, r, mac, my, total) && l.dataIn != []
    ensures Works(q.(dataIn := q.dataIn + [l.dataIn[0]]), l.(dataIn := l.dataIn[1..]), r, mac, my, total)
  {
    assert Opened(NETWORK);
    Written(q.dataIn, l.dataIn, [l.dataIn[0]], l.dataIn[1..]);
  }

  lemma {:induction false} AfterDetect(q: Queues, l: Later, r: Registers, mac: Mac, my: Ip, total: seq<Word>, n: nat,
                                       o: seq<Word>, next: seq<Word>, detect: MacFilter.FilterRegs)
    requires Works(q, l, r, mac, my, total) && n <= |q.dataIn| && l.ipFifo == o + next
    requires DetectLink(detect, q.dataIn[n..] + l.dataIn, mac, next)
    ensures Works(q.(dataIn := q.dataIn[n..], ipFifo := q.ipFifo + o), l.(ipFifo := next), r.(detect := detect),
                  mac, my, total)
  {
    assert Opened(NETWORK);
    Written(q.ipFifo, l.ipFifo, o, next);
  }

  lemma {:induction false} AfterLength(q: Queues, l: Later, r: Registers, mac: Mac, my: Ip, total: seq<Word>, n: nat,
                                       o: seq<Word>, next: seq<Word>, length: LengthFilter.LengthRegs)
    requires Works(q, l, r, mac, my, total) && n <= |q.ipFifo| && l.lengthFifo == o + next
    requires LengthLink(length, q.ipFifo[n..] + l.ipFifo, next)
    ensures Works(q.(ipFifo := q.ipFifo[n..], lengthFifo := q.lengthFifo + o), l.(lengthFifo := next),
                  r.(length := length), mac, my, total)
  {
    assert Opened(NETWORK);
    Written(q.lengthFifo, l.lengthFifo, o, next);
  }

  lemma {:induction false} AfterStrip(q: Queues, l: Later, r: Registers, mac: Mac, my: Ip, total: seq<Word>, n: nat,
                                      o: seq<Word>, f: Flags, next: seq<Word>, flags: Flags, data: DataRegs,
                                      header: FlagRegs)
    requires Works(q, l, r, mac, my, total) && n <= |q.lengthFifo| && l.stripped == o + next && l.flags == f.Then(flags)
    requires StripLink(data, header, q.lengthFifo[n..] + l.lengthFifo, my, next, flags)
    ensures Works(q.(lengthFifo := q.lengthFifo[n..], stripped := q.stripped + o, subSums := q.subSums + f.subSums,
                     versions := q.versions + f.versions, fragments := q.fragments + f.fragments),
                  l.(stripped := next, flags := flags), r.(data := data, header := header), mac, my, total)
  {
    assert Opened(NETWORK);
    Written(q.stripped, l.stripped, o, next);
    Written(q.subSums, l.flags.subSums, f.subSums, flags.subSums);
    Written(q.versions, l.flags.versions, f.versions, flags.versions);
    Written(q.fragments, l.flags.fragments, f.fragments, flags.fragments);
  }

  lemma {:induction false} AfterCheck(q: Queues, l: Later, r: Registers, mac: Mac, my: Ip, total: seq<Word>,
                                      valid: bool, next: seq<bool>)
    requires Works(q, l, r, mac, my, total) && q.subSums != [] && l.valids == [valid] + next
    requires CheckLink(q.subSums[1..] + l.flags.subSums, next)
    ensures Works(q.(subSums := q.subSums[1..], valids := q.valids + [valid]), l.(valids := next), r, mac, my, total)
  {
    assert Opened(NETWORK);
    Written(q.valids, l.valids, [valid], next);
  }

  lemma {:induction false} AfterDrop(q: Queues, l: Later, r: Registers, mac: Mac, my: Ip, total: seq<Word>, read: nat,
                                     n: nat, o: seq<Word>, next: seq<Word>, drop: IpDropper.Regs)
    requires Works(q, l, r, mac, my, total) && l.kept == o + next
    requires read <= |q.stripped| && n <= |q.valids| && n <= |q.versions| && n <= |q.fragments|
    requires DropLink(drop, q.stripped[read..] + l.stripped, q.valids[n..] + l.valids,
                      q.versions[n..] + l.flags.versions, q.fragments[n..] + l.flags.fragments, next)
    ensures Works(q.(stripped := q.stripped[read..], valids := q.valids[n..], versions := q.versions[n..],
                     fragments := q.fragments[n..], kept := q.kept + o),
                  l.(kept := next), r.(drop := drop), mac, my, total)
  {
    assert Opened(NETWORK);
    Written(q.kept, l.kept, o, next);
  }

  lemma {:induction false} AfterCut(q: Queues, l: Later, r: Registers, mac: Mac, my: Ip, total: seq<Word>, n: nat,
                                    o: seq<Word>, next: seq<Word>, cut: LengthCutter.Regs)
    requires Works(q, l, r, mac, my, total) && n <= |q.kept| && l.out == o + next
    requires CutLink(cut, q.kept[n..] + l.kept, next)
    ensures Works(q.(kept := q.kept[n..], out := q.out + o), l.(out := next), r.(cut := cut), mac, my, total)
  {
    assert Opened(NETWORK);
    Written(q.out, l.out, o, next);
  }

  /** At the start everything is still to come. */
  lemma {:induction false} AtStart(words: seq<Word>, mac: Mac, my: Ip) returns (l: Later)
    requires Lengths8(words)
    ensures l.dataIn == words
    ensures Works(Queues([], [], [], [], [], [], [], [], [], []), l,
                  Registers.Registers(MacFilter.START, LengthFilter.START, DATA_START, FLAG_START, IpDropper.FIRST,
                                      LengthCutter.START),
                  mac, my, Handled(words, mac, my))
  {
    var filtered := Filtered(words, mac);
    var flags := FlagRun(FLAG_START, filtered, my);
    var forwarded := IpPath.Forward(DATA_START, FLAG_START, filtered, my);
    MacFilter.RoutedLengths(MacFilter.START, words, mac);
    l := Later(words, MacFilter.Route(MacFilter.START, words, mac).ip, filtered, DataRun(DATA_START, filtered), flags,
               IpDropper.Valids(flags.subSums), forwarded, LengthCutter.Run(LengthCutter.START, forwarded));
    Nothing(l.dataIn);
    Nothing(l.ipFifo);
    Nothing(l.lengthFifo);
    Nothing(l.stripped);
    Nothing(l.kept);
    Nothing(l.out);
    Nothing(l.flags.subSums);
    Nothing(l.flags.versions);
    Nothing(l.flags.fragments);
    Nothing(l.valids);
  }

  /** When everything has arrived and nothing moves, everything has come out. */
  lemma {:induction false} AtEnd(q: Queues, l: Later, r: Registers, mac: Mac, my: Ip, total: seq<Word>)
    requires Works(q, l, r, mac, my, total) && l.dataIn == []
    requires q.dataIn == [] && !r.detect.flush && q.ipFifo == [] && r.length.leftToWrite == 0
    requires q.lengthFifo == [] && !r.data.wasLast && q.subSums == [] && q.kept == []
    requires q.stripped != [] ==> r.drop.firstWord && (q.valids == [] || q.versions == [] || q.fragments == [])
    ensures q.out == total
  {
    assert Opened(NETWORK);
    assert l.ipFifo == [] by { assert Opened(DETECT); }
    assert l.lengthFifo == [] by { assert Opened(LENGTH); }
    assert l.stripped == [] && l.flags == NONE by { assert Opened(STRIP); }
    assert l.valids == [] by { assert Opened(CHECK); }
    assert l.kept == [] by { assert Opened(DROPPING); }
    assert l.out == [] by { assert Opened(CUTTING); }
  }

  class Receiver {
    const mac: Mac
    const my: Ip
    ghost const total: seq<Word>   // what has to come out
    const detect: MacFilter.DetectMacProtocol
    const lengthCheck: LengthFilter.LengthCheck
    const strip: CheckIpChecksum
    const dropper: IpDropper.IpInvalidDropper
    const cut: LengthCutter.CutLength
    var q: Queues
    ghost var later: Later

    ghost function Repr(): set<object> {
      {this, detect, lengthCheck, strip, strip.cics_ip_sums, dropper, cut}
    }

    ghost predicate Valid()
      reads Repr()
    {
      && detect.dmp_fsmState <= 1 && lengthCheck.Valid() && strip.Valid()
      && Works(q, later, State(), mac, my, total)
    }

    ghost function State(): Registers
      requires lengthCheck.Valid() && strip.Valid()
      reads this, detect, lengthCheck, strip, strip.cics_ip_sums, dropper, cut
    {
      Registers.Registers(detect.Registers(), lengthCheck.Registers(), strip.Data(), strip.Header(),
                          dropper.Registers(), cut.Registers())
    }

    constructor (ghost words: seq<Word>, mac: Mac, my: Ip)
      requires Lengths8(words)
      ensures Valid() && fresh(Repr()) && later.dataIn == words && q.out == [] && total == Handled(words, mac, my)
      ensures this.mac == mac && this.my == my
    {
      this.mac, this.my, total := mac, my, Handled(words, mac, my);
      detect := new MacFilter.DetectMacProtocol();
      lengthCheck := new LengthFilter.LengthCheck();
      strip := new CheckIpChecksum();
      dropper := new IpDropper.IpInvalidDropper();
      cut := new LengthCutter.CutLength();
      q := Queues([], [], [], [], [], [], [], [], [], []);
      ghost var l := AtStart(words, mac, my);
      later := l;
    }

    method Arrive(w: Word)
      requires Valid() && later.dataIn != [] && w == later.dataIn[0]
      modifies this
      ensures Valid() && later.dataIn == old(later.dataIn)[1..] && q == old(q).(dataIn := old(q.dataIn) + [w])
    {
      AfterArrival(q, later, State(), mac, my, total);
      q, later := q.(dataIn := q.dataIn + [w]), later.(dataIn := later.dataIn[1..]);
    }

    method CallDetect()
      requires Valid()
      modifies this, detect
      ensures Valid() && q.out == old(q.out) && later.dataIn == old(later.dataIn)
      ensures old(DetectCanMove()) ==>
                || |q.dataIn| < old(|q.dataIn|)
                || (q.dataIn == old(q.dataIn) && old(detect.dmp_fsmState) > detect.dmp_fsmState)
    {
      Links(q, later, State(), mac, my, total);
      ghost var r, next := State(), [];
      var n, o;
      n, o, next := Detect(detect, q.dataIn, mac, later.dataIn, later.ipFifo);
      AfterDetect(q, later, r, mac, my, total, n, o, next, detect.Registers());
      q, later := q.(dataIn := q.dataIn[n..], ipFifo := q.ipFifo + o), later.(ipFifo := next);
    }

    method CallLengthCheck()
      requires Valid()
      modifies this, lengthCheck
      ensures Valid() && q.out == old(q.out) && later.dataIn == old(later.dataIn) && q.dataIn == old(q.dataIn)
      ensures old(LengthCanMove()) ==>
                || |q.ipFifo| < old(|q.ipFifo|)
                || (q.ipFifo == old(q.ipFifo) && lengthCheck.dip_leftToWrite < old(lengthCheck.dip_leftToWrite))
    {
      Links(q, later, State(), mac, my, total);
      ghost var r, next := State(), [];
      var n, o;
      n, o, next := CheckLength(lengthCheck, q.ipFifo, later.ipFifo, later.lengthFifo);
      AfterLength(q, later, r, mac, my, total, n, o, next, lengthCheck.Registers());
      q, later := q.(ipFifo := q.ipFifo[n..], lengthFifo := q.lengthFifo + o), later.(lengthFifo := next);
    }

    method CallStrip()
      requires Valid()
      modifies this, strip, strip.cics_ip_sums
      ensures Valid() && q.out == old(q.out) && later.dataIn == old(later.dataIn)
      ensures q.dataIn == old(q.dataIn) && q.ipFifo == old(q.ipFifo)
      ensures old(StripCanMove()) ==>
                || |q.lengthFifo| < old(|q.lengthFifo|)
                || (q.lengthFifo == old(q.lengthFifo) && old(strip.cics_wasLast) && !strip.cics_wasLast)
    {
      Links(q, later, State(), mac, my, total);
      ghost var r, next, flags := State(), [], NONE;
      var n, o, f;
      n, o, f, next, flags := Strip(strip, q.lengthFifo, my, later.lengthFifo, later.stripped, later.flags);
      AfterStrip(q, later, r, mac, my, total, n, o, f, next, flags, strip.Data(), strip.Header());
      later := later.(stripped := next, flags := flags);
      q := q.(lengthFifo := q.lengthFifo[n..], stripped := q.stripped + o, subSums := q.subSums + f.subSums,
              versions := q.versions + f.versions, fragments := q.fragments + f.fragments);
    }

    method CallCheck()
      requires Valid() && q.subSums != []
      modifies this
      ensures Valid() && q.out == old(q.out) && later.dataIn == old(later.dataIn) && |q.subSums| < old(|q.subSums|)
      ensures q.dataIn == old(q.dataIn) && q.ipFifo == old(q.ipFifo) && q.lengthFifo == old(q.lengthFifo)
    {
      Links(q, later, State(), mac, my, total);
      ghost var next := [];
      var valid;
      valid, next := Check(q.subSums, later.flags.subSums, later.valids);
      AfterCheck(q, later, State(), mac, my, total, valid, next);
      q, later := q.(subSums := q.subSums[1..], valids := q.valids + [valid]), later.(valids := next);
    }

    method CallDropper()
      requires Valid()
      modifies this, dropper
      ensures Valid() && q.out == old(q.out) && later.dataIn == old(later.dataIn)
      ensures q.dataIn == old(q.dataIn) && q.ipFifo == old(q.ipFifo) && q.lengthFifo == old(q.lengthFifo)
      ensures q.subSums == old(q.subSums)
      ensures old(DropperCanMove()) ==> |q.stripped| < old(|q.stripped|)
    {
      Links(q, later, State(), mac, my, total);
      ghost var r, next := State(), [];
      var read, n, o;
      read, n, o, next := Drop(dropper, q.stripped, q.valids, q.versions, q.fragments, later.stripped, later.valids,
                               later.flags.versions, later.flags.fragments, later.kept);
      AfterDrop(q, later, r, mac, my, total, read, n, o, next, dropper.Registers());
      later := later.(kept := next);
      q := q.(stripped := q.stripped[read..], valids := q.valids[n..], versions := q.versions[n..],
              fragments := q.fragments[n..], kept := q.kept + o);
    }

    method CallCut()
      requires Valid()
      modifies this, cut
      ensures Valid() && old(q.out) <= q.out && later.dataIn == old(later.dataIn)
      ensures q.dataIn == old(q.dataIn) && q.ipFifo == old(q.ipFifo) && q.lengthFifo == old(q.lengthFifo)
      ensures q.subSums == old(q.subSums) && q.stripped == old(q.stripped)
      ensures old(q.kept) != [] ==> |q.kept| < old(|q.kept|)
    {
      Links(q, later, State(), mac, my, total);
      ghost var r, next := State(), [];
      var n, o;
      n, o, next := Cut(cut, q.kept, later.kept, later.out);
      AfterCut(q, later, r, mac, my, total, n, o, next, cut.Registers());
      q, later := q.(kept := q.kept[n..], out := q.out + o), later.(out := next);
    }

    predicate DetectCanMove()
      reads this, detect
    {
      q.dataIn != [] || detect.dmp_fsmState == 1
    }

    predicate LengthCanMove()
      reads this, lengthCheck
    {
      q.ipFifo != [] || lengthCheck.dip_leftToWrite > 0
    }

    predicate StripCanMove()
      reads this, strip
    {
      q.lengthFifo != [] || strip.cics_wasLast
    }

    predicate DropperCanMove()
      reads this, dropper
    {
      q.stripped != [] && (dropper.iid_firstWord ==> q.valids != [] && q.versions != [] && q.fragments != [])
    }

    predicate CanMove()
      reads this, detect, lengthCheck, strip, dropper
    {
      DetectCanMove() || LengthCanMove() || StripCanMove() || q.subSums != [] || DropperCanMove() || q.kept != []
    }

    /** Calls until no stage can move. */
    method Settle()
      requires Valid()
      modifies Repr()
      ensures Valid() && !CanMove() && later.dataIn == old(later.dataIn) && old(q.out) <= q.out
    {
      while CanMove()
        invariant Valid() && later.dataIn == old(later.dataIn) && old(q.out) <= q.out
        decreases |q.dataIn|, detect.dmp_fsmState, |q.ipFifo|, lengthCheck.dip_leftToWrite, |q.lengthFifo|,
                  if strip.cics_wasLast then 1 else 0, |q.subSums|, |q.stripped|, |q.kept|
      {
        if DetectCanMove() {
          CallDetect();
        } else if LengthCanMove() {
          CallLengthCheck();
        } else if StripCanMove() {
          CallStrip();
        } else if q.subSums != [] {
          CallCheck();
        } else if DropperCanMove() {
          CallDropper();
        } else {
          CallCut();
        }
      }
    }
  }

  function Filtered(words: seq<Word>, mac: Mac): (out: seq<Word>)
    requires Lengths8(words)
    ensures Lengths8(out)
  {
    MacFilter.RoutedLengths(MacFilter.START, words, mac);
    LengthFilter.RunLengths(LengthFilter.START, MacFilter.Route(MacFilter.START, words, mac).ip);
    LengthFilter.Run(LengthFilter.START, MacFilter.Route(MacFilter.START, words, mac).ip)
  }

  /** What the stages, each run to its end, make of the words that arrive. */
  function Handled(words: seq<Word>, mac: Mac, my: Ip): seq<Word>
    requires Lengths8(words)
  {
    IpPath.Receive(DATA_START, FLAG_START, LengthCutter.START, Filtered(words, mac), my)
  }

  /** Whatever the schedule of arrivals and calls: once all words have arrived and the
      stages have been called until none of them can move, what has come out is what
      the stages, each run to its end, make of the words. */
  method Simulate(words: seq<Word>, schedule: seq<Call>, mac: Mac, my: Ip) returns (early: seq<Word>, out: seq<Word>)
    requires Lengths8(words)
    ensures early <= out == Handled(words, mac, my)
  {
    var r := new Receiver(words, mac, my);
    var n := 0;
    for i := 0 to |schedule|
      invariant r.Valid() && fresh(r.Repr()) && r.total == Handled(words, mac, my)
      invariant n <= |words| && r.later.dataIn == words[n..]
    {
      match schedule[i] {
        case Arrive =>
          if n < |words| {
            r.Arrive(words[n]);
            n := n + 1;
          }
        case CallDetect => r.CallDetect();
        case CallLengthCheck => r.CallLengthCheck();
        case CallStrip => r.CallStrip();
        case CallCheck =>
          if r.q.subSums != [] {
            r.CallCheck();
          }
        case CallDropper => r.CallDropper();
        case CallCut => r.CallCut();
      }
    }
    early := r.q.out;
    while n < |words|
      invariant r.Valid() && fresh(r.Repr()) && r.total == Handled(words, mac, my)
      invariant n <= |words| && r.later.dataIn == words[n..] && r.q.out == early
    {
      r.Arrive(words[n]);
      n := n + 1;
    }
    r.Settle();
    AtEnd(r.q, r.later, r.State(), r.mac, r.my, r.total);
    out := r.q.out;
  }

  /** Hence, of any sequence of frames, under every schedule exactly the packets of the
      frames that are for this node, of the type of IP, not too long, and acceptable
      come out, in order, each cut by its total length. */
  method ReceiveFrames(words: seq<Word>, schedule: seq<Call>, mac: Mac, my: Ip, ghost fs: seq<IpPath.Frame>)
    returns (out: seq<Word>, ghost outs: seq<seq<Word>>, ghost kept: seq<seq<Word>>)
    requires CarryAll(words, fs) && (forall i :: 0 <= i < |fs| ==> |fs[i]| > 17)
    requires forall i :: 0 <= i < |IpHandler.Passing(fs, mac)| ==> IsJudged(IpHandler.Passing(fs, mac)[i])
    ensures out == Concat(outs)
    ensures IpPath.Received(outs, kept, IpPath.Accepted(IpHandler.Passing(fs, mac), my))
    ensures var ps := IpPath.Accepted(IpHandler.Passing(fs, mac), my);
            LengthCutter.AllFit(ps) ==> CarryAll(out, LengthCutter.ToLengths(ps))
  {
    Divide(words, fs);
    ghost var wss := Divided(words, fs);
    AllLengths(wss, fs);
    var _, all := Simulate(words, schedule, mac, my);
    out := all;
    outs, kept := IpHandler.HandlesExactly(MacFilter.START, LengthFilter.START, DATA_START, FLAG_START,
                                           LengthCutter.START, wss, fs, mac, my);
    ghost var ps := IpPath.Accepted(IpHandler.Passing(fs, mac), my);
    if LengthCutter.AllFit(ps) {
      Together(outs, LengthCutter.ToLengths(ps));
    }
  }
}
