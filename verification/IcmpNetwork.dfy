/** The stages of the echo path connected by streams, under every schedule. */
module IcmpResponder {
  import opened Arith
  import opened Sealing
  import opened RxStream
  import opened PacketWords
  import opened StreamQueues
  import opened OnesComplement
  import opened IcmpCheck
  import IcmpEcho

  datatype Call = Arrive | CallCheck | CallDropper | CallInsert

  // What each stage will write, given what it will read.

  ghost predicate CheckLink(d: DataRegs, m: SumRegs, ws: seq<Word>, next: seq<Word>, verdicts: Verdicts) {
    forall k {:trigger Opened(k)} :: Opened(k) && k == CHECKING ==>
      Word8(d.prevWord) && Lengths8(ws) && DataRun(d, ws) == next && SumRun(m, ws) == verdicts
  }

  ghost predicate DropLink(s: IcmpEcho.Regs, ws: seq<Word>, valids: seq<bool>, next: seq<Word>) {
    forall k {:trigger Opened(k)} :: Opened(k) && k == DROPPING ==>
      (s.drop ==> !s.isFirstWord) && IcmpEcho.DropRun(s, ws, valids) == next
  }

  /** The other source of insertChecksum, error messages, is left empty. */
  ghost predicate InsertLink(count: nat, source: nat, ws: seq<Word>, cs: seq<nat>, next: seq<Word>) {
    forall k {:trigger Opened(k)} :: Opened(k) && k == INSERTING ==>
      && source < 2 && (count > 0 ==> source == 0) && Lengths8(ws) && Sixteen(cs)
      && IcmpEcho.Inserted(count, ws, cs) == next
  }

  const CHECKING: nat := 56
  const DROPPING: nat := 57
  const INSERTING: nat := 58
  const NETWORK: nat := 59

  // One call of each stage, given what waits and what is still to come.

  method Check(stage: CheckIcmpChecksum, q: seq<Word>, ghost more: seq<Word>, ghost next: seq<Word>,
               ghost nextVerdicts: Verdicts)
    returns (read: nat, o: seq<Word>, v: Verdicts, ghost next': seq<Word>, ghost nextVerdicts': Verdicts)
    requires stage.Valid() && CheckLink(stage.Data(), stage.Message(), q + more, next, nextVerdicts)
    modifies stage, stage.cics_sums
    ensures stage.Valid() && read <= |q| && next == o + next' && nextVerdicts == v.Then(nextVerdicts')
    ensures CheckLink(stage.Data(), stage.Message(), q[read..] + more, next', nextVerdicts')
    ensures if old(stage.cics_writeLastOne || stage.cics_computeCs) then
              read == 0 && Rank(stage.cics_writeLastOne, stage.cics_computeCs, stage.cics_state)
                           < old(Rank(stage.cics_writeLastOne, stage.cics_computeCs, stage.cics_state))
            else read == if q != [] then 1 else 0
  {
    assert Opened(CHECKING);
    SplitWords(q, more);
    read, o, v := stage.Step(q, more);
    Rejoined(q, more, read);
    next' := DataRun(stage.Data(), q[read..] + more);
    nextVerdicts' := SumRun(stage.Message(), q[read..] + more);
  }

  /** How many calls are left until the packet is finished. */
  function Rank(writeLastOne: bool, computeCs: bool, state: nat): nat
    requires state <= 3
  {
    (if writeLastOne then 5 else 0) + if computeCs then 4 - state else 0
  }

  method Drop(stage: IcmpEcho.Dropper, q: seq<Word>, valids: seq<bool>, ghost more: seq<Word>,
              ghost moreValids: seq<bool>, ghost next: seq<Word>)
    returns (read: nat, n: nat, o: seq<Word>, ghost next': seq<Word>)
    requires DropLink(stage.Registers(), q + more, valids + moreValids, next)
    modifies stage
    ensures read <= |q| && n <= |valids| && next == o + next'
    ensures DropLink(stage.Registers(), q[read..] + more, valids[n..] + moreValids, next')
    ensures q != [] && (old(stage.d_isFirstWord) ==> valids != []) ==> read == 1
  {
    assert Opened(DROPPING);
    read, n, o := stage.Step(q, valids, more, moreValids);
    next' := IcmpEcho.DropRun(stage.Registers(), q[read..] + more, valids[n..] + moreValids);
  }

  method Insert(stage: IcmpEcho.InsertChecksum, q: seq<Word>, cs: seq<nat>, ghost more: seq<Word>,
                ghost moreCs: seq<nat>, ghost next: seq<Word>)
    returns (read: nat, readCs: nat, o: seq<Word>, ghost next': seq<Word>)
    requires InsertLink(stage.ic_wordCount, stage.streamSource, q + more, cs + moreCs, next)
    modifies stage
    ensures read <= |q| && readCs <= |cs| && next == o + next'
    ensures InsertLink(stage.ic_wordCount, stage.streamSource, q[read..] + more, cs[readCs..] + moreCs, next')
    ensures q != [] && (old(stage.ic_wordCount) == 2 ==> cs != []) ==> read == 1
  {
    assert Opened(INSERTING);
    SplitWords(q, more);
    NumberParts(cs, moreCs);
    if q == [] {
      read, readCs, o, next' := 0, 0, [], next;
      assert q[0..] == q && cs[0..] == cs && [] + next == next;
    } else {
      var source;
      source, read, readCs, o := stage.Step([q, []], [cs, []], more, moreCs);
      assert source == 0;
      Rejoined(q, more, read);
      next' := IcmpEcho.Inserted(stage.ic_wordCount, q[read..] + more, cs[readCs..] + moreCs);
    }
  }

  // The streams and registers of all stages.

  datatype Queues = Queues(dataIn: seq<Word>, turned: seq<Word>, valids: seq<bool>, checksums: seq<nat>,
                           kept: seq<Word>, out: seq<Word>)

  /** What will still be written to each stream. */
  datatype Later = Later(dataIn: seq<Word>, turned: seq<Word>, verdicts: Verdicts, kept: seq<Word>, out: seq<Word>)

  datatype Registers = Registers(data: DataRegs, message: SumRegs, drop: IcmpEcho.Regs, count: nat, source: nat)

  ghost predicate Network(q: Queues, l: Later, r: Registers, total: seq<Word>) {
    && CheckLink(r.data, r.message, q.dataIn + l.dataIn, l.turned, l.verdicts)
    && DropLink(r.drop, q.turned + l.turned, q.valids + l.verdicts.valids, l.kept)
    && InsertLink(r.count, r.source, q.kept + l.kept, q.checksums + l.verdicts.checksums, l.out)
    && q.out + l.out == total
  }

  /** The same, sealed. */
  ghost predicate Works(q: Queues, l: Later, r: Registers, total: seq<Word>) {
    forall k {:trigger Opened(k)} :: Opened(k) && k == NETWORK ==> Network(q, l, r, total)
  }

  lemma {:induction false} Links(q: Queues, l: Later, r: Registers, total: seq<Word>)
    requires Works(q, l, r, total)
    ensures CheckLink(r.data, r.message, q.dataIn + l.dataIn, l.turned, l.verdicts)
    ensures DropLink(r.drop, q.turned + l.turned, q.valids + l.verdicts.valids, l.kept)
    ensures InsertLink(r.count, r.source, q.kept + l.kept, q.checksums + l.verdicts.checksums, l.out)
  {
    assert Opened(NETWORK);
  }

  lemma {:induction false} AfterArrival(q: Queues, l: Later, r: Registers, total: seq<Word>)
    requires Works(q, l, r, total) && l.dataIn != []
    ensures Works(q.(dataIn := q.dataIn + [l.dataIn[0]]), l.(dataIn := l.dataIn[1..]), r, total)
  {
    assert Opened(NETWORK);
    Written(q.dataIn, l.dataIn, [l.dataIn[0]], l.dataIn[1..]);
  }

  lemma {:induction false} AfterCheck(q: Queues, l: Later, r: Registers, total: seq<Word>, n: nat, o: seq<Word>,
                                      v: Verdicts, next: seq<Word>, verdicts: Verdicts, data: DataRegs,
                                      message: SumRegs)
    requires Works(q, l, r, total) && n <= |q.dataIn| && l.turned == o + next && l.verdicts == v.Then(verdicts)
    requires CheckLink(data, message, q.dataIn[n..] + l.dataIn, next, verdicts)
    ensures Works(q.(dataIn := q.dataIn[n..], turned := q.turned + o, valids := q.valids + v.valids,
                     checksums := q.checksums + v.checksums),
                  l.(turned := next, verdicts := verdicts), r.(data := data, message := message), total)
  {
    assert Opened(NETWORK);
    Written(q.turned, l.turned, o, next);
    Written(q.valids, l.verdicts.valids, v.valids, verdicts.valids);
    Written(q.checksums, l.verdicts.checksums, v.checksums, verdicts.checksums);
  }

  lemma {:induction false} AfterDrop(q: Queues, l: Later, r: Registers, total: seq<Word>, n: nat, m: nat, o: seq<Word>,
                                     next: seq<Word>, drop: IcmpEcho.Regs)
    requires Works(q, l, r, total) && n <= |q.turned| && m <= |q.valids| && l.kept == o + next
    requires DropLink(drop, q.turned[n..] + l.turned, q.valids[m..] + l.verdicts.valids, next)
    ensures Works(q.(turned := q.turned[n..], valids := q.valids[m..], kept := q.kept + o), l.(kept := next),
                  r.(drop := drop), total)
  {
    assert Opened(NETWORK);
    Written(q.kept, l.kept, o, next);
  }

  lemma {:induction false} AfterInsert(q: Queues, l: Later, r: Registers, total: seq<Word>, n: nat, m: nat,
                                       o: seq<Word>, next: seq<Word>, count: nat, source: nat)
    requires Works(q, l, r, total) && n <= |q.kept| && m <= |q.checksums| && l.out == o + next
    requires InsertLink(count, source, q.kept[n..] + l.kept, q.checksums[m..] + l.verdicts.checksums, next)
    ensures Works(q.(kept := q.kept[n..], checksums := q.checksums[m..], out := q.out + o), l.(out := next),
                  r.(count := count, source := source), total)
  {
    assert Opened(NETWORK);
    Written(q.out, l.out, o, next);
  }

  /** What the stages, each run to its end, make of the words that arrive. */
  function Answered(words: seq<Word>): seq<Word>
    requires Lengths8(words)
  {
    IcmpEcho.ChecksumRange(SUM_START, words);
    IcmpEcho.Echo(DATA_START, SUM_START, words)
  }

  /** At the start everything is still to come. */
  lemma {:induction false} AtStart(words: seq<Word>) returns (l: Later)
    requires Lengths8(words)
    ensures l.dataIn == words
    ensures Works(Queues([], [], [], [], [], []), l, Registers(DATA_START, SUM_START, IcmpEcho.FIRST, 0, 0),
                  Answered(words))
  {
    var turned, verdicts := DataRun(DATA_START, words), SumRun(SUM_START, words);
    IcmpEcho.ChecksumRange(SUM_START, words);
    var kept := IcmpEcho.DropRun(IcmpEcho.FIRST, turned, verdicts.valids);
    l := Later(words, turned, verdicts, kept, IcmpEcho.Inserted(0, kept, verdicts.checksums));
    Nothing(l.dataIn);
    Nothing(l.turned);
    Nothing(l.verdicts.valids);
    Nothing(l.verdicts.checksums);
    Nothing(l.kept);
    Nothing(l.out);
  }

  /** When everything has arrived and nothing moves, everything has come out. */
  lemma {:induction false} AtEnd(q: Queues, l: Later, r: Registers, total: seq<Word>)
    requires Works(q, l, r, total) && l.dataIn == [] && q.dataIn == [] && !r.data.writeLastOne && !r.message.computeCs
    requires q.turned == [] || (r.drop.isFirstWord && q.valids == [])
    requires q.kept == [] || (r.count == 2 && q.checksums == [])
    ensures q.out == total
  {
    assert Opened(NETWORK);
    assert l.turned == [] && l.verdicts == NOTHING by { assert Opened(CHECKING); }
    assert l.kept == [] by { assert Opened(DROPPING); }
    assert l.out == [] by { assert Opened(INSERTING); }
  }

  class Responder {
    ghost const total: seq<Word>   // what has to come out
    const check: CheckIcmpChecksum
    const dropper: IcmpEcho.Dropper
    const insert: IcmpEcho.InsertChecksum
    var q: Queues
    ghost var later: Later

    ghost function Repr(): set<object> {
      {this, check, check.cics_sums, dropper, insert}
    }

    ghost predicate Valid()
      reads Repr()
    {
      check.Valid() && Works(q, later, State(), total)
    }

    ghost function State(): Registers
      requires check.Valid()
      reads this, check, check.cics_sums, dropper, insert
    {
      Registers.Registers(check.Data(), check.Message(), dropper.Registers(), insert.ic_wordCount, insert.streamSource)
    }

    constructor (ghost words: seq<Word>)
      requires Lengths8(words)
      ensures Valid() && fresh(Repr()) && later.dataIn == words && q.out == [] && total == Answered(words)
    {
      total := Answered(words);
      check := new CheckIcmpChecksum();
      dropper := new IcmpEcho.Dropper();
      insert := new IcmpEcho.InsertChecksum();
      q := Queues([], [], [], [], [], []);
      ghost var l := AtStart(words);
      later := l;
    }

    method Arrive(w: Word)
      requires Valid() && later.dataIn != [] && w == later.dataIn[0]
      modifies this
      ensures Valid() && later.dataIn == old(later.dataIn)[1..] && q.out == old(q.out)
    {
      AfterArrival(q, later, State(), total);
      q, later := q.(dataIn := q.dataIn + [w]), later.(dataIn := later.dataIn[1..]);
    }

    method CallCheck()
      requires Valid()
      modifies this, check, check.cics_sums
      ensures Valid() && later.dataIn == old(later.dataIn) && q.out == old(q.out)
      ensures old(CheckCanMove()) ==>
                || |q.dataIn| < old(|q.dataIn|)
                || (q.dataIn == old(q.dataIn)
                    && Rank(check.cics_writeLastOne, check.cics_computeCs, check.cics_state)
                       < old(Rank(check.cics_writeLastOne, check.cics_computeCs, check.cics_state)))
    {
      Links(q, later, State(), total);
      ghost var r, next, verdicts := State(), [], NOTHING;
      var n, o, v;
      n, o, v, next, verdicts := Check(check, q.dataIn, later.dataIn, later.turned, later.verdicts);
      AfterCheck(q, later, r, total, n, o, v, next, verdicts, check.Data(), check.Message());
      later := later.(turned := next, verdicts := verdicts);
      q := q.(dataIn := q.dataIn[n..], turned := q.turned + o, valids := q.valids + v.valids,
              checksums := q.checksums + v.checksums);
    }

    method CallDropper()
      requires Valid()
      modifies this, dropper
      ensures Valid() && later.dataIn == old(later.dataIn) && q.out == old(q.out) && q.dataIn == old(q.dataIn)
      ensures old(DropperCanMove()) ==> |q.turned| < old(|q.turned|)
    {
      Links(q, later, State(), total);
      ghost var r, next := State(), [];
      var n, m, o;
      n, m, o, next := Drop(dropper, q.turned, q.valids, later.turned, later.verdicts.valids, later.kept);
      AfterDrop(q, later, r, total, n, m, o, next, dropper.Registers());
      later := later.(kept := next);
      q := q.(turned := q.turned[n..], valids := q.valids[m..], kept := q.kept + o);
    }

    method CallInsert()
      requires Valid()
      modifies this, insert
      ensures Valid() && later.dataIn == old(later.dataIn) && old(q.out) <= q.out
      ensures q.dataIn == old(q.dataIn) && q.turned == old(q.turned)
      ensures old(InsertCanMove()) ==> |q.kept| < old(|q.kept|)
    {
      Links(q, later, State(), total);
      ghost var r, next := State(), [];
      var n, m, o;
      n, m, o, next := Insert(insert, q.kept, q.checksums, later.kept, later.verdicts.checksums, later.out);
      AfterInsert(q, later, r, total, n, m, o, next, insert.ic_wordCount, insert.streamSource);
      later := later.(out := next);
      q := q.(kept := q.kept[n..], checksums := q.checksums[m..], out := q.out + o);
    }

    predicate CheckCanMove()
      reads this, check
    {
      q.dataIn != [] || check.cics_writeLastOne || check.cics_computeCs
    }

    predicate DropperCanMove()
      reads this, dropper
    {
      q.turned != [] && (dropper.d_isFirstWord ==> q.valids != [])
    }

    predicate InsertCanMove()
      reads this, insert
    {
      q.kept != [] && (insert.ic_wordCount == 2 ==> q.checksums != [])
    }

    predicate CanMove()
      reads this, check, dropper, insert
    {
      CheckCanMove() || DropperCanMove() || InsertCanMove()
    }

    /** Calls until no stage can move. */
    method Settle()
      requires Valid()
      modifies Repr()
      ensures Valid() && !CanMove() && later.dataIn == old(later.dataIn) && old(q.out) <= q.out
    {
      while CanMove()
        invariant Valid() && later.dataIn == old(later.dataIn) && old(q.out) <= q.out
        decreases |q.dataIn|, Rank(check.cics_writeLastOne, check.cics_computeCs, check.cics_state), |q.turned|,
                  |q.kept|
      {
        if CheckCanMove() {
          CallCheck();
        } else if DropperCanMove() {
          CallDropper();
        } else {
          CallInsert();
        }
      }
    }
  }

  /** Whatever the schedule of arrivals and calls: once all words have arrived and the
      stages have been called until none of them can move, what has come out is what
      the stages, each run to its end, make of the words. */
  method Simulate(words: seq<Word>, schedule: seq<Call>) returns (early: seq<Word>, out: seq<Word>)
    requires Lengths8(words)
    ensures early <= out == Answered(words)
  {
    var r := new Responder(words);
    var n := 0;
    for i := 0 to |schedule|
      invariant r.Valid() && fresh(r.Repr()) && r.total == Answered(words)
      invariant n <= |words| && r.later.dataIn == words[n..]
    {
      match schedule[i] {
        case Arrive =>
          if n < |words| {
            r.Arrive(words[n]);
            n := n + 1;
          }
        case CallCheck => r.CallCheck();
        case CallDropper => r.CallDropper();
        case CallInsert => r.CallInsert();
      }
    }
    early := r.q.out;
    while n < |words|
      invariant r.Valid() && fresh(r.Repr()) && r.total == Answered(words)
      invariant n <= |words| && r.later.dataIn == words[n..] && r.q.out == early
    {
      r.Arrive(words[n]);
      n := n + 1;
    }
    r.Settle();
    AtEnd(r.q, r.later, r.State(), r.total);
    out := r.q.out;
  }

  /** Hence, of any sequence of packets, under every schedule: what comes out is what
      Answers says; it is the replies to the packets accepted, in order and nothing else,
      if and only if none of these that ends in its third word is followed by another
      one; and with packets of more than 24 bytes exactly the echo requests without error
      are answered. */
  method Respond(words: seq<Word>, schedule: seq<Call>, ghost ps: seq<seq<Byte>>) returns (out: seq<Word>)
    requires CarryAll(words, ps) && forall i :: 0 <= i < |ps| ==> 0 < |ps[i]| <= LONGEST
    ensures var wss := Divided(words, ps);
            IcmpEcho.AllEnough(wss, ps) &&
            var xs := IcmpEcho.Items(wss, ps);
            && IcmpEcho.AllValid(xs) && out == Concat(IcmpEcho.Answers(false, [], xs))
            && (out == Concat(IcmpEcho.Replies(xs)) <==> IcmpEcho.Aligned(xs))
            && (IcmpEcho.Aligned(xs) ==> CarryAll(out, IcmpEcho.ReplyPackets(wss, ps)))
    ensures (forall i :: 0 <= i < |ps| ==> |ps[i]| > 24) ==> CarryAll(out, Gather(ps, IcmpEcho.Answer))
  {
    Divide(words, ps);
    ghost var wss := Divided(words, ps);
    var _, all := Simulate(words, schedule);
    out := all;
    IcmpEcho.EchoesExactly(DATA_START, SUM_START, wss, ps);
    Together(IcmpEcho.Replies(IcmpEcho.Items(wss, ps)), IcmpEcho.ReplyPackets(wss, ps));
    if forall i :: 0 <= i < |ps| ==> |ps[i]| > 24 {
      IcmpEcho.LongIsAligned(wss, ps);
    }
  }
}
