/** The stages that send a packet, connected by streams, under every schedule. */
module IpSender {
  import opened Sealing
  import opened RxStream
  import opened PacketWords
  import opened StreamQueues
  import opened OnesComplement
  import FrameEncoder
  import IpChecksum

  type Mac = FrameEncoder.Mac
  type Reply = FrameEncoder.Reply

  datatype Call = Arrive | ArriveReply | CallSum | CallInsert | CallFrame

  // What each stage will write, given what it will read.

  ghost predicate SumLink(s: IpChecksum.Regs, ws: seq<Word>, passed: seq<Word>, next: seq<nat>) {
    forall k {:trigger Opened(k)} :: Opened(k) && k == SUMMING ==>
      Lengths8(ws) && passed == ws && IpChecksum.Run(s, ws) == next
  }

  ghost predicate InsertLink(count: nat, ws: seq<Word>, cs: seq<nat>, next: seq<Word>) {
    forall k {:trigger Opened(k)} :: Opened(k) && k == INSERTING ==>
      count <= 2 && Lengths8(ws) && Sixteen(cs) && IpChecksum.Inserted(count, ws, cs) == next
  }

  ghost predicate FrameLink(s: FrameEncoder.Regs, ws: seq<Word>, rs: seq<Reply>, my: Mac, next: seq<Word>) {
    forall k {:trigger Opened(k)} :: Opened(k) && k == FRAMING ==>
      Word8(s.prevWord) && Lengths8(ws) && FrameEncoder.Run(s, ws, rs, my) == next
  }

  const SUMMING: nat := 50
  const INSERTING: nat := 51
  const FRAMING: nat := 52
  const NETWORK: nat := 53

  // One call of each stage, given what waits and what is still to come.

  method Sum(stage: IpChecksum.ComputeIpChecksum, q: seq<Word>, ghost more: seq<Word>, ghost passed: seq<Word>,
             ghost next: seq<nat>)
    returns (read: nat, o: seq<nat>, ghost passed': seq<Word>, ghost next': seq<nat>)
    requires stage.cics_ip_sums.Length == 4 && stage.cics_state <= 3
    requires SumLink(stage.Registers(), q + more, passed, next)
    modifies stage, stage.cics_ip_sums
    ensures stage.cics_state <= 3 && read <= |q| && next == o + next' && passed == q[..read] + passed'
    ensures SumLink(stage.Registers(), q[read..] + more, passed', next')
    ensures if old(stage.cics_checksumWritten) then read == if q != [] then 1 else 0
            else read == 0 && Rank(stage.cics_checksumWritten, stage.cics_state)
                              < old(Rank(stage.cics_checksumWritten, stage.cics_state))
  {
    assert Opened(SUMMING);
    SplitWords(q, more);
    read, o := stage.Step(q, more);
    Rejoined(q, more, read);
    Passing(q, more, read);
    passed', next' := q[read..] + more, IpChecksum.Run(stage.Registers(), q[read..] + more);
  }

  lemma {:induction false} Passing(q: seq<Word>, more: seq<Word>, n: nat)
    requires n <= |q|
    ensures q[..n] + (q[n..] + more) == q + more
  {}

  /** How many calls are left until the checksum is finished. */
  function Rank(written: bool, state: nat): nat
    requires state <= 3
  {
    if written then 0 else 4 - state
  }

  method Insert(stage: IpChecksum.IpChecksumInsert, q: seq<Word>, cs: seq<nat>, ghost more: seq<Word>,
                ghost moreCs: seq<nat>, ghost next: seq<Word>)
    returns (read: nat, readCs: nat, o: seq<Word>, ghost next': seq<Word>)
    requires InsertLink(stage.ici_wordCount, q + more, cs + moreCs, next)
    modifies stage
    ensures read <= |q| && readCs <= |cs| && next == o + next'
    ensures InsertLink(stage.ici_wordCount, q[read..] + more, cs[readCs..] + moreCs, next')
    ensures q != [] && (old(stage.ici_wordCount) == 1 ==> cs != []) ==> read == 1
  {
    assert Opened(INSERTING);
    SplitWords(q, more);
    NumberParts(cs, moreCs);
    read, readCs, o := stage.Step(q, cs, more, moreCs);
    Rejoined(q, more, read);
    next' := IpChecksum.Inserted(stage.ici_wordCount, q[read..] + more, cs[readCs..] + moreCs);
  }

  method Frame(stage: FrameEncoder.HandleArpReply, q: seq<Word>, rs: seq<Reply>, my: Mac, ghost more: seq<Word>,
               ghost moreReplies: seq<Reply>, ghost next: seq<Word>)
    returns (read: nat, readReplies: nat, o: seq<Word>, ghost next': seq<Word>)
    requires FrameLink(stage.Registers(), q + more, rs + moreReplies, my, next)
    modifies stage
    ensures read <= |q| && readReplies <= |rs| && next == o + next'
    ensures FrameLink(stage.Registers(), q[read..] + more, rs[readReplies..] + moreReplies, my, next')
    ensures if old(stage.mw_writeLast) then read == readReplies == 0 && !stage.mw_writeLast
            else if old(stage.mw_state) == FrameEncoder.WAIT_LOOKUP then
              read == 0 && readReplies == if rs != [] then 1 else 0
            else readReplies == 0 && read == if q != [] then 1 else 0
  {
    assert Opened(FRAMING);
    SplitWords(q, more);
    read, readReplies, o := stage.Step(q, rs, my, more, moreReplies);
    Rejoined(q, more, read);
    next' := FrameEncoder.Run(stage.Registers(), q[read..] + more, rs[readReplies..] + moreReplies, my);
  }

  // The streams and registers of all stages.

  datatype Queues = Queues(dataIn: seq<Word>, passed: seq<Word>, checksums: seq<nat>, filled: seq<Word>,
                           replies: seq<Reply>, out: seq<Word>)

  /** What will still be written to each stream. */
  datatype Later = Later(dataIn: seq<Word>, passed: seq<Word>, checksums: seq<nat>, filled: seq<Word>,
                         replies: seq<Reply>, out: seq<Word>)

  datatype Registers = Registers(sums: IpChecksum.Regs, count: nat, frame: FrameEncoder.Regs)

  ghost predicate Network(q: Queues, l: Later, r: Registers, my: Mac, total: seq<Word>) {
    && SumLink(r.sums, q.dataIn + l.dataIn, l.passed, l.checksums)
    && InsertLink(r.count, q.passed + l.passed, q.checksums + l.checksums, l.filled)
    && FrameLink(r.frame, q.filled + l.filled, q.replies + l.replies, my, l.out)
    && q.out + l.out == total
  }

  /** The same, sealed. */
  ghost predicate Works(q: Queues, l: Later, r: Registers, my: Mac, total: seq<Word>) {
    forall k {:trigger Opened(k)} :: Opened(k) && k == NETWORK ==> Network(q, l, r, my, total)
  }

  lemma {:induction false} Links(q: Queues, l: Later, r: Registers, my: Mac, total: seq<Word>)
    requires Works(q, l, r, my, total)
    ensures SumLink(r.sums, q.dataIn + l.dataIn, l.passed, l.checksums)
    ensures InsertLink(r.count, q.passed + l.passed, q.checksums + l.checksums, l.filled)
    ensures FrameLink(r.frame, q.filled + l.filled, q.replies + l.replies, my, l.out)
  {
    assert Opened(NETWORK);
  }

  lemma {:induction false} AfterArrival(q: Queues, l: Later, r: Registers, my: Mac, total: seq<Word>)
    requires Works(q, l, r, my, total) && l.dataIn != []
    ensures Works(q.(dataIn := q.dataIn + [l.dataIn[0]]), l.(dataIn := l.dataIn[1..]), r, my, total)
  {
    assert Opened(NETWORK);
    Written(q.dataIn, l.dataIn, [l.dataIn[0]], l.dataIn[1..]);
  }

  lemma {:induction false} AfterReply(q: Queues, l: Later, r: Registers, my: Mac, total: seq<Word>)
    requires Works(q, l, r, my, total) && l.replies != []
    ensures Works(q.(replies := q.replies + [l.replies[0]]), l.(replies := l.replies[1..]), r, my, total)
  {
    assert Opened(NETWORK);
    Written(q.replies, l.replies, [l.replies[0]], l.replies[1..]);
  }

  lemma {:induction false} AfterSum(q: Queues, l: Later, r: Registers, my: Mac, total: seq<Word>, n: nat, o: seq<nat>,
                                    passed: seq<Word>, next: seq<nat>, sums: IpChecksum.Regs)
    requires Works(q, l, r, my, total) && n <= |q.dataIn|
    requires l.checksums == o + next && l.passed == q.dataIn[..n] + passed
    requires SumLink(sums, q.dataIn[n..] + l.dataIn, passed, next)
    ensures Works(q.(dataIn := q.dataIn[n..], passed := q.passed + q.dataIn[..n], checksums := q.checksums + o),
                  l.(passed := passed, checksums := next), r.(sums := sums), my, total)
  {
    assert Opened(NETWORK);
    Written(q.passed, l.passed, q.dataIn[..n], passed);
    Written(q.checksums, l.checksums, o, next);
  }

  lemma {:induction false} AfterInsert(q: Queues, l: Later, r: Registers, my: Mac, total: seq<Word>, n: nat, m: nat,
                                       o: seq<Word>, next: seq<Word>, count: nat)
    requires Works(q, l, r, my, total) && n <= |q.passed| && m <= |q.checksums| && l.filled == o + next
    requires InsertLink(count, q.passed[n..] + l.passed, q.checksums[m..] + l.checksums, next)
    ensures Works(q.(passed := q.passed[n..], checksums := q.checksums[m..], filled := q.filled + o),
                  l.(filled := next), r.(count := count), my, total)
  {
    assert Opened(NETWORK);
    Written(q.filled, l.filled, o, next);
  }

  lemma {:induction false} AfterFrame(q: Queues, l: Later, r: Registers, my: Mac, total: seq<Word>, n: nat, m: nat,
                                      o: seq<Word>, next: seq<Word>, frame: FrameEncoder.Regs)
    requires Works(q, l, r, my, total) && n <= |q.filled| && m <= |q.replies| && l.out == o + next
    requires FrameLink(frame, q.filled[n..] + l.filled, q.replies[m..] + l.replies, my, next)
    ensures Works(q.(filled := q.filled[n..], replies := q.replies[m..], out := q.out + o), l.(out := next),
                  r.(frame := frame), my, total)
  {
    assert Opened(NETWORK);
    Written(q.out, l.out, o, next);
  }

  /** At the start everything is still to come. */
  lemma {:induction false} AtStart(words: seq<Word>, replies: seq<Reply>, my: Mac) returns (l: Later)
    requires Lengths8(words)
    ensures l.dataIn == words && l.replies == replies
    ensures Works(Queues([], [], [], [], [], []), l, Registers(IpChecksum.IDLE, 0, FrameEncoder.FRAME_START), my,
                  Sent(words, replies, my))
  {
    var checksums := IpChecksum.Run(IpChecksum.IDLE, words);
    var filled := IpChecksum.Inserted(0, words, checksums);
    var frames := FrameEncoder.Run(FrameEncoder.FRAME_START, filled, replies, my);
    l := Later(words, words, checksums, filled, replies, frames);
    Nothing(l.dataIn);
    Nothing(l.checksums);
    Nothing(l.filled);
    Nothing(l.replies);
    Nothing(l.out);
  }

  /** What the stages, each run to its end, make of the words and replies that
      arrive. */
  function Sent(words: seq<Word>, replies: seq<Reply>, my: Mac): seq<Word>
    requires Lengths8(words)
  {
    var checksums := IpChecksum.Run(IpChecksum.IDLE, words);
    FrameEncoder.Run(FrameEncoder.FRAME_START, IpChecksum.Inserted(0, words, checksums), replies, my)
  }

  /** When everything has arrived and nothing moves, everything has come out. */
  lemma {:induction false} AtEnd(q: Queues, l: Later, r: Registers, my: Mac, total: seq<Word>)
    requires Works(q, l, r, my, total) && l.dataIn == [] && l.replies == []
    requires q.dataIn == [] && r.sums.checksumWritten
    requires q.passed == [] || (r.count == 1 && q.checksums == [])
    requires !r.frame.writeLast
    requires if r.frame.state == FrameEncoder.WAIT_LOOKUP then q.replies == [] else q.filled == []
    ensures q.out == total
  {
    assert Opened(NETWORK);
    assert l.passed == [] && l.checksums == [] by { assert Opened(SUMMING); }
    assert l.filled == [] by { assert Opened(INSERTING); }
    assert l.out == [] by { assert Opened(FRAMING); }
  }

  class Sender {
    const my: Mac
    ghost const total: seq<Word>   // what has to come out
    const sum: IpChecksum.ComputeIpChecksum
    const insert: IpChecksum.IpChecksumInsert
    const frame: FrameEncoder.HandleArpReply
    var q: Queues
    ghost var later: Later

    ghost function Repr(): set<object> {
      {this, sum, sum.cics_ip_sums, insert, frame}
    }

    ghost predicate Valid()
      reads Repr()
    {
      sum.cics_ip_sums.Length == 4 && sum.cics_state <= 3 && Works(q, later, State(), my, total)
    }

    ghost function State(): Registers
      requires sum.cics_ip_sums.Length == 4
      reads this, sum, sum.cics_ip_sums, insert, frame
    {
      Registers.Registers(sum.Registers(), insert.ici_wordCount, frame.Registers())
    }

    constructor (ghost words: seq<Word>, ghost replies: seq<Reply>, my: Mac)
      requires Lengths8(words)
      ensures Valid() && fresh(Repr()) && later.dataIn == words && later.replies == replies && q.out == []
      ensures total == Sent(words, replies, my) && this.my == my
    {
      this.my, total := my, Sent(words, replies, my);
      sum := new IpChecksum.ComputeIpChecksum();
      insert := new IpChecksum.IpChecksumInsert();
      frame := new FrameEncoder.HandleArpReply();
      q := Queues([], [], [], [], [], []);
      ghost var l := AtStart(words, replies, my);
      later := l;
    }

    method Arrive(w: Word)
      requires Valid() && later.dataIn != [] && w == later.dataIn[0]
      modifies this
      ensures Valid() && q.out == old(q.out)
      ensures later.dataIn == old(later.dataIn)[1..] && later.replies == old(later.replies)
    {
      AfterArrival(q, later, State(), my, total);
      q, later := q.(dataIn := q.dataIn + [w]), later.(dataIn := later.dataIn[1..]);
    }

    method ArriveReply(reply: Reply)
      requires Valid() && later.replies != [] && reply == later.replies[0]
      modifies this
      ensures Valid() && q.out == old(q.out)
      ensures later.dataIn == old(later.dataIn) && later.replies == old(later.replies)[1..]
    {
      AfterReply(q, later, State(), my, total);
      q, later := q.(replies := q.replies + [reply]), later.(replies := later.replies[1..]);
    }

    method CallSum()
      requires Valid()
      modifies this, sum, sum.cics_ip_sums
      ensures Valid() && later.dataIn == old(later.dataIn) && later.replies == old(later.replies)
      ensures old(q.out) <= q.out
      ensures old(SumCanMove()) ==>
                || |q.dataIn| < old(|q.dataIn|)
                || (q.dataIn == old(q.dataIn) && Rank(sum.cics_checksumWritten, sum.cics_state)
                                                 < old(Rank(sum.cics_checksumWritten, sum.cics_state)))
    {
      Links(q, later, State(), my, total);
      ghost var r, passed, next := State(), [], [];
      var n, o;
      n, o, passed, next := Sum(sum, q.dataIn, later.dataIn, later.passed, later.checksums);
      AfterSum(q, later, r, my, total, n, o, passed, next, sum.Registers());
      later := later.(passed := passed, checksums := next);
      q := q.(dataIn := q.dataIn[n..], passed := q.passed + q.dataIn[..n], checksums := q.checksums + o);
    }

    method CallInsert()
      requires Valid()
      modifies this, insert
      ensures Valid() && later.dataIn == old(later.dataIn) && later.replies == old(later.replies)
      ensures old(q.out) <= q.out && q.dataIn == old(q.dataIn)
      ensures old(InsertCanMove()) ==> |q.passed| < old(|q.passed|)
    {
      Links(q, later, State(), my, total);
      ghost var r, next := State(), [];
      var n, m, o;
      n, m, o, next := Insert(insert, q.passed, q.checksums, later.passed, later.checksums, later.filled);
      AfterInsert(q, later, r, my, total, n, m, o, next, insert.ici_wordCount);
      later := later.(filled := next);
      q := q.(passed := q.passed[n..], checksums := q.checksums[m..], filled := q.filled + o);
    }

    method CallFrame()
      requires Valid()
      modifies this, frame
      ensures Valid() && later.dataIn == old(later.dataIn) && later.replies == old(later.replies)
      ensures old(q.out) <= q.out && q.dataIn == old(q.dataIn) && q.passed == old(q.passed)
      ensures old(FrameCanMove()) ==>
                || |q.replies| < old(|q.replies|)
                || (q.replies == old(q.replies)
                    && (|q.filled| < old(|q.filled|)
                        || (q.filled == old(q.filled) && old(frame.mw_writeLast) && !frame.mw_writeLast)))
    {
      Links(q, later, State(), my, total);
      ghost var r, next := State(), [];
      var n, m, o;
      n, m, o, next := Frame(frame, q.filled, q.replies, my, later.filled, later.replies, later.out);
      AfterFrame(q, later, r, my, total, n, m, o, next, frame.Registers());
      later := later.(out := next);
      q := q.(filled := q.filled[n..], replies := q.replies[m..], out := q.out + o);
    }

    predicate SumCanMove()
      reads this, sum
    {
      q.dataIn != [] || !sum.cics_checksumWritten
    }

    predicate InsertCanMove()
      reads this, insert
    {
      q.passed != [] && (insert.ici_wordCount == 1 ==> q.checksums != [])
    }

    predicate FrameCanMove()
      reads this, frame
    {
      || frame.mw_writeLast
      || if frame.mw_state == FrameEncoder.WAIT_LOOKUP then q.replies != [] else q.filled != []
    }

    predicate CanMove()
      reads this, sum, insert, frame
    {
      SumCanMove() || InsertCanMove() || FrameCanMove()
    }

    /** Calls until no stage can move. */
    method Settle()
      requires Valid()
      modifies Repr()
      ensures Valid() && !CanMove() && later.dataIn == old(later.dataIn) && later.replies == old(later.replies)
      ensures old(q.out) <= q.out
    {
      while CanMove()
        invariant Valid() && later.dataIn == old(later.dataIn) && later.replies == old(later.replies)
        invariant old(q.out) <= q.out
        decreases |q.dataIn|, Rank(sum.cics_checksumWritten, sum.cics_state), |q.passed|, |q.replies|, |q.filled|,
                  if frame.mw_writeLast then 1 else 0
      {
        if SumCanMove() {
          CallSum();
        } else if InsertCanMove() {
          CallInsert();
        } else {
          CallFrame();
        }
      }
    }
  }

  /** Whatever the schedule of arrivals and calls: once all words and replies have
      arrived and the stages have been called until none of them can move, what has
      come out is what the stages, each run to its end, make of them. */
  method Simulate(words: seq<Word>, replies: seq<Reply>, schedule: seq<Call>, my: Mac)
    returns (early: seq<Word>, out: seq<Word>)
    requires Lengths8(words)
    ensures early <= out == Sent(words, replies, my)
  {
    var s := new Sender(words, replies, my);
    var n, m := 0, 0;
    for i := 0 to |schedule|
      invariant s.Valid() && fresh(s.Repr()) && s.total == Sent(words, replies, my)
      invariant n <= |words| && m <= |replies| && s.later.dataIn == words[n..] && s.later.replies == replies[m..]
    {
      match schedule[i] {
        case Arrive =>
          if n < |words| {
            s.Arrive(words[n]);
            n := n + 1;
          }
        case ArriveReply =>
          if m < |replies| {
            s.ArriveReply(replies[m]);
            m := m + 1;
          }
        case CallSum => s.CallSum();
        case CallInsert => s.CallInsert();
        case CallFrame => s.CallFrame();
      }
    }
    early := s.q.out;
    while n < |words| || m < |replies|
      invariant s.Valid() && fresh(s.Repr()) && s.total == Sent(words, replies, my) && s.q.out == early
      invariant n <= |words| && m <= |replies| && s.later.dataIn == words[n..] && s.later.replies == replies[m..]
      decreases |words| - n + |replies| - m
    {
      if n < |words| {
        s.Arrive(words[n]);
        n := n + 1;
      } else {
        s.ArriveReply(replies[m]);
        m := m + 1;
      }
    }
    s.Settle();
    AtEnd(s.q, s.later, s.State(), s.my, s.total);
    out := s.q.out;
  }
}

/** Packets sent over the wire and received. */
module IpRoundTrip {
  import opened Arith
  import opened Sealing
  import opened RxStream
  import opened PacketWords
  import opened OnesComplement
  import opened IpStrip
  import FrameEncoder
  import IpChecksum
  import IpHandler
  import IpPath
  import IpReceiver
  import IpSender
  import LengthCutter
  import LengthFilter
  import MacFilter

  type Mac = FrameEncoder.Mac
  type Reply = FrameEncoder.Reply
  type Packet = seq<Byte>

  ghost predicate ArePackets(ps: seq<Packet>) {
    forall i :: 0 <= i < |ps| ==> IpChecksum.IsIpPacket(ps[i])
  }

  function Checksums(ps: seq<Packet>): (cs: seq<nat>)
    requires ArePackets(ps)
    ensures |cs| == |ps| && forall i :: 0 <= i < |cs| ==> cs[i] <= MAX
  {
    seq(|ps|, i requires 0 <= i < |ps| => IpChecksum.Checksum(ps[i]))
  }

  /** The packets with their checksums filled in. */
  function Filleds(ps: seq<Packet>): (qs: seq<Packet>)
    requires ArePackets(ps)
    ensures |qs| == |ps| && forall i :: 0 <= i < |ps| ==> |qs[i]| == |ps[i]|
  {
    seq(|ps|, i requires 0 <= i < |ps| => IpChecksum.Filled(ps[i], IpChecksum.Checksum(ps[i])))
  }

  /** The packets whose destination has been found. */
  function Found(qs: seq<Packet>, rs: seq<Reply>): seq<Packet>
    requires |qs| == |rs|
  {
    if qs == [] then [] else (if rs[0].hit then [qs[0]] else []) + Found(qs[1..], rs[1..])
  }

  /** And their frames. */
  function Frames(qs: seq<Packet>, rs: seq<Reply>, src: Mac): seq<seq<Byte>>
    requires |qs| == |rs|
  {
    if qs == [] then []
    else
      (if rs[0].hit then [FrameEncoder.Frame(rs[0].macAddress, src, qs[0])] else []) + Frames(qs[1..], rs[1..], src)
  }

  lemma {:induction false} SumsAll(wss: seq<seq<Word>>, ps: seq<Packet>)
    requires Carry(wss, ps) && ArePackets(ps)
    ensures Lengths8(Concat(wss)) && IpChecksum.Run(IpChecksum.IDLE, Concat(wss)) == Checksums(ps)
  {
    AllLengths(wss, ps);
    if ps != [] {
      SumsAll(wss[1..], ps[1..]);
      IpChecksum.ChecksumOfPacket(wss[0], ps[0], Concat(wss[1..]));
      assert Checksums(ps) == [IpChecksum.Checksum(ps[0])] + Checksums(ps[1..]);
    }
  }

  lemma {:induction false} PacketBefore(ws: seq<Word>, p: Packet, wss: seq<seq<Word>>, ps: seq<Packet>)
    requires IsPacket(ws, p) && Carry(wss, ps)
    ensures Carry([ws] + wss, [p] + ps) && Concat([ws] + wss) == ws + Concat(wss)
  {
    assert ([ws] + wss)[1..] == wss;
  }

  lemma {:induction false} FillsAll(wss: seq<seq<Word>>, ps: seq<Packet>) returns (filled: seq<seq<Word>>)
    requires Carry(wss, ps) && ArePackets(ps)
    ensures Lengths8(Concat(wss)) && Carry(filled, Filleds(ps))
    ensures IpChecksum.Inserted(0, Concat(wss), Checksums(ps)) == Concat(filled)
  {
    AllLengths(wss, ps);
    if ps == [] {
      filled := [];
    } else {
      var c, p := IpChecksum.Checksum(ps[0]), ps[0];
      var others := FillsAll(wss[1..], ps[1..]);
      var one := IpChecksum.InsertsInto(wss[0], p, Concat(wss[1..]), c, Checksums(ps[1..]));
      FilledsTail(ps);
      ChecksumsTail(ps);
      filled := [one] + others;
      PacketBefore(one, IpChecksum.Filled(p, c), others, Filleds(ps[1..]));
    }
  }

  lemma {:induction false} FramesAll(s: FrameEncoder.Regs, wss: seq<seq<Word>>, qs: seq<Packet>, rs: seq<Reply>,
                                     src: Mac)
    returns (frames: seq<seq<Word>>)
    requires Carry(wss, qs) && |rs| == |qs| && FrameEncoder.Idle(s) && forall i :: 0 <= i < |qs| ==> |qs[i]| >= 3
    ensures Lengths8(Concat(wss)) && Carry(frames, Frames(qs, rs, src))
    ensures FrameEncoder.Run(s, Concat(wss), rs, src) == Concat(frames)
    decreases |qs|
  {
    AllLengths(wss, qs);
    if qs == [] {
      frames := [];
    } else {
      var more := Concat(wss[1..]);
      AllLengths(wss[1..], qs[1..]);
      assert rs == [rs[0]] + rs[1..];
      if rs[0].hit {
        var one, s' := FrameEncoder.Encodes(s, wss[0], qs[0], more, rs[0].macAddress, rs[1..], src);
        var others := FramesAll(s', wss[1..], qs[1..], rs[1..], src);
        frames := [one] + others;
        assert frames[1..] == others;
      } else {
        FrameEncoder.Drops(s, wss[0], qs[0], more, rs[0].macAddress, rs[1..], src);
        frames := FramesAll(s, wss[1..], qs[1..], rs[1..], src);
      }
    }
  }

  /** Over any sequence of packets: those whose destination has been found leave, in
      order, each in its Ethernet frame and with its checksum filled in; the others are
      dropped. */
  lemma {:induction false} SendsExactly(wss: seq<seq<Word>>, ps: seq<Packet>, rs: seq<Reply>, src: Mac)
    returns (frames: seq<seq<Word>>)
    requires Carry(wss, ps) && ArePackets(ps) && |rs| == |ps|
    ensures Lengths8(Concat(wss)) && Carry(frames, Frames(Filleds(ps), rs, src))
    ensures IpSender.Sent(Concat(wss), rs, src) == Concat(frames)
  {
    SumsAll(wss, ps);
    var filled := FillsAll(wss, ps);
    frames := FramesAll(FrameEncoder.FRAME_START, filled, Filleds(ps), rs, src);
  }

  /** Packets for the receiver, of which it takes frames of that length, and whose
      destination, if it has been found, is the receiver. */
  ghost predicate ForReceiver(ps: seq<Packet>, rs: seq<Reply>, mac: Mac, my: Ip) {
    && |ps| == |rs|
    && (forall i :: 0 <= i < |ps| ==> IpPath.Plain(ps[i], my) && |ps[i]| <= LengthFilter.MAX_DATAGRAM_SIZE)
    && (forall i :: 0 <= i < |rs| && rs[i].hit ==> rs[i].macAddress == mac)
  }

  /** The frames pass every filter, and hold the packets. */
  ghost predicate Arriving(fs: seq<seq<Byte>>, qs: seq<Packet>, mac: Mac, my: Ip) {
    forall k {:trigger Opened(k)} :: Opened(k) && k == ARRIVING ==>
    && (forall i :: 0 <= i < |fs| ==> |fs[i]| > 17 && IsJudged(fs[i]))
    && IpHandler.Passing(fs, mac) == fs && IpPath.Accepted(fs, my) == qs
    && (forall i :: 0 <= i < |qs| ==> Whole(qs[i]))
  }

  /** The same of one frame. */
  ghost predicate Arrives(f: seq<Byte>, q: Packet, mac: Mac, my: Ip) {
    |f| > 17 && IsJudged(f) && IpHandler.Passes(f, mac) && IpPath.Accepts(f, my) && f[14..] == q && Whole(q)
  }

  lemma {:induction false} OneArrives(f: seq<Byte>, q: Packet, fs: seq<seq<Byte>>, qs: seq<Packet>, mac: Mac, my: Ip)
    requires Arrives(f, q, mac, my) && Arriving(fs, qs, mac, my)
    ensures Arriving([f] + fs, [q] + qs, mac, my)
  {
    assert Opened(ARRIVING);
    assert ([f] + fs)[1..] == fs;
  }

  ghost predicate IfFound(q: Packet, r: Reply, src: Mac, mac: Mac, my: Ip) {
    forall k {:trigger Opened(k)} :: Opened(k) && k == FOUND ==>
      (r.hit ==> Arrives(FrameEncoder.Frame(r.macAddress, src, q), q, mac, my))
  }

  const FOUND: nat := 54
  const ARRIVING: nat := 55

  /** The first packet, and the others. */
  lemma {:induction false} FramesHead(qs: seq<Packet>, rs: seq<Reply>, src: Mac)
    requires |qs| == |rs| > 0
    ensures Frames(qs, rs, src)
            == if !rs[0].hit then Frames(qs[1..], rs[1..], src)
               else [FrameEncoder.Frame(rs[0].macAddress, src, qs[0])] + Frames(qs[1..], rs[1..], src)
    ensures Found(qs, rs) == if !rs[0].hit then Found(qs[1..], rs[1..]) else [qs[0]] + Found(qs[1..], rs[1..])
  {
    assert [] + Frames(qs[1..], rs[1..], src) == Frames(qs[1..], rs[1..], src);
    assert [] + Found(qs[1..], rs[1..]) == Found(qs[1..], rs[1..]);
  }

  lemma {:induction false} AllArrive(qs: seq<Packet>, rs: seq<Reply>, src: Mac, mac: Mac, my: Ip)
    requires |qs| == |rs| && forall i :: 0 <= i < |qs| ==> IfFound(qs[i], rs[i], src, mac, my)
    ensures Arriving(Frames(qs, rs, src), Found(qs, rs), mac, my)
  {
    if qs != [] {
      assert IfFound(qs[0], rs[0], src, mac, my);
      forall i | 0 <= i < |qs| - 1 ensures IfFound(qs[1..][i], rs[1..][i], src, mac, my) {
        assert IfFound(qs[i + 1], rs[i + 1], src, mac, my);
      }
      AllArrive(qs[1..], rs[1..], src, mac, my);
      FramesHead(qs, rs, src);
      if rs[0].hit {
        assert Opened(FOUND);
        OneArrives(FrameEncoder.Frame(rs[0].macAddress, src, qs[0]), qs[0], Frames(qs[1..], rs[1..], src),
                   Found(qs[1..], rs[1..]), mac, my);
      }
    }
  }

  /** So it is with packets for the receiver. */
  lemma {:induction false} FramesPass(ps: seq<Packet>, rs: seq<Reply>, src: Mac, mac: Mac, my: Ip)
    requires ForReceiver(ps, rs, mac, my)
    ensures ArePackets(ps) && Arriving(Frames(Filleds(ps), rs, src), Found(Filleds(ps), rs), mac, my)
  {
    PlainPackets(ps, my);
    forall i | 0 <= i < |ps| ensures IfFound(Filleds(ps)[i], rs[i], src, mac, my) {
      FramePasses(ps[i], src, mac, my);
    }
    AllArrive(Filleds(ps), rs, src, mac, my);
  }

  lemma {:induction false} PlainPackets(ps: seq<Packet>, my: Ip)
    requires forall i :: 0 <= i < |ps| ==> IpPath.Plain(ps[i], my)
    ensures ArePackets(ps)
  {
    forall i | 0 <= i < |ps| ensures IpChecksum.IsIpPacket(ps[i]) {
      assert IpPath.Plain(ps[i], my);
    }
  }

  lemma {:induction false} FilledsTail(ps: seq<Packet>)
    requires ArePackets(ps) && ps != []
    ensures ArePackets(ps[1..]) && Filleds(ps)[1..] == Filleds(ps[1..])
    ensures Filleds(ps) == [IpChecksum.Filled(ps[0], IpChecksum.Checksum(ps[0]))] + Filleds(ps[1..])
  {}

  lemma {:induction false} ChecksumsTail(ps: seq<Packet>)
    requires ArePackets(ps) && ps != []
    ensures ArePackets(ps[1..]) && Checksums(ps)[1..] == Checksums(ps[1..])
    ensures Checksums(ps) == [IpChecksum.Checksum(ps[0])] + Checksums(ps[1..])
  {}

  /** The total length is that of the packet. */
  ghost predicate Whole(q: Packet) {
    |q| >= 20 && LengthCutter.TotalLength(q) == |q|
  }

  lemma {:induction false} FramePasses(p: Packet, src: Mac, mac: Mac, my: Ip)
    requires IpPath.Plain(p, my) && |p| <= LengthFilter.MAX_DATAGRAM_SIZE
    ensures var q := IpChecksum.Filled(p, IpChecksum.Checksum(p));
            var f := FrameEncoder.Frame(mac, src, q);
            Arrives(f, q, mac, my)
  {
    var q := IpChecksum.Filled(p, IpChecksum.Checksum(p));
    var f := FrameEncoder.Frame(mac, src, q);
    assert f + [] == f && q + [] == q;
    IpPath.ComesBack(p, mac, src, [], my);
    IpHandler.SentFramePasses(p, src, [], mac, my);
  }

  /** What is sent to the receiver arrives there: the packets whose destination has
      been found, in order, with their checksums filled in, and nothing else. */
  lemma {:induction false} ArrivesAsSent(wss: seq<seq<Word>>, ps: seq<Packet>, rs: seq<Reply>, src: Mac, mac: Mac,
                                         my: Ip)
    returns (outs: seq<seq<Word>>)
    requires Carry(wss, ps) && ForReceiver(ps, rs, mac, my)
    ensures ArePackets(ps) && Lengths8(Concat(wss)) && Lengths8(IpSender.Sent(Concat(wss), rs, src))
    ensures IpReceiver.Handled(IpSender.Sent(Concat(wss), rs, src), mac, my) == Concat(outs)
    ensures Carry(outs, Found(Filleds(ps), rs))
  {
    FramesPass(ps, rs, src, mac, my);
    var frames := SendsExactly(wss, ps, rs, src);
    AllLengths(frames, Frames(Filleds(ps), rs, src));
    outs := Arrive(frames, Frames(Filleds(ps), rs, src), Found(Filleds(ps), rs), mac, my);
  }

  lemma {:induction false} Arrive(frames: seq<seq<Word>>, fs: seq<seq<Byte>>, qs: seq<Packet>, mac: Mac, my: Ip)
    returns (outs: seq<seq<Word>>)
    requires Carry(frames, fs) && Arriving(fs, qs, mac, my)
    ensures Lengths8(Concat(frames)) && IpReceiver.Handled(Concat(frames), mac, my) == Concat(outs) && Carry(outs, qs)
  {
    assert Opened(ARRIVING);
    AllLengths(frames, fs);
    var kept;
    outs, kept := IpHandler.HandlesExactly(MacFilter.START, LengthFilter.START, DATA_START, FLAG_START,
                                           LengthCutter.START, frames, fs, mac, my);
    forall i | 0 <= i < |outs| ensures IsPacket(outs[i], qs[i]) {
      assert Whole(qs[i]) && qs[i][..LengthCutter.TotalLength(qs[i])] == qs[i];
    }
  }

  /** The same of the stages, each end under its own schedule. */
  method SendAndReceive(words: seq<Word>, replies: seq<Reply>, sending: seq<IpSender.Call>,
                        receiving: seq<IpReceiver.Call>, src: Mac, mac: Mac, my: Ip, ghost ps: seq<Packet>)
    returns (out: seq<Word>)
    requires CarryAll(words, ps) && ForReceiver(ps, replies, mac, my)
    ensures ArePackets(ps) && CarryAll(out, Found(Filleds(ps), replies))
  {
    Divide(words, ps);
    ghost var wss := Divided(words, ps);
    ghost var outs := ArrivesAsSent(wss, ps, replies, src, mac, my);
    Together(outs, Found(Filleds(ps), replies));
    var _, sent := IpSender.Simulate(words, replies, sending, src);
    var _, received := IpReceiver.Simulate(sent, receiving, mac, my);
    out := received;
  }
}
