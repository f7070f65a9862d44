/** handle_arp_reply: the Ethernet header put before a packet (Frame Format of
    RFC 894). */
module FrameEncoder {
  import opened Arith
  import opened Sealing
  import opened RxStream
  import opened PacketWords

  /** An address in the order of transmission. */
  type Mac = m: seq<Byte> | |m| == 6 witness [0, 0, 0, 0, 0, 0]

  datatype Reply = Reply(hit: bool, macAddress: Mac)

  datatype MwState = WAIT_LOOKUP | DROP | WRITE_FIRST | WRITE

  datatype Regs = Regs(state: MwState, prevWord: Word, writeLast: bool)

  const FRAME_START: Regs := Regs(WAIT_LOOKUP, Word([0, 0, 0, 0, 0, 0, 0, 0], Low(0), false), false)

  predicate Idle(s: Regs) {
    s.state == WAIT_LOOKUP && !s.writeLast && |s.prevWord.data| == 8 && |s.prevWord.keep| == 8
  }

  /** The last word, when the final bytes did not fit the one before. */
  function LastWord(prev: Word): Word
    requires |prev.data| == 8 && |prev.keep| == 8
  {
    Word(prev.data[2..] + [0, 0], prev.keep[2..] + [false, false], true)
  }

  function FirstOut(w: Word, my: Mac): Word
    requires |w.data| == 8
  {
    Word(my[2..] + [8, 0] + w.data[..2], Low(8), false)
  }

  function NextOut(prev: Word, w: Word): Word
    requires |prev.data| == 8 && |prev.keep| == 8 && |w.data| == 8 && |w.keep| == 8
  {
    Word(prev.data[2..] + w.data[..2], prev.keep[2..] + w.keep[..2], !w.keep[2])
  }

  /** Does the machine read a word in this state? */
  predicate Reads(s: Regs) {
    !s.writeLast && s.state != WAIT_LOOKUP
  }

  function Out(s: Regs, w: Word, my: Mac): seq<Word>
    requires Reads(s) && |s.prevWord.data| == 8 && |s.prevWord.keep| == 8 && |w.data| == 8 && |w.keep| == 8
  {
    if s.state == WRITE_FIRST then [FirstOut(w, my)]
    else if s.state == WRITE then [NextOut(s.prevWord, w)]
    else []
  }

  /** The registers after reading a word. */
  function ReadNext(s: Regs, w: Word): Regs
    requires Reads(s) && |w.keep| == 8
  {
    if s.state == DROP then (if w.last then Regs(WAIT_LOOKUP, s.prevWord, false) else s)
    else Regs(if w.last then WAIT_LOOKUP else WRITE, w, w.last && (s.state == WRITE_FIRST || w.keep[2]))
  }

  /** The words output until no more words or replies wait. */
  function Run(s: Regs, ws: seq<Word>, rs: seq<Reply>, my: Mac): seq<Word>
    requires |s.prevWord.data| == 8 && |s.prevWord.keep| == 8 && Lengths8(ws)
    decreases |ws| + |rs|, if s.writeLast then 1 else 0
  {
    if s.writeLast then [LastWord(s.prevWord)] + Run(s.(writeLast := false), ws, rs, my)
    else if s.state == WAIT_LOOKUP then
      if rs == [] then []
      else if rs[0].hit then
        [Word(rs[0].macAddress + my[..2], Low(8), false)] + Run(s.(state := WRITE_FIRST), ws, rs[1..], my)
      else Run(s.(state := DROP), ws, rs[1..], my)
    else if ws == [] then []
    else Out(s, ws[0], my) + Run(ReadNext(s, ws[0]), ws[1..], rs, my)
  }

  /** From s the machine gets to s', reading ws up to ws' and outputting out. */
  ghost predicate RunsTo(s: Regs, ws: seq<Word>, out: seq<Word>, s': Regs, ws': seq<Word>, rs: seq<Reply>, my: Mac) {
    forall k {:trigger Opened(k)} :: Opened(k) && k == RUN ==>
      && |s.prevWord.data| == |s.prevWord.keep| == 8 && |s'.prevWord.data| == |s'.prevWord.keep| == 8
      && Lengths8(ws) && Lengths8(ws')
      && Run(s, ws, rs, my) == out + Run(s', ws', rs, my)
  }

  const RUN: nat := 8

  lemma {:induction false} Then(s: Regs, ws: seq<Word>, out: seq<Word>, s1: Regs, ws1: seq<Word>, out1: seq<Word>,
                                s2: Regs, ws2: seq<Word>, rs: seq<Reply>, my: Mac)
    requires RunsTo(s, ws, out, s1, ws1, rs, my) && RunsTo(s1, ws1, out1, s2, ws2, rs, my)
    ensures RunsTo(s, ws, out + out1, s2, ws2, rs, my)
  {
    assert Opened(RUN);
    assert out + (out1 + Run(s2, ws2, rs, my)) == out + out1 + Run(s2, ws2, rs, my);
  }

  lemma {:induction false} OneRead(s: Regs, ws: seq<Word>, more: seq<Word>, rs: seq<Reply>, my: Mac)
    requires Reads(s) && |s.prevWord.data| == |s.prevWord.keep| == 8
    requires ws != [] && |ws[0].data| == |ws[0].keep| == 8 && Lengths8(ws[1..] + more)
    ensures RunsTo(s, ws + more, Out(s, ws[0], my), ReadNext(s, ws[0]), ws[1..] + more, rs, my)
  {
    JoinWords(ws, more);
  }

  lemma {:induction false} WriteLast(s: Regs, ws: seq<Word>, rs: seq<Reply>, my: Mac)
    requires s.writeLast && |s.prevWord.data| == |s.prevWord.keep| == 8 && Lengths8(ws)
    ensures RunsTo(s, ws, [LastWord(s.prevWord)], s.(writeLast := false), ws, rs, my)
  {}

  lemma {:induction false} KeepPatterns(n: nat)
    requires 1 <= n <= 8
    ensures Low(8)[2..] + Low(n)[..2] == Low(6 + if n < 2 then n else 2)
    ensures n > 2 ==> Low(n)[2..] + [false, false] == Low(n - 2)
    ensures Low(n)[2] == (n > 2)
  {}

  /** In state WRITE with six bytes h held back, the rest of a packet comes out after
      them. */
  lemma {:induction false} Writing(s: Regs, ws: seq<Word>, h: seq<Byte>, p: seq<Byte>, more: seq<Word>, rs: seq<Reply>,
                                   my: Mac)
    returns (frame: seq<Word>, s': Regs)
    requires IsPacket(ws, p) && Lengths8(more)
    requires s.state == WRITE && !s.writeLast && |s.prevWord.data| == 8 && s.prevWord.keep == Low(8)
    requires h == s.prevWord.data[2..]
    ensures IsPacket(frame, h + p) && Idle(s') && Lengths8(ws + more)
    ensures RunsTo(s, ws + more, frame, s', more, rs, my)
    decreases |p|, 1
  {
    FirstWord(ws, p);
    KeepPatterns(Head(p));
    var out := NextOut(s.prevWord, ws[0]);
    OneRead(s, ws, more, rs, my);
    if |p| <= 2 {
      assert ws[1..] + more == more;
      frame, s' := [out], ReadNext(s, ws[0]);
      assert out.data[..6 + |p|] == h + p;
      LastOfPacket(out, h + p);
    } else {
      frame, s' := Held(s, ws, p, more, rs, my, out, h);
    }
  }

  /** A full word goes out while the first word of the packet p is read: six bytes h
      and the first two of p. The others are held back. */
  lemma {:induction false} Held(s: Regs, ws: seq<Word>, p: seq<Byte>, more: seq<Word>, rs: seq<Reply>, my: Mac,
                                out: Word, h: seq<Byte>)
    returns (frame: seq<Word>, s': Regs)
    requires IsPacket(ws, p) && Lengths8(more) && |p| > 2 && |h| == 6 && ws != [] && Word8(ws[0])
    requires out == Word(h + p[..2], Low(8), false)
    requires var w := ws[0];
             RunsTo(s, ws + more, [out], Regs(if w.last then WAIT_LOOKUP else WRITE, w, w.last), ws[1..] + more, rs, my)
    ensures IsPacket(frame, h + p) && Idle(s') && RunsTo(s, ws + more, frame, s', more, rs, my)
    decreases |p|, 0
  {
    FirstWord(ws, p);
    var w, rest := ws[0], [];
    var s1 := Regs(if w.last then WAIT_LOOKUP else WRITE, w, w.last);
    if |p| <= 8 {
      assert ws[1..] + more == more;
      WriteLast(s1, more, rs, my);
      rest, s' := [LastWord(w)], s1.(writeLast := false);
      KeepPatterns(|p|);
      TailOf(w.data, p, 2, [0, 0]);
      LastOfPacket(rest[0], p[2..]);
    } else {
      assert w.data[..8] == w.data == p[..8] && p[2..8] + p[8..] == p[2..];
      rest, s' := Writing(s1, ws[1..], p[2..8], p[8..], more, rs, my);
    }
    Then(s, ws + more, [out], s1, ws[1..] + more, rest, s', more, rs, my);
    frame := [out] + rest;
    PrependWord(out, rest, h + p[..2], p[2..]);
    assert (h + p[..2]) + p[2..] == h + p;
  }

  /** The first word of a packet has been looked up; the header goes out before it. */
  lemma {:induction false} WritingFirst(s: Regs, ws: seq<Word>, p: seq<Byte>, more: seq<Word>, rs: seq<Reply>, my: Mac)
    returns (frame: seq<Word>, s': Regs)
    requires IsPacket(ws, p) && Lengths8(more) && |p| >= 3
    requires s.state == WRITE_FIRST && !s.writeLast && |s.prevWord.data| == |s.prevWord.keep| == 8
    ensures IsPacket(frame, my[2..] + [8, 0] + p) && Idle(s') && Lengths8(ws + more)
    ensures RunsTo(s, ws + more, frame, s', more, rs, my)
  {
    FirstWord(ws, p);
    KeepPatterns(Head(p));
    OneRead(s, ws, more, rs, my);
    frame, s' := Held(s, ws, p, more, rs, my, FirstOut(ws[0], my), my[2..] + [8, 0]);
  }

  /** The frame of a packet: addresses of destination and source, the type 0x0800,
      the packet. */
  function Frame(dst: Mac, src: Mac, p: seq<Byte>): seq<Byte> {
    dst + src + [8, 0] + p
  }

  /** A packet whose destination has been found leaves as an Ethernet frame. */
  lemma {:induction false} Encodes(s: Regs, ws: seq<Word>, p: seq<Byte>, more: seq<Word>, dst: Mac, rs: seq<Reply>,
                                   my: Mac)
    returns (frame: seq<Word>, s': Regs)
    requires IsPacket(ws, p) && Lengths8(more) && |p| >= 3 && Idle(s)
    ensures IsPacket(frame, Frame(dst, my, p)) && Idle(s') && Lengths8(ws + more)
    ensures Run(s, ws + more, [Reply(true, dst)] + rs, my) == frame + Run(s', more, rs, my)
  {
    var rest;
    rest, s' := WritingFirst(s.(state := WRITE_FIRST), ws, p, more, rs, my);
    var first := Word(dst + my[..2], Low(8), false);
    frame := [first] + rest;
    PrependWord(first, rest, dst + my[..2], my[2..] + [8, 0] + p);
    assert dst + my[..2] + (my[2..] + [8, 0] + p) == Frame(dst, my, p);
    assert ([Reply(true, dst)] + rs)[1..] == rs;
    assert Opened(RUN);
    assert [first] + (rest + Run(s', more, rs, my)) == frame + Run(s', more, rs, my);
  }

  /** A packet whose destination has not been found is dropped, and nothing else. */
  lemma {:induction false} Drops(s: Regs, ws: seq<Word>, p: seq<Byte>, more: seq<Word>, dst: Mac, rs: seq<Reply>,
                                 my: Mac)
    requires IsPacket(ws, p) && Lengths8(more) && Idle(s)
    ensures Lengths8(ws + more) && Run(s, ws + more, [Reply(false, dst)] + rs, my) == Run(s, more, rs, my)
  {
    Dropping(s.(state := DROP), ws, p, more, rs, my);
    assert ([Reply(false, dst)] + rs)[1..] == rs;
    assert Opened(RUN);
  }

  lemma {:induction false} Dropping(s: Regs, ws: seq<Word>, p: seq<Byte>, more: seq<Word>, rs: seq<Reply>, my: Mac)
    requires IsPacket(ws, p) && Lengths8(more)
    requires s.state == DROP && !s.writeLast && |s.prevWord.data| == |s.prevWord.keep| == 8
    ensures Lengths8(ws + more) && RunsTo(s, ws + more, [], s.(state := WAIT_LOOKUP), more, rs, my)
    decreases |p|
  {
    FirstWord(ws, p);
    if |p| > 8 {
      Dropping(s, ws[1..], p[8..], more, rs, my);
      OneRead(s, ws, more, rs, my);
      Then(s, ws + more, [], s, ws[1..] + more, [], s.(state := WAIT_LOOKUP), more, rs, my);
    } else {
      assert ws[1..] + more == more;
      OneRead(s, ws, more, rs, my);
    }
  }

  class HandleArpReply {
    var mw_state: MwState
    var mw_prevWord: Word
    var mw_writeLast: bool

    ghost function Registers(): Regs
      reads this
    {
      Regs(mw_state, mw_prevWord, mw_writeLast)
    }

    constructor ()
      ensures Registers() == FRAME_START
    {
      mw_state, mw_writeLast := WAIT_LOOKUP, false;
      mw_prevWord := Word([0, 0, 0, 0, 0, 0, 0, 0], Low(0), false);
    }

    /** One call, given the words and replies that wait: how many of each it reads and
        what it outputs. Together with what is still to be output that is what was to
        be output before. */
    method Step(dataIn: seq<Word>, arpTableIn: seq<Reply>, my: Mac, ghost more: seq<Word>,
                ghost moreReplies: seq<Reply>)
      returns (read: nat, readReplies: nat, dataOut: seq<Word>)
      requires |mw_prevWord.data| == |mw_prevWord.keep| == 8 && Lengths8(dataIn) && Lengths8(more)
      modifies this
      ensures |mw_prevWord.data| == |mw_prevWord.keep| == 8 && read <= |dataIn| && readReplies <= |arpTableIn|
      ensures Run(old(Registers()), dataIn + more, arpTableIn + moreReplies, my)
              == dataOut + Run(Registers(), dataIn[read..] + more, arpTableIn[readReplies..] + moreReplies, my)
      ensures if old(mw_writeLast) then
                dataOut == [LastWord(old(mw_prevWord))] && !mw_writeLast && read == readReplies == 0
              else if old(mw_state) == WAIT_LOOKUP then read == 0 && readReplies == if arpTableIn != [] then 1 else 0
              else readReplies == 0 && read == if dataIn != [] then 1 else 0
    {
      WithMore(dataIn, more);
      WithMore(arpTableIn, moreReplies);
      read, readReplies, dataOut := 0, 0, [];
      var currLast, sendLast := false, false;
      if mw_writeLast {
        dataOut := [Word(mw_prevWord.data[2..] + [0, 0], mw_prevWord.keep[2..] + [false, false], true)];
        mw_writeLast := false;
      } else {
        match mw_state {
        case WAIT_LOOKUP =>
          if arpTableIn != [] {
            readReplies := 1;
            if arpTableIn[0].hit {
              dataOut := [Word(arpTableIn[0].macAddress + my[..2], Low(8), false)];
              mw_state := WRITE_FIRST;
            } else {
              mw_state := DROP;
            }
          }
        case WRITE_FIRST =>
          if dataIn != [] {
            read, currLast := 1, dataIn[0].last;
            dataOut := [Word(my[2..] + [8, 0] + dataIn[0].data[..2], Low(8), false)];
            mw_prevWord, mw_state := dataIn[0], WRITE;
          }
        case WRITE =>
          if dataIn != [] {
            read, currLast, sendLast := 1, dataIn[0].last, !dataIn[0].keep[2];
            dataOut := [Word(mw_prevWord.data[2..] + dataIn[0].data[..2],
                             mw_prevWord.keep[2..] + dataIn[0].keep[..2], sendLast)];
            mw_prevWord := dataIn[0];
          }
        case DROP =>
          if dataIn != [] {
            read, currLast, sendLast := 1, dataIn[0].last, true;
          }
        }
        if currLast {
          mw_state, mw_writeLast := WAIT_LOOKUP, !sendLast;
        }
      }
    }
  }
}
