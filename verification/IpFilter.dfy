/** detect_mac_protocol: frames for this node, by protocol. */
module MacFilter {
  import opened Arith
  import opened Sealing
  import opened RxStream
  import opened PacketWords
  import opened OnesComplement
  import opened FrameEncoder

  const ARP: nat := 0x0806
  const IPV4: nat := 0x0800
  const DROPPED: nat := 0
  const FORWARD: nat := 1
  const EVERYONE: Mac := [255, 255, 255, 255, 255, 255]

  /** The words written to the two outputs. */
  datatype Streams = Streams(arp: seq<Word>, ip: seq<Word>) {
    function Then(s: Streams): Streams {
      Streams(arp + s.arp, ip + s.ip)
    }
  }

  datatype FilterRegs = FilterRegs(flush: bool, wordCount: nat, macType: nat, prevWord: Word)

  const START: FilterRegs :=
    FilterRegs(false, 0, DROPPED, Word([0, 0, 0, 0, 0, 0, 0, 0], Low(0), false))

  predicate Ready(s: FilterRegs) {
    !s.flush && s.wordCount == 0 && Word8(s.prevWord)
  }

  /** Words of a frame of that type. */
  function Emit(macType: nat, ws: seq<Word>): Streams {
    Streams(if macType == ARP then ws else [], if macType == IPV4 then ws else [])
  }

  function TypeAfter(s: FilterRegs, w: Word, my: Mac): nat
    requires Word8(w)
  {
    if s.wordCount == 0 then (if w.data[..6] != my && w.data[..6] != EVERYONE then DROPPED else FORWARD)
    else if s.wordCount == 1 && s.macType != DROPPED then Pair(w.data[4], w.data[5])
    else s.macType
  }

  function Next(s: FilterRegs, w: Word, my: Mac): FilterRegs
    requires Word8(w)
  {
    FilterRegs(w.last, if w.last then 0 else if s.wordCount < 2 then s.wordCount + 1 else s.wordCount,
               TypeAfter(s, w, my), w)
  }

  function Route(s: FilterRegs, ws: seq<Word>, my: Mac): Streams
    requires Lengths8(ws)
    decreases |ws|, if s.flush then 1 else 0
  {
    if s.flush then Emit(s.macType, [s.prevWord]).Then(Route(s.(flush := false), ws, my))
    else if ws == [] then Streams([], [])
    else
      (if s.wordCount > 0 then Emit(TypeAfter(s, ws[0], my), [s.prevWord]) else Streams([], []))
      .Then(Route(Next(s, ws[0], my), ws[1..], my))
  }

  lemma {:induction false} RoutedLengths(s: FilterRegs, ws: seq<Word>, my: Mac)
    requires Lengths8(ws) && Word8(s.prevWord)
    ensures Lengths8(Route(s, ws, my).ip)
    decreases |ws|, if s.flush then 1 else 0
  {
    if s.flush {
      RoutedLengths(s.(flush := false), ws, my);
    } else if ws != [] {
      RoutedLengths(Next(s, ws[0], my), ws[1..], my);
    }
  }

  ghost predicate RoutesTo(s: FilterRegs, ws: seq<Word>, out: Streams, s': FilterRegs, ws': seq<Word>, my: Mac) {
    forall k {:trigger Opened(k)} :: Opened(k) && k == ROUTE ==>
      Lengths8(ws) && Lengths8(ws') && Route(s, ws, my) == out.Then(Route(s', ws', my))
  }

  const ROUTE: nat := 16

  lemma {:induction false} Join(s: FilterRegs, ws: seq<Word>, out: Streams, s1: FilterRegs, ws1: seq<Word>,
                                out1: Streams, s2: FilterRegs, ws2: seq<Word>, my: Mac, all: Streams)
    requires RoutesTo(s, ws, out, s1, ws1, my) && RoutesTo(s1, ws1, out1, s2, ws2, my) && all == out.Then(out1)
    ensures RoutesTo(s, ws, all, s2, ws2, my)
  {
    assert Opened(ROUTE);
    var rest := Route(s2, ws2, my);
    assert out.arp + (out1.arp + rest.arp) == all.arp + rest.arp && out.ip + (out1.ip + rest.ip) == all.ip + rest.ip;
  }

  lemma {:induction false} Flush(s: FilterRegs, ws: seq<Word>, my: Mac)
    requires s.flush && Lengths8(ws)
    ensures RoutesTo(s, ws, Emit(s.macType, [s.prevWord]), s.(flush := false), ws, my)
  {}

  lemma {:induction false} Read(s: FilterRegs, ws: seq<Word>, more: seq<Word>, my: Mac, out: Streams)
    requires !s.flush && ws != [] && Word8(ws[0]) && Lengths8(ws[1..] + more)
    requires out == if s.wordCount > 0 then Emit(TypeAfter(s, ws[0], my), [s.prevWord]) else Streams([], [])
    ensures Lengths8(ws + more) && RoutesTo(s, ws + more, out, Next(s, ws[0], my), ws[1..] + more, my)
  {
    JoinWords(ws, more);
  }

  lemma {:induction false} EmitMore(macType: nat, w: Word, ws: seq<Word>)
    ensures Emit(macType, [w]).Then(Emit(macType, ws)) == Emit(macType, [w] + ws)
  {}

  /** Once the type is known, the words follow, one late. */
  lemma {:induction false} Following(s: FilterRegs, ws: seq<Word>, p: seq<Byte>, more: seq<Word>, my: Mac)
    returns (s': FilterRegs)
    requires IsPacket(ws, p) && Lengths8(more) && !s.flush && s.wordCount == 2
    ensures Ready(s') && Lengths8(ws + more)
    ensures RoutesTo(s, ws + more, Emit(s.macType, [s.prevWord] + ws), s', more, my)
    decreases |p|
  {
    FirstWord(ws, p);
    var s1, out := Next(s, ws[0], my), Emit(s.macType, [s.prevWord]);
    EmitMore(s.macType, s.prevWord, ws);
    if |p| > 8 {
      assert [ws[0]] + ws[1..] == ws;
      s' := Following(s1, ws[1..], p[8..], more, my);
      Read(s, ws, more, my, out);
      Join(s, ws + more, out, s1, ws[1..] + more, Emit(s.macType, ws), s', more, my,
           Emit(s.macType, [s.prevWord] + ws));
    } else {
      assert ws[1..] + more == more && [ws[0]] == ws;
      Read(s, ws, more, my, out);
      Flush(s1, more, my);
      s' := s1.(flush := false);
      Join(s, ws + more, out, s1, more, Emit(s.macType, ws), s', more, my, Emit(s.macType, [s.prevWord] + ws));
    }
  }

  /** The type of a frame, if it is for this node. */
  function TypeOf(f: seq<Byte>, my: Mac): nat
    requires |f| >= 14
  {
    if f[..6] == my || f[..6] == EVERYONE then Pair(f[12], f[13]) else DROPPED
  }

  /** A frame goes, as a whole, to the output of its type, if any. */
  lemma {:induction false} RoutesFrame(s: FilterRegs, ws: seq<Word>, f: seq<Byte>, more: seq<Word>, my: Mac)
    returns (s': FilterRegs)
    requires IsPacket(ws, f) && Lengths8(more) && |f| > 16 && Ready(s)
    ensures Ready(s') && Lengths8(ws + more)
    ensures Route(s, ws + more, my) == Emit(TypeOf(f, my), ws).Then(Route(s', more, my))
  {
    TwoWords(ws, f);
    var t := TypeOf(f, my);
    var s1, s2 := FirstTwo(s, ws[0], ws[1], f, my);
    s' := Following(s2, ws[2..], f[16..], more, my);
    assert [ws[1]] + ws[2..] == ws[1..];
    ReadTwo(s, ws, s1, s2, more, my, t, s');
    RoutedSo(s, ws + more, Emit(t, ws), s', more, my);
  }

  /** The first two words are read; what follows is known. */
  lemma {:induction false} ReadTwo(s: FilterRegs, ws: seq<Word>, s1: FilterRegs, s2: FilterRegs, more: seq<Word>,
                                   my: Mac, t: nat, s': FilterRegs)
    requires |ws| >= 2 && Word8(ws[0]) && Word8(ws[1]) && Lengths8(ws[2..] + more)
    requires !s.flush && s.wordCount == 0 && s1 == Next(s, ws[0], my) && s2 == Next(s1, ws[1], my)
    requires !s1.flush && s1.wordCount == 1 && s1.prevWord == ws[0] && TypeAfter(s1, ws[1], my) == t
    requires RoutesTo(s2, ws[2..] + more, Emit(t, ws[1..]), s', more, my)
    ensures Lengths8(ws + more) && RoutesTo(s, ws + more, Emit(t, ws), s', more, my)
  {
    assert [ws[0]] + ws[1..] == ws && ws[1..][1..] == ws[2..];
    var none, first := Streams([], []), Emit(t, [ws[0]]);
    EmitMore(t, ws[0], ws[1..]);
    Read(s1, ws[1..], more, my, first);
    Join(s1, ws[1..] + more, first, s2, ws[2..] + more, Emit(t, ws[1..]), s', more, my, Emit(t, ws));
    Read(s, ws, more, my, none);
    assert none.Then(Emit(t, ws)) == Emit(t, ws);
    Join(s, ws + more, none, s1, ws[1..] + more, Emit(t, ws), s', more, my, Emit(t, ws));
  }

  lemma {:induction false} RoutedSo(s: FilterRegs, ws: seq<Word>, out: Streams, s': FilterRegs, ws': seq<Word>, my: Mac)
    requires RoutesTo(s, ws, out, s', ws', my) && Lengths8(ws) && Lengths8(ws')
    ensures Route(s, ws, my) == out.Then(Route(s', ws', my))
  {
    assert Opened(ROUTE);
  }

  lemma {:induction false} FirstTwo(s: FilterRegs, w0: Word, w1: Word, f: seq<Byte>, my: Mac)
    returns (s1: FilterRegs, s2: FilterRegs)
    requires Word8(w0) && Word8(w1) && !w0.last && !w1.last && Ready(s) && |f| > 16
    requires w0.data == f[..8] && w1.data == f[8..16]
    ensures s1 == Next(s, w0, my) && s2 == Next(s1, w1, my) && s1.wordCount == 1 && !s1.flush && s1.prevWord == w0
    ensures TypeAfter(s1, w1, my) == TypeOf(f, my) && s2 == FilterRegs(false, 2, TypeOf(f, my), w1)
  {
    s1 := Next(s, w0, my);
    s2 := Next(s1, w1, my);
    assert w0.data[..6] == f[..6] && w1.data[4] == f[12] && w1.data[5] == f[13];
  }

  class DetectMacProtocol {
    var dmp_fsmState: nat
    var dmp_wordCount: nat
    var dmp_macType: nat
    var dmp_prevWord: Word

    ghost function Registers(): FilterRegs
      reads this
    {
      FilterRegs(dmp_fsmState == 1, dmp_wordCount, dmp_macType, dmp_prevWord)
    }

    constructor ()
      ensures Registers() == START && dmp_fsmState == 0
    {
      dmp_fsmState, dmp_wordCount, dmp_macType := 0, 0, DROPPED;
      dmp_prevWord := Word([0, 0, 0, 0, 0, 0, 0, 0], Low(0), false);
    }

    method Step(dataIn: seq<Word>, my: Mac, ghost more: seq<Word>) returns (read: nat, out: Streams)
      requires Lengths8(dataIn) && Lengths8(more) && Word8(dmp_prevWord) && dmp_fsmState <= 1
      modifies this
      ensures dmp_fsmState <= 1 && Word8(dmp_prevWord) && read <= |dataIn|
      ensures Route(old(Registers()), dataIn + more, my) == out.Then(Route(Registers(), dataIn[read..] + more, my))
      ensures if old(dmp_fsmState) == 1 then
                dmp_fsmState == 0 && read == 0 && out == Emit(old(dmp_macType), [old(dmp_prevWord)])
              else read == if dataIn != [] then 1 else 0
    {
      WithMore(dataIn, more);
      read, out := 0, Streams([], []);
      match dmp_fsmState {
      case 0 =>
        if dataIn != [] {
          var currWord := dataIn[0];
          read := 1;
          if dmp_wordCount == 0 {
            dmp_macType := if currWord.data[..6] != my && currWord.data[..6] != EVERYONE then DROPPED else FORWARD;
            dmp_wordCount := 1;
          } else {
            if dmp_wordCount == 1 {
              if dmp_macType != DROPPED {
                dmp_macType := Pair(currWord.data[4], currWord.data[5]);
              }
              dmp_wordCount := 2;
            }
            out := Written();
          }
          dmp_prevWord := currWord;
          if currWord.last {
            dmp_wordCount, dmp_fsmState := 0, 1;
          }
        }
      case _ =>
        out := Written();
        dmp_fsmState := 0;
      }
    }

    method Written() returns (out: Streams)
      ensures out == Emit(dmp_macType, [dmp_prevWord])
    {
      out := Streams([], []);
      if dmp_macType == ARP {
        out := Streams([dmp_prevWord], []);
      } else if dmp_macType == IPV4 {
        out := Streams([], [dmp_prevWord]);
      }
    }
  }
}

/** length_check: datagrams that are not too long, through a buffer of two words. */
module LengthFilter {
  import opened Arith
  import opened Sealing
  import opened RxStream
  import opened PacketWords
  import opened OnesComplement

  const MAX_DATAGRAM_SIZE: nat := 32768

  datatype LcState = LC_IDLE | LC_SIZECHECK | LC_STREAM

  /** older and newer are the words in the buffer. */
  datatype LengthRegs = LengthRegs(state: LcState, wordCount: nat, leftToWrite: nat, filter: bool,
                                   older: Word, newer: Word)

  const NULL_WORD: Word := Word([0, 0, 0, 0, 0, 0, 0, 0],
                                [false, false, false, false, false, false, false, false], false)

  const START: LengthRegs := LengthRegs(LC_IDLE, 0, 0, false, NULL_WORD, NULL_WORD)

  predicate Ready(s: LengthRegs) {
    s.state == LC_IDLE && s.wordCount == 0 && s.leftToWrite == 0
  }

  function Shift(s: LengthRegs, w: Word): LengthRegs {
    s.(older := s.newer, newer := w)
  }

  function TooLong(w: Word): bool
    requires Word8(w)
  {
    Pair(w.data[0], w.data[1]) > MAX_DATAGRAM_SIZE
  }

  function Next(s: LengthRegs, w: Word): LengthRegs
    requires Word8(w)
  {
    var filter := if s.state == LC_SIZECHECK then TooLong(w) else s.filter;
    var state := if s.state == LC_IDLE then (if s.wordCount == 1 then LC_SIZECHECK else LC_IDLE) else LC_STREAM;
    var count := if s.state == LC_IDLE then s.wordCount + 1 else s.wordCount;
    if w.last then LengthRegs(LC_IDLE, 0, 2, filter, s.newer, w) else LengthRegs(state, count, 0, filter, s.newer, w)
  }

  function Out(s: LengthRegs, w: Word): seq<Word>
    requires Word8(w)
  {
    if s.state == LC_IDLE then []
    else if s.state == LC_SIZECHECK then (if TooLong(w) then [] else [s.older])
    else if s.filter then [] else [s.older]
  }

  function Run(s: LengthRegs, ws: seq<Word>): seq<Word>
    requires Lengths8(ws)
    decreases |ws|, s.leftToWrite
  {
    if s.leftToWrite > 0 then
      (if s.filter then [] else [s.older]) + Run(Shift(s, NULL_WORD).(leftToWrite := s.leftToWrite - 1), ws)
    else if ws == [] then []
    else Out(s, ws[0]) + Run(Next(s, ws[0]), ws[1..])
  }

  lemma {:induction false} RunLengths(s: LengthRegs, ws: seq<Word>)
    requires Lengths8(ws) && Word8(s.older) && Word8(s.newer)
    ensures Lengths8(Run(s, ws))
    decreases |ws|, s.leftToWrite
  {
    if s.leftToWrite > 0 {
      RunLengths(Shift(s, NULL_WORD).(leftToWrite := s.leftToWrite - 1), ws);
    } else if ws != [] {
      RunLengths(Next(s, ws[0]), ws[1..]);
    }
  }

  ghost predicate RunsTo(s: LengthRegs, ws: seq<Word>, out: seq<Word>, s': LengthRegs, ws': seq<Word>) {
    forall k {:trigger Opened(k)} :: Opened(k) && k == RUN ==>
      Lengths8(ws) && Lengths8(ws') && Run(s, ws) == out + Run(s', ws')
  }

  const RUN: nat := 17

  lemma {:induction false} Join(s: LengthRegs, ws: seq<Word>, out: seq<Word>, s1: LengthRegs, ws1: seq<Word>,
                                out1: seq<Word>, s2: LengthRegs, ws2: seq<Word>, all: seq<Word>)
    requires RunsTo(s, ws, out, s1, ws1) && RunsTo(s1, ws1, out1, s2, ws2) && all == out + out1
    ensures RunsTo(s, ws, all, s2, ws2)
  {
    assert Opened(RUN);
    assert out + (out1 + Run(s2, ws2)) == all + Run(s2, ws2);
  }

  lemma {:induction false} Read(s: LengthRegs, ws: seq<Word>, more: seq<Word>)
    requires s.leftToWrite == 0 && ws != [] && Word8(ws[0]) && Lengths8(ws[1..] + more)
    ensures Lengths8(ws + more) && RunsTo(s, ws + more, Out(s, ws[0]), Next(s, ws[0]), ws[1..] + more)
  {
    JoinWords(ws, more);
  }

  function IfPassed(filter: bool, ws: seq<Word>): seq<Word> {
    if filter then [] else ws
  }

  /** The two words left in the buffer. */
  lemma {:induction false} LastTwo(s: LengthRegs, ws: seq<Word>) returns (s': LengthRegs)
    requires s.state == LC_IDLE && s.wordCount == 0 && s.leftToWrite == 2 && Lengths8(ws)
    ensures Ready(s') && RunsTo(s, ws, IfPassed(s.filter, [s.older, s.newer]), s', ws)
  {
    var s1 := Shift(s, NULL_WORD).(leftToWrite := 1);
    s' := Shift(s1, NULL_WORD).(leftToWrite := 0);
    assert Run(s, ws) == IfPassed(s.filter, [s.older]) + Run(s1, ws);
    assert Run(s1, ws) == IfPassed(s.filter, [s.newer]) + Run(s', ws);
    assert [s.older] + ([s.newer] + Run(s', ws)) == [s.older, s.newer] + Run(s', ws);
  }

  /** Once the length is known, the words follow, two late. */
  lemma {:induction false} Following(s: LengthRegs, ws: seq<Word>, p: seq<Byte>, more: seq<Word>)
    returns (s': LengthRegs)
    requires IsPacket(ws, p) && Lengths8(more) && s.leftToWrite == 0 && s.state == LC_STREAM
    ensures Ready(s') && Lengths8(ws + more)
    ensures RunsTo(s, ws + more, IfPassed(s.filter, [s.older, s.newer] + ws), s', more)
    decreases |p|
  {
    FirstWord(ws, p);
    var s1, out := Next(s, ws[0]), IfPassed(s.filter, [s.older]);
    var rest, all := IfPassed(s.filter, [s.newer] + ws), IfPassed(s.filter, [s.older, s.newer] + ws);
    OneLess(s.filter, s.older, s.newer, ws);
    if |p| > 8 {
      s' := Following(s1, ws[1..], p[8..], more);
    } else {
      assert ws[1..] + more == more && ws[1..] == [];
      s' := LastTwo(s1, more);
    }
    Read(s, ws, more);
    Join(s, ws + more, out, s1, ws[1..] + more, rest, s', more, all);
  }

  lemma {:induction false} OneLess(filter: bool, older: Word, newer: Word, ws: seq<Word>)
    requires ws != []
    ensures IfPassed(filter, [older]) + IfPassed(filter, [newer] + ws) == IfPassed(filter, [older, newer] + ws)
    ensures [newer, ws[0]] + ws[1..] == [newer] + ws && (ws[1..] == [] ==> [newer, ws[0]] == [newer] + ws)
  {
    if !filter {
      assert [older] + ([newer] + ws) == ([older] + [newer]) + ws;
      assert [older] + [newer] == [older, newer];
    }
    assert ws == [ws[0]] + ws[1..] && [newer, ws[0]] == [newer] + [ws[0]];
    assert [newer] + ([ws[0]] + ws[1..]) == ([newer] + [ws[0]]) + ws[1..];
  }

  lemma {:induction false} FirstThree(s: LengthRegs, w0: Word, w1: Word, w2: Word)
    returns (s1: LengthRegs, s2: LengthRegs, s3: LengthRegs)
    requires Word8(w0) && Word8(w1) && Word8(w2) && !w0.last && !w1.last && Ready(s)
    ensures s1 == Next(s, w0) && s2 == Next(s1, w1) && s3 == Next(s2, w2)
    ensures s1.leftToWrite == 0 && s2.leftToWrite == 0 && Out(s, w0) == [] && Out(s1, w1) == []
    ensures Out(s2, w2) == IfPassed(TooLong(w2), [w0])
    ensures if w2.last then s3 == LengthRegs(LC_IDLE, 0, 2, TooLong(w2), w1, w2)
            else s3 == LengthRegs(LC_STREAM, 2, 0, TooLong(w2), w1, w2)
  {
    s1 := Next(s, w0);
    s2 := Next(s1, w1);
    s3 := Next(s2, w2);
  }

  lemma {:induction false} ThreeAndRest(ws: seq<Word>)
    requires |ws| >= 3
    ensures [ws[1], ws[2]] + ws[3..] == ws[1..] && [ws[0]] + ws[1..] == ws
    ensures ws[1..][1..] == ws[2..] && ws[2..][1..] == ws[3..] && (ws[3..] == [] ==> [ws[1], ws[2]] == ws[1..])
  {}

  /** The first three words are read; what follows is known. */
  lemma {:induction false} ReadThree(s: LengthRegs, ws: seq<Word>, s1: LengthRegs, s2: LengthRegs, s3: LengthRegs,
                                     more: seq<Word>, filter: bool, s': LengthRegs)
    requires |ws| >= 3 && Word8(ws[0]) && Word8(ws[1]) && Word8(ws[2]) && Lengths8(ws[3..] + more)
    requires s1 == Next(s, ws[0]) && s2 == Next(s1, ws[1]) && s3 == Next(s2, ws[2])
    requires s.leftToWrite == s1.leftToWrite == s2.leftToWrite == 0
    requires Out(s, ws[0]) == Out(s1, ws[1]) == [] && Out(s2, ws[2]) == IfPassed(filter, [ws[0]])
    requires RunsTo(s3, ws[3..] + more, IfPassed(filter, ws[1..]), s', more)
    ensures Lengths8(ws + more) && RunsTo(s, ws + more, IfPassed(filter, ws), s', more)
  {
    ThreeAndRest(ws);
    var all := IfPassed(filter, ws);
    Read(s2, ws[2..], more);
    Join(s2, ws[2..] + more, IfPassed(filter, [ws[0]]), s3, ws[3..] + more, IfPassed(filter, ws[1..]), s', more, all);
    Read(s1, ws[1..], more);
    Join(s1, ws[1..] + more, [], s2, ws[2..] + more, all, s', more, all);
    Read(s, ws, more);
    Join(s, ws + more, [], s1, ws[1..] + more, all, s', more, all);
  }

  lemma {:induction false} TwoBytes(b: seq<Byte>, f: seq<Byte>, i: nat, n: nat)
    requires 2 <= n <= |b| && i + n <= |f| && b[..n] == f[i..][..n]
    ensures b[0] == f[i] && b[1] == f[i + 1]
  {
    assert b[..n][0] == f[i..][..n][0] && b[..n][1] == f[i..][..n][1];
  }

  /** A frame passes, as a whole, exactly if its datagram is not too long. */
  lemma {:induction false} PassesIff(s: LengthRegs, ws: seq<Word>, f: seq<Byte>, more: seq<Word>)
    returns (s': LengthRegs)
    requires IsPacket(ws, f) && Lengths8(more) && |f| >= 18 && Ready(s)
    ensures Ready(s') && Lengths8(ws + more)
    ensures Run(s, ws + more) == (if Pair(f[16], f[17]) <= MAX_DATAGRAM_SIZE then ws else []) + Run(s', more)
  {
    TwoWords(ws, f);
    FirstWord(ws[2..], f[16..]);
    var w := ws[2];
    assert ws[2..][0] == w && ws[2..][1..] == ws[3..];
    TwoBytes(w.data, f, 16, Head(f[16..]));
    var filter := Pair(f[16], f[17]) > MAX_DATAGRAM_SIZE;
    var s1, s2, s3 := FirstThree(s, ws[0], ws[1], w);
    if |f| > 24 {
      s' := Following(s3, ws[3..], f[16..][8..], more);
    } else {
      assert ws[3..] + more == more && ws[3..] == [];
      s' := LastTwo(s3, more);
    }
    ThreeAndRest(ws);
    ReadThree(s, ws, s1, s2, s3, more, filter, s');
    assert Opened(RUN);
  }

  class LengthCheck {
    var lengthCheckState: LcState
    var dip_wordCount: nat
    var dip_leftToWrite: nat
    var filterPacket: bool
    var wordBuffer: seq<Word>   // the older word first

    ghost predicate Valid()
      reads this
    {
      |wordBuffer| == 2
    }

    ghost function Registers(): LengthRegs
      requires Valid()
      reads this
    {
      LengthRegs(lengthCheckState, dip_wordCount, dip_leftToWrite, filterPacket, wordBuffer[0], wordBuffer[1])
    }

    constructor ()
      ensures Valid() && Registers() == START
    {
      lengthCheckState, dip_wordCount, dip_leftToWrite, filterPacket := LC_IDLE, 0, 0, false;
      wordBuffer := [NULL_WORD, NULL_WORD];
    }

    method Step(lengthCheckIn: seq<Word>, ghost more: seq<Word>) returns (read: nat, ipDataFifo: seq<Word>)
      requires Valid() && Lengths8(lengthCheckIn) && Lengths8(more)
      modifies this
      ensures Valid() && read <= |lengthCheckIn|
      ensures Run(old(Registers()), lengthCheckIn + more) == ipDataFifo + Run(Registers(), lengthCheckIn[read..] + more)
      ensures if old(dip_leftToWrite) > 0 then dip_leftToWrite == old(dip_leftToWrite) - 1 && read == 0
              else read == if lengthCheckIn != [] then 1 else 0
    {
      WithMore(lengthCheckIn, more);
      read, ipDataFifo := 0, [];
      if dip_leftToWrite == 0 {
        if lengthCheckIn != [] {
          var currWord := lengthCheckIn[0];
          read := 1;
          match lengthCheckState {
          case LC_IDLE =>
            if dip_wordCount == 1 {
              lengthCheckState := LC_SIZECHECK;
            }
            dip_wordCount := dip_wordCount + 1;
          case LC_SIZECHECK =>
            filterPacket := Pair(currWord.data[0], currWord.data[1]) > MAX_DATAGRAM_SIZE;
            if !filterPacket {
              ipDataFifo := [wordBuffer[0]];
            }
            lengthCheckState := LC_STREAM;
          case LC_STREAM =>
            if !filterPacket {
              ipDataFifo := [wordBuffer[0]];
            }
          }
          wordBuffer := [wordBuffer[1], currWord];
          if currWord.last {
            dip_wordCount, dip_leftToWrite, lengthCheckState := 0, 2, LC_IDLE;
          }
        }
      } else {
        if !filterPacket {
          ipDataFifo := [wordBuffer[0]];
        }
        wordBuffer := [wordBuffer[1], NULL_WORD];
        dip_leftToWrite := dip_leftToWrite - 1;
      }
    }
  }
}

/** The whole receive path of the IP handler. */
module IpHandler {
  import opened Arith
  import opened RxStream
  import opened PacketWords
  import opened OnesComplement
  import opened FrameEncoder
  import IpChecksum
  import MacFilter
  import LengthFilter
  import LengthCutter
  import IpStrip
  import IpPath

  /** For this node, of the type of IP, and not too long. */
  predicate Passes(f: IpPath.Frame, mac: Mac) {
    |f| > 17 && MacFilter.TypeOf(f, mac) == MacFilter.IPV4 && Pair(f[16], f[17]) <= LengthFilter.MAX_DATAGRAM_SIZE
  }

  function IfPasses(f: IpPath.Frame, mac: Mac): seq<IpPath.Frame> {
    if Passes(f, mac) then [f] else []
  }

  function Passing(fs: seq<IpPath.Frame>, mac: Mac): seq<IpPath.Frame> {
    Gather(fs, (f: IpPath.Frame) => IfPasses(f, mac))
  }

  /** detect_mac_protocol and length_check, each run to its end. */
  lemma {:induction false} FiltersExactly(route: MacFilter.FilterRegs, length: LengthFilter.LengthRegs,
                                          wss: seq<seq<Word>>, fs: seq<IpPath.Frame>, mac: Mac)
    returns (outs: seq<seq<Word>>)
    requires Carry(wss, fs) && (forall i :: 0 <= i < |fs| ==> |fs[i]| > 17)
    requires MacFilter.Ready(route) && LengthFilter.Ready(length)
    ensures Lengths8(Concat(wss)) && Lengths8(MacFilter.Route(route, Concat(wss), mac).ip)
    ensures Carry(outs, Passing(fs, mac))
    ensures LengthFilter.Run(length, MacFilter.Route(route, Concat(wss), mac).ip) == Concat(outs)
    decreases |fs|
  {
    AllLengths(wss, fs);
    MacFilter.RoutedLengths(route, Concat(wss), mac);
    if fs == [] {
      outs := [];
    } else {
      var ws, f, more := wss[0], fs[0], Concat(wss[1..]);
      AllLengths(wss[1..], fs[1..]);
      var route' := MacFilter.RoutesFrame(route, ws, f, more, mac);
      var rest := MacFilter.Route(route', more, mac).ip;
      MacFilter.RoutedLengths(route', more, mac);
      if MacFilter.TypeOf(f, mac) == MacFilter.IPV4 {
        var length' := LengthFilter.PassesIff(length, ws, f, rest);
        outs := FiltersExactly(route', length', wss[1..], fs[1..], mac);
      } else {
        assert [] + rest == rest;
        outs := FiltersExactly(route', length, wss[1..], fs[1..], mac);
      }
      if Passes(f, mac) {
        var others := outs;
        outs := [ws] + others;
        assert outs[1..] == others;
      }
    }
  }

  /** All stages together: over any sequence of frames, exactly the packets of the
      frames that are for this node, of the type of IP, not too long, and acceptable
      come out, in order, each cut by its total length. */
  lemma {:induction false} HandlesExactly(route: MacFilter.FilterRegs, length: LengthFilter.LengthRegs,
                                          data: IpStrip.DataRegs, header: IpStrip.FlagRegs, cut: LengthCutter.Regs,
                                          wss: seq<seq<Word>>, fs: seq<IpPath.Frame>, mac: Mac, my: IpStrip.Ip)
    returns (outs: seq<seq<Word>>, kept: seq<seq<Word>>)
    requires Carry(wss, fs) && (forall i :: 0 <= i < |fs| ==> |fs[i]| > 17)
    requires forall i :: 0 <= i < |Passing(fs, mac)| ==> IpStrip.IsJudged(Passing(fs, mac)[i])
    requires MacFilter.Ready(route) && LengthFilter.Ready(length) && LengthCutter.Idle(cut)
    requires data.wordCount == 0 && !data.wasLast && Word8(data.prevWord) && header.wordCount == 0
    ensures Lengths8(Concat(wss)) && Lengths8(MacFilter.Route(route, Concat(wss), mac).ip)
    ensures var filtered := LengthFilter.Run(length, MacFilter.Route(route, Concat(wss), mac).ip);
            Lengths8(filtered) && IpPath.Receive(data, header, cut, filtered, my) == Concat(outs)
    ensures IpPath.Received(outs, kept, IpPath.Accepted(Passing(fs, mac), my))
  {
    var passed := FiltersExactly(route, length, wss, fs, mac);
    outs, kept := IpPath.ReceivesExactly(data, header, cut, passed, Passing(fs, mac), my);
  }

  /** A packet sent to this node in a frame, padded in any way, passes the filters
      exactly if it is not too long. */
  lemma {:induction false} SentFramePasses(p: seq<Byte>, src: Mac, pad: seq<Byte>, mac: Mac, my: IpStrip.Ip)
    requires IpPath.Plain(p, my)
    ensures var q := IpChecksum.Filled(p, IpChecksum.Checksum(p));
            Passes(FrameEncoder.Frame(mac, src, q) + pad, mac) <==> |p| <= LengthFilter.MAX_DATAGRAM_SIZE
  {
    var q := IpChecksum.Filled(p, IpChecksum.Checksum(p));
    var f := FrameEncoder.Frame(mac, src, q) + pad;
    assert f[..6] == mac && f[12] == 8 && f[13] == 0 && f[16] == q[2] == p[2] && f[17] == q[3] == p[3];
  }
}
