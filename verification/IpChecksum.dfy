/** Packets on streams of eight-byte words. */
module PacketWords {
  import opened Arith
  import opened RxStream

  predicate Word8(w: Word) {
    |w.data| == 8 && |w.keep| == 8
  }

  ghost predicate Lengths8(ws: seq<Word>) {
    forall i :: 0 <= i < |ws| ==> Word8(ws[i])
  }

  /** The first of ws, and the others with more to come. */
  lemma {:induction false} JoinWords(ws: seq<Word>, more: seq<Word>)
    requires ws != [] && Word8(ws[0]) && Lengths8(ws[1..] + more)
    ensures Lengths8(ws + more) && (ws + more)[0] == ws[0] && (ws + more)[1..] == ws[1..] + more
  {
    var all := ws + more;
    assert all[1..] == ws[1..] + more;
    forall i | 0 <= i < |all| ensures Word8(all[i]) {
      if i > 0 {
        assert all[i] == all[1..][i - 1];
      }
    }
  }

  /** Taking ws apart with something behind it. */
  lemma {:induction false} HeadOf(ws: seq<Word>, more: seq<Word>)
    requires ws != []
    ensures (ws + more)[0] == ws[0] && (ws + more)[1..] == ws[1..] + more && ws == [ws[0]] + ws[1..]
    ensures [ws[0]] + (ws[1..] + more) == ws + more
  {
    assert (ws + more)[1..] == ws[1..] + more;
    assert [ws[0]] + ws[1..] == ws;
    assert [ws[0]] + (ws[1..] + more) == ([ws[0]] + ws[1..]) + more;
  }

  lemma {:induction false} OneWord(ws: seq<Word>, more: seq<Word>)
    requires |ws| == 1
    ensures ws == [ws[0]] && ws[1..] == [] && ws[1..] + more == more
  {}

  /** One word that carries a whole packet. */
  lemma {:induction false} LastOfPacket(w: Word, p: seq<Byte>)
    requires 1 <= |p| <= 8 && |w.data| == 8 && w.data[..|p|] == p && w.keep == Low(|p|) && w.last
    ensures IsPacket([w], p)
  {
    OnesOfLow(|p|);
    assert Views([w]) == [View(p, true)];
  }

  /** What is left of the bytes p in a word when the first n have gone out. */
  lemma {:induction false} TailOf(w: seq<Byte>, p: seq<Byte>, n: nat, stale: seq<Byte>)
    requires n <= |p| <= |w| && w[..|p|] == p
    ensures |w[n..] + stale| >= |p| - n && (w[n..] + stale)[..|p| - n] == p[n..]
  {
    forall i | 0 <= i < |p| - n ensures w[n..][i] == p[n..][i] {
      assert w[n + i] == w[..|p|][n + i];
    }
  }

  /** The words ws carry the packet p; lanes that are not kept are stale. */
  ghost predicate IsPacket(ws: seq<Word>, p: seq<Byte>) {
    p != [] && (forall i :: 0 <= i < |ws| ==> WellFormed(ws[i])) && Views(ws) == Burst(p)
  }

  /** The first word of a packet, and the others. */
  lemma {:induction false} FirstWord(ws: seq<Word>, p: seq<Byte>)
    requires IsPacket(ws, p)
    ensures ws != [] && Word8(ws[0]) && ws[0].keep == Low(Head(p))
    ensures ws[0].data[..Head(p)] == p[..Head(p)] && (ws[0].last <==> |p| <= 8)
    ensures |p| <= 8 ==> |ws| == 1
    ensures |p| > 8 ==> IsPacket(ws[1..], p[8..])
  {
    BurstHead(p);
    assert Views(ws)[0] == ViewOf(ws[0]) == View(p[..Head(p)], |p| <= 8);
    var n := Ones(ws[0].keep);
    assert ws[0].data[..n] == p[..Head(p)];
    assert n == |ws[0].data[..n]| == |p[..Head(p)]| == Head(p);
    assert Views(ws)[1..] == Views(ws[1..]);
  }

  /** Putting a full word before a packet. */
  lemma {:induction false} PrependWord(w: Word, ws: seq<Word>, b: seq<Byte>, p: seq<Byte>)
    requires IsPacket(ws, p) && w == Word(b, Low(8), false) && |b| == 8
    ensures IsPacket([w] + ws, b + p)
  {
    ViewsOfMore(w, ws);
    assert ViewOf(w) == View(b, false) by { OnesOfLow(8); }
    assert Burst(b + p) == [View(b, false)] + Burst(p) by {
      BurstHead(b + p);
      assert (b + p)[..8] == b && (b + p)[8..] == p;
    }
  }

  lemma {:induction false} ViewsOfMore(w: Word, ws: seq<Word>)
    ensures Views([w] + ws) == [ViewOf(w)] + Views(ws)
  {}

  /** The first two words of a packet that has more. */
  lemma {:induction false} TwoWords(ws: seq<Word>, p: seq<Byte>)
    requires IsPacket(ws, p) && |p| > 16
    ensures |ws| > 2 && ws[0].data == p[..8] && ws[1].data == p[8..16] && !ws[0].last && !ws[1].last
    ensures Word8(ws[0]) && Word8(ws[1])
    ensures ws[1..][1..] == ws[2..] && IsPacket(ws[2..], p[16..])
  {
    FirstWord(ws, p);
    FirstWord(ws[1..], p[8..]);
    FirstWord(ws[1..][1..], p[8..][8..]);
    assert ws[1..][1..] == ws[2..] && p[8..][8..] == p[16..];
    assert ws[0].data[..8] == ws[0].data && ws[1].data[..8] == ws[1].data && p[8..][..8] == p[8..16];
  }

  /** A queue with what is still to come. */
  lemma {:induction false} WithMore<T>(q: seq<T>, more: seq<T>)
    ensures q[0..] == q
    ensures q != [] ==> (q + more)[0] == q[0] && (q + more)[1..] == q[1..] + more
  {}

  // Sequences of packets.

  function Concat(wss: seq<seq<Word>>): seq<Word> {
    if wss == [] then [] else wss[0] + Concat(wss[1..])
  }

  ghost predicate Carry(wss: seq<seq<Word>>, ps: seq<seq<Byte>>) {
    |wss| == |ps| && forall i :: 0 <= i < |ps| ==> IsPacket(wss[i], ps[i])
  }

  lemma {:induction false} AllLengths(wss: seq<seq<Word>>, ps: seq<seq<Byte>>)
    requires Carry(wss, ps)
    ensures Lengths8(Concat(wss))
  {
    if wss != [] {
      AllLengths(wss[1..], ps[1..]);
      WordLengths(wss[0], ps[0]);
    }
  }

  lemma {:induction false} WordLengths(ws: seq<Word>, p: seq<Byte>)
    requires IsPacket(ws, p)
    ensures Lengths8(ws)
  {
    forall i | 0 <= i < |ws| ensures Word8(ws[i]) {
      assert WellFormed(ws[i]);
    }
  }

  function Bursts(ps: seq<seq<Byte>>): seq<View> {
    if ps == [] then [] else Burst(ps[0]) + Bursts(ps[1..])
  }

  /** The words ws carry the packets ps, one after the other. */
  ghost predicate CarryAll(ws: seq<Word>, ps: seq<seq<Byte>>) {
    (forall i :: 0 <= i < |ws| ==> WellFormed(ws[i])) && Views(ws) == Bursts(ps)
  }

  lemma {:induction false} Together(wss: seq<seq<Word>>, ps: seq<seq<Byte>>)
    requires Carry(wss, ps)
    ensures CarryAll(Concat(wss), ps)
  {
    if wss != [] {
      Together(wss[1..], ps[1..]);
      var ws, more := wss[0], Concat(wss[1..]);
      assert Views(ws + more) == Views(ws) + Views(more);
    }
  }

  /** The words of each packet. */
  function Divided(ws: seq<Word>, ps: seq<seq<Byte>>): (wss: seq<seq<Word>>)
    ensures |wss| == |ps|
    decreases |ps|
  {
    if ps == [] then []
    else
      var n := if |Burst(ps[0])| <= |ws| then |Burst(ps[0])| else |ws|;
      [ws[..n]] + Divided(ws[n..], ps[1..])
  }

  lemma {:induction false} Divide(ws: seq<Word>, ps: seq<seq<Byte>>)
    requires CarryAll(ws, ps) && forall i :: 0 <= i < |ps| ==> ps[i] != []
    ensures Carry(Divided(ws, ps), ps) && ws == Concat(Divided(ws, ps))
    decreases |ps|
  {
    if ps == [] {
      assert |Views(ws)| == 0;
    } else {
      var n, vs := |Burst(ps[0])|, Views(ws);
      assert vs == Burst(ps[0]) + Bursts(ps[1..]);
      assert Views(ws[..n]) == vs[..n] == Burst(ps[0]) && Views(ws[n..]) == vs[n..] == Bursts(ps[1..]);
      Divide(ws[n..], ps[1..]);
      assert Divided(ws, ps)[1..] == Divided(ws[n..], ps[1..]) && ws == ws[..n] + ws[n..];
    }
  }

  function Gather<S, T>(xs: seq<S>, g: S -> seq<T>): seq<T> {
    if xs == [] then [] else g(xs[0]) + Gather(xs[1..], g)
  }

  lemma {:induction false} GatherLast<S, T>(xs: seq<S>, g: S -> seq<T>)
    requires |xs| > 0
    ensures Gather(xs, g) == Gather(xs[..|xs| - 1], g) + g(xs[|xs| - 1])
  {
    if |xs| > 1 {
      GatherLast(xs[1..], g);
      assert xs[1..][..|xs| - 2] == xs[..|xs| - 1][1..];
    }
  }
}

/** compute_ip_checksum and ip_checksum_insert. */
module IpChecksum {
  import opened Arith
  import opened RxStream
  import opened Sealing
  import opened OnesComplement
  import opened PacketWords

  datatype Regs = Regs(sums: Sums, ipHeaderLen: nat, checksumWritten: bool, wordCount: nat, state: nat)

  const IDLE: Regs := Regs([0, 0, 0, 0], 0, true, 0, 0)
  const ALL: seq<bool> := [true, true, true, true]

  /** Which parts of the next word are summed up. */
  function Use(s: Regs): (use: seq<bool>)
    ensures |use| == 4
  {
    if s.wordCount == 0 then ALL
    else if s.wordCount == 1 then [true, false, true, true]
    else if s.ipHeaderLen == 0 then [false, false, false, false]
    else if s.ipHeaderLen == 3 then [true, true, false, false]
    else ALL
  }

  /** Counting down a four-bit number. */
  function Minus2(n: nat): (r: nat)
    ensures 2 <= n < 16 ==> r == n - 2
  {
    var d: int := n - 2;
    d % 16
  }

  /** The registers after reading a word. */
  function ReadNext(s: Regs, w: Word): Regs
    requires |w.data| == 8
  {
    var sums := AddParts(s.sums, w.data, Use(s));
    var count := if w.last then 0 else if s.wordCount < 2 then s.wordCount + 1 else s.wordCount;
    if s.wordCount == 0 then Regs(sums, w.data[0] % 16, true, count, s.state)
    else if s.wordCount == 1 then Regs(sums, Minus2(s.ipHeaderLen), true, count, s.state)
    else if s.ipHeaderLen == 0 then Regs(sums, 0, true, count, s.state)
    else if s.ipHeaderLen == 3 || s.ipHeaderLen == 4 then Regs(sums, 0, false, count, s.state)
    else Regs(sums, Minus2(s.ipHeaderLen), true, count, s.state)
  }

  /** The registers after one of the four calls that finish a checksum. */
  function FinishNext(s: Regs): Regs {
    if s.state == 0 then
      s.(sums := [Fold(s.sums[0] + s.sums[2]), Fold(s.sums[1] + s.sums[3]), s.sums[2], s.sums[3]], state := 1)
    else if s.state == 1 then s.(sums := s.sums[0 := Fold(s.sums[0] + s.sums[1])], state := 2)
    else if s.state == 2 then s.(sums := s.sums[0 := Not17(s.sums[0])], state := 3)
    else s.(sums := [0, 0, 0, 0], checksumWritten := true, state := 0)
  }

  function FinishOut(s: Regs): seq<nat> {
    if s.state == 2 then [Not17(s.sums[0]) % 0x1_0000] else []
  }

  /** The checksums output until all words have been read, and everything is done. */
  function Run(s: Regs, ws: seq<Word>): (cs: seq<nat>)
    requires Lengths8(ws)
    ensures forall i :: 0 <= i < |cs| ==> cs[i] <= MAX
    decreases |ws|, if s.checksumWritten || s.state > 3 then 0 else 4 - s.state
  {
    if !s.checksumWritten && s.state <= 3 then FinishOut(s) + Run(FinishNext(s), ws)
    else if ws == [] then []
    else Run(ReadNext(s, ws[0]), ws[1..])
  }

  /** From s the machine gets to s', reading ws up to ws' and outputting out. */
  ghost predicate RunsTo(s: Regs, ws: seq<Word>, out: seq<nat>, s': Regs, ws': seq<Word>) {
    forall k {:trigger Opened(k)} :: Opened(k) && k == RUN ==>
      Lengths8(ws) && Lengths8(ws') && Run(s, ws) == out + Run(s', ws')
  }

  const RUN: nat := 6

  lemma {:induction false} Then(s: Regs, ws: seq<Word>, out: seq<nat>, s1: Regs, ws1: seq<Word>, out1: seq<nat>,
                                s2: Regs, ws2: seq<Word>)
    requires RunsTo(s, ws, out, s1, ws1) && RunsTo(s1, ws1, out1, s2, ws2)
    ensures RunsTo(s, ws, out + out1, s2, ws2)
  {
    assert Opened(RUN);
    assert out + (out1 + Run(s2, ws2)) == out + out1 + Run(s2, ws2);
  }

  lemma {:induction false} Stay(s: Regs, ws: seq<Word>)
    requires Lengths8(ws)
    ensures RunsTo(s, ws, [], s, ws)
  {}

  /** Reading w takes s to s'. */
  ghost predicate Reads(s: Regs, w: Word, s': Regs)
    requires |w.data| == 8
  {
    forall k {:trigger Opened(k)} :: Opened(k) && k == READ ==> s.checksumWritten && s' == ReadNext(s, w)
  }

  const READ: nat := 7

  lemma {:induction false} OneRead(s: Regs, ws: seq<Word>, more: seq<Word>, s': Regs)
    requires ws != [] && Word8(ws[0]) && Lengths8(ws[1..] + more) && Reads(s, ws[0], s')
    ensures Lengths8(ws + more) && RunsTo(s, ws + more, [], s', ws[1..] + more)
  {
    assert Opened(READ);
    JoinWords(ws, more);
  }

  lemma {:induction false} Finishing(s: Regs, ws: seq<Word>, t: nat, out: seq<nat>)
    requires !s.checksumWritten && s.state == 0 && Stand(s.sums, t) && Lengths8(ws)
    requires out == [MAX - Canon(t)]
    ensures RunsTo(s, ws, out, s.(sums := [0, 0, 0, 0], checksumWritten := true), ws)
  {
    CombineStands(s.sums, t);
    var s1 := FinishNext(s);
    var s2 := FinishNext(s1);
    var s3 := FinishNext(s2);
    assert s2.sums[0] == Canon(t);
    assert FinishOut(s2) == out;
    assert FinishNext(s3) == s.(sums := [0, 0, 0, 0], checksumWritten := true);
    assert Run(s, ws) == Run(s1, ws) == Run(s2, ws);
    assert Run(s2, ws) == FinishOut(s2) + Run(s3, ws);
    assert Run(s3, ws) == Run(FinishNext(s3), ws);
  }

  /** After the header, the rest of the packet changes nothing. */
  lemma {:induction false} Ignoring(ws: seq<Word>, p: seq<Byte>, more: seq<Word>)
    requires IsPacket(ws, p) && Lengths8(more)
    ensures Lengths8(ws + more) && RunsTo(IDLE.(wordCount := 2), ws + more, [], IDLE, more)
    decreases |p|
  {
    var s := IDLE.(wordCount := 2);
    FirstWord(ws, p);
    var s' := ReadIgnored(ws[0]);
    if |p| > 8 {
      Ignoring(ws[1..], p[8..], more);
    } else {
      assert ws[1..] + more == more;
      Stay(IDLE, more);
    }
    OneRead(s, ws, more, s');
    Then(s, ws + more, [], s', ws[1..] + more, [], IDLE, more);
  }

  lemma {:induction false} ReadIgnored(w: Word) returns (s': Regs)
    requires |w.data| == 8
    ensures Reads(IDLE.(wordCount := 2), w, s') && s' == if w.last then IDLE else IDLE.(wordCount := 2)
  {
    s' := ReadNext(IDLE.(wordCount := 2), w);
    AddNone(IDLE.sums, w.data);
  }

  /** What reading the next word of the header does, when `left` four-byte parts of it
      are still to be summed up. */
  lemma {:induction false} ReadHeader(s: Regs, w: Word, left: nat, t: nat) returns (s': Regs)
    requires |w.data| == 8 && 1 <= left <= 11 && Stand(s.sums, t)
    requires s.checksumWritten && s.wordCount == 2 && s.state == 0 && s.ipHeaderLen == left + 2
    ensures Reads(s, w, s') && Stand(s'.sums, t + Total(if left == 1 then w.data[..4] else w.data))
    ensures s' == Regs(s'.sums, if left <= 2 then 0 else left, left > 2, if w.last then 0 else 2, 0)
  {
    s' := ReadNext(s, w);
    AddStands(s.sums, w.data, Use(s), t);
    WholeWord(w.data);
  }

  /** The last word of the header has been read. */
  lemma {:induction false} EndOfHeader(s: Regs, ws: seq<Word>, p: seq<Byte>, more: seq<Word>, t: nat, out: seq<nat>)
    requires IsPacket(ws, p) && Lengths8(more) && Stand(s.sums, t) && out == [MAX - Canon(t)]
    requires s == Regs(s.sums, 0, false, if ws[0].last then 0 else 2, 0)
    ensures Lengths8(ws[1..] + more) && RunsTo(s, ws[1..] + more, out, IDLE, more)
  {
    FirstWord(ws, p);
    var s' := s.(sums := [0, 0, 0, 0], checksumWritten := true);
    if |p| > 8 {
      Ignoring(ws[1..], p[8..], more);
    } else {
      assert ws[1..] + more == more;
      Stay(IDLE, more);
    }
    Finishing(s, ws[1..] + more, t, out);
    Then(s, ws[1..] + more, out, s', ws[1..] + more, [], IDLE, more);
  }

  /** The rest of the header is summed up, then the checksum is output. */
  lemma {:induction false} RestOfHeader(s: Regs, ws: seq<Word>, p: seq<Byte>, more: seq<Word>, left: nat, t: nat,
                                        sum: nat, out: seq<nat>)
    requires IsPacket(ws, p) && Lengths8(more) && 1 <= left <= 11 && 4 * left <= |p|
    requires s.checksumWritten && s.wordCount == 2 && s.state == 0 && s.ipHeaderLen == left + 2 && Stand(s.sums, t)
    requires sum == t + Total(p[..4 * left]) && out == [MAX - Canon(sum)]
    ensures Lengths8(ws + more) && RunsTo(s, ws + more, out, IDLE, more)
    decreases left
  {
    FirstWord(ws, p);
    var s' := ReadHeader(s, ws[0], left, t);
    FirstBytes(ws[0].data, p, left);
    if left <= 2 {
      EndOfHeader(s', ws, p, more, sum, out);
    } else {
      HeadSplit(p, 4 * left);
      RestOfHeader(s', ws[1..], p[8..], more, left - 2, t + Total(p[..8]), sum, out);
    }
    OneRead(s, ws, more, s');
    Then(s, ws + more, [], s', ws[1..] + more, out, IDLE, more);
  }

  lemma {:induction false} FirstBytes(w: seq<Byte>, p: seq<Byte>, left: nat)
    requires |w| == 8 && 1 <= left && 4 * left <= |p| && w[..Head(p)] == p[..Head(p)]
    ensures (if left == 1 then w[..4] else w) == if left <= 2 then p[..4 * left] else p[..8]
  {
    assert left == 1 ==> w[..4] == w[..Head(p)][..4] == p[..4];
  }

  lemma {:induction false} HeadSplit(p: seq<Byte>, n: nat)
    requires 8 <= n <= |p|
    ensures Total(p[..n]) == Total(p[..8]) + Total(p[8..][..n - 8])
  {
    TotalSplit(p[..8], p[8..][..n - 8]);
    assert p[..n] == p[..8] + p[8..][..n - 8];
  }

  // The whole packet.

  function HeaderLength(p: seq<Byte>): nat
    requires p != []
  {
    p[0] % 16
  }

  /** The header fits the packet and its length is a legal one. */
  ghost predicate IsIpPacket(p: seq<Byte>) {
    |p| >= 20 && 5 <= HeaderLength(p) && 4 * HeaderLength(p) <= |p|
  }

  /** The header with its checksum field taken as zero, summed up. */
  function HeaderTotal(p: seq<Byte>): nat
    requires IsIpPacket(p)
  {
    Total(p[..10]) + Total(p[12..4 * HeaderLength(p)])
  }

  function Checksum(p: seq<Byte>): (c: nat)
    requires IsIpPacket(p)
    ensures c <= MAX
  {
    MAX - Canon(HeaderTotal(p))
  }

  /** Reading the first two words. */
  lemma {:induction false} FirstWords(v: Word, w: Word, p: seq<Byte>) returns (s1: Regs, s: Regs)
    requires IsIpPacket(p) && v.data == p[..8] && w.data == p[8..16] && !v.last && !w.last
    ensures Reads(IDLE, v, s1) && Reads(s1, w, s)
    ensures s == Regs(s.sums, HeaderLength(p) - 2, true, 2, 0)
    ensures Stand(s.sums, Total(p[..10]) + Total(p[12..16]))
  {
    s1 := ReadNext(IDLE, v);
    s := ReadNext(s1, w);
    FirstSums(p, s1.sums, s.sums);
  }

  lemma {:induction false} FirstSums(p: seq<Byte>, first: Sums, second: Sums)
    requires |p| >= 16 && first == AddParts(IDLE.sums, p[..8], ALL)
    requires second == AddParts(first, p[8..16], [true, false, true, true])
    ensures Stand(second, Total(p[..10]) + Total(p[12..16]))
  {
    ZeroStands();
    AddStands(IDLE.sums, p[..8], ALL, 0);
    WholeWord(p[..8]);
    AddStands(first, p[8..16], [true, false, true, true], Total(p[..8]));
    SecondWord(p);
  }

  lemma {:induction false} SecondWord(p: seq<Byte>)
    requires |p| >= 16
    ensures Total(p[..8]) + Parts(p[8..16], [true, false, true, true]) == Total(p[..10]) + Total(p[12..16])
  {
    var w := p[8..16];
    TotalSplit(p[..8], p[8..10]);
    assert p[..10] == p[..8] + p[8..10];
    assert p[8..10][2..] == [] && p[12..16][2..] == p[14..16] && p[14..16][2..] == [];
    assert Total(p[12..16]) == Pair(p[12], p[13]) + Total(p[14..16]);
    assert w[0] == p[8] && w[1] == p[9] && w[4] == p[12] && w[5] == p[13] && w[6] == p[14] && w[7] == p[15];
  }

  /** For every legal header length the checksum output for a packet is the ones'
      complement of the sum of its header without the checksum field, and the
      registers are back where they were. */
  lemma {:induction false} ChecksumOfPacket(ws: seq<Word>, p: seq<Byte>, more: seq<Word>)
    requires IsPacket(ws, p) && IsIpPacket(p) && Lengths8(more)
    ensures Lengths8(ws + more) && Run(IDLE, ws + more) == [Checksum(p)] + Run(IDLE, more)
  {
    TwoWords(ws, p);
    var s1, s := FirstWords(ws[0], ws[1], p);
    HeaderInParts(p);
    RestOfHeader(s, ws[2..], p[16..], more, HeaderLength(p) - 4, Total(p[..10]) + Total(p[12..16]), HeaderTotal(p),
                 [Checksum(p)]);
    OneRead(s1, ws[1..], more, s);
    Then(s1, ws[1..] + more, [], s, ws[2..] + more, [Checksum(p)], IDLE, more);
    OneRead(IDLE, ws, more, s1);
    Then(IDLE, ws + more, [], s1, ws[1..] + more, [Checksum(p)], IDLE, more);
    assert Opened(RUN);
  }

  lemma {:induction false} HeaderInParts(p: seq<Byte>)
    requires IsIpPacket(p)
    ensures HeaderTotal(p) == Total(p[..10]) + Total(p[12..16]) + Total(p[16..][..4 * (HeaderLength(p) - 4)])
  {
    var n := HeaderLength(p);
    TotalSplit(p[12..16], p[16..4 * n]);
    assert p[12..4 * n] == p[12..16] + p[16..4 * n] && p[16..][..4 * (n - 4)] == p[16..4 * n];
  }

  // Filling in the checksum.

  function Filled(p: seq<Byte>, c: nat): (q: seq<Byte>)
    requires |p| >= 12 && c <= MAX
    ensures |q| == |p| && q[0] == p[0]
  {
    p[10 := c / 256][11 := c % 256]
  }

  /** A header with this checksum filled in sums up to all ones; in general one does
      exactly if it holds this checksum, or the other representation of zero. */
  lemma {:induction false} FilledVerifies(p: seq<Byte>, c: nat)
    requires IsIpPacket(p) && c <= MAX && p[0] > 0
    ensures var h := Filled(p, c)[..4 * HeaderLength(p)];
            Canon(Total(h)) == MAX <==> c == Checksum(p) || (c == MAX && Checksum(p) == 0)
  {
    var n := 4 * HeaderLength(p);
    var h := Filled(p, c)[..n];
    TotalSplit(h[..12], h[12..]);
    TotalSplit(h[..10], h[10..12]);
    assert h == h[..12] + h[12..] && h[..12] == h[..10] + h[10..12];
    assert h[..10] == p[..10] && h[12..] == p[12..n] && h[10..12][2..] == [];
    TotalPositive(p[..10]);
    ComplementCompletes(HeaderTotal(p), c);
  }

  /** compute_ip_checksum. */
  class ComputeIpChecksum {
    const cics_ip_sums: array<nat>
    var cics_ipHeaderLen: nat
    var cics_checksumWritten: bool
    var cics_wordCount: nat
    var cics_state: nat

    ghost function Registers(): Regs
      requires cics_ip_sums.Length == 4
      reads this, cics_ip_sums
    {
      Regs(cics_ip_sums[..], cics_ipHeaderLen, cics_checksumWritten, cics_wordCount, cics_state)
    }

    constructor ()
      ensures fresh(cics_ip_sums) && cics_ip_sums.Length == 4 && Registers() == IDLE
    {
      cics_ip_sums := new nat[4](_ => 0);
      cics_ipHeaderLen, cics_checksumWritten, cics_wordCount, cics_state := 0, true, 0, 0;
      new;
      assert cics_ip_sums[..] == [0, 0, 0, 0];
    }

    /** One call, given the words that wait: how many it reads, which it passes on,
        and the checksums it outputs. Together with what is still to be output they
        are what was to be output before. */
    method Step(dataIn: seq<Word>, ghost more: seq<Word>) returns (read: nat, checksumFifoOut: seq<nat>)
      requires cics_ip_sums.Length == 4 && Lengths8(dataIn) && Lengths8(more) && cics_state <= 3
      modifies this, cics_ip_sums
      ensures read <= |dataIn| && (dataIn != [] || !old(cics_checksumWritten) || (read == 0 && checksumFifoOut == []))
      ensures Registers() == (if !old(cics_checksumWritten) then FinishNext(old(Registers()))
                              else if dataIn != [] then ReadNext(old(Registers()), dataIn[0])
                              else old(Registers()))
      ensures cics_state <= 3 && read == if old(cics_checksumWritten) && dataIn != [] then 1 else 0
      ensures !old(cics_checksumWritten) ==> cics_checksumWritten || cics_state > old(cics_state)
      ensures Run(old(Registers()), dataIn + more) == checksumFifoOut + Run(Registers(), dataIn[read..] + more)
    {
      read, checksumFifoOut := 0, [];
      WithMore(dataIn, more);
      if !cics_checksumWritten {
        checksumFifoOut := Finish();
      } else if dataIn != [] {
        read := 1;
        Read(dataIn[0]);
      }
    }

    method Finish() returns (checksumFifoOut: seq<nat>)
      requires cics_ip_sums.Length == 4 && cics_state <= 3
      modifies this, cics_ip_sums
      ensures Registers() == FinishNext(old(Registers())) && checksumFifoOut == FinishOut(old(Registers()))
    {
      checksumFifoOut := [];
      ghost var before := Registers();
      match cics_state {
      case 0 =>
        cics_ip_sums[0] := Fold(cics_ip_sums[0] + cics_ip_sums[2]);
        cics_ip_sums[1] := Fold(cics_ip_sums[1] + cics_ip_sums[3]);
        cics_state := 1;
      case 1 =>
        cics_ip_sums[0] := Fold(cics_ip_sums[0] + cics_ip_sums[1]);
        cics_state := 2;
      case 2 =>
        cics_ip_sums[0] := Not17(cics_ip_sums[0]);
        checksumFifoOut := [cics_ip_sums[0] % 0x1_0000];
        cics_state := 3;
      case _ =>
        cics_ip_sums[0], cics_ip_sums[1], cics_ip_sums[2], cics_ip_sums[3] := 0, 0, 0, 0;
        cics_checksumWritten, cics_state := true, 0;
      }
      assert cics_ip_sums[..] == FinishNext(before).sums;
    }

    method Read(currWord: Word)
      requires cics_ip_sums.Length == 4 && |currWord.data| == 8 && cics_checksumWritten
      modifies this, cics_ip_sums
      ensures Registers() == ReadNext(old(Registers()), currWord)
    {
      var use := if cics_wordCount == 0 then ALL
                 else if cics_wordCount == 1 then [true, false, true, true]
                 else if cics_ipHeaderLen == 0 then [false, false, false, false]
                 else if cics_ipHeaderLen == 3 then [true, true, false, false]
                 else ALL;
      SumUp(cics_ip_sums, currWord.data, use);
      if cics_wordCount == 0 {
        cics_ipHeaderLen := currWord.data[0] % 16;
      } else if cics_wordCount == 1 {
        cics_ipHeaderLen := Minus2(cics_ipHeaderLen);
      } else if cics_ipHeaderLen == 3 || cics_ipHeaderLen == 4 {
        cics_ipHeaderLen, cics_checksumWritten := 0, false;
      } else if cics_ipHeaderLen != 0 {
        cics_ipHeaderLen := Minus2(cics_ipHeaderLen);
      }
      if cics_wordCount < 2 {
        cics_wordCount := cics_wordCount + 1;
      }
      if currWord.last {
        cics_wordCount := 0;
      }
    }
  }

  // ip_checksum_insert.

  /** A word with the checksum in its bytes 2 and 3. */
  function Insert(w: Word, c: nat): Word
    requires |w.data| == 8 && c <= MAX
  {
    w.(data := w.data[2 := c / 256][3 := c % 256])
  }

  function InsertNext(count: nat, w: Word): nat {
    if w.last then 0 else if count < 2 then count + 1 else count
  }

  /** The words output, as far as the words and checksums waiting allow. */
  function Inserted(count: nat, ws: seq<Word>, cs: seq<nat>): (out: seq<Word>)
    requires Lengths8(ws) && forall i :: 0 <= i < |cs| ==> cs[i] <= MAX
    ensures Lengths8(out)
    decreases |ws|
  {
    if ws == [] || (count == 1 && cs == []) then []
    else if count == 1 then [Insert(ws[0], cs[0])] + Inserted(InsertNext(1, ws[0]), ws[1..], cs[1..])
    else [ws[0]] + Inserted(InsertNext(count, ws[0]), ws[1..], cs)
  }

  class IpChecksumInsert {
    var ici_wordCount: nat

    constructor ()
      ensures ici_wordCount == 0
    {
      ici_wordCount := 0;
    }

    method Step(dataIn: seq<Word>, checksumFifoIn: seq<nat>, ghost more: seq<Word>, ghost moreCs: seq<nat>)
      returns (read: nat, readCs: nat, dataOut: seq<Word>)
      requires Lengths8(dataIn) && (forall i :: 0 <= i < |checksumFifoIn| ==> checksumFifoIn[i] <= MAX)
      requires Lengths8(more) && (forall i :: 0 <= i < |moreCs| ==> moreCs[i] <= MAX)
      requires ici_wordCount <= 2
      modifies this
      ensures read <= |dataIn| && readCs <= |checksumFifoIn| && ici_wordCount <= 2 && read == |dataOut|
      ensures dataIn != [] && (old(ici_wordCount) == 1 ==> checksumFifoIn != []) ==> read == 1
      ensures Inserted(old(ici_wordCount), dataIn + more, checksumFifoIn + moreCs)
              == dataOut + Inserted(ici_wordCount, dataIn[read..] + more, checksumFifoIn[readCs..] + moreCs)
    {
      WithMore(dataIn, more);
      WithMore(checksumFifoIn, moreCs);
      read, readCs, dataOut := 0, 0, [];
      var last := false;
      match ici_wordCount {
      case 0 =>
        if dataIn != [] {
          read, dataOut, last := 1, [dataIn[0]], dataIn[0].last;
          ici_wordCount := 1;
        }
      case 1 =>
        if dataIn != [] && checksumFifoIn != [] {
          read, readCs, last := 1, 1, dataIn[0].last;
          dataOut := [Insert(dataIn[0], checksumFifoIn[0])];
          ici_wordCount := 2;
        }
      case _ =>
        if dataIn != [] {
          read, dataOut, last := 1, [dataIn[0]], dataIn[0].last;
        }
      }
      if last {
        ici_wordCount := 0;
      }
    }
  }

  /** The checksum goes into bytes 10 and 11 of the packet; nothing else changes. */
  lemma {:induction false} InsertsInto(ws: seq<Word>, p: seq<Byte>, more: seq<Word>, c: nat, cs: seq<nat>)
    returns (filled: seq<Word>)
    requires IsPacket(ws, p) && |p| > 16 && Lengths8(more) && c <= MAX
    requires forall i :: 0 <= i < |cs| ==> cs[i] <= MAX
    ensures IsPacket(filled, Filled(p, c)) && Lengths8(ws + more)
    ensures Inserted(0, ws + more, [c] + cs) == filled + Inserted(0, more, cs)
  {
    TwoWords(ws, p);
    FirstWord(ws, p);
    FirstWord(ws[1..], p[8..]);
    var w, rest := Insert(ws[1], c), ws[2..];
    filled := [ws[0]] + ([w] + rest);
    FilledWords(p, c, ws[0], w, rest);
    PassedOn(rest, p[16..], more, cs);
    TwoSteps(ws, more, c, cs, rest + Inserted(0, more, cs));
    Regroup(ws[0], w, rest, Inserted(0, more, cs));
  }

  lemma {:induction false} Regroup(a: Word, b: Word, rest: seq<Word>, tail: seq<Word>)
    ensures [a] + ([b] + (rest + tail)) == ([a] + ([b] + rest)) + tail
  {}

  lemma {:induction false} FilledWords(p: seq<Byte>, c: nat, w0: Word, w1: Word, rest: seq<Word>)
    requires |p| > 16 && c <= MAX && IsPacket(rest, p[16..])
    requires w0 == Word(p[..8], Low(8), false) && w1 == Word(p[8..16][2 := c / 256][3 := c % 256], Low(8), false)
    ensures IsPacket([w0] + ([w1] + rest), Filled(p, c))
  {
    PrependWord(w1, rest, w1.data, p[16..]);
    PrependWord(w0, [w1] + rest, p[..8], w1.data + p[16..]);
    assert p[..8] + (w1.data + p[16..]) == Filled(p, c);
  }

  lemma {:induction false} TwoSteps(ws: seq<Word>, more: seq<Word>, c: nat, cs: seq<nat>, tail: seq<Word>)
    requires |ws| >= 2 && Word8(ws[0]) && Word8(ws[1]) && !ws[0].last && !ws[1].last && c <= MAX
    requires (forall i :: 0 <= i < |cs| ==> cs[i] <= MAX) && Lengths8(ws[2..] + more)
    requires Inserted(2, ws[2..] + more, cs) == tail
    ensures Lengths8(ws + more) && Inserted(0, ws + more, [c] + cs) == [ws[0]] + ([Insert(ws[1], c)] + tail)
  {
    assert ws[1..][1..] == ws[2..] && ([c] + cs)[1..] == cs;
    JoinWords(ws[1..], more);
    JoinWords(ws, more);
    assert Inserted(1, ws[1..] + more, [c] + cs) == [Insert(ws[1], c)] + tail;
  }

  lemma {:induction false} PassedOn(ws: seq<Word>, p: seq<Byte>, more: seq<Word>, cs: seq<nat>)
    requires IsPacket(ws, p) && Lengths8(more) && forall i :: 0 <= i < |cs| ==> cs[i] <= MAX
    ensures Lengths8(ws + more) && Inserted(2, ws + more, cs) == ws + Inserted(0, more, cs)
    decreases |p|
  {
    FirstWord(ws, p);
    assert (ws + more)[0] == ws[0] && (ws + more)[1..] == ws[1..] + more;
    if |p| > 8 {
      PassedOn(ws[1..], p[8..], more, cs);
    } else {
      assert ws[1..] + more == more;
    }
  }
}
