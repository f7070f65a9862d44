/** check_ip_checksum: the data path strips the Ethernet header, the flag path judges
    the IP header. */
module IpStrip {
  import opened Arith
  import opened Sealing
  import opened RxStream
  import opened PacketWords
  import opened OnesComplement

  // The data path.

  datatype DataRegs = DataRegs(wordCount: nat, prevWord: Word, wasLast: bool)

  const DATA_START: DataRegs := DataRegs(0, Word([0, 0, 0, 0, 0, 0, 0, 0], Low(0), false), false)

  function Count(count: nat, w: Word): nat {
    if w.last then 0 else if count < 4 then count + 1 else count
  }

  function DataNext(s: DataRegs, w: Word): DataRegs
    requires Word8(w)
  {
    DataRegs(Count(s.wordCount, w), w, w.last && w.keep[6])
  }

  /** The word sent: the last two bytes of the word before, the first six of w. */
  function Sent(prev: Word, w: Word): Word
    requires Word8(prev) && Word8(w)
  {
    Word(prev.data[6..] + w.data[..6], prev.keep[6..] + w.keep[..6], !w.keep[6])
  }

  function Remaining(prev: Word): Word
    requires Word8(prev)
  {
    Word(prev.data[6..] + [0, 0, 0, 0, 0, 0], prev.keep[6..] + [false, false, false, false, false, false], true)
  }

  /** The words output until no more words wait. */
  function DataRun(s: DataRegs, ws: seq<Word>): (out: seq<Word>)
    requires Word8(s.prevWord) && Lengths8(ws)
    ensures Lengths8(out)
    decreases |ws|, if s.wasLast then 1 else 0
  {
    if s.wasLast then [Remaining(s.prevWord)] + DataRun(s.(wasLast := false), ws)
    else if ws == [] then []
    else (if s.wordCount >= 2 then [Sent(s.prevWord, ws[0])] else []) + DataRun(DataNext(s, ws[0]), ws[1..])
  }

  ghost predicate DataRunsTo(s: DataRegs, ws: seq<Word>, out: seq<Word>, s': DataRegs, ws': seq<Word>) {
    forall k {:trigger Opened(k)} :: Opened(k) && k == DATA ==>
      Word8(s.prevWord) && Word8(s'.prevWord) && Lengths8(ws) && Lengths8(ws')
      && DataRun(s, ws) == out + DataRun(s', ws')
  }

  const DATA: nat := 9

  lemma {:induction false} DataThen(s: DataRegs, ws: seq<Word>, out: seq<Word>, s1: DataRegs, ws1: seq<Word>,
                                    out1: seq<Word>, s2: DataRegs, ws2: seq<Word>)
    requires DataRunsTo(s, ws, out, s1, ws1) && DataRunsTo(s1, ws1, out1, s2, ws2)
    ensures DataRunsTo(s, ws, out + out1, s2, ws2)
  {
    assert Opened(DATA);
    assert out + (out1 + DataRun(s2, ws2)) == out + out1 + DataRun(s2, ws2);
  }

  lemma {:induction false} DataRead(s: DataRegs, ws: seq<Word>, more: seq<Word>)
    requires !s.wasLast && Word8(s.prevWord) && ws != [] && Word8(ws[0]) && Lengths8(ws[1..] + more)
    ensures DataRunsTo(s, ws + more, if s.wordCount >= 2 then [Sent(s.prevWord, ws[0])] else [],
                       DataNext(s, ws[0]), ws[1..] + more)
  {
    JoinWords(ws, more);
  }

  lemma {:induction false} DataFlush(s: DataRegs, ws: seq<Word>)
    requires s.wasLast && Word8(s.prevWord) && Lengths8(ws)
    ensures DataRunsTo(s, ws, [Remaining(s.prevWord)], s.(wasLast := false), ws)
  {}

  lemma {:induction false} StripPatterns(n: nat)
    requires 1 <= n <= 8
    ensures Low(8)[6..] + Low(n)[..6] == Low(2 + if n < 6 then n else 6)
    ensures n > 6 ==> Low(n)[6..] + [false, false, false, false, false, false] == Low(n - 6)
    ensures Low(n)[6] == (n > 6)
  {}

  /** With two bytes h held back, the last word of a frame comes out after them. */
  lemma {:induction false} StrippingLast(s: DataRegs, ws: seq<Word>, h: seq<Byte>, p: seq<Byte>, more: seq<Word>)
    returns (out: seq<Word>, s': DataRegs)
    requires IsPacket(ws, p) && Lengths8(more) && |p| <= 8
    requires s.wordCount >= 2 && !s.wasLast && |s.prevWord.data| == 8 && s.prevWord.keep == Low(8)
    requires h == s.prevWord.data[6..]
    ensures IsPacket(out, h + p) && s'.wordCount == 0 && !s'.wasLast && Word8(s'.prevWord) && Lengths8(ws + more)
    ensures DataRunsTo(s, ws + more, out, s', more)
  {
    FirstWord(ws, p);
    var w := ws[0];
    var s1 := DataNext(s, w);
    StripPatterns(Head(p));
    var sent := Sent(s.prevWord, w);
    assert ws[1..] + more == more;
    JoinWords(ws, more);
    DataRead(s, ws, more);
    if |p| <= 6 {
      out, s' := [sent], s1;
      assert sent.data[..2 + |p|] == h + p;
      LastOfPacket(sent, h + p);
    } else {
      var last := Remaining(w);
      DataFlush(s1, more);
      s' := s1.(wasLast := false);
      DataThen(s, ws + more, [sent], s1, more, [last], s', more);
      out := [sent] + [last];
      TailOf(w.data, p, 6, [0, 0, 0, 0, 0, 0]);
      LastOfPacket(last, p[6..]);
      PrependWord(sent, [last], h + p[..6], p[6..]);
      assert (h + p[..6]) + p[6..] == h + p;
    }
  }

  /** The same for all that is left of a frame. */
  lemma {:induction false} Stripping(s: DataRegs, ws: seq<Word>, h: seq<Byte>, p: seq<Byte>, more: seq<Word>)
    returns (out: seq<Word>, s': DataRegs)
    requires IsPacket(ws, p) && Lengths8(more)
    requires s.wordCount >= 2 && !s.wasLast && |s.prevWord.data| == 8 && s.prevWord.keep == Low(8)
    requires h == s.prevWord.data[6..]
    ensures IsPacket(out, h + p) && s'.wordCount == 0 && !s'.wasLast && Word8(s'.prevWord) && Lengths8(ws + more)
    ensures DataRunsTo(s, ws + more, out, s', more)
    decreases |p|
  {
    FirstWord(ws, p);
    var w := ws[0];
    var s1 := DataNext(s, w);
    StripPatterns(Head(p));
    var sent := Sent(s.prevWord, w);
    if |p| <= 8 {
      out, s' := StrippingLast(s, ws, h, p, more);
    } else {
      assert w.data[..8] == w.data == p[..8];
      var rest;
      rest, s' := Stripping(s1, ws[1..], p[6..8], p[8..], more);
      JoinWords(ws, more);
      DataRead(s, ws, more);
      DataThen(s, ws + more, [sent], s1, ws[1..] + more, rest, s', more);
      out := [sent] + rest;
      PrependWord(sent, rest, h + p[..6], p[6..8] + p[8..]);
      assert (h + p[..6]) + (p[6..8] + p[8..]) == h + p;
    }
  }

  /** The first fourteen bytes of a frame are stripped, and nothing else. */
  lemma {:induction false} Strips(s: DataRegs, ws: seq<Word>, f: seq<Byte>, more: seq<Word>)
    returns (out: seq<Word>, s': DataRegs)
    requires IsPacket(ws, f) && Lengths8(more) && |f| > 16
    requires s.wordCount == 0 && !s.wasLast && Word8(s.prevWord)
    ensures IsPacket(out, f[14..]) && s'.wordCount == 0 && !s'.wasLast && Word8(s'.prevWord) && Lengths8(ws + more)
    ensures DataRun(s, ws + more) == out + DataRun(s', more)
  {
    FirstWord(ws, f);
    FirstWord(ws[1..], f[8..]);
    TwoWords(ws, f);
    var s1 := DataNext(s, ws[0]);
    var s2 := DataNext(s1, ws[1]);
    out, s' := Stripping(s2, ws[2..], f[14..16], f[16..], more);
    assert f[14..16] + f[16..] == f[14..];
    JoinWords(ws[1..], more);
    DataRead(s1, ws[1..], more);
    DataThen(s1, ws[1..] + more, [], s2, ws[2..] + more, out, s', more);
    JoinWords(ws, more);
    DataRead(s, ws, more);
    DataThen(s, ws + more, [], s1, ws[1..] + more, out, s', more);
    assert Opened(DATA);
  }

  // The flag path.

  type Ip = a: seq<Byte> | |a| == 4 witness [0, 0, 0, 0]
  const BROADCAST: Ip := [255, 255, 255, 255]

  datatype SubSums = SubSums(sums: Sums, ipMatch: bool)

  /** What goes into the three queues that judge a frame. */
  datatype Flags = Flags(subSums: seq<SubSums>, versions: seq<bool>, fragments: seq<bool>) {
    function Then(f: Flags): Flags {
      Flags(subSums + f.subSums, versions + f.versions, fragments + f.fragments)
    }
  }

  const NONE: Flags := Flags([], [], [])

  datatype FlagRegs = FlagRegs(wordCount: nat, sums: Sums, ipHeaderLen: nat, dst: Ip)

  const FLAG_START: FlagRegs := FlagRegs(0, [0, 0, 0, 0], 0, [0, 0, 0, 0])

  /** Which parts of the next word are summed up. */
  function Use(s: FlagRegs): (use: seq<bool>)
    ensures |use| == 4
  {
    if s.wordCount == 0 then [false, false, false, false]
    else if s.wordCount == 1 then [false, false, false, true]
    else if s.wordCount <= 3 then [true, true, true, true]
    else if s.ipHeaderLen == 0 then [false, false, false, false]
    else if s.ipHeaderLen == 1 then [true, false, false, false]
    else [true, true, true, true]
  }

  /** Counting down an eight-bit number. */
  function Down2(n: nat): (r: nat)
    ensures 2 <= n < 256 ==> r == n - 2
  {
    var d: int := n - 2;
    d % 256
  }

  function FlagNext(s: FlagRegs, w: Word): FlagRegs
    requires Word8(w)
  {
    var sums := AddParts(if s.wordCount == 0 then [0, 0, 0, 0] else s.sums, w.data, Use(s));
    var len := if s.wordCount == 0 then s.ipHeaderLen
               else if s.wordCount == 1 then w.data[6] % 16
               else if s.wordCount <= 3 then Down2(s.ipHeaderLen)
               else if s.ipHeaderLen <= 2 then 0
               else Down2(s.ipHeaderLen);
    var dst := if s.wordCount == 3 then w.data[6..] + s.dst[2..]
               else if s.wordCount == 4 then s.dst[..2] + w.data[..2]
               else s.dst;
    FlagRegs(Count(s.wordCount, w), sums, len, dst)
  }

  /** Neither a fragment offset nor more fragments to come. */
  predicate Unfragmented(hi: Byte, lo: Byte) {
    Pair(hi, lo) % 0x2000 == 0 && Pair(hi, lo) / 0x2000 % 2 == 0
  }

  function FlagOut(s: FlagRegs, w: Word, my: Ip): Flags
    requires Word8(w)
  {
    if s.wordCount == 1 then Flags([], [w.data[6] / 16 == 4], [])
    else if s.wordCount == 2 then Flags([], [], [Unfragmented(w.data[4], w.data[5])])
    else if s.wordCount >= 4 && (s.ipHeaderLen == 1 || s.ipHeaderLen == 2) then
      var next := FlagNext(s, w);
      Flags([SubSums(next.sums, next.dst == my || next.dst == BROADCAST)], [], [])
    else NONE
  }

  function FlagRun(s: FlagRegs, ws: seq<Word>, my: Ip): Flags
    requires Lengths8(ws)
    decreases |ws|
  {
    if ws == [] then NONE else FlagOut(s, ws[0], my).Then(FlagRun(FlagNext(s, ws[0]), ws[1..], my))
  }

  ghost predicate FlagRunsTo(s: FlagRegs, ws: seq<Word>, out: Flags, s': FlagRegs, ws': seq<Word>, my: Ip) {
    forall k {:trigger Opened(k)} :: Opened(k) && k == FLAG ==>
      Lengths8(ws) && Lengths8(ws') && FlagRun(s, ws, my) == out.Then(FlagRun(s', ws', my))
  }

  const FLAG: nat := 10

  lemma {:induction false} FlagThen(s: FlagRegs, ws: seq<Word>, out: Flags, s1: FlagRegs, ws1: seq<Word>, out1: Flags,
                                    s2: FlagRegs, ws2: seq<Word>, my: Ip)
    requires FlagRunsTo(s, ws, out, s1, ws1, my) && FlagRunsTo(s1, ws1, out1, s2, ws2, my)
    ensures FlagRunsTo(s, ws, out.Then(out1), s2, ws2, my)
  {
    assert Opened(FLAG);
    ThenAssociative(out, out1, FlagRun(s2, ws2, my));
  }

  lemma {:induction false} ThenAssociative(a: Flags, b: Flags, c: Flags)
    ensures a.Then(b).Then(c) == a.Then(b.Then(c))
  {}

  /** Reading w takes s to s' and outputs out. */
  ghost predicate FlagReads(s: FlagRegs, w: Word, out: Flags, s': FlagRegs, my: Ip)
    requires Word8(w)
  {
    forall k {:trigger Opened(k)} :: Opened(k) && k == FLAG_READ ==> out == FlagOut(s, w, my) && s' == FlagNext(s, w)
  }

  const FLAG_READ: nat := 11

  lemma {:induction false} FlagRead(s: FlagRegs, ws: seq<Word>, more: seq<Word>, out: Flags, s': FlagRegs, my: Ip)
    requires ws != [] && Word8(ws[0]) && Lengths8(ws[1..] + more) && FlagReads(s, ws[0], out, s', my)
    ensures Lengths8(ws + more) && FlagRunsTo(s, ws + more, out, s', ws[1..] + more, my)
  {
    assert Opened(FLAG_READ);
    JoinWords(ws, more);
  }

  // Word by word.

  lemma {:induction false} Word0(s: FlagRegs, w: Word, my: Ip) returns (s': FlagRegs)
    requires Word8(w) && !w.last && s.wordCount == 0
    ensures FlagReads(s, w, NONE, s', my) && s'.wordCount == 1 && Stand(s'.sums, 0)
  {
    s' := FlagNext(s, w);
    AddNone([0, 0, 0, 0], w.data);
    ZeroStands();
  }

  lemma {:induction false} Word1(s: FlagRegs, w: Word, my: Ip) returns (s': FlagRegs)
    requires Word8(w) && !w.last && s.wordCount == 1 && Stand(s.sums, 0)
    ensures FlagReads(s, w, Flags([], [w.data[6] / 16 == 4], []), s', my)
    ensures s'.wordCount == 2 && s'.ipHeaderLen == w.data[6] % 16 && Stand(s'.sums, Pair(w.data[6], w.data[7]))
  {
    s' := FlagNext(s, w);
    AddStands(s.sums, w.data, [false, false, false, true], 0);
  }

  lemma {:induction false} Word2(s: FlagRegs, w: Word, t: nat, my: Ip) returns (s': FlagRegs)
    requires Word8(w) && s.wordCount == 2 && Stand(s.sums, t)
    ensures FlagReads(s, w, Flags([], [], [Unfragmented(w.data[4], w.data[5])]), s', my)
    ensures s'.wordCount == (if w.last then 0 else 3) && s'.ipHeaderLen == Down2(s.ipHeaderLen)
    ensures Stand(s'.sums, t + Total(w.data))
  {
    s' := FlagNext(s, w);
    AddStands(s.sums, w.data, [true, true, true, true], t);
    WholeWord(w.data);
  }

  lemma {:induction false} Word3(s: FlagRegs, w: Word, t: nat, my: Ip) returns (s': FlagRegs)
    requires Word8(w) && s.wordCount == 3 && Stand(s.sums, t)
    ensures FlagReads(s, w, NONE, s', my) && s'.dst[..2] == w.data[6..]
    ensures s'.wordCount == (if w.last then 0 else 4) && s'.ipHeaderLen == Down2(s.ipHeaderLen)
    ensures Stand(s'.sums, t + Total(w.data))
  {
    s' := FlagNext(s, w);
    AddStands(s.sums, w.data, [true, true, true, true], t);
    WholeWord(w.data);
  }

  /** From the fifth word on, while more than two parts of the header are left. */
  lemma {:induction false} OptionWord(s: FlagRegs, w: Word, t: nat, my: Ip) returns (s': FlagRegs)
    requires Word8(w) && s.wordCount == 4 && 2 < s.ipHeaderLen < 256 && Stand(s.sums, t)
    ensures FlagReads(s, w, NONE, s', my) && s'.dst[..2] == s.dst[..2]
    ensures s'.wordCount == (if w.last then 0 else 4) && s'.ipHeaderLen == s.ipHeaderLen - 2
    ensures Stand(s'.sums, t + Total(w.data))
  {
    s' := FlagNext(s, w);
    AddStands(s.sums, w.data, [true, true, true, true], t);
    WholeWord(w.data);
  }

  function IsOurs(dst: Ip, my: Ip): bool {
    dst == my || dst == BROADCAST
  }

  /** The word that ends it. */
  lemma {:induction false} EntryWord(s: FlagRegs, w: Word, t: nat, my: Ip) returns (s': FlagRegs, entry: SubSums)
    requires Word8(w) && s.wordCount == 4 && 1 <= s.ipHeaderLen <= 2 && Stand(s.sums, t)
    ensures FlagReads(s, w, Flags([entry], [], []), s', my)
    ensures s'.wordCount == (if w.last then 0 else 4) && s'.ipHeaderLen == 0
    ensures Stand(entry.sums, t + Total(w.data[..if s.ipHeaderLen == 1 then 2 else 8]))
    ensures entry.ipMatch == IsOurs(s.dst[..2] + w.data[..2], my)
  {
    s' := FlagNext(s, w);
    entry := SubSums(s'.sums, IsOurs(s'.dst, my));
    AddStands(s.sums, w.data, Use(s), t);
    if s.ipHeaderLen == 1 {
      assert w.data[..2] == [w.data[0], w.data[1]] && w.data[..2][2..] == [];
    } else {
      WholeWord(w.data);
      assert w.data[..8] == w.data;
    }
  }

  /** After the header the flag path is idle until the end of the frame. */
  lemma {:induction false} FlagsIdle(s: FlagRegs, ws: seq<Word>, p: seq<Byte>, more: seq<Word>, my: Ip)
    returns (s': FlagRegs)
    requires IsPacket(ws, p) && Lengths8(more) && s.wordCount == 4 && s.ipHeaderLen == 0
    ensures s'.wordCount == 0 && Lengths8(ws + more) && FlagRunsTo(s, ws + more, NONE, s', more, my)
    decreases |p|
  {
    FirstWord(ws, p);
    var s1 := IdleWord(s, ws[0], my);
    if |p| > 8 {
      s' := FlagsIdle(s1, ws[1..], p[8..], more, my);
      FlagRead(s, ws, more, NONE, s1, my);
      FlagThen(s, ws + more, NONE, s1, ws[1..] + more, NONE, s', more, my);
    } else {
      assert ws[1..] + more == more;
      s' := s1;
      FlagRead(s, ws, more, NONE, s1, my);
    }
  }

  lemma {:induction false} IdleWord(s: FlagRegs, w: Word, my: Ip) returns (s': FlagRegs)
    requires Word8(w) && s.wordCount == 4 && s.ipHeaderLen == 0
    ensures FlagReads(s, w, NONE, s', my) && s'.wordCount == (if w.last then 0 else 4) && s'.ipHeaderLen == 0
  {
    s' := FlagNext(s, w);
  }

  /** Going back by one word. */
  lemma {:induction false} Back(s: FlagRegs, ws: seq<Word>, more: seq<Word>, out: Flags, s1: FlagRegs, rest: Flags,
                                s': FlagRegs, my: Ip)
    returns (all: Flags)
    requires |ws| > 1 && Word8(ws[0]) && FlagReads(s, ws[0], out, s1, my)
    requires Lengths8(ws[1..] + more) && FlagRunsTo(s1, ws[1..] + more, rest, s', more, my)
    ensures all == out.Then(rest) && Lengths8(ws + more) && FlagRunsTo(s, ws + more, all, s', more, my)
  {
    all := out.Then(rest);
    FlagRead(s, ws, more, out, s1, my);
    FlagThen(s, ws + more, out, s1, ws[1..] + more, rest, s', more, my);
  }

  lemma {:induction false} BackNone(s: FlagRegs, ws: seq<Word>, more: seq<Word>, s1: FlagRegs, rest: Flags,
                                    s': FlagRegs, my: Ip)
    requires |ws| > 1 && Word8(ws[0]) && FlagReads(s, ws[0], NONE, s1, my)
    requires Lengths8(ws[1..] + more) && FlagRunsTo(s1, ws[1..] + more, rest, s', more, my)
    ensures Lengths8(ws + more) && FlagRunsTo(s, ws + more, rest, s', more, my)
  {
    var all := Back(s, ws, more, NONE, s1, rest, s', my);
    assert all == rest;
  }

  /** The word that ends the header, and what follows it. */
  lemma {:induction false} AfterHeader(s: FlagRegs, s1: FlagRegs, out: Flags, ws: seq<Word>, p: seq<Byte>,
                                       more: seq<Word>, my: Ip)
    returns (s': FlagRegs)
    requires IsPacket(ws, p) && Lengths8(more) && ws != [] && Word8(ws[0]) && FlagReads(s, ws[0], out, s1, my)
    requires s1.wordCount == (if ws[0].last then 0 else 4) && s1.ipHeaderLen == 0
    ensures s'.wordCount == 0 && Lengths8(ws + more) && FlagRunsTo(s, ws + more, out, s', more, my)
  {
    FirstWord(ws, p);
    if |p| > 8 {
      s' := FlagsIdle(s1, ws[1..], p[8..], more, my);
      FlagRead(s, ws, more, out, s1, my);
      FlagThen(s, ws + more, out, s1, ws[1..] + more, NONE, s', more, my);
      assert out.Then(NONE) == out;
    } else {
      assert ws[1..] + more == more;
      s' := s1;
      FlagRead(s, ws, more, out, s1, my);
    }
  }

  // The whole frame.

  /** All lanes of the words, stale ones included. */
  function AllLanes(ws: seq<Word>): (b: seq<Byte>)
    requires Lengths8(ws)
    ensures |b| == 8 * |ws|
  {
    if ws == [] then [] else ws[0].data + AllLanes(ws[1..])
  }

  lemma {:induction false} LanesHold(ws: seq<Word>, f: seq<Byte>)
    requires IsPacket(ws, f)
    ensures Lengths8(ws) && |f| <= 8 * |ws| < |f| + 8 && AllLanes(ws)[..|f|] == f
    decreases |f|
  {
    WordLengths(ws, f);
    FirstWord(ws, f);
    if |f| > 8 {
      LanesHold(ws[1..], f[8..]);
      assert ws[0].data == ws[0].data[..8] == f[..8];
      assert AllLanes(ws)[..|f|] == f[..8] + AllLanes(ws[1..])[..|f| - 8];
    } else {
      OneWord(ws, []);
      assert AllLanes(ws) == ws[0].data + AllLanes([]);
    }
  }

  lemma {:induction false} LanesFrom(ws: seq<Word>, k: nat)
    requires Lengths8(ws) && k <= |ws|
    ensures Lengths8(ws[k..]) && AllLanes(ws[k..]) == AllLanes(ws)[8 * k..]
  {
    if k > 0 {
      LanesFrom(ws[1..], k - 1);
      assert ws[1..][k - 1..] == ws[k..];
    }
  }

  /** What is left of a header of h parts of four bytes after the first four words, in
      eight bits. */
  function Left(h: nat): (l: nat)
    requires h < 16
    ensures l < 256 && l == Down2(Down2(h))
  {
    if h >= 4 then h - 4 else h + 252
  }

  /** The word in which the header ends, counted from the fifth word of the frame. */
  function EndWord(l: nat): nat
    requires l > 0
  {
    (l - 1) / 2
  }

  /** How many bytes from there on are summed up. */
  function SumEnd(l: nat): nat
    requires l > 0
  {
    8 * EndWord(l) + if l % 2 == 1 then 2 else 8
  }

  /** The entries made of the lanes b, with l parts of the header left, the first half d
      of an address, and sums that stand for t. */
  ghost predicate IsEntry(es: seq<SubSums>, l: nat, b: seq<Byte>, d: seq<Byte>, t: nat, my: Ip)
    requires |d| == 2
  {
    forall k {:trigger Opened(k)} :: Opened(k) && k == ENTRY ==>
      if l > 0 && |b| >= SumEnd(l) then
        var j := 8 * EndWord(l);
        && |es| == 1 && Stand(es[0].sums, t + Total(b[..SumEnd(l)])) && es[0].ipMatch == IsOurs(d + b[j..j + 2], my)
      else es == []
  }

  const ENTRY: nat := 60

  /** ws put an entry into the queue of sums if and only if they reach the word in which
      the header ends. */
  lemma {:induction false} OptionWords(s: FlagRegs, ws: seq<Word>, p: seq<Byte>, more: seq<Word>, t: nat, my: Ip)
    returns (s': FlagRegs, es: seq<SubSums>)
    requires IsPacket(ws, p) && Lengths8(more) && s.wordCount == 4 && s.ipHeaderLen < 256 && Stand(s.sums, t)
    ensures Lengths8(ws) && Lengths8(ws + more) && s'.wordCount == 0
    ensures FlagRunsTo(s, ws + more, Flags(es, [], []), s', more, my)
    ensures IsEntry(es, s.ipHeaderLen, AllLanes(ws), s.dst[..2], t, my)
    decreases |p|
  {
    WordLengths(ws, p);
    FirstWord(ws, p);
    var l, w, b, d := s.ipHeaderLen, ws[0], AllLanes(ws), s.dst[..2];
    FirstLanes(ws);
    if l == 0 {
      s' := FlagsIdle(s, ws, p, more, my);
      es := [];
    } else if l <= 2 {
      var s1, e := EntryWord(s, w, t, my);
      es := [e];
      s' := AfterHeader(s, s1, Flags(es, [], []), ws, p, more, my);
      EntryNow(e, l, b, d, t, my);
    } else if |p| <= 8 {
      s' := OptionWord(s, w, t, my);
      es := [];
      FlagRead(s, ws, more, NONE, s', my);
      OneWord(ws, more);
      assert |b| == 8 && SumEnd(l) > 8;
    } else {
      var s1 := OptionWord(s, w, t, my);
      s', es := OptionWords(s1, ws[1..], p[8..], more, t + Total(w.data), my);
      BackNone(s, ws, more, s1, Flags(es, [], []), s', my);
      EntryLater(es, l, w.data, AllLanes(ws[1..]), d, t, my);
    }
  }

  lemma {:induction false} EntryNow(e: SubSums, l: nat, b: seq<Byte>, d: seq<Byte>, t: nat, my: Ip)
    requires 1 <= l <= 2 && |b| >= 8 && |d| == 2
    requires Stand(e.sums, t + Total(b[..if l == 1 then 2 else 8])) && e.ipMatch == IsOurs(d + b[..2], my)
    ensures IsEntry([e], l, b, d, t, my)
  {
    assert b[0..2] == b[..2];
  }

  lemma {:induction false} EntryLater(es: seq<SubSums>, l: nat, w: seq<Byte>, b: seq<Byte>, d: seq<Byte>, t: nat,
                                      my: Ip)
    requires l > 2 && |w| == 8 && |d| == 2 && IsEntry(es, l - 2, b, d, t + Total(w), my)
    ensures IsEntry(es, l, w + b, d, t, my)
  {
    assert Opened(ENTRY);
    var e, j := SumEnd(l), 8 * EndWord(l);
    if |b| + 8 >= e {
      TotalSplit(w, b[..e - 8]);
      assert (w + b)[..e] == w + b[..e - 8] && (w + b)[j..j + 2] == b[j - 8..j - 6];
    }
  }

  lemma {:induction false} FirstLanes(ws: seq<Word>)
    requires Lengths8(ws) && ws != []
    ensures Lengths8(ws[1..]) && AllLanes(ws) == ws[0].data + AllLanes(ws[1..])
    ensures AllLanes(ws)[..2] == ws[0].data[..2] && AllLanes(ws)[..8] == ws[0].data == ws[0].data[..8]
  {}

  /** The length of what is judged of a frame. */
  function JudgedEnd(b: seq<Byte>): nat
    requires |b| > 14 && b[14] % 16 != 4
  {
    32 + SumEnd(Left(b[14] % 16))
  }

  /** A frame whose header has any length but four and that reaches the end of what is
      judged. */
  ghost predicate IsJudged(b: seq<Byte>) {
    |b| > 14 && b[14] % 16 != 4 && |b| >= JudgedEnd(b)
  }

  /** What is summed up. */
  function Summed(b: seq<Byte>): seq<Byte>
    requires IsJudged(b)
  {
    b[14..JudgedEnd(b)]
  }

  /** The address that is compared: its second half is taken from the word in which the
      header ends. */
  function Address(b: seq<Byte>): Ip
    requires IsJudged(b)
  {
    var j := 32 + 8 * EndWord(Left(b[14] % 16));
    b[30..32] + b[j..j + 2]
  }

  /** The entries made of all lanes of a frame. */
  ghost predicate IsFrameEntry(es: seq<SubSums>, b: seq<Byte>, my: Ip) {
    forall k {:trigger Opened(k)} :: Opened(k) && k == ENTRY ==>
      if IsJudged(b) then |es| == 1 && Stand(es[0].sums, Total(Summed(b))) && es[0].ipMatch == IsOurs(Address(b), my)
      else es == []
  }

  lemma {:induction false} FrameEntry(es: seq<SubSums>, b: seq<Byte>, t: nat, my: Ip)
    requires |b| >= 32 && IsEntry(es, Left(b[14] % 16), b[32..], b[30..32], t, my)
    requires t == Pair(b[14], b[15]) + Total(b[16..24]) + Total(b[24..32])
    ensures IsFrameEntry(es, b, my)
  {
    assert Opened(ENTRY);
    var l := Left(b[14] % 16);
    if IsJudged(b) {
      var e, j := SumEnd(l), 8 * EndWord(l);
      assert b[32..][..e] == b[32..32 + e] && b[32..][j..j + 2] == b[32 + j..34 + j];
      HeadSum(b, 32 + e);
    }
  }

  /** The parts of what is summed up. */
  lemma {:induction false} HeadSum(b: seq<Byte>, e: nat)
    requires 32 <= e <= |b|
    ensures Total(b[14..e]) == Pair(b[14], b[15]) + Total(b[16..24]) + Total(b[24..32]) + Total(b[32..e])
  {
    TotalSplit(b[14..16], b[16..e]);
    TotalSplit(b[16..24], b[24..e]);
    TotalSplit(b[24..32], b[32..e]);
    assert b[14..e] == b[14..16] + b[16..e] && b[16..e] == b[16..24] + b[24..e] && b[24..e] == b[24..32] + b[32..e];
    assert b[14..16] == [b[14], b[15]] && b[14..16][2..] == [];
  }

  /** A frame of more than two words puts exactly one entry each into the queues of
      versions and of fragments, and one into the queue of sums if and only if it
      reaches the end of what is judged. */
  lemma {:induction false} FlagsOfFrame(s: FlagRegs, ws: seq<Word>, f: seq<Byte>, more: seq<Word>, my: Ip)
    returns (s': FlagRegs, es: seq<SubSums>)
    requires IsPacket(ws, f) && |f| > 16 && Lengths8(more) && s.wordCount == 0
    ensures s'.wordCount == 0 && Lengths8(ws) && Lengths8(ws + more) && |ws| >= 3
    ensures var b := AllLanes(ws);
            && (if IsJudged(b) then
                  && |es| == 1 && Stand(es[0].sums, Total(Summed(b))) && es[0].ipMatch == IsOurs(Address(b), my)
                else es == [])
            && FlagRun(s, ws + more, my)
               == Flags(es, [b[14] / 16 == 4], [Unfragmented(b[20], b[21])]).Then(FlagRun(s', more, my))
  {
    WordLengths(ws, f);
    TwoWords(ws, f);
    var b := AllLanes(ws);
    HeadLanes(ws);
    var version, whole := [b[14] / 16 == 4], [Unfragmented(b[20], b[21])];
    var s1 := Word0(s, ws[0], my);
    var s2 := Word1(s1, ws[1], my);
    s', es := FromThird(s2, ws, f, more, my);
    var out1 := Back(s1, ws[1..], more, Flags([], version, []), s2, Flags(es, [], whole), s', my);
    var out0 := Back(s, ws, more, NONE, s1, out1, s', my);
    assert out0 == Flags(es, version, whole);
    FlagSo(s, ws + more, out0, s', more, my);
    assert Opened(ENTRY);
  }

  lemma {:induction false} FlagSo(s: FlagRegs, ws: seq<Word>, out: Flags, s': FlagRegs, ws': seq<Word>, my: Ip)
    requires FlagRunsTo(s, ws, out, s', ws', my) && Lengths8(ws) && Lengths8(ws')
    ensures FlagRun(s, ws, my) == out.Then(FlagRun(s', ws', my))
  {
    assert Opened(FLAG);
  }

  lemma {:induction false} HeadLanes(ws: seq<Word>)
    requires |ws| >= 3 && Lengths8(ws)
    ensures var b := AllLanes(ws);
            && b[14] == ws[1].data[6] && b[15] == ws[1].data[7] && b[16..24] == ws[2].data
            && b[20] == ws[2].data[4] && b[21] == ws[2].data[5]
            && (|ws| >= 4 ==> b[24..32] == ws[3].data && b[30..32] == ws[3].data[6..])
  {
    LanesFrom(ws, 1);
    LanesFrom(ws, 2);
    LanesFrom(ws, 3);
    var b := AllLanes(ws);
    assert ws[1..][0] == ws[1] && ws[2..][0] == ws[2];
    assert b[14] == b[8..][6] && b[15] == b[8..][7] && b[16..24] == b[16..][..8];
    assert b[20] == b[16..24][4] && b[21] == b[16..24][5];
    if |ws| >= 4 {
      assert ws[3..][0] == ws[3] && b[24..32] == b[24..][..8] && b[30..32] == b[24..32][6..];
    }
  }

  /** From the third word on. */
  lemma {:induction false} FromThird(s: FlagRegs, ws: seq<Word>, f: seq<Byte>, more: seq<Word>, my: Ip)
    returns (s': FlagRegs, es: seq<SubSums>)
    requires IsPacket(ws, f) && |f| > 16 && Lengths8(more) && Lengths8(ws) && |ws| >= 3
    requires s.wordCount == 2 && s.ipHeaderLen == ws[1].data[6] % 16
    requires Stand(s.sums, Pair(ws[1].data[6], ws[1].data[7]))
    ensures s'.wordCount == 0 && Lengths8(ws[2..] + more) && IsFrameEntry(es, AllLanes(ws), my)
    ensures FlagRunsTo(s, ws[2..] + more, Flags(es, [], [Unfragmented(ws[2].data[4], ws[2].data[5])]), s', more, my)
  {
    TwoWords(ws, f);
    FirstWord(ws[2..], f[16..]);
    assert ws[2..][0] == ws[2] && ws[2..][1..] == ws[3..];
    var t, whole := Pair(ws[1].data[6], ws[1].data[7]), Flags([], [], [Unfragmented(ws[2].data[4], ws[2].data[5])]);
    var s1 := Word2(s, ws[2], t, my);
    if |f| <= 24 {
      s', es := s1, [];
      FlagRead(s, ws[2..], more, whole, s1, my);
      OneWord(ws[2..], more);
    } else {
      assert f[16..][8..] == f[24..];
      s', es := FromFourth(s1, ws, f, more, t + Total(ws[2].data), my);
      var all := Back(s, ws[2..], more, whole, s1, Flags(es, [], []), s', my);
      assert all == Flags(es, [], whole.fragments);
    }
  }

  lemma {:induction false} FromFourth(s: FlagRegs, ws: seq<Word>, f: seq<Byte>, more: seq<Word>, t: nat, my: Ip)
    returns (s': FlagRegs, es: seq<SubSums>)
    requires |f| > 24 && Lengths8(more) && Lengths8(ws) && |ws| > 3 && IsPacket(ws[3..], f[24..])
    requires s.wordCount == 3 && s.ipHeaderLen == Down2(ws[1].data[6] % 16) && Stand(s.sums, t)
    requires t == Pair(ws[1].data[6], ws[1].data[7]) + Total(ws[2].data)
    ensures s'.wordCount == 0 && Lengths8(ws[3..] + more) && IsFrameEntry(es, AllLanes(ws), my)
    ensures FlagRunsTo(s, ws[3..] + more, Flags(es, [], []), s', more, my)
  {
    FirstWord(ws[3..], f[24..]);
    assert ws[3..][0] == ws[3] && ws[3..][1..] == ws[4..];
    var s1 := Word3(s, ws[3], t, my);
    if |f| <= 32 {
      s', es := s1, [];
      FlagRead(s, ws[3..], more, NONE, s1, my);
      OneWord(ws[3..], more);
    } else {
      assert f[24..][8..] == f[32..];
      s', es := OptionWords(s1, ws[4..], f[32..], more, t + Total(ws[3].data), my);
      BackNone(s, ws[3..], more, s1, Flags(es, [], []), s', my);
      HeadLanes(ws);
      LanesFrom(ws, 4);
      FrameEntry(es, AllLanes(ws), t + Total(ws[3].data), my);
    }
  }

  // Frames that hold all that is judged.

  function Destination(f: seq<Byte>): Ip
    requires |f| >= 34
  {
    f[30..34]
  }

  /** With a header length of 5 that is the header and the address of the destination;
      with 6 two bytes more are summed up; from 7 on the address compared is another one,
      and with even lengths two bytes more are summed up. */
  lemma {:induction false} JudgedParts(f: seq<Byte>)
    requires IsJudged(f) && f[14] % 16 >= 5
    ensures var h := f[14] % 16;
            && JudgedEnd(f) == 14 + 4 * h + (if h % 2 == 1 then 0 else 2)
            && Address(f) == (if h <= 6 then Destination(f)
                              else if h % 2 == 1 then f[30..32] + f[12 + 4 * h..14 + 4 * h]
                              else f[30..32] + f[8 + 4 * h..10 + 4 * h])
  {
    assert f[30..34] == f[30..32] + f[32..34];
  }

  /** A header of even length that sums up to all ones still does with the two bytes after
      it exactly if these are both 0 or both 255. */
  lemma {:induction false} EvenHeader(f: seq<Byte>)
    requires IsJudged(f) && f[14] % 16 >= 6 && f[14] % 2 == 0
    requires Canon(Total(f[14..14 + 4 * (f[14] % 16)])) == MAX
    ensures var e := 14 + 4 * (f[14] % 16);
            Canon(Total(Summed(f))) == MAX <==> (f[e] == 0 && f[e + 1] == 0) || (f[e] == 255 && f[e + 1] == 255)
  {
    JudgedParts(f);
    var e := 14 + 4 * (f[14] % 16);
    var header, rest := f[14..e], f[e..e + 2];
    TotalSplit(header, rest);
    assert Summed(f) == header + rest;
    assert rest == [f[e], f[e + 1]] && rest[2..] == [];
    ComplementCompletes(Total(header), Pair(f[e], f[e + 1]));
  }

  /** Each of these frames puts exactly one entry into each queue. */
  lemma {:induction false} FlagsOfIpFrame(s: FlagRegs, ws: seq<Word>, f: seq<Byte>, more: seq<Word>, my: Ip)
    returns (s': FlagRegs, entry: SubSums)
    requires IsPacket(ws, f) && IsJudged(f) && Lengths8(more) && s.wordCount == 0
    ensures s'.wordCount == 0 && Lengths8(ws + more) && Stand(entry.sums, Total(Summed(f)))
    ensures entry.ipMatch == IsOurs(Address(f), my)
    ensures FlagRun(s, ws + more, my)
            == Flags([entry], [f[14] / 16 == 4], [Unfragmented(f[20], f[21])]).Then(FlagRun(s', more, my))
  {
    var es;
    s', es := FlagsOfFrame(s, ws, f, more, my);
    LanesHold(ws, f);
    var b := AllLanes(ws);
    HeadLanes(ws);
    SamePrefix(b, f);
    entry := es[0];
    assert es == [entry];
  }

  lemma {:induction false} SamePrefix(b: seq<Byte>, f: seq<Byte>)
    requires IsJudged(f) && |f| <= |b| && b[..|f|] == f
    ensures IsJudged(b) && b[14] == f[14] && b[20] == f[20] && b[21] == f[21]
    ensures Summed(b) == Summed(f) && Address(b) == Address(f)
  {
    assert forall i :: 0 <= i < |f| ==> b[i] == b[..|f|][i];
  }

  class CheckIpChecksum {
    const cics_ip_sums: array<nat>
    var cics_ipHeaderLen: nat
    var cics_prevWord: Word
    var cics_wasLast: bool
    var cics_wordCount: nat
    var cics_dstIpAddress: Ip

    ghost predicate Valid()
      reads this
    {
      cics_ip_sums.Length == 4 && Word8(cics_prevWord)
    }

    ghost function Data(): DataRegs
      reads this
    {
      DataRegs(cics_wordCount, cics_prevWord, cics_wasLast)
    }

    ghost function Header(): FlagRegs
      requires Valid()
      reads this, cics_ip_sums
    {
      FlagRegs(cics_wordCount, cics_ip_sums[..], cics_ipHeaderLen, cics_dstIpAddress)
    }

    constructor ()
      ensures Valid() && fresh(cics_ip_sums) && Data() == DATA_START && Header() == FLAG_START
    {
      cics_ip_sums := new nat[4](_ => 0);
      cics_ipHeaderLen, cics_wordCount, cics_wasLast, cics_dstIpAddress := 0, 0, false, [0, 0, 0, 0];
      cics_prevWord := Word([0, 0, 0, 0, 0, 0, 0, 0], Low(0), false);
    }

    /** One call: what is output on both paths, together with what is still to be
        output, is what was to be output before. */
    method Step(dataIn: seq<Word>, my: Ip, ghost more: seq<Word>) returns (read: nat, dataOut: seq<Word>, flags: Flags)
      requires Valid() && Lengths8(dataIn) && Lengths8(more)
      modifies this, cics_ip_sums
      ensures Valid() && read <= |dataIn|
      ensures DataRun(old(Data()), dataIn + more) == dataOut + DataRun(Data(), dataIn[read..] + more)
      ensures FlagRun(old(Header()), dataIn + more, my) == flags.Then(FlagRun(Header(), dataIn[read..] + more, my))
      ensures if old(cics_wasLast) then dataOut == [Remaining(old(cics_prevWord))] && !cics_wasLast && read == 0
              else read == if dataIn != [] then 1 else 0
    {
      WithMore(dataIn, more);
      read, dataOut, flags := 0, [], NONE;
      if !cics_wasLast && dataIn != [] {
        read := 1;
        dataOut, flags := Read(dataIn[0], my);
      } else if cics_wasLast {
        dataOut := [Remaining(cics_prevWord)];
        cics_wasLast := false;
        NothingFirst(FlagRun(Header(), dataIn + more, my));
      } else {
        NothingFirst(FlagRun(Header(), dataIn + more, my));
      }
    }

    method Read(currWord: Word, my: Ip) returns (dataOut: seq<Word>, flags: Flags)
      requires Valid() && Word8(currWord) && !cics_wasLast
      modifies this, cics_ip_sums
      ensures Valid() && Data() == DataNext(old(Data()), currWord) && Header() == FlagNext(old(Header()), currWord)
      ensures dataOut == if old(cics_wordCount) >= 2 then [Sent(old(cics_prevWord), currWord)] else []
      ensures flags == FlagOut(old(Header()), currWord, my)
    {
      var data := currWord.data;
      dataOut, flags := [], NONE;
      match cics_wordCount {
      case 0 =>
        Clear();
        AddNone([0, 0, 0, 0], data);
      case 1 =>
        flags := Flags([], [data[6] / 16 == 4], []);
        SumUp(cics_ip_sums, data, [false, false, false, true]);
        cics_ipHeaderLen := data[6] % 16;
      case 2 =>
        flags := Flags([], [], [Unfragmented(data[4], data[5])]);
        SumUp(cics_ip_sums, data, [true, true, true, true]);
        cics_ipHeaderLen := Down2(cics_ipHeaderLen);
      case 3 =>
        cics_dstIpAddress := data[6..] + cics_dstIpAddress[2..];
        SumUp(cics_ip_sums, data, [true, true, true, true]);
        cics_ipHeaderLen := Down2(cics_ipHeaderLen);
      case _ =>
        if cics_wordCount == 4 {
          cics_dstIpAddress := cics_dstIpAddress[..2] + data[..2];
        }
        flags := Options(data, my);
      }
      if cics_wordCount >= 2 {
        dataOut := [Word(cics_prevWord.data[6..] + data[..6], cics_prevWord.keep[6..] + currWord.keep[..6],
                         !currWord.keep[6])];
      }
      cics_prevWord := currWord;
      if cics_wordCount < 4 {
        cics_wordCount := cics_wordCount + 1;
      }
      if currWord.last {
        cics_wordCount, cics_wasLast := 0, currWord.keep[6];
      }
    }

    method Clear()
      requires Valid()
      modifies cics_ip_sums
      ensures cics_ip_sums[..] == [0, 0, 0, 0]
    {
      for i := 0 to 4
        invariant forall j :: 0 <= j < i ==> cics_ip_sums[j] == 0
      {
        cics_ip_sums[i] := 0;
      }
    }

    /** The inner switch, over what is left of the header. */
    method Options(data: seq<Byte>, my: Ip) returns (flags: Flags)
      requires Valid() && |data| == 8
      modifies `cics_ipHeaderLen, cics_ip_sums
      ensures var len := old(cics_ipHeaderLen);
              var use := if len == 0 then [false, false, false, false] else [true, len > 1, len > 1, len > 1];
              && cics_ip_sums[..] == AddParts(old(cics_ip_sums[..]), data, use)
              && cics_ipHeaderLen == (if len <= 2 then 0 else Down2(len))
              && var match' := cics_dstIpAddress == my || cics_dstIpAddress == BROADCAST;
                 flags == if len == 1 || len == 2 then Flags([SubSums(cics_ip_sums[..], match')], [], []) else NONE
    {
      flags := NONE;
      match cics_ipHeaderLen {
      case 0 =>
        AddNone(cics_ip_sums[..], data);
      case 1 =>
        SumUp(cics_ip_sums, data, [true, false, false, false]);
        cics_ipHeaderLen := 0;
        flags := Flags([SubSums(cics_ip_sums[..], cics_dstIpAddress == my || cics_dstIpAddress == BROADCAST)], [], []);
      case 2 =>
        SumUp(cics_ip_sums, data, [true, true, true, true]);
        cics_ipHeaderLen := 0;
        flags := Flags([SubSums(cics_ip_sums[..], cics_dstIpAddress == my || cics_dstIpAddress == BROADCAST)], [], []);
      case _ =>
        SumUp(cics_ip_sums, data, [true, true, true, true]);
        cics_ipHeaderLen := Down2(cics_ipHeaderLen);
      }
    }
  }

  lemma {:induction false} NothingFirst(f: Flags)
    ensures NONE.Then(f) == f
  {}
}

/** iph_check_ip_checksum and ip_invalid_dropper: only acceptable frames pass. */
module IpDropper {
  import opened Arith
  import opened RxStream
  import opened PacketWords
  import opened OnesComplement
  import opened IpStrip

  /** iph_check_ip_checksum. */
  method Check(subSums: SubSums) returns (valid: bool)
    ensures valid == (Combine(subSums.sums) == MAX && subSums.ipMatch)
  {
    var sum0, sum1 := subSums.sums[0] + subSums.sums[2], subSums.sums[1] + subSums.sums[3];
    sum0, sum1 := Fold(sum0), Fold(sum1);
    sum0 := sum0 + sum1;
    sum0 := Fold(sum0);
    sum0 := 0x1_ffff - sum0;
    valid := sum0 % 0x1_0000 == 0 && subSums.ipMatch;
  }

  function Valid(s: SubSums): bool {
    Combine(s.sums) == MAX && s.ipMatch
  }

  function Valids(ss: seq<SubSums>): (vs: seq<bool>)
    ensures |vs| == |ss|
  {
    seq(|ss|, i requires 0 <= i < |ss| => Valid(ss[i]))
  }

  datatype Regs = Regs(firstWord: bool, drop: bool)

  const FIRST: Regs := Regs(true, false)

  function Next(s: Regs, w: Word, pass: bool): Regs {
    if w.last then FIRST
    else if s.drop then s
    else if s.firstWord then Regs(false, !pass)
    else s
  }

  /** The words passed on, as far as the words and flags that wait allow. */
  function Run(s: Regs, ws: seq<Word>, valids: seq<bool>, versions: seq<bool>, fragments: seq<bool>): (out: seq<Word>)
    ensures Lengths8(ws) ==> Lengths8(out)
    decreases |ws|
  {
    if ws == [] then []
    else if s.drop then Run(Next(s, ws[0], true), ws[1..], valids, versions, fragments)
    else if !s.firstWord then [ws[0]] + Run(Next(s, ws[0], true), ws[1..], valids, versions, fragments)
    else if valids == [] || versions == [] || fragments == [] then []
    else
      var pass := valids[0] && versions[0] && fragments[0];
      (if pass then [ws[0]] else [])
      + Run(Next(s, ws[0], pass), ws[1..], valids[1..], versions[1..], fragments[1..])
  }

  lemma {:induction false} Follow(ws: seq<Word>, p: seq<Byte>, more: seq<Word>, pass: bool, valids: seq<bool>,
                                  versions: seq<bool>, fragments: seq<bool>)
    requires IsPacket(ws, p)
    ensures Run(Regs(false, !pass), ws + more, valids, versions, fragments)
            == (if pass then ws else []) + Run(FIRST, more, valids, versions, fragments)
    decreases |p|
  {
    FirstWord(ws, p);
    HeadOf(ws, more);
    HeadOf(ws, Run(FIRST, more, valids, versions, fragments));
    if |p| > 8 {
      Follow(ws[1..], p[8..], more, pass, valids, versions, fragments);
    } else {
      OneWord(ws, more);
    }
  }

  /** The first word of a packet takes the flags. */
  lemma {:induction false} FirstCall(ws: seq<Word>, valid: bool, version: bool, whole: bool, valids: seq<bool>,
                                     versions: seq<bool>, fragments: seq<bool>)
    requires ws != []
    ensures var pass := valid && version && whole;
            Run(FIRST, ws, [valid] + valids, [version] + versions, [whole] + fragments)
            == (if pass then [ws[0]] else []) + Run(Next(FIRST, ws[0], pass), ws[1..], valids, versions, fragments)
  {
    assert ([valid] + valids)[1..] == valids && ([version] + versions)[1..] == versions
        && ([whole] + fragments)[1..] == fragments;
  }

  /** A packet passes, as a whole, exactly if all three flags are set; each packet
      takes one flag from each queue. */
  lemma {:induction false} PassesIff(ws: seq<Word>, p: seq<Byte>, more: seq<Word>, valid: bool, version: bool,
                                     whole: bool, valids: seq<bool>, versions: seq<bool>, fragments: seq<bool>)
    requires IsPacket(ws, p)
    ensures Run(FIRST, ws + more, [valid] + valids, [version] + versions, [whole] + fragments)
            == (if valid && version && whole then ws else []) + Run(FIRST, more, valids, versions, fragments)
  {
    FirstWord(ws, p);
    HeadOf(ws, more);
    HeadOf(ws, Run(FIRST, more, valids, versions, fragments));
    FirstCall(ws + more, valid, version, whole, valids, versions, fragments);
    if |p| > 8 {
      Follow(ws[1..], p[8..], more, valid && version && whole, valids, versions, fragments);
    } else {
      OneWord(ws, more);
    }
  }

  class IpInvalidDropper {
    var iid_firstWord: bool
    var iid_drop: bool

    ghost function Registers(): Regs
      reads this
    {
      Regs(iid_firstWord, iid_drop)
    }

    constructor ()
      ensures Registers() == FIRST
    {
      iid_firstWord, iid_drop := true, false;
    }

    /** One call; the sum of the three flags decides. */
    method Step(dataIn: seq<Word>, valids: seq<bool>, versions: seq<bool>, fragments: seq<bool>, ghost more: seq<Word>,
                ghost moreValids: seq<bool>, ghost moreVersions: seq<bool>, ghost moreFragments: seq<bool>)
      returns (read: nat, flags: nat, dataOut: seq<Word>)
      requires iid_drop ==> !iid_firstWord
      modifies this
      ensures read <= |dataIn| && flags <= |valids| && flags <= |versions| && flags <= |fragments|
      ensures iid_drop ==> !iid_firstWord
      ensures Run(old(Registers()), dataIn + more, valids + moreValids, versions + moreVersions,
                  fragments + moreFragments)
              == dataOut + Run(Registers(), dataIn[read..] + more, valids[flags..] + moreValids,
                               versions[flags..] + moreVersions, fragments[flags..] + moreFragments)
      ensures dataIn != [] && (old(iid_firstWord) ==> valids != [] && versions != [] && fragments != []) ==> read == 1
    {
      WithMore(dataIn, more);
      WithMore(valids, moreValids);
      WithMore(versions, moreVersions);
      WithMore(fragments, moreFragments);
      read, flags, dataOut := 0, 0, [];
      var last := false;
      if iid_drop {
        if dataIn != [] {
          read, last := 1, dataIn[0].last;
        }
      } else if iid_firstWord {
        if valids != [] && versions != [] && fragments != [] && dataIn != [] {
          var valid := Bit(valids[0]) + Bit(versions[0]) + Bit(fragments[0]);
          read, flags, last := 1, 1, dataIn[0].last;
          if valid != 3 {
            iid_drop := true;
          } else {
            dataOut := [dataIn[0]];
          }
          iid_firstWord := false;
        }
      } else if dataIn != [] {
        read, last, dataOut := 1, dataIn[0].last, [dataIn[0]];
      }
      if last {
        iid_drop, iid_firstWord := false, true;
      }
    }
  }

  function Bit(b: bool): nat {
    if b then 1 else 0
  }
}

/** cut_length: packets cut to their total length. */
module LengthCutter {
  import opened Arith
  import opened Sealing
  import opened RxStream
  import opened PacketWords
  import opened OnesComplement

  datatype Regs = Regs(wordCount: nat, totalLength: nat, drop: bool)

  const START: Regs := Regs(0, 0, false)

  predicate Idle(s: Regs) {
    s.wordCount == 0 && !s.drop
  }

  /** The last real word of a packet. */
  predicate Ends(s: Regs) {
    s.wordCount > 0 && (s.wordCount + 1) * 8 >= s.totalLength
  }

  function Out(s: Regs, w: Word): Word {
    if Ends(s) then Word(w.data, Low(LeftLength(s)), true) else w
  }

  /** A four-bit number. */
  function LeftLength(s: Regs): nat {
    var left: int := s.totalLength - s.wordCount * 8;
    left % 16
  }

  function Next(s: Regs, w: Word): Regs
    requires |w.data| == 8
  {
    if s.drop then s.(drop := !w.last)
    else
      var total := if s.wordCount == 0 then Pair(w.data[2], w.data[3]) else s.totalLength;
      Regs(if Ends(s) || w.last then 0 else s.wordCount + 1, total, Ends(s) && !w.last)
  }

  function Run(s: Regs, ws: seq<Word>): seq<Word>
    requires Lengths8(ws)
    decreases |ws|
  {
    if ws == [] then []
    else (if s.drop then [] else [Out(s, ws[0])]) + Run(Next(s, ws[0]), ws[1..])
  }

  lemma {:induction false} Dropping(s: Regs, ws: seq<Word>, p: seq<Byte>, more: seq<Word>)
    requires IsPacket(ws, p) && Lengths8(more) && s.drop && s.wordCount == 0
    ensures Lengths8(ws + more) && Run(s, ws + more) == Run(s.(drop := false), more)
    decreases |p|
  {
    FirstWord(ws, p);
    if |p| > 8 {
      Dropping(s, ws[1..], p[8..], more);
    } else {
      assert ws[1..] + more == more;
    }
    JoinWords(ws, more);
  }

  function TotalLength(p: seq<Byte>): nat
    requires |p| >= 4
  {
    Pair(p[2], p[3])
  }

  /** The word, counted from one, at which a packet of this total length is cut; never
      the first one. */
  function CutAt(total: nat): nat {
    if total <= 16 then 2 else (total + 7) / 8
  }

  /** What is made of the words of a packet. */
  function Cut(ws: seq<Word>, total: nat): seq<Word> {
    CutFrom(ws, total, 0)
  }

  /** The same for its words from number k on. */
  function CutFrom(ws: seq<Word>, total: nat, k: nat): seq<Word> {
    var n := CutAt(total) - k;
    if 0 < n <= |ws| then
      var left: int := total - 8 * (CutAt(total) - 1);
      ws[..n - 1] + [Word(ws[n - 1].data, Low(left % 16), true)]
    else ws
  }

  lemma {:induction false} CutTail(ws: seq<Word>, total: nat, k: nat)
    requires ws != [] && CutAt(total) > k + 1
    ensures CutFrom(ws, total, k) == [ws[0]] + CutFrom(ws[1..], total, k + 1)
  {
    var n := CutAt(total) - k;
    assert ws == [ws[0]] + ws[1..];
    if n <= |ws| {
      assert ws[..n - 1] == [ws[0]] + ws[1..][..n - 2];
    }
  }

  /** The word at which the packet ends, and the words that are dropped after it. */
  lemma {:induction false} CutHere(s: Regs, ws: seq<Word>, p: seq<Byte>, more: seq<Word>) returns (s': Regs)
    requires IsPacket(ws, p) && Lengths8(more) && !s.drop && Ends(s)
    ensures Idle(s') && Lengths8(ws + more) && Run(s, ws + more) == [Out(s, ws[0])] + Run(s', more)
  {
    FirstWord(ws, p);
    var s1 := Next(s, ws[0]);
    s' := s1.(drop := false);
    if |p| > 8 {
      Dropping(s1, ws[1..], p[8..], more);
    } else {
      assert ws[1..] + more == more;
    }
    JoinWords(ws, more);
  }

  /** The last word of a packet that does not end there by its total length. */
  lemma {:induction false} PassLast(s: Regs, ws: seq<Word>, p: seq<Byte>, more: seq<Word>)
    requires IsPacket(ws, p) && |p| <= 8 && Lengths8(more) && !s.drop && !Ends(s)
    ensures Idle(Next(s, ws[0])) && Lengths8(ws + more) && Run(s, ws + more) == ws + Run(Next(s, ws[0]), more)
  {
    FirstWord(ws, p);
    assert ws[1..] + more == more && ws == [ws[0]];
    JoinWords(ws, more);
  }

  /** Where a packet ends. */
  lemma {:induction false} EndsAt(s: Regs)
    requires 0 < s.wordCount < CutAt(s.totalLength)
    ensures Ends(s) <==> s.wordCount + 1 == CutAt(s.totalLength)
  {}

  lemma {:induction false} CutHead(s: Regs, ws: seq<Word>)
    requires s.wordCount + 1 == CutAt(s.totalLength) && s.wordCount > 0 && ws != []
    ensures CutFrom(ws, s.totalLength, s.wordCount) == [Out(s, ws[0])]
  {
    EndsAt(s);
  }

  /** The words after the first one. */
  lemma {:induction false} Cutting(s: Regs, ws: seq<Word>, p: seq<Byte>, more: seq<Word>, total: nat, k: nat)
    returns (s': Regs)
    requires IsPacket(ws, p) && Lengths8(more) && s == Regs(k, total, false) && 0 < k < CutAt(total)
    ensures Idle(s') && Lengths8(ws + more) && Run(s, ws + more) == CutFrom(ws, total, k) + Run(s', more)
    decreases |p|
  {
    EndsAt(s);
    FirstWord(ws, p);
    if k + 1 == CutAt(total) {
      s' := CutHere(s, ws, p, more);
      CutHead(s, ws);
    } else if |p| > 8 {
      s' := Cutting(Next(s, ws[0]), ws[1..], p[8..], more, total, k + 1);
      CutTail(ws, total, k);
      OneOn(s, ws, more, CutFrom(ws[1..], total, k + 1), Run(s', more));
    } else {
      s' := Next(s, ws[0]);
      PassLast(s, ws, p, more);
    }
  }

  /** A word that is not the last one is passed on. */
  lemma {:induction false} OneOn(s: Regs, ws: seq<Word>, more: seq<Word>, rest: seq<Word>, tail: seq<Word>)
    requires ws != [] && Word8(ws[0]) && Lengths8(ws[1..] + more) && !s.drop && !Ends(s) && !ws[0].last
    requires Run(Next(s, ws[0]), ws[1..] + more) == rest + tail
    ensures Lengths8(ws + more) && Run(s, ws + more) == ([ws[0]] + rest) + tail
  {
    JoinWords(ws, more);
    assert [ws[0]] + (rest + tail) == ([ws[0]] + rest) + tail;
  }

  /** Every packet of more than one word is cut by its total length, whatever that
      is, one of one word passes, and the next packet is not affected. */
  lemma {:induction false} Cuts(s: Regs, ws: seq<Word>, p: seq<Byte>, more: seq<Word>) returns (s': Regs)
    requires IsPacket(ws, p) && Lengths8(more) && Idle(s)
    ensures Idle(s') && Lengths8(ws + more)
    ensures Run(s, ws + more) == (if |p| <= 8 then ws else Cut(ws, TotalLength(p))) + Run(s', more)
  {
    FirstWord(ws, p);
    if |p| <= 8 {
      OneWord(ws, more);
      JoinWords(ws, more);
      s' := Next(s, ws[0]);
    } else {
      s' := CutsMore(s, ws, p, more);
    }
  }

  lemma {:induction false} CutsMore(s: Regs, ws: seq<Word>, p: seq<Byte>, more: seq<Word>) returns (s': Regs)
    requires IsPacket(ws, p) && Lengths8(more) && Idle(s) && |p| > 8
    ensures Idle(s') && Lengths8(ws + more) && Run(s, ws + more) == Cut(ws, TotalLength(p)) + Run(s', more)
  {
    FirstWord(ws, p);
    assert ws[0].data[..8] == ws[0].data;
    s' := Cutting(Next(s, ws[0]), ws[1..], p[8..], more, TotalLength(p), 1);
    CutTail(ws, TotalLength(p), 0);
    OneOn(s, ws, more, CutFrom(ws[1..], TotalLength(p), 1), Run(s', more));
  }

  /** The first word of a packet before the rest of its first n bytes. */
  lemma {:induction false} FirstBefore(ws: seq<Word>, p: seq<Byte>, rest: seq<Word>, n: nat)
    requires IsPacket(ws, p) && 8 < n <= |p| && IsPacket(rest, p[8..][..n - 8])
    ensures IsPacket([ws[0]] + rest, p[..n])
  {
    FirstWord(ws, p);
    var w := ws[0];
    assert w.data[..8] == w.data && p[8..][..n - 8] == p[8..n] && p[..8] + p[8..n] == p[..n];
    PrependWord(w, rest, p[..8], p[8..n]);
  }

  /** The words out are what is made of ws, sealed. */
  ghost predicate IsCut(out: seq<Word>, ws: seq<Word>, total: nat, k: nat) {
    forall i {:trigger Opened(i)} :: Opened(i) && i == CUT ==> out == CutFrom(ws, total, k)
  }

  const CUT: nat := 37

  lemma {:induction false} IsCutTail(rest: seq<Word>, ws: seq<Word>, total: nat, k: nat)
    requires ws != [] && CutAt(total) > k + 1 && IsCut(rest, ws[1..], total, k + 1)
    ensures IsCut([ws[0]] + rest, ws, total, k)
  {
    assert Opened(CUT);
    CutTail(ws, total, k);
  }

  lemma {:induction false} CutLast(ws: seq<Word>, p: seq<Byte>, total: nat, k: nat, left: nat) returns (out: seq<Word>)
    requires IsPacket(ws, p) && k > 0 && total == 8 * k + left && 0 < left <= |p| && left <= 8
    ensures IsCut(out, ws, total, k) && IsPacket(out, p[..left])
  {
    FirstWord(ws, p);
    var w := ws[0];
    CutHead(Regs(k, total, false), ws);
    out := [Word(w.data, Low(left), true)];
    assert w.data[..left] == w.data[..Head(p)][..left] == p[..left];
    LastOfPacket(Word(w.data, Low(left), true), p[..left]);
  }

  lemma {:induction false} CutKeeps(ws: seq<Word>, p: seq<Byte>, total: nat, k: nat, left: nat) returns (out: seq<Word>)
    requires IsPacket(ws, p) && k > 0 && total == 8 * k + left && 0 < left <= |p|
    ensures IsCut(out, ws, total, k) && IsPacket(out, p[..left])
    decreases |p|
  {
    if left <= 8 {
      out := CutLast(ws, p, total, k, left);
    } else {
      FirstWord(ws, p);
      var rest := CutKeeps(ws[1..], p[8..], total, k + 1, left - 8);
      IsCutTail(rest, ws, total, k);
      FirstBefore(ws, p, rest, left);
      out := [ws[0]] + rest;
    }
  }

  predicate Fits(p: seq<Byte>)
    requires |p| >= 4
  {
    8 < TotalLength(p) <= |p|
  }

  predicate AllFit(ps: seq<seq<Byte>>) {
    forall i :: 0 <= i < |ps| ==> |ps[i]| >= 4 && Fits(ps[i])
  }

  function ToLengths(ps: seq<seq<Byte>>): (qs: seq<seq<Byte>>)
    requires AllFit(ps)
    ensures |qs| == |ps|
  {
    seq(|ps|, i requires 0 <= i < |ps| => ps[i][..TotalLength(ps[i])])
  }

  /** What comes out is the packet cut to its total length if that is more than one
      word and not more than there is. */
  lemma {:induction false} CutToLength(ws: seq<Word>, p: seq<Byte>)
    requires IsPacket(ws, p) && |p| > 8 && Fits(p)
    ensures IsPacket(Cut(ws, TotalLength(p)), p[..TotalLength(p)])
  {
    FirstWord(ws, p);
    var n := TotalLength(p);
    var rest := CutKeeps(ws[1..], p[8..], n, 1, n - 8);
    assert CutAt(n) > 1;
    IsCutTail(rest, ws, n, 0);
    FirstBefore(ws, p, rest, n);
    CutSo([ws[0]] + rest, ws, n);
  }

  lemma {:induction false} CutSo(out: seq<Word>, ws: seq<Word>, total: nat)
    requires IsCut(out, ws, total, 0)
    ensures out == Cut(ws, total)
  {
    assert Opened(CUT);
  }

  lemma {:induction false} WordCount(ws: seq<Word>, p: seq<Byte>)
    requires IsPacket(ws, p)
    ensures |ws| == (|p| + 7) / 8
  {
    assert |Views(ws)| == |Burst(p)|;
  }

  /** Otherwise it is not: the condition is exact. */
  lemma {:induction false} CutToLengthIff(ws: seq<Word>, p: seq<Byte>)
    requires IsPacket(ws, p) && |p| >= 20
    ensures var total := TotalLength(p);
            (total <= |p| && IsPacket(Cut(ws, total), p[..total])) <==> Fits(p)
  {
    var total := TotalLength(p);
    WordCount(ws, p);
    if Fits(p) {
      CutToLength(ws, p);
    } else if total <= |p| && IsPacket(Cut(ws, total), p[..total]) {
      WordCount(Cut(ws, total), p[..total]);
      assert false;
    }
  }

  /** With a total length beyond the packet, but within its last word, lanes that hold
      none of its bytes are marked as kept. */
  lemma {:induction false} StaleLanes(ws: seq<Word>, p: seq<Byte>)
    requires IsPacket(ws, p) && |p| >= 20 && |p| < TotalLength(p) <= 8 * |ws|
    ensures var out, n := Cut(ws, TotalLength(p)), |ws| - 1;
            && |out| == |ws| && out[..n] == ws[..n] && out[n].data == ws[n].data && out[n].last
            && Ones(ws[n].keep) == |p| - 8 * n < Ones(out[n].keep) == TotalLength(p) - 8 * n
  {
    WordCount(ws, p);
    var n := |ws| - 1;
    OnesOfLow(TotalLength(p) - 8 * n);
    LastKeep(ws, p);
  }

  lemma {:induction false} LastKeep(ws: seq<Word>, p: seq<Byte>)
    requires IsPacket(ws, p)
    ensures |ws| > 0 && Ones(ws[|ws| - 1].keep) == |p| - 8 * (|ws| - 1)
    decreases |p|
  {
    FirstWord(ws, p);
    if |p| > 8 {
      LastKeep(ws[1..], p[8..]);
      assert ws[1..][|ws| - 2] == ws[|ws| - 1];
    } else {
      OnesOfLow(|p|);
    }
  }

  /** With a total length beyond its last word a packet is not cut. */
  lemma {:induction false} PassesUncut(ws: seq<Word>, p: seq<Byte>)
    requires IsPacket(ws, p) && |p| >= 20 && TotalLength(p) > 8 * |ws|
    ensures Cut(ws, TotalLength(p)) == ws
  {
    WordCount(ws, p);
  }

  /** Packets, each cut by its own total length. */
  function CutEach(wss: seq<seq<Word>>, ps: seq<seq<Byte>>): (outs: seq<seq<Word>>)
    requires |wss| == |ps| && forall i :: 0 <= i < |ps| ==> |ps[i]| > 8
    ensures |outs| == |wss| && forall i :: 0 <= i < |ps| ==> outs[i] == Cut(wss[i], TotalLength(ps[i]))
  {
    seq(|wss|, i requires 0 <= i < |wss| => Cut(wss[i], TotalLength(ps[i])))
  }

  lemma {:induction false} CutsAll(s: Regs, wss: seq<seq<Word>>, ps: seq<seq<Byte>>)
    requires Idle(s) && Carry(wss, ps) && forall i :: 0 <= i < |ps| ==> |ps[i]| > 8
    ensures Lengths8(Concat(wss)) && Run(s, Concat(wss)) == Concat(CutEach(wss, ps))
    decreases |wss|
  {
    AllLengths(wss, ps);
    if wss != [] {
      AllLengths(wss[1..], ps[1..]);
      var s' := Cuts(s, wss[0], ps[0], Concat(wss[1..]));
      CutsAll(s', wss[1..], ps[1..]);
      assert CutEach(wss, ps)[1..] == CutEach(wss[1..], ps[1..]);
    }
  }

  class CutLength {
    var cl_wordCount: nat
    var cl_totalLength: nat
    var cl_drop: bool

    ghost function Registers(): Regs
      reads this
    {
      Regs(cl_wordCount, cl_totalLength, cl_drop)
    }

    constructor ()
      ensures Registers() == START
    {
      cl_wordCount, cl_totalLength, cl_drop := 0, 0, false;
    }

    method Step(dataIn: seq<Word>, ghost more: seq<Word>) returns (read: nat, dataOut: seq<Word>)
      requires Lengths8(dataIn) && Lengths8(more)
      modifies this
      ensures read == if dataIn != [] then 1 else 0
      ensures Run(old(Registers()), dataIn + more) == dataOut + Run(Registers(), dataIn[read..] + more)
    {
      WithMore(dataIn, more);
      read, dataOut := 0, [];
      if cl_drop {
        if dataIn != [] {
          read := 1;
          if dataIn[0].last {
            cl_drop := false;
          }
        }
      } else if dataIn != [] {
        read := 1;
        var currWord := dataIn[0];
        if cl_wordCount == 0 {
          cl_totalLength := Pair(currWord.data[2], currWord.data[3]);
        } else if (cl_wordCount + 1) * 8 >= cl_totalLength {
          cl_drop := !currWord.last;
          var left: int := cl_totalLength - cl_wordCount * 8;
          var keep := ReturnKeep(left % 16);
          currWord := currWord.(last := true, keep := keep);
        }
        dataOut := [currWord];
        cl_wordCount := if currWord.last then 0 else cl_wordCount + 1;
      }
    }
  }
}

/** The receive path over any sequence of frames, and the way there and back. */
module IpPath {
  import opened Arith
  import opened RxStream
  import opened PacketWords
  import opened OnesComplement
  import IpChecksum
  import FrameEncoder
  import opened IpStrip
  import IpDropper
  import LengthCutter

  type Frame = seq<Byte>

  /** What is summed up adds up to all ones, and the frame is meant for us, of version 4
      and whole. */
  ghost predicate Accepts(f: Frame, my: Ip) {
    && IsJudged(f)
    && Canon(Total(Summed(f))) == MAX
    && IsOurs(Address(f), my)
    && f[14] / 16 == 4
    && Unfragmented(f[20], f[21])
  }

  /** What follows the Ethernet header of a frame, if it is accepted. */
  ghost function IfAccepted(f: Frame, my: Ip): seq<seq<Byte>> {
    if Accepts(f, my) then [f[14..]] else []
  }

  /** The same for all frames. */
  ghost function Accepted(fs: seq<Frame>, my: Ip): seq<seq<Byte>> {
    Gather(fs, (f: Frame) => IfAccepted(f, my))
  }

  lemma {:induction false} AcceptedLengths(fs: seq<Frame>, my: Ip)
    ensures forall i :: 0 <= i < |Accepted(fs, my)| ==> |Accepted(fs, my)[i]| >= 20
  {
    if fs != [] {
      AcceptedLengths(fs[1..], my);
      var one, rest := IfAccepted(fs[0], my), Accepted(fs[1..], my);
      assert Accepted(fs, my) == one + rest;
      assert forall i :: 0 <= i < |one| ==> |one[i]| >= 20;
    }
  }

  /** check_ip_checksum, iph_check_ip_checksum and ip_invalid_dropper, each run to its
      end. */
  function Forward(data: DataRegs, header: FlagRegs, ws: seq<Word>, my: Ip): (out: seq<Word>)
    requires Word8(data.prevWord) && Lengths8(ws)
    ensures Lengths8(out)
  {
    var flags := FlagRun(header, ws, my);
    IpDropper.Run(IpDropper.FIRST, DataRun(data, ws), IpDropper.Valids(flags.subSums), flags.versions, flags.fragments)
  }

  /** And cut_length. */
  function Receive(data: DataRegs, header: FlagRegs, cut: LengthCutter.Regs, ws: seq<Word>, my: Ip): seq<Word>
    requires Word8(data.prevWord) && Lengths8(ws)
  {
    LengthCutter.Run(cut, Forward(data, header, ws, my))
  }

  lemma {:induction false} ValidsOf(s: SubSums, ss: seq<SubSums>)
    ensures IpDropper.Valids([s] + ss) == [IpDropper.Valid(s)] + IpDropper.Valids(ss)
  {}

  /** One frame: it is forwarded, without its Ethernet header, exactly if it is
      acceptable. */
  lemma {:induction false} ForwardsOne(data: DataRegs, header: FlagRegs, ws: seq<Word>, f: Frame, more: seq<Word>,
                                       my: Ip)
    returns (kept: seq<Word>, data': DataRegs, header': FlagRegs)
    requires IsPacket(ws, f) && IsJudged(f) && Lengths8(more)
    requires data.wordCount == 0 && !data.wasLast && Word8(data.prevWord) && header.wordCount == 0
    ensures data'.wordCount == 0 && !data'.wasLast && Word8(data'.prevWord) && header'.wordCount == 0
    ensures Lengths8(ws + more) && if Accepts(f, my) then IsPacket(kept, f[14..]) else kept == []
    ensures Forward(data, header, ws + more, my) == kept + Forward(data', header', more, my)
  {
    var d, sub;
    d, data' := Strips(data, ws, f, more);
    header', sub := FlagsOfIpFrame(header, ws, f, more, my);
    CombineStands(sub.sums, Total(Summed(f)));
    var rest := FlagRun(header', more, my);
    ValidsOf(sub, rest.subSums);
    IpDropper.PassesIff(d, f[14..], DataRun(data', more), IpDropper.Valid(sub), f[14] / 16 == 4,
                        Unfragmented(f[20], f[21]), IpDropper.Valids(rest.subSums), rest.versions, rest.fragments);
    kept := if Accepts(f, my) then d else [];
  }

  /** Acceptance is exact over any sequence of frames: what follows the Ethernet
      headers of the acceptable frames is forwarded, in order, and nothing else; the
      queues of flags stay aligned with the frames, whatever their total lengths. */
  lemma {:induction false} AcceptanceIsExact(data: DataRegs, header: FlagRegs, wss: seq<seq<Word>>, fs: seq<Frame>,
                                             my: Ip)
    returns (kept: seq<seq<Word>>)
    requires Carry(wss, fs) && forall i :: 0 <= i < |fs| ==> IsJudged(fs[i])
    requires data.wordCount == 0 && !data.wasLast && Word8(data.prevWord) && header.wordCount == 0
    ensures Lengths8(Concat(wss)) && Carry(kept, Accepted(fs, my))
    ensures Forward(data, header, Concat(wss), my) == Concat(kept)
    decreases |fs|
  {
    if fs == [] {
      kept := [];
    } else {
      AllLengths(wss[1..], fs[1..]);
      var one, data', header';
      one, data', header' := ForwardsOne(data, header, wss[0], fs[0], Concat(wss[1..]), my);
      kept := AcceptanceIsExact(data', header', wss[1..], fs[1..], my);
      if Accepts(fs[0], my) {
        var others := kept;
        kept := [one] + others;
        assert kept[1..] == others;
      }
    }
  }

  /** The packets outs are the accepted ones, each cut by its total length, which
      leaves what the total length says if there is as much. */
  ghost predicate Received(outs: seq<seq<Word>>, kept: seq<seq<Word>>, ps: seq<seq<Byte>>) {
    && (forall i :: 0 <= i < |ps| ==> |ps[i]| >= 20) && Carry(kept, ps) && outs == LengthCutter.CutEach(kept, ps)
    && forall i :: 0 <= i < |ps| && LengthCutter.Fits(ps[i]) ==>
         IsPacket(outs[i], ps[i][..LengthCutter.TotalLength(ps[i])])
  }

  /** Over any sequence of frames, what comes out are the accepted packets, cut. */
  lemma {:induction false} ReceivesExactly(data: DataRegs, header: FlagRegs, cut: LengthCutter.Regs,
                                           wss: seq<seq<Word>>, fs: seq<Frame>, my: Ip)
    returns (outs: seq<seq<Word>>, kept: seq<seq<Word>>)
    requires Carry(wss, fs) && forall i :: 0 <= i < |fs| ==> IsJudged(fs[i])
    requires data.wordCount == 0 && !data.wasLast && Word8(data.prevWord) && header.wordCount == 0
    requires LengthCutter.Idle(cut)
    ensures Lengths8(Concat(wss)) && Received(outs, kept, Accepted(fs, my))
    ensures Receive(data, header, cut, Concat(wss), my) == Concat(outs)
  {
    var ps := Accepted(fs, my);
    AcceptedLengths(fs, my);
    kept := AcceptanceIsExact(data, header, wss, fs, my);
    outs := LengthCutter.CutEach(kept, ps);
    LengthCutter.CutsAll(cut, kept, ps);
    forall i | 0 <= i < |ps| && LengthCutter.Fits(ps[i])
      ensures IsPacket(outs[i], ps[i][..LengthCutter.TotalLength(ps[i])])
    {
      LengthCutter.CutToLength(kept[i], ps[i]);
    }
  }

  // There and back.

  /** A packet without options, whole, of version 4 and meant for the receiver. */
  ghost predicate Plain(p: seq<Byte>, my: Ip) {
    && IpChecksum.IsIpPacket(p) && p[0] == 0x45
    && LengthCutter.TotalLength(p) == |p| && Unfragmented(p[6], p[7])
    && (p[16..20] == my || p[16..20] == BROADCAST)
  }

  /** Its frame, padded in any way, is accepted, and what is left of it after the
      header has been stripped and the padding cut off is the packet again, with its
      checksum filled in. */
  lemma {:induction false} ComesBack(p: seq<Byte>, dst: FrameEncoder.Mac, src: FrameEncoder.Mac, pad: seq<Byte>, my: Ip)
    requires Plain(p, my)
    ensures var q := IpChecksum.Filled(p, IpChecksum.Checksum(p));
            var f := FrameEncoder.Frame(dst, src, q) + pad;
            Accepts(f, my) && IsJudged(f) && f[14..] == q + pad && LengthCutter.Fits(f[14..])
            && f[14..][..LengthCutter.TotalLength(f[14..])] == q
  {
    var q := IpChecksum.Filled(p, IpChecksum.Checksum(p));
    var f := FrameEncoder.Frame(dst, src, q) + pad;
    assert q[16..20] == p[16..20];
    InFrame(q, dst, src, pad);
    FilledHeader(p, q);
    PlainAccepted(f, my);
  }

  lemma {:induction false} PlainParts(f: Frame)
    requires |f| >= 34 && f[14] == 0x45
    ensures IsJudged(f) && Summed(f) == f[14..34] && Address(f) == f[30..34]
  {
    assert f[14] % 16 == 5;
    JudgedParts(f);
  }

  /** With a header length of 5 the header is summed up and the destination compared. */
  lemma {:induction false} PlainAccepted(f: Frame, my: Ip)
    requires |f| >= 34 && f[14] == 0x45
    ensures Accepts(f, my) <==>
              Canon(Total(f[14..34])) == MAX && IsOurs(f[30..34], my) && Unfragmented(f[20], f[21])
  {
    PlainParts(f);
  }

  /** The bytes of a packet in its frame. */
  lemma {:induction false} InFrame(q: seq<Byte>, dst: FrameEncoder.Mac, src: FrameEncoder.Mac, pad: seq<Byte>)
    requires |q| >= 20
    ensures var f := FrameEncoder.Frame(dst, src, q) + pad;
            && f[14..] == q + pad && f[14..][..|q|] == q && f[14..34] == q[..20] && f[30..34] == q[16..20]
            && f[14] == q[0] && f[20] == q[6] && f[21] == q[7]
  {
    var f := FrameEncoder.Frame(dst, src, q) + pad;
    assert f[14..] == q + pad;
    assert f[14..34] == f[14..][..20] && f[30..34] == f[14..][16..20];
    assert f[14] == f[14..][0] && f[20] == f[14..][6] && f[21] == f[14..][7];
  }

  lemma {:induction false} FilledHeader(p: seq<Byte>, q: seq<Byte>)
    requires IpChecksum.IsIpPacket(p) && p[0] == 0x45 && q == IpChecksum.Filled(p, IpChecksum.Checksum(p))
    ensures Canon(Total(q[..20])) == MAX
  {
    IpChecksum.FilledVerifies(p, IpChecksum.Checksum(p));
  }

  /** Whatever frames come before it, a packet that is sent in a frame, padded in any
      way, is received as it was sent. */
  lemma {:induction false} RoundTrip(wss: seq<seq<Word>>, fs: seq<Frame>, p: seq<Byte>, dst: FrameEncoder.Mac,
                                     src: FrameEncoder.Mac, pad: seq<Byte>, my: Ip, data: DataRegs, header: FlagRegs,
                                     cut: LengthCutter.Regs)
    returns (outs: seq<seq<Word>>)
    requires Plain(p, my) && Carry(wss, fs) && |fs| > 0 && forall i :: 0 <= i < |fs| ==> IsJudged(fs[i])
    requires fs[|fs| - 1] == FrameEncoder.Frame(dst, src, IpChecksum.Filled(p, IpChecksum.Checksum(p))) + pad
    requires data.wordCount == 0 && !data.wasLast && Word8(data.prevWord) && header.wordCount == 0
    requires LengthCutter.Idle(cut)
    ensures Lengths8(Concat(wss)) && Receive(data, header, cut, Concat(wss), my) == Concat(outs)
    ensures |outs| == |Accepted(fs[..|fs| - 1], my)| + 1
    ensures IsPacket(outs[|outs| - 1], IpChecksum.Filled(p, IpChecksum.Checksum(p)))
  {
    var kept;
    outs, kept := ReceivesExactly(data, header, cut, wss, fs, my);
    ComesBack(p, dst, src, pad, my);
    GatherLast(fs, (f: Frame) => IfAccepted(f, my));
  }
}
