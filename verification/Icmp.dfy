/** The incremental update of the checksum of an echo request (section 3 of
    RFC 1624), on sixteen-bit words in the order of the stream. */
module IcmpUpdate {
  import opened Arith
  import opened OnesComplement

  const ECHO_REQUEST: nat := 8

  type Bits17 = v: nat | v < 0x2_0000

  /** The checksum field as it is read from a word: low byte first. */
  function Field(hi: Byte, lo: Byte): (v: nat)
    ensures v <= MAX
  {
    hi + 256 * lo
  }

  /** Lowering a seventeen-bit number by eight, with the borrow, which sets bit
      sixteen, taken off again and that bit masked out. */
  function Lower(x: Bits17): nat {
    var z := if x >= ECHO_REQUEST then x - ECHO_REQUEST else x + 0x2_0000 - ECHO_REQUEST;
    var b := if z >= 0x1_0000 then z - 1 else z;
    if b >= 0x1_0000 then b - 0x1_0000 else b
  }

  /** The field with bit sixteen set, complemented, lowered, complemented. */
  function Updated(field: nat): (c: nat)
    ensures c <= MAX
  {
    Not17(Lower(Not17(0x1_0000 + field))) % 0x1_0000
  }

  /** The update adds eight, in ones' complement, and never yields zero. */
  lemma {:induction false} UpdateAdds(field: nat)
    requires field <= MAX
    ensures 1 <= Updated(field) <= MAX
    ensures Updated(field) == if field + 8 <= MAX then field + 8 else field + 8 - MAX
  {
    var y := MAX - field;
    NotField(field);
    LowerBy8(y);
    NotLow(Lower(y));
  }

  lemma {:induction false} NotField(field: nat)
    requires field <= MAX
    ensures Not17(0x1_0000 + field) == MAX - field
  {}

  lemma {:induction false} LowerBy8(y: nat)
    requires y <= MAX
    ensures Lower(y) == if y >= 8 then y - 8 else y + MAX - 8
  {}

  lemma {:induction false} NotLow(y: nat)
    requires y <= MAX
    ensures Not17(y) % 0x1_0000 == MAX - y
  {}

  /** Exchanging the bytes of a sum is multiplying it by 256. */
  lemma {:induction false} SwapTimes256(hi: Byte, lo: Byte)
    ensures Pair(hi, lo) == 256 * Field(hi, lo) - lo * MAX
  {}

  /** The word at the head of the message with its type byte, and its checksum, before
      and after, differ by a multiple of all ones. */
  lemma {:induction false} UpdateKeepsSum(code: Byte, hi: Byte, lo: Byte, hi': Byte, lo': Byte) returns (k: int)
    requires Field(hi', lo') == Updated(Field(hi, lo))
    ensures Pair(0, code) + Pair(hi', lo') == Pair(8, code) + Pair(hi, lo) + k * MAX
    ensures Pair(hi', lo') > 0
  {
    UpdateAdds(Field(hi, lo));
    SwapTimes256(hi, lo);
    SwapTimes256(hi', lo');
    k := lo - lo' - if Field(hi, lo) + 8 <= MAX then 0 else 256;
  }

  /** A message that sums up to all ones still does after the type has been changed
      from 8 to 0 and the checksum updated, whatever its length. */
  lemma {:induction false} EchoVerifies(m: seq<Byte>)
    requires |m| >= 4 && m[0] == 8 && Canon(Total(m)) == MAX
    ensures Canon(Total(Reply(m))) == MAX
  {
    var c := Updated(Field(m[2], m[3]));
    var k := UpdateKeepsSum(m[1], m[2], m[3], c % 256, c / 256);
    HeadAndRest(m);
    HeadAndRest(Reply(m));
    assert Reply(m)[4..] == m[4..];
    SameSum(Total(m), Total(Reply(m)), k);
  }

  lemma {:induction false} HeadAndRest(m: seq<Byte>)
    requires |m| >= 4
    ensures Total(m) == Pair(m[0], m[1]) + Pair(m[2], m[3]) + Total(m[4..])
  {
    TotalSplit(m[..4], m[4..]);
    assert m == m[..4] + m[4..];
    FourBytes(m[..4]);
  }

  lemma {:induction false} FourBytes(b: seq<Byte>)
    requires |b| == 4
    ensures Total(b) == Pair(b[0], b[1]) + Pair(b[2], b[3])
  {
    TotalFrom(b, 0, 4);
    TotalFrom(b, 2, 4);
    TotalFrom(b, 4, 4);
    assert b[0..4] == b;
  }

  lemma {:induction false} SameSum(t: nat, u: nat, k: int)
    requires Canon(t) == MAX && u == t + k * MAX && u > 0
    ensures Canon(u) == MAX
  {
    if k >= 0 {
      CanonShift(t, k);
    } else {
      CanonShift(u, -k);
      assert t == u + (-k) * MAX;
    }
  }

  /** The message with type 0 and the updated checksum. */
  function Reply(m: seq<Byte>): (r: seq<Byte>)
    requires |m| >= 4
    ensures |r| == |m|
  {
    var c := Updated(Field(m[2], m[3]));
    m[0 := 0][2 := c % 256][3 := c / 256]
  }
}

/** check_icmp_checksum: the data path turns a request into a reply, the sum path
    checks it and computes the new checksum. */
module IcmpCheck {
  import opened Arith
  import opened Sealing
  import opened RxStream
  import opened PacketWords
  import opened OnesComplement
  import opened IcmpUpdate

  /** The bytes of as many words as the sixteen-bit counters count. */
  const COUNTED: nat := 0x8_0000

  /** Packets of up to this length never make a counter wrap, even one that has not been
      set back at the end of the packet before. */
  const LONGEST: nat := COUNTED - 24

  // The data path.

  datatype DataRegs = DataRegs(wordCount: nat, prevWord: Word, writeLastOne: bool)

  const DATA_START: DataRegs := DataRegs(0, Word([0, 0, 0, 0, 0, 0, 0, 0], Low(0), false), false)

  predicate IdleData(s: DataRegs) {
    s.wordCount == 0 && !s.writeLastOne && Word8(s.prevWord)
  }

  function Count(count: nat, w: Word): nat {
    if w.last then 0 else (count + 1) % 0x1_0000
  }

  /** The word kept: the third one with the source address, and type 0. */
  function Kept(s: DataRegs, w: Word): Word
    requires Word8(s.prevWord) && Word8(w)
  {
    if s.wordCount == 2 then w.(data := s.prevWord.data[4..] + [0] + w.data[5..]) else w
  }

  function DataNext(s: DataRegs, w: Word): DataRegs
    requires Word8(s.prevWord) && Word8(w)
  {
    DataRegs(Count(s.wordCount, w), Kept(s, w), w.last)
  }

  /** The second word goes out with the destination address as source. */
  function DataOut(s: DataRegs, w: Word): seq<Word>
    requires Word8(s.prevWord) && Word8(w)
  {
    if s.wordCount == 0 then []
    else if s.wordCount == 2 then [Word(s.prevWord.data[..4] + w.data[..4], Low(8), false)]
    else [s.prevWord]
  }

  function DataRun(s: DataRegs, ws: seq<Word>): (out: seq<Word>)
    requires Word8(s.prevWord) && Lengths8(ws)
    ensures Lengths8(out)
    decreases |ws|, if s.writeLastOne then 1 else 0
  {
    if s.writeLastOne then [s.prevWord] + DataRun(s.(writeLastOne := false), ws)
    else if ws == [] then []
    else DataOut(s, ws[0]) + DataRun(DataNext(s, ws[0]), ws[1..])
  }

  ghost predicate DataRunsTo(s: DataRegs, ws: seq<Word>, out: seq<Word>, s': DataRegs, ws': seq<Word>) {
    forall k {:trigger Opened(k)} :: Opened(k) && k == DATA ==>
      Word8(s.prevWord) && Word8(s'.prevWord) && Lengths8(ws) && Lengths8(ws')
      && DataRun(s, ws) == out + DataRun(s', ws')
  }

  const DATA: nat := 12

  lemma {:induction false} DataThen(s: DataRegs, ws: seq<Word>, out: seq<Word>, s1: DataRegs, ws1: seq<Word>,
                                    out1: seq<Word>, s2: DataRegs, ws2: seq<Word>)
    requires DataRunsTo(s, ws, out, s1, ws1) && DataRunsTo(s1, ws1, out1, s2, ws2)
    ensures DataRunsTo(s, ws, out + out1, s2, ws2)
  {
    assert Opened(DATA);
    assert out + (out1 + DataRun(s2, ws2)) == out + out1 + DataRun(s2, ws2);
  }

  /** Reading w takes s to s' and outputs out. */
  ghost predicate DataReads(s: DataRegs, w: Word, out: seq<Word>, s': DataRegs) {
    forall k {:trigger Opened(k)} :: Opened(k) && k == DATA_READ ==>
      && !s.writeLastOne && Word8(s.prevWord) && Word8(w) && out == DataOut(s, w) && s' == DataNext(s, w)
  }

  const DATA_READ: nat := 13

  lemma {:induction false} DataRead(s: DataRegs, ws: seq<Word>, more: seq<Word>, out: seq<Word>, s': DataRegs)
    requires ws != [] && Word8(ws[0]) && Lengths8(ws[1..] + more) && DataReads(s, ws[0], out, s')
    ensures Lengths8(ws + more) && DataRunsTo(s, ws + more, out, s', ws[1..] + more)
  {
    assert Opened(DATA_READ);
    JoinWords(ws, more);
  }

  lemma {:induction false} DataFlush(s: DataRegs, ws: seq<Word>)
    requires s.writeLastOne && Word8(s.prevWord) && Lengths8(ws)
    ensures DataRunsTo(s, ws, [s.prevWord], s.(writeLastOne := false), ws)
  {}

  lemma {:induction false} ReadFollowing(s: DataRegs, w: Word) returns (s': DataRegs)
    requires Word8(w) && Word8(s.prevWord) && 3 <= s.wordCount <= 0xffff && (s.wordCount < 0xffff || w.last)
    requires !s.writeLastOne
    ensures DataReads(s, w, [s.prevWord], s') && s' == DataRegs(if w.last then 0 else s.wordCount + 1, w, w.last)
  {
    s' := DataNext(s, w);
  }

  /** From the fourth word on the words follow, one late. */
  lemma {:induction false} Following(s: DataRegs, ws: seq<Word>, p: seq<Byte>, more: seq<Word>) returns (s': DataRegs)
    requires IsPacket(ws, p) && Lengths8(more) && s.wordCount >= 3 && !s.writeLastOne && Word8(s.prevWord)
    requires 8 * s.wordCount + |p| <= COUNTED
    ensures IdleData(s') && Lengths8(ws + more) && DataRunsTo(s, ws + more, [s.prevWord] + ws, s', more)
    decreases |p|
  {
    FirstWord(ws, p);
    var s1 := ReadFollowing(s, ws[0]);
    if |p| > 8 {
      HeadOf(ws, more);
      s' := Following(s1, ws[1..], p[8..], more);
      DataRead(s, ws, more, [s.prevWord], s1);
      DataThen(s, ws + more, [s.prevWord], s1, ws[1..] + more, ws, s', more);
    } else {
      OneWord(ws, more);
      DataRead(s, ws, more, [s.prevWord], s1);
      DataFlush(s1, more);
      s' := s1.(writeLastOne := false);
      DataThen(s, ws + more, [s.prevWord], s1, more, ws, s', more);
    }
  }

  /** The words of a packet of more than two, as they leave: the halves of the second
      and third exchanged, and the type cleared. */
  function TurnedWords(ws: seq<Word>): (out: seq<Word>)
    requires |ws| >= 3 && Lengths8(ws)
    ensures |out| == |ws| && Lengths8(out) && Word8(out[2])
  {
    var second := Word(ws[1].data[..4] + ws[2].data[..4], Low(8), false);
    var third := ws[2].(data := ws[1].data[4..] + [0] + ws[2].data[5..]);
    [ws[0]] + ([second] + ([third] + ws[3..]))
  }

  /** A packet of up to two words leaves as it came, any other one turned. */
  lemma {:induction false} Turns(s: DataRegs, ws: seq<Word>, p: seq<Byte>, more: seq<Word>) returns (s': DataRegs)
    requires IsPacket(ws, p) && Lengths8(more) && |p| <= LONGEST && IdleData(s)
    ensures IdleData(s') && Lengths8(ws + more) && Lengths8(ws) && (|p| > 16 ==> |ws| >= 3)
    ensures DataRun(s, ws + more) == (if |p| <= 16 then ws else TurnedWords(ws)) + DataRun(s', more)
  {
    WordLengths(ws, p);
    FirstWord(ws, p);
    var s1 := DataNext(s, ws[0]);
    if |p| <= 8 {
      s' := ReadLast(s, ws, more, [], s1);
      assert [] + [ws[0]] == ws;
      DataSo(s, ws + more, ws, s', more);
    } else if |p| <= 16 {
      FirstWord(ws[1..], p[8..]);
      s' := ReadLast(s1, ws[1..], more, [ws[0]], DataNext(s1, ws[1]));
      ReadOne(s, ws, more, [], s1, [ws[0]] + [ws[1]], s');
      assert [] + ([ws[0]] + [ws[1]]) == ws;
      DataSo(s, ws + more, ws, s', more);
    } else {
      s' := TurnsMore(s, ws, p, more);
      DataSo(s, ws + more, TurnedWords(ws), s', more);
    }
  }

  lemma {:induction false} TurnsMore(s: DataRegs, ws: seq<Word>, p: seq<Byte>, more: seq<Word>) returns (s': DataRegs)
    requires IsPacket(ws, p) && Lengths8(more) && 16 < |p| <= LONGEST && IdleData(s) && |ws| >= 3 && Lengths8(ws)
    ensures IdleData(s') && Lengths8(ws + more) && DataRunsTo(s, ws + more, TurnedWords(ws), s', more)
  {
    TwoWords(ws, p);
    var s1 := DataNext(s, ws[0]);
    var s2 := DataNext(s1, ws[1]);
    s' := TurnsThird(s2, ws, p, more);
    var out := TurnedWords(ws);
    assert [ws[0]] + out[1..] == out && [] + out == out;
    ReadOne(s1, ws[1..], more, [ws[0]], s2, out[1..], s');
    ReadOne(s, ws, more, [], s1, out, s');
  }

  lemma {:induction false} TurnsThird(s: DataRegs, ws: seq<Word>, p: seq<Byte>, more: seq<Word>)
    returns (s': DataRegs)
    requires IsPacket(ws, p) && Lengths8(more) && 16 < |p| <= LONGEST && |ws| >= 3 && Lengths8(ws)
    requires s == DataRegs(2, ws[1], false)
    ensures IdleData(s') && DataRunsTo(s, ws[2..] + more, TurnedWords(ws)[1..], s', more)
  {
    TwoWords(ws, p);
    FirstWord(ws[2..], p[16..]);
    var s1, out := DataNext(s, ws[2]), TurnedWords(ws);
    assert ws[2..][0] == ws[2] && ws[2..][1..] == ws[3..];
    TurnedFrom(ws);
    if |p| <= 24 {
      s' := ReadLast(s, ws[2..], more, [out[1]], s1);
    } else {
      assert p[16..][8..] == p[24..];
      s' := Following(s1, ws[3..], p[24..], more);
      ReadOne(s, ws[2..], more, [out[1]], s1, [out[2]] + ws[3..], s');
    }
  }

  lemma {:induction false} TurnedFrom(ws: seq<Word>)
    requires |ws| >= 3 && Lengths8(ws)
    ensures var s, out := DataRegs(2, ws[1], false), TurnedWords(ws);
            && DataOut(s, ws[2]) == [out[1]] && DataNext(s, ws[2]).prevWord == out[2]
            && [out[1]] + ([out[2]] + ws[3..]) == out[1..] && (|ws| == 3 ==> [out[1]] + [out[2]] == out[1..])
  {
    var out := TurnedWords(ws);
    assert out[1..] == [out[1]] + ([out[2]] + ws[3..]);
  }

  lemma {:induction false} ReadOne(s: DataRegs, ws: seq<Word>, more: seq<Word>, out: seq<Word>, s1: DataRegs,
                                   rest: seq<Word>, s': DataRegs)
    requires ws != [] && Word8(ws[0]) && Lengths8(ws[1..] + more) && !s.writeLastOne && Word8(s.prevWord)
    requires s1 == DataNext(s, ws[0]) && out == DataOut(s, ws[0]) && DataRunsTo(s1, ws[1..] + more, rest, s', more)
    ensures Lengths8(ws + more) && DataRunsTo(s, ws + more, out + rest, s', more)
  {
    DataRead(s, ws, more, out, s1);
    DataThen(s, ws + more, out, s1, ws[1..] + more, rest, s', more);
  }

  /** The last word of a packet is kept and then written. */
  lemma {:induction false} ReadLast(s: DataRegs, ws: seq<Word>, more: seq<Word>, out: seq<Word>, s1: DataRegs)
    returns (s': DataRegs)
    requires |ws| == 1 && Word8(ws[0]) && ws[0].last && Lengths8(more) && !s.writeLastOne && Word8(s.prevWord)
    requires s1 == DataNext(s, ws[0]) && out == DataOut(s, ws[0])
    ensures IdleData(s') && Lengths8(ws + more) && DataRunsTo(s, ws + more, out + [s1.prevWord], s', more)
  {
    OneWord(ws, more);
    s' := s1.(writeLastOne := false);
    DataFlush(s1, more);
    ReadOne(s, ws, more, out, s1, [s1.prevWord], s');
  }

  lemma {:induction false} DataSo(s: DataRegs, ws: seq<Word>, out: seq<Word>, s': DataRegs, ws': seq<Word>)
    requires DataRunsTo(s, ws, out, s', ws') && Word8(s.prevWord) && Word8(s'.prevWord) && Lengths8(ws) && Lengths8(ws')
    ensures DataRun(s, ws) == out + DataRun(s', ws')
  {
    assert Opened(DATA);
  }
  // The sum path.

  datatype SumRegs = SumRegs(wordCount: nat, sums: Sums, icmpType: nat, icmpCode: nat, icmpChecksum: Bits17,
                             computeCs: bool, state: nat)

  const SUM_START: SumRegs := SumRegs(0, [0, 0, 0, 0], 0, 0, 0, false, 0)

  predicate IdleSums(s: SumRegs) {
    s.wordCount == 0 && !s.computeCs && s.state == 0
  }

  /** Adding the parts of which bytes are kept; of half a part the high byte. */
  function AddKept(s: Sums, w: Word): Sums
    requires Word8(w)
  {
    AddEach(s, [Part(w, 0), Part(w, 1), Part(w, 2), Part(w, 3)], [w.keep[0], w.keep[2], w.keep[4], w.keep[6]])
  }

  function Part(w: Word, i: nat): (v: nat)
    requires Word8(w) && i < 4
    ensures v <= MAX
  {
    if w.keep[2 * i + 1] then Lane(w.data, i) else Pair(w.data[2 * i], 0)
  }

  function SumNext(s: SumRegs, w: Word): SumRegs
    requires Word8(w)
  {
    var count := Count(s.wordCount, w);
    if s.wordCount == 0 then s.(wordCount := count, sums := [0, 0, 0, 0], computeCs := w.last)
    else if s.wordCount == 1 then s.(wordCount := count, computeCs := w.last)
    else if s.wordCount == 2 then
      SumRegs(count, AddParts(s.sums, w.data, [false, false, true, true]), w.data[4], w.data[5],
              0x1_0000 + Field(w.data[6], w.data[7]), w.last, s.state)
    else s.(wordCount := count, sums := AddKept(s.sums, w), computeCs := w.last)
  }

  /** The four calls after a packet. */
  function ComputeNext(s: SumRegs): SumRegs {
    if s.state == 0 then
      s.(sums := [Fold(s.sums[0] + s.sums[2]), Fold(s.sums[1] + s.sums[3]), s.sums[2], s.sums[3]],
         icmpChecksum := Not17(s.icmpChecksum), state := 1)
    else if s.state == 1 then
      s.(sums := s.sums[0 := Fold(s.sums[0] + s.sums[1])], icmpChecksum := Lower(s.icmpChecksum), state := 2)
    else if s.state == 2 then
      s.(sums := s.sums[0 := Not17(s.sums[0])], icmpChecksum := Not17(s.icmpChecksum), state := 3)
    else s.(computeCs := false, state := 0)
  }

  /** Whether the packet is an echo request without error, and the checksum if so. */
  datatype Verdicts = Verdicts(valids: seq<bool>, checksums: seq<nat>) {
    function Then(v: Verdicts): Verdicts {
      Verdicts(valids + v.valids, checksums + v.checksums)
    }
  }

  function ComputeOut(s: SumRegs): Verdicts {
    if s.state <= 2 then Verdicts([], [])
    else if s.sums[0] % 0x1_0000 == 0 && s.icmpType == ECHO_REQUEST && s.icmpCode == 0 then
      Verdicts([true], [s.icmpChecksum % 0x1_0000])
    else Verdicts([false], [])
  }

  function SumRun(s: SumRegs, ws: seq<Word>): Verdicts
    requires Lengths8(ws)
    decreases |ws|, if s.computeCs && s.state <= 3 then 4 - s.state else 0
  {
    if s.computeCs && s.state <= 3 then ComputeOut(s).Then(SumRun(ComputeNext(s), ws))
    else if ws == [] then Verdicts([], [])
    else SumRun(SumNext(s, ws[0]), ws[1..])
  }

  ghost predicate SumRunsTo(s: SumRegs, ws: seq<Word>, out: Verdicts, s': SumRegs, ws': seq<Word>) {
    forall k {:trigger Opened(k)} :: Opened(k) && k == SUM ==>
      Lengths8(ws) && Lengths8(ws') && SumRun(s, ws) == out.Then(SumRun(s', ws'))
  }

  const SUM: nat := 14
  const NOTHING: Verdicts := Verdicts([], [])

  lemma {:induction false} SumThen(s: SumRegs, ws: seq<Word>, s1: SumRegs, ws1: seq<Word>, out1: Verdicts, s2: SumRegs,
                                   ws2: seq<Word>)
    requires SumRunsTo(s, ws, NOTHING, s1, ws1) && SumRunsTo(s1, ws1, out1, s2, ws2)
    ensures SumRunsTo(s, ws, out1, s2, ws2)
  {
    assert Opened(SUM);
  }

  /** Reading w takes s to s'. */
  ghost predicate SumReads(s: SumRegs, w: Word, s': SumRegs) {
    forall k {:trigger Opened(k)} :: Opened(k) && k == SUM_READ ==> !s.computeCs && Word8(w) && s' == SumNext(s, w)
  }

  const SUM_READ: nat := 15

  lemma {:induction false} SumRead(s: SumRegs, ws: seq<Word>, more: seq<Word>, s': SumRegs)
    requires ws != [] && Word8(ws[0]) && Lengths8(ws[1..] + more) && SumReads(s, ws[0], s')
    ensures Lengths8(ws + more) && SumRunsTo(s, ws + more, NOTHING, s', ws[1..] + more)
  {
    assert Opened(SUM_READ);
    JoinWords(ws, more);
  }

  /** What the message held in the registers amounts to. */
  function Verdict(t: nat, icmpType: nat, icmpCode: nat, field: nat): Verdicts {
    if Canon(t) == MAX && icmpType == ECHO_REQUEST && icmpCode == 0 then Verdicts([true], [Updated(field)])
    else Verdicts([false], [])
  }

  lemma {:induction false} Computing(s: SumRegs, ws: seq<Word>, t: nat, field: nat) returns (s': SumRegs)
    requires s.computeCs && s.state == 0 && Stand(s.sums, t) && s.icmpChecksum == 0x1_0000 + field && field <= MAX
    requires Lengths8(ws)
    ensures SumRunsTo(s, ws, Verdict(t, s.icmpType, s.icmpCode, field), s', ws)
    ensures s'.wordCount == s.wordCount && !s'.computeCs && s'.state == 0
  {
    var s1 := ComputeNext(s);
    var s2 := ComputeNext(s1);
    var s3 := ComputeNext(s2);
    s' := ComputeNext(s3);
    Results(s, s1, s2, s3, t, field);
    assert SumRun(s, ws) == SumRun(s1, ws) == SumRun(s2, ws) == SumRun(s3, ws);
    assert SumRun(s3, ws) == ComputeOut(s3).Then(SumRun(s', ws));
  }

  lemma {:induction false} Results(s: SumRegs, s1: SumRegs, s2: SumRegs, s3: SumRegs, t: nat, field: nat)
    requires s.computeCs && s.state == 0 && Stand(s.sums, t) && s.icmpChecksum == 0x1_0000 + field && field <= MAX
    requires s1 == ComputeNext(s) && s2 == ComputeNext(s1) && s3 == ComputeNext(s2)
    ensures ComputeOut(s3) == Verdict(t, s.icmpType, s.icmpCode, field)
  {
    CombineStands(s.sums, t);
    LanesAdded(s, s1, s2);
    ZeroIffMax(Canon(t));
  }

  lemma {:induction false} LanesAdded(s: SumRegs, s1: SumRegs, s2: SumRegs)
    requires s.state == 0 && s1 == ComputeNext(s) && s2 == ComputeNext(s1)
    ensures s2.sums[0] == Combine(s.sums)
  {}

  lemma {:induction false} ZeroIffMax(x: nat)
    requires x <= MAX
    ensures Not17(x) % 0x1_0000 == 0 <==> x == MAX
  {}

  lemma {:induction false} KeptStands(s: Sums, w: Word, n: nat, t: nat)
    requires Stand(s, t) && 1 <= n <= 8 && |w.data| == 8 && w.keep == Low(n)
    ensures Stand(AddKept(s, w), t + Total(w.data[..n]))
  {
    var v, use := [Part(w, 0), Part(w, 1), Part(w, 2), Part(w, 3)], [w.keep[0], w.keep[2], w.keep[4], w.keep[6]];
    EachStands(s, v, use, t);
    KeptTotal(w, n);
  }

  function KeptPart(w: Word, i: nat): nat
    requires Word8(w) && i < 4
  {
    if w.keep[2 * i] then Part(w, i) else 0
  }

  lemma {:induction false} KeptTotal(w: Word, n: nat)
    requires 1 <= n <= 8 && |w.data| == 8 && w.keep == Low(n)
    ensures Total(w.data[..n]) == KeptPart(w, 0) + KeptPart(w, 1) + KeptPart(w, 2) + KeptPart(w, 3)
  {
    TotalFrom(w.data, 0, n);
    TotalFrom(w.data, 2, n);
    TotalFrom(w.data, 4, n);
    TotalFrom(w.data, 6, n);
    assert w.data[..n] == w.data[0..n];
  }

  /** The registers that hold the head of the message. */
  predicate HasHead(s: SumRegs, icmpType: nat, icmpCode: nat, field: nat) {
    && s.icmpType == icmpType && s.icmpCode == icmpCode && s.icmpChecksum == 0x1_0000 + field
    && s.state == 0 && field <= MAX
  }

  lemma {:induction false} ReadPart(s: SumRegs, w: Word, n: nat, t: nat, t': nat) returns (s': SumRegs)
    requires Word8(w) && 3 <= s.wordCount <= 0xffff && (s.wordCount < 0xffff || w.last)
    requires !s.computeCs && Stand(s.sums, t)
    requires 1 <= n <= 8 && w.keep == Low(n) && t' == t + Total(w.data[..n])
    ensures SumReads(s, w, s') && Stand(s'.sums, t')
    ensures s' == s.(wordCount := if w.last then 0 else s.wordCount + 1, sums := s'.sums, computeCs := w.last)
  {
    s' := SumNext(s, w);
    KeptStands(s.sums, w, n, t);
  }

  /** The rest of the message is summed up, then it is judged. */
  lemma {:induction false} SumFollowing(s: SumRegs, ws: seq<Word>, p: seq<Byte>, more: seq<Word>, t: nat, total: nat,
                                        icmpType: nat, icmpCode: nat, field: nat)
    returns (s': SumRegs)
    requires IsPacket(ws, p) && Lengths8(more) && s.wordCount >= 3 && 8 * s.wordCount + |p| <= COUNTED && !s.computeCs
    requires Stand(s.sums, t) && total == t + Total(p) && HasHead(s, icmpType, icmpCode, field)
    ensures IdleSums(s') && Lengths8(ws + more)
    ensures SumRunsTo(s, ws + more, Verdict(total, icmpType, icmpCode, field), s', more)
    decreases |p|
  {
    FirstWord(ws, p);
    var w, n := ws[0], Head(p);
    if |p| > 8 {
      assert w.data[..8] == p[..8];
      var t1 := t + Total(p[..8]);
      var s1 := ReadPart(s, w, 8, t, t1);
      SplitAt8(p);
      s' := SumFollowing(s1, ws[1..], p[8..], more, t1, total, icmpType, icmpCode, field);
      SumRead(s, ws, more, s1);
      SumThen(s, ws + more, s1, ws[1..] + more, Verdict(total, icmpType, icmpCode, field), s', more);
    } else {
      assert w.data[..n] == p && ws[1..] + more == more;
      var s1 := ReadPart(s, w, n, t, total);
      s' := Computing(s1, more, total, field);
      SumRead(s, ws, more, s1);
      SumThen(s, ws + more, s1, more, Verdict(total, icmpType, icmpCode, field), s', more);
    }
  }

  lemma {:induction false} SplitAt8(p: seq<Byte>)
    requires |p| >= 8
    ensures Total(p) == Total(p[..8]) + Total(p[8..])
  {
    TotalSplit(p[..8], p[8..]);
    assert p == p[..8] + p[8..];
  }

  // The message.

  /** What the stage takes for the packet: a packet that ends in its third word is read
      to the end of that word, stale lanes and all. */
  function Seen(ws: seq<Word>, p: seq<Byte>): (q: seq<Byte>)
    requires |ws| >= 3 && Lengths8(ws) && |p| > 16
    ensures |q| >= 24 && (|p| >= 24 ==> |q| == |p|) && (|p| <= 24 ==> |q| == 24)
  {
    if |p| <= 24 then p[..16] + ws[2].data else p
  }

  lemma {:induction false} SeenIsPacket(ws: seq<Word>, p: seq<Byte>)
    requires IsPacket(ws, p) && |p| > 16
    ensures |ws| >= 3 && Lengths8(ws) && Seen(ws, p)[..|p|] == p && (|p| >= 24 ==> Seen(ws, p) == p)
    ensures Seen(ws, p)[..8] == ws[0].data && Seen(ws, p)[8..16] == ws[1].data && Seen(ws, p)[16..24] == ws[2].data
    ensures |p| <= 24 ==> |ws| == 3
    ensures |p| > 24 ==> IsPacket(ws[3..], p[24..])
  {
    WordLengths(ws, p);
    TwoWords(ws, p);
    FirstWord(ws[2..], p[16..]);
    assert ws[2..][0] == ws[2] && ws[2..][1..] == ws[3..];
    if |p| <= 24 {
      assert p == p[..16] + p[16..];
      assert ws[2].data[..|p| - 16] == p[16..];
    } else {
      assert p[16..][8..] == p[24..] && ws[2].data == ws[2].data[..8] == p[16..][..8];
    }
  }

  /** The packet with source and destination exchanged and the type cleared. */
  function Turned(p: seq<Byte>): (q: seq<Byte>)
    requires |p| >= 24
    ensures |q| == |p|
  {
    p[..12] + p[16..20] + p[12..16] + [0] + p[21..]
  }

  lemma {:induction false} TurnedIsPacket(ws: seq<Word>, p: seq<Byte>)
    requires IsPacket(ws, p) && |p| > 16
    ensures |ws| >= 3 && Lengths8(ws) && IsPacket(TurnedWords(ws), Turned(Seen(ws, p))[..|p|])
    ensures TurnedWords(ws)[2].data == Turned(Seen(ws, p))[16..24]
    ensures TurnedWords(ws)[2].keep == ws[2].keep && TurnedWords(ws)[2].last == ws[2].last
  {
    SeenIsPacket(ws, p);
    FirstWord(ws, p);
    TurnedStart(Seen(ws, p));
    TurnedParts(ws);
    Rebuilds(ws, p, Turned(Seen(ws, p)), TurnedWords(ws));
  }

  lemma {:induction false} TurnedParts(ws: seq<Word>)
    requires |ws| >= 3 && Lengths8(ws)
    ensures var out := TurnedWords(ws);
            && out[0] == ws[0] && out[1] == Word(ws[1].data[..4] + ws[2].data[..4], Low(8), false)
            && out[2] == ws[2].(data := ws[1].data[4..] + [0] + ws[2].data[5..]) && out[3..] == ws[3..]
  {}

  lemma {:induction false} TurnedStart(q: seq<Byte>)
    requires |q| >= 24
    ensures var r := Turned(q);
            && r[..8] == q[..8] && r[8..16] == q[8..16][..4] + q[16..24][..4]
            && r[16..24] == q[8..16][4..] + [0] + q[16..24][5..] && r[24..] == q[24..]
  {
    var a, b, c, d := q[..12], q[16..20], q[12..16], [0] + q[21..];
    assert Turned(q) == a + b + c + d;
    assert a == q[..8] + q[8..12] && d == [0] + (q[21..24] + q[24..]);
    var r := q[..8] + ((q[8..12] + q[16..20]) + ((q[12..16] + [0] + q[21..24]) + q[24..]));
    assert Turned(q) == r;
    assert q[8..16][..4] == q[8..12] && q[8..16][4..] == q[12..16];
    assert q[16..24][..4] == q[16..20] && q[16..24][5..] == q[21..24];
  }

  /** Words that take the place of the first three of a packet. */
  lemma {:induction false} Rebuilds(ws: seq<Word>, p: seq<Byte>, q: seq<Byte>, out: seq<Word>)
    requires IsPacket(ws, p) && |p| > 16 && |ws| == |out| >= 3 && |q| == (if |p| <= 24 then 24 else |p|)
    requires out[0] == Word(q[..8], Low(8), false) && out[1] == Word(q[8..16], Low(8), false)
    requires out[2].data == q[16..24] && out[2].keep == ws[2].keep && out[2].last == ws[2].last
    requires out[3..] == ws[3..] && (|p| > 24 ==> q[24..] == p[24..])
    ensures IsPacket(out, q[..|p|])
  {
    RebuildsThird(ws, p, q, out[2]);
    FromThree(out);
    TwoBefore(out[0], out[1], [out[2]] + out[3..], q, |p|);
  }

  lemma {:induction false} FromThree(ws: seq<Word>)
    requires |ws| >= 3
    ensures ws == [ws[0]] + ([ws[1]] + ([ws[2]] + ws[3..]))
  {}

  lemma {:induction false} TwoBefore(a: Word, b: Word, ws: seq<Word>, q: seq<Byte>, n: nat)
    requires 16 < n <= |q| && IsPacket(ws, q[16..n])
    requires a == Word(q[..8], Low(8), false) && b == Word(q[8..16], Low(8), false)
    ensures IsPacket([a] + ([b] + ws), q[..n])
  {
    PrependWord(b, ws, q[8..16], q[16..n]);
    PrependWord(a, [b] + ws, q[..8], q[8..16] + q[16..n]);
    assert q[..n] == q[..8] + (q[8..16] + q[16..n]);
  }

  lemma {:induction false} RebuildsThird(ws: seq<Word>, p: seq<Byte>, q: seq<Byte>, w: Word)
    requires IsPacket(ws, p) && |p| > 16 && |ws| >= 3 && |q| == (if |p| <= 24 then 24 else |p|)
    requires w.data == q[16..24] && w.keep == ws[2].keep && w.last == ws[2].last
    requires |p| > 24 ==> q[24..] == p[24..]
    ensures IsPacket([w] + ws[3..], q[16..|p|])
  {
    TwoWords(ws, p);
    FirstWord(ws[2..], p[16..]);
    assert ws[2..][0] == ws[2] && ws[2..][1..] == ws[3..];
    if |p| <= 24 {
      assert w.data[..|p| - 16] == q[16..|p|];
      LastOfPacket(w, q[16..|p|]);
      assert [w] + ws[3..] == [w];
    } else {
      assert p[16..][8..] == p[24..];
      PrependWord(w, ws[3..], q[16..24], q[24..]);
      assert q[16..24] + q[24..] == q[16..|p|];
    }
  }

  /** The verdict on a packet: one of up to two words holds no message and is not
      valid. */
  function VerdictOn(ws: seq<Word>, p: seq<Byte>): Verdicts
    requires |p| > 16 ==> |ws| >= 3 && Lengths8(ws)
  {
    if |p| <= 16 then Verdicts([false], [])
    else
      var q := Seen(ws, p);
      Verdict(Total(q[20..]), q[20], q[21], Field(q[22], q[23]))
  }

  /** For each packet the checksum over the whole message, of even or odd length, is
      checked, and one verdict is given. */
  lemma {:induction false} Judges(s: SumRegs, ws: seq<Word>, p: seq<Byte>, more: seq<Word>) returns (s': SumRegs)
    requires IsPacket(ws, p) && Lengths8(more) && |p| <= LONGEST && IdleSums(s)
    ensures IdleSums(s') && Lengths8(ws + more) && Lengths8(ws) && (|p| > 16 ==> |ws| >= 3)
    ensures SumRun(s, ws + more) == VerdictOn(ws, p).Then(SumRun(s', more))
  {
    WordLengths(ws, p);
    var v := VerdictOn(ws, p);
    if |p| <= 16 {
      s' := JudgesShort(s, ws, p, more);
    } else {
      TwoWords(ws, p);
      var s1, s2 := AfterTwo(s, ws[0], ws[1]);
      s' := JudgesThird(s2, ws, p, more);
      AddWord(s1, ws[1..], more, s2, v, s');
      AddWord(s, ws, more, s1, v, s');
    }
    SumSo(s, ws + more, v, s', more);
  }

  lemma {:induction false} AfterTwo(s: SumRegs, w0: Word, w1: Word) returns (s1: SumRegs, s2: SumRegs)
    requires IdleSums(s) && Word8(w0) && Word8(w1) && !w0.last && !w1.last
    ensures s1 == SumNext(s, w0) && !s1.computeCs && s2 == SumNext(s1, w1)
    ensures s2.wordCount == 2 && !s2.computeCs && s2.state == 0 && s2.sums == [0, 0, 0, 0]
  {
    s1 := SumNext(s, w0);
    s2 := SumNext(s1, w1);
  }

  lemma {:induction false} JudgesShort(s: SumRegs, ws: seq<Word>, p: seq<Byte>, more: seq<Word>) returns (s': SumRegs)
    requires IsPacket(ws, p) && Lengths8(more) && |p| <= 16 && IdleSums(s)
    ensures IdleSums(s') && Lengths8(ws + more) && SumRunsTo(s, ws + more, Verdicts([false], []), s', more)
  {
    FirstWord(ws, p);
    var v, s1 := Verdicts([false], []), SumNext(s, ws[0]);
    if |p| <= 8 {
      OneWord(ws, more);
      s' := Rejecting(s1, more);
    } else {
      FirstWord(ws[1..], p[8..]);
      OneWord(ws[1..], more);
      var s2 := SumNext(s1, ws[1]);
      s' := Rejecting(s2, more);
      AddWord(s1, ws[1..], more, s2, v, s');
    }
    AddWord(s, ws, more, s1, v, s');
  }

  lemma {:induction false} SumSo(s: SumRegs, ws: seq<Word>, out: Verdicts, s': SumRegs, ws': seq<Word>)
    requires SumRunsTo(s, ws, out, s', ws') && Lengths8(ws) && Lengths8(ws')
    ensures SumRun(s, ws) == out.Then(SumRun(s', ws'))
  {
    assert Opened(SUM);
  }

  lemma {:induction false} AddWord(s: SumRegs, ws: seq<Word>, more: seq<Word>, s1: SumRegs, out: Verdicts, s': SumRegs)
    requires ws != [] && Word8(ws[0]) && Lengths8(ws[1..] + more) && !s.computeCs
    requires s1 == SumNext(s, ws[0]) && SumRunsTo(s1, ws[1..] + more, out, s', more)
    ensures Lengths8(ws + more) && SumRunsTo(s, ws + more, out, s', more)
  {
    SumRead(s, ws, more, s1);
    SumThen(s, ws + more, s1, ws[1..] + more, out, s', more);
  }

  lemma {:induction false} JudgesThird(s: SumRegs, ws: seq<Word>, p: seq<Byte>, more: seq<Word>) returns (s': SumRegs)
    requires IsPacket(ws, p) && Lengths8(more) && 16 < |p| <= LONGEST && |ws| >= 3 && Lengths8(ws)
    requires s.wordCount == 2 && !s.computeCs && s.state == 0 && s.sums == [0, 0, 0, 0]
    ensures IdleSums(s') && Lengths8(ws[2..] + more) && SumRunsTo(s, ws[2..] + more, VerdictOn(ws, p), s', more)
  {
    SeenIsPacket(ws, p);
    TwoWords(ws, p);
    FirstWord(ws[2..], p[16..]);
    var q := Seen(ws, p);
    var m, rest := q[20..24], ws[3..];
    assert ws[2..][1..] == rest && ws[2..][0] == ws[2] && m == q[16..24][4..];
    var s1 := AddHead(s, ws[2], m);
    if |p| <= 24 {
      assert q[20..] == m;
      OneWord(ws[2..], more);
      s' := Computing(s1, more, Total(m), Field(m[2], m[3]));
    } else {
      MessageParts(q);
      s' := SumFollowing(s1, rest, q[24..], more, Total(m), Total(q[20..]), m[0], m[1], Field(m[2], m[3]));
    }
    AddWord(s, ws[2..], more, s1, VerdictOn(ws, p), s');
  }

  lemma {:induction false} MessageParts(q: seq<Byte>)
    requires |q| > 24
    ensures Total(q[20..]) == Total(q[20..24]) + Total(q[24..])
  {
    TotalSplit(q[20..24], q[24..]);
    assert q[20..] == q[20..24] + q[24..];
  }

  lemma {:induction false} AddHead(s: SumRegs, w: Word, m: seq<Byte>) returns (s': SumRegs)
    requires Word8(w) && s.wordCount == 2 && s.state == 0 && s.sums == [0, 0, 0, 0] && |m| == 4 && w.data[4..] == m
    ensures s' == SumNext(s, w) && s'.wordCount == (if w.last then 0 else 3) && s'.computeCs == w.last
    ensures HasHead(s', m[0], m[1], Field(m[2], m[3])) && Stand(s'.sums, Total(m))
  {
    s' := SumNext(s, w);
    ZeroStands();
    AddStands([0, 0, 0, 0], w.data, [false, false, true, true], 0);
    FourBytes(m);
    assert m[0] == w.data[4] && m[1] == w.data[5] && m[2] == w.data[6] && m[3] == w.data[7];
  }

  /** Without a message nothing sums up to all ones, whatever head is left from the
      packet before. */
  lemma {:induction false} Rejecting(s: SumRegs, ws: seq<Word>) returns (s': SumRegs)
    requires s.computeCs && s.state == 0 && s.sums == [0, 0, 0, 0] && s.wordCount == 0 && Lengths8(ws)
    ensures IdleSums(s') && SumRunsTo(s, ws, Verdicts([false], []), s', ws)
  {
    var s1 := ComputeNext(s);
    var s2 := ComputeNext(s1);
    var s3 := ComputeNext(s2);
    s' := ComputeNext(s3);
    assert s3.sums[0] == 0x1_ffff;
    assert SumRun(s, ws) == SumRun(s1, ws) == SumRun(s2, ws) == SumRun(s3, ws);
    assert SumRun(s3, ws) == ComputeOut(s3).Then(SumRun(s', ws));
  }

  class CheckIcmpChecksum {
    const cics_sums: array<nat>
    var cics_wordCount: nat
    var cics_prevWord: Word
    var cics_writeLastOne: bool
    var cics_computeCs: bool
    var cics_state: nat
    var icmpChecksum: Bits17
    var icmpType: nat
    var icmpCode: nat

    ghost predicate Valid()
      reads this
    {
      cics_sums.Length == 4 && Word8(cics_prevWord) && cics_state <= 3 && (cics_writeLastOne ==> cics_computeCs)
    }

    ghost function Data(): DataRegs
      reads this
    {
      DataRegs(cics_wordCount, cics_prevWord, cics_writeLastOne)
    }

    ghost function Message(): SumRegs
      requires Valid()
      reads this, cics_sums
    {
      SumRegs(cics_wordCount, cics_sums[..], icmpType, icmpCode, icmpChecksum, cics_computeCs, cics_state)
    }

    constructor ()
      ensures Valid() && fresh(cics_sums) && Data() == DATA_START && Message() == SUM_START
    {
      cics_sums := new nat[4](_ => 0);
      cics_wordCount, cics_writeLastOne, cics_computeCs, cics_state := 0, false, false, 0;
      cics_prevWord := Word([0, 0, 0, 0, 0, 0, 0, 0], Low(0), false);
      icmpChecksum, icmpType, icmpCode := 0, 0, 0;
    }

    /** One call: what is output on both paths, together with what is still to be
        output, is what was to be output before. */
    method Step(dataIn: seq<Word>, ghost more: seq<Word>) returns (read: nat, dataOut: seq<Word>, verdicts: Verdicts)
      requires Valid() && Lengths8(dataIn) && Lengths8(more)
      modifies this, cics_sums
      ensures Valid() && read <= |dataIn|
      ensures DataRun(old(Data()), dataIn + more) == dataOut + DataRun(Data(), dataIn[read..] + more)
      ensures SumRun(old(Message()), dataIn + more) == verdicts.Then(SumRun(Message(), dataIn[read..] + more))
      ensures read == if dataIn != [] && !old(cics_writeLastOne) && !old(cics_computeCs) then 1 else 0
      ensures old(cics_writeLastOne) ==>
                !cics_writeLastOne && cics_computeCs == old(cics_computeCs) && cics_state == old(cics_state)
      ensures !old(cics_writeLastOne) && old(cics_computeCs) ==>
                !cics_writeLastOne
                && if old(cics_state) == 3 then !cics_computeCs else cics_computeCs && cics_state == old(cics_state) + 1
    {
      WithMore(dataIn, more);
      read, dataOut, verdicts := 0, [], NOTHING;
      if cics_writeLastOne {
        dataOut := [cics_prevWord];
        cics_writeLastOne := false;
      } else if cics_computeCs {
        verdicts := Compute();
      } else if dataIn != [] {
        read := 1;
        dataOut := Read(dataIn[0]);
      }
    }

    method Compute() returns (verdicts: Verdicts)
      requires Valid() && cics_computeCs && !cics_writeLastOne
      modifies `cics_computeCs, `cics_state, `icmpChecksum, cics_sums
      ensures Valid() && Message() == ComputeNext(old(Message())) && verdicts == ComputeOut(old(Message()))
      ensures cics_state == (old(cics_state) + 1) % 4
    {
      verdicts := NOTHING;
      ghost var before := Message();
      match cics_state {
      case 0 =>
        cics_sums[0] := Fold(cics_sums[0] + cics_sums[2]);
        cics_sums[1] := Fold(cics_sums[1] + cics_sums[3]);
        icmpChecksum := Not17(icmpChecksum);
      case 1 =>
        cics_sums[0] := Fold(cics_sums[0] + cics_sums[1]);
        icmpChecksum := Lower(icmpChecksum);
      case 2 =>
        cics_sums[0] := Not17(cics_sums[0]);
        icmpChecksum := Not17(icmpChecksum);
      case _ =>
        if cics_sums[0] % 0x1_0000 == 0 && icmpType == ECHO_REQUEST && icmpCode == 0 {
          verdicts := Verdicts([true], [icmpChecksum % 0x1_0000]);
        } else {
          verdicts := Verdicts([false], []);
        }
        cics_computeCs := false;
      }
      cics_state := if cics_state == 3 then 0 else cics_state + 1;
      assert cics_sums[..] == ComputeNext(before).sums;
    }

    method Read(w: Word) returns (dataOut: seq<Word>)
      requires Valid() && Word8(w) && !cics_computeCs && !cics_writeLastOne
      modifies this, cics_sums
      ensures Valid() && Data() == DataNext(old(Data()), w) && Message() == SumNext(old(Message()), w)
      ensures dataOut == DataOut(old(Data()), w)
    {
      var currWord := w;
      dataOut := [];
      match cics_wordCount {
      case 0 =>
        cics_sums[0], cics_sums[1], cics_sums[2], cics_sums[3] := 0, 0, 0, 0;
        assert cics_sums[..] == [0, 0, 0, 0];
      case 1 =>
        dataOut := [cics_prevWord];
      case 2 =>
        dataOut := [Word(cics_prevWord.data[..4] + currWord.data[..4], Low(8), false)];
        icmpType, icmpCode := currWord.data[4], currWord.data[5];
        icmpChecksum := 0x1_0000 + Field(currWord.data[6], currWord.data[7]);
        SumUp(cics_sums, currWord.data, [false, false, true, true]);
        currWord := currWord.(data := cics_prevWord.data[4..] + [0] + currWord.data[5..]);
      case _ =>
        SumKept(currWord);
        dataOut := [cics_prevWord];
      }
      cics_prevWord := currWord;
      cics_wordCount := (cics_wordCount + 1) % 0x1_0000;
      if currWord.last {
        cics_wordCount, cics_writeLastOne, cics_computeCs := 0, true, true;
      }
    }

    method SumKept(w: Word)
      requires Valid() && Word8(w)
      modifies cics_sums
      ensures cics_sums[..] == AddKept(old(cics_sums[..]), w)
    {
      ghost var s, v := cics_sums[..], [Part(w, 0), Part(w, 1), Part(w, 2), Part(w, 3)];
      ghost var use := [w.keep[0], w.keep[2], w.keep[4], w.keep[6]];
      for i := 0 to 4
        invariant forall j :: 0 <= j < i ==> cics_sums[j] == AddEach(s, v, use)[j]
        invariant forall j :: i <= j < 4 ==> cics_sums[j] == s[j]
      {
        EachAt(s, v, use, i);
        assert v[i] == Part(w, i) && use[i] == w.keep[2 * i];
        if w.keep[2 * i] && w.keep[2 * i + 1] {
          cics_sums[i] := Fold(cics_sums[i] + Lane(w.data, i));
        } else if w.keep[2 * i] {
          cics_sums[i] := Fold(cics_sums[i] + Pair(w.data[2 * i], 0));
        }
      }
    }
  }
}

/** dropper and insertChecksum, and the whole echo path. */
module IcmpEcho {
  import opened Arith
  import opened RxStream
  import opened PacketWords
  import opened OnesComplement
  import opened IcmpUpdate
  import opened IcmpCheck

  // dropper

  datatype Regs = Regs(isFirstWord: bool, drop: bool)

  const FIRST: Regs := Regs(true, false)

  function Next(s: Regs, w: Word, valid: bool): Regs {
    if w.last then FIRST else if s.isFirstWord then Regs(false, !valid) else s
  }

  function DropRun(s: Regs, ws: seq<Word>, valids: seq<bool>): (out: seq<Word>)
    ensures Lengths8(ws) ==> Lengths8(out)
    decreases |ws|
  {
    if ws == [] then []
    else if s.isFirstWord then
      if valids == [] then []
      else (if valids[0] then [ws[0]] else []) + DropRun(Next(s, ws[0], valids[0]), ws[1..], valids[1..])
    else (if s.drop then [] else [ws[0]]) + DropRun(Next(s, ws[0], true), ws[1..], valids)
  }

  lemma {:induction false} DropFollow(ws: seq<Word>, p: seq<Byte>, more: seq<Word>, valid: bool, valids: seq<bool>)
    requires IsPacket(ws, p)
    ensures DropRun(Regs(false, !valid), ws + more, valids) == (if valid then ws else []) + DropRun(FIRST, more, valids)
    decreases |p|
  {
    FirstWord(ws, p);
    HeadOf(ws, more);
    HeadOf(ws, DropRun(FIRST, more, valids));
    if |p| > 8 {
      DropFollow(ws[1..], p[8..], more, valid, valids);
    } else {
      OneWord(ws, more);
    }
  }

  lemma {:induction false} DropsUnlessValid(ws: seq<Word>, p: seq<Byte>, more: seq<Word>, valid: bool,
                                            valids: seq<bool>)
    requires IsPacket(ws, p)
    ensures DropRun(FIRST, ws + more, [valid] + valids) == (if valid then ws else []) + DropRun(FIRST, more, valids)
  {
    FirstWord(ws, p);
    HeadOf(ws, more);
    HeadOf(ws, DropRun(FIRST, more, valids));
    assert ([valid] + valids)[1..] == valids;
    if |p| > 8 {
      DropFollow(ws[1..], p[8..], more, valid, valids);
    } else {
      OneWord(ws, more);
    }
  }

  class Dropper {
    var d_isFirstWord: bool
    var d_drop: bool

    ghost function Registers(): Regs
      reads this
    {
      Regs(d_isFirstWord, d_drop)
    }

    constructor ()
      ensures Registers() == FIRST
    {
      d_isFirstWord, d_drop := true, false;
    }

    method Step(dataIn: seq<Word>, validFifoIn: seq<bool>, ghost more: seq<Word>, ghost moreValids: seq<bool>)
      returns (read: nat, flags: nat, dataOut: seq<Word>)
      requires d_drop ==> !d_isFirstWord
      modifies this
      ensures (d_drop ==> !d_isFirstWord) && read <= |dataIn| && flags <= |validFifoIn|
      ensures DropRun(old(Registers()), dataIn + more, validFifoIn + moreValids)
              == dataOut + DropRun(Registers(), dataIn[read..] + more, validFifoIn[flags..] + moreValids)
      ensures dataIn != [] && (old(d_isFirstWord) ==> validFifoIn != []) ==> read == 1
    {
      WithMore(dataIn, more);
      WithMore(validFifoIn, moreValids);
      read, flags, dataOut := 0, 0, [];
      if dataIn != [] {
        var last := false;
        if d_isFirstWord {
          if validFifoIn != [] {
            read, flags, last := 1, 1, dataIn[0].last;
            if validFifoIn[0] {
              dataOut := [dataIn[0]];
            } else {
              d_drop := true;
            }
            d_isFirstWord := false;
          }
        } else if d_drop {
          read, last := 1, dataIn[0].last;
        } else {
          read, last, dataOut := 1, dataIn[0].last, [dataIn[0]];
        }
        if last {
          d_drop, d_isFirstWord := false, true;
        }
      }
    }
  }

  // insertChecksum

  /** A word with the checksum in its last two bytes, low byte first. */
  function Insert(w: Word, c: nat): Word
    requires Word8(w) && c <= MAX
  {
    w.(data := w.data[6 := c % 256][7 := c / 256])
  }

  function InsertNext(count: nat, w: Word): nat {
    if count == 0 || count == 2 then count + 1 else if w.last then 0 else (count + 1) % 0x1_0000
  }

  /** The words output from the chosen source. */
  function Inserted(count: nat, ws: seq<Word>, cs: seq<nat>): (out: seq<Word>)
    requires Lengths8(ws) && forall i :: 0 <= i < |cs| ==> cs[i] <= MAX
    decreases |ws|
  {
    if ws == [] || (count == 2 && cs == []) then []
    else if count == 2 then [Insert(ws[0], cs[0])] + Inserted(InsertNext(2, ws[0]), ws[1..], cs[1..])
    else [ws[0]] + Inserted(InsertNext(count, ws[0]), ws[1..], cs)
  }

  class InsertChecksum {
    var ic_wordCount: nat
    var streamSource: nat

    constructor ()
      ensures ic_wordCount == 0 && streamSource == 0
    {
      ic_wordCount, streamSource := 0, 0;
    }

    /** One call. Between packets the first source with a word waiting is chosen; a
        packet begun is finished from its own source. */
    method Step(inputStreams: seq<seq<Word>>, checksumStreams: seq<seq<nat>>, ghost more: seq<Word>,
                ghost moreCs: seq<nat>)
      returns (source: nat, read: nat, readCs: nat, outputStream: seq<Word>)
      requires |inputStreams| == |checksumStreams| == 2 && streamSource < 2
      requires Lengths8(inputStreams[0]) && Lengths8(inputStreams[1])
      requires forall s, i :: 0 <= s < 2 && 0 <= i < |checksumStreams[s]| ==> checksumStreams[s][i] <= MAX
      requires Lengths8(more) && forall i :: 0 <= i < |moreCs| ==> moreCs[i] <= MAX
      modifies this
      ensures streamSource < 2 && source == streamSource
      ensures old(ic_wordCount) > 0 ==> source == old(streamSource)
      ensures old(ic_wordCount) == 0 && (inputStreams[0] != [] || inputStreams[1] != []) ==>
                source == if inputStreams[0] != [] then 0 else 1
      ensures read <= |inputStreams[source]| && readCs <= |checksumStreams[source]|
      ensures inputStreams[source] != [] && (old(ic_wordCount) == 2 ==> checksumStreams[source] != []) ==> read == 1
      ensures Inserted(old(ic_wordCount), inputStreams[source] + more, checksumStreams[source] + moreCs)
              == outputStream + Inserted(ic_wordCount, inputStreams[source][read..] + more,
                                         checksumStreams[source][readCs..] + moreCs)
    {
      read, readCs, outputStream := 0, 0, [];
      if ic_wordCount == 0 {
        if inputStreams[0] != [] {
          streamSource := 0;
        } else if inputStreams[1] != [] {
          streamSource := 1;
        }
      }
      source := streamSource;
      var ws, cs := inputStreams[source], checksumStreams[source];
      WithMore(ws, more);
      WithMore(cs, moreCs);
      match ic_wordCount {
      case 0 =>
        if ws != [] {
          read, outputStream, ic_wordCount := 1, [ws[0]], 1;
        }
      case 2 =>
        if ws != [] && cs != [] {
          read, readCs, outputStream, ic_wordCount := 1, 1, [Insert(ws[0], cs[0])], 3;
        }
      case _ =>
        if ws != [] {
          read, outputStream := 1, [ws[0]];
          ic_wordCount := if ws[0].last then 0 else (ic_wordCount + 1) % 0x1_0000;
        }
      }
    }
  }

  lemma {:induction false} InsertFollow(count: nat, ws: seq<Word>, p: seq<Byte>, more: seq<Word>, cs: seq<nat>)
    requires IsPacket(ws, p) && Lengths8(more) && (forall i :: 0 <= i < |cs| ==> cs[i] <= MAX)
    requires count >= 3 && 8 * count + |p| <= COUNTED
    ensures Lengths8(ws + more) && Inserted(count, ws + more, cs) == ws + Inserted(0, more, cs)
    decreases |p|
  {
    FirstWord(ws, p);
    HeadOf(ws, more);
    HeadOf(ws, Inserted(0, more, cs));
    if |p| > 8 {
      InsertFollow(count + 1, ws[1..], p[8..], more, cs);
    } else {
      assert ws[1..] + more == more && ws[1..] == [];
    }
    JoinWords(ws, more);
  }

  /** A packet with a checksum in its third word. */
  function WithSum(ws: seq<Word>, c: nat): (out: seq<Word>)
    requires |ws| >= 3 && Lengths8(ws) && c <= MAX
    ensures |out| == |ws| && Lengths8(out)
  {
    [ws[0]] + ([ws[1]] + ([Insert(ws[2], c)] + ws[3..]))
  }

  /** The word count at the end of a packet: if it ends in its third word, the stage
      does not notice. */
  function EndCount(n: nat): nat {
    if n <= 24 then 3 else 0
  }

  lemma {:induction false} InsertsInto(ws: seq<Word>, q: seq<Byte>, more: seq<Word>, c: nat, cs: seq<nat>)
    requires IsPacket(ws, q) && 16 < |q| <= LONGEST && Lengths8(more) && c <= MAX
    requires forall i :: 0 <= i < |cs| ==> cs[i] <= MAX
    ensures |ws| >= 3 && Lengths8(ws) && Lengths8(ws + more)
    ensures Inserted(0, ws + more, [c] + cs) == WithSum(ws, c) + Inserted(EndCount(|q|), more, cs)
  {
    WordLengths(ws, q);
    TwoWords(ws, q);
    FirstWord(ws[2..], q[16..]);
    assert ws[2..][0] == ws[2] && ws[2..][1..] == ws[3..];
    JoinWords(ws, more);
    var rest := ws[3..];
    if |q| > 24 {
      assert q[16..][8..] == q[24..];
      InsertFollow(3, rest, q[24..], more, cs);
    } else {
      assert rest == [] && rest + more == more;
    }
    var tail := Inserted(EndCount(|q|), more, cs);
    ThreeSteps(ws, more, c, cs, rest + tail);
    Regroup(ws[0], ws[1], Insert(ws[2], c), rest, tail);
  }

  lemma {:induction false} Regroup(a: Word, b: Word, c: Word, rest: seq<Word>, tail: seq<Word>)
    ensures [a] + ([b] + ([c] + (rest + tail))) == ([a] + ([b] + ([c] + rest))) + tail
  {}

  lemma {:induction false} ThreeSteps(ws: seq<Word>, more: seq<Word>, c: nat, cs: seq<nat>, tail: seq<Word>)
    requires |ws| >= 3 && Word8(ws[0]) && Word8(ws[1]) && Word8(ws[2]) && !ws[1].last && c <= MAX
    requires (forall i :: 0 <= i < |cs| ==> cs[i] <= MAX) && Lengths8(ws[3..] + more)
    requires Inserted(3, ws[3..] + more, cs) == tail
    ensures Lengths8(ws + more)
    ensures Inserted(0, ws + more, [c] + cs) == [ws[0]] + ([ws[1]] + ([Insert(ws[2], c)] + tail))
  {
    assert ws[2..][1..] == ws[3..] && ws[1..][1..] == ws[2..] && ([c] + cs)[1..] == cs;
    JoinWords(ws[2..], more);
    JoinWords(ws[1..], more);
    JoinWords(ws, more);
    assert Inserted(2, ws[2..] + more, [c] + cs) == [Insert(ws[2], c)] + tail;
    assert Inserted(1, ws[1..] + more, [c] + cs) == [ws[1]] + Inserted(2, ws[2..] + more, [c] + cs);
  }

  // The echo path.

  /** An echo request whose message sums up to all ones. */
  predicate IsRequest(p: seq<Byte>) {
    |p| >= 24 && p[20] == ECHO_REQUEST && p[21] == 0 && Canon(Total(p[20..])) == MAX
  }

  function WithField(q: seq<Byte>, c: nat): (r: seq<Byte>)
    requires |q| >= 24 && c <= MAX
    ensures |r| == |q|
  {
    q[22 := c % 256][23 := c / 256]
  }

  function EchoReply(p: seq<Byte>): (r: seq<Byte>)
    requires |p| >= 24
    ensures |r| == |p|
  {
    WithField(Turned(p), Updated(Field(p[22], p[23])))
  }

  /** The reply: addresses exchanged, and a message that differs from the request in
      its type and checksum only, and still sums up to all ones. */
  lemma {:induction false} ReplyIsRight(p: seq<Byte>)
    requires IsRequest(p)
    ensures var r := EchoReply(p);
            && |r| == |p| && r[..12] == p[..12] && r[12..16] == p[16..20] && r[16..20] == p[12..16]
            && r[20..] == Reply(p[20..]) && r[20] == 0 && r[21] == 0 && r[24..] == p[24..]
            && Canon(Total(r[20..])) == MAX
  {
    var c := Updated(Field(p[22], p[23]));
    ReplyBytes(p, c);
    EchoVerifies(p[20..]);
  }

  /** Byte i of the turned packet. */
  function TurnedByte(p: seq<Byte>, i: nat): Byte
    requires |p| >= 24 && i < |p|
  {
    if i < 12 then p[i] else if i < 16 then p[i + 4] else if i < 20 then p[i - 4] else if i == 20 then 0 else p[i]
  }

  lemma {:induction false} TurnedAt(p: seq<Byte>, i: nat)
    requires |p| >= 24 && i < |p|
    ensures Turned(p)[i] == TurnedByte(p, i)
  {
    var a, b, c, d := p[..12], p[16..20], p[12..16], [0] + p[21..];
    assert Turned(p) == a + b + c + d;
  }

  lemma {:induction false} ReplyBytes(p: seq<Byte>, c: nat)
    requires |p| >= 24 && c <= MAX
    ensures var r := WithField(Turned(p), c);
            && r[..12] == p[..12] && r[12..16] == p[16..20] && r[16..20] == p[12..16]
            && r[20..] == p[20..][0 := 0][2 := c % 256][3 := c / 256]
            && r[20] == 0 && r[21] == p[21] && r[24..] == p[24..]
  {
    var r := WithField(Turned(p), c);
    var m := p[20..][0 := 0][2 := c % 256][3 := c / 256];
    forall i | 0 <= i < |p| && i != 22 && i != 23 ensures r[i] == TurnedByte(p, i) {
      TurnedAt(p, i);
    }
    forall i | 0 <= i < |m| ensures r[20..][i] == m[i] {
      assert r[20..][i] == r[20 + i] && p[20..][i] == p[20 + i];
    }
    forall i | 0 <= i < 4 ensures r[12..16][i] == p[16..20][i] && r[16..20][i] == p[12..16][i] {
      assert r[12..16][i] == r[12 + i] && r[16..20][i] == r[16 + i];
    }
    forall i | 0 <= i < |p| - 24 ensures r[24..][i] == p[24..][i] {
      assert r[24..][i] == r[24 + i];
    }
  }

  /** A request that is turned but keeps its checksum does not sum up to all ones any
      more. */
  lemma {:induction false} TurnedIsWrong(p: seq<Byte>)
    requires IsRequest(p)
    ensures Canon(Total(Turned(p)[20..])) != MAX
  {
    var q, m := Turned(p), p[20..];
    forall i | 0 <= i < |m| ensures q[20..][i] == m[0 := 0][i] {
      TurnedAt(p, 20 + i);
    }
    assert q[20..] == m[0 := 0];
    HeadAndRest(m);
    HeadAndRest(q[20..]);
    assert q[20..][4..] == m[4..];
    var t := Total(q[20..]);
    assert Total(m) == t + 2048;
    FoldAdd(t, 2048);
  }

  function Answer(p: seq<Byte>): seq<seq<Byte>> {
    if IsRequest(p) then [EchoReply(p)] else []
  }

  // Packets as they are seen.

  /** A packet of more than two words has a third one. */
  ghost predicate Enough(ws: seq<Word>, p: seq<Byte>) {
    |p| > 16 ==> |ws| >= 3 && Lengths8(ws)
  }

  /** A packet is accepted if what is seen of it is a request without error. */
  predicate Accepted(ws: seq<Word>, p: seq<Byte>)
    requires Enough(ws, p)
  {
    |p| > 16 && IsRequest(Seen(ws, p))
  }

  /** Of packets of up to 24 bytes, those that end with one particular word, stale lanes
      included, are accepted. */
  lemma {:induction false} ShortAccepted(ws: seq<Word>, p: seq<Byte>)
    requires IsPacket(ws, p) && |p| <= 24
    ensures Enough(ws, p)
    ensures Accepted(ws, p) <==> |p| > 16 && ws[2].data[4..] == [8, 0, 0xf7, 0xff]
  {
    if |p| > 16 {
      SeenIsPacket(ws, p);
      var q := Seen(ws, p);
      assert q[20..] == q[16..24][4..] && q[20] == q[20..][0] && q[21] == q[20..][1];
      FourRequest(q[20..]);
    }
  }

  /** The one message of four bytes that is a request. */
  lemma {:induction false} FourRequest(m: seq<Byte>)
    requires |m| == 4
    ensures m[0] == ECHO_REQUEST && m[1] == 0 && Canon(Total(m)) == MAX <==> m == [8, 0, 0xf7, 0xff]
  {
    FourBytes(m);
    assert m == [m[0], m[1], m[2], m[3]];
  }

  /** The checksum of the reply. */
  function NewSum(ws: seq<Word>): (c: nat)
    requires |ws| >= 3 && Lengths8(ws)
    ensures c <= MAX
  {
    Updated(Field(ws[2].data[6], ws[2].data[7]))
  }

  function ReplyWords(ws: seq<Word>): (out: seq<Word>)
    requires |ws| >= 3 && Lengths8(ws)
    ensures |out| == |ws|
  {
    WithSum(TurnedWords(ws), NewSum(ws))
  }

  /** The words of the reply carry the reply, cut to the length of the packet if that
      ends in its third word. */
  lemma {:induction false} ReplyCarries(ws: seq<Word>, p: seq<Byte>)
    requires IsPacket(ws, p) && |p| > 16
    ensures |ws| >= 3 && Lengths8(ws) && IsPacket(ReplyWords(ws), EchoReply(Seen(ws, p))[..|p|])
  {
    SeenIsPacket(ws, p);
    TurnedIsPacket(ws, p);
    FirstWord(ws, p);
    var q, c := Seen(ws, p), NewSum(ws);
    assert q[16..24][6] == q[22] && q[16..24][7] == q[23];
    FieldStart(Turned(q), c);
    TurnedStart(q);
    TurnedParts(ws);
    SumParts(TurnedWords(ws), c);
    Rebuilds(ws, p, EchoReply(q), ReplyWords(ws));
  }

  lemma {:induction false} SumParts(ws: seq<Word>, c: nat)
    requires |ws| >= 3 && Lengths8(ws) && c <= MAX
    ensures var out := WithSum(ws, c);
            out[0] == ws[0] && out[1] == ws[1] && out[2] == Insert(ws[2], c) && out[3..] == ws[3..]
  {}

  lemma {:induction false} FieldStart(t: seq<Byte>, c: nat)
    requires |t| >= 24 && c <= MAX
    ensures var r := WithField(t, c);
            && r[..8] == t[..8] && r[8..16] == t[8..16] && r[24..] == t[24..]
            && r[16..24] == t[16..24][6 := c % 256][7 := c / 256]
  {}

  // Runs.

  /** check_icmp_checksum, dropper and insertChecksum, each run to its end. */
  function Echo(data: DataRegs, message: SumRegs, ws: seq<Word>): seq<Word>
    requires Word8(data.prevWord) && Lengths8(ws)
    requires Sixteen(SumRun(message, ws).checksums)
  {
    Inserted(0, DropRun(FIRST, DataRun(data, ws), SumRun(message, ws).valids), SumRun(message, ws).checksums)
  }

  lemma {:induction false} ChecksumRange(s: SumRegs, ws: seq<Word>)
    requires Lengths8(ws)
    ensures Sixteen(SumRun(s, ws).checksums)
    decreases |ws|, if s.computeCs && s.state <= 3 then 4 - s.state else 0
  {
    if s.computeCs && s.state <= 3 {
      ChecksumRange(ComputeNext(s), ws);
    } else if ws != [] {
      ChecksumRange(SumNext(s, ws[0]), ws[1..]);
    }
  }

  ghost predicate AllEnough(wss: seq<seq<Word>>, ps: seq<seq<Byte>>) {
    |wss| == |ps| && forall i :: 0 <= i < |ps| ==> Enough(wss[i], ps[i])
  }

  lemma {:induction false} HaveEnough(wss: seq<seq<Word>>, ps: seq<seq<Byte>>)
    requires Carry(wss, ps)
    ensures AllEnough(wss, ps)
  {
    forall i | 0 <= i < |ps| ensures Enough(wss[i], ps[i]) {
      if |ps[i]| > 16 {
        SeenIsPacket(wss[i], ps[i]);
      }
    }
  }

  /** What arrives at insertChecksum of a packet: whether it is accepted, whether its end
      will be missed, its words, and its checksum. */
  datatype Item = Item(accepted: bool, short: bool, words: seq<Word>, sum: nat) {
    ghost predicate Valid() {
      |words| >= 3 && Lengths8(words) && sum <= MAX && Field(words[2].data[6], words[2].data[7]) != sum
    }
  }

  ghost predicate AllValid(xs: seq<Item>) {
    forall i :: 0 <= i < |xs| && xs[i].accepted ==> xs[i].Valid()
  }

  function ItemOf(ws: seq<Word>, p: seq<Byte>): Item
    requires Enough(ws, p)
  {
    if |p| > 16 then Item(Accepted(ws, p), |p| <= 24, TurnedWords(ws), NewSum(ws)) else Item(false, true, ws, 0)
  }

  function Items(wss: seq<seq<Word>>, ps: seq<seq<Byte>>): (xs: seq<Item>)
    requires AllEnough(wss, ps)
    ensures |xs| == |ps| && forall i :: 0 <= i < |ps| ==> xs[i] == ItemOf(wss[i], ps[i])
  {
    seq(|ps|, i requires 0 <= i < |ps| => ItemOf(wss[i], ps[i]))
  }

  /** What comes out for a packet when `queue` are the checksums that wait and `missed`
      says that the end of the last packet has been missed. A packet accepted brings a
      checksum and is given the oldest one; but after a missed end it passes with the
      checksum it had. */
  function Out(missed: bool, queue: seq<nat>, x: Item): seq<seq<Word>>
    requires (x.accepted ==> x.Valid()) && Sixteen(queue)
  {
    if !x.accepted then [] else if missed then [x.words] else [WithSum(x.words, (queue + [x.sum])[0])]
  }

  /** What is missed and what waits then. */
  function After(missed: bool, queue: seq<nat>, x: Item): (r: (bool, seq<nat>))
    requires (x.accepted ==> x.Valid()) && Sixteen(queue)
    ensures Sixteen(r.1)
  {
    if !x.accepted then (missed, queue) else if missed then (false, queue + [x.sum])
    else (x.short, (queue + [x.sum])[1..])
  }

  function Answers(missed: bool, queue: seq<nat>, xs: seq<Item>): seq<seq<Word>>
    requires AllValid(xs) && Sixteen(queue)
    decreases |xs|
  {
    if xs == [] then []
    else
      var after := After(missed, queue, xs[0]);
      Out(missed, queue, xs[0]) + Answers(after.0, after.1, xs[1..])
  }

  /** What should come out: each packet accepted with its own checksum. */
  function Replies(xs: seq<Item>): seq<seq<Word>>
    requires AllValid(xs)
    decreases |xs|
  {
    if xs == [] then []
    else (if xs[0].accepted then [WithSum(xs[0].words, xs[0].sum)] else []) + Replies(xs[1..])
  }

  /** No packet that is accepted and ends in its third word is followed, at once or
      later, by another one that is accepted. */
  ghost predicate Aligned(xs: seq<Item>) {
    forall i, j :: 0 <= i < j < |xs| && xs[i].accepted && xs[i].short ==> !xs[j].accepted
  }

  ghost predicate NoneAccepted(xs: seq<Item>) {
    forall j :: 0 <= j < |xs| ==> !xs[j].accepted
  }

  /** The words that come out are those of the replies if and only if the run is
      aligned. */
  lemma {:induction false} RepliesIffAligned(xs: seq<Item>)
    requires AllValid(xs)
    ensures Concat(Answers(false, [], xs)) == Concat(Replies(xs)) <==> Aligned(xs)
    decreases |xs|
  {
    if xs != [] {
      var x, rest := xs[0], xs[1..];
      AlignedTail(xs);
      if !x.accepted {
        RepliesIffAligned(rest);
        assert [] + Replies(rest) == Replies(rest) && [] + Answers(false, [], rest) == Answers(false, [], rest);
      } else {
        assert ([] + [x.sum])[0] == x.sum && ([] + [x.sum])[1..] == [];
        var reply := WithSum(x.words, x.sum);
        OneMore([reply], Answers(x.short, [], rest));
        OneMore([reply], Replies(rest));
        SamePrefix(reply, Concat(Answers(x.short, [], rest)), Concat(Replies(rest)));
        if x.short {
          MissedNone(rest);
        } else {
          RepliesIffAligned(rest);
        }
      }
    }
  }

  lemma {:induction false} AlignedTail(xs: seq<Item>)
    requires xs != []
    ensures Aligned(xs) <==> Aligned(xs[1..]) && (xs[0].accepted && xs[0].short ==> NoneAccepted(xs[1..]))
    ensures NoneAccepted(xs[1..]) ==> Aligned(xs[1..])
    ensures NoneAccepted(xs) <==> !xs[0].accepted && NoneAccepted(xs[1..])
  {
    var rest := xs[1..];
    assert forall i :: 0 <= i < |rest| ==> rest[i] == xs[i + 1];
    if Aligned(rest) && (xs[0].accepted && xs[0].short ==> NoneAccepted(rest)) {
      forall i, j | 0 <= i < j < |xs| && xs[i].accepted && xs[i].short ensures !xs[j].accepted {
        assert xs[j] == rest[j - 1] && (i > 0 ==> xs[i] == rest[i - 1]);
      }
    }
    if !xs[0].accepted && NoneAccepted(rest) {
      forall j | 0 <= j < |xs| ensures !xs[j].accepted {
        assert j > 0 ==> xs[j] == rest[j - 1];
      }
    }
  }

  lemma {:induction false} SamePrefix(a: seq<Word>, b: seq<Word>, c: seq<Word>)
    ensures a + b == a + c <==> b == c
  {
    assert (a + b)[|a|..] == b && (a + c)[|a|..] == c;
  }

  /** After a missed end the next packet that is accepted does not get its checksum. */
  lemma {:induction false} MissedNone(xs: seq<Item>)
    requires AllValid(xs)
    ensures Concat(Answers(true, [], xs)) == Concat(Replies(xs)) <==> NoneAccepted(xs)
    decreases |xs|
  {
    if xs != [] {
      var x, rest := xs[0], xs[1..];
      AlignedTail(xs);
      if !x.accepted {
        MissedNone(rest);
        assert [] + Replies(rest) == Replies(rest) && [] + Answers(true, [], rest) == Answers(true, [], rest);
      } else {
        var after := After(true, [], x);
        OneMore([x.words], Answers(after.0, after.1, rest));
        OneMore([WithSum(x.words, x.sum)], Replies(rest));
        OtherSum(x, Concat(Answers(after.0, after.1, rest)), Concat(Replies(rest)));
      }
    }
  }

  /** A packet that only passes differs from its reply. */
  lemma {:induction false} OtherSum(x: Item, a: seq<Word>, b: seq<Word>)
    requires x.Valid()
    ensures x.words + a != WithSum(x.words, x.sum) + b
  {
    var w, v := x.words[2], Insert(x.words[2], x.sum);
    assert (x.words + a)[2] == w && (WithSum(x.words, x.sum) + b)[2] == v;
    assert x.sum == 256 * (x.sum / 256) + x.sum % 256;
    assert v.data[6] == x.sum % 256 && v.data[7] == x.sum / 256;
  }

  lemma {:induction false} OneMore(out: seq<seq<Word>>, outs: seq<seq<Word>>)
    requires |out| <= 1
    ensures Concat(out + outs) == Concat(out) + Concat(outs)
    ensures |out| == 1 ==> Concat(out) == out[0]
  {
    if out == [] {
      assert out + outs == outs;
    } else {
      assert (out + outs)[1..] == outs;
    }
  }

  /** What remains to come out. */
  function Rest(missed: bool, queue: seq<nat>, data: DataRegs, message: SumRegs, ws: seq<Word>): seq<Word>
    requires Word8(data.prevWord) && Lengths8(ws) && Sixteen(queue) && Sixteen(SumRun(message, ws).checksums)
  {
    Inserted(if missed then 3 else 0, DropRun(FIRST, DataRun(data, ws), SumRun(message, ws).valids),
             queue + SumRun(message, ws).checksums)
  }

  /** For any packets at all, what comes out is what Answers says. */
  lemma {:induction false} EchoesAs(missed: bool, queue: seq<nat>, data: DataRegs, message: SumRegs,
                                    wss: seq<seq<Word>>, ps: seq<seq<Byte>>)
    requires Carry(wss, ps) && (forall i :: 0 <= i < |ps| ==> |ps[i]| <= LONGEST)
    requires IdleData(data) && IdleSums(message) && Sixteen(queue)
    ensures Lengths8(Concat(wss)) && AllEnough(wss, ps) && AllValid(Items(wss, ps))
    ensures Sixteen(SumRun(message, Concat(wss)).checksums)
    ensures Rest(missed, queue, data, message, Concat(wss)) == Concat(Answers(missed, queue, Items(wss, ps)))
    decreases |ps|
  {
    AllLengths(wss, ps);
    HaveEnough(wss, ps);
    ItemsValid(wss, ps);
    ChecksumRange(message, Concat(wss));
    if ps != [] {
      AllLengths(wss[1..], ps[1..]);
      var x, xs := ItemOf(wss[0], ps[0]), Items(wss, ps);
      var data', message' := EchoesOne(missed, queue, data, message, wss[0], ps[0], x, Concat(wss[1..]));
      var after := After(missed, queue, x);
      EchoesAs(after.0, after.1, data', message', wss[1..], ps[1..]);
      assert xs[1..] == Items(wss[1..], ps[1..]) && xs[0] == x;
      OneMore(Out(missed, queue, x), Answers(after.0, after.1, xs[1..]));
    }
  }

  lemma {:induction false} ItemsValid(wss: seq<seq<Word>>, ps: seq<seq<Byte>>)
    requires AllEnough(wss, ps)
    ensures AllValid(Items(wss, ps))
  {
    forall i | 0 <= i < |ps| && |ps[i]| > 16 ensures ItemOf(wss[i], ps[i]).Valid() {
      ItemValid(wss[i]);
    }
  }

  lemma {:induction false} ItemValid(ws: seq<Word>)
    requires |ws| >= 3 && Lengths8(ws)
    ensures Field(TurnedWords(ws)[2].data[6], TurnedWords(ws)[2].data[7]) != NewSum(ws)
  {
    UpdateAdds(Field(ws[2].data[6], ws[2].data[7]));
    TurnedParts(ws);
  }

  /** The verdict, and the checksum. */
  lemma {:induction false} VerdictIs(ws: seq<Word>, p: seq<Byte>, x: Item)
    requires IsPacket(ws, p) && Enough(ws, p) && x == ItemOf(ws, p)
    ensures VerdictOn(ws, p) == Verdicts([x.accepted], if x.accepted then [x.sum] else [])
  {
    if |p| > 16 {
      SeenIsPacket(ws, p);
      var q := Seen(ws, p);
      assert q[16..24][6] == q[22] && q[16..24][7] == q[23];
    }
  }

  lemma {:induction false} EchoesOne(missed: bool, queue: seq<nat>, data: DataRegs, message: SumRegs, ws: seq<Word>,
                                     p: seq<Byte>, x: Item, more: seq<Word>)
    returns (data': DataRegs, message': SumRegs)
    requires IsPacket(ws, p) && |p| <= LONGEST && Lengths8(more) && IdleData(data) && IdleSums(message)
    requires Enough(ws, p) && x == ItemOf(ws, p) && Sixteen(queue)
    ensures IdleData(data') && IdleSums(message') && Lengths8(ws + more) && (x.accepted ==> x.Valid())
    ensures Sixteen(SumRun(message, ws + more).checksums) && Sixteen(SumRun(message', more).checksums)
    ensures var after := After(missed, queue, x);
            Rest(missed, queue, data, message, ws + more)
            == Concat(Out(missed, queue, x)) + Rest(after.0, after.1, data', message', more)
  {
    data' := Turns(data, ws, p, more);
    message' := Judges(message, ws, p, more);
    ChecksumRange(message, ws + more);
    ChecksumRange(message', more);
    VerdictIs(ws, p, x);
    var q := WordsOf(ws, p, x);
    var rest, after := SumRun(message', more), After(missed, queue, x);
    var turned := DataRun(data', more);
    var kept := DropRun(FIRST, turned, rest.valids);
    DropsUnlessValid(x.words, q, turned, x.accepted, rest.valids);
    Passes(missed, queue, x, q, kept, rest.checksums);
  }

  lemma {:induction false} WordsOf(ws: seq<Word>, p: seq<Byte>, x: Item) returns (q: seq<Byte>)
    requires IsPacket(ws, p) && Enough(ws, p) && x == ItemOf(ws, p)
    ensures |q| == |p| && IsPacket(x.words, q) && (x.accepted ==> x.Valid() && |p| > 16 && x.short == (|p| <= 24))
    ensures x.words == if |p| <= 16 then ws else TurnedWords(ws)
  {
    if |p| <= 16 {
      q := p;
    } else {
      TurnedIsPacket(ws, p);
      ItemValid(ws);
      q := Turned(Seen(ws, p))[..|p|];
    }
  }

  /** insertChecksum and one packet. */
  lemma {:induction false} Passes(missed: bool, queue: seq<nat>, x: Item, q: seq<Byte>, kept: seq<Word>, cs: seq<nat>)
    requires Sixteen(queue) && Sixteen(cs) && Lengths8(kept) && IsPacket(x.words, q) && |q| <= LONGEST
    requires x.accepted ==> x.Valid() && |q| > 16 && x.short == (|q| <= 24)
    ensures Lengths8((if x.accepted then x.words else []) + kept)
    ensures var words, sums := if x.accepted then x.words else [], if x.accepted then [x.sum] else [];
            var after := After(missed, queue, x);
            Inserted(if missed then 3 else 0, words + kept, queue + (sums + cs))
            == Concat(Out(missed, queue, x)) + Inserted(if after.0 then 3 else 0, kept, after.1 + cs)
  {
    OneMore(Out(missed, queue, x), []);
    if !x.accepted {
      assert [] + kept == kept && [] + cs == cs;
    } else {
      JoinWords(x.words, kept);
      var waiting := queue + [x.sum];
      assert queue + ([x.sum] + cs) == waiting + cs;
      if missed {
        InsertFollow(3, x.words, q, kept, waiting + cs);
      } else {
        assert waiting + cs == [waiting[0]] + (waiting[1..] + cs);
        InsertsInto(x.words, q, kept, waiting[0], waiting[1..] + cs);
      }
    }
  }

  /** The replies of a run, as bytes. */
  function ReplyPackets(wss: seq<seq<Word>>, ps: seq<seq<Byte>>): seq<seq<Byte>>
    requires AllEnough(wss, ps)
    decreases |ps|
  {
    if ps == [] then [] else ReplyPacket(wss[0], ps[0]) + ReplyPackets(wss[1..], ps[1..])
  }

  /** The reply to what is seen of a packet, if it is accepted. */
  function ReplyPacket(ws: seq<Word>, p: seq<Byte>): seq<seq<Byte>>
    requires Enough(ws, p)
  {
    if Accepted(ws, p) then [EchoReply(Seen(ws, p))[..|p|]] else []
  }

  lemma {:induction false} ReplyOne(ws: seq<Word>, p: seq<Byte>, x: Item)
    requires IsPacket(ws, p) && Enough(ws, p) && x == ItemOf(ws, p)
    ensures x.accepted ==> x.Valid() && |ReplyPacket(ws, p)| == 1
                           && IsPacket(WithSum(x.words, x.sum), ReplyPacket(ws, p)[0])
    ensures !x.accepted ==> ReplyPacket(ws, p) == []
    ensures |p| >= 24 ==> ReplyPacket(ws, p) == Answer(p)
  {
    if |p| > 16 {
      SeenIsPacket(ws, p);
      ReplyCarries(ws, p);
      ItemValid(ws);
      assert |p| >= 24 ==> EchoReply(p)[..|p|] == EchoReply(p);
    }
  }

  lemma {:induction false} CarryOne(xs: seq<Item>, r: seq<seq<Byte>>, rs: seq<seq<Byte>>)
    requires xs != [] && AllValid(xs) && Carry(Replies(xs[1..]), rs) && |r| == (if xs[0].accepted then 1 else 0)
    requires xs[0].accepted ==> IsPacket(WithSum(xs[0].words, xs[0].sum), r[0])
    ensures Carry(Replies(xs), r + rs)
  {}

  /** The words of the replies carry them. If all packets have at least 24 bytes they are
      the replies to the requests among them. */
  lemma {:induction false} RepliesCarry(wss: seq<seq<Word>>, ps: seq<seq<Byte>>)
    requires Carry(wss, ps)
    ensures AllEnough(wss, ps) && AllValid(Items(wss, ps))
    ensures Carry(Replies(Items(wss, ps)), ReplyPackets(wss, ps))
    ensures (forall i :: 0 <= i < |ps| ==> |ps[i]| >= 24) ==> ReplyPackets(wss, ps) == Gather(ps, Answer)
    decreases |ps|
  {
    HaveEnough(wss, ps);
    ItemsValid(wss, ps);
    if ps != [] {
      var x, xs := ItemOf(wss[0], ps[0]), Items(wss, ps);
      RepliesCarry(wss[1..], ps[1..]);
      ReplyOne(wss[0], ps[0], x);
      assert xs[1..] == Items(wss[1..], ps[1..]) && xs[0] == x;
      CarryOne(xs, ReplyPacket(wss[0], ps[0]), ReplyPackets(wss[1..], ps[1..]));
    }
  }

  /** The whole path from its start. Over any sequence of packets what comes out is what
      Answers says; it is the replies to the packets accepted, in order and nothing
      else, if and only if none of these that ends in its third word is followed by
      another one. */
  lemma {:induction false} EchoesExactly(data: DataRegs, message: SumRegs, wss: seq<seq<Word>>, ps: seq<seq<Byte>>)
    requires Carry(wss, ps) && forall i :: 0 <= i < |ps| ==> |ps[i]| <= LONGEST
    requires IdleData(data) && IdleSums(message)
    ensures Lengths8(Concat(wss)) && Sixteen(SumRun(message, Concat(wss)).checksums)
    ensures AllEnough(wss, ps) && AllValid(Items(wss, ps))
    ensures Echo(data, message, Concat(wss)) == Concat(Answers(false, [], Items(wss, ps)))
    ensures Echo(data, message, Concat(wss)) == Concat(Replies(Items(wss, ps))) <==> Aligned(Items(wss, ps))
    ensures Carry(Replies(Items(wss, ps)), ReplyPackets(wss, ps))
  {
    EchoesAs(false, [], data, message, wss, ps);
    RepliesIffAligned(Items(wss, ps));
    RepliesCarry(wss, ps);
    EchoIsRest(data, message, Concat(wss));
  }

  lemma {:induction false} EchoIsRest(data: DataRegs, message: SumRegs, ws: seq<Word>)
    requires Word8(data.prevWord) && Lengths8(ws) && Sixteen(SumRun(message, ws).checksums)
    ensures Rest(false, [], data, message, ws) == Echo(data, message, ws)
  {
    var cs := SumRun(message, ws).checksums;
    assert [] + cs == cs;
  }

  /** With packets of more than 24 bytes it always is. */
  lemma {:induction false} LongIsAligned(wss: seq<seq<Word>>, ps: seq<seq<Byte>>)
    requires Carry(wss, ps) && forall i :: 0 <= i < |ps| ==> |ps[i]| > 24
    ensures AllEnough(wss, ps) && Aligned(Items(wss, ps)) && ReplyPackets(wss, ps) == Gather(ps, Answer)
  {
    RepliesCarry(wss, ps);
  }

  /** A packet of 24 bytes that is accepted, whatever its IP header. */
  lemma {:induction false} ShortRequest(header: seq<Byte>, ws: seq<Word>)
    requires |header| == 20 && IsPacket(ws, header + [8, 0, 0xf7, 0xff])
    ensures var p := header + [8, 0, 0xf7, 0xff]; Enough(ws, p) && Accepted(ws, p) && IsRequest(p)
  {
    var p := header + [8, 0, 0xf7, 0xff];
    SeenIsPacket(ws, p);
    ShortAccepted(ws, p);
    assert ws[2].data == p[16..24] && p[16..24][4..] == [8, 0, 0xf7, 0xff];
  }

  /** The next request after one that ends in its third word comes out with the checksum
      it had, which is wrong. */
  lemma {:induction false} AfterShort(ws: seq<Word>, p: seq<Byte>, vs: seq<Word>, r: seq<Byte>)
    requires IsPacket(ws, p) && |p| <= 24 && Enough(ws, p) && Accepted(ws, p)
    requires IsPacket(vs, r) && |r| <= LONGEST && IsRequest(r)
    ensures |ws| >= 3 && |vs| >= 3 && Lengths8(ws) && Lengths8(vs) && Lengths8(ws + vs)
    ensures Sixteen(SumRun(SUM_START, ws + vs).checksums)
    ensures Echo(DATA_START, SUM_START, ws + vs) == ReplyWords(ws) + TurnedWords(vs)
    ensures IsPacket(TurnedWords(vs), Turned(r)) && Canon(Total(Turned(r)[20..])) != MAX
  {
    var x := ShortItem(ws, p);
    var y := RequestItem(vs, r);
    EchoesTwo(DATA_START, SUM_START, ws, p, x, vs, r, y);
  }

  lemma {:induction false} ShortItem(ws: seq<Word>, p: seq<Byte>) returns (x: Item)
    requires Enough(ws, p) && Accepted(ws, p)
    ensures x == ItemOf(ws, p) && x.accepted && |ws| >= 3 && Lengths8(ws)
    ensures x.Valid() && WithSum(x.words, x.sum) == ReplyWords(ws)
  {
    x := ItemOf(ws, p);
    ItemValid(ws);
  }

  lemma {:induction false} RequestItem(ws: seq<Word>, r: seq<Byte>) returns (x: Item)
    requires IsPacket(ws, r) && IsRequest(r)
    ensures |ws| >= 3 && Lengths8(ws) && x == ItemOf(ws, r) && x.accepted && x.words == TurnedWords(ws)
    ensures IsPacket(TurnedWords(ws), Turned(r)) && Canon(Total(Turned(r)[20..])) != MAX
  {
    SeenIsPacket(ws, r);
    x := ItemOf(ws, r);
    TurnedIsPacket(ws, r);
    assert Turned(r)[..|r|] == Turned(r);
    TurnedIsWrong(r);
  }

  lemma {:induction false} EchoesTwo(data: DataRegs, message: SumRegs, ws: seq<Word>, p: seq<Byte>, x: Item,
                                     vs: seq<Word>, r: seq<Byte>, y: Item)
    requires IdleData(data) && IdleSums(message)
    requires IsPacket(ws, p) && |p| <= 24 && Enough(ws, p) && x == ItemOf(ws, p) && x.accepted
    requires IsPacket(vs, r) && |r| <= LONGEST && Enough(vs, r) && y == ItemOf(vs, r) && y.accepted
    ensures Lengths8(ws + vs) && Sixteen(SumRun(message, ws + vs).checksums) && x.Valid()
    ensures Echo(data, message, ws + vs) == WithSum(x.words, x.sum) + y.words
  {
    ConcatTwo(ws, vs);
    EchoesAs(false, [], data, message, [ws, vs], [p, r]);
    AnswersTwo(ws, p, x, vs, r, y);
    EchoIsRest(data, message, ws + vs);
  }

  lemma {:induction false} ConcatTwo(ws: seq<Word>, vs: seq<Word>)
    ensures Concat([ws, vs]) == ws + vs
  {
    assert [ws, vs][1..] == [vs] && Concat([vs]) == vs + Concat([]);
  }

  lemma {:induction false} AnswersTwo(ws: seq<Word>, p: seq<Byte>, x: Item, vs: seq<Word>, r: seq<Byte>, y: Item)
    requires Enough(ws, p) && x == ItemOf(ws, p) && x.accepted && |p| <= 24
    requires Enough(vs, r) && y == ItemOf(vs, r) && y.accepted
    ensures AllEnough([ws, vs], [p, r]) && AllValid(Items([ws, vs], [p, r])) && x.Valid()
    ensures Concat(Answers(false, [], Items([ws, vs], [p, r]))) == WithSum(x.words, x.sum) + y.words
  {
    ItemsTwo(ws, p, x, vs, r, y);
    TwoItems(x, y);
  }

  lemma {:induction false} ItemsTwo(ws: seq<Word>, p: seq<Byte>, x: Item, vs: seq<Word>, r: seq<Byte>, y: Item)
    requires Enough(ws, p) && x == ItemOf(ws, p) && x.accepted && Enough(vs, r) && y == ItemOf(vs, r) && y.accepted
    ensures AllEnough([ws, vs], [p, r]) && Items([ws, vs], [p, r]) == [x, y] && x.Valid() && y.Valid()
  {
    ItemValid(ws);
    ItemValid(vs);
  }

  lemma {:induction false} TwoItems(x: Item, y: Item)
    requires x.accepted && x.Valid() && x.short && y.accepted && y.Valid()
    ensures Concat(Answers(false, [], [x, y])) == WithSum(x.words, x.sum) + y.words
  {
    assert [x, y][1..] == [y] && [y][1..] == [];
    assert ([] + [x.sum])[0] == x.sum && ([] + [x.sum])[1..] == [];
    var after := After(true, [], y);
    OneMore([y.words], []);
    assert Answers(true, [], [y]) == [y.words] + Answers(after.0, after.1, []);
    OneMore([WithSum(x.words, x.sum)], Answers(true, [], [y]));
  }
}
