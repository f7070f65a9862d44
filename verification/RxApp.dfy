/** Words on the 64-bit streams of the TCP offload engine, and the memory that
    serves its read commands (Acceleration/tcp_ip/hls/toe/toe.cpp, toe.hpp and
    dummy_memory.cpp). */
module RxStream {
  import opened Arith

  /** Lane i of a word holds byte i; keep has one flag per lane. */
  datatype Word = Word(data: seq<Byte>, keep: seq<bool>, last: bool)

  /** What a word means: its kept bytes and whether it ends its burst. */
  datatype View = View(bytes: seq<Byte>, last: bool)

  function Low(n: nat): seq<bool> {
    seq(8, i => i < n)
  }

  function Ones(keep: seq<bool>): (n: nat)
    ensures n <= |keep|
  {
    if keep == [] then 0 else (if keep[0] then 1 else 0) + Ones(keep[1..])
  }

  ghost predicate WellFormed(w: Word) {
    |w.data| == 8 && |w.keep| == 8 && w.keep == Low(Ones(w.keep))
  }

  function ViewOf(w: Word): View {
    if Ones(w.keep) <= |w.data| then View(w.data[..Ones(w.keep)], w.last) else View([], w.last)
  }

  function Views(ws: seq<Word>): (vs: seq<View>)
    ensures |vs| == |ws|
    ensures forall i :: 0 <= i < |ws| ==> vs[i] == ViewOf(ws[i])
  {
    seq(|ws|, i requires 0 <= i < |ws| => ViewOf(ws[i]))
  }

  /** The words of one burst: eight bytes each, the last one may be shorter. */
  function Burst(b: seq<Byte>): (vs: seq<View>)
    ensures |vs| == (|b| + 7) / 8
  {
    if b == [] then []
    else if |b| <= 8 then [View(b, true)]
    else [View(b[..8], false)] + Burst(b[8..])
  }

  function Head(b: seq<Byte>): (k: nat)
    ensures k <= |b|
  {
    if |b| < 8 then |b| else 8
  }

  lemma {:induction false} BurstHead(b: seq<Byte>)
    requires b != []
    ensures Burst(b) == [View(b[..Head(b)], |b| <= 8)] + Burst(b[Head(b)..])
  {
    if |b| <= 8 {
      assert b[..Head(b)] == b && b[Head(b)..] == [];
    }
  }

  lemma {:induction false} OnesOfLow(n: nat)
    requires n <= 8
    ensures Ones(Low(n)) == n
  {
    var k := Low(n);
    assert k[1..][1..] == k[2..] && k[2..][1..] == k[3..] && k[3..][1..] == k[4..] && k[4..][1..] == k[5..]
        && k[5..][1..] == k[6..] && k[6..][1..] == k[7..] && k[7..][1..] == [];
    assert Ones(k[7..]) == if n == 8 then 1 else 0;
    assert Ones(k[6..]) == if n > 6 then n - 6 else 0;
    assert Ones(k[5..]) == if n > 5 then n - 5 else 0;
    assert Ones(k[4..]) == if n > 4 then n - 4 else 0;
    assert Ones(k[3..]) == if n > 3 then n - 3 else 0;
    assert Ones(k[2..]) == if n > 2 then n - 2 else 0;
    assert Ones(k[1..]) == if n > 1 then n - 1 else 0;
  }

  /** keepMapping: the number of flags that are set. */
  method KeepMapping(keep: seq<bool>) returns (counter: nat)
    requires |keep| == 8
    ensures counter == Ones(keep)
  {
    counter := 0;
    for i := 0 to 8
      invariant counter + Ones(keep[i..]) == Ones(keep)
    {
      assert keep[i..][1..] == keep[i + 1..];
      if keep[i] {
        counter := counter + 1;
      }
    }
  }

  /** returnKeep: the flags of the lowest lanes. */
  method ReturnKeep(length: nat) returns (keep: seq<bool>)
    ensures keep == Low(length)
  {
    keep := seq(8, _ => false);
    for i := 0 to 8
      invariant |keep| == 8
      invariant forall j :: 0 <= j < 8 ==> keep[j] == (j < i && j < length)
    {
      if i < length {
        keep := keep[i := true];
      }
    }
  }
}

/** Read commands and the wrapping byte memory they address. */
module RxMemory {
  import opened Arith

  const EDGE: nat := 65536

  /** A data mover command: a 32-bit address, whose upper half selects a buffer
      of 64 KiB, and a 16-bit length. */
  datatype Cmd = Cmd(saddr: nat, bbt: nat) {
    predicate Valid() {
      saddr < 0x1_0000_0000 && 1 <= bbt < EDGE
    }

    function Lo(): nat { saddr % EDGE }
    function Id(): nat { saddr / EDGE }
  }

  type Storage = (nat, nat) -> Byte

  /** The bytes of an unsplit read: addresses wrap inside the buffer. */
  function Bytes(mem: Storage, id: nat, addr: nat, len: nat): (b: seq<Byte>)
    ensures |b| == len
  {
    seq(len, k requires 0 <= k < len => mem(id, (addr + k) % EDGE))
  }

  function Read(mem: Storage, c: Cmd): (b: seq<Byte>)
    ensures |b| == c.bbt
  {
    Bytes(mem, c.Id(), c.Lo(), c.bbt)
  }

  predicate Splits(c: Cmd) {
    c.Lo() + c.bbt > EDGE
  }

  /** The two commands a split read is broken into. */
  function First(c: Cmd): Cmd
    requires c.Valid() && Splits(c)
  {
    Cmd(c.saddr, EDGE - c.Lo())
  }

  function Second(c: Cmd): Cmd
    requires c.Valid() && Splits(c)
  {
    Cmd(c.saddr - c.Lo(), c.bbt - (EDGE - c.Lo()))
  }

  /** The split is exact: the two commands read the requested bytes in order, and
      neither of them crosses the edge of the buffer. */
  lemma {:induction false} SplitPartition(mem: Storage, c: Cmd)
    requires c.Valid() && Splits(c)
    ensures var f, s := First(c), Second(c);
            && f.Valid() && s.Valid() && !Splits(f) && !Splits(s)
            && f.Lo() + f.bbt == EDGE && s.Lo() == 0 && s.Id() == f.Id() == c.Id()
            && Read(mem, f) + Read(mem, s) == Read(mem, c)
  {
    var f, s := First(c), Second(c);
    assert s.saddr == c.Id() * EDGE;
    var whole, joined := Read(mem, c), Read(mem, f) + Read(mem, s);
    forall k | 0 <= k < c.bbt ensures joined[k] == whole[k] {
      if k >= f.bbt {
        assert c.Lo() + k == EDGE + (k - f.bbt);
      }
    }
  }
}

/** What the streams between request and application must carry. */
module RxFlow {
  import opened Arith
  import opened RxStream
  import opened RxMemory

  /** The words with which the memory answers a list of commands; for the
      requests themselves, the words an unsplit memory would answer with. */
  function BurstsOf(mem: Storage, cs: seq<Cmd>): seq<View> {
    if cs == [] then [] else Burst(Read(mem, cs[0])) + BurstsOf(mem, cs[1..])
  }

  ghost predicate AllValid(cs: seq<Cmd>) {
    forall i :: 0 <= i < |cs| ==> cs[i].Valid()
  }

  /** The commands into which requests are broken down. */
  ghost function Broken(cs: seq<Cmd>): seq<Cmd>
    requires AllValid(cs)
  {
    if cs == [] then []
    else (if Splits(cs[0]) then [First(cs[0]), Second(cs[0])] else [cs[0]]) + Broken(cs[1..])
  }

  lemma {:induction false} BurstsAppend(mem: Storage, a: seq<Cmd>, b: seq<Cmd>)
    ensures BurstsOf(mem, a + b) == BurstsOf(mem, a) + BurstsOf(mem, b)
  {
    if a == [] {
      assert a + b == b;
    } else {
      assert (a + b)[0] == a[0] && (a + b)[1..] == a[1..] + b;
      BurstsAppend(mem, a[1..], b);
    }
  }

  lemma {:induction false} BrokenAppend(a: seq<Cmd>, b: seq<Cmd>)
    requires AllValid(a) && AllValid(b)
    ensures Broken(a + b) == Broken(a) + Broken(b)
  {
    if a == [] {
      assert a + b == b;
    } else {
      assert (a + b)[0] == a[0] && (a + b)[1..] == a[1..] + b;
      BrokenAppend(a[1..], b);
    }
  }

  function SplitFlags(cs: seq<Cmd>): (fs: seq<bool>)
    ensures |fs| == |cs|
    ensures forall i :: 0 <= i < |cs| ==> fs[i] == Splits(cs[i])
  {
    seq(|cs|, i requires 0 <= i < |cs| => Splits(cs[i]))
  }

  lemma {:induction false} BrokenOne(c: Cmd)
    requires c.Valid()
    ensures Broken([c]) == if Splits(c) then [First(c), Second(c)] else [c]
  {
    assert [c][1..] == [];
  }

  lemma {:induction false} Assoc<T>(a: seq<T>, b: seq<T>, c: seq<T>)
    ensures (a + b) + c == a + (b + c)
  {}

  lemma {:induction false} ViewsAppend(ws: seq<Word>, w: Word)
    ensures Views(ws + [w]) == Views(ws) + [ViewOf(w)]
  {}

  /** A word of a first burst (or of an unsplit read) against what is left. */
  lemma {:induction false} StreamWord(w: Word, left1: seq<Byte>, left2: seq<Byte>)
    requires WellFormed(w) && left1 != []
    requires var k := Head(left1);
             ViewOf(w) == View(left1[..k], |left1| <= 8) && Ones(w.keep) == k
    ensures !w.last ==>
              Burst(left1 + left2) == [ViewOf(w)] + Burst(left1[8..] + left2)
    ensures w.last && left2 == [] ==>
              Burst(left1 + left2) == [ViewOf(w)] + Burst([])
    ensures w.last && left2 != [] && Ones(w.keep) == 8 ==>
              Burst(left1 + left2) == [ViewOf(w.(last := false))] + Burst(left2)
    ensures w.last ==> w.data[..Ones(w.keep)] == left1
  {
    var cur, k := left1 + left2, Head(left1);
    BurstHead(cur);
    assert w.data[..k] == left1[..k];
    if |left1| > 8 {
      assert cur[..8] == left1[..8] && cur[8..] == left1[8..] + left2;
    } else {
      assert left1[..k] == left1;
      if left2 == [] {
        assert cur == left1;
        assert cur[k..] == [];
      } else if |left1| == 8 {
        assert cur[..8] == left1 && cur[8..] == left2;
        assert ViewOf(w.(last := false)) == View(left1, false);
      }
    }
  }

  /** The word made of n held bytes and the first 8-n lanes of w, against what is
      left: either it is the last one, or lanes 8-n and up of w stay behind. */
  lemma {:induction false} JoinWord(held: seq<Byte>, w: Word, left2: seq<Byte>, temp: Word)
    requires 1 <= |held| <= 7 && left2 != [] && WellFormed(w)
    requires var k := Head(left2);
             ViewOf(w) == View(left2[..k], |left2| <= 8) && Ones(w.keep) == k
    requires temp.data == held + w.data[..8 - |held|]
    requires var n := Ones(w.keep) + |held|;
             if w.last && n <= 8 then temp.keep == Low(n) && temp.last
             else temp.keep == Low(8) && !temp.last
    ensures WellFormed(temp)
    ensures var k, n := Ones(w.keep), |held|;
            if w.last && k + n <= 8 then Burst(held + left2) == [ViewOf(temp)] + Burst([])
            else k + n > 8 && Burst(held + left2) == [ViewOf(temp)] + Burst(w.data[8 - n..k] + left2[k..])
  {
    var k, n := Ones(w.keep), |held|;
    var cur := held + left2;
    OnesOfLow(if w.last && k + n <= 8 then k + n else 8);
    BurstHead(cur);
    assert w.data[..k] == left2[..k];
    if w.last && k + n <= 8 {
      assert left2[..k] == left2;
      assert temp.data[..k + n] == cur == cur[..Head(cur)];
      assert cur[Head(cur)..] == [];
    } else {
      assert temp.data[..8] == temp.data == cur[..8];
      assert cur[8..] == w.data[8 - n..k] + left2[k..];
    }
  }
}

/** rxAppMemAccessBreakdown: commands that would cross the 64 KiB edge are issued
    as two, and every request gets a flag that says whether it was broken down. */
module RxBreakdown {
  import opened Arith
  import opened RxMemory
  import opened RxFlow

  /** The sixteen-bit arithmetic that computes the two lengths. */
  lemma {:induction false} SplitLengths(c: Cmd)
    requires c.Valid() && Splits(c)
    ensures (EDGE - c.saddr) % EDGE == First(c).bbt
    ensures (c.bbt - First(c).bbt) % EDGE == Second(c).bbt
  {
    RemainderUnique(EDGE - c.saddr, EDGE, 0 - c.Id(), EDGE - c.Lo());
  }

  lemma {:induction false} TakeOne(taken: seq<Cmd>, issued: seq<Cmd>, c: Cmd)
    requires AllValid(taken) && c.Valid() && issued == Broken(taken)
    ensures AllValid(taken + [c]) && SplitFlags(taken + [c]) == SplitFlags(taken) + [Splits(c)]
    ensures Broken(taken + [c]) == if Splits(c) then issued + [First(c)] + [Second(c)] else issued + [c]
  {
    BrokenAppend(taken, [c]);
    BrokenOne(c);
  }

  class RxAppMemAccessBreakdown {
    var rxAppBreakdown: bool
    var rxAppTempCmd: Cmd
    var rxAppAccLength: nat
    ghost var taken: seq<Cmd>    // requests read so far
    ghost var issued: seq<Cmd>   // commands written so far
    ghost var flags: seq<bool>   // flags written so far

    ghost function Pending(): seq<Cmd>
      reads this
    {
      if rxAppBreakdown && rxAppTempCmd.Valid() && Splits(rxAppTempCmd) then [Second(rxAppTempCmd)] else []
    }

    ghost predicate Valid()
      reads this
    {
      && (rxAppBreakdown ==> rxAppTempCmd.Valid() && Splits(rxAppTempCmd) && rxAppAccLength == First(rxAppTempCmd).bbt)
      && AllValid(taken)
      && issued + Pending() == Broken(taken)
      && flags == SplitFlags(taken)
    }

    constructor ()
      ensures Valid() && taken == [] && issued == [] && flags == [] && !rxAppBreakdown
    {
      rxAppBreakdown, rxAppTempCmd, rxAppAccLength := false, Cmd(0, 0), 0;
      taken, issued, flags := [], [], [];
    }

    /** One call, given the waiting requests and whether the command stream is
        full: what it takes from its input and what it appends to its outputs. */
    method Step(input: seq<Cmd>, outputFull: bool) returns (read: seq<Cmd>, cmds: seq<Cmd>, fs: seq<bool>)
      requires Valid() && AllValid(input)
      modifies this
      ensures Valid() && read <= input
      ensures taken == old(taken) + read && issued == old(issued) + cmds && flags == old(flags) + fs
      ensures |cmds| == if outputFull || (input == [] && !old(rxAppBreakdown)) then 0 else 1
      ensures |read| == if outputFull || input == [] || old(rxAppBreakdown) then 0 else 1
      ensures !outputFull && old(rxAppBreakdown) ==> !rxAppBreakdown
    {
      read, cmds, fs := [], [], [];
      if !rxAppBreakdown {
        if input != [] && !outputFull {
          TakeOne(taken, issued, input[0]);
          read, rxAppTempCmd := [input[0]], input[0];
          if rxAppTempCmd.saddr % EDGE + rxAppTempCmd.bbt > EDGE {
            SplitLengths(rxAppTempCmd);
            rxAppAccLength := (EDGE - rxAppTempCmd.saddr) % EDGE;
            cmds := [Cmd(rxAppTempCmd.saddr, rxAppAccLength)];
            rxAppBreakdown := true;
          } else {
            cmds := [rxAppTempCmd];
          }
          fs := [rxAppBreakdown];
          taken, issued, flags := taken + read, issued + cmds, flags + fs;
        }
      } else if !outputFull {
        SplitLengths(rxAppTempCmd);
        rxAppTempCmd := rxAppTempCmd.(saddr := rxAppTempCmd.saddr - rxAppTempCmd.saddr % EDGE);
        rxAppAccLength := (rxAppTempCmd.bbt - rxAppAccLength) % EDGE;
        cmds := [Cmd(rxAppTempCmd.saddr, rxAppAccLength)];
        rxAppBreakdown := false;
        issued := issued + cmds;
      }
    }
  }
}

/** The receive buffer memory as the test bench's dummyMemory serves it. */
module RxMemoryPort {
  import opened Sealing
  import opened Arith
  import opened RxStream
  import opened RxMemory
  import opened RxFlow

  lemma {:induction false} WordDelivered(mem: Storage, words: seq<Word>, serving: seq<Byte>, served: seq<Cmd>, w: Word)
    requires serving != []
    requires Views(words) + Burst(serving) == BurstsOf(mem, served)
    requires ViewOf(w) == View(serving[..Head(serving)], |serving| <= 8)
    ensures Views(words + [w]) + Burst(serving[Head(serving)..]) == BurstsOf(mem, served)
  {
    BurstHead(serving);
    ViewsAppend(words, w);
    Assoc(Views(words), [ViewOf(w)], Burst(serving[Head(serving)..]));
  }

  lemma {:induction false} CommandStarted(mem: Storage, words: seq<Word>, served: seq<Cmd>, c: Cmd)
    requires Views(words) == BurstsOf(mem, served)
    ensures Views(words) + Burst(Read(mem, c)) == BurstsOf(mem, served + [c])
  {
    BurstsAppend(mem, served, [c]);
    assert [c][1..] == [];
  }

  lemma {:induction false} Wraps(x: nat, k: nat)
    ensures (x % EDGE + k) % EDGE == (x + k) % EDGE
  {
    var q := x / EDGE;
    RemainderUnique(x + k, EDGE, q + (x % EDGE + k) / EDGE, (x % EDGE + k) % EDGE);
  }

  lemma {:induction false} BytesFrom(mem: Storage, id: nat, addr: nat, len: nat, n: nat)
    requires n <= len
    ensures Bytes(mem, id, (addr + n) % EDGE, len - n) == Bytes(mem, id, addr, len)[n..]
  {
    var b, c := Bytes(mem, id, (addr + n) % EDGE, len - n), Bytes(mem, id, addr, len);
    forall k | 0 <= k < |b| ensures b[k] == c[n..][k] {
      Wraps(addr + n, k);
    }
  }

  lemma {:induction false} NextLane(data: seq<Byte>, b: seq<Byte>, i: nat, v: Byte)
    requires i < |data| == 8 && i < |b| && data[..i] == b[..i] && v == b[i]
    ensures data[i := v][..i + 1] == b[..i + 1] && [true] + Low(i)[..7] == Low(i + 1)
  {
    assert b[..i + 1] == b[..i] + [b[i]];
  }

  lemma {:induction false} FirstLanes(w: Word, b: seq<Byte>, i: nat)
    requires |w.data| == 8 && i == Head(b) && w.data[..i] == b[..i] && w.keep == Low(i) && w.last == (|b| <= 8)
    ensures WellFormed(w) && ViewOf(w) == View(b[..Head(b)], |b| <= 8)
  {
    OnesOfLow(i);
  }

  class DummyMemory {
    const storage: Storage
    var stxRead: bool
    var readAddr: nat
    var readId: nat
    var readLen: nat
    ghost var served: seq<Cmd>  // commands accepted so far
    ghost var words: seq<Word>  // words delivered so far

    ghost function Serving(): seq<Byte>
      reads this
    {
      if stxRead then Bytes(storage, readId, readAddr, readLen) else []
    }

    ghost predicate Valid()
      reads this
    {
      forall k {:trigger Opened(k)} :: Opened(k) && k == MEMORY ==>
        && (stxRead ==> readLen > 0) && readAddr < EDGE
        && (forall i :: 0 <= i < |words| ==> WellFormed(words[i]))
        && Views(words) + Burst(Serving()) == BurstsOf(storage, served)
    }

    static const MEMORY: nat := 30

    constructor (storage: Storage)
      ensures Valid() && served == [] && words == [] && this.storage == storage && !stxRead
    {
      this.storage := storage;
      stxRead, readAddr, readId, readLen := false, 0, 0, 0;
      served, words := [], [];
    }

    /** One call: accepts a command when it is free, else delivers the next word of
        its current command. The lanes that are not kept hold stale bytes. */
    method Step(cmds: seq<Cmd>, stale: seq<Byte>) returns (read: seq<Cmd>, ws: seq<Word>)
      requires Valid() && AllValid(cmds) && |stale| == 8
      modifies this
      ensures Valid() && read <= cmds
      ensures served == old(served) + read && words == old(words) + ws
      ensures |read| == (if cmds != [] && !old(stxRead) then 1 else 0) && |ws| == (if old(stxRead) then 1 else 0)
      ensures old(stxRead) ==> !stxRead || readLen < old(readLen)
    {
      assert Opened(MEMORY);
      read, ws := [], [];
      if cmds != [] && !stxRead {
        read := [cmds[0]];
        CommandStarted(storage, words, served, cmds[0]);
        SetReadCmd(cmds[0]);
        stxRead, served := true, served + read;
      } else if stxRead {
        ghost var serving := Serving();
        var w := ReadWord(stale);
        WordDelivered(storage, words, serving, served, w);
        ws, words := [w], words + [w];
        if w.last {
          stxRead := false;
        }
      }
    }

    method SetReadCmd(cmd: Cmd)
      requires cmd.Valid()
      modifies this`readAddr, this`readId, this`readLen
      ensures Bytes(storage, readId, readAddr, readLen) == Read(storage, cmd) && readAddr < EDGE && readLen > 0
    {
      readAddr := cmd.saddr % EDGE;
      readId := cmd.saddr / EDGE;
      readLen := cmd.bbt;
    }

    method ReadWord(stale: seq<Byte>) returns (word: Word)
      requires readLen > 0 && readAddr < EDGE && |stale| == 8
      modifies this`readAddr, this`readLen
      ensures readAddr < EDGE && readLen < old(readLen)
      ensures var b := old(Bytes(storage, readId, readAddr, readLen));
              && WellFormed(word) && ViewOf(word) == View(b[..Head(b)], |b| <= 8)
              && Bytes(storage, readId, readAddr, readLen) == b[Head(b)..]
    {
      ghost var b := Bytes(storage, readId, readAddr, readLen);
      ghost var a0 := readAddr;
      var i, keep := 0, Low(0);
      var data: seq<Byte> := stale;
      while readLen > 0 && i < 8
        invariant i <= 8 && i + readLen == |b| && readAddr == (a0 + i) % EDGE
        invariant |data| == 8 && data[..i] == b[..i] && keep == Low(i)
      {
        NextLane(data, b, i, storage(readId, readAddr));
        Wraps(a0 + i, 1);
        data := data[i := storage(readId, readAddr)];
        keep := [true] + keep[..7];
        readLen := readLen - 1;
        readAddr := (readAddr + 1) % EDGE;
        i := i + 1;
      }
      word := Word(data, keep, readLen == 0);
      FirstLanes(word, b, i);
      BytesFrom(storage, readId, a0, |b|, i);
    }
  }
}

/** rxAppMemDataRead: the six-state realigner that joins the two bursts of a
    broken-down read. */
module RxRealigner {
  import opened Sealing
  import opened Arith
  import opened RxStream
  import opened RxMemory
  import opened RxFlow

  datatype RxAppState =
    | RXAPP_IDLE | RXAPP_STREAM | RXAPP_JOIN | RXAPP_STREAMMERGED | RXAPP_STREAMUNMERGED | RXAPP_RESIDUE

  /** The realigner's registers. */
  datatype Regs = Regs(state: RxAppState, word: Word, flag: bool, off: nat, offBuf: nat)

  /** The bytes of the current request that have been read but not yet output. */
  function Held(g: Regs): seq<Byte> {
    if |g.word.data| != 8 || g.off > 8 then []
    else if g.state == RXAPP_JOIN then g.word.data[..g.off]
    else if g.state == RXAPP_STREAMMERGED then g.word.data[8 - g.off..]
    else if g.state == RXAPP_RESIDUE && g.offBuf <= g.off then g.word.data[8 - g.off..8 - g.off + g.offBuf]
    else []
  }

  /** Which bursts of the current request are left to read in each state. */
  ghost predicate Realigning(g: Regs, left1: seq<Byte>, left2: seq<Byte>) {
    match g.state
    case RXAPP_IDLE => left1 == [] && left2 == []
    case RXAPP_STREAM => left1 != [] && (g.flag <==> left2 != [])
    case RXAPP_STREAMUNMERGED => left1 == [] && left2 != []
    case RXAPP_RESIDUE => left1 == [] && left2 == [] && |g.word.data| == 8 && 1 <= g.offBuf <= g.off <= 7
    case _ => left1 == [] && left2 != [] && |g.word.data| == 8 && 1 <= g.off <= 7
  }

  /** The word that is put together from held bytes and the lanes below them. */
  function Joined(held: seq<Byte>, w: Word): Word
    requires |held| <= 7 && |w.data| == 8
  {
    var n := Ones(w.keep) + |held|;
    var done := w.last && n <= 8;
    Word(held + w.data[..8 - |held|], if done then Low(n) else Low(8), done)
  }

  /** The registers after reading word w. */
  function ReadNext(g: Regs, w: Word): Regs {
    var k := Ones(w.keep);
    match g.state
    case RXAPP_STREAM =>
      if w.last && g.flag then
        Regs(if k == 8 then RXAPP_STREAMUNMERGED else RXAPP_JOIN, w.(last := false), g.flag, k, g.offBuf)
      else Regs(if w.last then RXAPP_IDLE else RXAPP_STREAM, w, g.flag, k, g.offBuf)
    case RXAPP_STREAMUNMERGED => g.(state := if w.last then RXAPP_IDLE else RXAPP_STREAMUNMERGED)
    case RXAPP_IDLE => g
    case RXAPP_RESIDUE => g
    case _ =>
      g.(word := w, offBuf := (k - (8 - g.off)) % 256,
         state := if !w.last then RXAPP_STREAMMERGED else if k + g.off <= 8 then RXAPP_IDLE else RXAPP_RESIDUE)
  }

  /** What is output when word w is read. */
  function ReadOut(g: Regs, w: Word): seq<Word>
    requires |Held(g)| <= 7 && |w.data| == 8
  {
    match g.state
    case RXAPP_STREAM =>
      if !(w.last && g.flag) then [w] else if Ones(w.keep) == 8 then [w.(last := false)] else []
    case RXAPP_STREAMUNMERGED => [w]
    case RXAPP_IDLE => []
    case RXAPP_RESIDUE => []
    case _ => [Joined(Held(g), w)]
  }

  /** The words read so far and those left to read are what the memory answers to
      the broken-down plan. */
  ghost predicate InFlow(mem: Storage, wordsIn: seq<Word>, left1: seq<Byte>, left2: seq<Byte>, todo: seq<Cmd>,
                         plan: seq<Cmd>)
    requires AllValid(todo) && AllValid(plan)
  {
    Views(wordsIn) + (Burst(left1) + (Burst(left2) + BurstsOf(mem, Broken(todo)))) == BurstsOf(mem, Broken(plan))
  }

  /** The words output so far and those left to output are what an unsplit memory
      would answer to the plan. */
  ghost predicate OutFlow(mem: Storage, out: seq<Word>, cur: seq<Byte>, todo: seq<Cmd>, plan: seq<Cmd>) {
    && (forall i :: 0 <= i < |out| ==> WellFormed(out[i]))
    && Views(out) + (Burst(cur) + BurstsOf(mem, todo)) == BurstsOf(mem, plan)
  }

  lemma {:induction false} TakeHead<T>(a: seq<T>, w: T, x: T, r: seq<T>, all: seq<T>)
    requires a + ([x] + r) == all && a + [w] <= all
    ensures w == x && (a + [w]) + r == all
  {
    assert (a + [w])[|a|] == w && all[|a|] == ([x] + r)[0];
    assert a + ([x] + r) == (a + [x]) + r;
  }

  /** Reading the next word of a first burst. */
  lemma {:induction false} ReadFirst(mem: Storage, wordsIn: seq<Word>, w: Word, left1: seq<Byte>, left2: seq<Byte>,
                                     todo: seq<Cmd>, plan: seq<Cmd>)
    requires AllValid(todo) && AllValid(plan) && left1 != [] && WellFormed(w)
    requires InFlow(mem, wordsIn, left1, left2, todo, plan)
    requires Views(wordsIn + [w]) <= BurstsOf(mem, Broken(plan))
    ensures ViewOf(w) == View(left1[..Head(left1)], |left1| <= 8) && Ones(w.keep) == Head(left1)
    ensures InFlow(mem, wordsIn + [w], left1[Head(left1)..], left2, todo, plan)
  {
    var x, b, r := View(left1[..Head(left1)], |left1| <= 8), Burst(left1[Head(left1)..]),
                   Burst(left2) + BurstsOf(mem, Broken(todo));
    BurstHead(left1);
    ViewsAppend(wordsIn, w);
    assert ([x] + b) + r == [x] + (b + r);
    TakeHead(Views(wordsIn), ViewOf(w), x, b + r, BurstsOf(mem, Broken(plan)));
    assert |ViewOf(w).bytes| == Ones(w.keep);
  }

  /** Reading the next word of a second burst. */
  lemma {:induction false} ReadSecond(mem: Storage, wordsIn: seq<Word>, w: Word, left2: seq<Byte>, todo: seq<Cmd>,
                                      plan: seq<Cmd>)
    requires AllValid(todo) && AllValid(plan) && left2 != [] && WellFormed(w)
    requires InFlow(mem, wordsIn, [], left2, todo, plan)
    requires Views(wordsIn + [w]) <= BurstsOf(mem, Broken(plan))
    ensures ViewOf(w) == View(left2[..Head(left2)], |left2| <= 8) && Ones(w.keep) == Head(left2)
    ensures InFlow(mem, wordsIn + [w], [], left2[Head(left2)..], todo, plan)
  {
    var f := BurstsOf(mem, Broken(todo));
    assert [] + (Burst(left2) + f) == Burst(left2) + ([] + f);
    ReadFirst(mem, wordsIn, w, left2, [], todo, plan);
    var b := Burst(left2[Head(left2)..]);
    assert [] + (b + f) == b + ([] + f);
  }

  /** Appending an output word that is the head of what is left to output. */
  lemma {:induction false} WriteWord(mem: Storage, out: seq<Word>, w: Word, cur: seq<Byte>, cur': seq<Byte>,
                                     todo: seq<Cmd>, plan: seq<Cmd>)
    requires OutFlow(mem, out, cur, todo, plan)
    requires WellFormed(w) && Burst(cur) == [ViewOf(w)] + Burst(cur')
    ensures OutFlow(mem, out + [w], cur', todo, plan)
  {
    ViewsAppend(out, w);
    var a, b, c, d := Views(out), [ViewOf(w)], Burst(cur'), BurstsOf(mem, todo);
    Assoc(b, c, d);
    Assoc(a, b, c + d);
  }

  /** Starting on the next request of the plan. */
  lemma {:induction false} Begin(mem: Storage, wordsIn: seq<Word>, out: seq<Word>, todo: seq<Cmd>, plan: seq<Cmd>)
    requires AllValid(todo) && AllValid(plan) && todo != []
    requires InFlow(mem, wordsIn, [], [], todo, plan) && OutFlow(mem, out, [], todo, plan)
    ensures var c := todo[0];
            var left1 := Read(mem, if Splits(c) then First(c) else c);
            var left2 := if Splits(c) then Read(mem, Second(c)) else [];
            && left1 != [] && (Splits(c) <==> left2 != [])
            && InFlow(mem, wordsIn, left1, left2, todo[1..], plan)
            && OutFlow(mem, out, left1 + left2, todo[1..], plan)
  {
    var c, rest := todo[0], Broken(todo[1..]);
    var f := BurstsOf(mem, rest);
    assert [] + ([] + BurstsOf(mem, Broken(todo))) == BurstsOf(mem, Broken(todo));
    assert [] + BurstsOf(mem, todo) == BurstsOf(mem, todo);
    if Splits(c) {
      SplitPartition(mem, c);
      assert ([First(c), Second(c)] + rest)[1..] == [Second(c)] + rest && ([Second(c)] + rest)[1..] == rest;
    } else {
      assert ([c] + rest)[1..] == rest;
      assert Read(mem, c) + [] == Read(mem, c) && [] + f == f;
    }
  }

  /** Everything the realigner keeps true: its registers say how far the current
      request has got, and neither stream has lost, added or reordered a byte. */
  ghost predicate Keeps(mem: Storage, g: Regs, wordsIn: seq<Word>, out: seq<Word>, left1: seq<Byte>, left2: seq<Byte>,
                        todo: seq<Cmd>, plan: seq<Cmd>)
    requires AllValid(todo) && AllValid(plan)
  {
    && Realigning(g, left1, left2)
    && InFlow(mem, wordsIn, left1, left2, todo, plan)
    && OutFlow(mem, out, Held(g) + (left1 + left2), todo, plan)
  }

  predicate Reading(g: Regs) {
    g.state != RXAPP_IDLE && g.state != RXAPP_RESIDUE
  }

  lemma {:induction false} StreamOut(mem: Storage, g: Regs, out: seq<Word>, w: Word, left1: seq<Byte>,
                                     left2: seq<Byte>, todo: seq<Cmd>, plan: seq<Cmd>)
    requires WellFormed(w) && g.state == RXAPP_STREAM && Realigning(g, left1, left2)
    requires OutFlow(mem, out, left1 + left2, todo, plan)
    requires ViewOf(w) == View(left1[..Head(left1)], |left1| <= 8) && Ones(w.keep) == Head(left1)
    ensures var g', left1' := ReadNext(g, w), left1[Head(left1)..];
            && Realigning(g', left1', left2)
            && OutFlow(mem, out + ReadOut(g, w), Held(g') + (left1' + left2), todo, plan)
  {
    StreamWord(w, left1, left2);
    var g', left1', cur := ReadNext(g, w), left1[Head(left1)..], left1 + left2;
    if w.last {
      assert left1' == [] && left1' + left2 == left2;
      if !g.flag {
        assert Held(g') + (left1' + left2) == [];
        WriteWord(mem, out, w, cur, [], todo, plan);
      } else if Ones(w.keep) == 8 {
        assert Held(g') + (left1' + left2) == left2;
        WriteWord(mem, out, w.(last := false), cur, left2, todo, plan);
      } else {
        assert Held(g') + (left1' + left2) == cur;
        assert out + [] == out;
      }
    } else {
      assert Held(g') + (left1' + left2) == left1' + left2;
      WriteWord(mem, out, w, cur, left1' + left2, todo, plan);
    }
  }

  lemma {:induction false} StreamKeeps(mem: Storage, g: Regs, wordsIn: seq<Word>, out: seq<Word>, w: Word,
                                       left1: seq<Byte>, left2: seq<Byte>, todo: seq<Cmd>, plan: seq<Cmd>)
    requires AllValid(todo) && AllValid(plan) && WellFormed(w) && g.state == RXAPP_STREAM
    requires Keeps(mem, g, wordsIn, out, left1, left2, todo, plan)
    requires Views(wordsIn + [w]) <= BurstsOf(mem, Broken(plan))
    ensures Keeps(mem, ReadNext(g, w), wordsIn + [w], out + ReadOut(g, w), left1[Head(left1)..], left2, todo, plan)
  {
    assert Held(g) + (left1 + left2) == left1 + left2;
    ReadFirst(mem, wordsIn, w, left1, left2, todo, plan);
    StreamOut(mem, g, out, w, left1, left2, todo, plan);
  }

  lemma {:induction false} UnmergedKeeps(mem: Storage, g: Regs, wordsIn: seq<Word>, out: seq<Word>, w: Word,
                                         left2: seq<Byte>, todo: seq<Cmd>, plan: seq<Cmd>)
    requires AllValid(todo) && AllValid(plan) && WellFormed(w) && g.state == RXAPP_STREAMUNMERGED
    requires Keeps(mem, g, wordsIn, out, [], left2, todo, plan)
    requires Views(wordsIn + [w]) <= BurstsOf(mem, Broken(plan))
    ensures Keeps(mem, ReadNext(g, w), wordsIn + [w], out + ReadOut(g, w), [], left2[Head(left2)..], todo, plan)
  {
    ReadSecond(mem, wordsIn, w, left2, todo, plan);
    BurstHead(left2);
    var left2' := left2[Head(left2)..];
    assert Held(g) + ([] + left2) == left2;
    assert Held(ReadNext(g, w)) + ([] + left2') == left2';
    WriteWord(mem, out, w, left2, left2', todo, plan);
  }

  lemma {:induction false} JoinKeeps(mem: Storage, g: Regs, wordsIn: seq<Word>, out: seq<Word>, w: Word,
                                     left2: seq<Byte>, todo: seq<Cmd>, plan: seq<Cmd>)
    requires AllValid(todo) && AllValid(plan) && WellFormed(w)
    requires g.state == RXAPP_JOIN || g.state == RXAPP_STREAMMERGED
    requires Keeps(mem, g, wordsIn, out, [], left2, todo, plan)
    requires Views(wordsIn + [w]) <= BurstsOf(mem, Broken(plan))
    ensures Keeps(mem, ReadNext(g, w), wordsIn + [w], out + ReadOut(g, w), [], left2[Head(left2)..], todo, plan)
  {
    ReadSecond(mem, wordsIn, w, left2, todo, plan);
    JoinedHead(g, w, left2);
    var cur' := Held(ReadNext(g, w)) + ([] + left2[Head(left2)..]);
    WriteWord(mem, out, Joined(Held(g), w), Held(g) + ([] + left2), cur', todo, plan);
  }

  /** What a joining state holds back after word w is what the joined word leaves. */
  lemma {:induction false} HeldAfterJoin(g: Regs, w: Word, left2: seq<Byte>)
    requires g.state == RXAPP_JOIN || g.state == RXAPP_STREAMMERGED
    requires WellFormed(w) && Realigning(g, [], left2)
    requires ViewOf(w) == View(left2[..Head(left2)], |left2| <= 8) && Ones(w.keep) == Head(left2)
    ensures var k, n, g' := Ones(w.keep), g.off, ReadNext(g, w);
            && |Held(g)| == n && Held(g) + ([] + left2) == Held(g) + left2
            && Realigning(g', [], left2[k..])
            && Held(g') + ([] + left2[k..]) ==
               if w.last && k + n <= 8 then [] else w.data[8 - n..k] + left2[k..]
  {
    var k, n, g' := Ones(w.keep), g.off, ReadNext(g, w);
    var rest := left2[k..];
    assert w.last ==> rest == [];
    AfterJoin(g, w);
    assert Held(g') + ([] + rest) == Held(g') + rest;
  }

  lemma {:induction false} AfterJoin(g: Regs, w: Word)
    requires g.state == RXAPP_JOIN || g.state == RXAPP_STREAMMERGED
    requires WellFormed(w) && |g.word.data| == 8 && 1 <= g.off <= 7 && (!w.last ==> Ones(w.keep) == 8)
    ensures var k, n, g' := Ones(w.keep), g.off, ReadNext(g, w);
            && |Held(g)| == n && g'.off == n && g'.word == w
            && if !w.last then g'.state == RXAPP_STREAMMERGED && Held(g') == w.data[8 - n..]
               else if k + n <= 8 then g'.state == RXAPP_IDLE && Held(g') == []
               else g'.state == RXAPP_RESIDUE && g'.offBuf == k - (8 - n) && Held(g') == w.data[8 - n..k]
  {}

  lemma {:induction false} JoinedHead(g: Regs, w: Word, left2: seq<Byte>)
    requires g.state == RXAPP_JOIN || g.state == RXAPP_STREAMMERGED
    requires WellFormed(w) && Realigning(g, [], left2)
    requires ViewOf(w) == View(left2[..Head(left2)], |left2| <= 8) && Ones(w.keep) == Head(left2)
    ensures |Held(g)| <= 7 && WellFormed(Joined(Held(g), w))
    ensures Realigning(ReadNext(g, w), [], left2[Head(left2)..])
    ensures Burst(Held(g) + ([] + left2)) ==
            [ViewOf(Joined(Held(g), w))] + Burst(Held(ReadNext(g, w)) + ([] + left2[Head(left2)..]))
  {
    HeldAfterJoin(g, w, left2);
    JoinWord(Held(g), w, left2, Joined(Held(g), w));
  }

  lemma {:induction false} ReadKeeps(mem: Storage, g: Regs, wordsIn: seq<Word>, out: seq<Word>, w: Word,
                                     left1: seq<Byte>, left2: seq<Byte>, todo: seq<Cmd>, plan: seq<Cmd>,
                                     outs: seq<Word>, g': Regs)
    requires AllValid(todo) && AllValid(plan) && WellFormed(w) && Reading(g)
    requires Keeps(mem, g, wordsIn, out, left1, left2, todo, plan)
    requires Views(wordsIn + [w]) <= BurstsOf(mem, Broken(plan))
    requires IsRead(g, w, outs, g')
    ensures var left1' := if left1 != [] then left1[Head(left1)..] else [];
            var left2' := if left1 != [] then left2 else left2[Head(left2)..];
            Keeps(mem, g', wordsIn + [w], out + outs, left1', left2', todo, plan)
  {
    assert Opened(REALIGN);
    if g.state == RXAPP_STREAM {
      StreamKeeps(mem, g, wordsIn, out, w, left1, left2, todo, plan);
    } else if g.state == RXAPP_STREAMUNMERGED {
      UnmergedKeeps(mem, g, wordsIn, out, w, left2, todo, plan);
    } else {
      JoinKeeps(mem, g, wordsIn, out, w, left2, todo, plan);
    }
  }

  lemma {:induction false} ResidueView(g: Regs, w: Word)
    requires g.state == RXAPP_RESIDUE && Realigning(g, [], [])
    requires |w.data| == 8 && w.data[..g.off] == g.word.data[8 - g.off..] && w.keep == Low(g.offBuf) && w.last
    ensures WellFormed(w) && Burst(Held(g)) == [ViewOf(w)] + Burst([])
  {
    OnesOfLow(g.offBuf);
    assert w.data[..g.offBuf] == w.data[..g.off][..g.offBuf] == Held(g);
  }

  /** The word RXAPP_RESIDUE outputs. */
  lemma {:induction false} ResidueKeeps(mem: Storage, g: Regs, wordsIn: seq<Word>, out: seq<Word>, w: Word,
                                        todo: seq<Cmd>, plan: seq<Cmd>)
    requires AllValid(todo) && AllValid(plan) && g.state == RXAPP_RESIDUE
    requires Keeps(mem, g, wordsIn, out, [], [], todo, plan)
    requires |w.data| == 8 && w.data[..g.off] == g.word.data[8 - g.off..] && w.keep == Low(g.offBuf) && w.last
    ensures Keeps(mem, g.(state := RXAPP_IDLE), wordsIn, out + [w], [], [], todo, plan)
  {
    ResidueView(g, w);
    var none: seq<Byte> := [];
    assert Held(g) + (none + none) == Held(g) && none + (none + none) == none;
    WriteWord(mem, out, w, Held(g), none, todo, plan);
  }

  lemma {:induction false} BeginKeeps(mem: Storage, g: Regs, wordsIn: seq<Word>, out: seq<Word>, todo: seq<Cmd>,
                                      plan: seq<Cmd>)
    requires AllValid(todo) && AllValid(plan) && todo != [] && g.state == RXAPP_IDLE
    requires Keeps(mem, g, wordsIn, out, [], [], todo, plan)
    ensures var c := todo[0];
            var left1 := Read(mem, if Splits(c) then First(c) else c);
            var left2 := if Splits(c) then Read(mem, Second(c)) else [];
            Keeps(mem, g.(state := RXAPP_STREAM, flag := Splits(c)), wordsIn, out, left1, left2, todo[1..], plan)
  {
    var none: seq<Byte> := [];
    assert Held(g) == none && none + none == none;
    Begin(mem, wordsIn, out, todo, plan);
    var c := todo[0];
    var left1 := Read(mem, if Splits(c) then First(c) else c);
    var left2 := if Splits(c) then Read(mem, Second(c)) else [];
    assert none + (left1 + left2) == left1 + left2;
  }

  /** g' is g after reading word w, and outs what is output, sealed. */
  ghost predicate IsRead(g: Regs, w: Word, outs: seq<Word>, g': Regs) {
    forall k {:trigger Opened(k)} :: Opened(k) && k == REALIGN ==>
      |Held(g)| <= 7 && |w.data| == 8 && g' == ReadNext(g, w) && outs == ReadOut(g, w)
  }

  const REALIGN: nat := 29

  /** Keeps with the first n requests begun, sealed. */
  ghost predicate Kept(mem: Storage, g: Regs, wordsIn: seq<Word>, out: seq<Word>, left1: seq<Byte>, left2: seq<Byte>,
                       n: nat, plan: seq<Cmd>)
    requires AllValid(plan) && n <= |plan|
  {
    forall k {:trigger Opened(k)} :: Opened(k) && k == REALIGN ==>
      Keeps(mem, g, wordsIn, out, left1, left2, plan[n..], plan)
  }

  /** What the registers are fit for. */
  lemma {:induction false} Fit(g: Regs, left1: seq<Byte>, left2: seq<Byte>)
    requires Realigning(g, left1, left2)
    ensures |Held(g)| <= 7
    ensures g.state == RXAPP_JOIN || g.state == RXAPP_STREAMMERGED || g.state == RXAPP_RESIDUE ==>
              |g.word.data| == 8 && 1 <= g.off <= 7
  {}

  lemma {:induction false} KeptFit(mem: Storage, g: Regs, wordsIn: seq<Word>, out: seq<Word>, left1: seq<Byte>,
                                   left2: seq<Byte>, n: nat, plan: seq<Cmd>)
    requires AllValid(plan) && n <= |plan| && Kept(mem, g, wordsIn, out, left1, left2, n, plan)
    ensures |Held(g)| <= 7
    ensures g.state == RXAPP_JOIN || g.state == RXAPP_STREAMMERGED || g.state == RXAPP_RESIDUE ==>
              |g.word.data| == 8 && 1 <= g.off <= 7
  {
    assert Opened(REALIGN);
    Fit(g, left1, left2);
  }

  lemma {:induction false} ReadKept(mem: Storage, g: Regs, wordsIn: seq<Word>, out: seq<Word>, w: Word,
                                    left1: seq<Byte>, left2: seq<Byte>, n: nat, plan: seq<Cmd>, outs: seq<Word>,
                                    g': Regs)
    requires AllValid(plan) && n <= |plan| && WellFormed(w) && Reading(g)
    requires Kept(mem, g, wordsIn, out, left1, left2, n, plan)
    requires Views(wordsIn + [w]) <= BurstsOf(mem, Broken(plan))
    requires IsRead(g, w, outs, g')
    ensures var left1' := if left1 != [] then left1[Head(left1)..] else [];
            var left2' := if left1 != [] then left2 else left2[Head(left2)..];
            Kept(mem, g', wordsIn + [w], out + outs, left1', left2', n, plan)
  {
    assert Opened(REALIGN);
    ReadKeeps(mem, g, wordsIn, out, w, left1, left2, plan[n..], plan, outs, g');
  }

  lemma {:induction false} ResidueKept(mem: Storage, g: Regs, wordsIn: seq<Word>, out: seq<Word>, w: Word,
                                       left1: seq<Byte>, left2: seq<Byte>, n: nat, plan: seq<Cmd>)
    requires AllValid(plan) && n <= |plan| && g.state == RXAPP_RESIDUE
    requires Kept(mem, g, wordsIn, out, left1, left2, n, plan)
    requires |w.data| == 8 && g.off <= 8 == |g.word.data| && w.data[..g.off] == g.word.data[8 - g.off..]
    requires w.keep == Low(g.offBuf) && w.last
    ensures Kept(mem, g.(state := RXAPP_IDLE), wordsIn, out + [w], left1, left2, n, plan)
  {
    assert Opened(REALIGN);
    ResidueKeeps(mem, g, wordsIn, out, w, plan[n..], plan);
  }

  /** The next request, one or two bursts, is begun. */
  lemma {:induction false} BeginKept(mem: Storage, g: Regs, wordsIn: seq<Word>, out: seq<Word>, left1: seq<Byte>,
                                     left2: seq<Byte>, n: nat, plan: seq<Cmd>)
    requires AllValid(plan) && n < |plan| && g.state == RXAPP_IDLE
    requires Kept(mem, g, wordsIn, out, left1, left2, n, plan)
    ensures var c := plan[n];
            var left1' := Read(mem, if Splits(c) then First(c) else c);
            var left2' := if Splits(c) then Read(mem, Second(c)) else [];
            Kept(mem, g.(state := RXAPP_STREAM, flag := Splits(c)), wordsIn, out, left1', left2', n + 1, plan)
  {
    assert Opened(REALIGN);
    assert plan[n..][1..] == plan[n + 1..];
    BeginKeeps(mem, g, wordsIn, out, plan[n..], plan);
  }

  lemma {:induction false} FirstExpected(wordsIn: seq<Word>, data: seq<Word>, all: seq<View>)
    requires data != [] && Views(wordsIn + data) <= all
    ensures Views(wordsIn + [data[0]]) <= all
  {
    var vs := Views(wordsIn + data);
    assert Views(wordsIn + [data[0]]) == vs[..|wordsIn| + 1];
  }

  class RxAppMemDataRead {
    ghost const storage: Storage
    ghost const plan: seq<Cmd>   // the requests whose words will arrive
    var rxAppState: RxAppState
    var rxAppMemRdRxWord: Word
    var rxAppDoubleAccessFlag: bool
    var rxAppMemRdOffset: nat
    var rxAppOffsetBuffer: nat
    ghost var flagsIn: seq<bool>
    ghost var wordsIn: seq<Word>
    ghost var out: seq<Word>
    ghost var left1: seq<Byte>   // bytes of the current request's bursts
    ghost var left2: seq<Byte>   // that are still to be read

    ghost function Registers(): Regs
      reads this
    {
      Regs(rxAppState, rxAppMemRdRxWord, rxAppDoubleAccessFlag, rxAppMemRdOffset, rxAppOffsetBuffer)
    }

    ghost predicate Valid()
      reads this
    {
      && AllValid(plan) && flagsIn <= SplitFlags(plan)
      && Kept(storage, Registers(), wordsIn, out, left1, left2, |flagsIn|, plan)
    }

    constructor (ghost storage: Storage, ghost plan: seq<Cmd>)
      requires AllValid(plan)
      ensures Valid() && flagsIn == [] && wordsIn == [] && out == [] && rxAppState == RXAPP_IDLE
      ensures this.storage == storage && this.plan == plan
    {
      this.storage, this.plan := storage, plan;
      rxAppState, rxAppMemRdRxWord := RXAPP_IDLE, Word([0, 0, 0, 0, 0, 0, 0, 0], Low(0), false);
      rxAppDoubleAccessFlag, rxAppMemRdOffset, rxAppOffsetBuffer := false, 0, 0;
      flagsIn, wordsIn, out, left1, left2 := [], [], [], [], [];
      assert plan[0..] == plan;
    }

    /** May these words be the next ones from memory? */
    ghost predicate Expects(data: seq<Word>)
      reads this
    {
      && AllValid(plan)
      && (forall i :: 0 <= i < |data| ==> WellFormed(data[i]))
      && Views(wordsIn + data) <= BurstsOf(storage, Broken(plan))
    }

    /** One call, given the waiting flags and words and whether the response stream
        is full: what it takes from its inputs and what it outputs. */
    method Step(flags: seq<bool>, data: seq<Word>, rspFull: bool)
      returns (readFlags: seq<bool>, readWords: seq<Word>, outs: seq<Word>)
      requires Valid() && flagsIn + flags <= SplitFlags(plan) && Expects(data)
      modifies this
      ensures Valid() && readFlags <= flags && readWords <= data
      ensures flagsIn == old(flagsIn) + readFlags && wordsIn == old(wordsIn) + readWords && out == old(out) + outs
      ensures !rspFull && old(rxAppState) == RXAPP_RESIDUE ==> rxAppState == RXAPP_IDLE && outs != []
      ensures |readWords| == if rspFull || data == [] || old(rxAppState) == RXAPP_RESIDUE
                                || (old(rxAppState) == RXAPP_IDLE && flags == []) then 0 else 1
    {
      readFlags, readWords, outs := [], [], [];
      if rspFull {
        return;
      }
      match rxAppState
      case RXAPP_IDLE =>
        if flags != [] && data != [] {
          readFlags, readWords := [flags[0]], [data[0]];
          StartRequest(flags[0]);
          outs := TakeWord(data[0], data);
        }
      case RXAPP_RESIDUE =>
        outs := Residue();
      case _ =>
        if data != [] {
          readWords := [data[0]];
          outs := TakeWord(data[0], data);
        }
    }

    method StartRequest(flag: bool)
      requires Valid() && rxAppState == RXAPP_IDLE && flagsIn + [flag] <= SplitFlags(plan)
      modifies this
      ensures Valid() && rxAppState == RXAPP_STREAM
      ensures flagsIn == old(flagsIn) + [flag] && wordsIn == old(wordsIn) && out == old(out)
    {
      ghost var n := |flagsIn|;
      assert (flagsIn + [flag])[n] == flag;
      ghost var c, g := plan[n], Registers();
      rxAppDoubleAccessFlag := flag;
      rxAppState := RXAPP_STREAM;
      left1 := Read(storage, if Splits(c) then First(c) else c);
      left2 := if Splits(c) then Read(storage, Second(c)) else [];
      flagsIn := flagsIn + [flag];
      BeginKept(storage, g, wordsIn, out, old(left1), old(left2), n, plan);
      assert Registers() == g.(state := RXAPP_STREAM, flag := Splits(c)) && |flagsIn| == n + 1;
    }

    method TakeWord(w: Word, ghost data: seq<Word>) returns (outs: seq<Word>)
      requires Valid() && Reading(Registers()) && data != [] && w == data[0] && Expects(data)
      modifies this
      ensures Valid() && flagsIn == old(flagsIn) && wordsIn == old(wordsIn) + [w] && out == old(out) + outs
    {
      ghost var g := Registers();
      FirstExpected(wordsIn, data, BurstsOf(storage, Broken(plan)));
      KeptFit(storage, g, wordsIn, out, left1, left2, |flagsIn|, plan);
      outs := ReadOne(w);
      wordsIn, out := wordsIn + [w], out + outs;
      left2 := if left1 != [] then left2 else left2[Head(left2)..];
      left1 := if left1 != [] then left1[Head(left1)..] else [];
      ReadKept(storage, g, old(wordsIn), old(out), w, old(left1), old(left2), |flagsIn|, plan, outs, Registers());
    }

    method Residue() returns (outs: seq<Word>)
      requires Valid() && rxAppState == RXAPP_RESIDUE
      modifies this
      ensures Valid() && flagsIn == old(flagsIn) && wordsIn == old(wordsIn) && out == old(out) + outs && outs != []
      ensures rxAppState == RXAPP_IDLE
    {
      KeptFit(storage, Registers(), wordsIn, out, left1, left2, |flagsIn|, plan);
      var keep := ReturnKeep(rxAppOffsetBuffer);
      var w := Word(rxAppMemRdRxWord.data[8 - rxAppMemRdOffset..] + seq(8 - rxAppMemRdOffset, _ => 0), keep, true);
      outs := [w];
      ResidueKept(storage, Registers(), wordsIn, out, w, left1, left2, |flagsIn|, plan);
      rxAppState := RXAPP_IDLE;
      out := out + outs;
    }

    method ReadOne(w: Word) returns (outs: seq<Word>)
      requires Reading(Registers()) && |w.data| == 8 && |w.keep| == 8
      requires |Held(Registers())| <= 7
      requires rxAppState == RXAPP_JOIN || rxAppState == RXAPP_STREAMMERGED ==>
                 |rxAppMemRdRxWord.data| == 8 && 1 <= rxAppMemRdOffset <= 7
      modifies `rxAppState, `rxAppMemRdRxWord, `rxAppMemRdOffset, `rxAppOffsetBuffer
      ensures IsRead(old(Registers()), w, outs, Registers())
    {
      outs := ReadWord(w);
    }

    /** The registers' part of reading a word: the switch over the reading states.
        (RXAPP_IDLE handles the word after its flag just as RXAPP_STREAM does.) */
    method ReadWord(w: Word) returns (outs: seq<Word>)
      requires Reading(Registers()) && |w.data| == 8 && |w.keep| == 8
      requires |Held(Registers())| <= 7
      requires rxAppState == RXAPP_JOIN || rxAppState == RXAPP_STREAMMERGED ==>
                 |rxAppMemRdRxWord.data| == 8 && 1 <= rxAppMemRdOffset <= 7
      modifies `rxAppState, `rxAppMemRdRxWord, `rxAppMemRdOffset, `rxAppOffsetBuffer
      ensures Registers() == ReadNext(old(Registers()), w)
      ensures outs == ReadOut(old(Registers()), w)
    {
      if rxAppState == RXAPP_STREAM {
        outs := ReadStream(w);
      } else if rxAppState == RXAPP_STREAMUNMERGED {
        if w.last {
          rxAppState := RXAPP_IDLE;
        }
        outs := [w];
      } else {
        outs := ReadMerged(w);
      }
    }

    method ReadStream(w: Word) returns (outs: seq<Word>)
      requires rxAppState == RXAPP_STREAM && |w.data| == 8 && |w.keep| == 8
      modifies `rxAppState, `rxAppMemRdRxWord, `rxAppMemRdOffset
      ensures Registers() == ReadNext(old(Registers()), w)
      ensures |Held(old(Registers()))| <= 7 ==> outs == ReadOut(old(Registers()), w)
    {
      rxAppMemRdRxWord := w;
      rxAppMemRdOffset := KeepMapping(rxAppMemRdRxWord.keep);
      if rxAppMemRdRxWord.last && rxAppDoubleAccessFlag {
        rxAppMemRdRxWord := rxAppMemRdRxWord.(last := !rxAppDoubleAccessFlag);
        if rxAppMemRdOffset == 8 {
          outs := [rxAppMemRdRxWord];
          rxAppState := RXAPP_STREAMUNMERGED;
        } else {
          outs := [];
          rxAppState := RXAPP_JOIN;
        }
      } else if rxAppMemRdRxWord.last && !rxAppDoubleAccessFlag {
        outs := [rxAppMemRdRxWord];
        rxAppState := RXAPP_IDLE;
      } else {
        outs := [rxAppMemRdRxWord];
      }
    }

    /** RXAPP_JOIN and RXAPP_STREAMMERGED, which differ in the bytes held. */
    method ReadMerged(w: Word) returns (outs: seq<Word>)
      requires rxAppState == RXAPP_JOIN || rxAppState == RXAPP_STREAMMERGED
      requires |w.data| == 8 && |w.keep| == 8 && |rxAppMemRdRxWord.data| == 8 && 1 <= rxAppMemRdOffset <= 7
      modifies `rxAppState, `rxAppMemRdRxWord, `rxAppOffsetBuffer
      ensures Registers() == ReadNext(old(Registers()), w)
      ensures |Held(old(Registers()))| <= 7 ==> outs == ReadOut(old(Registers()), w)
    {
      var low := if rxAppState == RXAPP_JOIN then rxAppMemRdRxWord.data[..rxAppMemRdOffset]
                 else rxAppMemRdRxWord.data[8 - rxAppMemRdOffset..];
      rxAppMemRdRxWord := w;
      var temp := Word(low + rxAppMemRdRxWord.data[..8 - rxAppMemRdOffset], Low(8), false);
      var tempCounter := KeepMapping(rxAppMemRdRxWord.keep);
      rxAppOffsetBuffer := (tempCounter - (8 - rxAppMemRdOffset)) % 256;
      if rxAppMemRdRxWord.last {
        if tempCounter + rxAppMemRdOffset <= 8 {
          var keep := ReturnKeep(tempCounter + rxAppMemRdOffset);
          temp := temp.(keep := keep, last := true);
          rxAppState := RXAPP_IDLE;
        } else {
          rxAppState := RXAPP_RESIDUE;
        }
      } else {
        rxAppState := RXAPP_STREAMMERGED;
      }
      outs := [temp];
    }
  }
}

/** The three stages connected by streams, under every schedule. */
module RxAppPath {
  import opened Sealing
  import opened Arith
  import opened RxStream
  import opened RxMemory
  import opened RxFlow
  import opened RxBreakdown
  import opened RxMemoryPort
  import opened RxRealigner

  /** Who is called next, and what its environment looks like: whether its output
      is full, and what the lanes that are not kept happen to hold. */
  datatype Call =
    | Feed
    | Breakdown(outputFull: bool)
    | Memory(stale: seq<Byte>)
    | DataRead(rspFull: bool)

  lemma {:induction false} Dequeue<T>(done: seq<T>, read: seq<T>, q: seq<T>)
    requires read <= q
    ensures (done + read) + q[|read|..] == done + q
  {
    assert q == read + q[|read|..];
  }

  lemma {:induction false} BrokenValid(cs: seq<Cmd>)
    requires AllValid(cs)
    ensures AllValid(Broken(cs))
  {
    if cs != [] {
      BrokenValid(cs[1..]);
      if Splits(cs[0]) {
        SplitPartition((_, _) => 0, cs[0]);
      }
    }
  }

  lemma {:induction false} PlanSplit(reqs: seq<Cmd>, taken: seq<Cmd>, more: seq<Cmd>)
    requires AllValid(reqs) && reqs == taken + more
    ensures AllValid(taken) && AllValid(more) && Broken(reqs) == Broken(taken) + Broken(more)
    ensures SplitFlags(taken) <= SplitFlags(reqs)
  {
    assert forall i :: 0 <= i < |taken| ==> taken[i] == reqs[i];
    assert forall i :: 0 <= i < |more| ==> more[i] == reqs[|taken| + i];
    BrokenAppend(taken, more);
  }

  /** The commands in the streams are valid. */
  lemma {:induction false} CommandsValid(taken: seq<Cmd>, issued: seq<Cmd>, pending: seq<Cmd>, served: seq<Cmd>,
                                         cmds: seq<Cmd>)
    requires AllValid(taken) && issued + pending == Broken(taken) && issued == served + cmds
    ensures AllValid(cmds)
  {
    BrokenValid(taken);
    forall i | 0 <= i < |cmds| ensures cmds[i].Valid() {
      assert cmds[i] == (issued + pending)[|served| + i];
    }
  }

  /** The words in the streams are a prefix of what the plan calls for. */
  lemma {:induction false} WordsExpected(mem: Storage, reqs: seq<Cmd>, taken: seq<Cmd>, more: seq<Cmd>,
                                         issued: seq<Cmd>, pending: seq<Cmd>, served: seq<Cmd>, cmds: seq<Cmd>,
                                         words: seq<Word>, serving: seq<Byte>)
    requires AllValid(reqs) && reqs == taken + more && AllValid(taken)
    requires issued + pending == Broken(taken) && issued == served + cmds
    requires Views(words) + Burst(serving) == BurstsOf(mem, served)
    ensures Views(words) <= BurstsOf(mem, Broken(reqs))
  {
    PlanSplit(reqs, taken, more);
    var r := cmds + (pending + Broken(more));
    Assoc(served, cmds, pending);
    Assoc(served, cmds + pending, Broken(more));
    Assoc(cmds, pending, Broken(more));
    BurstsAppend(mem, served, r);
    Assoc(Views(words), Burst(serving), BurstsOf(mem, r));
  }

  /** When no stage can move, nothing is left to be output. */
  lemma {:induction false} NothingLeft(mem: Storage, reqs: seq<Cmd>, served: seq<Cmd>, words: seq<Word>, g: Regs,
                                       flagsIn: seq<bool>, flags: seq<bool>, wordsIn: seq<Word>, data: seq<Word>,
                                       out: seq<Word>, left1: seq<Byte>, left2: seq<Byte>)
    requires AllValid(reqs) && served == Broken(reqs) && Views(words) == BurstsOf(mem, served)
    requires flagsIn + flags == SplitFlags(reqs) && words == wordsIn + data
    requires Keeps(mem, g, wordsIn, out, left1, left2, reqs[|flagsIn|..], reqs)
    requires g.state != RXAPP_RESIDUE && (data == [] || (g.state == RXAPP_IDLE && flags == []))
    ensures g.state == RXAPP_IDLE && Views(out) == BurstsOf(mem, reqs)
  {
    var todo := reqs[|flagsIn|..];
    var rest := Burst(left1) + (Burst(left2) + BurstsOf(mem, Broken(todo)));
    assert Views(words) == Views(wordsIn) + Views(data);
    assert Views(data) == rest by {
      assert (Views(wordsIn) + Views(data))[|wordsIn|..] == Views(data);
      assert (Views(wordsIn) + rest)[|wordsIn|..] == rest;
    }
    if data == [] {
      assert rest == [] && Burst(left1) == [] && Burst(left2) == [];
      assert left1 == [] && left2 == [];
      if todo != [] {
        BrokenHead(mem, todo);
      }
    }
    assert Held(g) + (left1 + left2) == [] && todo == [];
  }

  lemma {:induction false} BrokenHead(mem: Storage, cs: seq<Cmd>)
    requires AllValid(cs) && cs != []
    ensures BurstsOf(mem, Broken(cs)) != []
  {
    var c := if Splits(cs[0]) then First(cs[0]) else cs[0];
    assert Broken(cs)[0] == c && |Burst(Read(mem, c))| > 0;
  }

  class RxPath {
    ghost const reqs: seq<Cmd>   // every request of the run
    const bd: RxAppMemAccessBreakdown
    const dm: DummyMemory
    const rd: RxAppMemDataRead
    ghost var toCome: seq<Cmd>   // requests that have not arrived yet
    var inputMemAccess: seq<Cmd>
    var rxBufferReadCmd: seq<Cmd>
    var rxAppDoubleAccess: seq<bool>
    var rxBufferReadData: seq<Word>
    var rxDataRsp: seq<Word>

    ghost predicate Valid()
      reads this, bd, dm, rd
    {
      forall k {:trigger Opened(k)} :: Opened(k) && k == PATH ==> bd.Valid() && dm.Valid() && rd.Valid() && Linked()
    }

    static const PATH: nat := 35

    /** How the histories of the stages fit together: each stream holds what has
        been written to it but not yet read. */
    ghost predicate Linked()
      reads this, bd, dm, rd
    {
      && AllValid(reqs) && rd.plan == reqs && rd.storage == dm.storage
      && bd.taken + (inputMemAccess + toCome) == reqs
      && bd.issued == dm.served + rxBufferReadCmd
      && bd.flags == rd.flagsIn + rxAppDoubleAccess
      && dm.words == rd.wordsIn + rxBufferReadData
      && rxDataRsp == rd.out
    }

    constructor (storage: Storage, ghost reqs: seq<Cmd>)
      requires AllValid(reqs)
      ensures Valid() && fresh(bd) && fresh(dm) && fresh(rd) && this.reqs == reqs && toCome == reqs
      ensures dm.storage == storage
    {
      this.reqs, toCome := reqs, reqs;
      bd := new RxAppMemAccessBreakdown();
      dm := new DummyMemory(storage);
      rd := new RxAppMemDataRead(storage, reqs);
      inputMemAccess, rxBufferReadCmd, rxAppDoubleAccess, rxBufferReadData, rxDataRsp := [], [], [], [], [];
    }

    method Arrive(c: Cmd)
      requires Valid() && toCome != [] && c == toCome[0]
      modifies this`inputMemAccess, this`toCome
      ensures Valid() && toCome == old(toCome)[1..]
    {
      assert Opened(PATH);
      Assoc(inputMemAccess, [c], toCome[1..]);
      assert toCome == [c] + toCome[1..];
      inputMemAccess, toCome := inputMemAccess + [c], toCome[1..];
    }

    method CallBreakdown(outputFull: bool)
      requires Valid()
      modifies this`inputMemAccess, this`rxBufferReadCmd, this`rxAppDoubleAccess, bd
      ensures Valid()
      ensures !outputFull && old(BreakdownCanMove()) ==>
                || |inputMemAccess| < old(|inputMemAccess|)
                || (inputMemAccess == old(inputMemAccess) && old(bd.rxAppBreakdown) && !bd.rxAppBreakdown)
    {
      assert Opened(PATH);
      InputValid();
      var read, cmds, fs := bd.Step(inputMemAccess, outputFull);
      Dequeue(old(bd.taken), read, inputMemAccess);
      Assoc(old(bd.taken), inputMemAccess, toCome);
      Assoc(bd.taken, inputMemAccess[|read|..], toCome);
      Assoc(dm.served, rxBufferReadCmd, cmds);
      Assoc(rd.flagsIn, rxAppDoubleAccess, fs);
      inputMemAccess := inputMemAccess[|read|..];
      rxBufferReadCmd := rxBufferReadCmd + cmds;
      rxAppDoubleAccess := rxAppDoubleAccess + fs;
    }

    lemma {:induction false} InputValid()
      requires Valid()
      ensures AllValid(inputMemAccess)
    {
      assert Opened(PATH);
      forall i | 0 <= i < |inputMemAccess| ensures inputMemAccess[i].Valid() {
        assert inputMemAccess[i] == reqs[|bd.taken| + i];
      }
    }

    method CallMemory(stale: seq<Byte>)
      requires Valid() && |stale| == 8
      modifies this`rxBufferReadCmd, this`rxBufferReadData, dm
      ensures Valid()
      ensures old(MemoryCanMove()) ==>
                || |rxBufferReadCmd| < old(|rxBufferReadCmd|)
                || (rxBufferReadCmd == old(rxBufferReadCmd) && old(dm.stxRead)
                    && (!dm.stxRead || dm.readLen < old(dm.readLen)))
    {
      assert Opened(PATH);
      CommandsValid(bd.taken, bd.issued, bd.Pending(), dm.served, rxBufferReadCmd);
      var read, ws := dm.Step(rxBufferReadCmd, stale);
      Dequeue(old(dm.served), read, rxBufferReadCmd);
      Assoc(rd.wordsIn, rxBufferReadData, ws);
      rxBufferReadCmd := rxBufferReadCmd[|read|..];
      rxBufferReadData := rxBufferReadData + ws;
    }

    method CallDataRead(rspFull: bool)
      requires Valid()
      modifies this`rxAppDoubleAccess, this`rxBufferReadData, this`rxDataRsp, rd
      ensures Valid() && old(rxDataRsp) <= rxDataRsp
      ensures !rspFull && old(DataReadCanMove()) ==>
                || |rxBufferReadData| < old(|rxBufferReadData|)
                || (rxBufferReadData == old(rxBufferReadData) && old(rd.rxAppState) == RXAPP_RESIDUE
                    && rd.rxAppState == RXAPP_IDLE)
    {
      assert Opened(PATH);
      DataExpected();
      var fs, ws, outs := rd.Step(rxAppDoubleAccess, rxBufferReadData, rspFull);
      Dequeue(old(rd.flagsIn), fs, rxAppDoubleAccess);
      Dequeue(old(rd.wordsIn), ws, rxBufferReadData);
      rxAppDoubleAccess := rxAppDoubleAccess[|fs|..];
      rxBufferReadData := rxBufferReadData[|ws|..];
      rxDataRsp := rxDataRsp + outs;
    }

    lemma {:induction false} DataExpected()
      requires Valid()
      ensures rd.flagsIn + rxAppDoubleAccess <= SplitFlags(rd.plan) && rd.Expects(rxBufferReadData)
    {
      assert Opened(PATH);
      assert Opened(DummyMemory.MEMORY);
      PlanSplit(reqs, bd.taken, inputMemAccess + toCome);
      WordsExpected(dm.storage, reqs, bd.taken, inputMemAccess + toCome, bd.issued, bd.Pending(), dm.served,
                    rxBufferReadCmd, dm.words, dm.Serving());
      forall i | 0 <= i < |rxBufferReadData| ensures WellFormed(rxBufferReadData[i]) {
        assert rxBufferReadData[i] == dm.words[|rd.wordsIn| + i];
      }
    }

    // Can a stage do something as long as no stream is full?

    predicate BreakdownCanMove()
      reads this, bd
    {
      inputMemAccess != [] || bd.rxAppBreakdown
    }

    predicate MemoryCanMove()
      reads this, dm
    {
      rxBufferReadCmd != [] || dm.stxRead
    }

    predicate DataReadCanMove()
      reads this, rd
    {
      || rd.rxAppState == RXAPP_RESIDUE
      || (rxBufferReadData != [] && (rd.rxAppState != RXAPP_IDLE || rxAppDoubleAccess != []))
    }

    predicate CanMove()
      reads this, bd, dm, rd
    {
      BreakdownCanMove() || MemoryCanMove() || DataReadCanMove()
    }

    /** Calls without full streams until no stage can move. */
    method Settle(stale: seq<Byte>)
      requires Valid() && |stale| == 8
      modifies this, bd, dm, rd
      ensures Valid() && !CanMove() && toCome == old(toCome) && old(rxDataRsp) <= rxDataRsp
    {
      while CanMove()
        invariant Valid() && toCome == old(toCome) && old(rxDataRsp) <= rxDataRsp
        decreases |inputMemAccess|, if bd.rxAppBreakdown then 1 else 0,
                  |rxBufferReadCmd|, if dm.stxRead then 1 else 0, dm.readLen,
                  |rxBufferReadData|, if rd.rxAppState == RXAPP_RESIDUE then 1 else 0
      {
        if BreakdownCanMove() {
          CallBreakdown(false);
        } else if MemoryCanMove() {
          CallMemory(stale);
        } else {
          CallDataRead(false);
        }
      }
    }

    /** Safety and absence of deadlock. */
    lemma {:induction false} Delivered()
      requires Valid()
      ensures forall i :: 0 <= i < |rxDataRsp| ==> WellFormed(rxDataRsp[i])
      ensures Views(rxDataRsp) <= BurstsOf(dm.storage, reqs)
      ensures !CanMove() && toCome == [] ==>
                Views(rxDataRsp) == BurstsOf(dm.storage, reqs) && rd.rxAppState == RXAPP_IDLE
    {
      assert Opened(PATH);
      assert Opened(REALIGN) && Opened(DummyMemory.MEMORY);
      if !CanMove() && toCome == [] {
        assert bd.taken == reqs;
        NothingLeft(dm.storage, reqs, dm.served, dm.words, rd.Registers(), rd.flagsIn, rxAppDoubleAccess, rd.wordsIn,
                    rxBufferReadData, rd.out, rd.left1, rd.left2);
      }
    }
  }

  /** All requests are read back exactly as from a memory that needs no splitting:
      whatever the schedule of calls, arrivals and full streams, the response stream
      carries the words of the unsplit wrapping reads once the rest of the requests has
      arrived and the stages have been called until none of them can move; and at the
      end of the schedule it carries a first part of them. */
  method Simulate(storage: Storage, reqs: seq<Cmd>, schedule: seq<Call>, stale: seq<Byte>)
    returns (early: seq<Word>, rxDataRsp: seq<Word>, state: RxAppState)
    requires AllValid(reqs) && |stale| == 8
    requires forall i :: 0 <= i < |schedule| && schedule[i].Memory? ==> |schedule[i].stale| == 8
    ensures forall i :: 0 <= i < |rxDataRsp| ==> WellFormed(rxDataRsp[i])
    ensures early <= rxDataRsp && Views(rxDataRsp) == BurstsOf(storage, reqs) && state == RXAPP_IDLE
  {
    var p := new RxPath(storage, reqs);
    var fed := 0;
    for i := 0 to |schedule|
      invariant p.Valid() && fresh(p) && fresh(p.bd) && fresh(p.dm) && fresh(p.rd)
      invariant p.reqs == reqs && p.dm.storage == storage
      invariant fed <= |reqs| && p.toCome == reqs[fed..]
    {
      match schedule[i] {
        case Feed =>
          if fed < |reqs| {
            p.Arrive(reqs[fed]);
            fed := fed + 1;
          }
        case Breakdown(full) => p.CallBreakdown(full);
        case Memory(stale) => p.CallMemory(stale);
        case DataRead(full) => p.CallDataRead(full);
      }
    }
    early := p.rxDataRsp;
    while fed < |reqs|
      invariant p.Valid() && fresh(p) && fresh(p.bd) && fresh(p.dm) && fresh(p.rd)
      invariant p.reqs == reqs && p.dm.storage == storage
      invariant fed <= |reqs| && p.toCome == reqs[fed..] && p.rxDataRsp == early
    {
      p.Arrive(reqs[fed]);
      fed := fed + 1;
    }
    p.Settle(stale);
    p.Delivered();
    rxDataRsp, state := p.rxDataRsp, p.rd.rxAppState;
  }
}
