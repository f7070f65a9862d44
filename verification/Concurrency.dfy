/** The hash table's memory and the rule under which operations may be in flight
    together. */
module BucketMemory {
  type Line = int   // a 512 bit word

  /** A request of the hash table: GET is 0, SET 1, DELETE 4, flush 8. */
  datatype Op = Op(hash: nat, operation: nat, keyLength: nat)

  datatype Write = Write(line: nat, data: Line)

  /** The address the filter compares: bits 6 to 0 of the hash in a six bit field. */
  function FilterAddress(hash: nat): nat {
    hash % 128 % 64
  }

  /** The bucket whose lines memRead asks for. */
  function Bucket(hash: nat): nat {
    hash % 128
  }

  function Base(op: Op): nat {
    8 * Bucket(op.hash)
  }

  /** One line of metadata and one line for each sixteen bytes of the key. */
  function Lines(keyLength: nat): nat {
    1 + (keyLength + 15) / 16
  }

  ghost predicate Touches(op: Op, line: nat) {
    Base(op) <= line < Base(op) + Lines(op.keyLength)
  }

  /** While x is in flight, y has to wait. */
  predicate Blocks(x: Op, y: Op) {
    x.operation == 8 || ((x.operation == 1 || x.operation == 4) && FilterAddress(x.hash) == FilterAddress(y.hash))
  }

  /** Operation n was let into the pipeline when those before number low[n] had
      completed; none of the others blocks it. */
  ghost predicate HazardFree(ops: seq<Op>, low: seq<nat>) {
    |low| == |ops| && forall n :: 0 <= n < |ops| ==> low[n] <= n && Unblocked(ops, low[n], n)
  }

  ghost predicate Unblocked(ops: seq<Op>, from: nat, n: nat)
    requires n < |ops|
  {
    forall i :: from <= i < n ==> !Blocks(ops[i], ops[n])
  }

  ghost predicate ShortKeys(ops: seq<Op>, max: nat) {
    forall i :: 0 <= i < |ops| ==> ops[i].keyLength <= max
  }

  /** Different buckets never share a line exactly when keys have at most 112
      bytes. */
  lemma {:induction false} FootprintsDisjoint(max: nat)
    ensures (forall x: Op, y: Op, line: nat ::
               x.keyLength <= max && y.keyLength <= max && Touches(x, line) && Touches(y, line)
               ==> Bucket(x.hash) == Bucket(y.hash))
            <==> max <= 112
  {
    if max > 112 {
      var x, y := Op(0, 1, 113), Op(1, 0, 1);
      assert Touches(x, 8) && Touches(y, 8);
    } else {
      forall x: Op, y: Op, line: nat | x.keyLength <= max && y.keyLength <= max && Touches(x, line) && Touches(y, line)
        ensures Bucket(x.hash) == Bucket(y.hash)
      {}
    }
  }

  /** What a memory line holds after the writes of the log. */
  function LineAt(init: nat -> Line, log: seq<Write>, line: nat): Line {
    if log == [] then init(line)
    else if log[|log| - 1].line == line then log[|log| - 1].data
    else LineAt(init, log[..|log| - 1], line)
  }

  /** How many lines are read for an operation. */
  function ReadCount(op: Op): nat {
    if op.operation == 8 then 0 else Lines(op.keyLength)
  }

  /** The line writes of an operation whose outcome is `out`: a SET may write all
      lines it has read, a DELETE only the first, a flush clears lines 0 to 1022. */
  function Writes(op: Op, out: seq<Line>): seq<Write> {
    if op.operation == 1 then WriteBack(Base(op), Lines(op.keyLength), out)
    else if op.operation == 4 then WriteBack(Base(op), 1, out)
    else if op.operation == 8 then seq(1023, i requires 0 <= i < 1023 => Write(i, 0))
    else []
  }

  function WriteBack(base: nat, max: nat, out: seq<Line>): (ws: seq<Write>)
    ensures |ws| <= max && forall i :: 0 <= i < |ws| ==> ws[i].line == base + i
  {
    seq(if |out| < max then |out| else max, i requires 0 <= i < |out| => Write(base + i, out[i]))
  }

  /** One operation after the other: each reads what all before it have written. */
  function SerialLog(init: nat -> Line, ops: seq<Op>, compute: (nat, seq<Line>) -> seq<Line>, n: nat): seq<Write>
    requires n <= |ops|
  {
    if n == 0 then []
    else
      var log := SerialLog(init, ops, compute, n - 1);
      log + Writes(ops[n - 1], compute(n - 1, SerialRead(init, ops[n - 1], log)))
  }

  function SerialRead(init: nat -> Line, op: Op, log: seq<Write>): seq<Line> {
    seq(ReadCount(op), k requires 0 <= k < ReadCount(op) => LineAt(init, log, Base(op) + k))
  }

  /** Operation n reads each of its lines at some moment while it is in flight: all
      writes of the operations before low[n] have been made by then, and none of its
      own or later ones. Operation n then writes what `compute` makes of the lines. */
  ghost predicate Overlapped(init: nat -> Line, ops: seq<Op>, low: seq<nat>, compute: (nat, seq<Line>) -> seq<Line>,
                             logs: seq<seq<Write>>, got: seq<seq<Line>>) {
    && |logs| == |ops| + 1 && |got| == |ops| == |low| && logs[0] == []
    && (forall n :: 0 <= n < |ops| ==> low[n] <= n)
    && (forall n :: 0 <= n < |ops| ==> OneOp(init, ops[n], n, compute, logs[low[n]], logs[n], got[n], logs[n + 1]))
  }

  ghost predicate OneOp(init: nat -> Line, op: Op, n: nat, compute: (nat, seq<Line>) -> seq<Line>,
                        start: seq<Write>, log: seq<Write>, read: seq<Line>, next: seq<Write>) {
    && next == log + Writes(op, compute(n, read))
    && |read| == ReadCount(op)
    && forall k :: 0 <= k < |read| ==> ReadBetween(init, log, |start|, Base(op) + k, read[k])
  }

  ghost predicate ReadBetween(init: nat -> Line, log: seq<Write>, from: nat, line: nat, data: Line) {
    exists t :: from <= t <= |log| && data == LineAt(init, log[..t], line)
  }

  lemma {:induction false} Untouched(init: nat -> Line, log: seq<Write>, t: nat, line: nat)
    requires t <= |log| && forall i :: t <= i < |log| ==> log[i].line != line
    ensures LineAt(init, log[..t], line) == LineAt(init, log, line)
    decreases |log|
  {
    if t < |log| {
      var shorter := log[..|log| - 1];
      assert shorter[..t] == log[..t];
      Untouched(init, shorter, t, line);
    } else {
      assert log[..t] == log;
    }
  }

  /** The writes that operations m to n - 1 have added to the log miss the lines of
      an operation that none of them blocks. */
  lemma {:induction false} OthersMiss(init: nat -> Line, ops: seq<Op>, low: seq<nat>,
                                      compute: (nat, seq<Line>) -> seq<Line>, logs: seq<seq<Write>>,
                                      got: seq<seq<Line>>, m: nat, n: nat, x: Op, line: nat)
    requires Overlapped(init, ops, low, compute, logs, got) && m <= n <= |ops| && ShortKeys(ops, 112)
    requires Touches(x, line) && x.keyLength <= 112 && forall i :: m <= i < n ==> !Blocks(ops[i], x)
    ensures |logs[m]| <= |logs[n]| && forall i :: |logs[m]| <= i < |logs[n]| ==> logs[n][i].line != line
    decreases n
  {
    if m < n {
      OthersMiss(init, ops, low, compute, logs, got, m, n - 1, x, line);
      assert OneOp(init, ops[n - 1], n - 1, compute, logs[low[n - 1]], logs[n - 1], got[n - 1], logs[n - 1 + 1]);
      WritesMiss(ops[n - 1], compute(n - 1, got[n - 1]), x, line);
    }
  }

  lemma {:induction false} WritesMiss(op: Op, out: seq<Line>, x: Op, line: nat)
    requires op.keyLength <= 112 && x.keyLength <= 112 && Touches(x, line) && !Blocks(op, x)
    ensures forall i :: 0 <= i < |Writes(op, out)| ==> Writes(op, out)[i].line != line
  {
    if op.operation == 1 || op.operation == 4 {
      assert Bucket(op.hash) != Bucket(x.hash);
    }
  }

  /** No operation reads a stale line: it reads exactly what it would read after
      all earlier operations have finished. */
  lemma {:induction false} ReadsAreFresh(init: nat -> Line, ops: seq<Op>, low: seq<nat>,
                                         compute: (nat, seq<Line>) -> seq<Line>, logs: seq<seq<Write>>,
                                         got: seq<seq<Line>>, n: nat)
    requires Overlapped(init, ops, low, compute, logs, got) && HazardFree(ops, low) && ShortKeys(ops, 112)
    requires n < |ops|
    ensures got[n] == SerialRead(init, ops[n], logs[n])
  {
    var op := ops[n];
    assert OneOp(init, op, n, compute, logs[low[n]], logs[n], got[n], logs[n + 1]);
    assert Unblocked(ops, low[n], n);
    forall k | 0 <= k < |got[n]| ensures got[n][k] == LineAt(init, logs[n], Base(op) + k) {
      assert ReadBetween(init, logs[n], |logs[low[n]]|, Base(op) + k, got[n][k]);
      var t :| |logs[low[n]]| <= t <= |logs[n]| && got[n][k] == LineAt(init, logs[n][..t], Base(op) + k);
      OthersMiss(init, ops, low, compute, logs, got, low[n], n, op, Base(op) + k);
      Untouched(init, logs[n], t, Base(op) + k);
    }
  }

  /** Every overlapped execution that the filter admits is the serial one: the same
      lines are read and the same writes are made in the same order. */
  lemma {:induction false} Serializable(init: nat -> Line, ops: seq<Op>, low: seq<nat>,
                                        compute: (nat, seq<Line>) -> seq<Line>, logs: seq<seq<Write>>,
                                        got: seq<seq<Line>>, n: nat)
    requires Overlapped(init, ops, low, compute, logs, got) && HazardFree(ops, low) && ShortKeys(ops, 112)
    requires n <= |ops|
    ensures logs[n] == SerialLog(init, ops, compute, n)
    ensures n < |ops| ==> got[n] == SerialRead(init, ops[n], SerialLog(init, ops, compute, n))
  {
    if n > 0 {
      Serializable(init, ops, low, compute, logs, got, n - 1);
      assert OneOp(init, ops[n - 1], n - 1, compute, logs[low[n - 1]], logs[n - 1], got[n - 1], logs[n - 1 + 1]);
    }
    if n < |ops| {
      ReadsAreFresh(init, ops, low, compute, logs, got, n);
    }
  }

  // A SET of bucket 0 with a key of 113 bytes has a line in common with a GET of
  // bucket 1.
  const LONG_SET: Op := Op(0, 1, 113)
  const NEXT_GET: Op := Op(1, 0, 1)

  /** The SET fills its nine lines with ones. */
  function AllOnes(n: nat, lines: seq<Line>): seq<Line> {
    if n == 0 then seq(9, i => 1) else []
  }

  function Zero(line: nat): Line {
    0
  }

  lemma {:induction false} OnesRead(lines: seq<Line>)
    ensures var log := Writes(LONG_SET, AllOnes(0, lines));
            var before, after := SerialRead(Zero, NEXT_GET, []), SerialRead(Zero, NEXT_GET, log);
            |before| == |after| > 0 && before[0] == 0 && after[0] == 1
  {
    var log := Writes(LONG_SET, AllOnes(0, lines));
    assert Lines(113) == 9 && log == WriteBack(0, 9, AllOnes(0, lines));
    assert log[8] == Write(8, 1);
    assert LineAt(Zero, log, 8) == 1;
    assert Base(NEXT_GET) == 8;
    assert SerialRead(Zero, NEXT_GET, log)[0] == LineAt(Zero, log, 8 + 0);
    assert SerialRead(Zero, NEXT_GET, [])[0] == LineAt(Zero, [], 8 + 0);
  }

  lemma {:induction false} ReadsAtStart(op: Op, log: seq<Write>)
    ensures forall k :: 0 <= k < ReadCount(op) ==> ReadBetween(Zero, log, 0, Base(op) + k, SerialRead(Zero, op, [])[k])
  {
    forall k | 0 <= k < ReadCount(op) ensures ReadBetween(Zero, log, 0, Base(op) + k, SerialRead(Zero, op, [])[k]) {
      assert LineAt(Zero, log[..0], Base(op) + k) == 0;
    }
  }

  /** The limit is exact: with longer keys, which the sources allow up to 128 bytes,
      the filter admits a run with a stale read. */
  lemma {:induction false} StaleRead(max: nat)
    returns (ops: seq<Op>, low: seq<nat>, logs: seq<seq<Write>>, got: seq<seq<Line>>)
    requires max > 112
    ensures Overlapped(Zero, ops, low, AllOnes, logs, got) && HazardFree(ops, low) && ShortKeys(ops, max)
    ensures |ops| == 2 && got[1] != SerialRead(Zero, ops[1], SerialLog(Zero, ops, AllOnes, 1))
  {
    ops, low := [LONG_SET, NEXT_GET], [0, 0];
    var r0, r1 := SerialRead(Zero, LONG_SET, []), SerialRead(Zero, NEXT_GET, []);
    var log := Writes(LONG_SET, AllOnes(0, r0));
    got, logs := [r0, r1], [[], log, log];
    FirstOp(log, r0);
    SecondOp(log, r1);
    TwoOps(Zero, LONG_SET, NEXT_GET, AllOnes, log, r0, r1);
    assert SerialLog(Zero, ops, AllOnes, 0) == [];
    assert SerialLog(Zero, ops, AllOnes, 1) == [] + log == log;
    OnesRead(r0);
  }

  lemma {:induction false} FirstOp(log: seq<Write>, r0: seq<Line>)
    requires r0 == SerialRead(Zero, LONG_SET, []) && log == Writes(LONG_SET, AllOnes(0, r0))
    ensures OneOp(Zero, LONG_SET, 0, AllOnes, [], [], r0, log)
  {
    ReadsAtStart(LONG_SET, []);
    assert [] + log == log;
  }

  lemma {:induction false} SecondOp(log: seq<Write>, r1: seq<Line>)
    requires r1 == SerialRead(Zero, NEXT_GET, [])
    ensures OneOp(Zero, NEXT_GET, 1, AllOnes, [], log, r1, log)
  {
    ReadsAtStart(NEXT_GET, log);
    assert log + Writes(NEXT_GET, AllOnes(1, r1)) == log;
  }

  lemma {:induction false} TwoOps(init: nat -> Line, x: Op, y: Op, compute: (nat, seq<Line>) -> seq<Line>,
                                  log: seq<Write>, r0: seq<Line>, r1: seq<Line>)
    requires OneOp(init, x, 0, compute, [], [], r0, log) && OneOp(init, y, 1, compute, [], log, r1, log)
    ensures Overlapped(init, [x, y], [0, 0], compute, [[], log, log], [r0, r1])
  {
    var ops, low, logs, got := [x, y], [0, 0], [[], log, log], [r0, r1];
    forall n | 0 <= n < 2 ensures OneOp(init, ops[n], n, compute, logs[low[n]], logs[n], got[n], logs[n + 1]) {
      if n == 1 {
        assert logs[n + 1] == log;
      }
    }
  }
}

/** concurrencyFilter: a ring of eight entries for the operations in flight. */
module FilterRing {
  datatype CcWord = CcWord(address: nat, operation: nat, status: nat)

  /** Slot number i, counted from rdPtr on. */
  function Slot(rdPtr: nat, i: nat): (k: nat)
    requires rdPtr < 8 && i <= 8
    ensures k < 8
  {
    if rdPtr + i < 8 then rdPtr + i else rdPtr + i - 8
  }

  /** The slots outside the window of `level` entries from rdPtr on are invalid. */
  ghost predicate Ring(slots: seq<CcWord>, rdPtr: nat, level: nat) {
    && |slots| == 8 && rdPtr < 8 && level <= 8
    && forall i :: level <= i < 8 ==> slots[Slot(rdPtr, i)].status == 0
  }

  function Window(slots: seq<CcWord>, rdPtr: nat, level: nat): seq<CcWord>
    requires |slots| == 8 && rdPtr < 8 && level <= 8
  {
    seq(level, i requires 0 <= i < level => slots[Slot(rdPtr, i)])
  }

  /** The valid entry e keeps an operation like x waiting. */
  predicate Holds(e: CcWord, x: CcWord) {
    e.status == 1 && ((x.address == e.address && (e.operation == 1 || e.operation == 4)) || e.operation == 8)
  }

  ghost predicate Conflicts(q: seq<CcWord>, x: CcWord) {
    exists i :: 0 <= i < |q| && Holds(q[i], x)
  }

  lemma {:induction false} PushRing(slots: seq<CcWord>, rdPtr: nat, level: nat, e: CcWord)
    requires Ring(slots, rdPtr, level) && level < 8
    ensures var pushed := slots[Slot(rdPtr, level) := e];
            Ring(pushed, rdPtr, level + 1) && Window(pushed, rdPtr, level + 1) == Window(slots, rdPtr, level) + [e]
  {}

  lemma {:induction false} PopRing(slots: seq<CcWord>, rdPtr: nat, level: nat, e: CcWord)
    requires Ring(slots, rdPtr, level) && level > 0 && e.status == 0
    ensures var popped := slots[rdPtr := e];
            Ring(popped, Slot(rdPtr, 1), level - 1)
            && Window(popped, Slot(rdPtr, 1), level - 1) == Window(slots, rdPtr, level)[1..]
  {
    var popped := slots[rdPtr := e];
    forall i | level - 1 <= i < 8 ensures popped[Slot(Slot(rdPtr, 1), i)].status == 0 {
      if i < 7 {
        assert Slot(Slot(rdPtr, 1), i) == Slot(rdPtr, i + 1);
      } else {
        assert Slot(Slot(rdPtr, 1), i) == rdPtr;
      }
    }
    forall i | 0 <= i < level - 1
      ensures Window(popped, Slot(rdPtr, 1), level - 1)[i] == Window(slots, rdPtr, level)[1..][i]
    {
      assert Slot(Slot(rdPtr, 1), i) == Slot(rdPtr, i + 1);
    }
  }

  /** Searching all eight slots is searching the queue. */
  lemma {:induction false} SlotsAreWindow(slots: seq<CcWord>, rdPtr: nat, level: nat, x: CcWord)
    requires Ring(slots, rdPtr, level)
    ensures Conflicts(slots, x) <==> Conflicts(Window(slots, rdPtr, level), x)
  {
    if Conflicts(slots, x) {
      var k :| 0 <= k < |slots| && Holds(slots[k], x);
      var i := if k >= rdPtr then k - rdPtr else k + 8 - rdPtr;
      assert slots[Slot(rdPtr, i)] == slots[k];
      assert Holds(Window(slots, rdPtr, level)[i], x);
    }
  }

  class ConcurrencyFilter {
    var wrPtr: nat
    var rdPtr: nat
    var level: nat
    const filterEntries: array<CcWord>

    ghost predicate Valid()
      reads this, filterEntries
    {
      filterEntries.Length == 8 && Ring(filterEntries[..], rdPtr, level) && wrPtr == Slot(rdPtr, level)
    }

    /** The ring is a queue of at most eight entries. */
    ghost function Contents(): (q: seq<CcWord>)
      requires Valid()
      reads this, filterEntries
      ensures |q| == level <= 8
    {
      Window(filterEntries[..], rdPtr, level)
    }

    constructor ()
      ensures Valid() && Contents() == [] && fresh(filterEntries)
    {
      wrPtr, rdPtr, level := 0, 0, 0;
      filterEntries := new CcWord[8](_ => CcWord(0, 0, 0));
    }

    method Push(newElement: CcWord) returns (ok: bool)
      requires Valid()
      modifies this, filterEntries
      ensures Valid() && ok == (|old(Contents())| < 8)
      ensures Contents() == if ok then old(Contents()) + [newElement] else old(Contents())
    {
      if level < 8 {
        PushRing(filterEntries[..], rdPtr, level, newElement);
        filterEntries[wrPtr] := newElement;
        assert filterEntries[..] == old(filterEntries[..])[wrPtr := newElement];
        wrPtr := if wrPtr == 7 then 0 else wrPtr + 1;
        level := level + 1;
        return true;
      } else {
        return false;
      }
    }

    /** The level is an eight bit number: popping an empty filter corrupts it. */
    method Pop() returns (ok: bool)
      requires Valid()
      modifies this, filterEntries
      ensures ok
      ensures if old(level) > 0 then Valid() && Contents() == old(Contents())[1..] else level == 255
    {
      var cleared := CcWord(0, filterEntries[rdPtr].operation, 0);
      if level > 0 {
        PopRing(filterEntries[..], rdPtr, level, cleared);
      }
      filterEntries[rdPtr] := cleared;
      assert filterEntries[..] == old(filterEntries[..])[rdPtr := cleared];
      rdPtr := if rdPtr == 7 then 0 else rdPtr + 1;
      level := (level + 255) % 256;
      return true;
    }

    method Compare(compareElement: CcWord) returns (hit: bool)
      requires Valid()
      ensures hit <==> Conflicts(Contents(), compareElement)
    {
      SlotsAreWindow(filterEntries[..], rdPtr, level, compareElement);
      for i := 0 to 8
        invariant forall k :: 0 <= k < i ==> !Holds(filterEntries[..][k], compareElement)
      {
        var e := filterEntries[i];
        if (e.status == 1 && compareElement.address == e.address && (e.operation == 1 || e.operation == 4))
           || (e.operation == 8 && e.status == 1)
        {
          assert Holds(filterEntries[..][i], compareElement);
          return true;
        }
      }
      return false;
    }

    method Full() returns (full: bool)
      requires Valid()
      ensures full <==> |Contents()| == 8
    {
      full := level == 8;
    }
  }
}

/** concurrencyControl: keeps a request waiting while an operation in flight blocks
    it. */
module CcStage {
  import opened Sealing
  import opened BucketMemory
  import opened FilterRing
  import opened KeyResizerStage

  datatype Md = Md(operation: nat, metadata: nat, keyLength: nat, valueLength: nat)

  datatype CcState = CC_IDLE | CC_WAIT | CC_PUSH | CC_STREAM | CC_POP_IDLE | CC_POP_WAIT

  predicate Popping(state: CcState) {
    state == CC_POP_IDLE || state == CC_POP_WAIT
  }

  function OpOf(md: Md): Op {
    Op(md.metadata, md.operation, md.keyLength)
  }

  function Ops(mds: seq<Md>): (ops: seq<Op>)
    ensures |ops| == |mds|
  {
    seq(|mds|, i requires 0 <= i < |mds| => OpOf(mds[i]))
  }

  lemma {:induction false} OpsAppend(mds: seq<Md>, md: Md)
    ensures Ops(mds + [md]) == Ops(mds) + [OpOf(md)]
  {}

  function Entry(op: Op, status: nat): CcWord {
    CcWord(FilterAddress(op.hash), op.operation, status)
  }

  /** A request has been read but not yet passed on. */
  predicate Holding(state: CcState) {
    state == CC_WAIT || state == CC_PUSH || state == CC_POP_WAIT
  }

  /** The operations passed on, of which the first `popped` have completed and the
      others are in the filter. */
  ghost predicate Flight(ops: seq<Op>, low: seq<nat>, popped: nat, window: seq<CcWord>) {
    && HazardFree(ops, low)
    && popped + |window| == |ops|
    && (forall n :: 0 <= n < |low| ==> low[n] <= popped)
    && (forall i :: popped <= i < |ops| ==> window[i - popped] == Entry(ops[i], 1))
  }

  lemma {:induction false} FlightPush(ops: seq<Op>, low: seq<nat>, popped: nat, window: seq<CcWord>, op: Op)
    requires Flight(ops, low, popped, window) && !Conflicts(window, Entry(op, 0))
    ensures Flight(ops + [op], low + [popped], popped, window + [Entry(op, 1)])
  {
    var ops', low' := ops + [op], low + [popped];
    forall n | 0 <= n < |ops'| ensures low'[n] <= n && Unblocked(ops', low'[n], n) {
      if n < |ops| {
        assert Unblocked(ops, low[n], n);
      } else {
        forall i | popped <= i < n ensures !Blocks(ops[i], op) {
          assert !Holds(window[i - popped], Entry(op, 0));
        }
      }
    }
  }

  lemma {:induction false} FlightPop(ops: seq<Op>, low: seq<nat>, popped: nat, window: seq<CcWord>)
    requires Flight(ops, low, popped, window) && window != []
    ensures Flight(ops, low, popped + 1, window[1..])
  {
    forall i | popped + 1 <= i < |ops| ensures window[1..][i - (popped + 1)] == Entry(ops[i], 1) {
      assert window[1..][i - (popped + 1)] == window[i - popped];
    }
  }

  /** Among the operations in flight a SET or DELETE is the youngest of its filter
      address and a flush the youngest of all. */
  lemma {:induction false} WritersAreYoungest(ops: seq<Op>, low: seq<nat>, popped: nat, window: seq<CcWord>)
    requires Flight(ops, low, popped, window)
    ensures |window| <= 8 ==> |ops| - popped <= 8
    ensures forall i, j :: popped <= i < j < |ops| ==> !Blocks(ops[i], ops[j])
  {
    forall i, j | popped <= i < j < |ops| ensures !Blocks(ops[i], ops[j]) {
      assert Unblocked(ops, low[j], j);
    }
  }

  /** No operation in flight blocks this one, and there is room for it. */
  ghost predicate Free(issued: seq<Md>, popped: nat, md: Md) {
    && |issued| < popped + 8
    && forall i :: popped <= i < |issued| ==> !Blocks(OpOf(issued[i]), OpOf(md))
  }

  /** What the filter says of a request is what the operations in flight say. */
  lemma {:induction false} FreeIff(issued: seq<Md>, low: seq<nat>, popped: nat, window: seq<CcWord>, x: CcWord, md: Md)
    requires Flight(Ops(issued), low, popped, window) && x == Entry(OpOf(md), x.status)
    ensures |window| < 8 && !Conflicts(window, x) <==> Free(issued, popped, md)
  {
    forall i | popped <= i < |issued|
      ensures Holds(window[i - popped], x) <==> Blocks(OpOf(issued[i]), OpOf(md))
    {
      assert window[i - popped] == Entry(Ops(issued)[i], 1);
    }
    if Conflicts(window, x) {
      var k :| 0 <= k < |window| && Holds(window[k], x);
      var i := popped + k;
      assert window[i - popped] == window[k];
      assert Blocks(OpOf(issued[i]), OpOf(md));
    } else {
      forall i | popped <= i < |issued| ensures !Blocks(OpOf(issued[i]), OpOf(md)) {
        assert !Holds(window[i - popped], x);
      }
    }
  }

  /** How many key packets the words begin. */
  function Begun(words: seq<Stripe>): nat {
    if words == [] then 0
    else Begun(words[..|words| - 1]) + if Open(words[..|words| - 1]) then 0 else 1
  }

  /** Do the words end within a packet? */
  predicate Open(words: seq<Stripe>) {
    words != [] && !words[|words| - 1].EOP
  }

  lemma {:induction false} NextBegun(words: seq<Stripe>, w: Stripe)
    ensures Begun(words + [w]) == Begun(words) + if Open(words) then 0 else 1
    ensures Open(words + [w]) <==> !w.EOP
  {
    assert (words + [w])[..|words|] == words;
  }

  /** What the registers, the filter's contents and the history have to do with each
      other. */
  ghost predicate Controls(state: CcState, x: CcWord, md: Md, issued: seq<Md>, low: seq<nat>, popped: nat,
                           window: seq<CcWord>, wordsOut: seq<Stripe>) {
    && Flight(Ops(issued), low, popped, window)
    && Begun(wordsOut) == |issued| && (Open(wordsOut) <==> state == CC_STREAM)
    && (Holding(state) ==> x == Entry(OpOf(md), x.status))
    && (state == CC_PUSH ==> |window| < 8 && !Conflicts(window, x))
  }

  /** Passing a free request on. */
  lemma {:induction false} PassOn(x: CcWord, md: Md, issued: seq<Md>, low: seq<nat>, popped: nat, window: seq<CcWord>,
                                  wordsOut: seq<Stripe>, word: Stripe)
    requires Controls(CC_PUSH, x, md, issued, low, popped, window, wordsOut)
    ensures var x' := x.(status := 1);
            Controls(if word.EOP then CC_IDLE else CC_STREAM, x', md, issued + [md], low + [popped], popped,
                     window + [x'], wordsOut + [word])
  {
    assert forall e :: Holds(e, x) <==> Holds(e, Entry(OpOf(md), 0));
    FlightPush(Ops(issued), low, popped, window, OpOf(md));
    OpsAppend(issued, md);
    NextBegun(wordsOut, word);
  }

  /** How far a state is from waiting for input, in units of work. */
  function Rank(state: CcState): nat {
    match state
    case CC_IDLE => 1
    case CC_WAIT => 9
    case CC_PUSH => 7
    case CC_STREAM => 1
    case CC_POP_IDLE => 0
    case CC_POP_WAIT => 8
  }

  const CONTROL: nat := 32
  const FRONT: nat := 33
  const LOGGED: nat := 34

  class ConcurrencyControl {
    const hashFilter: ConcurrencyFilter
    var ccState: CcState
    var ccInputWord: Stripe
    var ccInputWordMd: Md
    var ccCompareElement: CcWord
    ghost var issued: seq<Md>        // the metadata words passed on
    ghost var low: seq<nat>          // how many operations had completed then
    ghost var popped: nat            // operations taken out of the filter
    ghost var wordsOut: seq<Stripe>  // the key words passed on

    ghost predicate Valid()
      reads this, hashFilter, hashFilter.filterEntries
    {
      forall k {:trigger Opened(k)} :: Opened(k) && k == CONTROL ==>
        && hashFilter.Valid()
        && Controls(ccState, ccCompareElement, ccInputWordMd, issued, low, popped, hashFilter.Contents(), wordsOut)
    }

    /** What has been read but not yet passed on. */
    function HeldMd(): seq<Md>
      reads this
    {
      if Holding(ccState) then [ccInputWordMd] else []
    }

    function HeldWord(): seq<Stripe>
      reads this
    {
      if Holding(ccState) then [ccInputWord] else []
    }

    constructor ()
      ensures Valid() && fresh(hashFilter) && fresh(hashFilter.filterEntries)
      ensures issued + HeldMd() == [] == issued && popped == 0 && wordsOut + HeldWord() == [] == wordsOut
      ensures ccState == CC_IDLE
    {
      hashFilter := new ConcurrencyFilter();
      ccState, ccInputWord, ccInputWordMd := CC_IDLE, Stripe([], false), Md(0, 0, 0, 0);
      ccCompareElement := CcWord(0, 0, 0);
      issued, low, popped, wordsOut := [], [], 0, [];
    }

    /** CC_IDLE without a completion: read a request. */
    method Accept(md: Md, word: Stripe, hash: nat)
      requires Valid() && ccState == CC_IDLE
      modifies `ccState, `ccInputWord, `ccInputWordMd, `ccCompareElement
      ensures Valid() && ccState == if Free(issued, popped, md.(metadata := hash)) then CC_PUSH else CC_WAIT
      ensures HeldMd() == [md.(metadata := hash)] && HeldWord() == [word]
    {
      assert Opened(CONTROL);
      ccInputWordMd, ccInputWord := md, word;
      ccCompareElement := CcWord(hash % 128 % 64, ccInputWordMd.operation, ccCompareElement.status);
      ccInputWordMd := ccInputWordMd.(metadata := hash);
      var hit := hashFilter.Compare(ccCompareElement);
      var full := hashFilter.Full();
      FreeIff(issued, low, popped, hashFilter.Contents(), ccCompareElement, ccInputWordMd);
      ccState := if hit || full then CC_WAIT else CC_PUSH;
    }

    /** The filter holds the operations in flight. */
    lemma {:induction false} Level()
      requires Valid()
      ensures popped + hashFilter.level == |issued| && hashFilter.level <= 8
      ensures forall i, j :: popped <= i < j < |issued| ==> !Blocks(OpOf(issued[i]), OpOf(issued[j]))
    {
      assert Opened(CONTROL);
      WritersAreYoungest(Ops(issued), low, popped, hashFilter.Contents());
      forall i, j | popped <= i < j < |issued| ensures !Blocks(OpOf(issued[i]), OpOf(issued[j])) {
        assert !Blocks(Ops(issued)[i], Ops(issued)[j]);
      }
    }

    /** CC_WAIT without a completion: the request waits exactly as long as it is not
        free. */
    method Retry()
      requires Valid() && ccState == CC_WAIT
      modifies `ccState
      ensures Valid() && ccState == if Free(issued, popped, ccInputWordMd) then CC_PUSH else CC_WAIT
    {
      assert Opened(CONTROL);
      FreeIff(issued, low, popped, hashFilter.Contents(), ccCompareElement, ccInputWordMd);
      var hit := hashFilter.Compare(ccCompareElement);
      var full := hashFilter.Full();
      if !full && !hit {
        ccState := CC_PUSH;
      }
    }

    /** The filter never refuses the entry. */
    method Push() returns (ok: bool)
      requires Valid() && ccState == CC_PUSH
      modifies this, hashFilter, hashFilter.filterEntries
      ensures Valid() && ok && (ccState == CC_IDLE || ccState == CC_STREAM)
      ensures issued == old(issued + HeldMd()) && wordsOut == old(wordsOut + HeldWord())
      ensures popped == old(popped) && low == old(low) + [popped]
    {
      assert Opened(CONTROL);
      PassOn(ccCompareElement, ccInputWordMd, issued, low, popped, hashFilter.Contents(), wordsOut, ccInputWord);
      ccCompareElement := ccCompareElement.(status := 1);
      ok := hashFilter.Push(ccCompareElement);
      issued, low, wordsOut := issued + [ccInputWordMd], low + [popped], wordsOut + [ccInputWord];
      ccState := if !ccInputWord.EOP then CC_STREAM else CC_IDLE;
    }

    method Stream(word: Stripe)
      requires Valid() && ccState == CC_STREAM
      modifies `ccState, `ccInputWord, `wordsOut
      ensures Valid() && (ccState == CC_IDLE || ccState == CC_STREAM) && wordsOut == old(wordsOut) + [word]
    {
      assert Opened(CONTROL);
      NextBegun(wordsOut, word);
      ccInputWord := word;
      wordsOut := wordsOut + [word];
      if ccInputWord.EOP {
        ccState := CC_IDLE;
      }
    }

    method Completion(pop: bool)
      requires Valid() && Popping(ccState)
      requires pop ==> popped < |issued|
      modifies `ccState, `popped, hashFilter, hashFilter.filterEntries
      ensures Valid() && popped == old(popped) + (if pop then 1 else 0)
      ensures ccState == if old(ccState) == CC_POP_IDLE then CC_IDLE else CC_WAIT
    {
      assert Opened(CONTROL);
      if pop {
        FlightPop(Ops(issued), low, popped, hashFilter.Contents());
        var _ := hashFilter.Pop();
        popped := popped + 1;
      }
      ccState := if ccState == CC_POP_IDLE then CC_IDLE else CC_WAIT;
    }

    /** Can a call do something? Of the reasons to stop waiting only the empty filter is
        counted. */
    predicate CanMove(in2cc: seq<Stripe>, in2ccMd: seq<Md>, hash2cc: seq<nat>, dec2cc: seq<bool>)
      reads this, hashFilter
    {
      match ccState
      case CC_IDLE => dec2cc != [] || (in2ccMd != [] && in2cc != [] && hash2cc != [])
      case CC_WAIT => dec2cc != [] || hashFilter.level == 0
      case CC_PUSH => true
      case CC_STREAM => in2cc != []
      case CC_POP_IDLE => dec2cc != []
      case CC_POP_WAIT => dec2cc != []
    }

    /** One call, given what waits in the four input streams: whether it reads a
        request, how many key words and completions it reads, and what it writes. */
    method Step(in2cc: seq<Stripe>, in2ccMd: seq<Md>, hash2cc: seq<nat>, dec2cc: seq<bool>)
      returns (accepted: bool, readWords: nat, readTokens: nat, outWords: seq<Stripe>, outMds: seq<Md>)
      requires Valid() && (forall i :: 0 <= i < |dec2cc| && dec2cc[i] ==> popped < |issued|)
      modifies this, hashFilter, hashFilter.filterEntries
      ensures Valid() && readWords <= |in2cc| && readTokens <= |dec2cc| && readTokens <= 1
      ensures accepted ==> in2ccMd != [] && hash2cc != []
      ensures issued == old(issued) + outMds && wordsOut == old(wordsOut) + outWords
      ensures issued + HeldMd() == old(issued + HeldMd()) + Request(accepted, in2ccMd, hash2cc)
      ensures wordsOut + HeldWord() == old(wordsOut + HeldWord()) + in2cc[..readWords]
      ensures popped == old(popped) + (if readTokens == 1 && dec2cc[0] then 1 else 0)
      ensures |outMds| <= 1 && low == old(low) + seq(|outMds|, _ => old(popped))
      ensures Popping(ccState) ==> readTokens == 0 && (dec2cc != [] || old(Popping(ccState)))
      ensures old(CanMove(in2cc, in2ccMd, hash2cc, dec2cc)) ==>
                Rank(ccState) + 3 * |outMds|
                < old(Rank(ccState)) + (if accepted then 10 else 0) + readWords + 2 * readTokens
    {
      accepted, readWords, readTokens, outWords, outMds := false, 0, 0, [], [];
      match ccState {
      case CC_IDLE =>
        if dec2cc != [] {
          ccState := CC_POP_IDLE;
        } else if in2ccMd != [] && in2cc != [] && hash2cc != [] {
          accepted, readWords := true, 1;
          Accept(in2ccMd[0], in2cc[0], hash2cc[0]);
        }
      case CC_WAIT =>
        if dec2cc != [] {
          ccState := CC_POP_WAIT;
        } else {
          Level();
          Retry();
        }
      case CC_PUSH =>
        outMds, outWords := [ccInputWordMd], [ccInputWord];
        var _ := Push();
      case CC_STREAM =>
        if in2cc != [] {
          outWords, readWords := [in2cc[0]], 1;
          Stream(in2cc[0]);
        }
      case _ =>
        if dec2cc != [] {
          readTokens := 1;
          Completion(dec2cc[0]);
        }
      }
    }
  }

  function Request(accepted: bool, mds: seq<Md>, hashes: seq<nat>): seq<Md>
    requires accepted ==> mds != [] && hashes != []
  {
    if accepted then [mds[0].(metadata := hashes[0])] else []
  }
}

/** memRead: asks the memory for the lines of each operation. */
module MemReadStage {
  import opened BucketMemory
  import opened KeyResizerStage
  import opened CcStage

  datatype MemCtrlWord = MemCtrlWord(address: nat, count: nat)

  /** One command for each operation but a flush, for exactly the lines that the
      operation touches. */
  ghost predicate Commands(mds: seq<Md>, ctrl: seq<MemCtrlWord>) {
    if mds == [] then ctrl == []
    else
      var md, rest := mds[|mds| - 1], mds[..|mds| - 1];
      if md.operation == 8 then Commands(rest, ctrl)
      else ctrl != [] && Covers(ctrl[|ctrl| - 1], OpOf(md)) && Commands(rest, ctrl[..|ctrl| - 1])
  }

  ghost predicate Covers(c: MemCtrlWord, op: Op) {
    forall line: nat :: c.address <= line < c.address + c.count <==> Touches(op, line)
  }

  /** A stripe with the bytes after the first n cleared. */
  function ZeroFrom(s: Stripe, n: nat): Stripe {
    s.(data := seq(|s.data|, i requires 0 <= i < |s.data| => if i < n then s.data[i] else 0))
  }

  lemma {:induction false} NextCommand(mds: seq<Md>, ctrl: seq<MemCtrlWord>, md: Md, next: seq<MemCtrlWord>)
    requires Commands(mds, ctrl)
    requires if md.operation == 8 then next == [] else |next| == 1 && Covers(next[0], OpOf(md))
    ensures Commands(mds + [md], ctrl + next)
  {
    assert (mds + [md])[..|mds|] == mds;
    assert md.operation == 8 ==> ctrl + next == ctrl;
    assert (ctrl + next)[..|ctrl|] == ctrl;
  }

  method Command(metadata: nat, keyLength: nat) returns (memData: MemCtrlWord)
    ensures forall operation :: Covers(memData, Op(metadata, operation, keyLength))
  {
    var address := 8 * (metadata % 128);
    var count := keyLength / 16;
    if keyLength > count * 16 {
      count := count + 2;
    } else {
      count := count + 1;
    }
    memData := MemCtrlWord(address, count);
  }

  class MemRead {
    var streaming: bool   // MEMRD_STREAM
    ghost var mdsIn: seq<Md>
    ghost var wordsIn: seq<Stripe>
    ghost var ctrlOut: seq<MemCtrlWord>

    ghost predicate Valid()
      reads this
    {
      Begun(wordsIn) == |mdsIn| && (Open(wordsIn) <==> streaming) && Commands(mdsIn, ctrlOut)
    }

    constructor ()
      ensures Valid() && mdsIn == [] && wordsIn == [] && ctrlOut == []
    {
      streaming, mdsIn, wordsIn, ctrlOut := false, [], [], [];
    }

    /** The first word of a key, with its metadata. */
    method Begin(inDataMd: Md, inData: Stripe) returns (ctrl: seq<MemCtrlWord>, memRd2comp: seq<Stripe>)
      requires Valid() && !streaming
      modifies this
      ensures Valid() && mdsIn == old(mdsIn) + [inDataMd] && wordsIn == old(wordsIn) + [inData]
      ensures ctrlOut == old(ctrlOut) + ctrl
      ensures memRd2comp == [if inDataMd.keyLength <= 16 then ZeroFrom(inData, inDataMd.keyLength) else inData]
    {
      ctrl := [];
      if inDataMd.operation != 8 {
        var c := Command(inDataMd.metadata, inDataMd.keyLength);
        ctrl := [c];
      }
      NextCommand(mdsIn, ctrlOut, inDataMd, ctrl);
      NextBegun(wordsIn, inData);
      mdsIn, wordsIn, ctrlOut := mdsIn + [inDataMd], wordsIn + [inData], ctrlOut + ctrl;
      memRd2comp := [if inDataMd.keyLength <= 16 then ZeroFrom(inData, inDataMd.keyLength) else inData];
      streaming := !inData.EOP;
    }

    predicate CanMove(cc2memRead: seq<Stripe>, cc2memReadMd: seq<Md>)
      reads this
    {
      cc2memRead != [] && (streaming || cc2memReadMd != [])
    }

    method Step(cc2memRead: seq<Stripe>, cc2memReadMd: seq<Md>)
      returns (readWords: nat, readMds: nat, ctrl: seq<MemCtrlWord>, memRd2comp: seq<Stripe>)
      requires Valid()
      modifies this
      ensures Valid() && readWords <= |cc2memRead| && readMds <= |cc2memReadMd|
      ensures mdsIn == old(mdsIn) + cc2memReadMd[..readMds] && wordsIn == old(wordsIn) + cc2memRead[..readWords]
      ensures ctrlOut == old(ctrlOut) + ctrl
      ensures readWords == |memRd2comp| == if old(CanMove(cc2memRead, cc2memReadMd)) then 1 else 0
      ensures readWords == 1 ==>
                memRd2comp[0] == if readMds == 1 && cc2memReadMd[0].keyLength <= 16
                                 then ZeroFrom(cc2memRead[0], cc2memReadMd[0].keyLength) else cc2memRead[0]
    {
      readWords, readMds, ctrl, memRd2comp := 0, 0, [], [];
      if !streaming {
        if cc2memReadMd != [] && cc2memRead != [] {
          readWords, readMds := 1, 1;
          ctrl, memRd2comp := Begin(cc2memReadMd[0], cc2memRead[0]);
        }
      } else if cc2memRead != [] {
        var inData := cc2memRead[0];
        readWords, memRd2comp := 1, [inData];
        NextBegun(wordsIn, inData);
        wordsIn := wordsIn + [inData];
        assert ctrlOut + ctrl == ctrlOut;
        streaming := !inData.EOP;
      }
    }
  }
}

/** Runs of the concurrency control in front of memRead. */
module CcRun {
  import opened Sealing
  import opened BucketMemory
  import opened KeyResizerStage
  import opened CcStage
  import opened MemReadStage

  /** What may happen next; an operation in flight may complete. */
  datatype Event = ArriveWord(word: Stripe) | ArriveMd(md: Md) | ArriveHash(hash: nat)
                 | Complete | CallCc | CallMemRead

  /** The first n requests: each metadata word with the hash of the same number. */
  function Paired(mds: seq<Md>, hashes: seq<nat>, n: nat): seq<Md>
    requires n <= |mds| && n <= |hashes|
  {
    seq(n, i requires 0 <= i < n => mds[i].(metadata := hashes[i]))
  }

  predicate AllSet(tokens: seq<bool>) {
    forall i :: 0 <= i < |tokens| ==> tokens[i]
  }

  /** The requests read so far and those that wait are what has arrived; likewise
      the key words. */
  ghost predicate Arrived(mds: seq<Md>, hashes: seq<nat>, words: seq<Stripe>, taken: seq<Md>, done: seq<Stripe>,
                          mdQueue: seq<Md>, hashQueue: seq<nat>, wordQueue: seq<Stripe>) {
    && |taken| <= |mds| && |taken| <= |hashes| && taken == Paired(mds, hashes, |taken|)
    && mdQueue == mds[|taken|..] && hashQueue == hashes[|taken|..] && done + wordQueue == words
  }

  lemma {:induction false} NothingArrived()
    ensures Arrived([], [], [], [], [], [], [], [])
  {}

  lemma {:induction false} CcReads(mds: seq<Md>, hashes: seq<nat>, words: seq<Stripe>, taken: seq<Md>,
                                   done: seq<Stripe>, mdQueue: seq<Md>, hashQueue: seq<nat>, wordQueue: seq<Stripe>,
                                   accepted: bool, n: nat)
    requires Arrived(mds, hashes, words, taken, done, mdQueue, hashQueue, wordQueue)
    requires (accepted ==> mdQueue != [] && hashQueue != []) && n <= |wordQueue|
    ensures var m := if accepted then 1 else 0;
            Arrived(mds, hashes, words, taken + Request(accepted, mdQueue, hashQueue), done + wordQueue[..n],
                    mdQueue[m..], hashQueue[m..], wordQueue[n..])
  {
    Regroup(done, wordQueue, n);
  }

  lemma {:induction false} Prefix<T>(a: seq<T>, b: seq<T>, c: seq<T>, whole: seq<T>)
    requires a + b + c == whole
    ensures a <= whole
  {
    assert a + b + c == a + (b + c);
  }

  lemma {:induction false} Regroup<T>(a: seq<T>, q: seq<T>, n: nat)
    requires n <= |q|
    ensures (a + q[..n]) + q[n..] == a + q
  {
    assert q[..n] + q[n..] == q;
  }

  class Front {
    const cc: ConcurrencyControl
    const mr: MemRead
    var in2cc: seq<Stripe>
    var in2ccMd: seq<Md>
    var hash2cc: seq<nat>
    var dec2cc: seq<bool>
    var cc2memRead: seq<Stripe>
    var cc2memReadMd: seq<Md>
    ghost var words: seq<Stripe>   // what has arrived
    ghost var mds: seq<Md>
    ghost var hashes: seq<nat>

    ghost predicate Valid()
      reads this, cc, cc.hashFilter, cc.hashFilter.filterEntries, mr
    {
      forall k {:trigger Opened(k)} :: Opened(k) && k == FRONT ==> Linked()
    }

    ghost predicate Linked()
      reads this, cc, cc.hashFilter, cc.hashFilter.filterEntries, mr
    {
      && cc.Valid() && mr.Valid()
      && Arrived(mds, hashes, words, cc.issued + cc.HeldMd(), cc.wordsOut + cc.HeldWord(), in2ccMd, hash2cc, in2cc)
      && Completed() <= |cc.issued| && AllSet(dec2cc)
      && (Popping(cc.ccState) ==> dec2cc != [])
      && cc.wordsOut == mr.wordsIn + cc2memRead && cc.issued == mr.mdsIn + cc2memReadMd
    }

    /** How many operations have completed. */
    ghost function Completed(): nat
      reads this, cc
    {
      cc.popped + |dec2cc|
    }

    /** The work left when nothing more arrives. */
    ghost function Work(): int
      reads this, cc
    {
      10 * |in2ccMd| + |in2cc| + 3 * (|cc.issued| - Completed()) + 2 * |dec2cc| + Rank(cc.ccState)
    }

    constructor ()
      ensures Valid() && fresh(cc) && fresh(cc.hashFilter) && fresh(cc.hashFilter.filterEntries) && fresh(mr)
      ensures words == [] && mds == [] && hashes == [] && cc.issued == [] && Completed() == 0 && mr.ctrlOut == []
    {
      cc := new ConcurrencyControl();
      mr := new MemRead();
      in2cc, in2ccMd, hash2cc, dec2cc, cc2memRead, cc2memReadMd := [], [], [], [], [], [];
      words, mds, hashes := [], [], [];
      NothingArrived();
    }

    method ArriveWord(w: Stripe)
      requires Valid()
      modifies this`in2cc, this`words
      ensures Valid() && words == old(words) + [w]
    {
      assert Opened(FRONT);
      in2cc, words := in2cc + [w], words + [w];
    }

    method ArriveMd(md: Md)
      requires Valid()
      modifies this`in2ccMd, this`mds
      ensures Valid() && mds == old(mds) + [md]
    {
      assert Opened(FRONT);
      in2ccMd, mds := in2ccMd + [md], mds + [md];
    }

    method ArriveHash(hash: nat)
      requires Valid()
      modifies this`hash2cc, this`hashes
      ensures Valid() && hashes == old(hashes) + [hash]
    {
      assert Opened(FRONT);
      hash2cc, hashes := hash2cc + [hash], hashes + [hash];
    }

    method Complete()
      requires Valid() && Completed() < |cc.issued|
      modifies this`dec2cc
      ensures Valid() && Completed() == old(Completed()) + 1 && Work() < old(Work())
    {
      assert Opened(FRONT);
      dec2cc := dec2cc + [true];
    }

    method CallCc() returns (pushed: nat)
      requires Valid()
      modifies this`in2cc, this`in2ccMd, this`hash2cc, this`dec2cc, this`cc2memRead, this`cc2memReadMd
      modifies cc, cc.hashFilter, cc.hashFilter.filterEntries
      ensures Valid() && old(cc.issued) <= cc.issued && |cc.issued| == |old(cc.issued)| + pushed && pushed <= 1
      ensures Completed() == old(Completed())
      ensures old(CanMove()) ==> Work() < old(Work())
    {
      assert Opened(FRONT);
      var accepted, n, t, ws, ms := cc.Step(in2cc, in2ccMd, hash2cc, dec2cc);
      assert (mr.wordsIn + cc2memRead) + ws == mr.wordsIn + (cc2memRead + ws);
      assert (mr.mdsIn + cc2memReadMd) + ms == mr.mdsIn + (cc2memReadMd + ms);
      CcReads(mds, hashes, words, old(cc.issued + cc.HeldMd()), old(cc.wordsOut + cc.HeldWord()),
              in2ccMd, hash2cc, in2cc, accepted, n);
      Advance(if accepted then 1 else 0, n, t, ws, ms);
      pushed := |ms|;
    }

    /** The stream side of a call: m requests, n key words and t completions have
        been read; ws and ms have been written. */
    method Advance(m: nat, n: nat, t: nat, ws: seq<Stripe>, ms: seq<Md>)
      requires cc.Valid() && mr.Valid()
      requires m <= |in2ccMd| && m <= |hash2cc| && n <= |in2cc| && t <= |dec2cc|
      requires Arrived(mds, hashes, words, cc.issued + cc.HeldMd(), cc.wordsOut + cc.HeldWord(),
                       in2ccMd[m..], hash2cc[m..], in2cc[n..])
      requires cc.popped + |dec2cc| - t <= |cc.issued| && AllSet(dec2cc)
      requires Popping(cc.ccState) ==> t < |dec2cc|
      requires cc.wordsOut == mr.wordsIn + (cc2memRead + ws) && cc.issued == mr.mdsIn + (cc2memReadMd + ms)
      modifies this`in2cc, this`in2ccMd, this`hash2cc, this`dec2cc, this`cc2memRead, this`cc2memReadMd
      ensures Valid() && |dec2cc| == old(|dec2cc|) - t
      ensures Work() == 10 * (old(|in2ccMd|) - m) + (old(|in2cc|) - n) + 3 * (|cc.issued| - (cc.popped + |dec2cc|))
                        + 2 * |dec2cc| + Rank(cc.ccState)
    {
      in2ccMd, hash2cc, in2cc, dec2cc := in2ccMd[m..], hash2cc[m..], in2cc[n..], dec2cc[t..];
      cc2memRead, cc2memReadMd := cc2memRead + ws, cc2memReadMd + ms;
    }

    method CallMemRead() returns (ctrl: seq<MemCtrlWord>)
      requires Valid()
      modifies this`cc2memRead, this`cc2memReadMd, mr
      ensures Valid() && mr.ctrlOut == old(mr.ctrlOut) + ctrl
      ensures old(MemReadCanMove()) ==> |cc2memRead| < |old(cc2memRead)|
    {
      assert Opened(FRONT);
      var n, m, out;
      n, m, ctrl, out := mr.Step(cc2memRead, cc2memReadMd);
      Regroup(old(mr.wordsIn), cc2memRead, n);
      Regroup(old(mr.mdsIn), cc2memReadMd, m);
      cc2memRead, cc2memReadMd := cc2memRead[n..], cc2memReadMd[m..];
    }

    lemma {:induction false} WorkLeft()
      requires Valid()
      ensures Work() >= 0 && Completed() <= |cc.issued|
    {
      assert Opened(FRONT);
    }

    predicate CanMove()
      reads this, cc, cc.hashFilter
    {
      cc.CanMove(in2cc, in2ccMd, hash2cc, dec2cc)
    }

    predicate MemReadCanMove()
      reads this, mr
    {
      mr.CanMove(cc2memRead, cc2memReadMd)
    }

    /** What holds in every state: the n-th operation passed on is the n-th metadata
        word with the n-th hash; key words leave in the order of arrival, each packet
        beginning with its metadata word; no operation blocks a younger one in flight,
        and there are at most eight; and the memory commands are those of the first
        operations, in order. */
    lemma {:induction false} Guarantees()
      requires Valid()
      ensures |cc.issued| <= |mds| && |cc.issued| <= |hashes| && cc.issued == Paired(mds, hashes, |cc.issued|)
      ensures cc.wordsOut <= words && Begun(cc.wordsOut) == |cc.issued|
      ensures Safe(cc.issued, Moment(|cc.issued|, Completed()))
      ensures mr.mdsIn <= cc.issued && Commands(mr.mdsIn, mr.ctrlOut)
    {
      assert Opened(FRONT);
      cc.Level();
      assert Opened(CONTROL);
      Prefix(cc.wordsOut, cc.HeldWord(), in2cc, words);
      assert cc.issued == (cc.issued + cc.HeldMd())[..|cc.issued|];
    }

    /** A request is never kept waiting for ever: once the operations in flight have
        completed and nothing moves, every request with its key has been passed on,
        and its lines have been asked for. */
    lemma {:induction false} Settled()
      requires Valid() && Completed() == |cc.issued| && !CanMove() && !MemReadCanMove()
      requires |mds| == |hashes| == Begun(words) && !Open(words)
      ensures |cc.issued| == |mds| && mr.mdsIn == cc.issued
    {
      assert Opened(FRONT);
      cc.Level();
      assert Opened(CONTROL);
      assert cc.wordsOut + [] == cc.wordsOut && mr.wordsIn + [] == mr.wordsIn && cc.issued + [] == cc.issued;
      assert mr.mdsIn + [] == mr.mdsIn;
    }
  }

  // What is recorded of a run.

  /** How many operations have been passed on, and how many have completed. */
  datatype Moment = Moment(passed: nat, completed: nat)

  /** The operations in flight: at most eight, of which a SET or DELETE is the youngest
      of its filter address, and a flush the youngest of all. */
  ghost predicate Safe(issued: seq<Md>, m: Moment) {
    && m.completed <= m.passed <= |issued| && m.passed <= m.completed + 8
    && forall i, j :: m.completed <= i < j < m.passed ==> !Blocks(OpOf(issued[i]), OpOf(issued[j]))
  }

  /** What an event may change: only a call of concurrencyControl passes an operation
      on, and operations complete, in order, only when the environment says so. */
  ghost predicate Follows(e: Event, a: Moment, b: Moment) {
    if e.CallCc? then b.completed == a.completed && a.passed <= b.passed <= a.passed + 1
    else if e.Complete? then
      b.passed == a.passed && b.completed == if a.completed < a.passed then a.completed + 1 else a.completed
    else b == a
  }

  /** played are the events so far, trace the moments before and after them, and
      low[n] the number of operations that had completed when operation n was passed
      on. */
  datatype Log = Log(played: seq<Event>, trace: seq<Moment>, low: seq<nat>)

  ghost predicate Recorded(log: Log, issued: seq<Md>, completed: nat) {
    && |log.trace| == |log.played| + 1 && log.trace[0] == Moment(0, 0)
    && log.trace[|log.played|] == Moment(|issued|, completed)
    && |log.low| == |issued|
    && (forall t :: 0 <= t < |log.played| ==> EventAt(log, t))
    && (forall t :: 0 <= t < |log.trace| ==> Safe(issued, log.trace[t]))
  }

  ghost predicate EventAt(log: Log, t: nat)
    requires t < |log.played| && |log.trace| == |log.played| + 1
  {
    var a, b := log.trace[t], log.trace[t + 1];
    Follows(log.played[t], a, b) && (a.passed < b.passed ==> a.passed < |log.low| && log.low[a.passed] == a.completed)
  }

  function Append(log: Log, e: Event, m: Moment): Log
    requires |log.trace| == |log.played| + 1
  {
    var last := log.trace[|log.played|];
    Log(log.played + [e], log.trace + [m], log.low + if last.passed < m.passed then [last.completed] else [])
  }

  lemma {:induction false} Record(log: Log, issued: seq<Md>, completed: nat, e: Event, issued': seq<Md>,
                                  completed': nat)
    requires Recorded(log, issued, completed) && issued <= issued'
    requires Follows(e, Moment(|issued|, completed), Moment(|issued'|, completed'))
    requires Safe(issued', Moment(|issued'|, completed'))
    ensures Recorded(Append(log, e, Moment(|issued'|, completed')), issued', completed')
  {
    var m := Moment(|issued'|, completed');
    var log' := Append(log, e, m);
    forall t | 0 <= t < |log'.played| ensures EventAt(log', t) {
      if t < |log.played| {
        assert EventAt(log, t);
      }
    }
    forall t | 0 <= t < |log'.trace| ensures Safe(issued', log'.trace[t]) {
      if t < |log.trace| {
        assert Safe(issued, log.trace[t]);
      }
    }
  }

  /** Every operation was let in when none of those that had not completed blocks it. */
  lemma {:induction false} RunIsHazardFree(log: Log, issued: seq<Md>, completed: nat)
    requires Recorded(log, issued, completed)
    ensures HazardFree(Ops(issued), log.low)
  {
    forall n | 0 <= n < |issued| ensures log.low[n] <= n && Unblocked(Ops(issued), log.low[n], n) {
      var t := PassedAt(log, issued, completed, n, |log.played|);
      assert EventAt(log, t) && Safe(issued, log.trace[t]) && Safe(issued, log.trace[t + 1]);
      forall i | log.low[n] <= i < n ensures !Blocks(Ops(issued)[i], Ops(issued)[n]) {
        assert !Blocks(OpOf(issued[i]), OpOf(issued[n]));
      }
    }
  }

  /** Hence a run with keys of at most 112 bytes is serial in effect: if each operation
      reads and writes its lines between being passed on and completing, as Overlapped
      says, the memory goes through the states of doing one operation after the
      other. */
  lemma {:induction false} RunIsSerial(log: Log, issued: seq<Md>, completed: nat, init: nat -> Line,
                                       compute: (nat, seq<Line>) -> seq<Line>, logs: seq<seq<Write>>,
                                       got: seq<seq<Line>>, n: nat)
    requires Recorded(log, issued, completed) && ShortKeys(Ops(issued), 112) && n <= |issued|
    requires Overlapped(init, Ops(issued), log.low, compute, logs, got)
    ensures logs[n] == SerialLog(init, Ops(issued), compute, n)
  {
    RunIsHazardFree(log, issued, completed);
    Serializable(init, Ops(issued), log.low, compute, logs, got, n);
  }

  /** The event with which operation n was passed on. */
  lemma {:induction false} PassedAt(log: Log, issued: seq<Md>, completed: nat, n: nat, end: nat) returns (t: nat)
    requires Recorded(log, issued, completed) && end <= |log.played| && n < log.trace[end].passed
    ensures t < end && log.trace[t].passed == n && log.trace[t + 1].passed == n + 1
  {
    t := end - 1;
    assert EventAt(log, t);
    if n < log.trace[t].passed {
      t := PassedAt(log, issued, completed, n, end - 1);
    }
  }

  // What the schedule delivers.

  function Mds(es: seq<Event>): seq<Md> {
    if es == [] then []
    else
      var e := es[|es| - 1];
      Mds(es[..|es| - 1]) + if e.ArriveMd? then [e.md] else []
  }

  function Hashes(es: seq<Event>): seq<nat> {
    if es == [] then []
    else
      var e := es[|es| - 1];
      Hashes(es[..|es| - 1]) + if e.ArriveHash? then [e.hash] else []
  }

  function Words(es: seq<Event>): seq<Stripe> {
    if es == [] then []
    else
      var e := es[|es| - 1];
      Words(es[..|es| - 1]) + if e.ArriveWord? then [e.word] else []
  }

  lemma {:induction false} NextEvent(es: seq<Event>, e: Event)
    ensures Mds(es + [e]) == Mds(es) + if e.ArriveMd? then [e.md] else []
    ensures Hashes(es + [e]) == Hashes(es) + if e.ArriveHash? then [e.hash] else []
    ensures Words(es + [e]) == Words(es) + if e.ArriveWord? then [e.word] else []
  {
    assert (es + [e])[..|es|] == es;
  }

  /** Each request comes with a hash and the words of a whole key. */
  ghost predicate Fed(es: seq<Event>) {
    |Mds(es)| == |Hashes(es)| == Begun(Words(es)) && !Open(Words(es))
  }

  /** What an event adds to what has arrived, and what else it changes. */
  method Perform(f: Front, e: Event) returns (ctrl: seq<MemCtrlWord>, pushed: nat)
    requires f.Valid() && (e.Complete? ==> f.Completed() < |f.cc.issued|)
    modifies f, f.cc, f.cc.hashFilter, f.cc.hashFilter.filterEntries, f.mr
    ensures f.Valid() && f.mr.ctrlOut == old(f.mr.ctrlOut) + ctrl
    ensures f.mds == old(f.mds) + if e.ArriveMd? then [e.md] else []
    ensures f.hashes == old(f.hashes) + if e.ArriveHash? then [e.hash] else []
    ensures f.words == old(f.words) + if e.ArriveWord? then [e.word] else []
    ensures old(f.cc.issued) <= f.cc.issued && |f.cc.issued| == old(|f.cc.issued|) + pushed
    ensures pushed <= if e.CallCc? then 1 else 0
    ensures f.Completed() == old(f.Completed()) + if e.Complete? then 1 else 0
    ensures e.Complete? || (e.CallCc? && old(f.CanMove())) ==> f.Work() < old(f.Work())
    ensures e.CallMemRead? && old(f.MemReadCanMove()) ==>
              f.Work() == old(f.Work()) && |f.cc2memRead| < old(|f.cc2memRead|)
  {
    ctrl, pushed := [], 0;
    match e {
      case ArriveWord(w) => f.ArriveWord(w);
      case ArriveMd(md) => f.ArriveMd(md);
      case ArriveHash(hash) => f.ArriveHash(hash);
      case Complete => f.Complete();
      case CallCc => pushed := f.CallCc();
      case CallMemRead => ctrl := f.CallMemRead();
    }
  }

  /** The log is that of the run so far. */
  ghost predicate Logged(f: Front, log: Log)
    reads f, f.cc
  {
    forall k {:trigger Opened(k)} :: Opened(k) && k == LOGGED ==>
      && Recorded(log, f.cc.issued, f.Completed())
      && f.mds == Mds(log.played) && f.hashes == Hashes(log.played) && f.words == Words(log.played)
  }

  /** After the schedule nothing arrives. */
  ghost predicate PlaysOn(schedule: seq<Event>, played: seq<Event>) {
    && schedule <= played
    && forall t :: |schedule| <= t < |played| ==> played[t].Complete? || played[t].CallCc? || played[t].CallMemRead?
  }

  lemma {:induction false} NothingArrives(schedule: seq<Event>, played: seq<Event>)
    requires PlaysOn(schedule, played)
    ensures Mds(played) == Mds(schedule) && Hashes(played) == Hashes(schedule) && Words(played) == Words(schedule)
    decreases |played|
  {
    if |played| > |schedule| {
      NothingArrives(schedule, played[..|played| - 1]);
    } else {
      assert played == schedule;
    }
  }

  /** One event; a completion when nothing is in flight is none. */
  method Play(f: Front, e: Event, inFlight: nat, ghost log: Log)
    returns (ctrl: seq<MemCtrlWord>, inFlight': nat, ghost log': Log)
    requires f.Valid() && Logged(f, log) && inFlight == |f.cc.issued| - f.Completed()
    modifies f, f.cc, f.cc.hashFilter, f.cc.hashFilter.filterEntries, f.mr
    ensures f.Valid() && Logged(f, log') && log'.played == log.played + [e]
    ensures inFlight' == |f.cc.issued| - f.Completed() && f.mr.ctrlOut == old(f.mr.ctrlOut) + ctrl
    ensures (e.Complete? && inFlight > 0) || (e.CallCc? && old(f.CanMove())) ==> f.Work() < old(f.Work())
    ensures e.CallMemRead? && old(f.MemReadCanMove()) ==>
              f.Work() == old(f.Work()) && |f.cc2memRead| < old(|f.cc2memRead|)
  {
    assert Opened(LOGGED);
    f.WorkLeft();
    var pushed;
    ctrl, pushed, inFlight' := [], 0, inFlight;
    if e.Complete? && inFlight == 0 {
    } else {
      ctrl, pushed := Perform(f, e);
      inFlight' := inFlight + pushed - if e.Complete? then 1 else 0;
    }
    NextEvent(log.played, e);
    f.Guarantees();
    Record(log, old(f.cc.issued), old(f.Completed()), e, f.cc.issued, f.Completed());
    log' := Append(log, e, Moment(|f.cc.issued|, f.Completed()));
  }

  /** Under every schedule of arrivals, calls and completions, which is then played on
      with calls and completions until nothing moves: at every moment the operations
      in flight are safe together; what is passed on are the requests that arrived, in
      order, each with its hash, and their key words; and if every request comes with
      its key, all of them are passed on and complete, and for each of them its lines
      have been asked for. */
  method Simulate(schedule: seq<Event>)
    returns (memRdCtrl: seq<MemCtrlWord>, ghost issued: seq<Md>, ghost wordsOut: seq<Stripe>, ghost asked: nat,
             ghost log: Log)
    ensures PlaysOn(schedule, log.played)
    ensures Recorded(log, issued, |issued|) && HazardFree(Ops(issued), log.low)
    ensures |issued| <= |Mds(schedule)| && |issued| <= |Hashes(schedule)|
    ensures issued == Paired(Mds(schedule), Hashes(schedule), |issued|)
    ensures wordsOut <= Words(schedule) && Begun(wordsOut) == |issued|
    ensures asked <= |issued| && Commands(issued[..asked], memRdCtrl)
    ensures Fed(schedule) ==> asked == |issued| == |Mds(schedule)|
    ensures Fed(schedule) ==> Commands(Paired(Mds(schedule), Hashes(schedule), |Mds(schedule)|), memRdCtrl)
  {
    var f := new Front();
    var inFlight: nat, ctrl: seq<MemCtrlWord> := 0, [];
    memRdCtrl, log := [], Log([], [Moment(0, 0)], []);
    for t := 0 to |schedule|
      invariant f.Valid() && fresh(f) && fresh(f.cc) && fresh(f.cc.hashFilter) && fresh(f.cc.hashFilter.filterEntries)
      invariant fresh(f.mr) && Logged(f, log) && log.played == schedule[..t]
      invariant inFlight == |f.cc.issued| - f.Completed() && memRdCtrl == f.mr.ctrlOut
    {
      ctrl, inFlight, log := Play(f, schedule[t], inFlight, log);
      memRdCtrl := memRdCtrl + ctrl;
    }
    assert log.played == schedule;
    ctrl, log := Settle(f, inFlight, log, schedule);
    memRdCtrl := memRdCtrl + ctrl;
    issued, wordsOut, asked := f.cc.issued, f.cc.wordsOut, |f.mr.mdsIn|;
    Outcome(f, log, schedule);
    RunIsHazardFree(log, issued, |issued|);
    assert issued[..|issued|] == issued;
  }

  /** Calls and completions until nothing moves. */
  method Settle(f: Front, inFlight0: nat, ghost log0: Log, ghost schedule: seq<Event>)
    returns (ctrl: seq<MemCtrlWord>, ghost log: Log)
    requires f.Valid() && Logged(f, log0) && log0.played == schedule && inFlight0 == |f.cc.issued| - f.Completed()
    modifies f, f.cc, f.cc.hashFilter, f.cc.hashFilter.filterEntries, f.mr
    ensures f.Valid() && Logged(f, log) && PlaysOn(schedule, log.played)
    ensures f.mr.ctrlOut == old(f.mr.ctrlOut) + ctrl
    ensures f.Completed() == |f.cc.issued| && !f.CanMove() && !f.MemReadCanMove()
  {
    var inFlight := inFlight0;
    ctrl, log := [], log0;
    while inFlight > 0 || f.CanMove() || f.MemReadCanMove()
      invariant f.Valid() && Logged(f, log) && PlaysOn(schedule, log.played)
      invariant inFlight == |f.cc.issued| - f.Completed() && f.mr.ctrlOut == old(f.mr.ctrlOut) + ctrl
      decreases f.Work(), |f.cc2memRead|
    {
      f.WorkLeft();
      var e := if inFlight > 0 then Complete else if f.CanMove() then CallCc else CallMemRead;
      var more;
      more, inFlight, log := Play(f, e, inFlight, log);
      ctrl := ctrl + more;
    }
  }

  lemma {:induction false} Outcome(f: Front, log: Log, schedule: seq<Event>)
    requires f.Valid() && Logged(f, log) && PlaysOn(schedule, log.played)
    requires f.Completed() == |f.cc.issued| && !f.CanMove() && !f.MemReadCanMove()
    ensures var issued, asked := f.cc.issued, |f.mr.mdsIn|;
            && Recorded(log, issued, |issued|)
            && |issued| <= |Mds(schedule)| && |issued| <= |Hashes(schedule)|
            && issued == Paired(Mds(schedule), Hashes(schedule), |issued|)
            && f.cc.wordsOut <= Words(schedule) && Begun(f.cc.wordsOut) == |issued|
            && asked <= |issued| && Commands(issued[..asked], f.mr.ctrlOut)
            && (Fed(schedule) ==> asked == |issued| == |Mds(schedule)|)
  {
    assert Opened(LOGGED);
    NothingArrives(schedule, log.played);
    f.Guarantees();
    assert f.cc.issued[..|f.mr.mdsIn|] == f.mr.mdsIn;
    if Fed(schedule) {
      f.Settled();
    }
  }
}
