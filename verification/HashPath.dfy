/** Keys cut into the twelve-byte words that the hash consumes. */
module KeyChunks {
  import opened Arith
  import opened Words32
  import opened Lookup3

  type Key = seq<Byte>

  /** The key in pieces of twelve bytes; only the last piece may be shorter. */
  function Chunks(key: Key): (cs: seq<Key>)
    ensures |cs| == (|key| + 11) / 12
    decreases |key|
  {
    if |key| == 0 then [] else if |key| <= 12 then [key] else [key[..12]] + Chunks(key[12..])
  }

  function Head(key: Key, n: nat): (k: nat)
    ensures k <= |key| && k <= n
  {
    if |key| < n then |key| else n
  }

  lemma {:induction false} ChunkHead(key: Key)
    requires key != []
    ensures Chunks(key) == [key[..Head(key, 12)]] + Chunks(key[Head(key, 12)..])
  {
    var h := Head(key, 12);
    if |key| <= 12 {
      assert h == |key| && key[..h] == key && key[h..] == [];
      assert Chunks(key[h..]) == [];
      assert Chunks(key) == [key];
    }
  }

  function AllChunks(keys: seq<Key>): seq<Key> {
    if keys == [] then [] else Chunks(keys[0]) + AllChunks(keys[1..])
  }

  /** A ninety-six bit word carries a chunk; its other bytes are stale. */
  ghost predicate Carries(w: seq<Byte>, c: Key) {
    |w| == 12 && |c| <= 12 && w[..|c|] == c
  }

  /** The words ws carry the first chunks of the plan. */
  ghost predicate Carried(ws: seq<seq<Byte>>, plan: seq<Key>) {
    |ws| <= |plan| && forall i :: 0 <= i < |ws| ==> Carries(ws[i], plan[i])
  }

  /** These are the lengths of the keys from number `from` on. */
  ghost predicate LengthsFrom(keys: seq<Key>, from: nat, ls: seq<nat>) {
    from + |ls| <= |keys| && forall i :: 0 <= i < |ls| ==> ls[i] == |keys[from + i]|
  }

  ghost predicate Seeds(vs: seq<U32>, n: nat) {
    |vs| == n && forall i :: 0 <= i < |vs| ==> vs[i] == SEED
  }

  lemma {:induction false} LengthsRead(keys: seq<Key>, from: nat, ls: seq<nat>, n: nat)
    requires LengthsFrom(keys, from, ls) && n <= |ls|
    ensures LengthsFrom(keys, from, ls[..n]) && LengthsFrom(keys, from + n, ls[n..])
  {
    forall i | 0 <= i < |ls| - n ensures ls[n..][i] == |keys[from + n + i]| {
      assert ls[n..][i] == ls[n + i];
    }
  }

  lemma {:induction false} LengthsAppend(keys: seq<Key>, from: nat, a: seq<nat>, b: seq<nat>)
    requires LengthsFrom(keys, from, a) && LengthsFrom(keys, from + |a|, b)
    ensures LengthsFrom(keys, from, a + b)
  {
    forall i | 0 <= i < |a + b| ensures (a + b)[i] == |keys[from + i]| {
      if i >= |a| { var j := i - |a|; assert (a + b)[i] == b[j]; }
    }
  }

  function Hashes(keys: seq<Key>): (hs: seq<U32>)
    ensures |hs| == |keys|
    ensures forall i :: 0 <= i < |keys| ==> hs[i] == HashLittle(keys[i], SEED)
  {
    seq(|keys|, i requires 0 <= i < |keys| => HashLittle(keys[i], SEED))
  }

  /** The low n bytes of a word. */
  function Masked(x: U32, n: int): U32 {
    if n >= 4 then x
    else if n == 3 then x % 0x100_0000
    else if n == 2 then x % 0x1_0000
    else if n == 1 then x % 0x100
    else 0
  }

  /** Masking the words of a short last block is padding it with zeros. */
  lemma {:induction false} AddTail(s: Abc, w: seq<Byte>, n: nat)
    requires |w| == 12 && n <= 12
    ensures Add(s, Padded(w[..n])) == AddWords(s, Masked(LE(w, 0), n), Masked(LE(w, 4), n - 4), Masked(LE(w, 8), n - 8))
  {
    var p, x, y, z := Padded(w[..n]), Masked(LE(w, 0), n), Masked(LE(w, 4), n - 4), Masked(LE(w, 8), n - 8);
    assert LE(p, 0) == x by { TailWord(w, n, 0, n); }
    assert LE(p, 4) == y by { TailWord(w, n, 4, n - 4); }
    assert LE(p, 8) == z by { TailWord(w, n, 8, n - 8); }
  }

  lemma {:induction false} TailWord(w: seq<Byte>, n: nat, i: nat, k: int)
    requires |w| == 12 && n <= 12 && (i == 0 || i == 4 || i == 8) && k == n - i
    ensures LE(Padded(w[..n]), i) == Masked(LE(w, i), k)
  {
    var p := Padded(w[..n]);
    assert p[i] == Kept(w[i], k, 1) && p[i + 1] == Kept(w[i + 1], k, 2)
        && p[i + 2] == Kept(w[i + 2], k, 3) && p[i + 3] == Kept(w[i + 3], k, 4);
    MaskedPack(w[i], w[i + 1], w[i + 2], w[i + 3], k);
  }

  function Kept(b: Byte, k: int, least: nat): Byte {
    if k >= least then b else 0
  }

  lemma {:induction false} MaskedPack(b0: Byte, b1: Byte, b2: Byte, b3: Byte, k: int)
    ensures Masked(Pack(b0, b1, b2, b3), k) == Pack(Kept(b0, k, 1), Kept(b1, k, 2), Kept(b2, k, 3), Kept(b3, k, 4))
  {
    RemainderUnique(Pack(b0, b1, b2, b3), 0x100, b1 + 0x100 * b2 + 0x1_0000 * b3, b0);
    RemainderUnique(Pack(b0, b1, b2, b3), 0x1_0000, b2 + 0x100 * b3, b0 + 0x100 * b1);
    RemainderUnique(Pack(b0, b1, b2, b3), 0x100_0000, b3, b0 + 0x100 * b1 + 0x1_0000 * b2);
  }

  lemma {:induction false} PlusZero(x: U32)
    ensures Plus(x, 0) == x
  {}
}

/** bobj: lookup3 as a ten-state machine, a few operations per call. */
module BobjStage {
  import opened Arith
  import opened Sealing
  import opened Words32
  import opened Lookup3
  import opened KeyChunks

  datatype HashState =
    | HASH_IDLE | HASH_ACC_1 | HASH_ACC_2 | HASH_ACC_3 | HASH_ACC_4
    | HASH_FINAL | HASH_FINAL_MIX_1 | HASH_FINAL_MIX_2 | HASH_FINAL_MIX_3 | HASH_FINAL_MIX_4

  datatype Regs = Regs(state: HashState, abc: Abc, length: nat)

  /** The registers are on the way to hash h, with the bytes `rest` of the current
      key still to be read. */
  ghost predicate Heading(g: Regs, rest: Key, h: U32) {
    match g.state
    case HASH_IDLE => rest == []
    case HASH_ACC_1 => |rest| == g.length > 12 && HashRest(g.abc, rest) == h
    case HASH_ACC_2 => |rest| + 12 == g.length > 12 && HashRest(Mix4(Mix3(Mix2(g.abc))), rest) == h
    case HASH_ACC_3 => |rest| + 12 == g.length > 12 && HashRest(Mix4(Mix3(g.abc)), rest) == h
    case HASH_ACC_4 => |rest| + 12 == g.length > 12 && HashRest(Mix4(g.abc), rest) == h
    case HASH_FINAL => |rest| == g.length <= 12 && HashRest(g.abc, rest) == h
    case HASH_FINAL_MIX_1 => rest == [] && Final4(Final3(Final2(Final1(g.abc)))).c == h
    case HASH_FINAL_MIX_2 => rest == [] && Final4(Final3(Final2(g.abc))).c == h
    case HASH_FINAL_MIX_3 => rest == [] && Final4(Final3(g.abc)).c == h
    case HASH_FINAL_MIX_4 => rest == [] && Final4(g.abc).c == h
  }

  /** The same, sealed. */
  ghost predicate Heads(g: Regs, rest: Key, h: U32) {
    forall k {:trigger Opened(k)} :: Opened(k) && k == HEADING ==> Heading(g, rest, h)
  }

  const HEADING: nat := 18
  const STAGE: nat := 19

  /** States that wait for a word of the key. */
  predicate Reading(g: Regs) {
    g.state == HASH_ACC_1 || (g.state == HASH_FINAL && g.length > 0)
  }

  /** The registers after reading word w. */
  function ReadNext(g: Regs, w: seq<Byte>): Regs
    requires |w| == 12 && Reading(g) && (g.state == HASH_FINAL ==> g.length <= 12)
  {
    if g.state == HASH_ACC_1 then g.(abc := Mix1(Add(g.abc, w)), state := HASH_ACC_2)
    else g.(abc := Add(g.abc, Padded(w[..g.length])), state := HASH_FINAL_MIX_1)
  }

  /** The registers after a call that needs no input. */
  function Tick(g: Regs): Regs {
    match g.state
    case HASH_ACC_2 => g.(abc := Mix2(g.abc), state := HASH_ACC_3)
    case HASH_ACC_3 => g.(abc := Mix3(g.abc), state := HASH_ACC_4)
    case HASH_ACC_4 =>
      if g.length < 12 then g
      else Regs(if g.length - 12 > 12 then HASH_ACC_1 else HASH_FINAL, Mix4(g.abc), g.length - 12)
    case HASH_FINAL => if g.length == 0 then g.(state := HASH_IDLE) else g
    case HASH_FINAL_MIX_1 => g.(abc := Final1(g.abc), state := HASH_FINAL_MIX_2)
    case HASH_FINAL_MIX_2 => g.(abc := Final2(g.abc), state := HASH_FINAL_MIX_3)
    case HASH_FINAL_MIX_3 => g.(abc := Final3(g.abc), state := HASH_FINAL_MIX_4)
    case HASH_FINAL_MIX_4 => g.(abc := Final4(g.abc), state := HASH_IDLE)
    case _ => g
  }

  /** What a call outputs. */
  function Out(g: Regs): seq<U32> {
    if g.state == HASH_FINAL && g.length == 0 then [g.abc.c]
    else if g.state == HASH_FINAL_MIX_4 then [Final4(g.abc).c]
    else []
  }

  /** g' is g after reading word w, sealed. */
  ghost predicate IsRead(g: Regs, w: seq<Byte>, g': Regs) {
    forall k {:trigger Opened(k)} :: Opened(k) && k == HEADING ==>
      |w| == 12 && Reading(g) && (g.state == HASH_FINAL ==> g.length <= 12) && g' == ReadNext(g, w)
  }

  /** g' is g after a call that needs no input, which outputs out, sealed. */
  ghost predicate IsTick(g: Regs, out: seq<U32>, g': Regs) {
    forall k {:trigger Opened(k)} :: Opened(k) && k == HEADING ==> g' == Tick(g) && out == Out(g)
  }

  lemma {:induction false} ReadHeads(g: Regs, rest: Key, h: U32, w: seq<Byte>, g': Regs)
    requires |w| == 12 && Heads(g, rest, h) && IsRead(g, w, g') && w[..Head(rest, 12)] == rest[..Head(rest, 12)]
    ensures Heads(g', rest[Head(rest, 12)..], h) && g'.state != HASH_IDLE
  {
    assert Opened(HEADING);
    if g.state == HASH_ACC_1 {
      assert w == w[..12] == rest[..12];
    } else {
      assert w[..g.length] == rest;
    }
  }

  lemma {:induction false} TickMixing(g: Regs, rest: Key, h: U32)
    requires Heading(g, rest, h) && (g.state == HASH_ACC_2 || g.state == HASH_ACC_3)
    ensures Heading(Tick(g), rest, h) && Tick(g).state != HASH_IDLE && Out(g) == []
  {}

  lemma {:induction false} TickMixed(g: Regs, rest: Key, h: U32)
    requires Heading(g, rest, h) && g.state == HASH_ACC_4
    ensures Heading(Tick(g), rest, h) && Tick(g).state != HASH_IDLE && Out(g) == []
  {
    assert Tick(g).length == g.length - 12;
  }

  lemma {:induction false} TickEmpty(g: Regs, rest: Key, h: U32)
    requires Heading(g, rest, h) && g.state == HASH_FINAL && g.length == 0
    ensures Heading(Tick(g), rest, h) && Tick(g).state == HASH_IDLE && Out(g) == [h] && rest == []
  {}

  lemma {:induction false} TickFinal(g: Regs, rest: Key, h: U32)
    requires Heading(g, rest, h)
    requires g.state == HASH_FINAL_MIX_1 || g.state == HASH_FINAL_MIX_2 || g.state == HASH_FINAL_MIX_3
    ensures Heading(Tick(g), rest, h) && Tick(g).state != HASH_IDLE && Out(g) == []
  {}

  lemma {:induction false} TickLast(g: Regs, rest: Key, h: U32)
    requires Heading(g, rest, h) && g.state == HASH_FINAL_MIX_4
    ensures Heading(Tick(g), rest, h) && Tick(g).state == HASH_IDLE && Out(g) == [h] && rest == []
  {}

  /** Heading, unsealed for one call and sealed again. */
  lemma {:induction false} OpenHeads(g: Regs, rest: Key, h: U32)
    ensures Heads(g, rest, h) <==> Heading(g, rest, h)
  {
    assert Opened(HEADING);
  }

  lemma {:induction false} TickHeads(g: Regs, rest: Key, h: U32, out: seq<U32>, g': Regs)
    requires Heads(g, rest, h) && !Reading(g) && g.state != HASH_IDLE && IsTick(g, out, g')
    ensures Heads(g', rest, h)
    ensures if g'.state == HASH_IDLE then out == [h] && rest == [] else out == []
  {
    OpenHeads(g, rest, h);
    OpenHeads(g', rest, h);
    assert g' == Tick(g) && out == Out(g) by { assert Opened(HEADING); }
    if g.state == HASH_ACC_2 || g.state == HASH_ACC_3 {
      TickMixing(g, rest, h);
    } else if g.state == HASH_ACC_4 {
      TickMixed(g, rest, h);
    } else if g.state == HASH_FINAL {
      TickEmpty(g, rest, h);
    } else if g.state == HASH_FINAL_MIX_4 {
      TickLast(g, rest, h);
    } else {
      TickFinal(g, rest, h);
    }
  }

  /** How many calls that need no input are left before the length is touched. */
  function Rank(state: HashState): nat {
    match state
    case HASH_IDLE => 0
    case HASH_ACC_1 => 0
    case HASH_ACC_2 => 3
    case HASH_ACC_3 => 2
    case HASH_ACC_4 => 1
    case HASH_FINAL => 5
    case HASH_FINAL_MIX_1 => 4
    case HASH_FINAL_MIX_2 => 3
    case HASH_FINAL_MIX_3 => 2
    case HASH_FINAL_MIX_4 => 1
  }

  /** A call that needs no input gets on. */
  lemma {:induction false} TickRanks(g: Regs)
    requires !Reading(g) && g.state != HASH_IDLE && (g.state == HASH_ACC_4 ==> g.length >= 12)
    ensures Tick(g).length < g.length || (Tick(g).length == g.length && Rank(Tick(g).state) < Rank(g.state))
  {
    if g.state == HASH_ACC_4 {
      assert Tick(g).length == g.length - 12;
    } else {
      assert Tick(g).length == g.length;
    }
  }

  /** What Heads says about the length left. */
  lemma {:induction false} LengthLeft(g: Regs, rest: Key, h: U32)
    requires Heads(g, rest, h)
    ensures g.state == HASH_ACC_4 ==> g.length >= 12
    ensures g.state == HASH_FINAL ==> g.length <= 12
    ensures Reading(g) ==> rest != []
  {
    assert Opened(HEADING);
  }

  /** The registers that begin a key are on the way to its hash. */
  lemma {:induction false} BeginHeads(key: Key, h: U32, g: Regs)
    requires h == HashRest(g.abc, key) && g.length == |key|
    requires g.state == if |key| > 12 then HASH_ACC_1 else HASH_FINAL
    ensures Heads(g, key, h) && g.state != HASH_IDLE
  {}

  /** The word of the key that comes next, and what is left after it. */
  lemma {:induction false} NextWord(keys: seq<Key>, wordsIn: seq<seq<Byte>>, key: seq<seq<Byte>>, rest: Key,
                                    todo: seq<Key>)
    requires key != [] && rest != [] && Carried(wordsIn + key, AllChunks(keys))
    requires AllChunks(keys)[|wordsIn|..] == Chunks(rest) + AllChunks(todo)
    ensures |key[0]| == 12 && key[0][..Head(rest, 12)] == rest[..Head(rest, 12)]
    ensures |wordsIn| + 1 <= |AllChunks(keys)|
    ensures AllChunks(keys)[|wordsIn| + 1..] == Chunks(rest[Head(rest, 12)..]) + AllChunks(todo)
  {
    ChunkHead(rest);
    var plan, n := AllChunks(keys), |wordsIn|;
    assert (wordsIn + key)[n] == key[0];
    assert plan[n..][0] == plan[n] && plan[n..][1..] == plan[n + 1..];
  }

  /** The hashes that are to come out, sealed. */
  ghost predicate AreHashes(keys: seq<Key>, hashes: seq<U32>) {
    |hashes| == |keys| && forall k {:trigger Opened(k)} :: Opened(k) && k == HEADING ==> hashes == Hashes(keys)
  }

  /** The first call for a key. */
  lemma {:induction false} BeginHeadsAt(keys: seq<Key>, hashes: seq<U32>, n: nat, g: Regs)
    requires AreHashes(keys, hashes) && n < |keys|
    requires g == Regs(if |keys[n]| > 12 then HASH_ACC_1 else HASH_FINAL, Init(|keys[n]|, SEED), |keys[n]|)
    ensures Heads(g, keys[n], hashes[n]) && g.state != HASH_IDLE
  {
    assert Opened(HEADING);
    assert hashes[n] == HashLittle(keys[n], SEED) == HashRest(g.abc, keys[n]);
    BeginHeads(keys[n], hashes[n], g);
  }

  lemma {:induction false} NextKey(keys: seq<Key>, n: nat)
    requires n < |keys|
    ensures AllChunks(keys[n..]) == Chunks(keys[n]) + AllChunks(keys[n + 1..])
  {
    assert keys[n..][1..] == keys[n + 1..];
  }

  /** Everything bobj keeps true after begun keys: the registers are on the way to
      the hash of the last of them, the others have been output, and the words read
      are those of the keys so far. */
  ghost predicate Keeps(keys: seq<Key>, hashes: seq<U32>, g: Regs, begun: nat, rest: Key, wordsIn: nat,
                        hashOut: seq<U32>) {
    && begun <= |keys| == |hashes| && wordsIn <= |AllChunks(keys)|
    && AllChunks(keys)[wordsIn..] == Chunks(rest) + AllChunks(keys[begun..])
    && if g.state == HASH_IDLE then rest == [] && hashOut == hashes[..begun]
       else begun > 0 && Heads(g, rest, hashes[begun - 1]) && hashOut == hashes[..begun - 1]
  }

  lemma {:induction false} BeginKeeps(keys: seq<Key>, hashes: seq<U32>, g: Regs, begun: nat, rest: Key, wordsIn: nat,
                                      hashOut: seq<U32>, g': Regs)
    requires Keeps(keys, hashes, g, begun, rest, wordsIn, hashOut) && g.state == HASH_IDLE && begun < |keys|
    requires Heads(g', keys[begun], hashes[begun]) && g'.state != HASH_IDLE
    ensures Keeps(keys, hashes, g', begun + 1, keys[begun], wordsIn, hashOut)
  {
    NextKey(keys, begun);
  }

  lemma {:induction false} ReadKeeps(keys: seq<Key>, hashes: seq<U32>, g: Regs, begun: nat, rest: Key, wordsIn: nat,
                                     hashOut: seq<U32>, w: seq<Byte>, g': Regs)
    requires Keeps(keys, hashes, g, begun, rest, wordsIn, hashOut) && Reading(g) && wordsIn < |AllChunks(keys)|
    requires |w| == 12 && IsRead(g, w, g') && w[..Head(rest, 12)] == rest[..Head(rest, 12)]
    requires AllChunks(keys)[wordsIn + 1..] == Chunks(rest[Head(rest, 12)..]) + AllChunks(keys[begun..])
    ensures Keeps(keys, hashes, g', begun, rest[Head(rest, 12)..], wordsIn + 1, hashOut)
  {
    ReadHeads(g, rest, hashes[begun - 1], w, g');
  }

  lemma {:induction false} TickKeeps(keys: seq<Key>, hashes: seq<U32>, g: Regs, begun: nat, rest: Key, wordsIn: nat,
                                     hashOut: seq<U32>, out: seq<U32>, g': Regs)
    requires Keeps(keys, hashes, g, begun, rest, wordsIn, hashOut) && !Reading(g) && g.state != HASH_IDLE
    requires IsTick(g, out, g')
    ensures Keeps(keys, hashes, g', begun, rest, wordsIn, hashOut + out)
  {
    TickHeads(g, rest, hashes[begun - 1], out, g');
    assert hashes[..begun] == hashes[..begun - 1] + [hashes[begun - 1]];
  }

  class Bobj {
    ghost const keys: seq<Key>      // the keys whose words will arrive
    ghost const hashes: seq<U32>    // and their hashes
    var hashState: HashState
    var a: U32
    var b: U32
    var c: U32
    var length: nat
    ghost var begun: nat               // keys whose length has been read
    ghost var rest: Key                // of the current key, still to be read
    ghost var wordsIn: seq<seq<Byte>>
    ghost var hashOut: seq<U32>

    function Registers(): Regs
      reads this
    {
      Regs(hashState, Abc(a, b, c), length)
    }

    ghost predicate Valid()
      reads this
    {
      && AreHashes(keys, hashes)
      && forall k {:trigger Opened(k)} :: Opened(k) && k == STAGE ==>
           Keeps(keys, hashes, Registers(), begun, rest, |wordsIn|, hashOut)
    }

    constructor (ghost keys: seq<Key>)
      ensures Valid() && begun == 0 && wordsIn == [] && hashOut == [] && this.keys == keys && hashState == HASH_IDLE
    {
      this.keys, this.hashes := keys, Hashes(keys);
      hashState, a, b, c, length := HASH_IDLE, 0, 0, 0, 0;
      begun, rest, wordsIn, hashOut := 0, [], [], [];
      assert keys[0..] == keys;
    }

    /** One call, given the waiting words, lengths and seeds: what it reads and
        what it outputs. */
    method Step(key: seq<seq<Byte>>, lengths: seq<nat>, initvals: seq<U32>)
      returns (readWords: seq<seq<Byte>>, readLengths: nat, out: seq<U32>)
      requires Valid() && Carried(wordsIn + key, AllChunks(keys))
      requires LengthsFrom(keys, begun, lengths) && Seeds(initvals, |lengths|)
      modifies this
      ensures Valid() && readWords <= key && readLengths <= |lengths|
      ensures wordsIn == old(wordsIn) + readWords && begun == old(begun) + readLengths && hashOut == old(hashOut) + out
      ensures readLengths == if old(hashState) == HASH_IDLE && lengths != [] then 1 else 0
      ensures |readWords| == if Reading(old(Registers())) && key != [] then 1 else 0
      ensures old(hashState) != HASH_IDLE && !Reading(old(Registers())) ==>
                length < old(length) || (length == old(length) && Rank(hashState) < old(Rank(hashState)))
    {
      readWords, readLengths, out := [], 0, [];
      if hashState == HASH_IDLE {
        if lengths != [] {
          Begin(lengths[0], initvals[0]);
          readLengths := 1;
        }
      } else if hashState == HASH_ACC_1 || (hashState == HASH_FINAL && length > 0) {
        if key != [] {
          readWords := [key[0]];
          TakeWord(key);
        }
      } else {
        out := Think();
      }
    }

    method Begin(len: nat, initval: U32)
      requires Valid() && hashState == HASH_IDLE && begun < |keys| && len == |keys[begun]| && initval == SEED
      modifies this
      ensures Valid() && wordsIn == old(wordsIn) && begun == old(begun) + 1 && hashOut == old(hashOut)
    {
      assert Opened(STAGE);
      ghost var g := Registers();
      SetUp(len, initval);
      BeginHeadsAt(keys, hashes, begun, Registers());
      BeginKeeps(keys, hashes, g, begun, rest, |wordsIn|, hashOut, Registers());
      rest, begun := keys[begun], begun + 1;
    }

    method SetUp(len: nat, initval: U32)
      modifies `hashState, `a, `b, `c, `length
      ensures Registers() == Regs(if len > 12 then HASH_ACC_1 else HASH_FINAL, Init(len, initval), len)
    {
      length := len;
      a := Plus(Plus(0xdeadbeef, length % M32), initval);
      b, c := a, a;
      if length > 12 {
        hashState := HASH_ACC_1;
      } else {
        hashState := HASH_FINAL;
      }
    }

    method TakeWord(key: seq<seq<Byte>>)
      requires Valid() && Reading(Registers()) && key != [] && Carried(wordsIn + key, AllChunks(keys))
      modifies this
      ensures Valid() && wordsIn == old(wordsIn) + [key[0]] && begun == old(begun) && hashOut == old(hashOut)
    {
      assert Opened(STAGE);
      ghost var g := Registers();
      LengthLeft(g, rest, hashes[begun - 1]);
      NextWord(keys, wordsIn, key, rest, keys[begun..]);
      ReadOne(key[0]);
      ReadKeeps(keys, hashes, g, begun, rest, |wordsIn|, hashOut, key[0], Registers());
      rest := rest[Head(rest, 12)..];
      wordsIn := wordsIn + [key[0]];
    }

    method Think() returns (out: seq<U32>)
      requires Valid() && !Reading(Registers()) && hashState != HASH_IDLE
      modifies this
      ensures Valid() && wordsIn == old(wordsIn) && begun == old(begun) && hashOut == old(hashOut) + out
      ensures length < old(length) || (length == old(length) && Rank(hashState) < old(Rank(hashState)))
    {
      assert Opened(STAGE);
      ghost var g := Registers();
      LengthLeft(g, rest, hashes[begun - 1]);
      out := TickOne();
      TickKeeps(keys, hashes, g, begun, rest, |wordsIn|, hashOut, out, Registers());
      hashOut := hashOut + out;
    }

    method ReadOne(w: seq<Byte>)
      requires |w| == 12 && Reading(Registers()) && (hashState == HASH_FINAL ==> length <= 12)
      modifies `a, `b, `c, `hashState
      ensures IsRead(old(Registers()), w, Registers())
    {
      ReadWord(w);
    }

    method TickOne() returns (out: seq<U32>)
      requires !Reading(Registers()) && hashState != HASH_IDLE && (hashState == HASH_ACC_4 ==> length >= 12)
      modifies `a, `b, `c, `hashState, `length
      ensures IsTick(old(Registers()), out, Registers())
      ensures length < old(length) || (length == old(length) && Rank(hashState) < old(Rank(hashState)))
    {
      TickRanks(Registers());
      out := Internal();
    }

    /** The part of a call that reads a word of the key. */
    method ReadWord(inputWord: seq<Byte>)
      requires |inputWord| == 12 && Reading(Registers()) && (hashState == HASH_FINAL ==> length <= 12)
      modifies `a, `b, `c, `hashState
      ensures Registers() == ReadNext(old(Registers()), inputWord)
    {
      var a0, b0, c0 := LE(inputWord, 0), LE(inputWord, 4), LE(inputWord, 8);
      if hashState == HASH_ACC_1 {
        a := Plus(a, a0);
        b := Plus(b, b0);
        c := Plus(c, c0);
        a := Minus(a, c);  a := Xor(a, Rot(c, 4));  c := Plus(c, b);
        hashState := HASH_ACC_2;
      } else {
        AddTail(Abc(a, b, c), inputWord, length);
        AddLast(a0, b0, c0);
        hashState := HASH_FINAL_MIX_1;
      }
    }

    /** The switch over the length of the last block. */
    method AddLast(a0: U32, b0: U32, c0: U32)
      requires 1 <= length <= 12
      modifies `a, `b, `c
      ensures a == Plus(old(a), Masked(a0, length))
      ensures b == Plus(old(b), Masked(b0, length - 4))
      ensures c == Plus(old(c), Masked(c0, length - 8))
    {
      PlusZero(b);
      PlusZero(c);
      match length
      case 12 => a := Plus(a, a0); b := Plus(b, b0); c := Plus(c, c0);
      case 11 => a := Plus(a, a0); b := Plus(b, b0); c := Plus(c, c0 % 0x100_0000);
      case 10 => a := Plus(a, a0); b := Plus(b, b0); c := Plus(c, c0 % 0x1_0000);
      case 9 => a := Plus(a, a0); b := Plus(b, b0); c := Plus(c, c0 % 0x100);
      case 8 => a := Plus(a, a0); b := Plus(b, b0);
      case 7 => a := Plus(a, a0); b := Plus(b, b0 % 0x100_0000);
      case 6 => a := Plus(a, a0); b := Plus(b, b0 % 0x1_0000);
      case 5 => a := Plus(a, a0); b := Plus(b, b0 % 0x100);
      case 4 => a := Plus(a, a0);
      case 3 => a := Plus(a, a0 % 0x100_0000);
      case 2 => a := Plus(a, a0 % 0x1_0000);
      case _ => a := Plus(a, a0 % 0x100);
    }

    /** The part of a call that needs no input. */
    method Internal() returns (out: seq<U32>)
      requires !Reading(Registers()) && (hashState == HASH_ACC_4 ==> length >= 12)
      modifies `a, `b, `c, `hashState, `length
      ensures Registers() == Tick(old(Registers()))
      ensures out == Out(old(Registers()))
    {
      out := [];
      match hashState
      case HASH_IDLE =>
      case HASH_ACC_1 =>
      case HASH_ACC_2 =>
        b := Minus(b, a);  b := Xor(b, Rot(a, 6));  a := Plus(a, c);
        c := Minus(c, b);  c := Xor(c, Rot(b, 8));  b := Plus(b, a);
        hashState := HASH_ACC_3;
      case HASH_ACC_3 =>
        a := Minus(a, c);  a := Xor(a, Rot(c, 16));  c := Plus(c, b);
        b := Minus(b, a);  b := Xor(b, Rot(a, 19));  a := Plus(a, c);
        hashState := HASH_ACC_4;
      case HASH_ACC_4 =>
        c := Minus(c, b);  c := Xor(c, Rot(b, 4));  b := Plus(b, a);
        length := length - 12;
        if length > 12 {
          hashState := HASH_ACC_1;
        } else {
          hashState := HASH_FINAL;
        }
      case HASH_FINAL =>
        out := [c];
        hashState := HASH_IDLE;
      case HASH_FINAL_MIX_1 =>
        c := Xor(c, b);  c := Minus(c, Rot(b, 14));
        a := Xor(a, c);  a := Minus(a, Rot(c, 11));
        hashState := HASH_FINAL_MIX_2;
      case HASH_FINAL_MIX_2 =>
        b := Xor(b, a);  b := Minus(b, Rot(a, 25));
        c := Xor(c, b);  c := Minus(c, Rot(b, 16));
        hashState := HASH_FINAL_MIX_3;
      case HASH_FINAL_MIX_3 =>
        a := Xor(a, c);  a := Minus(a, Rot(c, 4));
        b := Xor(b, a);  b := Minus(b, Rot(a, 14));
        hashState := HASH_FINAL_MIX_4;
      case HASH_FINAL_MIX_4 =>
        c := Xor(c, b);  c := Minus(c, Rot(b, 24));
        out := [c];
        hashState := HASH_IDLE;
    }
  }
}

/** hashKeyResizer: keys arrive as sixteen-byte stripes and leave as twelve-byte
    words. */
module KeyResizerStage {
  import opened Arith
  import opened Sealing
  import opened Words32
  import opened Lookup3
  import opened KeyChunks
  import BobjStage

  datatype Stripe = Stripe(data: seq<Byte>, EOP: bool)

  /** Sixteen bytes of a key, or what is left of it. */
  datatype Piece = Piece(bytes: Key, last: bool)

  function Pieces(key: Key): seq<Piece>
    decreases |key|
  {
    if |key| == 0 then [] else if |key| <= 16 then [Piece(key, true)] else [Piece(key[..16], false)] + Pieces(key[16..])
  }

  function AllPieces(keys: seq<Key>): seq<Piece> {
    if keys == [] then [] else Pieces(keys[0]) + AllPieces(keys[1..])
  }

  lemma {:induction false} PieceHead(key: Key)
    requires key != []
    ensures Pieces(key) == [Piece(key[..Head(key, 16)], |key| <= 16)] + Pieces(key[Head(key, 16)..])
  {
    var h := Head(key, 16);
    if |key| <= 16 {
      assert h == |key| && key[..h] == key && key[h..] == [];
      assert Pieces(key[h..]) == [];
      assert Pieces(key) == [Piece(key, true)];
    }
  }

  ghost predicate IsPiece(s: Stripe, p: Piece) {
    |s.data| == 16 && |p.bytes| <= 16 && s.data[..|p.bytes|] == p.bytes && s.EOP == p.last
  }

  ghost predicate ArePieces(ss: seq<Stripe>, plan: seq<Piece>) {
    |ss| <= |plan| && forall i :: 0 <= i < |ss| ==> IsPiece(ss[i], plan[i])
  }

  /** The lengths after which KS_STEP0 is not left again: a whole number of
      forty-eight byte rounds, at least one, and at most twelve bytes more. */
  predicate Stuck(n: nat) {
    n > 48 && (n - 1) % 48 < 12
  }

  datatype KsState = KS_IDLE | KS_STEP1 | KS_STEP2 | KS_STEP3 | KS_STEP0 | KS_RESIDUE | KS_RESIDUE1 | KS_RESIDUE2

  datatype Regs = Regs(state: KsState, len: nat, out: seq<Byte>, temp: Stripe)

  /** How many bytes of the last stripe have not been output yet. */
  function Behind(state: KsState): nat {
    match state
    case KS_IDLE => 0
    case KS_STEP0 => 0
    case KS_STEP1 => 4
    case KS_RESIDUE => 4
    case KS_STEP2 => 8
    case KS_RESIDUE1 => 8
    case KS_STEP3 => 12
    case KS_RESIDUE2 => 12
  }

  predicate Residue(state: KsState) {
    state == KS_RESIDUE || state == KS_RESIDUE1 || state == KS_RESIDUE2
  }

  /** The registers when `read` bytes of the key have been read and `off` bytes
      have been output. */
  ghost predicate Resizing(g: Regs, key: Key, read: nat, off: nat) {
    && |key| < 256 && |g.out| == 12 && |g.temp.data| == 16
    && off % 12 == 0
    && if g.state == KS_IDLE then off >= |key| && read >= |key| && !Stuck(|key|)
       else if g.state == KS_STEP0 && off >= |key| then
         read >= |key| && Stuck(|key|) && 1 <= g.len <= 12
       else
         && off < |key| && off + Behind(g.state) == read
         && (read <= |key| ==> g.temp.data[16 - Behind(g.state)..] == key[off..read])
         && (read > |key| ==> g.temp.data[16 - Behind(g.state)..][..|key| - off] == key[off..])
         && (if Residue(g.state) then read >= |key| else read < |key|)
         && (if g.state == KS_STEP0 then read >= 48 && g.len == |key| - read else g.len == |key| + 16 - read)
         && read % 48 == (if Behind(g.state) == 4 then 16 else if Behind(g.state) == 8 then 32 else 0)
  }

  /** The same, sealed. */
  ghost predicate Resizes(g: Regs, key: Key, read: nat, off: nat) {
    forall k {:trigger Opened(k)} :: Opened(k) && k == RESIZING ==> Resizing(g, key, read, off)
  }

  const RESIZING: nat := 20

  predicate Reading(state: KsState) {
    state == KS_STEP0 || state == KS_STEP1 || state == KS_STEP2
  }

  /** The word output when stripe s is read. */
  function ReadOut(g: Regs, s: Stripe): seq<Byte>
    requires |g.temp.data| == |s.data| == 16
  {
    g.temp.data[16 - Behind(g.state)..] + s.data[..12 - Behind(g.state)]
  }

  function ReadNext(g: Regs, s: Stripe): Regs
    requires |g.temp.data| == |s.data| == 16
  {
    var word := ReadOut(g, s);
    match g.state
    case KS_STEP0 =>
      Regs(if g.len <= 12 then KS_STEP0 else if s.EOP then KS_RESIDUE else KS_STEP1, g.len, word, s)
    case KS_STEP1 =>
      var len := (g.len - 16) % 256;
      Regs(if len <= 8 then KS_IDLE else if s.EOP then KS_RESIDUE1 else KS_STEP2, len, word, s)
    case KS_STEP2 =>
      var len := (g.len - 16) % 256;
      Regs(if len <= 4 then KS_IDLE else if s.EOP then KS_RESIDUE2 else KS_STEP3, len, word, s)
    case _ => g
  }

  /** g' is g after reading stripe s, and w the word output, sealed. */
  ghost predicate IsRead(g: Regs, s: Stripe, w: seq<Byte>, g': Regs) {
    forall k {:trigger Opened(k)} :: Opened(k) && k == RESIZING ==>
      |g.temp.data| == |s.data| == 16 && Reading(g.state) && g' == ReadNext(g, s) && w == ReadOut(g, s)
  }

  /** The first stripe of a key. */
  function FirstNext(len: nat, s: Stripe): Regs
    requires |s.data| == 16
  {
    Regs(if len <= 12 then KS_IDLE else if s.EOP then KS_RESIDUE else KS_STEP1, len, s.data[..12], s)
  }

  /** The word output by a call that needs no input. */
  function FlushOut(g: Regs): seq<Byte>
    requires |g.temp.data| == 16 && |g.out| == 12
  {
    g.temp.data[16 - Behind(g.state)..] + g.out[Behind(g.state)..]
  }

  function FlushNext(g: Regs): Regs
    requires |g.temp.data| == 16 && |g.out| == 12
  {
    if g.state == KS_STEP3 then
      var len := (g.len - 16) % 256;
      Regs(if len > 0 then KS_STEP0 else KS_IDLE, len, FlushOut(g), g.temp)
    else
      Regs(KS_IDLE, g.len, FlushOut(g), g.temp)
  }

  lemma {:induction false} FirstResizes(key: Key, s: Stripe)
    requires 0 < |key| < 256 && |s.data| == 16
    requires IsPiece(s, Piece(key[..Head(key, 16)], |key| <= 16))
    ensures Resizing(FirstNext(|key|, s), key, 16, 12)
    ensures Carries(s.data[..12], key[..Head(key, 12)])
  {
    var h := Head(key, 16);
    assert s.data[..h] == key[..h];
    assert forall i :: 0 <= i < h ==> s.data[i] == key[..h][i];
  }

  lemma {:induction false} ReadResizes(g: Regs, key: Key, read: nat, off: nat, s: Stripe, w: seq<Byte>, g': Regs)
    requires Resizes(g, key, read, off) && read < |key| && |s.data| == 16 && IsRead(g, s, w, g')
    requires var rest := key[read..]; IsPiece(s, Piece(rest[..Head(rest, 16)], |rest| <= 16))
    ensures Resizes(g', key, read + 16, off + 12)
  {
    assert Opened(RESIZING);
    LastBytes(key, read, s, Behind(g'.state));
  }

  /** The last d bytes of the stripe, as far as they belong to the key. */
  lemma {:induction false} LastBytes(key: Key, read: nat, s: Stripe, d: nat)
    requires read < |key| && |s.data| == 16 && d <= 12
    requires var rest := key[read..]; IsPiece(s, Piece(rest[..Head(rest, 16)], |rest| <= 16))
    ensures read + 16 <= |key| ==> s.data[16 - d..] == key[read + 16 - d..read + 16]
    ensures read + 16 - d < |key| < read + 16 ==>
              s.data[16 - d..][..|key| - (read + 16 - d)] == key[read + 16 - d..]
  {
    StripeBytes(key, read, s);
  }

  /** What the registers are fit for. */
  lemma {:induction false} Fit(g: Regs, key: Key, read: nat, off: nat)
    requires Resizes(g, key, read, off)
    ensures |g.out| == 12 && |g.temp.data| == 16
    ensures g.state == KS_STEP3 || Residue(g.state) || (Reading(g.state) && read < |key|) ==> off < |key|
  {
    assert Opened(RESIZING);
  }

  lemma {:induction false} StripeBytes(key: Key, read: nat, s: Stripe)
    requires read < |key| && |s.data| == 16
    requires var rest := key[read..]; IsPiece(s, Piece(rest[..Head(rest, 16)], |rest| <= 16))
    ensures forall i :: 0 <= i < 16 && read + i < |key| ==> s.data[i] == key[read + i]
  {
    var rest := key[read..];
    assert forall i :: 0 <= i < Head(rest, 16) ==> s.data[i] == rest[..Head(rest, 16)][i];
  }

  lemma {:induction false} ReadCarries(g: Regs, key: Key, read: nat, off: nat, s: Stripe, w: seq<Byte>, g': Regs)
    requires Resizes(g, key, read, off) && off < |key| && read < |key| && |s.data| == 16 && IsRead(g, s, w, g')
    requires var rest := key[read..]; IsPiece(s, Piece(rest[..Head(rest, 16)], |rest| <= 16))
    ensures var rest := key[off..]; Carries(w, rest[..Head(rest, 12)])
  {
    assert Opened(RESIZING);
    StripeBytes(key, read, s);
    var d, left := Behind(g.state), key[off..];
    forall j | 0 <= j < Head(left, 12) ensures w[j] == left[j] {
      if j < d {
        assert g.temp.data[16 - d..][j] == key[off..read][j];
      } else {
        var i := j - d;
        assert w[j] == s.data[i] && left[j] == key[read + i];
      }
    }
  }

  /** g' is g after a call that needs no input, and w the word output, sealed. */
  ghost predicate IsFlush(g: Regs, w: seq<Byte>, g': Regs) {
    forall k {:trigger Opened(k)} :: Opened(k) && k == RESIZING ==>
      |g.temp.data| == 16 && |g.out| == 12 && g' == FlushNext(g) && w == FlushOut(g)
  }

  lemma {:induction false} FlushResizes(g: Regs, key: Key, read: nat, off: nat, w: seq<Byte>, g': Regs)
    requires Resizes(g, key, read, off) && (g.state == KS_STEP3 || Residue(g.state)) && IsFlush(g, w, g')
    ensures Resizes(g', key, read, off + 12)
  {
    assert Opened(RESIZING);
    if Residue(g.state) {
      NotStuck(|key|, read, Behind(g.state));
    }
  }

  lemma {:induction false} NotStuck(n: nat, read: nat, d: nat)
    requires read - d < n <= read
    requires (d == 4 && read % 48 == 16) || (d == 8 && read % 48 == 32) || (d == 12 && read % 48 == 0)
    ensures !Stuck(n)
  {
    var u := read / 48 - if d == 12 then 1 else 0;
    assert n - 1 == 48 * u + (n - 1 - 48 * u);
  }

  lemma {:induction false} FlushCarries(g: Regs, key: Key, read: nat, off: nat, w: seq<Byte>, g': Regs)
    requires Resizes(g, key, read, off) && (g.state == KS_STEP3 || Residue(g.state)) && off < |key| && IsFlush(g, w, g')
    ensures var rest := key[off..]; Carries(w, rest[..Head(rest, 12)])
  {
    assert Opened(RESIZING);
    var d, left := Behind(g.state), key[off..];
    forall j | 0 <= j < Head(left, 12) ensures w[j] == left[j] {
      if read <= |key| {
        assert g.temp.data[16 - d..][j] == key[off..read][j];
      } else {
        assert g.temp.data[16 - d..][..|key| - off][j] == left[j];
      }
    }
  }

  function Rest(key: Key, n: nat): Key {
    if n <= |key| then key[n..] else []
  }

  ghost predicate KeysOk(keys: seq<Key>) {
    forall i :: 0 <= i < |keys| ==> 0 < |keys[i]| < 256
  }

  /** Only the last key may have a length that leaves the resizer stuck. */
  ghost predicate OnlyLastStuck(keys: seq<Key>) {
    forall i :: 0 <= i < |keys| - 1 ==> !Stuck(|keys[i]|)
  }

  /** Everything the resizer keeps true after begun keys. */
  ghost predicate Keeps(keys: seq<Key>, g: Regs, begun: nat, key: Key, read: nat, off: nat, stripesIn: nat,
                        words: seq<seq<Byte>>) {
    && begun <= |keys| && Resizes(g, key, read, off) && key == (if begun > 0 then keys[begun - 1] else [])
    && InLeft(keys, stripesIn, Rest(key, read), keys[begun..])
    && OutLeft(keys, words, Rest(key, off), keys[begun..])
  }

  /** The stripes still to be read are those of `rest` and of the keys to do. */
  ghost predicate InLeft(keys: seq<Key>, stripesIn: nat, rest: Key, todo: seq<Key>) {
    stripesIn <= |AllPieces(keys)| && AllPieces(keys)[stripesIn..] == Pieces(rest) + AllPieces(todo)
  }

  /** The words output are right so far, and those still to be output are those of
      `rest` and of the keys to do. */
  ghost predicate OutLeft(keys: seq<Key>, words: seq<seq<Byte>>, rest: Key, todo: seq<Key>) {
    Carried(words, AllChunks(keys)) && AllChunks(keys)[|words|..] == Chunks(rest) + AllChunks(todo)
  }

  /** A key that has been output completely leaves the resizer ready for the next
      one if and only if its length is not one of the stuck ones. */
  lemma {:induction false} ReadyIffNotStuck(keys: seq<Key>, g: Regs, begun: nat, key: Key, read: nat, off: nat,
                                            stripesIn: nat, words: seq<seq<Byte>>)
    requires Keeps(keys, g, begun, key, read, off, stripesIn, words) && begun > 0 && off >= |key| > 0
    ensures g.state == KS_IDLE <==> !Stuck(|keys[begun - 1]|)
    ensures g.state != KS_IDLE ==> g.state == KS_STEP0 && g.len <= 12
  {
    assert Opened(RESIZING);
  }

  /** The registers after reading stripes in states that do nothing else. */
  function ReadAll(g: Regs, ss: seq<Stripe>): (g': Regs)
    requires |g.temp.data| == 16 && forall i :: 0 <= i < |ss| ==> |ss[i].data| == 16
    ensures |g'.temp.data| == 16
    decreases |ss|
  {
    if ss == [] then g else ReadNext(ReadAll(g, ss[..|ss| - 1]), ss[|ss| - 1])
  }

  /** Once stuck, the resizer never reads another length: whatever stripes come, it
      turns each of them into a word and stays stuck. */
  lemma {:induction false} StuckForever(g: Regs, ss: seq<Stripe>)
    requires g.state == KS_STEP0 && g.len <= 12 && |g.temp.data| == 16
    requires forall i :: 0 <= i < |ss| ==> |ss[i].data| == 16
    ensures var g' := ReadAll(g, ss); g'.state == KS_STEP0 && g'.len == g.len
    ensures ss != [] ==> ReadAll(g, ss).out == ss[|ss| - 1].data[..12]
    decreases |ss|
  {
    if ss != [] {
      StuckForever(g, ss[..|ss| - 1]);
    }
  }

  /** A key of forty-nine bytes, in four stripes, is the shortest one that sticks. */
  lemma {:induction false} FortyNineSticks(s0: Stripe, s1: Stripe, s2: Stripe, s3: Stripe)
    requires |s0.data| == |s1.data| == |s2.data| == |s3.data| == 16
    requires !s0.EOP && !s1.EOP && !s2.EOP && s3.EOP
    ensures var g := ReadNext(FlushNext(ReadNext(ReadNext(FirstNext(49, s0), s1), s2)), s3);
            g.state == KS_STEP0 && g.len == 1
    ensures forall n :: Stuck(n) ==> n >= 49
  {}

  lemma {:induction false} NextPiece(keys: seq<Key>, stripesIn: seq<Stripe>, stripes: seq<Stripe>, rest: Key,
                                     todo: seq<Key>)
    requires stripes != [] && rest != [] && ArePieces(stripesIn + stripes, AllPieces(keys))
    requires InLeft(keys, |stripesIn|, rest, todo)
    ensures |stripes[0].data| == 16 && IsPiece(stripes[0], Piece(rest[..Head(rest, 16)], |rest| <= 16))
    ensures InLeft(keys, |stripesIn| + 1, rest[Head(rest, 16)..], todo)
  {
    PieceHead(rest);
    var x, more := Piece(rest[..Head(rest, 16)], |rest| <= 16), Pieces(rest[Head(rest, 16)..]);
    NextOf(AllPieces(keys), |stripesIn|, x, more, AllPieces(todo));
    FirstIsPiece(stripesIn, stripes, AllPieces(keys));
  }

  lemma {:induction false} NextOf<T>(plan: seq<T>, n: nat, x: T, a: seq<T>, b: seq<T>)
    requires n <= |plan| && plan[n..] == ([x] + a) + b
    ensures n < |plan| && plan[n] == x && plan[n + 1..] == a + b
  {
    assert plan[n..][0] == plan[n] && plan[n..][1..] == plan[n + 1..];
  }

  lemma {:induction false} FirstIsPiece(stripesIn: seq<Stripe>, stripes: seq<Stripe>, plan: seq<Piece>)
    requires stripes != [] && ArePieces(stripesIn + stripes, plan)
    ensures |stripesIn| < |plan| && IsPiece(stripes[0], plan[|stripesIn|])
  {
    assert (stripesIn + stripes)[|stripesIn|] == stripes[0];
  }

  lemma {:induction false} EmitWord(keys: seq<Key>, words: seq<seq<Byte>>, w: seq<Byte>, rest: Key, todo: seq<Key>)
    requires rest != [] && OutLeft(keys, words, rest, todo) && Carries(w, rest[..Head(rest, 12)])
    ensures OutLeft(keys, words + [w], rest[Head(rest, 12)..], todo)
  {
    ChunkHead(rest);
    var plan, n := AllChunks(keys), |words|;
    assert plan[n..][0] == plan[n] && plan[n..][1..] == plan[n + 1..];
  }

  lemma {:induction false} RestStep(key: Key, n: nat, k: nat)
    requires n < |key|
    ensures Rest(key, n) == key[n..] && Rest(key, n + k) == key[n..][Head(key[n..], k)..]
  {}

  // The resizer run to its end: how many lengths it reads.

  ghost predicate Sixteen(ss: seq<Stripe>) {
    forall i :: 0 <= i < |ss| ==> |ss[i].data| == 16
  }

  predicate Fits(g: Regs) {
    |g.out| == 12 && |g.temp.data| == 16
  }

  predicate Flushing(state: KsState) {
    state == KS_STEP3 || Residue(state)
  }

  ghost function LengthsTaken(g: Regs, lens: seq<nat>, ss: seq<Stripe>): nat
    requires Fits(g) && Sixteen(ss)
    decreases |ss|, if Flushing(g.state) then 1 else 0
  {
    if Flushing(g.state) then LengthsTaken(FlushNext(g), lens, ss)
    else if ss == [] then 0
    else if g.state != KS_IDLE then LengthsTaken(ReadNext(g, ss[0]), lens, ss[1..])
    else if lens == [] then 0
    else 1 + LengthsTaken(FirstNext(lens[0], ss[0]), lens[1..], ss[1..])
  }

  lemma {:induction false} NoneTaken(g: Regs, lens: seq<nat>, ss: seq<Stripe>)
    requires Fits(g) && Sixteen(ss) && g.state == KS_STEP0 && g.len <= 12
    ensures LengthsTaken(g, lens, ss) == 0
    decreases |ss|
  {
    if ss != [] {
      NoneTaken(ReadNext(g, ss[0]), lens, ss[1..]);
    }
  }

  /** From g with the stripes ss the resizer reads as many lengths as from g' with the
      stripes ss', sealed. */
  ghost predicate SameTaken(g: Regs, ss: seq<Stripe>, g': Regs, ss': seq<Stripe>, lens: seq<nat>) {
    forall k {:trigger Opened(k)} :: Opened(k) && k == TAKEN ==>
      && Fits(g) && Fits(g') && Sixteen(ss) && Sixteen(ss')
      && LengthsTaken(g, lens, ss) == LengthsTaken(g', lens, ss')
  }

  const TAKEN: nat := 31

  lemma {:induction false} TakenFlush(g: Regs, ss: seq<Stripe>, g': Regs, ss': seq<Stripe>, lens: seq<nat>)
    requires Fits(g) && Sixteen(ss) && Flushing(g.state) && SameTaken(FlushNext(g), ss, g', ss', lens)
    ensures SameTaken(g, ss, g', ss', lens)
  {
    assert Opened(TAKEN);
  }

  lemma {:induction false} TakenRead(g: Regs, ss: seq<Stripe>, more: seq<Stripe>, g': Regs, ss': seq<Stripe>,
                                     lens: seq<nat>)
    requires Fits(g) && Sixteen(ss) && Sixteen(more) && Reading(g.state) && ss != []
    requires SameTaken(ReadNext(g, ss[0]), ss[1..] + more, g', ss', lens)
    ensures SameTaken(g, ss + more, g', ss', lens)
  {
    assert Opened(TAKEN);
    assert (ss + more)[0] == ss[0] && (ss + more)[1..] == ss[1..] + more;
  }

  /** Where a call that needs input finds the key. */
  lemma {:induction false} AtInput(g: Regs, key: Key, read: nat, off: nat)
    requires Resizes(g, key, read, off) && !Flushing(g.state)
    ensures Fits(g)
    ensures read < |key| ==> Reading(g.state)
    ensures read >= |key| ==> if Stuck(|key|) then g.state == KS_STEP0 && g.len <= 12 else g.state == KS_IDLE
  {
    assert Opened(RESIZING);
  }

  lemma {:induction false} OneStripe(g: Regs, key: Key, read: nat, off: nat, ss: seq<Stripe>)
    requires Resizes(g, key, read, off) && Reading(g.state) && Fits(g) && read < |key|
    requires ArePieces(ss, Pieces(Rest(key, read))) && |ss| == |Pieces(Rest(key, read))|
    ensures ss != [] && |ss[0].data| == 16 && Resizes(ReadNext(g, ss[0]), key, read + 16, off + 12)
    ensures var rest := Pieces(Rest(key, read + 16)); ArePieces(ss[1..], rest) && |ss[1..]| == |rest|
  {
    PieceHead(key[read..]);
    RestStep(key, read, 16);
    assert IsPiece(ss[0], Pieces(key[read..])[0]);
    ReadResizes(g, key, read, off, ss[0], ReadOut(g, ss[0]), ReadNext(g, ss[0]));
  }

  /** What is left of a key is read and output; then the resizer is ready or stuck,
      by the length of the key. */
  lemma {:induction false} OneKey(g: Regs, key: Key, read: nat, off: nat, lens: seq<nat>, ss: seq<Stripe>,
                                  more: seq<Stripe>)
    returns (g': Regs)
    requires Resizes(g, key, read, off) && Sixteen(ss) && Sixteen(more)
    requires ArePieces(ss, Pieces(Rest(key, read))) && |ss| == |Pieces(Rest(key, read))|
    ensures Fits(g) && Fits(g')
    ensures if Stuck(|key|) then g'.state == KS_STEP0 && g'.len <= 12 else g'.state == KS_IDLE
    ensures SameTaken(g, ss + more, g', more, lens)
    decreases |ss|, if Flushing(g.state) then 1 else 0
  {
    Fit(g, key, read, off);
    if Flushing(g.state) {
      FlushResizes(g, key, read, off, FlushOut(g), FlushNext(g));
      g' := OneKey(FlushNext(g), key, read, off + 12, lens, ss, more);
      TakenFlush(g, ss + more, g', more, lens);
    } else {
      AtInput(g, key, read, off);
      if read >= |key| {
        g' := g;
        assert ss + more == more;
      } else {
        OneStripe(g, key, read, off, ss);
        g' := OneKey(ReadNext(g, ss[0]), key, read + 16, off + 12, lens, ss[1..], more);
        TakenRead(g, ss, more, g', more, lens);
      }
    }
  }

  /** The first key of a run. */
  lemma {:induction false} FirstKey(g: Regs, keys: seq<Key>, lens: seq<nat>, ss: seq<Stripe>)
    returns (g': Regs, more: seq<Stripe>)
    requires KeysOk(keys) && keys != [] && Fits(g) && g.state == KS_IDLE && Sixteen(ss)
    requires lens != [] && lens[0] == |keys[0]|
    requires ArePieces(ss, AllPieces(keys)) && |ss| == |AllPieces(keys)|
    ensures Fits(g') && Sixteen(more) && LengthsTaken(g, lens, ss) == 1 + LengthsTaken(g', lens[1..], more)
    ensures if Stuck(|keys[0]|) then g'.state == KS_STEP0 && g'.len <= 12 else g'.state == KS_IDLE
    ensures ArePieces(more, AllPieces(keys[1..])) && |more| == |AllPieces(keys[1..])|
  {
    var key, n := keys[0], |Pieces(keys[0])|;
    PieceHead(key);
    assert key[0..] == key;
    RestStep(key, 0, 16);
    var first := ss[1..n];
    more := ss[n..];
    assert ss[1..] == first + more;
    FirstResizes(key, ss[0]);
    g' := OneKey(FirstNext(|key|, ss[0]), key, 16, 12, lens[1..], first, more);
    assert Opened(TAKEN);
  }

  /** All lengths of a run are read exactly if only the last key is of a stuck
      length. */
  lemma {:induction false} AllTakenIff(g: Regs, keys: seq<Key>, lens: seq<nat>, ss: seq<Stripe>)
    requires KeysOk(keys) && Fits(g) && g.state == KS_IDLE && Sixteen(ss)
    requires |lens| == |keys| && LengthsFrom(keys, 0, lens)
    requires ArePieces(ss, AllPieces(keys)) && |ss| == |AllPieces(keys)|
    ensures LengthsTaken(g, lens, ss) == |keys| <==> OnlyLastStuck(keys)
    decreases |keys|
  {
    if keys != [] {
      var g', more := FirstKey(g, keys, lens, ss);
      assert forall i :: 0 <= i < |keys| - 1 ==> keys[1..][i] == keys[i + 1];
      if Stuck(|keys[0]|) {
        NoneTaken(g', lens[1..], more);
      } else {
        AllTakenIff(g', keys[1..], lens[1..], more);
        OnlyLastStep(keys);
      }
    }
  }

  lemma {:induction false} OnlyLastStep(keys: seq<Key>)
    requires keys != [] && !Stuck(|keys[0]|)
    ensures OnlyLastStuck(keys) <==> OnlyLastStuck(keys[1..])
  {
    var todo := keys[1..];
    if OnlyLastStuck(todo) {
      forall i | 0 <= i < |keys| - 1 ensures !Stuck(|keys[i]|) {
        if i > 0 { var j := i - 1; assert keys[i] == todo[j]; }
      }
    }
  }

  lemma {:induction false} BeginKeeps(keys: seq<Key>, g: Regs, begun: nat, key: Key, read: nat, off: nat,
                                      stripesIn: seq<Stripe>, words: seq<seq<Byte>>, stripes: seq<Stripe>)
    requires KeysOk(keys) && begun < |keys| && g.state == KS_IDLE
    requires Keeps(keys, g, begun, key, read, off, |stripesIn|, words)
    requires stripes != [] && ArePieces(stripesIn + stripes, AllPieces(keys))
    ensures var s, k := stripes[0], keys[begun];
            |s.data| == 16 &&
            Keeps(keys, FirstNext(|k|, s), begun + 1, k, 16, 12, |stripesIn| + 1, words + [s.data[..12]])
  {
    assert Opened(RESIZING);
    var k := keys[begun];
    assert keys[begun..][1..] == keys[begun + 1..];
    assert AllPieces(keys[begun..]) == Pieces(k) + AllPieces(keys[begun + 1..]);
    assert AllChunks(keys[begun..]) == Chunks(k) + AllChunks(keys[begun + 1..]);
    assert Rest(key, read) == [] && Rest(key, off) == [];
    NextPiece(keys, stripesIn, stripes, k, keys[begun + 1..]);
    FirstResizes(k, stripes[0]);
    EmitWord(keys, words, stripes[0].data[..12], k, keys[begun + 1..]);
    assert k[0..] == k;
    RestStep(k, 0, 16);
    RestStep(k, 0, 12);
  }

  /** If only the last key may get the resizer stuck, a reading state that still
      has stripes to come has not finished its key. */
  lemma {:induction false} Unfinished(keys: seq<Key>, g: Regs, begun: nat, key: Key, read: nat, off: nat,
                                      stripesIn: nat, words: seq<seq<Byte>>)
    requires OnlyLastStuck(keys) && Reading(g.state)
    requires Keeps(keys, g, begun, key, read, off, stripesIn, words)
    ensures off >= |key| ==> stripesIn == |AllPieces(keys)|
    ensures off < |key| ==> read < |key|
  {
    assert Opened(RESIZING);
    if off >= |key| {
      assert begun == |keys|;
      assert Rest(key, read) == [] && keys[begun..] == [];
    }
  }

  /** Before a stripe is read the key is not finished. */
  lemma {:induction false} BeforeRead(keys: seq<Key>, g: Regs, begun: nat, key: Key, read: nat, off: nat,
                                      stripesIn: seq<Stripe>, words: seq<seq<Byte>>, stripes: seq<Stripe>)
    requires OnlyLastStuck(keys) && Reading(g.state) && Keeps(keys, g, begun, key, read, off, |stripesIn|, words)
    requires stripes != [] && ArePieces(stripesIn + stripes, AllPieces(keys))
    ensures read < |key| && off < |key| && |g.temp.data| == 16 && |stripes[0].data| == 16
  {
    Unfinished(keys, g, begun, key, read, off, |stripesIn|, words);
    assert |stripesIn + stripes| > |stripesIn|;
    StripeLeft(keys, stripesIn, stripes, key, read, keys[begun..]);
    Fit(g, key, read, off);
  }

  lemma {:induction false} ReadKeeps(keys: seq<Key>, g: Regs, begun: nat, key: Key, read: nat, off: nat,
                                     stripesIn: seq<Stripe>, words: seq<seq<Byte>>, stripes: seq<Stripe>, w: seq<Byte>,
                                     g': Regs)
    requires Keeps(keys, g, begun, key, read, off, |stripesIn|, words) && read < |key| && off < |key|
    requires stripes != [] && |stripes[0].data| == 16 && ArePieces(stripesIn + stripes, AllPieces(keys))
    requires IsRead(g, stripes[0], w, g')
    ensures Keeps(keys, g', begun, key, read + 16, off + 12, |stripesIn| + 1, words + [w])
  {
    StripeLeft(keys, stripesIn, stripes, key, read, keys[begun..]);
    ReadResizes(g, key, read, off, stripes[0], w, g');
    ReadCarries(g, key, read, off, stripes[0], w, g');
    WordLeft(keys, words, w, key, off, keys[begun..]);
  }

  lemma {:induction false} StripeLeft(keys: seq<Key>, stripesIn: seq<Stripe>, stripes: seq<Stripe>, key: Key,
                                      read: nat, todo: seq<Key>)
    requires read < |key| && InLeft(keys, |stripesIn|, Rest(key, read), todo)
    requires stripes != [] && ArePieces(stripesIn + stripes, AllPieces(keys))
    ensures |stripes[0].data| == 16 && InLeft(keys, |stripesIn| + 1, Rest(key, read + 16), todo)
    ensures var rest := key[read..]; IsPiece(stripes[0], Piece(rest[..Head(rest, 16)], |rest| <= 16))
  {
    RestStep(key, read, 16);
    NextPiece(keys, stripesIn, stripes, key[read..], todo);
  }

  lemma {:induction false} WordLeft(keys: seq<Key>, words: seq<seq<Byte>>, w: seq<Byte>, key: Key, off: nat,
                                    todo: seq<Key>)
    requires off < |key| && OutLeft(keys, words, Rest(key, off), todo)
    requires var rest := key[off..]; Carries(w, rest[..Head(rest, 12)])
    ensures OutLeft(keys, words + [w], Rest(key, off + 12), todo)
  {
    RestStep(key, off, 12);
    EmitWord(keys, words, w, key[off..], todo);
  }

  lemma {:induction false} FlushKeeps(keys: seq<Key>, g: Regs, begun: nat, key: Key, read: nat, off: nat,
                                      stripesIn: nat, words: seq<seq<Byte>>, w: seq<Byte>, g': Regs)
    requires Keeps(keys, g, begun, key, read, off, stripesIn, words) && (g.state == KS_STEP3 || Residue(g.state))
    requires IsFlush(g, w, g')
    ensures Keeps(keys, g', begun, key, read, off + 12, stripesIn, words + [w])
  {
    Fit(g, key, read, off);
    FlushResizes(g, key, read, off, w, g');
    FlushCarries(g, key, read, off, w, g');
    WordLeft(keys, words, w, key, off, keys[begun..]);
  }

  /** Keeps for keys of which only the last may get the resizer stuck, sealed. */
  ghost predicate KeptUp(keys: seq<Key>, g: Regs, begun: nat, key: Key, read: nat, off: nat, n: nat,
                       words: seq<seq<Byte>>)
  {
    forall k {:trigger Opened(k)} :: Opened(k) && k == BobjStage.STAGE ==>
      KeysOk(keys) && OnlyLastStuck(keys) && Keeps(keys, g, begun, key, read, off, n, words)
  }

  lemma {:induction false} BeginKept(keys: seq<Key>, g: Regs, begun: nat, key: Key, read: nat, off: nat,
                                     stripesIn: seq<Stripe>, words: seq<seq<Byte>>, stripes: seq<Stripe>)
    requires begun < |keys| && g.state == KS_IDLE
    requires KeptUp(keys, g, begun, key, read, off, |stripesIn|, words)
    requires stripes != [] && ArePieces(stripesIn + stripes, AllPieces(keys))
    ensures var s, k := stripes[0], keys[begun];
            |s.data| == 16
            && KeptUp(keys, FirstNext(|k|, s), begun + 1, k, 16, 12, |stripesIn| + 1, words + [s.data[..12]])
  {
    assert Opened(BobjStage.STAGE);
    BeginKeeps(keys, g, begun, key, read, off, stripesIn, words, stripes);
  }

  lemma {:induction false} ReadFits(keys: seq<Key>, g: Regs, begun: nat, key: Key, read: nat, off: nat,
                                    stripesIn: seq<Stripe>, words: seq<seq<Byte>>, stripes: seq<Stripe>)
    requires Reading(g.state) && KeptUp(keys, g, begun, key, read, off, |stripesIn|, words)
    requires stripes != [] && ArePieces(stripesIn + stripes, AllPieces(keys))
    ensures |g.temp.data| == 16 && |stripes[0].data| == 16
  {
    assert Opened(BobjStage.STAGE);
    BeforeRead(keys, g, begun, key, read, off, stripesIn, words, stripes);
  }

  lemma {:induction false} ReadKept(keys: seq<Key>, g: Regs, begun: nat, key: Key, read: nat, off: nat,
                                    stripesIn: seq<Stripe>, words: seq<seq<Byte>>, stripes: seq<Stripe>, w: seq<Byte>,
                                    g': Regs, read': nat, off': nat, n: nat, words': seq<seq<Byte>>)
    requires Reading(g.state) && KeptUp(keys, g, begun, key, read, off, |stripesIn|, words)
    requires stripes != [] && ArePieces(stripesIn + stripes, AllPieces(keys)) && IsRead(g, stripes[0], w, g')
    requires read' == read + 16 && off' == off + 12 && n == |stripesIn| + 1 && words' == words + [w]
    ensures KeptUp(keys, g', begun, key, read', off', n, words')
  {
    assert Opened(BobjStage.STAGE);
    BeforeRead(keys, g, begun, key, read, off, stripesIn, words, stripes);
    ReadKeeps(keys, g, begun, key, read, off, stripesIn, words, stripes, w, g');
  }

  lemma {:induction false} FlushFits(keys: seq<Key>, g: Regs, begun: nat, key: Key, read: nat, off: nat, n: nat,
                                     words: seq<seq<Byte>>)
    requires KeptUp(keys, g, begun, key, read, off, n, words)
    ensures |g.out| == 12 && |g.temp.data| == 16
  {
    assert Opened(BobjStage.STAGE);
    Fit(g, key, read, off);
  }

  lemma {:induction false} FlushKept(keys: seq<Key>, g: Regs, begun: nat, key: Key, read: nat, off: nat, n: nat,
                                     words: seq<seq<Byte>>, w: seq<Byte>, g': Regs, off': nat, words': seq<seq<Byte>>)
    requires (g.state == KS_STEP3 || Residue(g.state)) && KeptUp(keys, g, begun, key, read, off, n, words)
    requires IsFlush(g, w, g') && off' == off + 12 && words' == words + [w]
    ensures KeptUp(keys, g', begun, key, read, off', n, words')
  {
    assert Opened(BobjStage.STAGE);
    FlushKeeps(keys, g, begun, key, read, off, n, words, w, g');
  }

  class HashKeyResizer {
    ghost const keys: seq<Key>   // the keys that will arrive
    var keyResizerState: KsState
    var keyResizerLength: nat
    var resizedKeyOutput: seq<Byte>
    var tempInput: Stripe
    ghost var begun: nat         // keys whose length has been read
    ghost var key: Key           // the last of them, of which
    ghost var read: nat          // this many bytes have been read
    ghost var off: nat           // and this many have been output
    ghost var stripesIn: seq<Stripe>
    ghost var words: seq<seq<Byte>>

    function Registers(): Regs
      reads this
    {
      Regs(keyResizerState, keyResizerLength, resizedKeyOutput, tempInput)
    }

    ghost predicate Valid()
      reads this
    {
      KeptUp(keys, Registers(), begun, key, read, off, |stripesIn|, words)
    }

    constructor (ghost keys: seq<Key>)
      requires KeysOk(keys) && OnlyLastStuck(keys)
      ensures Valid() && begun == 0 && stripesIn == [] && words == [] && this.keys == keys
      ensures keyResizerState == KS_IDLE
    {
      this.keys := keys;
      keyResizerState, keyResizerLength, resizedKeyOutput := KS_IDLE, 0, [0, 0, 0, 0, 0, 0, 0, 0, 0, 0, 0, 0];
      tempInput := Stripe([0, 0, 0, 0, 0, 0, 0, 0, 0, 0, 0, 0, 0, 0, 0, 0], false);
      begun, key, read, off, stripesIn, words := 0, [], 0, 0, [], [];
      assert keys[0..] == keys;
    }

    /** One call, given the waiting lengths and stripes: how much of them it reads
        and what it appends to the three streams to bobj. */
    method Step(in2hashKeyLength: seq<nat>, in2hash: seq<Stripe>)
      returns (readLengths: nat, readStripes: seq<Stripe>, outWords: seq<seq<Byte>>, outLengths: seq<nat>,
               outInitvals: seq<U32>)
      requires Valid() && ArePieces(stripesIn + in2hash, AllPieces(keys))
      requires LengthsFrom(keys, begun, in2hashKeyLength)
      modifies this
      ensures Valid() && readLengths <= |in2hashKeyLength| && readStripes <= in2hash
      ensures begun == old(begun) + readLengths && stripesIn == old(stripesIn) + readStripes
      ensures words == old(words) + outWords
      ensures outLengths == in2hashKeyLength[..readLengths] && Seeds(outInitvals, readLengths)
      ensures Carried(words, AllChunks(keys))
      ensures if old(keyResizerState) == KS_IDLE then
                readLengths == |readStripes| == if in2hashKeyLength != [] && in2hash != [] then 1 else 0
              else if Reading(old(keyResizerState)) then |readStripes| == if in2hash != [] then 1 else 0
              else readStripes == [] && !Flushing(keyResizerState)
    {
      readLengths, readStripes, outWords, outLengths, outInitvals := 0, [], [], [], [];
      if keyResizerState == KS_IDLE {
        if in2hashKeyLength != [] && in2hash != [] {
          readLengths, readStripes := 1, [in2hash[0]];
          outWords := First(in2hashKeyLength[0], in2hash);
          outLengths, outInitvals := [in2hashKeyLength[0]], [SEED];
        }
      } else if keyResizerState == KS_STEP0 || keyResizerState == KS_STEP1 || keyResizerState == KS_STEP2 {
        if in2hash != [] {
          readStripes := [in2hash[0]];
          outWords := Next(in2hash);
        }
      } else {
        outWords := Last();
      }
      assert Opened(BobjStage.STAGE);
    }

    method First(len: nat, in2hash: seq<Stripe>) returns (outWords: seq<seq<Byte>>)
      requires Valid() && keyResizerState == KS_IDLE && begun < |keys| && len == |keys[begun]|
      requires in2hash != [] && ArePieces(stripesIn + in2hash, AllPieces(keys))
      modifies this
      ensures Valid() && begun == old(begun) + 1
      ensures stripesIn == old(stripesIn) + [in2hash[0]] && words == old(words) + outWords
    {
      BeginKept(keys, Registers(), begun, key, read, off, stripesIn, words, in2hash);
      ghost var n, all := |stripesIn| + 1, words + [in2hash[0].data[..12]];
      outWords := Load(len, in2hash[0]);
      key, read, off, begun := keys[begun], 16, 12, begun + 1;
      stripesIn, words := stripesIn + [in2hash[0]], words + outWords;
      assert |stripesIn| == n && words == all && Registers() == FirstNext(len, in2hash[0]);
    }

    method Next(in2hash: seq<Stripe>) returns (outWords: seq<seq<Byte>>)
      requires Valid() && Reading(keyResizerState)
      requires in2hash != [] && ArePieces(stripesIn + in2hash, AllPieces(keys))
      modifies this
      ensures Valid() && begun == old(begun)
      ensures stripesIn == old(stripesIn) + [in2hash[0]] && words == old(words) + outWords
    {
      ghost var g := Registers();
      ReadFits(keys, g, begun, key, read, off, stripesIn, words, in2hash);
      var w := ReadOne(in2hash[0]);
      outWords := [w];
      read, off := read + 16, off + 12;
      stripesIn, words := stripesIn + [in2hash[0]], words + outWords;
      ReadKept(keys, g, begun, key, old(read), old(off), old(stripesIn), old(words), in2hash, w, Registers(), read, off,
               |stripesIn|, words);
    }

    method Last() returns (outWords: seq<seq<Byte>>)
      requires Valid() && (keyResizerState == KS_STEP3 || Residue(keyResizerState))
      modifies this
      ensures Valid() && begun == old(begun) && stripesIn == old(stripesIn) && words == old(words) + outWords
      ensures !Flushing(keyResizerState)
    {
      ghost var g := Registers();
      FlushFits(keys, g, begun, key, read, off, |stripesIn|, words);
      var w := FlushOne();
      outWords := [w];
      off, words := off + 12, words + outWords;
      FlushKept(keys, g, begun, key, read, old(off), |stripesIn|, old(words), w, Registers(), off, words);
    }

    method ReadOne(s: Stripe) returns (w: seq<Byte>)
      requires Reading(keyResizerState) && |s.data| == |tempInput.data| == 16
      modifies `keyResizerState, `keyResizerLength, `resizedKeyOutput, `tempInput
      ensures IsRead(old(Registers()), s, w, Registers())
    {
      var out := ReadStripe(s);
      w := out[0];
    }

    method FlushOne() returns (w: seq<Byte>)
      requires keyResizerState == KS_STEP3 || Residue(keyResizerState)
      requires |tempInput.data| == 16 && |resizedKeyOutput| == 12
      modifies `keyResizerState, `keyResizerLength, `resizedKeyOutput
      ensures IsFlush(old(Registers()), w, Registers()) && !Flushing(keyResizerState)
    {
      var out := Flush();
      w := out[0];
    }

    // The switch over the states, on the registers alone.

    method Load(len: nat, s: Stripe) returns (outWords: seq<seq<Byte>>)
      requires |s.data| == 16
      modifies `keyResizerState, `keyResizerLength, `resizedKeyOutput, `tempInput
      ensures Registers() == FirstNext(len, s)
      ensures outWords == [s.data[..12]]
    {
      keyResizerLength, tempInput := len, s;
      resizedKeyOutput := tempInput.data[..12];
      outWords := [resizedKeyOutput];
      keyResizerState := KS_IDLE;
      if keyResizerLength > 12 {
        keyResizerState := if tempInput.EOP then KS_RESIDUE else KS_STEP1;
      }
    }

    method ReadStripe(s: Stripe) returns (outWords: seq<seq<Byte>>)
      requires Reading(keyResizerState) && |s.data| == |tempInput.data| == 16
      modifies `keyResizerState, `keyResizerLength, `resizedKeyOutput, `tempInput
      ensures Registers() == ReadNext(old(Registers()), s) && outWords == [ReadOut(old(Registers()), s)]
    {
      if keyResizerState == KS_STEP1 {
        keyResizerLength := (keyResizerLength - 16) % 256;
        var low := tempInput.data[12..];
        tempInput := s;
        resizedKeyOutput := low + tempInput.data[..8];
        if keyResizerLength > 8 {
          keyResizerState := if tempInput.EOP then KS_RESIDUE1 else KS_STEP2;
        } else {
          keyResizerState := KS_IDLE;
        }
      } else if keyResizerState == KS_STEP2 {
        keyResizerLength := (keyResizerLength - 16) % 256;
        var low := tempInput.data[8..];
        tempInput := s;
        resizedKeyOutput := low + tempInput.data[..4];
        if keyResizerLength > 4 {
          keyResizerState := if tempInput.EOP then KS_RESIDUE2 else KS_STEP3;
        } else {
          keyResizerState := KS_IDLE;
        }
      } else {
        tempInput := s;
        resizedKeyOutput := tempInput.data[..12];
        if keyResizerLength > 12 {
          keyResizerState := if tempInput.EOP then KS_RESIDUE else KS_STEP1;
        }
      }
      outWords := [resizedKeyOutput];
    }

    method Flush() returns (outWords: seq<seq<Byte>>)
      requires keyResizerState == KS_STEP3 || Residue(keyResizerState)
      requires |tempInput.data| == 16 && |resizedKeyOutput| == 12
      modifies `keyResizerState, `keyResizerLength, `resizedKeyOutput
      ensures Registers() == FlushNext(old(Registers())) && outWords == [FlushOut(old(Registers()))]
    {
      if keyResizerState == KS_STEP3 {
        keyResizerLength := (keyResizerLength - 16) % 256;
        resizedKeyOutput := tempInput.data[4..];
        keyResizerState := if keyResizerLength > 0 then KS_STEP0 else KS_IDLE;
      } else {
        if keyResizerState == KS_RESIDUE {
          resizedKeyOutput := tempInput.data[12..] + resizedKeyOutput[4..];
        } else if keyResizerState == KS_RESIDUE1 {
          resizedKeyOutput := tempInput.data[8..] + resizedKeyOutput[8..];
        } else {
          resizedKeyOutput := tempInput.data[4..];
        }
        keyResizerState := KS_IDLE;
      }
      outWords := [resizedKeyOutput];
    }
  }
}

/** hash: the resizer and bobj connected by streams, under every schedule. */
module HashPath {
  import opened Arith
  import opened Sealing
  import opened Words32
  import opened KeyChunks
  import opened KeyResizerStage
  import BobjStage

  datatype Call = LengthArrives | StripeArrives(stale: seq<Byte>) | CallResizer | CallBobj

  lemma {:induction false} PrefixPieces(a: seq<Stripe>, s: Stripe, plan: seq<Piece>)
    requires ArePieces(a, plan) && |a| < |plan| && IsPiece(s, plan[|a|])
    ensures ArePieces(a + [s], plan)
  {}

  lemma {:induction false} Dequeue<T>(done: seq<T>, read: seq<T>, q: seq<T>)
    requires read <= q
    ensures (done + read) + q[|read|..] == done + q
  {
    assert q == read + q[|read|..];
  }

  lemma {:induction false} AssocWords(a: seq<seq<Byte>>, b: seq<seq<Byte>>, c: seq<seq<Byte>>)
    ensures (a + b) + c == a + (b + c)
  {}

  /** Each stream holds what has been written to it but not yet read: lens and
      stripes into the resizer, ws, ls and vs from the resizer to bobj. */
  ghost predicate Queued(keys: seq<Key>, begunRs: nat, lens: seq<nat>, stripesIn: seq<Stripe>, stripes: seq<Stripe>,
                         words: seq<seq<Byte>>, wordsIn: seq<seq<Byte>>, ws: seq<seq<Byte>>,
                         begunBo: nat, ls: seq<nat>, vs: seq<U32>) {
    && LengthsFrom(keys, begunRs, lens)
    && ArePieces(stripesIn + stripes, AllPieces(keys))
    && words == wordsIn + ws && Carried(words, AllChunks(keys))
    && begunRs == begunBo + |ls| && LengthsFrom(keys, begunBo, ls) && Seeds(vs, |ls|)
  }

  lemma {:induction false} ResizerQueues(keys: seq<Key>, begunRs: nat, lens: seq<nat>, stripesIn: seq<Stripe>,
                                         stripes: seq<Stripe>, words: seq<seq<Byte>>, wordsIn: seq<seq<Byte>>,
                                         ws: seq<seq<Byte>>, begunBo: nat, ls: seq<nat>, vs: seq<U32>, n: nat,
                                         readStripes: seq<Stripe>, out: seq<seq<Byte>>, outVs: seq<U32>)
    requires Queued(keys, begunRs, lens, stripesIn, stripes, words, wordsIn, ws, begunBo, ls, vs)
    requires n <= |lens| && readStripes <= stripes && Seeds(outVs, n) && Carried(words + out, AllChunks(keys))
    ensures Queued(keys, begunRs + n, lens[n..], stripesIn + readStripes, stripes[|readStripes|..],
                   words + out, wordsIn, ws + out, begunBo, ls + lens[..n], vs + outVs)
  {
    Dequeue(stripesIn, readStripes, stripes);
    AssocWords(wordsIn, ws, out);
    LengthsRead(keys, begunRs, lens, n);
    LengthsAppend(keys, begunBo, ls, lens[..n]);
  }

  lemma {:induction false} BobjQueues(keys: seq<Key>, begunRs: nat, lens: seq<nat>, stripesIn: seq<Stripe>,
                                      stripes: seq<Stripe>, words: seq<seq<Byte>>, wordsIn: seq<seq<Byte>>,
                                      ws: seq<seq<Byte>>, begunBo: nat, ls: seq<nat>, vs: seq<U32>, n: nat,
                                      readWords: seq<seq<Byte>>)
    requires Queued(keys, begunRs, lens, stripesIn, stripes, words, wordsIn, ws, begunBo, ls, vs)
    requires n <= |ls| && readWords <= ws
    ensures Queued(keys, begunRs, lens, stripesIn, stripes, words, wordsIn + readWords, ws[|readWords|..],
                   begunBo + n, ls[n..], vs[n..])
  {
    Dequeue(wordsIn, readWords, ws);
    LengthsRead(keys, begunBo, ls, n);
  }

  /** After the last stripe no key has bytes left. */
  lemma {:induction false} NothingToRead(keys: seq<Key>, rest: Key, todo: seq<Key>)
    requires KeysOk(todo) && InLeft(keys, |AllPieces(keys)|, rest, todo)
    ensures rest == [] && todo == []
  {
    assert |Pieces(rest)| + |AllPieces(todo)| == 0;
  }

  /** When the resizer cannot move although everything has arrived, it has output
      every word. */
  lemma {:induction false} ResizerDone(keys: seq<Key>, g: Regs, begun: nat, key: Key, read: nat, off: nat,
                                       stripesIn: nat, words: seq<seq<Byte>>, lengths: nat, stripes: nat)
    requires KeysOk(keys) && OnlyLastStuck(keys) && Keeps(keys, g, begun, key, read, off, stripesIn, words)
    requires begun + lengths == |keys| && stripesIn + stripes == |AllPieces(keys)|
    requires if g.state == KS_IDLE then lengths == 0 || stripes == 0 else Reading(g.state) && stripes == 0
    ensures begun == |keys| && |words| == |AllChunks(keys)|
  {
    if g.state == KS_IDLE {
      IdleIsDone(keys, g, begun, key, read, off, stripesIn, words);
    } else {
      Unfinished(keys, g, begun, key, read, off, stripesIn, words);
    }
    if stripes == 0 {
      NothingToRead(keys, Rest(key, read), keys[begun..]);
    }
    assert keys[begun..] == [] && Rest(key, off) == [];
  }

  lemma {:induction false} IdleIsDone(keys: seq<Key>, g: Regs, begun: nat, key: Key, read: nat, off: nat,
                                      stripesIn: nat, words: seq<seq<Byte>>)
    requires g.state == KS_IDLE && Keeps(keys, g, begun, key, read, off, stripesIn, words)
    ensures Rest(key, read) == [] && Rest(key, off) == []
  {
    assert Opened(RESIZING);
  }

  lemma {:induction false} HashesSoFar(keys: seq<Key>, hashes: seq<U32>, g: BobjStage.Regs, begun: nat, rest: Key,
                                       wordsIn: nat, hashOut: seq<U32>)
    requires BobjStage.Keeps(keys, hashes, g, begun, rest, wordsIn, hashOut) && BobjStage.AreHashes(keys, hashes)
    ensures hashOut <= hashes && hashes == Hashes(keys)
  {
    assert Opened(BobjStage.HEADING);
  }

  /** When bobj cannot move although everything has arrived, it has output every
      hash. */
  lemma {:induction false} BobjDone(keys: seq<Key>, hashes: seq<U32>, g: BobjStage.Regs, begun: nat, rest: Key,
                                    wordsIn: seq<seq<Byte>>, hashOut: seq<U32>, key: seq<seq<Byte>>, lengths: nat)
    requires BobjStage.Keeps(keys, hashes, g, begun, rest, |wordsIn|, hashOut)
    requires begun + lengths == |keys| && |wordsIn + key| == |AllChunks(keys)|
    requires if g.state == BobjStage.HASH_IDLE then lengths == 0 else BobjStage.Reading(g) && key == []
    ensures hashOut == hashes
  {
    if g.state != BobjStage.HASH_IDLE {
      BobjStage.LengthLeft(g, rest, hashes[begun - 1]);
      ChunkHead(rest);
    }
  }

  class Hash {
    ghost const keys: seq<Key>
    const rs: HashKeyResizer
    const bo: BobjStage.Bobj
    var in2hashKeyLength: seq<nat>
    var in2hash: seq<Stripe>
    var resizedKey: seq<seq<Byte>>
    var resizedKeyLength: seq<nat>
    var resizedInitValue: seq<U32>
    var hash2cc: seq<U32>

    ghost predicate Valid()
      reads this, rs, bo
    {
      forall k {:trigger Opened(k)} :: Opened(k) && k == PATH ==>
        rs.Valid() && bo.Valid() && rs.keys == bo.keys == keys && Linked()
    }

    static const PATH: nat := 36

    ghost predicate Linked()
      reads this, rs, bo
    {
      && Queued(keys, rs.begun, in2hashKeyLength, rs.stripesIn, in2hash, rs.words, bo.wordsIn, resizedKey,
                bo.begun, resizedKeyLength, resizedInitValue)
      && hash2cc == bo.hashOut
    }

    /** How much has arrived so far. */
    ghost function LengthsArrived(): nat
      reads this, rs
    {
      rs.begun + |in2hashKeyLength|
    }

    ghost function StripesArrived(): nat
      reads this, rs
    {
      |rs.stripesIn| + |in2hash|
    }

    constructor (ghost keys: seq<Key>)
      requires KeysOk(keys) && OnlyLastStuck(keys)
      ensures Valid() && fresh(rs) && fresh(bo) && this.keys == keys
      ensures LengthsArrived() == 0 && StripesArrived() == 0
    {
      this.keys := keys;
      rs := new HashKeyResizer(keys);
      bo := new BobjStage.Bobj(keys);
      in2hashKeyLength, in2hash, resizedKey, resizedKeyLength, resizedInitValue, hash2cc := [], [], [], [], [], [];
    }

    method LengthArrives(len: nat)
      requires Valid() && LengthsArrived() < |keys| && len == |keys[LengthsArrived()]|
      modifies this`in2hashKeyLength
      ensures Valid() && LengthsArrived() == old(LengthsArrived()) + 1
    {
      assert Opened(PATH);
      LengthsAppend(keys, rs.begun, in2hashKeyLength, [len]);
      in2hashKeyLength := in2hashKeyLength + [len];
    }

    /** Is s the next stripe of the run? */
    ghost predicate NextStripe(s: Stripe)
      reads this, rs
    {
      var n := StripesArrived();
      n < |AllPieces(keys)| && IsPiece(s, AllPieces(keys)[n])
    }

    method StripeArrives(s: Stripe)
      requires Valid() && NextStripe(s)
      modifies this`in2hash
      ensures Valid() && StripesArrived() == old(StripesArrived()) + 1
    {
      assert Opened(PATH);
      PrefixPieces(rs.stripesIn + in2hash, s, AllPieces(keys));
      assert rs.stripesIn + (in2hash + [s]) == (rs.stripesIn + in2hash) + [s];
      in2hash := in2hash + [s];
    }

    method CallResizer()
      requires Valid()
      modifies this`in2hashKeyLength, this`in2hash, this`resizedKey, this`resizedKeyLength, this`resizedInitValue, rs
      ensures Valid() && LengthsArrived() == old(LengthsArrived()) && StripesArrived() == old(StripesArrived())
      ensures old(ResizerCanMove()) ==>
                || |in2hash| < old(|in2hash|)
                || (in2hash == old(in2hash) && old(Flushing(rs.keyResizerState)) && !Flushing(rs.keyResizerState))
    {
      assert Opened(PATH);
      var n, ss, ws, ls, vs := rs.Step(in2hashKeyLength, in2hash);
      ResizerQueues(keys, old(rs.begun), in2hashKeyLength, old(rs.stripesIn), in2hash, old(rs.words), bo.wordsIn,
                    resizedKey, bo.begun, resizedKeyLength, resizedInitValue, n, ss, ws, vs);
      in2hashKeyLength, in2hash := in2hashKeyLength[n..], in2hash[|ss|..];
      resizedKey, resizedKeyLength, resizedInitValue := resizedKey + ws, resizedKeyLength + ls, resizedInitValue + vs;
    }

    method CallBobj()
      requires Valid()
      modifies this`resizedKey, this`resizedKeyLength, this`resizedInitValue, this`hash2cc, bo
      ensures Valid() && old(hash2cc) <= hash2cc
      ensures old(BobjCanMove()) ==>
                || |resizedKey| < old(|resizedKey|)
                || (resizedKey == old(resizedKey)
                    && (|resizedKeyLength| < old(|resizedKeyLength|)
                        || (resizedKeyLength == old(resizedKeyLength)
                            && (bo.length < old(bo.length)
                                || (bo.length == old(bo.length)
                                    && BobjStage.Rank(bo.hashState) < old(BobjStage.Rank(bo.hashState)))))))
    {
      assert Opened(PATH);
      var ws, n, hs := bo.Step(resizedKey, resizedKeyLength, resizedInitValue);
      BobjQueues(keys, rs.begun, in2hashKeyLength, rs.stripesIn, in2hash, rs.words, old(bo.wordsIn), resizedKey,
                 old(bo.begun), resizedKeyLength, resizedInitValue, n, ws);
      resizedKey := resizedKey[|ws|..];
      resizedKeyLength, resizedInitValue := resizedKeyLength[n..], resizedInitValue[n..];
      hash2cc := hash2cc + hs;
    }

    predicate ResizerCanMove()
      reads this, rs
    {
      if rs.keyResizerState == KS_IDLE then in2hashKeyLength != [] && in2hash != []
      else Reading(rs.keyResizerState) ==> in2hash != []
    }

    predicate BobjCanMove()
      reads this, bo
    {
      if bo.hashState == BobjStage.HASH_IDLE then resizedKeyLength != []
      else BobjStage.Reading(bo.Registers()) ==> resizedKey != []
    }

    ghost predicate AllArrived()
      reads this, rs
    {
      LengthsArrived() == |keys| && StripesArrived() == |AllPieces(keys)|
    }

    /** Calls until neither stage can move. */
    method Settle()
      requires Valid()
      modifies this, rs, bo
      ensures Valid() && !ResizerCanMove() && !BobjCanMove() && old(hash2cc) <= hash2cc
      ensures LengthsArrived() == old(LengthsArrived()) && StripesArrived() == old(StripesArrived())
    {
      while ResizerCanMove() || BobjCanMove()
        invariant Valid() && old(hash2cc) <= hash2cc
        invariant LengthsArrived() == old(LengthsArrived()) && StripesArrived() == old(StripesArrived())
        decreases |in2hash|, if Flushing(rs.keyResizerState) then 1 else 0,
                  |resizedKey|, |resizedKeyLength|, bo.length, BobjStage.Rank(bo.hashState)
      {
        if ResizerCanMove() {
          CallResizer();
        } else {
          CallBobj();
        }
      }
    }

    /** The hashes output so far are those of the first keys, in order; and when
        everything has arrived and neither stage can move, those of all keys. */
    lemma {:induction false} Delivered()
      requires Valid()
      ensures hash2cc <= Hashes(keys)
      ensures AllArrived() && !ResizerCanMove() && !BobjCanMove() ==> hash2cc == Hashes(keys)
    {
      assert Opened(PATH);
      assert Opened(BobjStage.STAGE);
      HashesSoFar(keys, bo.hashes, bo.Registers(), bo.begun, bo.rest, |bo.wordsIn|, hash2cc);
      if AllArrived() && !ResizerCanMove() && !BobjCanMove() {
        ResizerDone(keys, rs.Registers(), rs.begun, rs.key, rs.read, rs.off, |rs.stripesIn|, rs.words,
                    |in2hashKeyLength|, |in2hash|);
        BobjDone(keys, bo.hashes, bo.Registers(), bo.begun, bo.rest, bo.wordsIn, hash2cc, resizedKey,
                 |resizedKeyLength|);
      }
    }
  }

  /** A piece in a stripe whose other bytes are stale. */
  function InStripe(p: Piece, stale: seq<Byte>): Stripe
    requires |p.bytes| <= |stale|
  {
    Stripe(p.bytes + stale[|p.bytes|..], p.last)
  }

  lemma {:induction false} PiecesShort(key: Key)
    ensures forall i :: 0 <= i < |Pieces(key)| ==> |Pieces(key)[i].bytes| <= 16
    decreases |key|
  {
    if key != [] {
      PieceHead(key);
      PiecesShort(key[Head(key, 16)..]);
    }
  }

  lemma {:induction false} AllPiecesShort(keys: seq<Key>)
    ensures forall i :: 0 <= i < |AllPieces(keys)| ==> |AllPieces(keys)[i].bytes| <= 16
  {
    if keys != [] {
      PiecesShort(keys[0]);
      AllPiecesShort(keys[1..]);
    }
  }

  /** Whatever the schedule of arrivals and calls, and whatever the stale bytes: once
      the rest of the keys has arrived and the stages have been called until neither
      can move, the hashes of all keys have come out, in order; and at the end of the
      schedule the first of them have. */
  method Simulate(keys: seq<Key>, schedule: seq<Call>, stale: seq<Byte>)
    returns (early: seq<U32>, hash2cc: seq<U32>)
    requires KeysOk(keys) && OnlyLastStuck(keys) && |stale| == 16
    requires forall i :: 0 <= i < |schedule| && schedule[i].StripeArrives? ==> |schedule[i].stale| == 16
    ensures early <= hash2cc == Hashes(keys)
  {
    var h := new Hash(keys);
    var pieces, lengths, stripes := AllPieces(keys), 0, 0;
    AllPiecesShort(keys);
    for i := 0 to |schedule|
      invariant h.Valid() && fresh(h) && fresh(h.rs) && fresh(h.bo) && h.keys == keys
      invariant lengths == h.LengthsArrived() <= |keys|
      invariant stripes == h.StripesArrived() <= |pieces|
    {
      match schedule[i] {
        case LengthArrives =>
          if lengths < |keys| {
            h.LengthArrives(|keys[lengths]|);
            lengths := lengths + 1;
          }
        case StripeArrives(bytes) =>
          if stripes < |pieces| {
            h.StripeArrives(InStripe(pieces[stripes], bytes));
            stripes := stripes + 1;
          }
        case CallResizer => h.CallResizer();
        case CallBobj => h.CallBobj();
      }
    }
    early := h.hash2cc;
    while lengths < |keys| || stripes < |pieces|
      invariant h.Valid() && fresh(h) && fresh(h.rs) && fresh(h.bo) && h.keys == keys && h.hash2cc == early
      invariant lengths == h.LengthsArrived() <= |keys|
      invariant stripes == h.StripesArrived() <= |pieces|
      decreases |keys| - lengths + |pieces| - stripes
    {
      if lengths < |keys| {
        h.LengthArrives(|keys[lengths]|);
        lengths := lengths + 1;
      } else {
        h.StripeArrives(InStripe(pieces[stripes], stale));
        stripes := stripes + 1;
      }
    }
    h.Settle();
    h.Delivered();
    hash2cc := h.hash2cc;
  }
}
