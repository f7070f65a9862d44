/** Thirty-two bit machine words. */
module Words32 {
  import opened Arith

  const M32: nat := 0x1_0000_0000
  type U32 = x: int | 0 <= x < M32

  function Plus(x: U32, y: U32): U32 { (x + y) % M32 }

  function Minus(x: U32, y: U32): U32 { (x - y) % M32 }

  /** Bitwise exclusive or of n-bit numbers. */
  function XorBits(x: nat, y: nat, n: nat): (r: nat)
    ensures r < Pow2(n)
  {
    if n == 0 then 0 else 2 * XorBits(x / 2, y / 2, n - 1) + (x % 2 + y % 2) % 2
  }

  lemma {:induction false} Pow2Of32()
    ensures Pow2(32) == M32
  {
    assert Pow2(8) == 256;
    assert Pow2(16) == 0x1_0000;
    assert Pow2(24) == 0x100_0000;
  }

  function Xor(x: U32, y: U32): U32 {
    Pow2Of32();
    XorBits(x, y, 32)
  }

  /** Rotation to the left; the two halves of the result do not overlap. */
  function Rot(x: U32, k: nat): U32
    requires k <= 32
  {
    RotFits(x, k);
    (x % Pow2(32 - k)) * Pow2(k) + x / Pow2(32 - k)
  }

  lemma {:induction false} RotFits(x: U32, k: nat)
    requires k <= 32
    ensures 0 <= (x % Pow2(32 - k)) * Pow2(k) + x / Pow2(32 - k) < M32
  {
    Pow2Of32();
    PowAdd(k, 32 - k);
    assert k + (32 - k) == 32;
    FieldsFit(x, Pow2(32 - k), Pow2(k), M32);
  }

  lemma {:induction false} FieldsFit(x: nat, p: nat, q: nat, m: nat)
    requires p > 0 && m == q * p && x < m
    ensures 0 <= (x % p) * q + x / p < m
  {
    var d, r := x / p, x % p;
    assert x == d * p + r;
    if d >= q {
      MulMonotone(q, d, p);
    }
    MulMonotone(r, p - 1, q);
    assert (p - 1) * q == q * p - q;
  }

  lemma {:induction false} XorBitsStep(h: nat, i: nat, j: nat)
    requires i < 2 && j < 2
    ensures var r := 2 * h + (i + j) % 2; r / 2 == h && (r % 2 + j) % 2 == i
  {}

  lemma {:induction false} XorBitsUndo(x: nat, y: nat, n: nat)
    requires x < Pow2(n)
    ensures XorBits(XorBits(x, y, n), y, n) == x
  {
    if n > 0 {
      XorBitsUndo(x / 2, y / 2, n - 1);
      XorBitsStep(XorBits(x / 2, y / 2, n - 1), x % 2, y % 2);
    }
  }

  lemma {:induction false} XorUndo(x: U32, r: U32)
    ensures Xor(Xor(x, r), r) == x
  {
    Pow2Of32();
    XorBitsUndo(x, r, 32);
  }

  lemma {:induction false} PlusUndo(x: U32, y: U32)
    ensures Minus(Plus(x, y), y) == x && Plus(Minus(x, y), y) == x
  {}

  lemma {:induction false} PlusCancel(x: U32, y: U32, z: U32)
    requires Plus(x, y) == Plus(x, z)
    ensures y == z
  {}

  /** A little-endian word. */
  function Pack(b0: Byte, b1: Byte, b2: Byte, b3: Byte): U32 {
    b0 + 0x100 * b1 + 0x1_0000 * b2 + 0x100_0000 * b3
  }

  lemma {:induction false} PackInjective(b0: Byte, b1: Byte, b2: Byte, b3: Byte, c0: Byte, c1: Byte, c2: Byte, c3: Byte)
    requires Pack(b0, b1, b2, b3) == Pack(c0, c1, c2, c3)
    ensures b0 == c0 && b1 == c1 && b2 == c2 && b3 == c3
  {
    Peel(b0, b1 + 0x100 * b2 + 0x1_0000 * b3, c0, c1 + 0x100 * c2 + 0x1_0000 * c3);
    Peel(b1, b2 + 0x100 * b3, c1, c2 + 0x100 * c3);
    Peel(b2, b3, c2, c3);
  }

  /** The four bytes of a word. */
  function Unpack(v: U32): (b: seq<Byte>)
    ensures |b| == 4
  {
    [v % 0x100, v / 0x100 % 0x100, v / 0x1_0000 % 0x100, v / 0x100_0000]
  }

  lemma {:induction false} PackUnpack(v: U32)
    ensures var b := Unpack(v); Pack(b[0], b[1], b[2], b[3]) == v
  {
    Digits(v);
    Digits(v / 0x100);
    Digits(v / 0x1_0000);
    DivTwice(v, 0x100);
    DivTwice(v, 0x1_0000);
  }

  lemma {:induction false} Digits(v: nat)
    ensures v == v % 0x100 + 0x100 * (v / 0x100)
  {}

  lemma {:induction false} DivTwice(v: nat, m: nat)
    requires m == 0x100 || m == 0x1_0000
    ensures v / m / 0x100 == v / (m * 0x100)
  {}

  lemma {:induction false} Peel(b: Byte, r: nat, c: Byte, q: nat)
    requires b + 0x100 * r == c + 0x100 * q
    ensures b == c && r == q
  {}
}

/** The lookup3 hash that bobj computes one quarter round at a time
    (Acceleration/memcached/hls/sources/hashTable/hash.cpp). */
module Lookup3 {
  import opened Arith
  import opened Words32

  /** The three 32-bit registers. */
  datatype Abc = Abc(a: U32, b: U32, c: U32)

  const SEED: U32 := 13

  /** The little-endian word at offset i. */
  function LE(w: seq<Byte>, i: nat): U32
    requires i + 4 <= |w|
  {
    Pack(w[i], w[i + 1], w[i + 2], w[i + 3])
  }

  /** The first n bytes of w, padded with zeros to a block of twelve. */
  function Padded(w: seq<Byte>): (p: seq<Byte>)
    requires |w| <= 12
    ensures |p| == 12
  {
    w + seq(12 - |w|, _ => 0)
  }

  function AddWords(s: Abc, x: U32, y: U32, z: U32): Abc {
    Abc(Plus(s.a, x), Plus(s.b, y), Plus(s.c, z))
  }

  function Add(s: Abc, w: seq<Byte>): Abc
    requires |w| == 12
  {
    AddWords(s, LE(w, 0), LE(w, 4), LE(w, 8))
  }

  // x -= z; x ^= rot(z, k)
  function SubXor(x: U32, z: U32, k: nat): U32
    requires k <= 32
  {
    Xor(Minus(x, z), Rot(z, k))
  }

  // The mixing of a block, cut where HASH_ACC_1 to HASH_ACC_4 cut it.
  function Mix1(s: Abc): Abc {
    Abc(SubXor(s.a, s.c, 4), s.b, Plus(s.c, s.b))
  }

  function Mix2(s: Abc): Abc {
    var b := SubXor(s.b, s.a, 6);
    var a := Plus(s.a, s.c);
    var c := SubXor(s.c, b, 8);
    Abc(a, Plus(b, a), c)
  }

  function Mix3(s: Abc): Abc {
    var a := SubXor(s.a, s.c, 16);
    var c := Plus(s.c, s.b);
    var b := SubXor(s.b, a, 19);
    Abc(Plus(a, c), b, c)
  }

  function Mix4(s: Abc): Abc {
    Abc(s.a, Plus(s.b, s.a), SubXor(s.c, s.b, 4))
  }

  function Mix(s: Abc): Abc {
    Mix4(Mix3(Mix2(Mix1(s))))
  }

  // x ^= y; x -= rot(y, k)
  function XorSub(x: U32, y: U32, k: nat): U32
    requires k <= 32
  {
    Minus(Xor(x, y), Rot(y, k))
  }

  function Final1(s: Abc): Abc {
    var c := XorSub(s.c, s.b, 14);
    Abc(XorSub(s.a, c, 11), s.b, c)
  }

  function Final2(s: Abc): Abc {
    var b := XorSub(s.b, s.a, 25);
    Abc(s.a, b, XorSub(s.c, b, 16))
  }

  function Final3(s: Abc): Abc {
    var a := XorSub(s.a, s.c, 4);
    Abc(a, XorSub(s.b, a, 14), s.c)
  }

  function Final4(s: Abc): Abc {
    s.(c := XorSub(s.c, s.b, 24))
  }

  function Final(s: Abc): Abc {
    Final4(Final3(Final2(Final1(s))))
  }

  function Init(len: nat, initval: U32): Abc {
    var v := Plus(Plus(0xdeadbeef, len % M32), initval);
    Abc(v, v, v)
  }

  /** The registers when all blocks but the last have been mixed in. */
  function Absorb(s: Abc, key: seq<Byte>): Abc {
    Rounds(Round, s, key)
  }

  /** One block. */
  function Round(s: Abc, w: seq<Byte>): Abc {
    if |w| == 12 then Mix(Add(s, w)) else s
  }

  function Rounds(round: (Abc, seq<Byte>) -> Abc, s: Abc, key: seq<Byte>): Abc
    decreases |key|
  {
    if |key| <= 12 then s else Rounds(round, round(s, key[..12]), key[12..])
  }

  /** The hash of what is left of a key, from the registers s. */
  function HashRest(s: Abc, key: seq<Byte>): U32
    decreases |key|
  {
    if |key| > 12 then HashRest(Mix(Add(s, key[..12])), key[12..])
    else if |key| == 0 then s.c
    else Final(Add(s, Padded(key))).c
  }

  function HashLittle(key: seq<Byte>, initval: U32): U32 {
    HashRest(Init(|key|, initval), key)
  }

  // ----- the block step is a bijection

  // Undoes SubXor.
  function XorAdd(x: U32, z: U32, k: nat): U32
    requires k <= 32
  {
    Plus(Xor(x, Rot(z, k)), z)
  }

  function UnMix1(s: Abc): Abc {
    var c := Minus(s.c, s.b);
    Abc(XorAdd(s.a, c, 4), s.b, c)
  }

  function UnMix2(s: Abc): Abc {
    var b := Minus(s.b, s.a);
    var c := XorAdd(s.c, b, 8);
    var a := Minus(s.a, c);
    Abc(a, XorAdd(b, a, 6), c)
  }

  function UnMix3(s: Abc): Abc {
    var a := Minus(s.a, s.c);
    var b := XorAdd(s.b, a, 19);
    var c := Minus(s.c, b);
    Abc(XorAdd(a, c, 16), b, c)
  }

  function UnMix4(s: Abc): Abc {
    var b := Minus(s.b, s.a);
    Abc(s.a, b, XorAdd(s.c, b, 4))
  }

  function UnMix(s: Abc): Abc {
    UnMix1(UnMix2(UnMix3(UnMix4(s))))
  }

  lemma {:induction false} UndoSubXor(x: U32, z: U32, k: nat)
    requires k <= 32
    ensures XorAdd(SubXor(x, z, k), z, k) == x && SubXor(XorAdd(x, z, k), z, k) == x
  {
    var r := Rot(z, k);
    XorUndo(Minus(x, z), r);
    PlusUndo(x, z);
    PlusUndo(Xor(x, r), z);
    XorUndo(x, r);
  }

  lemma {:induction false} UndoMix1(s: Abc)
    ensures UnMix1(Mix1(s)) == s && Mix1(UnMix1(s)) == s
  {
    PlusUndo(s.c, s.b);
    UndoSubXor(s.a, s.c, 4);
    UndoSubXor(s.a, Minus(s.c, s.b), 4);
  }

  lemma {:induction false} UndoMix2(s: Abc)
    ensures UnMix2(Mix2(s)) == s && Mix2(UnMix2(s)) == s
  {
    var b := SubXor(s.b, s.a, 6);
    PlusUndo(b, Plus(s.a, s.c));
    UndoSubXor(s.c, b, 8);
    PlusUndo(s.a, s.c);
    UndoSubXor(s.b, s.a, 6);
    var b' := Minus(s.b, s.a);
    var c' := XorAdd(s.c, b', 8);
    PlusUndo(s.b, s.a);
    UndoSubXor(s.c, b', 8);
    PlusUndo(s.a, c');
    UndoSubXor(b', Minus(s.a, c'), 6);
  }

  lemma {:induction false} UndoMix3(s: Abc)
    ensures UnMix3(Mix3(s)) == s && Mix3(UnMix3(s)) == s
  {
    var a := SubXor(s.a, s.c, 16);
    PlusUndo(a, Plus(s.c, s.b));
    UndoSubXor(s.b, a, 19);
    PlusUndo(s.c, s.b);
    UndoSubXor(s.a, s.c, 16);
    var a' := Minus(s.a, s.c);
    var b' := XorAdd(s.b, a', 19);
    PlusUndo(s.a, s.c);
    UndoSubXor(s.b, a', 19);
    PlusUndo(s.c, b');
    UndoSubXor(a', Minus(s.c, b'), 16);
  }

  lemma {:induction false} UndoMix4(s: Abc)
    ensures UnMix4(Mix4(s)) == s && Mix4(UnMix4(s)) == s
  {
    PlusUndo(s.b, s.a);
    UndoSubXor(s.c, s.b, 4);
    UndoSubXor(s.c, Minus(s.b, s.a), 4);
  }

  /** The block step has a two-sided inverse. */
  lemma {:induction false} MixBijective(s: Abc)
    ensures UnMix(Mix(s)) == s && Mix(UnMix(s)) == s
  {
    UndoMix1(s);
    UndoMix2(Mix1(s));
    UndoMix3(Mix2(Mix1(s)));
    UndoMix4(Mix3(Mix2(Mix1(s))));
    UndoMix4(s);
    UndoMix3(UnMix4(s));
    UndoMix2(UnMix3(UnMix4(s)));
    UndoMix1(UnMix2(UnMix3(UnMix4(s))));
  }

  lemma {:induction false} AddWordsInjective(s: Abc, x: U32, y: U32, z: U32, x': U32, y': U32, z': U32)
    requires AddWords(s, x, y, z) == AddWords(s, x', y', z')
    ensures x == x' && y == y' && z == z'
  {
    PlusCancel(s.a, x, x');
    PlusCancel(s.b, y, y');
    PlusCancel(s.c, z, z');
  }

  lemma {:induction false} LEInjective(v: seq<Byte>, w: seq<Byte>, i: nat)
    requires i + 4 <= |v| && i + 4 <= |w| && LE(v, i) == LE(w, i)
    ensures v[i] == w[i] && v[i + 1] == w[i + 1] && v[i + 2] == w[i + 2] && v[i + 3] == w[i + 3]
  {
    PackInjective(v[i], v[i + 1], v[i + 2], v[i + 3], w[i], w[i + 1], w[i + 2], w[i + 3]);
  }

  /** Different blocks leave different registers. */
  lemma {:induction false} AddInjective(s: Abc, v: seq<Byte>, w: seq<Byte>)
    requires |v| == |w| == 12 && Add(s, v) == Add(s, w)
    ensures v == w
  {
    AddWordsInjective(s, LE(v, 0), LE(v, 4), LE(v, 8), LE(w, 0), LE(w, 4), LE(w, 8));
    SameWords(v, w);
  }

  lemma {:induction false} SameWords(v: seq<Byte>, w: seq<Byte>)
    requires |v| == |w| == 12 && LE(v, 0) == LE(w, 0) && LE(v, 4) == LE(w, 4) && LE(v, 8) == LE(w, 8)
    ensures v == w
  {
    LEInjective(v, w, 0);
    LEInjective(v, w, 4);
    LEInjective(v, w, 8);
    forall i | 0 <= i < 12 ensures v[i] == w[i] {}
  }

  /** The block that takes registers s to t. */
  function BlockBetween(s: Abc, t: Abc): (w: seq<Byte>)
    ensures |w| == 12
  {
    Unpack(Minus(t.a, s.a)) + Unpack(Minus(t.b, s.b)) + Unpack(Minus(t.c, s.c))
  }

  /** Adding a block has an inverse: every state is reached by exactly one block. */
  lemma {:induction false} AddReaches(s: Abc, t: Abc)
    ensures Add(s, BlockBetween(s, t)) == t
  {
    var w := BlockBetween(s, t);
    var x, y, z := Minus(t.a, s.a), Minus(t.b, s.b), Minus(t.c, s.c);
    PackUnpack(x);
    PackUnpack(y);
    PackUnpack(z);
    assert LE(w, 0) == x && LE(w, 4) == y && LE(w, 8) == z;
    PlusUndo(t.a, s.a);
    PlusUndo(t.b, s.b);
    PlusUndo(t.c, s.c);
  }

  /** And so has the whole step of a block, as a map from blocks to states. */
  lemma {:induction false} BlockBijective(s: Abc, t: Abc, w: seq<Byte>)
    requires |w| == 12
    ensures Round(s, BlockBetween(s, UnMix(t))) == t && BlockBetween(s, UnMix(Round(s, w))) == w
  {
    AddReaches(s, UnMix(t));
    MixBijective(t);
    var u := Add(s, w);
    MixBijective(u);
    AddReaches(s, u);
    AddInjective(s, BlockBetween(s, u), w);
  }

  /** Different registers stay different under the same block. */
  lemma {:induction false} AddSeparates(s: Abc, t: Abc, w: seq<Byte>)
    requires |w| == 12 && Add(s, w) == Add(t, w)
    ensures s == t
  {
    PlusUndo(s.a, LE(w, 0));
    PlusUndo(t.a, LE(w, 0));
    PlusUndo(s.b, LE(w, 4));
    PlusUndo(t.b, LE(w, 4));
    PlusUndo(s.c, LE(w, 8));
    PlusUndo(t.c, LE(w, 8));
  }

  /** Different registers stay different under the same block, and different blocks
      make the same registers different. */
  ghost predicate Separating(round: (Abc, seq<Byte>) -> Abc) {
    && (forall s, t, w :: |w| == 12 && round(s, w) == round(t, w) ==> s == t)
    && (forall s, v, w :: |v| == |w| == 12 && round(s, v) == round(s, w) ==> v == w)
  }

  lemma {:induction false} RoundSeparates()
    ensures Separating(Round)
  {
    forall s, t, w | |w| == 12 && Round(s, w) == Round(t, w) ensures s == t {
      MixBijective(Add(s, w));
      MixBijective(Add(t, w));
      AddSeparates(s, t, w);
    }
    forall s, v, w | |v| == |w| == 12 && Round(s, v) == Round(s, w) ensures v == w {
      MixBijective(Add(s, v));
      MixBijective(Add(s, w));
      AddInjective(s, v, w);
    }
  }

  /** From different registers, equal keys reach HASH_FINAL in different states. */
  lemma {:induction false} RestSeparates(round: (Abc, seq<Byte>) -> Abc, s: Abc, t: Abc, key: seq<Byte>)
    requires Separating(round) && Rounds(round, s, key) == Rounds(round, t, key)
    ensures s == t
    decreases |key|
  {
    if |key| > 12 {
      RestSeparates(round, round(s, key[..12]), round(t, key[..12]), key[12..]);
    }
  }

  lemma {:induction false} BlockSeparates(round: (Abc, seq<Byte>) -> Abc, s: Abc, u: seq<Byte>, v: seq<Byte>, off: nat)
    requires Separating(round)
    requires |u| == |v| && off % 12 == 0 && off + 12 < |u|
    requires u[..off] == v[..off] && u[off + 12..] == v[off + 12..] && u[off..off + 12] != v[off..off + 12]
    ensures Rounds(round, s, u) != Rounds(round, s, v)
    decreases off
  {
    if off == 0 {
      if Rounds(round, s, u) == Rounds(round, s, v) {
        RestSeparates(round, round(s, u[..12]), round(s, v[..12]), u[12..]);
      }
    } else {
      assert u[..12] == u[..off][..12] && v[..12] == v[..off][..12];
      WithoutHead(u, off);
      WithoutHead(v, off);
      BlockSeparates(round, round(s, u[..12]), u[12..], v[12..], off - 12);
    }
  }

  lemma {:induction false} WithoutHead(u: seq<Byte>, off: nat)
    requires 12 <= off && off + 12 < |u|
    ensures u[12..][..off - 12] == u[..off][12..] && u[12..][off - 12 + 12..] == u[off + 12..]
    ensures u[12..][off - 12..off - 12 + 12] == u[off..off + 12]
  {}

  /** The last block of a key, which may be short. */
  function LastBlock(key: seq<Byte>): seq<Byte>
    decreases |key|
  {
    if |key| <= 12 then key else LastBlock(key[12..])
  }

  /** HASH_FINAL finishes the hash from the state reached and the last block. */
  lemma {:induction false} AbsorbThenFinish(s: Abc, key: seq<Byte>)
    ensures HashRest(s, key) == HashRest(Absorb(s, key), LastBlock(key))
    decreases |key|
  {
    if |key| > 12 {
      AbsorbThenFinish(Round(s, key[..12]), key[12..]);
    }
  }

  /** Keys of one length that differ in exactly one block, and not in the last
      one, always reach HASH_FINAL in different states. */
  lemma {:induction false} OneBlockSeparates(s: Abc, u: seq<Byte>, v: seq<Byte>, off: nat)
    requires |u| == |v| && off % 12 == 0 && off + 12 < |u|
    requires u[..off] == v[..off] && u[off + 12..] == v[off + 12..] && u[off..off + 12] != v[off..off + 12]
    ensures Absorb(s, u) != Absorb(s, v)
  {
    RoundSeparates();
    BlockSeparates(Round, s, u, v, off);
  }
}
