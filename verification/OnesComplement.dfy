/** Ones' complement sums of sixteen-bit words (section 1 of RFC 1071). */
module OnesComplement {
  import opened Arith
  import opened Sealing

  const MAX: nat := 0xffff

  ghost predicate Sixteen(cs: seq<nat>) {
    forall i :: 0 <= i < |cs| ==> cs[i] <= MAX
  }

  /** Adding the carry of a seventeen-bit sum back in. */
  function Fold(x: nat): nat {
    (x + x / 0x1_0000) % 0x1_0000
  }

  /** The complement of a seventeen-bit number. */
  function Not17(x: nat): (r: nat)
    ensures r < 0x2_0000
  {
    var y: int := 0x1_ffff - x;
    y % 0x2_0000
  }

  /** The sum of numbers that add up to t: zero only if all of them are. */
  function Canon(t: nat): (r: nat)
    ensures r <= MAX && (r == 0 <==> t == 0)
  {
    if t <= MAX then t else Canon(t - MAX)
  }

  lemma {:induction false} CanonShift(t: nat, k: nat)
    requires t > 0
    ensures Canon(t + k * MAX) == Canon(t)
    decreases k
  {
    if k > 0 {
      CanonShift(t, k - 1);
    }
  }

  lemma {:induction false} CanonOf(t: nat) returns (k: nat)
    ensures t == Canon(t) + k * MAX
  {
    if t <= MAX {
      k := 0;
    } else {
      k := CanonOf(t - MAX);
      k := k + 1;
    }
  }

  /** Folding is exact: the carry never exceeds one, and the folded sum stands for the
      sum of everything. */
  lemma {:induction false} FoldAdds(a: nat, b: nat)
    ensures Canon(a) + Canon(b) < 0x2_0000
    ensures Fold(Canon(a) + Canon(b)) == Canon(a + b)
  {
    var k := CanonOf(a);
    var m := CanonOf(b);
    var s := Canon(a) + Canon(b);
    assert a + b == s + (k + m) * MAX;
    if s > 0 {
      CanonShift(s, k + m);
    }
    FoldCanon(s);
  }

  lemma {:induction false} FoldCanon(s: nat)
    requires s <= 2 * MAX
    ensures Fold(s) == Canon(s)
  {}

  lemma {:induction false} CanonSmall(b: nat)
    requires b <= MAX
    ensures Canon(b) == b
  {}

  lemma {:induction false} FoldAdd(a: nat, b: nat)
    requires b <= MAX
    ensures Fold(Canon(a) + b) == Canon(a + b) && Canon(a) + b < 0x2_0000
  {
    CanonSmall(b);
    FoldAdds(a, b);
  }

  /** A sum and its complement make all ones; nothing else does. */
  lemma {:induction false} ComplementCompletes(t: nat, c: nat)
    requires t > 0 && c <= MAX
    ensures Canon(t + c) == MAX <==> c == MAX - Canon(t) || (c == MAX && Canon(t) == MAX)
  {
    var k := CanonOf(t);
    CanonShift(Canon(t) + c, k);
    assert t + c == Canon(t) + c + k * MAX;
  }

  function Pair(hi: Byte, lo: Byte): (v: nat)
    ensures v <= MAX
  {
    hi * 256 + lo
  }

  /** The total of the big-endian words of b; an odd byte is padded with zero. */
  function Total(b: seq<Byte>): nat {
    if |b| == 0 then 0
    else if |b| == 1 then Pair(b[0], 0)
    else Pair(b[0], b[1]) + Total(b[2..])
  }

  lemma {:induction false} TotalSplit(a: seq<Byte>, b: seq<Byte>)
    requires |a| % 2 == 0
    ensures Total(a + b) == Total(a) + Total(b)
  {
    if a == [] {
      assert a + b == b;
    } else {
      TotalSplit(a[2..], b);
      assert (a + b)[2..] == a[2..] + b;
    }
  }

  /** The total of a part. */
  lemma {:induction false} TotalFrom(b: seq<Byte>, i: nat, n: nat)
    requires n <= |b|
    ensures i < n ==> Total(b[i..n]) == if i + 1 == n then Pair(b[i], 0) else Pair(b[i], b[i + 1]) + Total(b[i + 2..n])
    ensures i == n ==> Total(b[i..n]) == 0
  {
    if i + 1 < n {
      assert b[i..n][2..] == b[i + 2..n];
    }
  }

  lemma {:induction false} TotalPositive(b: seq<Byte>)
    requires b != [] && b[0] > 0
    ensures Total(b) > 0
  {}

  // Sums kept in four lanes, one for each sixteen-bit part of a word.

  type Sums = s: seq<nat> | |s| == 4 witness [0, 0, 0, 0]

  /** The lanes stand for numbers that add up to t. */
  ghost predicate Stand(s: Sums, t: nat) {
    forall k {:trigger Opened(k)} :: Opened(k) && k == LANES ==> Totals(s, t)
  }

  const LANES: nat := 5

  ghost predicate Totals(s: Sums, t: nat) {
    exists a: nat, b: nat, c: nat, d: nat :: Lanes(s, a, b, c, d) && a + b + c + d == t
  }

  ghost predicate Lanes(s: Sums, a: nat, b: nat, c: nat, d: nat) {
    s[0] == Canon(a) && s[1] == Canon(b) && s[2] == Canon(c) && s[3] == Canon(d)
  }

  function Lane(w: seq<Byte>, i: nat): (v: nat)
    requires |w| == 8 && i < 4
    ensures v <= MAX
  {
    Pair(w[2 * i], w[2 * i + 1])
  }

  /** Adding the numbers that are selected, lane by lane. */
  function AddEach(s: seq<nat>, v: seq<nat>, use: seq<bool>): (r: seq<nat>)
    requires |s| == |v| == |use|
    ensures |r| == |s|
  {
    if s == [] then []
    else [if use[0] then Fold(s[0] + v[0]) else s[0]] + AddEach(s[1..], v[1..], use[1..])
  }

  /** Adding the parts of a word that are selected. */
  function AddParts(s: Sums, w: seq<Byte>, use: seq<bool>): Sums
    requires |w| == 8 && |use| == 4
  {
    AddEach(s, [Lane(w, 0), Lane(w, 1), Lane(w, 2), Lane(w, 3)], use)
  }

  lemma {:induction false} EachAt(s: seq<nat>, v: seq<nat>, use: seq<bool>, i: nat)
    requires |s| == |v| == |use| && i < |s|
    ensures AddEach(s, v, use)[i] == if use[i] then Fold(s[i] + v[i]) else s[i]
  {
    if i > 0 {
      EachAt(s[1..], v[1..], use[1..], i - 1);
    }
  }

  function Chosen(v: seq<nat>, use: seq<bool>, i: nat): nat
    requires |v| == |use| && i < |v|
  {
    if use[i] then v[i] else 0
  }

  lemma {:induction false} EachStands(s: Sums, v: seq<nat>, use: seq<bool>, t: nat)
    requires |v| == |use| == 4 && Stand(s, t) && forall i :: 0 <= i < 4 ==> v[i] <= MAX
    ensures Stand(AddEach(s, v, use),
                  t + (Chosen(v, use, 0) + Chosen(v, use, 1) + Chosen(v, use, 2) + Chosen(v, use, 3)))
  {
    var a, b, c, d := Summands(s, t);
    var a', b' := a + Chosen(v, use, 0), b + Chosen(v, use, 1);
    var c', d' := c + Chosen(v, use, 2), d + Chosen(v, use, 3);
    LaneStands(s, v, use, 0, a, a');
    LaneStands(s, v, use, 1, b, b');
    LaneStands(s, v, use, 2, c, c');
    LaneStands(s, v, use, 3, d, d');
    StandsFor(AddEach(s, v, use), a', b', c', d',
              t + (Chosen(v, use, 0) + Chosen(v, use, 1) + Chosen(v, use, 2) + Chosen(v, use, 3)));
  }

  lemma {:induction false} Summands(s: Sums, t: nat) returns (a: nat, b: nat, c: nat, d: nat)
    requires Stand(s, t)
    ensures Lanes(s, a, b, c, d) && a + b + c + d == t
  {
    assert Opened(LANES);
    a, b, c, d :| Lanes(s, a, b, c, d) && a + b + c + d == t;
  }

  lemma {:induction false} StandsFor(s: Sums, a: nat, b: nat, c: nat, d: nat, t: nat)
    requires Lanes(s, a, b, c, d) && a + b + c + d == t
    ensures Stand(s, t)
  {}

  lemma {:induction false} LaneStands(s: Sums, v: seq<nat>, use: seq<bool>, i: nat, a: nat, a': nat)
    requires |v| == |use| == 4 && i < 4 && v[i] <= MAX && s[i] == Canon(a) && a' == a + Chosen(v, use, i)
    ensures AddEach(s, v, use)[i] == Canon(a')
  {
    EachAt(s, v, use, i);
    FoldIf(a, v[i], use[i]);
  }

  function Selected(w: seq<Byte>, use: seq<bool>, i: nat): nat
    requires |w| == 8 && |use| == 4 && i < 4
  {
    if use[i] then Lane(w, i) else 0
  }

  function Parts(w: seq<Byte>, use: seq<bool>): nat
    requires |w| == 8 && |use| == 4
  {
    Selected(w, use, 0) + Selected(w, use, 1) + Selected(w, use, 2) + Selected(w, use, 3)
  }

  lemma {:induction false} AddStands(s: Sums, w: seq<Byte>, use: seq<bool>, t: nat)
    requires |w| == 8 && |use| == 4 && Stand(s, t)
    ensures Stand(AddParts(s, w, use), t + Parts(w, use))
  {
    EachStands(s, [Lane(w, 0), Lane(w, 1), Lane(w, 2), Lane(w, 3)], use, t);
  }

  lemma {:induction false} FoldIf(a: nat, v: nat, use: bool)
    requires v <= MAX
    ensures (if use then Fold(Canon(a) + v) else Canon(a)) == Canon(a + if use then v else 0)
  {
    FoldAdd(a, v);
  }

  /** Adding nothing. */
  lemma {:induction false} AddNone(s: Sums, w: seq<Byte>)
    requires |w| == 8
    ensures AddParts(s, w, [false, false, false, false]) == s
  {
    var v := [Lane(w, 0), Lane(w, 1), Lane(w, 2), Lane(w, 3)];
    forall i | 0 <= i < 4 ensures AddParts(s, w, [false, false, false, false])[i] == s[i] {
      EachAt(s, v, [false, false, false, false], i);
    }
  }

  lemma {:induction false} ZeroStands()
    ensures Stand([0, 0, 0, 0], 0)
  {
    StandsFor([0, 0, 0, 0], 0, 0, 0, 0, 0);
  }

  /** Adding the lanes up in two stages. */
  function Combine(s: Sums): nat {
    Fold(Fold(s[0] + s[2]) + Fold(s[1] + s[3]))
  }

  lemma {:induction false} CombineStands(s: Sums, t: nat)
    requires Stand(s, t)
    ensures Combine(s) == Canon(t)
  {
    var a, b, c, d := Summands(s, t);
    FoldAdds(a, c);
    FoldAdds(b, d);
    FoldAdds(a + c, b + d);
    assert a + c + (b + d) == t;
  }

  /** All four parts of a word make its total. */
  lemma {:induction false} WholeWord(w: seq<Byte>)
    requires |w| == 8
    ensures Parts(w, [true, true, true, true]) == Total(w)
    ensures Parts(w, [true, true, false, false]) == Total(w[..4])
  {
    TotalFrom(w, 0, 8);
    TotalFrom(w, 2, 8);
    TotalFrom(w, 4, 8);
    TotalFrom(w, 6, 8);
    TotalFrom(w, 8, 8);
    TotalFrom(w, 0, 4);
    TotalFrom(w, 2, 4);
    TotalFrom(w, 4, 4);
    assert w[0..8] == w && w[0..4] == w[..4];
  }

  /** The unrolled loops over the lanes. */
  method SumUp(sums: array<nat>, data: seq<Byte>, use: seq<bool>)
    requires sums.Length == 4 && |data| == 8 && |use| == 4
    modifies sums
    ensures sums[..] == AddParts(old(sums[..]), data, use)
  {
    ghost var s, v := sums[..], [Lane(data, 0), Lane(data, 1), Lane(data, 2), Lane(data, 3)];
    for i := 0 to 4
      invariant forall j :: 0 <= j < i ==> sums[j] == AddEach(s, v, use)[j]
      invariant forall j :: i <= j < 4 ==> sums[j] == s[j]
    {
      EachAt(s, v, use, i);
      if use[i] {
        var temp := Pair(data[2 * i], data[2 * i + 1]);
        sums[i] := Fold(sums[i] + temp);
      }
    }
  }
}
