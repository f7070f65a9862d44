/** Ranking the words of n bits with w ones, largest first. */
module ErasureRank {
  import opened Arith
  import opened Sealing

  function Choose(n: nat, k: nat): nat {
    if k == 0 then 1 else if n == 0 then 0 else Choose(n - 1, k - 1) + Choose(n - 1, k)
  }

  type Word = seq<bool>   // the most significant bit first

  function Ones(b: Word): (n: nat)
    ensures n <= |b|
  {
    if b == [] then 0 else (if b[0] then 1 else 0) + Ones(b[1..])
  }

  function Value(b: Word): nat {
    if b == [] then 0 else (if b[0] then Pow2(|b| - 1) else 0) + Value(b[1..])
  }

  /** The scan: p is one less than the number of ones still to come. */
  function Scan(b: Word, p: int): nat {
    if b == [] then 0
    else if b[0] then Scan(b[1..], p - 1)
    else (if p >= 0 then Choose(|b| - 1, p) else 0) + Scan(b[1..], p)
  }

  /** The rank of a word among those with as many ones. */
  function Rank(b: Word): nat {
    Scan(b, Ones(b) - 1)
  }

  // The rank is the number of larger words with as many ones.

  function Prepend(bit: bool, ws: set<Word>): set<Word> {
    set w | w in ws :: [bit] + w
  }

  lemma {:induction false} PrependSize(bit: bool, ws: set<Word>)
    ensures |Prepend(bit, ws)| == |ws|
  {
    if ws != {} {
      var w :| w in ws;
      PrependSize(bit, ws - {w});
      assert Prepend(bit, ws) == Prepend(bit, ws - {w}) + {[bit] + w};
      assert [bit] + w !in Prepend(bit, ws - {w}) by {
        forall v | v in ws - {w} ensures [bit] + v != [bit] + w {
          assert ([bit] + v)[1..] == v && ([bit] + w)[1..] == w;
        }
      }
    }
  }

  lemma {:induction false} PrependMember(bit: bool, ws: set<Word>, v: Word)
    ensures v in Prepend(bit, ws) <==> v != [] && v[0] == bit && v[1..] in ws
  {
    if v != [] && v[0] == bit && v[1..] in ws {
      assert v == [bit] + v[1..];
    }
    if v in Prepend(bit, ws) {
      var w :| w in ws && v == [bit] + w;
      assert v[1..] == w;
    }
  }

  /** The words that go on as in a after a one, and as in b after a zero. */
  function Join(a: set<Word>, b: set<Word>): set<Word> {
    Prepend(true, a) + Prepend(false, b)
  }

  lemma {:induction false} JoinMember(a: set<Word>, b: set<Word>, v: Word)
    ensures v in Join(a, b) <==> v != [] && (if v[0] then v[1..] in a else v[1..] in b)
  {
    PrependMember(true, a, v);
    PrependMember(false, b, v);
  }

  lemma {:induction false} JoinSize(a: set<Word>, b: set<Word>)
    ensures |Join(a, b)| == |a| + |b|
  {
    PrependSize(true, a);
    PrependSize(false, b);
    forall v | v in Prepend(true, a) ensures v !in Prepend(false, b) {
      PrependMember(true, a, v);
      PrependMember(false, b, v);
    }
  }

  /** All words of n bits with w ones. */
  function Words(n: nat, w: nat): set<Word> {
    if n == 0 then (if w == 0 then {[]} else {})
    else Join(AfterOne(n - 1, w), Words(n - 1, w))
  }

  lemma {:induction false} WordsMember(n: nat, w: nat, v: Word)
    ensures v in Words(n, w) <==> |v| == n && Ones(v) == w
  {
    if n > 0 {
      JoinMember(AfterOne(n - 1, w), Words(n - 1, w), v);
      if v != [] {
        if w > 0 {
          WordsMember(n - 1, w - 1, v[1..]);
        }
        WordsMember(n - 1, w, v[1..]);
      }
    }
  }

  lemma {:induction false} WordsSize(n: nat, w: nat)
    ensures |Words(n, w)| == Choose(n, w)
  {
    SetSize(Words(n, w), n, w);
  }

  ghost predicate IsWords(s: set<Word>, n: nat, w: nat) {
    forall k {:trigger Opened(k)} :: Opened(k) ==> s == Words(n, w)
  }

  lemma {:induction false} SetSize(s: set<Word>, n: nat, w: nat)
    requires IsWords(s, n, w)
    ensures |s| == Choose(n, w)
    decreases n
  {
    var a, b := Parts(s, n, w);
    if n > 0 {
      SetSize(b, n - 1, w);
      if w > 0 {
        SetSize(a, n - 1, w - 1);
      }
    }
  }

  /** The words that begin with a one and those that begin with a zero. */
  lemma {:induction false} Parts(s: set<Word>, n: nat, w: nat) returns (a: set<Word>, b: set<Word>)
    requires IsWords(s, n, w)
    ensures n == 0 ==> |s| == if w == 0 then 1 else 0
    ensures n > 0 ==> |s| == (if w > 0 then |a| else 0) + |b| && IsWords(b, n - 1, w)
    ensures n > 0 && w > 0 ==> IsWords(a, n - 1, w - 1)
  {
    assert Opened(0);
    a, b := {}, {};
    if n > 0 {
      a, b := AfterOne(n - 1, w), Words(n - 1, w);
      JoinSize(a, b);
    }
  }

  /** The words of n bits with w ones, after a one; none if w is zero. */
  function AfterOne(n: nat, w: nat): set<Word> {
    if w > 0 then Words(n, w - 1) else {}
  }

  /** The larger words with as many bits and ones. */
  function Larger(b: Word): set<Word> {
    if b == [] then {}
    else if b[0] then Prepend(true, Larger(b[1..]))
    else Join(AfterOne(|b| - 1, Ones(b)), Larger(b[1..]))
  }

  lemma {:induction false} ValueBound(b: Word)
    ensures Value(b) < Pow2(|b|)
  {
    if b != [] {
      ValueBound(b[1..]);
    }
  }

  lemma {:induction false} LargerMember(b: Word, v: Word)
    ensures v in Larger(b) <==> |v| == |b| && Ones(v) == Ones(b) && Value(v) > Value(b)
  {
    if b != [] {
      PrependMember(true, Larger(b[1..]), v);
      JoinMember(AfterOne(|b| - 1, Ones(b)), Larger(b[1..]), v);
      if v != [] {
        LargerMember(b[1..], v[1..]);
        ValueBound(b[1..]);
        ValueBound(v[1..]);
        if Ones(b) > 0 {
          WordsMember(|b| - 1, Ones(b) - 1, v[1..]);
        }
      }
    }
  }

  /** What the scan adds up is the number of larger words. */
  lemma {:induction false} RankCounts(b: Word)
    ensures Rank(b) == |Larger(b)|
  {
    if b != [] {
      RankCounts(b[1..]);
      if b[0] {
        PrependSize(true, Larger(b[1..]));
      } else {
        JoinSize(AfterOne(|b| - 1, Ones(b)), Larger(b[1..]));
        if Ones(b) > 0 {
          WordsSize(|b| - 1, Ones(b) - 1);
        }
      }
    }
  }

  // The ranks are the numbers below Choose(n, w), each taken once.

  lemma {:induction false} RankBound(b: Word)
    ensures Rank(b) < Choose(|b|, Ones(b))
  {
    if b != [] {
      RankBound(b[1..]);
    }
  }

  lemma {:induction false} RankInjective(a: Word, b: Word)
    requires |a| == |b| && Ones(a) == Ones(b) && Rank(a) == Rank(b)
    ensures a == b
  {
    if a != [] {
      RankBound(a[1..]);
      RankBound(b[1..]);
      assert a[0] == b[0];
      RankInjective(a[1..], b[1..]);
      assert a == [a[0]] + a[1..] && b == [b[0]] + b[1..];
    }
  }

  /** The word of a given rank. */
  function Unrank(n: nat, w: nat, k: nat): (b: Word)
    requires k < Choose(n, w)
    ensures |b| == n && Ones(b) == w && Rank(b) == k
  {
    if n == 0 then []
    else if w > 0 && k < Choose(n - 1, w - 1) then
      var t := Unrank(n - 1, w - 1, k);
      assert ([true] + t)[1..] == t;
      [true] + t
    else
      var t := Unrank(n - 1, w, if w > 0 then k - Choose(n - 1, w - 1) else k);
      assert ([false] + t)[1..] == t;
      [false] + t
  }

  /** The scan counts the words with p + 1 ones that are larger, whatever the number
      of ones in b; it counts them all exactly for the smallest words. */
  lemma {:induction false} ScanBound(b: Word, p: nat)
    ensures Scan(b, p) <= Choose(|b|, p + 1)
    ensures Scan(b, p) == Choose(|b|, p + 1) <==> Value(b) < Pow2(p + 1) - 1
  {
    if b != [] {
      var n, rest := |b|, b[1..];
      ValueBound(rest);
      PowMono(n - 1, p + 1);
      ChooseZero(n - 1, p + 1);
      if b[0] {
        if p > 0 {
          ScanBound(rest, p - 1);
          PowMono(n - 1, p);
          ChooseZero(n - 1, p);
        } else {
          NoneLeft(rest, -1);
        }
      } else {
        ScanBound(rest, p);
      }
    }
  }

  lemma {:induction false} NoneLeft(b: Word, p: int)
    requires p < 0
    ensures Scan(b, p) == 0
  {
    if b != [] {
      NoneLeft(b[1..], if b[0] then p - 1 else p);
    }
  }

  lemma {:induction false} PowMono(m: nat, n: nat)
    ensures m < n ==> 2 * Pow2(m) <= Pow2(n)
    ensures m <= n ==> Pow2(m) <= Pow2(n)
    ensures m > n ==> Pow2(m) >= 2 * Pow2(n)
    decreases m + n
  {
    if m < n {
      PowMono(m, n - 1);
    } else if n < m {
      PowMono(m - 1, n);
    }
  }

  lemma {:induction false} ChooseZero(n: nat, k: nat)
    ensures Choose(n, k) == 0 <==> n < k
  {
    if n > 0 && k > 0 {
      ChooseZero(n - 1, k - 1);
      ChooseZero(n - 1, k);
    }
  }

  lemma {:induction false} ChooseFew(n: nat)
    ensures Choose(n, 1) == n && 2 * Choose(n, 2) == n * (n - 1)
    ensures 6 * Choose(n, 3) == n * (n - 1) * (n - 2)
    ensures 24 * Choose(n, 4) == n * (n - 1) * (n - 2) * (n - 3)
  {
    if n > 0 {
      ChooseFew(n - 1);
      FallingStep(n);
    }
  }

  lemma {:induction false} FallingStep(n: int)
    ensures 2 * (n - 1) + (n - 1) * (n - 2) == n * (n - 1)
    ensures 3 * ((n - 1) * (n - 2)) + (n - 1) * (n - 2) * (n - 3) == n * (n - 1) * (n - 2)
    ensures 4 * ((n - 1) * (n - 2) * (n - 3)) + (n - 1) * (n - 2) * (n - 3) * (n - 4) == n * (n - 1) * (n - 2) * (n - 3)
  {
    var a := (n - 1) * (n - 2);
    assert 3 * a + a * (n - 3) == a * n;
    var b := a * (n - 3);
    assert 4 * b + b * (n - 4) == b * n;
  }

  // Words and the numbers they stand for.

  lemma {:induction false} ValueInjective(a: Word, b: Word)
    requires |a| == |b| && Value(a) == Value(b)
    ensures a == b
  {
    if a != [] {
      ValueBound(a[1..]);
      ValueBound(b[1..]);
      ValueInjective(a[1..], b[1..]);
      assert a == [a[0]] + a[1..] && b == [b[0]] + b[1..];
    }
  }

  /** The first bits of a word, all ones, take nothing from the scan. */
  lemma {:induction false} ScanPastOnes(b: Word, m: nat, p: int)
    requires m <= |b| && forall i :: 0 <= i < m ==> b[i]
    ensures Scan(b, p) == Scan(b[m..], p - m)
  {
    if m == 0 {
      assert b[0..] == b;
    } else {
      ScanPastOnes(b[1..], m - 1, p - 1);
      assert b[1..][m - 1..] == b[m..];
    }
  }

  lemma {:induction false} ValueSplit(b: Word, m: nat)
    requires m <= |b|
    ensures Value(b) == Value(b[..m]) * Pow2(|b| - m) + Value(b[m..])
  {
    if m == 0 {
      assert b[0..] == b;
    } else {
      var top := if b[0] then Pow2(m - 1) else 0;
      ValueSplit(b[1..], m - 1);
      assert b[1..][m - 1..] == b[m..] && b[1..][..m - 1] == b[..m][1..];
      PowAdd(m - 1, |b| - m);
      Distribute(top, Value(b[..m][1..]), Pow2(|b| - m));
    }
  }

  lemma {:induction false} Distribute(a: nat, b: nat, c: nat)
    ensures (a + b) * c == a * c + b * c
  {}

  lemma {:induction false} AllOnesValue(b: Word)
    ensures (forall i :: 0 <= i < |b| ==> b[i]) <==> Value(b) == Pow2(|b|) - 1
  {
    if b != [] {
      AllOnesValue(b[1..]);
      ValueBound(b[1..]);
      if forall i :: 0 <= i < |b[1..]| ==> b[1..][i] {
        assert b[0] ==> forall i :: 0 <= i < |b| ==> b[i] by {
          assert b == [b[0]] + b[1..];
        }
      } else {
        var i :| 0 <= i < |b[1..]| && !b[1..][i];
        assert !b[i + 1];
      }
    }
  }
}
