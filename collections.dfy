/** Sequence facts shared by the validators: deduplication in first-occurrence
    order (what a Python dict's keys give), per-category count vectors, and sums. */
module Collections {

  predicate Distinct<T(==)>(s: seq<T>)
  {
    forall i, j :: 0 <= i < j < |s| ==> s[i] != s[j]
  }

  /** The position of the first occurrence of `x` in `s`. */
  function FirstIndex<T(==)>(s: seq<T>, x: T): (k: nat)
    requires x in s
    ensures k < |s| && s[k] == x && x !in s[..k]
  {
    if s[0] == x then 0 else 1 + FirstIndex(s[1..], x)
  }

  /** The elements of `s`, each once, in the order of their first occurrence:
      the keys of a dict that is filled from `s` one element at a time. */
  function Dedup<T(==,!new)>(s: seq<T>): (r: seq<T>)
    ensures Distinct(r)
    ensures forall x :: x in r <==> x in s
    ensures |r| <= |s|
  {
    if |s| == 0 then []
    else
      var init := s[..|s| - 1];
      var d := Dedup(init);
      assert s == init + [s[|s| - 1]];
      if s[|s| - 1] in d then d else d + [s[|s| - 1]]
  }

  /** A prefix one element longer. */
  lemma PrefixSnoc<T>(s: seq<T>, i: nat)
    requires i < |s|
    ensures s[..i + 1] == s[..i] + [s[i]]
  {
  }

  lemma PrefixAll<T>(s: seq<T>)
    ensures s[..|s|] == s
  {
  }

  lemma DedupSnoc<T(!new)>(s: seq<T>, x: T)
    ensures Dedup(s + [x]) == if x in s then Dedup(s) else Dedup(s) + [x]
  {
    assert (s + [x])[..|s|] == s;
  }

  /** Repeating an element that already occurred adds nothing to the first-seen order. */
  lemma {:induction false} DedupRepeat<T(!new)>(s: seq<T>, x: T, n: nat)
    requires x in s
    ensures Dedup(s + seq(n, _ => x)) == Dedup(s)
    decreases n
  {
    if n == 0 {
      assert s + seq(n, _ => x) == s;
    } else {
      DedupRepeat(s, x, n - 1);
      var r := s + seq(n - 1, _ => x);
      assert s + seq(n, _ => x) == r + [x];
      DedupSnoc(r, x);
    }
  }

  /** One `y` followed by `b - 1` more is a block of `b`. */
  lemma BlockSnoc<T>(xs: seq<T>, y: T, b: nat)
    requires b >= 1
    ensures (xs + [y]) + seq(b - 1, _ => y) == xs + seq(b, _ => y)
  {
    assert [y] + seq(b - 1, _ => y) == seq(b, _ => y);
  }

  /** A block of `x`s is first seen as `x` alone. */
  lemma DedupBlock<T(!new)>(x: T, a: nat)
    requires a >= 1
    ensures Dedup(seq(a, _ => x)) == [x]
  {
    var e: seq<T> := [];
    DedupSnoc(e, x);
    DedupRepeat(e + [x], x, a - 1);
    BlockSnoc(e, x, a);
    assert e + seq(a, _ => x) == seq(a, _ => x);
  }

  /** A block of `x`s followed by a block of `y`s is first seen as `x`, then `y`. */
  lemma DedupBlocks<T(!new)>(x: T, a: nat, y: T, b: nat)
    requires a >= 1 && b >= 1 && x != y
    ensures Dedup(seq(a, _ => x) + seq(b, _ => y)) == [x, y]
  {
    var xs := seq(a, _ => x);
    DedupBlock(x, a);
    DedupSnoc(xs, y);
    DedupRepeat(xs + [y], y, b - 1);
    BlockSnoc(xs, y, b);
  }

  lemma FirstIndexSnoc<T>(s: seq<T>, x: T, y: T)
    requires x in s
    ensures FirstIndex(s + [y], x) == FirstIndex(s, x)
  {
    var k := FirstIndex(s, x);
    assert (s + [y])[k] == x && (s + [y])[..k] == s[..k];
  }

  /** `Dedup` keeps first occurrences in order: an element listed earlier
      occurred first earlier. */
  lemma {:induction false} DedupOrder<T(!new)>(s: seq<T>, i: nat, j: nat)
    requires i < j < |Dedup(s)|
    ensures FirstIndex(s, Dedup(s)[i]) < FirstIndex(s, Dedup(s)[j])
    decreases |s|
  {
    var init := s[..|s| - 1];
    var x := s[|s| - 1];
    assert s == init + [x];
    DedupSnoc(init, x);
    var d := Dedup(init);
    FirstIndexSnoc(init, Dedup(s)[i], x);
    if j < |d| {
      DedupOrder(init, i, j);
      FirstIndexSnoc(init, Dedup(s)[j], x);
    } else {
      assert Dedup(s)[j] == x && x !in init;
      assert s[..|init|] == init;
    }
  }

  lemma {:induction false} DistinctCard<T>(s: seq<T>)
    requires Distinct(s)
    ensures |set x | x in s| == |s|
    decreases |s|
  {
    if |s| > 0 {
      var init := s[..|s| - 1];
      var x := s[|s| - 1];
      assert s == init + [x];
      assert Distinct(init);
      DistinctCard(init);
      assert x !in init;
      assert (set y | y in s) == (set y | y in init) + {x};
    }
  }

  /** Sum of a sequence of integers, accumulated left to right. */
  function SumNat(s: seq<nat>): nat
  {
    if |s| == 0 then 0 else SumNat(s[..|s| - 1]) + s[|s| - 1]
  }

  /** Sum of a sequence of reals, accumulated left to right. */
  function Sum(s: seq<real>): real
  {
    if |s| == 0 then 0.0 else Sum(s[..|s| - 1]) + s[|s| - 1]
  }

  /** Raising one entry by one raises the sum by one. */
  lemma {:induction false} SumIncrement(s: seq<nat>, j: nat)
    requires j < |s|
    ensures SumNat(s[j := s[j] + 1]) == SumNat(s) + 1
    decreases |s|
  {
    var t := s[j := s[j] + 1];
    assert t[..|t| - 1] == if j < |s| - 1 then s[..|s| - 1][j := s[j] + 1] else s[..|s| - 1];
    if j < |s| - 1 {
      SumIncrement(s[..|s| - 1], j);
    }
  }

  lemma {:induction false} SumZeros(n: nat)
    ensures SumNat(seq(n, _ => 0)) == 0
  {
    if n > 0 {
      assert seq(n, _ => 0)[..n - 1] == seq(n - 1, _ => 0);
      SumZeros(n - 1);
    }
  }

  /** How often each of `cats` occurs in `s`: the category-count vector. */
  function CountVector<T(==)>(s: seq<T>, cats: seq<T>): (v: seq<nat>)
    ensures |v| == |cats|
  {
    seq(|cats|, j requires 0 <= j < |cats| => multiset(s)[cats[j]])
  }

  /** One more occurrence of category `cats[j]` raises entry `j` and no other. */
  lemma CountVectorSnoc<T>(s: seq<T>, cats: seq<T>, j: nat)
    requires Distinct(cats) && j < |cats|
    ensures var v := CountVector(s, cats);
      CountVector(s + [cats[j]], cats) == v[j := v[j] + 1]
  {
    assert multiset(s + [cats[j]]) == multiset(s) + multiset{cats[j]};
  }

  lemma CountVectorEmpty<T>(cats: seq<T>)
    ensures CountVector([], cats) == seq(|cats|, _ => 0)
  {
  }

  /** When `cats` lists every element of `s` once, the counts add up to `|s|`. */
  lemma {:induction false} CountVectorSum<T>(s: seq<T>, cats: seq<T>)
    requires Distinct(cats)
    requires forall x :: x in s ==> x in cats
    ensures SumNat(CountVector(s, cats)) == |s|
    decreases |s|
  {
    if |s| == 0 {
      CountVectorEmpty(cats);
      SumZeros(|cats|);
    } else {
      var init := s[..|s| - 1];
      var x := s[|s| - 1];
      assert s == init + [x];
      CountVectorSum(init, cats);
      assert x in s;
      var j := FirstIndex(cats, x);
      CountVectorSnoc(init, cats, j);
      SumIncrement(CountVector(init, cats), j);
    }
  }
}
