/** Sequence helpers shared by the model: the `filter`, `includes`,
    `new Set(..)` and `flatMap` that the source applies to arrays and lists. */
module Seqs {

  /** Order-preserving `filter`. */
  function Filter<T(!new)>(f: T -> bool, s: seq<T>): (r: seq<T>)
    ensures |r| <= |s|
    ensures forall x :: x in r <==> x in s && f(x)
    ensures forall i :: 0 <= i < |r| ==> f(r[i])
  {
    if s == [] then [] else (if f(s[0]) then [s[0]] else []) + Filter(f, s[1..])
  }

  /** Filtering a concatenation filters each part. */
  lemma {:induction false} FilterAppend<T(!new)>(f: T -> bool, a: seq<T>, b: seq<T>)
    ensures Filter(f, a + b) == Filter(f, a) + Filter(f, b)
  {
    if a != [] {
      assert (a + b)[0] == a[0] && (a + b)[1..] == a[1..] + b;
      FilterAppend(f, a[1..], b);
    } else {
      assert a + b == b;
    }
  }

  /** Filtering a sequence extended by one element. */
  lemma FilterSnoc<T(!new)>(f: T -> bool, a: seq<T>, x: T)
    ensures Filter(f, a + [x]) == Filter(f, a) + (if f(x) then [x] else [])
  {
    FilterAppend(f, a, [x]);
  }

  /** A filter keeps every copy of a kept value and no copy of a dropped one. */
  lemma {:induction false} FilterMultiplicity<T(!new)>(f: T -> bool, s: seq<T>, x: T)
    ensures multiset(Filter(f, s))[x] == if f(x) then multiset(s)[x] else 0
  {
    if s != [] {
      assert s == [s[0]] + s[1..];
      FilterMultiplicity(f, s[1..], x);
    }
  }

  /** A filter keeps a kept first element first. */
  lemma FilterHead<T(!new)>(f: T -> bool, s: seq<T>)
    requires s != [] && f(s[0])
    ensures Filter(f, s) != [] && Filter(f, s)[0] == s[0]
  {
  }

  /** A filter that keeps nothing is empty. */
  lemma FilterNone<T(!new)>(f: T -> bool, s: seq<T>)
    requires forall x :: x in s ==> !f(x)
    ensures Filter(f, s) == []
  {
    if Filter(f, s) != [] {
      assert Filter(f, s)[0] in Filter(f, s);
    }
  }

  /** A filter that keeps everything is the identity. */
  lemma {:induction false} FilterAll<T(!new)>(f: T -> bool, s: seq<T>)
    requires forall x :: x in s ==> f(x)
    ensures Filter(f, s) == s
  {
    if s != [] {
      FilterAll(f, s[1..]);
    }
  }

  /** Two predicates that agree on the elements give the same filter. */
  lemma {:induction false} FilterCongruent<T(!new)>(f: T -> bool, g: T -> bool, s: seq<T>)
    requires forall x :: x in s ==> f(x) == g(x)
    ensures Filter(f, s) == Filter(g, s)
  {
    if s != [] {
      FilterCongruent(f, g, s[1..]);
    }
  }

  /** No element occurs twice. */
  predicate Distinct<T(==)>(s: seq<T>) {
    forall i, j :: 0 <= i < j < |s| ==> s[i] != s[j]
  }

  /** `[...new Set(s)]`: the elements of `s` in first-occurrence order. */
  function Dedup<T(==,!new)>(s: seq<T>): (r: seq<T>)
    ensures Distinct(r)
    ensures forall x :: x in r <==> x in s
    ensures |r| <= |s|
  {
    if s == [] then []
    else
      var d := Dedup(s[..|s| - 1]);
      assert forall x :: x in s <==> x in s[..|s| - 1] || x == s[|s| - 1];
      if s[|s| - 1] in d then d else d + [s[|s| - 1]]
  }

  /** In a sequence without repeats, an element is not in the part before it. */
  lemma DistinctNotBefore<T>(s: seq<T>, k: nat)
    requires Distinct(s) && k < |s|
    ensures s[k] !in s[..k]
  {
  }

  /** Deduplicating a duplicate-free sequence changes nothing. */
  lemma {:induction false} DedupDistinct<T(!new)>(s: seq<T>)
    requires Distinct(s)
    ensures Dedup(s) == s
  {
    if s != [] {
      var init := s[..|s| - 1];
      assert Distinct(init);
      DedupDistinct(init);
      assert s[|s| - 1] !in init;
      assert init + [s[|s| - 1]] == s;
    }
  }

  /** The index of the first occurrence of `x` in `s`; `|s|` when absent. */
  function FirstIndex<T(==)>(s: seq<T>, x: T): (k: nat)
    ensures k <= |s|
    ensures k < |s| <==> x in s
    ensures k < |s| ==> s[k] == x
    ensures x !in s[..k]
  {
    if s == [] then 0
    else if s[0] == x then 0
    else
      var k := 1 + FirstIndex(s[1..], x);
      assert s[..k] == [s[0]] + s[1..][..k - 1];
      k
  }

  /** The first occurrence in a longer sequence is the one in its prefix. */
  lemma FirstIndexSnoc<T>(s: seq<T>, y: T, x: T)
    requires x in s
    ensures FirstIndex(s + [y], x) == FirstIndex(s, x)
  {
    var k := FirstIndex(s, x);
    var k' := FirstIndex(s + [y], x);
    assert (s + [y])[..k] == s[..k];
    assert (s + [y])[..k + 1] == s[..k + 1] && s[..k + 1][k] == x;
    assert k' <= k;
    assert (s + [y])[..k'] == s[..k'];
  }

  /** The elements of `r` appear in the order of their first occurrence
      in `s`. */
  predicate InFirstOccurrenceOrder<T(==)>(r: seq<T>, s: seq<T>) {
    forall i, j :: 0 <= i < j < |r| ==> FirstIndex(s, r[i]) < FirstIndex(s, r[j])
  }

  /** Appending to `s` keeps the order of elements already in it, and a new
      element goes last. */
  lemma OrderSnoc<T>(d: seq<T>, s: seq<T>, x: T)
    requires InFirstOccurrenceOrder(d, s) && forall y :: y in d ==> y in s
    ensures InFirstOccurrenceOrder(d, s + [x])
    ensures x !in s ==> InFirstOccurrenceOrder(d + [x], s + [x])
  {
    forall y | y in d ensures FirstIndex(s + [x], y) == FirstIndex(s, y) < |s| {
      FirstIndexSnoc(s, x, y);
    }
    if x !in s {
      assert FirstIndex(s + [x], x) == |s| by {
        assert (s + [x])[|s|] == x && (s + [x])[..|s|] == s;
      }
      var r := d + [x];
      forall i, j | 0 <= i < j < |r| ensures FirstIndex(s + [x], r[i]) < FirstIndex(s + [x], r[j]) {
        assert r[i] == d[i] && d[i] in d;
        if j < |d| {
          assert r[j] == d[j] && d[j] in d;
        }
      }
    }
  }

  /** `[...new Set(s)]` lists the elements in the order of their first
      occurrence in `s`. */
  lemma {:induction false} DedupOrder<T(!new)>(s: seq<T>)
    ensures InFirstOccurrenceOrder(Dedup(s), s)
  {
    if s != [] {
      var init, x := s[..|s| - 1], s[|s| - 1];
      assert s == init + [x];
      DedupOrder(init);
      DedupSnoc(init, x);
      OrderSnoc(Dedup(init), init, x);
    }
  }

  /** `flatMap` with the identity: all lists, one after another. */
  function Flatten<T(!new)>(ss: seq<seq<T>>): (r: seq<T>)
    ensures forall x :: x in r <==> exists i :: 0 <= i < |ss| && x in ss[i]
  {
    if ss == [] then []
    else
      var rest := Flatten(ss[1..]);
      assert forall i :: 1 <= i < |ss| ==> ss[i] == ss[1..][i - 1];
      ss[0] + rest
  }

  /** JavaScript's `slice(0, k)` and Python's `[:k]` for k >= 0: at most
      the first `k` elements. */
  function Take<T>(s: seq<T>, k: nat): (r: seq<T>)
    ensures |r| == if k < |s| then k else |s|
    ensures r == s[..|r|]
  {
    if k < |s| then s[..k] else s
  }

  /** JavaScript's `s.slice(0, end)` for any integer `end`: a negative
      `end` counts from the back. */
  function SliceTo<T>(s: seq<T>, end: int): (r: seq<T>)
    ensures |r| <= |s| && r == s[..|r|]
    ensures 0 <= end ==> |r| == if end < |s| then end else |s|
    ensures end < 0 ==> |r| == if |s| + end < 0 then 0 else |s| + end
  {
    if 0 <= end then Take(s, end)
    else if |s| + end < 0 then []
    else s[..|s| + end]
  }

  /** The elements of a sequence as a set are no more than its length. */
  lemma {:induction false} SetOfSeqSize<T>(s: seq<T>)
    ensures |set x | x in s| <= |s|
  {
    if s != [] {
      SetOfSeqSize(s[1..]);
      assert (set x | x in s) == (set x | x in s[1..]) + {s[0]};
    }
  }

  /** A sequence without repeats has as many elements as its set. */
  lemma {:induction false} DistinctSetSize<T>(s: seq<T>)
    requires Distinct(s)
    ensures |set x | x in s| == |s|
  {
    if s != [] {
      assert Distinct(s[1..]);
      DistinctSetSize(s[1..]);
      assert s[0] !in s[1..];
      assert (set x | x in s) == (set x | x in s[1..]) + {s[0]};
    }
  }

  /** A set no larger than its superset. */
  lemma SubsetSize<T>(a: set<T>, b: set<T>)
    requires a <= b
    ensures |a| <= |b|
  {
    assert b == a + (b - a);
  }

  /** `a` is obtained from `b` by deleting elements. */
  predicate Subsequence<T(==)>(a: seq<T>, b: seq<T>)
    decreases |b|
  {
    if a == [] then true
    else if b == [] then false
    else if a[0] == b[0] then Subsequence(a[1..], b[1..])
    else Subsequence(a, b[1..])
  }

  /** A filter result is a subsequence of its input. */
  lemma {:induction false} FilterSubsequence<T(!new)>(f: T -> bool, s: seq<T>)
    ensures Subsequence(Filter(f, s), s)
  {
    if s != [] {
      FilterSubsequence(f, s[1..]);
      if f(s[0]) {
        assert Filter(f, s) == [s[0]] + Filter(f, s[1..]);
        assert Filter(f, s)[1..] == Filter(f, s[1..]);
      } else {
        // the first kept element satisfies f and s[0] does not, so they differ
        assert Filter(f, s) == Filter(f, s[1..]);
      }
    }
  }

  /** A subsequence of the tail is a subsequence of the whole. */
  lemma {:induction false} SubsequenceCons<T>(a: seq<T>, b: seq<T>)
    requires b != [] && Subsequence(a, b[1..])
    ensures Subsequence(a, b)
    decreases |b|, 0
  {
    if a != [] && a[0] == b[0] {
      SubsequenceDrop(a, b[1..]);
    }
  }

  /** Dropping the first element keeps a subsequence. */
  lemma {:induction false} SubsequenceDrop<T>(a: seq<T>, b: seq<T>)
    requires a != [] && Subsequence(a, b)
    ensures Subsequence(a[1..], b)
    decreases |b|, 1
  {
    if a[0] != b[0] {
      SubsequenceDrop(a, b[1..]);
    }
    SubsequenceCons(a[1..], b);
  }

  /** A prefix of a subsequence is a subsequence. */
  lemma {:induction false} SubsequencePrefix<T>(a: seq<T>, b: seq<T>, k: nat)
    requires Subsequence(a, b) && k <= |a|
    ensures Subsequence(a[..k], b)
    decreases |b|
  {
    if k > 0 {
      assert a[..k][0] == a[0] && a[..k][1..] == a[1..][..k - 1];
      if a[0] == b[0] {
        SubsequencePrefix(a[1..], b[1..], k - 1);
      } else {
        SubsequencePrefix(a, b[1..], k);
      }
    }
  }

  /** One more element is appended to the de-duplicated list exactly when
      it is new. */
  lemma DedupSnoc<T(!new)>(s: seq<T>, x: T)
    ensures Dedup(s + [x]) == if x in s then Dedup(s) else Dedup(s) + [x]
  {
    assert (s + [x])[..|s|] == s;
  }
}
