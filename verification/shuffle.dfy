/** The Fisher-Yates shuffle of `shuffleArray`
    (`lib/recommendation-service.ts`) as a specification on sequences.
    `Math.random` is an oracle: step `i` swaps position `i` with
    `rolls(i) % (i + 1)`. The same function stands for the
    `sort(() => 0.5 - Math.random())` calls of the catalog service, whose
    only reliable outcome is some permutation of the input. */
module Shuffling {

  /** Exchanges positions `i` and `j`. */
  function Swap<T>(s: seq<T>, i: nat, j: nat): (r: seq<T>)
    requires i < |s| && j < |s|
    ensures |r| == |s| && r[i] == s[j] && r[j] == s[i]
    ensures forall k :: 0 <= k < |s| && k != i && k != j ==> r[k] == s[k]
  {
    s[i := s[j]][j := s[i]]
  }

  lemma SwapPermutes<T>(s: seq<T>, i: nat, j: nat)
    requires i < |s| && j < |s|
    ensures multiset(Swap(s, i, j)) == multiset(s)
  {
    if i != j {
      calc {
        multiset(s[i := s[j]][j := s[i]]);
        multiset(s[i := s[j]]) - multiset{s[i := s[j]][j]} + multiset{s[i]};
        multiset(s) - multiset{s[i]} + multiset{s[j]} - multiset{s[j]} + multiset{s[i]};
        multiset(s);
      }
    }
  }

  /** The remaining steps `i`, `i - 1`, ..., `1` of the shuffle loop. */
  function ShuffleDown<T>(s: seq<T>, i: int, rolls: nat -> nat): (r: seq<T>)
    requires i < |s|
    ensures |r| == |s|
    decreases i
  {
    if i <= 0 then s else ShuffleDown(Swap(s, i, rolls(i) % (i + 1)), i - 1, rolls)
  }

  /** The whole shuffle of `s`. */
  function Shuffle<T>(s: seq<T>, rolls: nat -> nat): (r: seq<T>)
    ensures |r| == |s|
  {
    ShuffleDown(s, |s| - 1, rolls)
  }

  lemma {:induction false} ShuffleDownPermutes<T>(s: seq<T>, i: int, rolls: nat -> nat)
    requires i < |s|
    ensures multiset(ShuffleDown(s, i, rolls)) == multiset(s)
    decreases i
  {
    if i > 0 {
      var t := Swap(s, i, rolls(i) % (i + 1));
      SwapPermutes(s, i, rolls(i) % (i + 1));
      ShuffleDownPermutes(t, i - 1, rolls);
    }
  }

  /** A shuffle is a permutation of its input. */
  lemma ShufflePermutes<T>(s: seq<T>, rolls: nat -> nat)
    ensures multiset(Shuffle(s, rolls)) == multiset(s)
    ensures forall x :: x in Shuffle(s, rolls) <==> x in s
  {
    ShuffleDownPermutes(s, |s| - 1, rolls);
    assert forall x :: x in Shuffle(s, rolls) <==> x in multiset(Shuffle(s, rolls));
  }
}
