/**
  The in-place Fisher-Yates shuffle that both card games run on a fresh
  deck (`for (let i = deck.length - 1; i > 0; i--) swap(i, random j <= i)`).
  `Math.random` is replaced by the indices it would have produced:
  `picks[i]` is the `j` chosen when the loop is at `i`.
*/
module Shuffle {

  /** No element occurs twice. */
  predicate Distinct<T(==)>(s: seq<T>) {
    forall i, j :: 0 <= i < j < |s| ==> s[i] != s[j]
  }

  /** The picks `Math.floor(Math.random() * (i + 1))` can produce for a deck of n cards. */
  predicate ValidPicks(picks: seq<nat>, n: nat) {
    |picks| == n && forall i :: 0 < i < n ==> picks[i] <= i
  }

  /** Dropping the last element keeps a sequence without repetitions, and the last element is not among the rest. */
  lemma DistinctInit<T>(s: seq<T>)
    requires Distinct(s) && s != []
    ensures s == s[..|s| - 1] + [s[|s| - 1]]
    ensures Distinct(s[..|s| - 1]) && s[|s| - 1] !in s[..|s| - 1]
  {
    var init := s[..|s| - 1];
    forall i, j | 0 <= i < j < |init| ensures init[i] != init[j] {
      assert init[i] == s[i] && init[j] == s[j];
    }
    forall i | 0 <= i < |init| ensures init[i] != s[|s| - 1] {
      assert init[i] == s[i];
    }
  }

  lemma {:induction false} DistinctCountsAtMostOne<T>(s: seq<T>, x: T)
    requires Distinct(s)
    ensures multiset(s)[x] <= 1
    decreases |s|
  {
    if s != [] {
      var last := s[|s| - 1];
      var init := s[..|s| - 1];
      assert s == init + [last];
      assert Distinct(init);
      DistinctCountsAtMostOne(init, x);
      if x == last {
        assert x !in init;
        assert multiset(init)[x] == 0;
      }
    }
  }

  lemma CountsAtMostOneDistinct<T>(t: seq<T>)
    requires forall x :: multiset(t)[x] <= 1
    ensures Distinct(t)
  {
    forall i, j | 0 <= i < j < |t| ensures t[i] != t[j] {
      assert t == t[..j] + t[j..];
      assert t[i] in t[..j] && t[j] in t[j..];
      assert multiset(t)[t[j]] == multiset(t[..j])[t[j]] + multiset(t[j..])[t[j]];
    }
  }

  /** A permutation of a sequence without repetitions has none either. */
  lemma PermutationKeepsDistinct<T>(s: seq<T>, t: seq<T>)
    requires multiset(s) == multiset(t) && Distinct(s)
    ensures Distinct(t) && |t| == |s|
  {
    assert |t| == |multiset(t)| == |multiset(s)| == |s|;
    forall x ensures multiset(t)[x] <= 1 {
      DistinctCountsAtMostOne(s, x);
    }
    CountsAtMostOneDistinct(t);
  }

  /** The shuffle loop; the result is a permutation of the input. */
  method ShuffleInPlace<T>(a: array<T>, picks: seq<nat>)
    requires ValidPicks(picks, a.Length)
    modifies a
    ensures multiset(a[..]) == multiset(old(a[..]))
  {
    var i := a.Length - 1;
    while i > 0
      invariant -1 <= i < a.Length
      invariant i >= 0 || a.Length == 0
      invariant multiset(a[..]) == multiset(old(a[..]))
    {
      var j := picks[i];
      a[i], a[j] := a[j], a[i];
      i := i - 1;
    }
  }

  /** The shuffle of a deck, as a value: a fresh array is shuffled and read back. */
  method Shuffled<T>(deck: seq<T>, picks: seq<nat>) returns (r: seq<T>)
    requires ValidPicks(picks, |deck|)
    ensures multiset(r) == multiset(deck) && |r| == |deck|
    ensures Distinct(deck) ==> Distinct(r)
  {
    var a := new T[|deck|](i requires 0 <= i < |deck| => deck[i]);
    assert a[..] == deck;
    ShuffleInPlace(a, picks);
    r := a[..];
    assert |r| == |multiset(r)| == |multiset(deck)| == |deck|;
    if Distinct(deck) {
      PermutationKeepsDistinct(deck, r);
    }
  }
}
