/** Small facts about sequences that the models share. */
module Seqs {

  /** Indexing past the head of `[x] + s` indexes `s`. */
  lemma ConsIndex<T>(x: T, s: seq<T>)
    ensures ([x] + s)[0] == x
    ensures forall i :: 1 <= i < |[x] + s| ==> ([x] + s)[i] == s[i - 1]
  {
  }

  /** Concatenation is associative. */
  lemma AppendAssoc<T>(a: seq<T>, b: seq<T>, c: seq<T>)
    ensures a + (b + c) == (a + b) + c
  {
  }

  /** A non-empty sequence is its head followed by its tail. */
  lemma SplitHead<T>(s: seq<T>)
    requires |s| > 0
    ensures s == [s[0]] + s[1..]
  {
    assert s[..1] == [s[0]];
    assert s[..1] + s[1..] == s;
  }

  /** A non-empty sequence is its prefix followed by its last element. */
  lemma SplitLast<T>(s: seq<T>)
    requires |s| > 0
    ensures s == s[..|s| - 1] + [s[|s| - 1]]
  {
    assert s[|s| - 1..] == [s[|s| - 1]];
    assert s[..|s| - 1] + s[|s| - 1..] == s;
  }

  /** A sequence is what lies before index `k`, the element at `k`, and
      what lies after it. */
  lemma SplitAt<T>(s: seq<T>, k: int)
    requires 0 <= k < |s|
    ensures s == s[..k] + [s[k]] + s[k + 1..]
  {
    assert s[k..] == [s[k]] + s[k + 1..];
    assert s[..k] + s[k..] == s;
  }

  /** Taking the head off one of two sequences with equal multisets, and a
      matching element off the other, leaves equal multisets. */
  lemma RemoveMatchingHead<T>(s: seq<T>, t: seq<T>, k: int)
    requires multiset(s) == multiset(t) && |s| > 0
    requires 0 <= k < |t| && t[k] == s[0]
    ensures multiset(s[1..]) == multiset(t[..k] + t[k + 1..])
  {
    var x := s[0];
    assert multiset(t) == multiset(t[..k] + t[k + 1..]) + multiset{x} by {
      SplitAt(t, k);
    }
    assert multiset(s) == multiset(s[1..]) + multiset{x} by {
      SplitHead(s);
    }
    assert multiset(s[1..]) == multiset(s) - multiset{x};
  }
}
