/** Sequence facts shared by the sequence store: the last n entries, and subsequences. */
module Sequences {

  /** Python's s[-n:] for a positive n. */
  function LastN<T>(s: seq<T>, n: nat): seq<T> {
    if |s| <= n then s else s[|s| - n..]
  }

  /** It is the end of s, as much of it as n entries hold, and nothing else is. */
  lemma LastNIsTheEnd<T>(s: seq<T>, n: nat, end: seq<T>)
    ensures LastN(s, n) == end
            <==> && |end| == (if |s| < n then |s| else n)
                 && forall k :: 0 <= k < |end| ==> end[k] == s[|s| - |end| + k]
  {
    if |end| == (if |s| < n then |s| else n) && forall k :: 0 <= k < |end| ==> end[k] == s[|s| - |end| + k] {
      assert LastN(s, n) == end;
    }
  }

  /** Trimming before an append changes nothing that trimming after it would keep. */
  lemma TrimmedAppend<T>(s: seq<T>, x: T, n: nat)
    requires n > 0
    ensures LastN(LastN(s, n) + [x], n) == LastN(s + [x], n)
  {
  }

  /** a can be obtained from b by deleting entries, so each entry of b is used at most once and in order. */
  predicate IsSubsequence<T(==)>(a: seq<T>, b: seq<T>) {
    || a == []
    || (b != [] && ((a[|a| - 1] == b[|b| - 1] && IsSubsequence(a[..|a| - 1], b[..|b| - 1]))
                    || IsSubsequence(a, b[..|b| - 1])))
  }

  lemma SubsequenceAppends<T>(a: seq<T>, b: seq<T>, x: T)
    requires IsSubsequence(a, b)
    ensures IsSubsequence(a + [x], b + [x])
  {
    assert (b + [x])[..|b|] == b && (a + [x])[..|a|] == a;
  }

  lemma {:induction false} SubsequenceOfExtension<T>(a: seq<T>, b: seq<T>, n: nat)
    requires n <= |b| && IsSubsequence(a, b[..n])
    ensures IsSubsequence(a, b)
    decreases |b|
  {
    if n < |b| {
      assert b[..|b| - 1][..n] == b[..n];
      SubsequenceOfExtension(a, b[..|b| - 1], n);
    } else {
      assert b[..n] == b;
    }
  }

  lemma {:induction false} SubsequenceDropsFirst<T>(a: seq<T>, b: seq<T>, k: nat)
    requires IsSubsequence(a, b) && k <= |a|
    ensures IsSubsequence(a[k..], b)
    decreases |b|
  {
    if k < |a| {
      if a[|a| - 1] == b[|b| - 1] && IsSubsequence(a[..|a| - 1], b[..|b| - 1]) {
        SubsequenceDropsFirst(a[..|a| - 1], b[..|b| - 1], k);
        assert a[..|a| - 1][k..] == a[k..][..|a| - k - 1];
      } else {
        SubsequenceDropsFirst(a, b[..|b| - 1], k);
      }
    }
  }

  lemma {:induction false} SubsequenceMembers<T>(a: seq<T>, b: seq<T>, x: T)
    requires IsSubsequence(a, b) && x in a
    ensures x in b
    decreases |b|
  {
    if a[|a| - 1] == b[|b| - 1] && IsSubsequence(a[..|a| - 1], b[..|b| - 1]) {
      if x != a[|a| - 1] {
        SubsequenceMembers(a[..|a| - 1], b[..|b| - 1], x);
      }
    } else {
      SubsequenceMembers(a, b[..|b| - 1], x);
    }
  }
}
