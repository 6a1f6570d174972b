/** Sequence helpers shared by the models: JavaScript's `Array.prototype.filter`,
    duplicate-freedom, and the subsequence relation used to say that a
    filter keeps the input order. */
module Seqs {

  /** `s.filter(p)`: the elements of `s` that satisfy `p`, in their original order. */
  function Keep<T>(s: seq<T>, p: T -> bool): (r: seq<T>)
    ensures |r| <= |s|
    ensures forall i :: 0 <= i < |r| ==> p(r[i])
    ensures forall i :: 0 <= i < |s| && p(s[i]) ==> s[i] in r
    ensures forall i :: 0 <= i < |r| ==> r[i] in s
    ensures multiset(r) <= multiset(s)
  {
    if |s| == 0 then []
    else
      assert s == [s[0]] + s[1..];
      if p(s[0]) then [s[0]] + Keep(s[1..], p)
    else Keep(s[1..], p)
  }

  /** An element of the input survives the filter exactly when it satisfies the predicate. */
  lemma KeepMember<T>(s: seq<T>, p: T -> bool, x: T)
    requires x in s
    ensures x in Keep(s, p) <==> p(x)
  {
    var r := Keep(s, p);
    if x in r {
      var i :| 0 <= i < |r| && r[i] == x;
    }
  }

  /** `a` is obtained from `b` by deleting elements (order kept). */
  predicate IsSubsequence<T(==)>(a: seq<T>, b: seq<T>)
    decreases |b|
  {
    if |b| == 0 then |a| == 0
    else (|a| > 0 && a[0] == b[0] && IsSubsequence(a[1..], b[1..])) || IsSubsequence(a, b[1..])
  }

  /** The result of a filter keeps the input order. */
  lemma {:induction false} KeepIsSubsequence<T>(s: seq<T>, p: T -> bool)
    ensures IsSubsequence(Keep(s, p), s)
  {
    if |s| > 0 {
      KeepIsSubsequence(s[1..], p);
      if p(s[0]) {
        assert Keep(s, p)[1..] == Keep(s[1..], p);
      }
    }
  }

  /** A filter whose predicate holds everywhere returns its input unchanged. */
  lemma {:induction false} KeepAll<T>(s: seq<T>, p: T -> bool)
    requires forall x :: x in s ==> p(x)
    ensures Keep(s, p) == s
  {
    if |s| > 0 {
      KeepAll(s[1..], p);
    }
  }

  /** A filter whose predicate holds nowhere returns the empty sequence. */
  lemma {:induction false} KeepNone<T>(s: seq<T>, p: T -> bool)
    requires forall i :: 0 <= i < |s| ==> !p(s[i])
    ensures Keep(s, p) == []
  {
    if |s| > 0 {
      KeepNone(s[1..], p);
    }
  }

  /** Filtering distributes over concatenation. */
  lemma {:induction false} KeepAppend<T>(a: seq<T>, b: seq<T>, p: T -> bool)
    ensures Keep(a + b, p) == Keep(a, p) + Keep(b, p)
  {
    if |a| == 0 {
      assert a + b == b;
    } else {
      assert (a + b)[1..] == a[1..] + b;
      KeepAppend(a[1..], b, p);
    }
  }

  /** Filtering a sequence with one more element at the end. */
  lemma KeepSnoc<T>(s: seq<T>, x: T, p: T -> bool)
    ensures Keep(s + [x], p) == if p(x) then Keep(s, p) + [x] else Keep(s, p)
  {
    KeepAppend(s, [x], p);
    assert Keep([x], p) == if p(x) then [x] else [] by {
      assert [x][1..] == [];
    }
  }

  /** The conjunction of two predicates. */
  function Both<T>(p: T -> bool, q: T -> bool): T -> bool
  {
    x => p(x) && q(x)
  }

  /** Two filters in a row are one filter with the conjunction of the predicates. */
  lemma {:induction false} KeepKeep<T>(s: seq<T>, p: T -> bool, q: T -> bool)
    ensures Keep(Keep(s, p), q) == Keep(s, Both(p, q))
  {
    if |s| > 0 {
      KeepKeep(s[1..], p, q);
      if p(s[0]) {
        assert Keep(s, p)[1..] == Keep(s[1..], p);
      }
    }
  }

  /** A filter whose predicate holds at exactly one position keeps just that element. */
  lemma {:induction false} KeepSingle<T>(s: seq<T>, p: T -> bool, k: int)
    requires 0 <= k < |s| && p(s[k])
    requires forall i :: 0 <= i < |s| && i != k ==> !p(s[i])
    ensures Keep(s, p) == [s[k]]
  {
    if k == 0 {
      assert forall i :: 0 <= i < |s[1..]| ==> s[1..][i] == s[i + 1];
      KeepNone(s[1..], p);
    } else {
      KeepSingle(s[1..], p, k - 1);
    }
  }

  /** Filters with predicates that agree on the elements give the same result. */
  lemma {:induction false} KeepCongruent<T>(s: seq<T>, p: T -> bool, q: T -> bool)
    requires forall i :: 0 <= i < |s| ==> p(s[i]) == q(s[i])
    ensures Keep(s, p) == Keep(s, q)
  {
    if |s| > 0 {
      KeepCongruent(s[1..], p, q);
    }
  }

  /** No element occurs twice. */
  predicate NoDup<T(==)>(s: seq<T>)
  {
    forall i, j :: 0 <= i < j < |s| ==> s[i] != s[j]
  }

  /** Filtering out the one occurrence of `x` from a duplicate-free
      sequence shortens it by one. */
  lemma {:induction false} KeepDropsOne<T>(s: seq<T>, p: T -> bool, x: T)
    requires NoDup(s) && x in s
    requires forall y :: y in s ==> (p(y) <==> y != x)
    ensures |Keep(s, p)| == |s| - 1
  {
    var t := s[1..];
    assert forall k :: 0 <= k < |t| ==> t[k] == s[k + 1];
    if s[0] == x {
      forall y | y in t
        ensures p(y)
      {
        var k :| 0 <= k < |t| && t[k] == y;
        assert s[k + 1] != s[0];
      }
      KeepAll(t, p);
    } else {
      assert NoDup(t);
      KeepDropsOne(t, p, x);
    }
  }

  /** Appending an element not yet present keeps a sequence duplicate-free. */
  lemma NoDupSnoc<T>(s: seq<T>, x: T)
    requires NoDup(s) && x !in s
    ensures NoDup(s + [x])
  {
    var r := s + [x];
    forall i, j | 0 <= i < j < |r|
      ensures r[i] != r[j]
    {
      if j == |s| {
        assert r[i] == s[i];
      }
    }
  }

  /** A filter of a duplicate-free sequence is duplicate-free. */
  lemma {:induction false} KeepNoDup<T>(s: seq<T>, p: T -> bool)
    ensures NoDup(s) ==> NoDup(Keep(s, p))
  {
    if |s| > 0 && NoDup(s) {
      assert NoDup(s[1..]) by {
        forall i, j | 0 <= i < j < |s[1..]|
          ensures s[1..][i] != s[1..][j]
        {
          assert s[1..][i] == s[i + 1] && s[1..][j] == s[j + 1];
        }
      }
      KeepNoDup(s[1..], p);
      var t := Keep(s[1..], p);
      if p(s[0]) {
        forall i | 0 <= i < |t|
          ensures t[i] != s[0]
        {
          var k :| 0 <= k < |s[1..]| && s[1..][k] == t[i];
          assert s[k + 1] == t[i];
        }
        var r := [s[0]] + t;
        forall i, j | 0 <= i < j < |r|
          ensures r[i] != r[j]
        {
          assert r[j] == t[j - 1];
          if i > 0 {
            assert r[i] == t[i - 1];
          }
        }
      }
    }
  }
}
