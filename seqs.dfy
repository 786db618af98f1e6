/** Order-preserving filtering of sequences, as `Array.prototype.filter` does it. */
module Seqs {

  /** The elements of `s` that `keep` accepts, in their original order. */
  function Filter<T(==)>(s: seq<T>, keep: T -> bool): (r: seq<T>)
    ensures |r| <= |s|
    ensures forall j :: 0 <= j < |r| ==> r[j] in s && keep(r[j])
    ensures forall j :: 0 <= j < |s| && keep(s[j]) ==> s[j] in r
    ensures forall j :: 0 <= j < |s| ==> multiset(r)[s[j]] == if keep(s[j]) then multiset(s)[s[j]] else 0
  {
    if s == [] then []
    else
      var rest := Filter(s[1..], keep);
      FilterStep(s, keep, rest);
      (if keep(s[0]) then [s[0]] else []) + rest
  }

  /**
   * One step of the filter: if `rest` is what filtering the tail must give,
   * putting the head in front of it when kept is what filtering `s` must give.
   */
  lemma FilterStep<T>(s: seq<T>, keep: T -> bool, rest: seq<T>)
    requires s != []
    requires |rest| <= |s[1..]|
    requires forall j :: 0 <= j < |rest| ==> rest[j] in s[1..] && keep(rest[j])
    requires forall j :: 0 <= j < |s[1..]| && keep(s[1..][j]) ==> s[1..][j] in rest
    requires forall j :: 0 <= j < |s[1..]| ==>
      multiset(rest)[s[1..][j]] == if keep(s[1..][j]) then multiset(s[1..])[s[1..][j]] else 0
    ensures var r := (if keep(s[0]) then [s[0]] else []) + rest;
      && |r| <= |s|
      && (forall j :: 0 <= j < |r| ==> r[j] in s && keep(r[j]))
      && (forall j :: 0 <= j < |s| && keep(s[j]) ==> s[j] in r)
      && (forall j :: 0 <= j < |s| ==> multiset(r)[s[j]] == if keep(s[j]) then multiset(s)[s[j]] else 0)
  {
    var t := s[1..];
    var x := s[0];
    var head := if keep(x) then [x] else [];
    var r := head + rest;
    assert s == [x] + t;
    assert multiset(s) == multiset([x]) + multiset(t);
    assert multiset(r) == multiset(head) + multiset(rest);
    if x !in t {
      assert x !in rest;
      assert multiset(rest)[x] == 0;
    } else {
      var k :| 0 <= k < |t| && t[k] == x;
      assert multiset(rest)[t[k]] == if keep(t[k]) then multiset(t)[t[k]] else 0;
    }
    forall j | 0 <= j < |s|
      ensures multiset(r)[s[j]] == if keep(s[j]) then multiset(s)[s[j]] else 0
      ensures keep(s[j]) ==> s[j] in r
    {
      if j > 0 {
        assert s[j] == t[j - 1];
      }
    }
    forall j | 0 <= j < |r|
      ensures r[j] in s && keep(r[j])
    {
      if j >= |head| {
        assert r[j] == rest[j - |head|];
      }
    }
  }

  /** `a` can be obtained from `b` by deleting elements. */
  predicate IsSubsequence<T(==)>(a: seq<T>, b: seq<T>)
    decreases |b|
  {
    |a| == 0 ||
    (|b| > 0 && ((a[0] == b[0] && IsSubsequence(a[1..], b[1..])) || IsSubsequence(a, b[1..])))
  }

  /** Filtering only deletes: the result is a subsequence of the input. */
  lemma {:induction false} FilterIsSubsequence<T>(s: seq<T>, keep: T -> bool)
    ensures IsSubsequence(Filter(s, keep), s)
  {
    if s != [] {
      FilterIsSubsequence(s[1..], keep);
      var rest := Filter(s[1..], keep);
      if keep(s[0]) {
        assert Filter(s, keep) == [s[0]] + rest;
        assert ([s[0]] + rest)[1..] == rest;
      } else {
        assert Filter(s, keep) == rest;
      }
    }
  }

  /** Filtering with a test every element passes gives back the input unchanged. */
  lemma {:induction false} FilterKeepsAll<T>(s: seq<T>, keep: T -> bool)
    requires forall j :: 0 <= j < |s| ==> keep(s[j])
    ensures Filter(s, keep) == s
  {
    if s != [] {
      FilterKeepsAll(s[1..], keep);
      assert [s[0]] + s[1..] == s;
    }
  }
}
