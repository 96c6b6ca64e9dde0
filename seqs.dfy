/** Sequence filtering, as `Array.prototype.filter` does it: keep the
    elements that satisfy a predicate, in their original order. */
module Seqs {
  import opened Types

  /** `Array.prototype.find`: the first element satisfying `f`, if any. */
  function Find<T>(s: seq<T>, f: T -> bool): (r: Option<T>)
    ensures r.None? <==> forall i :: 0 <= i < |s| ==> !f(s[i])
    ensures r.Some? ==> r.value in s && f(r.value)
  {
    if |s| == 0 then None
    else if f(s[0]) then Some(s[0])
    else Find(s[1..], f)
  }

  /** The element found is the one at the first index satisfying `f`. */
  lemma {:induction false} FindFirst<T>(s: seq<T>, f: T -> bool, k: nat)
    requires k < |s| && f(s[k])
    requires forall j :: 0 <= j < k ==> !f(s[j])
    ensures Find(s, f) == Some(s[k])
  {
    if k > 0 {
      FindFirst(s[1..], f, k - 1);
    }
  }

  /** `k` is the first index of `s` whose element satisfies `f`. */
  predicate FirstIndex<T>(s: seq<T>, f: T -> bool, k: nat) {
    k < |s| && f(s[k]) && forall j :: 0 <= j < k ==> !f(s[j])
  }

  /** Whatever the first satisfying index is, `Find` returns its element. */
  lemma FindAtFirstIndex<T>(s: seq<T>, f: T -> bool)
    ensures forall k: nat :: FirstIndex(s, f, k) ==> Find(s, f) == Some(s[k])
  {
    forall k: nat | FirstIndex(s, f, k) {
      FindFirst(s, f, k);
    }
  }

  function Filter<T>(s: seq<T>, f: T -> bool): (r: seq<T>)
    ensures |r| <= |s|
  {
    if |s| == 0 then []
    else if f(s[|s| - 1]) then Filter(s[..|s| - 1], f) + [s[|s| - 1]]
    else Filter(s[..|s| - 1], f)
  }

  /** An element is kept iff it occurs in the input and satisfies `f`. */
  lemma {:induction false} FilterMembership<T>(s: seq<T>, f: T -> bool)
    ensures forall x :: x in Filter(s, f) <==> x in s && f(x)
  {
    if |s| > 0 {
      var init := s[..|s| - 1];
      FilterMembership(init, f);
      assert s == init + [s[|s| - 1]];
    }
  }

  /** Each element satisfying `f` is kept as often as it occurs in the
      input; every other element is dropped. */
  lemma {:induction false} FilterMultiplicity<T>(s: seq<T>, f: T -> bool)
    ensures forall x :: multiset(Filter(s, f))[x] == if f(x) then multiset(s)[x] else 0
  {
    if |s| > 0 {
      var init := s[..|s| - 1];
      FilterMultiplicity(init, f);
      assert s == init + [s[|s| - 1]];
      assert multiset(s) == multiset(init) + multiset{s[|s| - 1]};
    }
  }

  /** Every kept element satisfies `f`. */
  lemma FilterAll<T>(s: seq<T>, f: T -> bool)
    ensures forall i :: 0 <= i < |Filter(s, f)| ==> f(Filter(s, f)[i])
  {
    FilterMembership(s, f);
    forall i | 0 <= i < |Filter(s, f)| ensures f(Filter(s, f)[i]) {
      assert Filter(s, f)[i] in Filter(s, f);
    }
  }

  /** Filtering distributes over concatenation: together with the
      singleton case this fixes the order in which kept elements appear. */
  lemma {:induction false} FilterAppend<T>(a: seq<T>, b: seq<T>, f: T -> bool)
    ensures Filter(a + b, f) == Filter(a, f) + Filter(b, f)
    decreases |b|
  {
    if |b| == 0 {
      assert a + b == a;
    } else {
      var b0 := b[..|b| - 1];
      var x := b[|b| - 1];
      assert a + b == (a + b0) + [x];
      assert (a + b)[..|a + b| - 1] == a + b0;
      assert b[..|b| - 1] == b0;
      FilterAppend(a, b0, f);
    }
  }

  /** When every element satisfies `f`, filtering changes nothing. */
  lemma {:induction false} FilterKeepsAll<T>(s: seq<T>, f: T -> bool)
    requires forall i :: 0 <= i < |s| ==> f(s[i])
    ensures Filter(s, f) == s
  {
    if |s| > 0 {
      FilterKeepsAll(s[..|s| - 1], f);
      assert s == s[..|s| - 1] + [s[|s| - 1]];
    }
  }

  /** When no element satisfies `f`, the result is empty. */
  lemma {:induction false} FilterDropsAll<T>(s: seq<T>, f: T -> bool)
    requires forall i :: 0 <= i < |s| ==> !f(s[i])
    ensures Filter(s, f) == []
  {
    if |s| > 0 {
      FilterDropsAll(s[..|s| - 1], f);
    }
  }

  /** Filtering twice with the same predicate is filtering once. */
  lemma FilterIdempotent<T>(s: seq<T>, f: T -> bool)
    ensures Filter(Filter(s, f), f) == Filter(s, f)
  {
    FilterAll(s, f);
    FilterKeepsAll(Filter(s, f), f);
  }

  /** `t` is a subsequence of `s`: its elements appear in `s` in the
      same order, at strictly increasing positions. */
  ghost predicate IsSubsequence<T>(t: seq<T>, s: seq<T>)
    decreases |s|
  {
    if |t| == 0 then true
    else if |s| == 0 then false
    else if t[|t| - 1] == s[|s| - 1] then IsSubsequence(t[..|t| - 1], s[..|s| - 1])
    else IsSubsequence(t, s[..|s| - 1])
  }

  /** The filtered sequence is a subsequence of its input. */
  lemma {:induction false} FilterIsSubsequence<T>(s: seq<T>, f: T -> bool)
    ensures IsSubsequence(Filter(s, f), s)
  {
    if |s| > 0 {
      var init := s[..|s| - 1];
      FilterIsSubsequence(init, f);
      if f(s[|s| - 1]) {
        var r := Filter(init, f) + [s[|s| - 1]];
        assert r[..|r| - 1] == Filter(init, f);
      } else {
        SubsequenceOfPrefix(Filter(init, f), init, s[|s| - 1]);
      }
    }
  }

  lemma {:induction false} SubsequenceOfPrefix<T>(t: seq<T>, s: seq<T>, x: T)
    requires IsSubsequence(t, s)
    ensures IsSubsequence(t, s + [x])
    decreases |s|, 1
  {
    var s' := s + [x];
    assert s'[..|s'| - 1] == s;
    if |t| > 0 && t[|t| - 1] == x {
      // t's last element matches x: the rest of t must lie in s
      SubsequenceDropLast(t, s);
    }
  }

  lemma {:induction false} SubsequenceDropLast<T>(t: seq<T>, s: seq<T>)
    requires |t| > 0 && IsSubsequence(t, s)
    ensures IsSubsequence(t[..|t| - 1], s)
    decreases |s|, 0
  {
    if |s| > 0 {
      var s0 := s[..|s| - 1];
      if t[|t| - 1] == s[|s| - 1] {
        SubsequenceOfPrefix(t[..|t| - 1], s0, s[|s| - 1]);
        assert s0 + [s[|s| - 1]] == s;
      } else {
        SubsequenceDropLast(t, s0);
        SubsequenceOfPrefix(t[..|t| - 1], s0, s[|s| - 1]);
        assert s0 + [s[|s| - 1]] == s;
      }
    }
  }
}
