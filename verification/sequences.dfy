/** Generic list combinators with the semantics of JavaScript's array methods, and their laws. */
module Sequences {

  /** The elements of `s` satisfying `p`, in their original order (`Array.prototype.filter`). */
  function Filter<T>(s: seq<T>, p: T -> bool): (r: seq<T>)
    ensures |r| <= |s|
    ensures forall i :: 0 <= i < |r| ==> p(r[i])
  {
    if |s| == 0 then []
    else
      var init := s[..|s| - 1];
      if p(s[|s| - 1]) then Filter(init, p) + [s[|s| - 1]] else Filter(init, p)
  }

  /** The indices of `s` whose element satisfies `p`: an independent description of a filter count. */
  function Positions<T>(s: seq<T>, p: T -> bool): set<nat> {
    set i: nat | i < |s| && p(s[i])
  }

  /** The length of a filter is the number of positions whose element passes the test. */
  lemma {:induction false} FilterCountsPositions<T>(s: seq<T>, p: T -> bool)
    ensures |Filter(s, p)| == |Positions(s, p)|
  {
    if |s| == 0 {
      assert Positions(s, p) == {};
    } else {
      var n := |s| - 1;
      var init := s[..n];
      FilterCountsPositions(init, p);
      var before := Positions(init, p);
      var last: set<nat> := if p(s[n]) then {n} else {};
      forall i: nat ensures i in Positions(s, p) <==> i in before + last {
        if i < n { assert s[i] == init[i]; }
      }
      assert Positions(s, p) == before + last;
      assert before !! last;
    }
  }

  /** Filtering distributes over concatenation. */
  lemma {:induction false} FilterAppend<T>(a: seq<T>, b: seq<T>, p: T -> bool)
    ensures Filter(a + b, p) == Filter(a, p) + Filter(b, p)
  {
    if |b| == 0 {
      assert a + b == a;
    } else {
      var n := |b| - 1;
      FilterAppend(a, b[..n], p);
      var ab := a + b;
      assert ab[..|ab| - 1] == a + b[..n];
      assert ab[|ab| - 1] == b[n];
      assert Filter(ab, p) == Filter(a + b[..n], p) + (if p(b[n]) then [b[n]] else []);
      assert Filter(b, p) == Filter(b[..n], p) + (if p(b[n]) then [b[n]] else []);
    }
  }

  /** A filter keeps every element exactly when every element passes the test. */
  lemma {:induction false} FilterKeepsAll<T>(s: seq<T>, p: T -> bool)
    ensures |Filter(s, p)| == |s| <==> forall i :: 0 <= i < |s| ==> p(s[i])
  {
    if |s| > 0 {
      var n := |s| - 1;
      FilterKeepsAll(s[..n], p);
      if !p(s[n]) {
        assert |Filter(s, p)| == |Filter(s[..n], p)| <= n;
      } else if forall i :: 0 <= i < n ==> p(s[..n][i]) {
        assert forall i :: 0 <= i < |s| ==> p(s[i]) by {
          forall i | 0 <= i < |s| ensures p(s[i]) {
            if i < n { assert s[i] == s[..n][i]; }
          }
        }
      } else {
        var j :| 0 <= j < n && !p(s[..n][j]);
        assert !p(s[j]);
      }
    }
  }

  /** A filter keeps nothing exactly when no element passes the test. */
  lemma {:induction false} FilterKeepsNone<T>(s: seq<T>, p: T -> bool)
    ensures |Filter(s, p)| == 0 <==> forall i :: 0 <= i < |s| ==> !p(s[i])
  {
    if |s| > 0 {
      var n := |s| - 1;
      FilterKeepsNone(s[..n], p);
      if !p(s[n]) && forall i :: 0 <= i < n ==> !p(s[..n][i]) {
        assert forall i :: 0 <= i < |s| ==> !p(s[i]) by {
          forall i | 0 <= i < |s| ensures !p(s[i]) {
            if i < n { assert s[i] == s[..n][i]; }
          }
        }
      } else if !p(s[n]) {
        var j :| 0 <= j < n && p(s[..n][j]);
        assert p(s[j]);
      }
    }
  }

  /** Two index-aligned sequences whose tests agree position by position keep equally many elements. */
  lemma {:induction false} FilterCongruent<S, T>(s: seq<S>, p: S -> bool, t: seq<T>, q: T -> bool)
    requires |s| == |t|
    requires forall i :: 0 <= i < |s| ==> p(s[i]) == q(t[i])
    ensures |Filter(s, p)| == |Filter(t, q)|
  {
    if |s| > 0 {
      var n := |s| - 1;
      FilterCongruent(s[..n], p, t[..n], q);
    }
  }

  /** `Array.prototype.map`: one result per element, in order. */
  function Map<A, B>(xs: seq<A>, f: A -> B): (r: seq<B>)
    ensures |r| == |xs|
    ensures forall i :: 0 <= i < |xs| ==> r[i] == f(xs[i])
  {
    if |xs| == 0 then [] else [f(xs[0])] + Map(xs[1..], f)
  }

  /** Mapping distributes over concatenation. */
  lemma MapAppend<A, B>(a: seq<A>, b: seq<A>, f: A -> B)
    ensures Map(a + b, f) == Map(a, f) + Map(b, f)
  {
    assert forall i :: 0 <= i < |a| + |b| ==> (a + b)[i] == if i < |a| then a[i] else b[i - |a|];
  }

  /** The total number of results `f` produces over `xs`. */
  function TotalLength<A, B>(xs: seq<A>, f: A -> seq<B>): nat {
    if |xs| == 0 then 0 else |f(xs[0])| + TotalLength(xs[1..], f)
  }

  /** `Array.prototype.flatMap`: the results of `f`, element by element, concatenated in order. */
  function FlatMap<A, B>(xs: seq<A>, f: A -> seq<B>): (r: seq<B>)
    ensures |r| == TotalLength(xs, f)
  {
    if |xs| == 0 then [] else f(xs[0]) + FlatMap(xs[1..], f)
  }

  /** Flattening distributes over concatenation: the parts stay in declaration order. */
  lemma {:induction false} FlatMapAppend<A, B>(a: seq<A>, b: seq<A>, f: A -> seq<B>)
    ensures FlatMap(a + b, f) == FlatMap(a, f) + FlatMap(b, f)
  {
    if |a| == 0 {
      assert a + b == b;
    } else {
      assert (a + b)[1..] == a[1..] + b;
      FlatMapAppend(a[1..], b, f);
    }
  }

  /** Result `j` of element `k` sits right after the results of the elements before `k`. */
  lemma {:induction false} FlatMapAt<A, B>(xs: seq<A>, f: A -> seq<B>, k: nat, j: nat)
    requires k < |xs| && j < |f(xs[k])|
    ensures TotalLength(xs[..k], f) + j < |FlatMap(xs, f)|
    ensures FlatMap(xs, f)[TotalLength(xs[..k], f) + j] == f(xs[k])[j]
  {
    if k == 0 {
      assert xs[..k] == [];
    } else {
      assert xs[..k][1..] == xs[1..][..k - 1];
      FlatMapAt(xs[1..], f, k - 1, j);
    }
  }
}
