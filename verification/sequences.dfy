/** Counting and searching over sequences: `filter(...).length` and `find`. */
module Sequences {
  import opened Prelude

  /** `s.filter(p).length`. */
  function CountIf<T>(s: seq<T>, p: T -> bool): (n: nat)
    ensures n <= |s|
  {
    if |s| == 0 then 0 else CountIf(s[..|s| - 1], p) + (if p(s[|s| - 1]) then 1 else 0)
  }

  lemma {:induction false} CountIfAppend<T>(a: seq<T>, b: seq<T>, p: T -> bool)
    ensures CountIf(a + b, p) == CountIf(a, p) + CountIf(b, p)
    decreases |b|
  {
    if |b| == 0 {
      assert a + b == a;
    } else {
      assert (a + b)[..|a + b| - 1] == a + b[..|b| - 1];
      CountIfAppend(a, b[..|b| - 1], p);
    }
  }

  /** A count depends only on which elements occur how often, not on their order. */
  lemma {:induction false} CountIfPermutation<T>(a: seq<T>, b: seq<T>, p: T -> bool)
    requires multiset(a) == multiset(b)
    ensures CountIf(a, p) == CountIf(b, p)
    decreases |a|
  {
    if |a| == 0 {
      assert |b| == |multiset(b)| == 0;
    } else {
      var a' := a[..|a| - 1];
      var x := a[|a| - 1];
      assert a == a' + [x];
      assert multiset(a) == multiset(a') + multiset{x};
      assert x in multiset(b);
      var j :| 0 <= j < |b| && b[j] == x;
      var b' := b[..j] + b[j + 1..];
      RemoveOne(b, j);
      assert multiset(a') == multiset(b');
      CountIfPermutation(a', b', p);
      CountIfAppend(a', [x], p);
      CountIfRemove(b, j, p);
      CountIfSingle(x, p);
    }
  }

  /** Removing the element at j removes one copy of it. */
  lemma RemoveOne<T>(b: seq<T>, j: nat)
    requires j < |b|
    ensures multiset(b[..j] + b[j + 1..]) == multiset(b) - multiset{b[j]}
  {
    assert b == b[..j] + [b[j]] + b[j + 1..];
    assert multiset(b) == multiset(b[..j]) + multiset{b[j]} + multiset(b[j + 1..]);
  }

  /** Removing the element at j lowers the count by one exactly when that element is counted. */
  lemma CountIfRemove<T>(b: seq<T>, j: nat, p: T -> bool)
    requires j < |b|
    ensures CountIf(b, p) == CountIf(b[..j] + b[j + 1..], p) + (if p(b[j]) then 1 else 0)
  {
    var l, x, r := b[..j], b[j], b[j + 1..];
    SplitAt(b, j);
    calc {
      CountIf(b, p);
      CountIf(l + [x] + r, p);
      { CountIfAppend(l + [x], r, p); }
      CountIf(l + [x], p) + CountIf(r, p);
      { CountIfAppend(l, [x], p); CountIfSingle(x, p); }
      CountIf(l, p) + (if p(x) then 1 else 0) + CountIf(r, p);
      { CountIfAppend(l, r, p); }
      CountIf(l + r, p) + (if p(x) then 1 else 0);
    }
  }

  lemma SplitAt<T>(b: seq<T>, j: nat)
    requires j < |b|
    ensures b == b[..j] + [b[j]] + b[j + 1..]
  {
  }

  lemma CountIfSingle<T>(x: T, p: T -> bool)
    ensures CountIf([x], p) == if p(x) then 1 else 0
  {
    assert [x][..0] == [];
  }

  /** Counting one more element adds one exactly when it satisfies p. */
  lemma CountIfSnoc<T>(s: seq<T>, x: T, p: T -> bool)
    ensures CountIf(s + [x], p) == CountIf(s, p) + (if p(x) then 1 else 0)
  {
    assert (s + [x])[..|s|] == s;
  }

  /** The positions of s whose element satisfies p. */
  function Positions<T>(s: seq<T>, p: T -> bool): set<nat> {
    set i: nat | i < |s| && p(s[i])
  }

  /** The count is the number of positions that satisfy p. */
  lemma {:induction false} CountIfPositions<T>(s: seq<T>, p: T -> bool)
    ensures CountIf(s, p) == |Positions(s, p)|
    decreases |s|
  {
    if |s| > 0 {
      var s', last := s[..|s| - 1], |s| - 1;
      CountIfPositions(s', p);
      assert forall i: nat :: i < last ==> s[i] == s'[i];
      if p(s[last]) {
        assert Positions(s, p) == Positions(s', p) + {last};
      } else {
        assert Positions(s, p) == Positions(s', p);
      }
    } else {
      assert Positions(s, p) == {};
    }
  }

  /** Two predicates that never hold together and both imply r count no more than r does. */
  lemma {:induction false} CountIfDisjointWithin<T>(s: seq<T>, p: T -> bool, q: T -> bool, r: T -> bool)
    requires forall x :: !(p(x) && q(x))
    requires forall x :: p(x) || q(x) ==> r(x)
    ensures CountIf(s, p) + CountIf(s, q) <= CountIf(s, r)
    decreases |s|
  {
    if |s| > 0 {
      CountIfDisjointWithin(s[..|s| - 1], p, q, r);
    }
  }

  /** Whatever satisfies r satisfies p or q, so r is counted no more often than p and q together. */
  lemma {:induction false} CountIfCovered<T>(s: seq<T>, p: T -> bool, q: T -> bool, r: T -> bool)
    requires forall x :: r(x) ==> p(x) || q(x)
    ensures CountIf(s, r) <= CountIf(s, p) + CountIf(s, q)
    decreases |s|
  {
    if |s| > 0 {
      CountIfCovered(s[..|s| - 1], p, q, r);
    }
  }

  /** Counts of three pairwise exclusive predicates add up to at most the length. */
  lemma {:induction false} CountIfDisjoint3<T>(s: seq<T>, p: T -> bool, q: T -> bool, r: T -> bool)
    requires forall x :: !(p(x) && q(x)) && !(p(x) && r(x)) && !(q(x) && r(x))
    ensures CountIf(s, p) + CountIf(s, q) + CountIf(s, r) <= |s|
    decreases |s|
  {
    if |s| > 0 {
      CountIfDisjoint3(s[..|s| - 1], p, q, r);
    }
  }

  /** A stronger predicate never counts more. */
  lemma {:induction false} CountIfMonotone<T>(s: seq<T>, p: T -> bool, q: T -> bool)
    requires forall x :: p(x) ==> q(x)
    ensures CountIf(s, p) <= CountIf(s, q)
    decreases |s|
  {
    if |s| > 0 {
      CountIfMonotone(s[..|s| - 1], p, q);
    }
  }

  /** One more element is found only when nothing before it was. */
  lemma {:induction false} FindSnoc<T>(s: seq<T>, x: T, p: T -> bool)
    ensures Find(s + [x], p) == if Find(s, p).Some? then Find(s, p) else if p(x) then Some(x) else None
    decreases |s|
  {
    if |s| == 0 {
      assert s + [x] == [x];
      assert [x][1..] == [];
    } else {
      assert (s + [x])[0] == s[0];
      assert (s + [x])[1..] == s[1..] + [x];
      FindSnoc(s[1..], x, p);
    }
  }

  /** `s.find(p)`: the first element satisfying p, if any. */
  function Find<T>(s: seq<T>, p: T -> bool): (r: Option<T>)
    ensures r.None? <==> forall i :: 0 <= i < |s| ==> !p(s[i])
    ensures r.Some? ==> exists i :: 0 <= i < |s| && s[i] == r.value && p(s[i]) && forall j :: 0 <= j < i ==> !p(s[j])
  {
    if |s| == 0 then None
    else if p(s[0]) then Some(s[0])
    else
      var r := Find(s[1..], p);
      assert forall i :: 1 <= i < |s| ==> s[i] == s[1..][i - 1];
      r
  }
}
