/** Small sequence utilities shared by the whole model: an optional value,
    first-match search, filtering and removal of the first equal element
    (the way a Qt list drops one pointer). */
module Common {

  datatype Option<T> = None | Some(value: T)

  /** Index of the first element satisfying `p`, if any. */
  function FindFirst<T>(s: seq<T>, p: T -> bool): (r: Option<nat>)
    ensures r.Some? ==> r.value < |s| && p(s[r.value])
    ensures r.Some? ==> forall j :: 0 <= j < r.value ==> !p(s[j])
    ensures r.None? ==> forall j :: 0 <= j < |s| ==> !p(s[j])
  {
    if s == [] then None
    else if p(s[0]) then Some(0)
    else match FindFirst(s[1..], p)
      case None => None
      case Some(k) => Some(k + 1)
  }

  /** The elements satisfying `p`, in their original order. */
  function Filter<T>(s: seq<T>, p: T -> bool): (r: seq<T>)
    ensures |r| <= |s|
    ensures forall i :: 0 <= i < |r| ==> r[i] in s && p(r[i])
    ensures forall i :: 0 <= i < |s| && p(s[i]) ==> s[i] in r
  {
    if s == [] then []
    else if p(s[0]) then [s[0]] + Filter(s[1..], p)
    else Filter(s[1..], p)
  }

  /** `s` without its first occurrence of `x` (unchanged when `x` is absent). */
  function RemoveFirst<T(==)>(s: seq<T>, x: T): (r: seq<T>)
    ensures x !in s ==> r == s
    ensures x in s ==> |r| == |s| - 1
    ensures multiset(r) == multiset(s) - multiset{x}
  {
    if s == [] then []
    else
      assert s == [s[0]] + s[1..];
      if s[0] == x then s[1..]
      else [s[0]] + RemoveFirst(s[1..], x)
  }

  /** No element occurs twice. */
  predicate Distinct<T(==)>(s: seq<T>) {
    forall i, j :: 0 <= i < j < |s| ==> s[i] != s[j]
  }

  lemma {:induction false} FilterAppend<T>(s: seq<T>, x: T, p: T -> bool)
    ensures Filter(s + [x], p) == Filter(s, p) + (if p(x) then [x] else [])
  {
    if s == [] {
      assert s + [x] == [x];
    } else {
      assert (s + [x])[1..] == s[1..] + [x];
      FilterAppend(s[1..], x, p);
    }
  }

  /** Removing an element that occurs once from a filtered view is the same
      as filtering it out as well. */
  lemma {:induction false} RemoveFirstOfFilter<T>(s: seq<T>, x: T, p: T -> bool, q: T -> bool)
    requires Distinct(s)
    requires forall y :: q(y) <==> p(y) && y != x
    ensures RemoveFirst(Filter(s, p), x) == Filter(s, q)
  {
    if s != [] {
      assert Distinct(s[1..]) by {
        forall i, j | 0 <= i < j < |s[1..]| ensures s[1..][i] != s[1..][j] {
          assert s[1..][i] == s[i + 1] && s[1..][j] == s[j + 1];
        }
      }
      RemoveFirstOfFilter(s[1..], x, p, q);
      if s[0] == x {
        assert x !in s[1..] by {
          forall j | 0 <= j < |s[1..]| ensures s[1..][j] != x {
            assert s[1..][j] == s[j + 1];
          }
        }
        assert x !in Filter(s[1..], p);
        if p(s[0]) {
          assert Filter(s, p) == [x] + Filter(s[1..], p);
        }
      }
    }
  }

  /** Membership in a filtered sequence. */
  lemma {:induction false} FilterIn<T>(s: seq<T>, p: T -> bool, x: T)
    ensures x in Filter(s, p) <==> x in s && p(x)
  {
    if s != [] {
      FilterIn(s[1..], p, x);
      assert s == [s[0]] + s[1..];
    }
  }

  /** Filtering keeps every copy of a kept element and none of the others. */
  lemma {:induction false} FilterMultiset<T>(s: seq<T>, p: T -> bool, x: T)
    ensures multiset(Filter(s, p))[x] == if p(x) then multiset(s)[x] else 0
  {
    if s != [] {
      var t := s[1..];
      FilterMultiset(t, p, x);
      assert s == [s[0]] + t;
      assert multiset(s) == multiset{s[0]} + multiset(t);
      if p(s[0]) {
        assert multiset(Filter(s, p)) == multiset{s[0]} + multiset(Filter(t, p));
      } else {
        assert Filter(s, p) == Filter(t, p);
      }
    }
  }

  /** `s` after removing the first equal element once for each element of
      `xs`, in order (the loops that take items out of a Qt list). */
  function RemoveEach<T(==)>(s: seq<T>, xs: seq<T>): seq<T>
    decreases |xs|
  {
    if xs == [] then s else RemoveEach(RemoveFirst(s, xs[0]), xs[1..])
  }

  lemma MultisetMinusTwice<T>(a: multiset<T>, x: T, b: multiset<T>)
    ensures (a - multiset{x}) - b == a - (multiset{x} + b)
  {
    forall y ensures ((a - multiset{x}) - b)[y] == (a - (multiset{x} + b))[y] { }
  }

  lemma {:induction false} RemoveEachMultiset<T>(s: seq<T>, xs: seq<T>)
    ensures multiset(RemoveEach(s, xs)) == multiset(s) - multiset(xs)
    decreases |xs|
  {
    if xs == [] {
      assert multiset(xs) == multiset{};
    } else {
      var x, rest := xs[0], xs[1..];
      var r := RemoveFirst(s, x);
      assert RemoveEach(s, xs) == RemoveEach(r, rest);
      RemoveEachMultiset(r, rest);
      assert xs == [x] + rest;
      SplitHead(xs);
      MultisetMinusTwice(multiset(s), x, multiset(rest));
    }
  }

  lemma SplitHead<T>(xs: seq<T>)
    requires xs != []
    ensures multiset(xs) == multiset{xs[0]} + multiset(xs[1..])
  {
    assert xs == [xs[0]] + xs[1..];
  }

  /** Removing every element a filter selects leaves none of them and every
      copy of the others. */
  lemma RemoveFiltered<T>(s: seq<T>, p: T -> bool)
    ensures forall x :: x in RemoveEach(s, Filter(s, p)) <==> x in s && !p(x)
  {
    RemoveEachMultiset(s, Filter(s, p));
    forall x ensures x in RemoveEach(s, Filter(s, p)) <==> x in s && !p(x) {
      FilterMultiset(s, p, x);
      assert x in RemoveEach(s, Filter(s, p)) <==> x in multiset(RemoveEach(s, Filter(s, p)));
      assert x in s <==> x in multiset(s);
    }
  }

  /** No two positions of `s` are related by `r`. */
  predicate PairwiseApart<T>(s: seq<T>, r: (T, T) -> bool) {
    forall i, j :: 0 <= i < j < |s| ==> !r(s[i], s[j])
  }

  lemma {:induction false} RemoveFirstApart<T>(s: seq<T>, x: T, r: (T, T) -> bool)
    requires PairwiseApart(s, r)
    ensures PairwiseApart(RemoveFirst(s, x), r)
  {
    if s != [] {
      var tail := s[1..];
      TailApart(s, r);
      if s[0] != x {
        RemoveFirstApart(tail, x, r);
        var rest := RemoveFirst(tail, x);
        forall k | 0 <= k < |rest| ensures !r(s[0], rest[k]) {
          RemoveFirstIn(tail, x, rest[k]);
          var m :| 0 <= m < |tail| && tail[m] == rest[k];
          assert s[m + 1] == rest[k];
        }
        ConsApart(s[0], rest, r);
      }
    }
  }

  /** The tail of a list whose elements are apart is apart too. */
  lemma TailApart<T>(s: seq<T>, r: (T, T) -> bool)
    requires s != [] && PairwiseApart(s, r)
    ensures PairwiseApart(s[1..], r)
  {
    var tail := s[1..];
    forall i, j | 0 <= i < j < |tail| ensures !r(tail[i], tail[j]) {
      assert tail[i] == s[i + 1] && tail[j] == s[j + 1];
    }
  }

  /** An element apart from every element of an apart list extends it. */
  lemma ConsApart<T>(h: T, rest: seq<T>, r: (T, T) -> bool)
    requires PairwiseApart(rest, r)
    requires forall k :: 0 <= k < |rest| ==> !r(h, rest[k])
    ensures PairwiseApart([h] + rest, r)
  {
    var res := [h] + rest;
    forall i, j | 0 <= i < j < |res| ensures !r(res[i], res[j]) {
      assert res[j] == rest[j - 1];
      if i > 0 {
        assert res[i] == rest[i - 1];
      }
    }
  }

  /** What is left after a removal was there before. */
  lemma RemoveFirstIn<T>(s: seq<T>, x: T, y: T)
    requires y in RemoveFirst(s, x)
    ensures y in s
  {
    assert y in multiset(RemoveFirst(s, x));
    assert y in multiset(s);
  }

  lemma {:induction false} RemoveEachApart<T>(s: seq<T>, xs: seq<T>, r: (T, T) -> bool)
    requires PairwiseApart(s, r)
    ensures PairwiseApart(RemoveEach(s, xs), r)
    decreases |xs|
  {
    if xs != [] {
      RemoveFirstApart(s, xs[0], r);
      RemoveEachApart(RemoveFirst(s, xs[0]), xs[1..], r);
    }
  }

  /** A list in which no element hides a later one, under a reflexive
      relation, holds no element twice. */
  lemma ApartDistinct<T>(s: seq<T>, r: (T, T) -> bool)
    requires PairwiseApart(s, r)
    requires forall a :: r(a, a)
    ensures Distinct(s)
  {
    forall i, j | 0 <= i < j < |s| ensures s[i] != s[j] {
      assert !r(s[i], s[j]);
    }
  }

  lemma {:induction false} RemoveFirstDistinct<T>(s: seq<T>, x: T)
    requires Distinct(s)
    ensures x !in RemoveFirst(s, x)
  {
    if s != [] {
      assert Distinct(s[1..]) by {
        forall i, j | 0 <= i < j < |s[1..]| ensures s[1..][i] != s[1..][j] {
          assert s[1..][i] == s[i + 1] && s[1..][j] == s[j + 1];
        }
      }
      if s[0] == x {
        forall k | 0 <= k < |s[1..]| ensures s[1..][k] != x {
          assert s[1..][k] == s[k + 1];
        }
      } else {
        RemoveFirstDistinct(s[1..], x);
      }
    }
  }

  /** Removing the entry found for a key from a list whose keys are
      unique leaves no entry with that key and every entry with another
      key. `hides(y, x)` says that `y` has the key of `x`. */
  lemma RemoveMatch<T>(s: seq<T>, j: nat, x: T, hides: (T, T) -> bool)
    requires PairwiseApart(s, hides)
    requires forall a :: hides(a, a)
    requires forall a, b :: hides(a, x) && hides(b, x) ==> hides(a, b)
    requires j < |s| && hides(s[j], x)
    ensures forall y :: y in RemoveFirst(s, s[j]) ==> !hides(y, x)
    ensures forall y :: y in s && !hides(y, x) ==> y in RemoveFirst(s, s[j])
  {
    RemoveMatchGone(s, j, x, hides);
    var r := RemoveFirst(s, s[j]);
    forall y | y in s && !hides(y, x) ensures y in r {
      assert y != s[j];
      assert y in multiset(s);
      assert multiset(r)[y] == multiset(s)[y];
    }
  }

  lemma RemoveMatchGone<T>(s: seq<T>, j: nat, x: T, hides: (T, T) -> bool)
    requires PairwiseApart(s, hides)
    requires forall a :: hides(a, a)
    requires forall a, b :: hides(a, x) && hides(b, x) ==> hides(a, b)
    requires j < |s| && hides(s[j], x)
    ensures forall y :: y in RemoveFirst(s, s[j]) ==> !hides(y, x)
  {
    ApartDistinct(s, hides);
    RemoveFirstDistinct(s, s[j]);
    var r := RemoveFirst(s, s[j]);
    forall y | y in r ensures !hides(y, x) {
      assert y in multiset(r);
      assert y in s;
      var i :| 0 <= i < |s| && s[i] == y;
      OtherKey(s, i, j, x, hides);
    }
  }

  /** In a list with unique keys, no entry but the `j`-th has the key
      of `x` when that one does. */
  lemma OtherKey<T>(s: seq<T>, i: nat, j: nat, x: T, hides: (T, T) -> bool)
    requires PairwiseApart(s, hides)
    requires forall a, b :: hides(a, x) && hides(b, x) ==> hides(a, b)
    requires i < |s| && j < |s| && i != j && hides(s[j], x)
    ensures !hides(s[i], x)
  {
    if i < j {
      assert !hides(s[i], s[j]);
    } else {
      assert !hides(s[j], s[i]);
    }
  }

  /** `f` applied to every element, in order. */
  function Map<T, U>(s: seq<T>, f: T -> U): (r: seq<U>)
    ensures |r| == |s| && forall i :: 0 <= i < |s| ==> r[i] == f(s[i])
  {
    seq(|s|, i requires 0 <= i < |s| => f(s[i]))
  }

  /** Mapping two permutations of each other gives permutations of each
      other. */
  lemma {:induction false} MapPermutation<T, U>(s: seq<T>, t: seq<T>, f: T -> U)
    requires multiset(s) == multiset(t)
    ensures multiset(Map(s, f)) == multiset(Map(t, f))
    decreases |s|
  {
    if s == [] {
      assert |multiset(t)| == 0;
    } else {
      var x := s[0];
      assert x in multiset(t);
      var k :| 0 <= k < |t| && t[k] == x;
      var rest := t[..k] + t[k + 1..];
      DropAt(t, k);
      SplitHead(s);
      Cancel(multiset(s[1..]), multiset(rest), x);
      MapPermutation(s[1..], rest, f);
      var mt := Map(t, f);
      DropAt(mt, k);
      assert Map(rest, f) == mt[..k] + mt[k + 1..];
      SplitHead(Map(s, f));
      assert Map(s, f)[1..] == Map(s[1..], f);
    }
  }

  lemma DropAt<T>(t: seq<T>, k: nat)
    requires k < |t|
    ensures multiset(t) == multiset(t[..k] + t[k + 1..]) + multiset{t[k]}
  {
    assert t == t[..k] + [t[k]] + t[k + 1..];
  }

  lemma Cancel<T>(a: multiset<T>, b: multiset<T>, x: T)
    requires multiset{x} + a == b + multiset{x}
    ensures a == b
  {
    forall y ensures a[y] == b[y] {
      assert (multiset{x} + a)[y] == (b + multiset{x})[y];
    }
  }
}
