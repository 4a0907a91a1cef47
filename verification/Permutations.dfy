/** Sequences up to the order of their elements. */
module Permutations {

  ghost predicate Distinct<T>(s: seq<T>) {
    forall i, j :: 0 <= i < j < |s| ==> s[i] != s[j]
  }

  lemma {:induction false} DistinctCount<T>(s: seq<T>, x: T)
    requires Distinct(s)
    ensures multiset(s)[x] == if x in s then 1 else 0
  {
    if s != [] {
      var init, last := s[..|s| - 1], s[|s| - 1];
      assert s == init + [last];
      assert last !in init;
      DistinctCount(init, x);
    }
  }

  /** Sequences without repetition that have the same elements are permutations of each other. */
  lemma DistinctPermutation<T>(s: seq<T>, t: seq<T>)
    requires Distinct(s) && Distinct(t) && forall x :: x in s <==> x in t
    ensures multiset(s) == multiset(t)
  {
    forall x ensures multiset(s)[x] == multiset(t)[x] {
      DistinctCount(s, x);
      DistinctCount(t, x);
    }
  }

  lemma PermutationDistinct<T>(s: seq<T>, t: seq<T>)
    requires Distinct(s) && multiset(s) == multiset(t)
    ensures Distinct(t) && forall x :: x in s <==> x in t
  {
    forall i, j | 0 <= i < j < |t| ensures t[i] != t[j] {
      if t[i] == t[j] {
        DistinctCount(s, t[i]);
        TwiceCount(t, i, j);
      }
    }
    forall x ensures x in s <==> x in t {
      assert x in s <==> x in multiset(s);
      assert x in t <==> x in multiset(t);
    }
  }

  lemma TwiceCount<T>(t: seq<T>, i: nat, j: nat)
    requires i < j < |t| && t[i] == t[j]
    ensures multiset(t)[t[i]] >= 2
  {
    assert t == t[..j] + t[j..];
    assert t[..j][i] == t[i] && t[j..][0] == t[i];
    assert t[i] in multiset(t[..j]) && t[i] in multiset(t[j..]);
  }

  // ---------------------------------------------------------------- taking elements out

  function Without<T>(s: seq<T>, i: nat): seq<T>
    requires i < |s|
  {
    s[..i] + s[i + 1..]
  }

  lemma WithoutMultiset<T>(s: seq<T>, i: nat)
    requires i < |s|
    ensures multiset(s) == multiset(Without(s, i)) + multiset{s[i]}
  {
    assert s == s[..i] + [s[i]] + s[i + 1..];
  }

  /** Where the first element of one order stands in another, and what remains without it. */
  lemma MatchFirst<T>(s: seq<T>, t: seq<T>) returns (i: nat)
    requires s != [] && multiset(s) == multiset(t)
    ensures i < |t| && t[i] == s[0]
    ensures multiset(Without(s, 0)) == multiset(Without(t, i))
  {
    assert s[0] in multiset(t);
    i :| 0 <= i < |t| && t[i] == s[0];
    WithoutMultiset(s, 0);
    WithoutMultiset(t, i);
    assert multiset(Without(s, 0)) == multiset(s) - multiset{s[0]};
    assert multiset(Without(t, i)) == multiset(t) - multiset{s[0]};
  }

  // ---------------------------------------------------------------- filters and flat maps

  function Filter<T>(keep: T -> bool, s: seq<T>): seq<T> {
    if s == [] then [] else Filter(keep, s[..|s| - 1]) + if keep(s[|s| - 1]) then [s[|s| - 1]] else []
  }

  lemma {:induction false} FilterElements<T>(keep: T -> bool, s: seq<T>)
    ensures forall x :: x in Filter(keep, s) <==> x in s && keep(x)
    ensures Distinct(s) ==> Distinct(Filter(keep, s))
  {
    if s != [] {
      var init, last := s[..|s| - 1], s[|s| - 1];
      FilterElements(keep, init);
      assert s == init + [last];
      if Distinct(s) {
        assert Distinct(init);
        assert last !in init;
      }
    }
  }

  /** The results of `f` for each element, one after another. */
  function FlatMap<T, U>(f: T -> seq<U>, s: seq<T>): seq<U> {
    if s == [] then [] else FlatMap(f, s[..|s| - 1]) + f(s[|s| - 1])
  }

  lemma {:induction false} FlatMapAppend<T, U>(f: T -> seq<U>, a: seq<T>, b: seq<T>)
    ensures FlatMap(f, a + b) == FlatMap(f, a) + FlatMap(f, b)
  {
    if b == [] {
      assert a + b == a;
    } else {
      assert (a + b)[..|a + b| - 1] == a + b[..|b| - 1];
      FlatMapAppend(f, a, b[..|b| - 1]);
    }
  }

  lemma FlatMapSingle<T, U>(f: T -> seq<U>, x: T)
    ensures FlatMap(f, [x]) == f(x)
  {
    assert [x][..0] == [];
    assert FlatMap(f, []) == [];
    assert [] + f(x) == f(x);
  }

  lemma FlatMapMiddle<T, U>(f: T -> seq<U>, left: seq<T>, x: T, right: seq<T>)
    ensures FlatMap(f, left + [x] + right) == FlatMap(f, left) + f(x) + FlatMap(f, right)
  {
    FlatMapAppend(f, left + [x], right);
    FlatMapAppend(f, left, [x]);
    FlatMapSingle(f, x);
  }

  lemma FlatMapWithout<T, U>(f: T -> seq<U>, s: seq<T>, i: nat)
    requires i < |s|
    ensures multiset(FlatMap(f, s)) == multiset(FlatMap(f, Without(s, i))) + multiset(f(s[i]))
  {
    hide FlatMap;
    var left, right := s[..i], s[i + 1..];
    assert s == left + [s[i]] + right;
    FlatMapMiddle(f, left, s[i], right);
    FlatMapAppend(f, left, right);
  }

  /** Reordering the elements only reorders the results. */
  lemma {:induction false} FlatMapPermutes<T, U>(f: T -> seq<U>, s: seq<T>, t: seq<T>)
    requires multiset(s) == multiset(t)
    ensures multiset(FlatMap(f, s)) == multiset(FlatMap(f, t))
    decreases |s|
  {
    assert |s| == |multiset(s)| && |t| == |multiset(t)|;
    if s != [] {
      var i := MatchFirst(s, t);
      FlatMapWithout(f, s, 0);
      FlatMapWithout(f, t, i);
      FlatMapPermutes(f, Without(s, 0), Without(t, i));
    }
  }

  lemma {:induction false} FlatMapSame<T, U>(f: T -> seq<U>, g: T -> seq<U>, s: seq<T>)
    requires forall x :: x in s ==> f(x) == g(x)
    ensures FlatMap(f, s) == FlatMap(g, s)
  {
    if s != [] {
      FlatMapSame(f, g, s[..|s| - 1]);
    }
  }

  lemma FilterNext<T>(keep: T -> bool, s: seq<T>, x: T)
    ensures Filter(keep, s + [x]) == if keep(x) then Filter(keep, s) + [x] else Filter(keep, s)
  {
    assert (s + [x])[..|s|] == s;
    assert Filter(keep, s) + [] == Filter(keep, s);
  }

  /** Where the elements to be kept stand. */
  ghost function Places<T>(s: seq<T>, keep: T -> bool): (at: set<nat>)
    ensures forall i: nat :: i in at <==> i < |s| && keep(s[i])
  {
    set i: nat | i < |s| && keep(s[i])
  }

  lemma SamePlaces<T>(s: seq<T>, p: T -> bool, q: T -> bool)
    requires forall x :: p(x) == q(x)
    ensures Places(s, p) == Places(s, q)
  {
  }

  lemma {:induction false} FilterCount<T>(keep: T -> bool, s: seq<T>)
    ensures |Filter(keep, s)| == |Places(s, keep)|
  {
    if s == [] {
      assert Places(s, keep) == {};
    } else {
      var init, n := s[..|s| - 1], |s| - 1;
      FilterCount(keep, init);
      PlacesNext(s, keep);
      hide Places;
    }
  }

  lemma PlacesNext<T>(s: seq<T>, keep: T -> bool)
    requires s != []
    ensures |Places(s, keep)| == |Places(s[..|s| - 1], keep)| + if keep(s[|s| - 1]) then 1 else 0
  {
    var init, n := s[..|s| - 1], |s| - 1;
    var more: set<nat> := if keep(s[n]) then {n} else {};
    assert forall i :: 0 <= i < n ==> init[i] == s[i];
    assert Places(s, keep) == Places(init, keep) + more && Places(init, keep) !! more;
  }

  lemma {:induction false} FilterNone<T>(keep: T -> bool, s: seq<T>)
    requires forall x :: x in s ==> !keep(x)
    ensures Filter(keep, s) == []
  {
    if s != [] {
      FilterNone(keep, s[..|s| - 1]);
    }
  }

  lemma {:induction false} FilterAppend<T>(keep: T -> bool, s: seq<T>, t: seq<T>)
    ensures Filter(keep, s + t) == Filter(keep, s) + Filter(keep, t)
  {
    if t == [] {
      assert s + t == s;
    } else {
      assert (s + t)[..|s + t| - 1] == s + t[..|t| - 1];
      FilterAppend(keep, s, t[..|t| - 1]);
    }
  }

  lemma {:induction false} FilterWhole<T>(keep: T -> bool, s: seq<T>)
    requires forall x :: x in s ==> keep(x)
    ensures Filter(keep, s) == s
  {
    if s != [] {
      var init, last := s[..|s| - 1], s[|s| - 1];
      FilterNext(keep, init, last);
      hide Filter;
      assert s == init + [last];
      FilterWhole(keep, init);
    }
  }

  /** If only the results for `x` are kept, they are what is kept of all. */
  lemma {:induction false} FilterFlatMap<T, U>(keep: U -> bool, f: T -> seq<U>, s: seq<T>, x: T)
    requires Distinct(s) && forall y :: Filter(keep, f(y)) == if y == x then f(y) else []
    ensures Filter(keep, FlatMap(f, s)) == if x in s then f(x) else []
  {
    if s != [] {
      var init, last := s[..|s| - 1], s[|s| - 1];
      assert s == init + [last];
      FilterFlatMap(keep, f, init, x);
      FilterAppend(keep, FlatMap(f, init), f(last));
      assert last !in init;
    }
  }

  lemma {:induction false} FilterAll<T>(keep: T -> bool, s: seq<T>)
    ensures |Filter(keep, s)| <= |s|
    ensures |Filter(keep, s)| == |s| <==> forall x :: x in s ==> keep(x)
  {
    if s != [] {
      FilterAll(keep, s[..|s| - 1]);
      assert s == s[..|s| - 1] + [s[|s| - 1]];
    }
  }

  lemma FlatMapNext<T, U>(f: T -> seq<U>, s: seq<T>, k: nat)
    requires k < |s|
    ensures FlatMap(f, s[..k + 1]) == FlatMap(f, s[..k]) + f(s[k])
  {
    assert s[..k + 1][..k] == s[..k];
  }

  // ---------------------------------------------------------------- keys in the order of their first elements

  function Firsts<T, K(==)>(key: T -> K, s: seq<T>): seq<K> {
    if s == [] then []
    else
      var before, k := Firsts(key, s[..|s| - 1]), key(s[|s| - 1]);
      if k in before then before else before + [k]
  }

  lemma FirstsNext<T, K>(key: T -> K, s: seq<T>, x: T)
    ensures Firsts(key, s + [x]) == if key(x) in Firsts(key, s) then Firsts(key, s) else Firsts(key, s) + [key(x)]
  {
    assert (s + [x])[..|s|] == s;
  }

  /** Every key appears, and appears once. */
  lemma {:induction false} FirstsElements<T, K>(key: T -> K, s: seq<T>)
    ensures Distinct(Firsts(key, s)) && forall k :: k in Firsts(key, s) <==> exists i :: 0 <= i < |s| && key(s[i]) == k
  {
    if s != [] {
      var init := s[..|s| - 1];
      FirstsElements(key, init);
      forall k ensures k in Firsts(key, s) <==> exists i :: 0 <= i < |s| && key(s[i]) == k {
        if i :| 0 <= i < |init| && key(init[i]) == k {
          assert key(s[i]) == k;
        }
        if k == key(s[|init|]) {
          assert key(s[|init|]) == k;
        }
        if i :| 0 <= i < |s| && key(s[i]) == k {
          if i < |init| {
            assert key(init[i]) == k;
          }
        }
      }
    }
  }

  lemma KeyAt<T, K>(key: T -> K, s: seq<T>, k: K) returns (i: nat)
    requires k in Firsts(key, s)
    ensures i < |s| && key(s[i]) == k
  {
    FirstsElements(key, s);
    i :| i < |s| && key(s[i]) == k;
  }

  lemma KeyIn<T, K>(key: T -> K, s: seq<T>, i: nat)
    requires i < |s|
    ensures key(s[i]) in Firsts(key, s)
  {
    FirstsElements(key, s);
  }

  /** A key comes before another if its first element does. */
  lemma {:induction false} FirstsInOrder<T, K>(key: T -> K, s: seq<T>, i: nat, j: nat) returns (a: nat)
    requires i < j < |Firsts(key, s)|
    ensures a < |s| && key(s[a]) == Firsts(key, s)[i] && forall b :: 0 <= b <= a ==> key(s[b]) != Firsts(key, s)[j]
  {
    var init := s[..|s| - 1];
    if j < |Firsts(key, init)| {
      a := FirstsInOrder(key, init, i, j);
    } else {
      a := KeyAt(key, init, Firsts(key, init)[i]);
      forall b | 0 <= b <= a ensures key(s[b]) != Firsts(key, s)[j] {
        KeyIn(key, init, b);
      }
    }
    assert forall b :: 0 <= b <= a ==> init[b] == s[b];
  }

  /** Sequences of the same elements have the same keys, up to their order. */
  lemma FirstsSame<T, K>(key: T -> K, s: seq<T>, t: seq<T>)
    requires forall x :: x in s <==> x in t
    ensures multiset(Firsts(key, s)) == multiset(Firsts(key, t))
  {
    FirstsElements(key, s);
    FirstsElements(key, t);
    forall k ensures k in Firsts(key, s) <==> k in Firsts(key, t) {
      if i :| 0 <= i < |s| && key(s[i]) == k {
        assert s[i] in t;
        var j :| 0 <= j < |t| && t[j] == s[i];
        assert key(t[j]) == k;
      }
      if j :| 0 <= j < |t| && key(t[j]) == k {
        assert t[j] in s;
        var i :| 0 <= i < |s| && s[i] == t[j];
        assert key(s[i]) == k;
      }
    }
    DistinctPermutation(Firsts(key, s), Firsts(key, t));
  }
}
