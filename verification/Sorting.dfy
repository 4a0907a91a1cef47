/** The library's stable sort by a comparison, and what it promises. */
module Sorting {

  ghost predicate TotalPreorder<T(!new)>(leq: (T, T) -> bool) {
    && (forall x, y :: leq(x, y) || leq(y, x))
    && (forall x, y, z :: leq(x, y) && leq(y, z) ==> leq(x, z))
  }

  ghost predicate SortedBy<T>(leq: (T, T) -> bool, s: seq<T>) {
    forall i, j :: 0 <= i < j < |s| ==> leq(s[i], s[j])
  }

  /** `x` goes after every element at the front that does not exceed it. */
  function Insert<T>(leq: (T, T) -> bool, x: T, s: seq<T>): seq<T> {
    if s == [] then [x] else if leq(s[0], x) then [s[0]] + Insert(leq, x, s[1..]) else [x] + s
  }

  function Sort<T>(leq: (T, T) -> bool, s: seq<T>): seq<T> {
    if s == [] then [] else Insert(leq, s[|s| - 1], Sort(leq, s[..|s| - 1]))
  }

  lemma {:induction false} InsertMultiset<T>(leq: (T, T) -> bool, x: T, s: seq<T>)
    ensures multiset(Insert(leq, x, s)) == multiset(s) + multiset{x}
  {
    if s != [] && leq(s[0], x) {
      InsertMultiset(leq, x, s[1..]);
      assert s == [s[0]] + s[1..];
    }
  }

  lemma {:induction false} SortMultiset<T>(leq: (T, T) -> bool, s: seq<T>)
    ensures multiset(Sort(leq, s)) == multiset(s)
  {
    if s != [] {
      var init, last := s[..|s| - 1], s[|s| - 1];
      SortMultiset(leq, init);
      InsertMultiset(leq, last, Sort(leq, init));
      assert Sort(leq, s) == Insert(leq, last, Sort(leq, init));
      hide Sort, Insert;
      assert s == init + [last];
    }
  }

  lemma SortElements<T>(leq: (T, T) -> bool, s: seq<T>)
    ensures |Sort(leq, s)| == |s|
    ensures forall x :: x in Sort(leq, s) <==> x in s
  {
    SortMultiset(leq, s);
    assert |multiset(Sort(leq, s))| == |multiset(s)|;
    forall x ensures x in Sort(leq, s) <==> x in s {
      assert x in Sort(leq, s) <==> x in multiset(Sort(leq, s));
      assert x in s <==> x in multiset(s);
    }
  }

  lemma {:induction false} InsertSorted<T(!new)>(leq: (T, T) -> bool, x: T, s: seq<T>)
    requires TotalPreorder(leq) && SortedBy(leq, s)
    ensures SortedBy(leq, Insert(leq, x, s))
  {
    if s != [] {
      if leq(s[0], x) {
        InsertSorted(leq, x, s[1..]);
        var rest := Insert(leq, x, s[1..]);
        InsertMultiset(leq, x, s[1..]);
        forall j | 0 <= j < |rest| ensures leq(s[0], rest[j]) {
          assert rest[j] in multiset(rest);
          assert rest[j] in s[1..] || rest[j] == x;
        }
      } else {
        assert leq(x, s[0]);
        forall j | 0 <= j < |s| ensures leq(x, s[j]) {
          if j > 0 { assert leq(s[0], s[j]); }
        }
      }
    }
  }

  lemma {:induction false} SortSorted<T(!new)>(leq: (T, T) -> bool, s: seq<T>)
    requires TotalPreorder(leq)
    ensures SortedBy(leq, Sort(leq, s))
  {
    if s != [] {
      SortSorted(leq, s[..|s| - 1]);
      InsertSorted(leq, s[|s| - 1], Sort(leq, s[..|s| - 1]));
    }
  }

  /** Distinct elements never tie. */
  ghost predicate NoTies<T>(leq: (T, T) -> bool, s: seq<T>) {
    forall x, y :: x in s && y in s && leq(x, y) && leq(y, x) ==> x == y
  }

  lemma SameHead<T>(leq: (T, T) -> bool, s: seq<T>, t: seq<T>)
    requires SortedBy(leq, s) && SortedBy(leq, t) && multiset(s) == multiset(t)
    requires NoTies(leq, s) && s != [] && t != []
    ensures s[0] == t[0]
  {
    assert s[0] in multiset(t) && t[0] in multiset(s);
    var i :| 0 <= i < |t| && t[i] == s[0];
    var j :| 0 <= j < |s| && s[j] == t[0];
    if i != 0 && j != 0 {
      assert leq(t[0], t[i]) && leq(s[0], s[j]);
    }
  }

  lemma SameTail<T>(s: seq<T>, t: seq<T>)
    requires s != [] && t != [] && multiset(s) == multiset(t) && s[0] == t[0]
    ensures multiset(s[1..]) == multiset(t[1..])
  {
    assert s == [s[0]] + s[1..] && t == [t[0]] + t[1..];
    assert multiset(s[1..]) == multiset(s) - multiset{s[0]};
    assert multiset(t[1..]) == multiset(t) - multiset{t[0]};
  }

  /** Without ties the sorted order of given elements is unique. */
  lemma {:induction false} SortedUnique<T>(leq: (T, T) -> bool, s: seq<T>, t: seq<T>)
    requires SortedBy(leq, s) && SortedBy(leq, t) && multiset(s) == multiset(t)
    requires NoTies(leq, s)
    ensures s == t
  {
    assert |s| == |multiset(s)| && |t| == |multiset(t)|;
    if s != [] {
      SameHead(leq, s, t);
      SameTail(s, t);
      assert NoTies(leq, s[1..]);
      SortedUnique(leq, s[1..], t[1..]);
      assert s == [s[0]] + s[1..] && t == [t[0]] + t[1..];
    }
  }

  lemma SortCanonical<T(!new)>(leq: (T, T) -> bool, s: seq<T>, t: seq<T>)
    requires TotalPreorder(leq) && multiset(s) == multiset(t) && NoTies(leq, s)
    ensures Sort(leq, s) == Sort(leq, t)
  {
    SortSorted(leq, s);
    SortSorted(leq, t);
    SortMultiset(leq, s);
    SortMultiset(leq, t);
    SortElements(leq, s);
    SortedUnique(leq, Sort(leq, s), Sort(leq, t));
  }

  // ---------------------------------------------------------------- stability

  ghost predicate Precedes<T>(s: seq<T>, x: T, y: T) {
    exists p, q :: 0 <= p < q < |s| && s[p] == x && s[q] == y
  }

  lemma PrecedesAfter<T>(first: T, s: seq<T>, x: T, y: T)
    requires Precedes(s, x, y) || (first == x && y in s)
    ensures Precedes([first] + s, x, y)
  {
    var all := [first] + s;
    if Precedes(s, x, y) {
      var p, q :| 0 <= p < q < |s| && s[p] == x && s[q] == y;
      assert all[p + 1] == x && all[q + 1] == y;
    } else {
      var q :| 0 <= q < |s| && s[q] == y;
      assert all[0] == x && all[q + 1] == y;
    }
  }

  lemma {:induction false} InsertKeepsOrder<T>(leq: (T, T) -> bool, z: T, s: seq<T>, x: T, y: T)
    requires Precedes(s, x, y)
    ensures Precedes(Insert(leq, z, s), x, y)
  {
    if leq(s[0], z) {
      var p, q :| 0 <= p < q < |s| && s[p] == x && s[q] == y;
      if p == 0 {
        InsertMultiset(leq, z, s[1..]);
        assert s[1..][q - 1] == y;
        assert y in multiset(Insert(leq, z, s[1..]));
        PrecedesAfter(s[0], Insert(leq, z, s[1..]), x, y);
      } else {
        assert s[1..][p - 1] == x && s[1..][q - 1] == y;
        InsertKeepsOrder(leq, z, s[1..], x, y);
        PrecedesAfter(s[0], Insert(leq, z, s[1..]), x, y);
      }
    } else {
      PrecedesAfter(z, s, x, y);
    }
  }

  lemma {:induction false} InsertAfterSmaller<T(!new)>(leq: (T, T) -> bool, y: T, s: seq<T>, x: T)
    requires TotalPreorder(leq) && SortedBy(leq, s) && x in s && leq(x, y)
    ensures Precedes(Insert(leq, y, s), x, y)
  {
    var p :| 0 <= p < |s| && s[p] == x;
    if p > 0 {
      assert leq(s[0], s[p]);
      assert s[1..][p - 1] == x;
      InsertAfterSmaller(leq, y, s[1..], x);
      PrecedesAfter(s[0], Insert(leq, y, s[1..]), x, y);
    } else {
      InsertMultiset(leq, y, s[1..]);
      assert y in multiset(Insert(leq, y, s[1..]));
      PrecedesAfter(s[0], Insert(leq, y, s[1..]), x, y);
    }
  }

  /** An earlier element that does not exceed a later one stays before it. */
  lemma {:induction false} SortStable<T(!new)>(leq: (T, T) -> bool, s: seq<T>, i: nat, j: nat)
    requires TotalPreorder(leq) && i < j < |s| && leq(s[i], s[j])
    ensures Precedes(Sort(leq, s), s[i], s[j])
  {
    var init, last := s[..|s| - 1], s[|s| - 1];
    if j < |s| - 1 {
      SortStable(leq, init, i, j);
      InsertKeepsOrder(leq, last, Sort(leq, init), s[i], s[j]);
    } else {
      SortSorted(leq, init);
      SortElements(leq, init);
      assert init[i] == s[i];
      InsertAfterSmaller(leq, last, Sort(leq, init), s[i]);
    }
  }
}
