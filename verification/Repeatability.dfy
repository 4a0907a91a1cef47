/** The figures over all pairs of repeated answers do not depend on the order the answers came in. */
module Repeatability {
  import opened Wrappers
  import opened Comparison
  import opened Permutations

  // ---------------------------------------------------------------- values over all pairs

  function Row<T, V>(f: (T, T) -> V, x: T, s: seq<T>): seq<V> {
    seq(|s|, i requires 0 <= i < |s| => f(x, s[i]))
  }

  /** `f` of every element with every later one. */
  function Pairs<T, V>(f: (T, T) -> V, s: seq<T>): seq<V> {
    if s == [] then [] else Row(f, s[0], s[1..]) + Pairs(f, s[1..])
  }

  /** Each pair of places once, the earlier first. */
  ghost predicate PairsAt<T(!new), V>(f: (T, T) -> V, s: seq<T>, values: seq<V>, at: seq<(nat, nat)>) {
    && |at| == |values| && (forall k, l :: 0 <= k < l < |at| ==> at[k] != at[l])
    && (forall i: nat, j: nat :: (i, j) in at <==> i < j < |s|)
    && forall k :: 0 <= k < |at| ==> at[k].0 < at[k].1 < |s| && values[k] == f(s[at[k].0], s[at[k].1])
  }

  function Moved(rest: seq<(nat, nat)>): seq<(nat, nat)> {
    seq(|rest|, k requires 0 <= k < |rest| => (rest[k].0 + 1, rest[k].1 + 1))
  }

  function FirstWith(n: nat): seq<(nat, nat)> {
    seq(n, j requires 0 <= j < n => (0, j + 1))
  }

  lemma {:induction false} PairsAre<T(!new), V>(f: (T, T) -> V, s: seq<T>) returns (at: seq<(nat, nat)>)
    ensures PairsAt(f, s, Pairs(f, s), at)
  {
    if s == [] {
      at := [];
    } else {
      var rest := PairsAre(f, s[1..]);
      at := FirstWith(|s| - 1) + Moved(rest);
      PlacesAre(|s|, rest, at);
      PlacesDistinct(|s| - 1, rest, at);
      PlacesValues(f, s, rest, at);
    }
  }

  lemma PlacesAre(n: nat, rest: seq<(nat, nat)>, at: seq<(nat, nat)>)
    requires n > 0 && at == FirstWith(n - 1) + Moved(rest)
    requires forall i: nat, j: nat :: (i, j) in rest <==> i < j < n - 1
    ensures forall i: nat, j: nat :: (i, j) in at <==> i < j < n
  {
    forall i: nat, j: nat ensures (i, j) in at <==> i < j < n {
      PlaceIs(n, rest, at, i, j);
    }
  }

  lemma PlaceIs(n: nat, rest: seq<(nat, nat)>, at: seq<(nat, nat)>, i: nat, j: nat)
    requires n > 0 && at == FirstWith(n - 1) + Moved(rest)
    requires forall i: nat, j: nat :: (i, j) in rest <==> i < j < n - 1
    ensures (i, j) in at <==> i < j < n
  {
    if i == 0 && 0 < j < n {
      assert at[j - 1] == (i, j);
    } else if 0 < i < j < n {
      assert (i - 1, j - 1) in rest;
      var k :| 0 <= k < |rest| && rest[k] == (i - 1, j - 1);
      assert at[n - 1 + k] == (i, j);
    }
    if (i, j) in at {
      var k :| 0 <= k < |at| && at[k] == (i, j);
      if k >= n - 1 {
        assert (rest[k - (n - 1)].0, rest[k - (n - 1)].1) in rest;
      }
    }
  }

  lemma PlacesDistinct(n: nat, rest: seq<(nat, nat)>, at: seq<(nat, nat)>)
    requires at == FirstWith(n) + Moved(rest) && forall k, l :: 0 <= k < l < |rest| ==> rest[k] != rest[l]
    ensures forall k, l :: 0 <= k < l < |at| ==> at[k] != at[l]
  {
    forall k, l | 0 <= k < l < |at| ensures at[k] != at[l] {
      if k >= n {
        assert rest[k - n] != rest[l - n];
      }
    }
  }

  lemma PlacesValues<T(!new), V>(f: (T, T) -> V, s: seq<T>, rest: seq<(nat, nat)>, at: seq<(nat, nat)>)
    requires s != [] && PairsAt(f, s[1..], Pairs(f, s[1..]), rest) && at == FirstWith(|s| - 1) + Moved(rest)
    ensures |at| == |Pairs(f, s)| && forall k :: 0 <= k < |at| ==> at[k].0 < at[k].1 < |s| && Pairs(f, s)[k] == f(s[at[k].0], s[at[k].1])
  {
    var n := |s| - 1;
    assert Pairs(f, s) == Row(f, s[0], s[1..]) + Pairs(f, s[1..]);
    forall k | 0 <= k < |at| ensures at[k].0 < at[k].1 < |s| && Pairs(f, s)[k] == f(s[at[k].0], s[at[k].1]) {
      PlaceValue(f, s, rest, at, k);
    }
  }

  lemma PlaceValue<T(!new), V>(f: (T, T) -> V, s: seq<T>, rest: seq<(nat, nat)>, at: seq<(nat, nat)>, k: nat)
    requires s != [] && PairsAt(f, s[1..], Pairs(f, s[1..]), rest) && at == FirstWith(|s| - 1) + Moved(rest) && k < |at|
    requires Pairs(f, s) == Row(f, s[0], s[1..]) + Pairs(f, s[1..])
    ensures at[k].0 < at[k].1 < |s| && k < |Pairs(f, s)| && Pairs(f, s)[k] == f(s[at[k].0], s[at[k].1])
  {
    hide Pairs;
    var n := |s| - 1;
    if k < n {
      assert at[k] == (0, k + 1) && s[k + 1] == s[1..][k];
    } else {
      assert at[k] == (rest[k - n].0 + 1, rest[k - n].1 + 1);
    }
  }

  ghost predicate Symmetric<T(!new), V>(f: (T, T) -> V) {
    forall x, y :: f(x, y) == f(y, x)
  }

  lemma {:induction false} RowPermutes<T, V>(f: (T, T) -> V, x: T, s: seq<T>, t: seq<T>)
    requires multiset(s) == multiset(t)
    ensures multiset(Row(f, x, s)) == multiset(Row(f, x, t))
    decreases |s|
  {
    assert |s| == |multiset(s)| && |t| == |multiset(t)|;
    if s != [] {
      var i := MatchFirst(s, t);
      RowPermutes(f, x, Without(s, 0), Without(t, i));
      RowWithout(f, x, s, 0);
      RowWithout(f, x, t, i);
    }
  }

  lemma RowWithout<T, V>(f: (T, T) -> V, x: T, s: seq<T>, i: nat)
    requires i < |s|
    ensures multiset(Row(f, x, s)) == multiset(Row(f, x, Without(s, i))) + multiset{f(x, s[i])}
  {
    var row := Row(f, x, s);
    assert Row(f, x, Without(s, i)) == Without(row, i);
    WithoutMultiset(row, i);
  }

  /** Taking one element out takes its row out. */
  lemma {:induction false} PairsWithout<T(!new), V>(f: (T, T) -> V, s: seq<T>, i: nat)
    requires Symmetric(f) && i < |s|
    ensures multiset(Pairs(f, s)) == multiset(Pairs(f, Without(s, i))) + multiset(Row(f, s[i], Without(s, i)))
  {
    PairsHead(f, s);
    if i == 0 {
      assert Without(s, 0) == s[1..];
    } else {
      assert f(s[0], s[i]) == f(s[i], s[0]);
      WithoutTail(s, i);
      hide Symmetric, Pairs, Row, Without;
      var rest, shorter := s[1..], Without(s, i);
      PairsWithout(f, rest, i - 1);
      RowWithout(f, s[0], rest, i - 1);
      RowHead(f, s[i], shorter);
      PairsHead(f, shorter);
      var x := multiset{f(s[i], s[0])};
      Regroup(multiset(Row(f, s[0], Without(rest, i - 1))), x, multiset(Pairs(f, Without(rest, i - 1))),
              multiset(Row(f, rest[i - 1], Without(rest, i - 1))));
    }
  }

  lemma WithoutTail<T>(s: seq<T>, i: nat)
    requires 0 < i < |s|
    ensures i - 1 < |s[1..]| && Without(s, i) != []
    ensures Without(s, i)[1..] == Without(s[1..], i - 1) && Without(s, i)[0] == s[0]
  {
  }

  lemma Regroup<V>(row: multiset<V>, x: multiset<V>, pairs: multiset<V>, own: multiset<V>)
    ensures (row + x) + (pairs + own) == (row + pairs) + (x + own)
  {
  }

  lemma PairsHead<T, V>(f: (T, T) -> V, s: seq<T>)
    requires s != []
    ensures multiset(Pairs(f, s)) == multiset(Row(f, s[0], s[1..])) + multiset(Pairs(f, s[1..]))
  {
  }

  lemma RowHead<T, V>(f: (T, T) -> V, x: T, s: seq<T>)
    requires s != []
    ensures multiset(Row(f, x, s)) == multiset{f(x, s[0])} + multiset(Row(f, x, s[1..]))
  {
    assert Row(f, x, s) == [f(x, s[0])] + Row(f, x, s[1..]);
  }

  /** For a symmetric comparison, reordering the elements only reorders the values. */
  lemma {:induction false} PairsPermute<T(!new), V>(f: (T, T) -> V, s: seq<T>, t: seq<T>)
    requires Symmetric(f) && multiset(s) == multiset(t)
    ensures multiset(Pairs(f, s)) == multiset(Pairs(f, t))
    decreases |s|
  {
    assert |s| == |multiset(s)| && |t| == |multiset(t)|;
    if s != [] {
      var i := MatchFirst(s, t);
      PairsWithout(f, s, 0);
      PairsWithout(f, t, i);
      RowPermutes(f, s[0], Without(s, 0), Without(t, i));
      PairsPermute(f, Without(s, 0), Without(t, i));
    }
  }

  // ---------------------------------------------------------------- aggregates

  function Sum(values: seq<nat>): nat {
    if values == [] then 0 else values[0] + Sum(values[1..])
  }

  lemma {:induction false} SumAppend(a: seq<nat>, b: seq<nat>)
    ensures Sum(a + b) == Sum(a) + Sum(b) && Sum([]) == 0 && forall x: nat :: Sum([x]) == x
  {
    if a == [] {
      assert a + b == b;
    } else {
      assert (a + b)[1..] == a[1..] + b;
      SumAppend(a[1..], b);
    }
    forall x: nat ensures Sum([x]) == x {
      assert [x][1..] == [];
    }
  }

  lemma {:induction false} SumWithout(values: seq<nat>, i: nat)
    requires i < |values|
    ensures Sum(values) == values[i] + Sum(Without(values, i))
  {
    if i == 0 {
      assert Without(values, 0) == values[1..];
    } else {
      SumWithout(values[1..], i - 1);
      assert Without(values, i)[1..] == Without(values[1..], i - 1);
    }
  }

  lemma {:induction false} TotalPermutes(a: seq<nat>, b: seq<nat>)
    requires multiset(a) == multiset(b)
    ensures Sum(a) == Sum(b)
    decreases |a|
  {
    assert |a| == |multiset(a)| && |b| == |multiset(b)|;
    if a != [] {
      var i := MatchFirst(a, b);
      SumWithout(a, 0);
      SumWithout(b, i);
      TotalPermutes(Without(a, 0), Without(b, i));
    }
  }

  function Least(values: seq<real>): real
    requires values != []
  {
    if |values| == 1 then values[0]
    else
      var rest := Least(values[1..]);
      if values[0] <= rest then values[0] else rest
  }

  predicate AllKnown(values: seq<Option<real>>) {
    forall i :: 0 <= i < |values| ==> values[i].Some?
  }

  /** The least value when there is one and none is unknown. */
  function Minimum(values: seq<Option<real>>): Option<real> {
    if values != [] && AllKnown(values) then
      Some(Least(seq(|values|, i requires 0 <= i < |values| && AllKnown(values) => values[i].value)))
    else None
  }

  lemma {:induction false} LeastIs(values: seq<real>)
    requires values != []
    ensures Least(values) in values && forall i :: 0 <= i < |values| ==> Least(values) <= values[i]
  {
    if |values| > 1 {
      LeastIs(values[1..]);
      assert forall i :: 1 <= i < |values| ==> values[i] == values[1..][i - 1];
    }
  }

  lemma MinimumIs(values: seq<Option<real>>)
    ensures Minimum(values) == None <==> values == [] || None in values
    ensures Minimum(values).Some? ==> Minimum(values) in values
    ensures Minimum(values).Some? ==> forall v :: v in values ==> v.Some? && Minimum(values).value <= v.value
  {
    if values != [] && AllKnown(values) {
      var known := seq(|values|, i requires 0 <= i < |values| && AllKnown(values) => values[i].value);
      LeastIs(known);
      var i :| 0 <= i < |known| && known[i] == Least(known);
      assert values[i] == Minimum(values);
      forall v | v in values ensures v.Some? && Minimum(values).value <= v.value {
        var j :| 0 <= j < |values| && values[j] == v;
        assert known[j] == v.value;
      }
    }
  }

  lemma MinimumPermutes(a: seq<Option<real>>, b: seq<Option<real>>)
    requires multiset(a) == multiset(b)
    ensures Minimum(a) == Minimum(b)
  {
    MinimumIs(a);
    MinimumIs(b);
    forall v ensures v in a <==> v in b {
      assert v in multiset(a) <==> v in multiset(b);
    }
    assert |a| == |multiset(a)| == |b|;
  }

  // ---------------------------------------------------------------- the summary

  datatype Summary = Summary(comparedRuns: nat, ties: nat, minimumShortlist: Option<real>, minimumCriteria: Option<real>,
                             totalConflicts: nat)

  function Shortlist(key: KeyOf): (Answer, Answer) -> Option<real> {
    (a: Answer, b: Answer) => OverlapOf(key, a.candidates, b.candidates).Jaccard()
  }

  function CriteriaNames(a: Answer): seq<string> {
    seq(|a.criteria|, i requires 0 <= i < |a.criteria| => a.criteria[i].name)
  }

  function CriteriaShared(key: KeyOf): (Answer, Answer) -> Option<real> {
    (a: Answer, b: Answer) => OverlapOf(key, CriteriaNames(a), CriteriaNames(b)).Jaccard()
  }

  function Conflicts(key: KeyOf, dated: string -> bool): (Answer, Answer) -> nat {
    (a: Answer, b: Answer) => CountPairs(key, dated, a.facts, b.facts, Conflict)
  }

  function PickVerdict(key: KeyOf): (Answer, Answer) -> Picks {
    (a: Answer, b: Answer) => ComparePicks(key, a, b)
  }

  function Ties(answers: seq<Answer>): nat {
    if answers == [] then 0 else (if answers[0].tie.Some? then 1 else 0) + Ties(answers[1..])
  }

  function Repeat(key: KeyOf, dated: string -> bool, answers: seq<Answer>): Summary {
    Summary(|answers|, Ties(answers), Minimum(Pairs(Shortlist(key), answers)), Minimum(Pairs(CriteriaShared(key), answers)),
            Sum(Pairs(Conflicts(key, dated), answers)))
  }

  lemma PairwiseSymmetric(key: KeyOf, dated: string -> bool)
    ensures Symmetric(Shortlist(key)) && Symmetric(CriteriaShared(key)) && Symmetric(Conflicts(key, dated)) &&
            Symmetric(PickVerdict(key))
  {
    forall a, b ensures PickVerdict(key)(a, b) == PickVerdict(key)(b, a) {
      ComparePicksSymmetric(key, a, b);
    }
    forall a, b ensures Shortlist(key)(a, b) == Shortlist(key)(b, a) {
      OverlapSwaps(key, a.candidates, b.candidates);
    }
    forall a, b ensures CriteriaShared(key)(a, b) == CriteriaShared(key)(b, a) {
      OverlapSwaps(key, CriteriaNames(a), CriteriaNames(b));
    }
    forall a, b ensures Conflicts(key, dated)(a, b) == Conflicts(key, dated)(b, a) {
      CountPairsSwaps(key, dated, a.facts, b.facts, Conflict);
    }
  }

  /** The answers that state a tie. */
  ghost function Tying(answers: seq<Answer>): (at: set<nat>)
    ensures forall i: nat :: i in at <==> i < |answers| && answers[i].tie.Some?
  {
    set i: nat | i < |answers| && answers[i].tie.Some?
  }

  lemma {:induction false} TiesAre(answers: seq<Answer>)
    ensures Ties(answers) == |Tying(answers)|
  {
    if answers == [] {
      assert Tying(answers) == {};
    } else {
      var init, n := answers[..|answers| - 1], |answers| - 1;
      TiesAre(init);
      TiesWithout(answers, n);
      assert Without(answers, n) == init;
      TyingNext(answers);
      hide Tying, Ties;
    }
  }

  lemma TyingNext(answers: seq<Answer>)
    requires answers != []
    ensures var n := |answers| - 1;
            |Tying(answers)| == |Tying(answers[..n])| + if answers[n].tie.Some? then 1 else 0
  {
    var init, n := answers[..|answers| - 1], |answers| - 1;
    var more: set<nat> := if answers[n].tie.Some? then {n} else {};
    assert forall i :: 0 <= i < n ==> init[i] == answers[i];
    assert Tying(answers) == Tying(init) + more && Tying(init) !! more;
  }

  lemma {:induction false} TiesWithout(answers: seq<Answer>, i: nat)
    requires i < |answers|
    ensures Ties(answers) == Ties(Without(answers, i)) + if answers[i].tie.Some? then 1 else 0
  {
    if i == 0 {
      assert Without(answers, 0) == answers[1..];
    } else {
      TiesWithout(answers[1..], i - 1);
      assert Without(answers, i)[1..] == Without(answers[1..], i - 1);
    }
  }

  lemma {:induction false} TiesPermute(s: seq<Answer>, t: seq<Answer>)
    requires multiset(s) == multiset(t)
    ensures Ties(s) == Ties(t)
    decreases |s|
  {
    assert |s| == |multiset(s)| && |t| == |multiset(t)|;
    if s != [] {
      var i := MatchFirst(s, t);
      TiesWithout(s, 0);
      TiesWithout(t, i);
      TiesPermute(Without(s, 0), Without(t, i));
    }
  }

  /** Whatever order the answers are given in, the figures are the same, and so are the verdicts on the pairs' picks. */
  lemma OrderIrrelevant(key: KeyOf, dated: string -> bool, s: seq<Answer>, t: seq<Answer>)
    requires multiset(s) == multiset(t)
    ensures Repeat(key, dated, s) == Repeat(key, dated, t)
    ensures multiset(Pairs(PickVerdict(key), s)) == multiset(Pairs(PickVerdict(key), t))
  {
    assert |s| == |multiset(s)| && |t| == |multiset(t)|;
    PairwiseSymmetric(key, dated);
    PairsPermute(Shortlist(key), s, t);
    PairsPermute(CriteriaShared(key), s, t);
    PairsPermute(Conflicts(key, dated), s, t);
    PairsPermute(PickVerdict(key), s, t);
    MinimumPermutes(Pairs(Shortlist(key), s), Pairs(Shortlist(key), t));
    MinimumPermutes(Pairs(CriteriaShared(key), s), Pairs(CriteriaShared(key), t));
    TotalPermutes(Pairs(Conflicts(key, dated), s), Pairs(Conflicts(key, dated), t));
    TiesPermute(s, t);
  }

  // ---------------------------------------------------------------- the largest group of equal picks

  /** The key of the pick an answer makes, if it makes one. */
  function PickKey(key: KeyOf, answer: Answer): seq<string> {
    if answer.pick.Some? && answer.pick.value != "" then [key(answer.pick.value)] else []
  }

  function PickKeys(key: KeyOf, answers: seq<Answer>): seq<string> {
    if answers == [] then [] else PickKeys(key, answers[..|answers| - 1]) + PickKey(key, answers[|answers| - 1])
  }

  /** The picks that were made, in order, by their keys. */
  ghost predicate PicksAt(key: KeyOf, answers: seq<Answer>, picks: seq<string>, at: seq<nat>) {
    && |at| == |picks| && (forall k, l :: 0 <= k < l < |at| ==> at[k] < at[l])
    && (forall i: nat :: i in at <==> i < |answers| && answers[i].pick.Some? && answers[i].pick.value != "")
    && forall k :: 0 <= k < |at| ==> at[k] < |answers| && answers[at[k]].pick.Some? && picks[k] == key(answers[at[k]].pick.value)
  }

  lemma {:induction false} PicksAre(key: KeyOf, answers: seq<Answer>) returns (at: seq<nat>)
    ensures PicksAt(key, answers, PickKeys(key, answers), at)
  {
    if answers == [] {
      at := [];
    } else {
      var init, n := answers[..|answers| - 1], |answers| - 1;
      var before := PicksAre(key, init);
      at := before + if answers[n].pick.Some? && answers[n].pick.value != "" then [n] else [];
      assert answers == init + [answers[n]];
      assert PickKeys(key, answers) == PickKeys(key, init) + PickKey(key, answers[n]);
      hide PickKeys;
      PicksAtNext(key, init, PickKeys(key, init), before, answers[n]);
    }
  }

  lemma PicksAtNext(key: KeyOf, answers: seq<Answer>, picks: seq<string>, at: seq<nat>, last: Answer)
    requires PicksAt(key, answers, picks, at)
    ensures PicksAt(key, answers + [last], picks + PickKey(key, last),
                    at + if last.pick.Some? && last.pick.value != "" then [|answers|] else [])
  {
    assert forall i :: 0 <= i < |answers| ==> (answers + [last])[i] == answers[i];
    forall k | 0 <= k < |at| ensures at[k] < |answers| {
      assert at[k] in at;
    }
  }

  ghost predicate IsLargestGroup(picks: multiset<string>, n: nat) {
    (forall k :: picks[k] <= n) && (n > 0 ==> exists k :: picks[k] == n)
  }

  /** The map holds how often each key was picked. */
  ghost predicate Counts(counts: map<string, nat>, picks: multiset<string>) {
    forall k :: picks[k] == if k in counts then counts[k] else 0
  }

  lemma CountOneMore(counts: map<string, nat>, picks: multiset<string>, largest: nat, k: string)
    requires Counts(counts, picks) && IsLargestGroup(picks, largest)
    ensures picks[k] == if k in counts then counts[k] else 0
    ensures var n := picks[k] + 1; var more := picks + multiset{k};
            Counts(counts[k := n], more) && IsLargestGroup(more, if n > largest then n else largest)
  {
    var more := picks + multiset{k};
    assert more[k] == picks[k] + 1 && forall l :: l != k ==> more[l] == picks[l];
    if picks[k] + 1 <= largest {
      var l :| picks[l] == largest;
      assert more[l] == largest;
    }
  }

  lemma NoPicks(key: KeyOf)
    ensures PickKeys(key, []) == [] && Counts(map[], multiset{}) && IsLargestGroup(multiset{}, 0)
  {
  }

  method LargestPickGroup(key: KeyOf, answers: seq<Answer>) returns (largest: nat)
    ensures IsLargestGroup(multiset(PickKeys(key, answers)), largest)
  {
    var counts: map<string, nat> := map[];
    largest := 0;
    ghost var picks: multiset<string> := multiset{};
    NoPicks(key);
    hide Counts, IsLargestGroup, PickKeys;
    for i := 0 to |answers|
      invariant picks == multiset(PickKeys(key, answers[..i]))
      invariant Counts(counts, picks) && IsLargestGroup(picks, largest)
    {
      var answer := answers[i];
      PicksNext(key, answers, i);
      hide PickKey;
      if answer.pick.Some? && answer.pick.value != "" {
        var k := key(answer.pick.value);
        counts, largest := CountPick(counts, picks, largest, k);
        picks := picks + multiset{k};
      }
    }
    assert answers[..|answers|] == answers;
  }

  method CountPick(counts: map<string, nat>, ghost picks: multiset<string>, largest: nat, k: string)
    returns (more: map<string, nat>, most: nat)
    requires Counts(counts, picks) && IsLargestGroup(picks, largest)
    ensures Counts(more, picks + multiset{k}) && IsLargestGroup(picks + multiset{k}, most)
  {
    CountOneMore(counts, picks, largest, k);
    hide Counts, IsLargestGroup;
    var n := (if k in counts then counts[k] else 0) + 1;
    more := counts[k := n];
    most := if n > largest then n else largest;
  }

  lemma PicksNext(key: KeyOf, answers: seq<Answer>, i: nat)
    requires i < |answers|
    ensures var pick, before := answers[i].pick, multiset(PickKeys(key, answers[..i]));
            multiset(PickKeys(key, answers[..i + 1])) ==
            if pick.Some? && pick.value != "" then before + multiset{key(pick.value)} else before
  {
    assert answers[..i + 1][..i] == answers[..i];
    assert PickKeys(key, answers[..i]) + [] == PickKeys(key, answers[..i]);
  }

  lemma LargestGroupUnique(picks: multiset<string>, m: nat, n: nat)
    requires IsLargestGroup(picks, m) && IsLargestGroup(picks, n)
    ensures m == n
  {
  }

  lemma {:induction false} PickKeysAppend(key: KeyOf, a: seq<Answer>, b: seq<Answer>)
    ensures PickKeys(key, a + b) == PickKeys(key, a) + PickKeys(key, b)
  {
    if b == [] {
      assert a + b == a;
    } else {
      assert (a + b)[..|a + b| - 1] == a + b[..|b| - 1];
      PickKeysAppend(key, a, b[..|b| - 1]);
    }
  }

  lemma PickKeysWithout(key: KeyOf, answers: seq<Answer>, i: nat)
    requires i < |answers|
    ensures multiset(PickKeys(key, answers)) == multiset(PickKeys(key, Without(answers, i))) + multiset(PickKeys(key, [answers[i]]))
  {
    hide PickKeys;
    var left, right := answers[..i], answers[i + 1..];
    assert answers == left + [answers[i]] + right && Without(answers, i) == left + right;
    PickKeysAppend(key, left + [answers[i]], right);
    PickKeysAppend(key, left, [answers[i]]);
    PickKeysAppend(key, left, right);
    MiddleOut(PickKeys(key, left), PickKeys(key, [answers[i]]), PickKeys(key, right));
  }

  lemma MiddleOut(a: seq<string>, b: seq<string>, c: seq<string>)
    ensures multiset(a + b + c) == multiset(a + c) + multiset(b)
  {
  }

  lemma {:induction false} PickKeysPermute(key: KeyOf, s: seq<Answer>, t: seq<Answer>)
    requires multiset(s) == multiset(t)
    ensures multiset(PickKeys(key, s)) == multiset(PickKeys(key, t))
    decreases |s|
  {
    assert |s| == |multiset(s)| && |t| == |multiset(t)|;
    if s != [] {
      var i := MatchFirst(s, t);
      PickKeysWithout(key, s, 0);
      PickKeysWithout(key, t, i);
      PickKeysPermute(key, Without(s, 0), Without(t, i));
    }
  }

  /** The size of the largest group of equal picks does not depend on the order of the answers either. */
  lemma LargestGroupIgnoresOrder(key: KeyOf, s: seq<Answer>, t: seq<Answer>, m: nat, n: nat)
    requires multiset(s) == multiset(t)
    requires IsLargestGroup(multiset(PickKeys(key, s)), m) && IsLargestGroup(multiset(PickKeys(key, t)), n)
    ensures m == n
  {
    PickKeysPermute(key, s, t);
    LargestGroupUnique(multiset(PickKeys(key, s)), m, n);
  }
}
