/** How repeated answers to one question are compared, pair by pair. */
module Comparison {
  import opened Wrappers

  /** Labels are compared by their normalised form. */
  type KeyOf = string -> string

  datatype Fact = Fact(candidate: string, attribute: string, value: string, date: Option<string>, link: Option<string>)
  datatype Criterion = Criterion(name: string, reason: Option<string>)
  datatype Tie = Tie(candidates: seq<string>, reason: string, decider: string)
  datatype Answer = Answer(candidates: seq<string>, criteria: seq<Criterion>, facts: seq<Fact>,
                           pick: Option<string>, tie: Option<Tie>)

  // ---------------------------------------------------------------- overlap of label lists

  datatype Overlap = Overlap(shared: nat, union: nat, onlyLeft: nat, onlyRight: nat) {
    function Jaccard(): Option<real> {
      if union == 0 then None else Some(shared as real / union as real)
    }
  }

  function Labels(key: KeyOf, labels: seq<string>): set<string> {
    set i | 0 <= i < |labels| :: key(labels[i])
  }

  /** The union is what both share and what each has alone. */
  function OverlapOf(key: KeyOf, left: seq<string>, right: seq<string>): (o: Overlap)
    ensures o.union == o.shared + o.onlyLeft + o.onlyRight
  {
    var a, b := Labels(key, left), Labels(key, right);
    Intersects(a, b);
    UnionSize(a, b);
    Overlap(|a * b|, |a + b|, |a| - |a * b|, |b| - |a * b|)
  }

  lemma SplitSize(a: set<string>, b: set<string>)
    ensures |a| == |a * b| + |a - b|
  {
    assert a == a * b + (a - b);
  }

  lemma Intersects(a: set<string>, b: set<string>)
    ensures |a * b| <= |a| && |a * b| <= |b|
  {
    SplitSize(a, b);
    SplitSize(b, a);
    assert a * b == b * a;
  }

  lemma OverlapSwaps(key: KeyOf, left: seq<string>, right: seq<string>)
    ensures var there, back := OverlapOf(key, left, right), OverlapOf(key, right, left);
            back == Overlap(there.shared, there.union, there.onlyRight, there.onlyLeft)
  {
    var a, b := Labels(key, left), Labels(key, right);
    assert a * b == b * a && a + b == b + a;
  }

  lemma UnionSize(a: set<string>, b: set<string>)
    ensures |a + b| == |a| + |b| - |a * b|
  {
    SplitSize(b, a);
    assert a * b == b * a;
    assert a + b == a + (b - a) && a !! (b - a);
  }

  /** Full overlap means equal label sets, and not empty ones. */
  lemma FullOverlapIff(key: KeyOf, left: seq<string>, right: seq<string>)
    ensures OverlapOf(key, left, right).Jaccard() == Some(1.0) <==>
            Labels(key, left) == Labels(key, right) && Labels(key, left) != {}
  {
    var a, b, o := Labels(key, left), Labels(key, right), OverlapOf(key, left, right);
    if o.union > 0 {
      RatioOne(o.shared, o.union);
      if o.shared == o.union {
        SameSize(a * b, a + b);
      }
      if a == b {
        assert a * b == a && a + b == a;
      }
    } else {
      assert a + b == {};
    }
    if a == b && a != {} {
      assert a + b == a;
    }
  }

  lemma RatioOne(m: nat, n: nat)
    requires n > 0
    ensures m as real / n as real == 1.0 <==> m == n
  {
    if m as real / n as real == 1.0 {
      assert m as real == 1.0 * n as real;
    }
  }

  lemma SameSize(small: set<string>, large: set<string>)
    requires small <= large && |small| == |large|
    ensures small == large
  {
    assert large == small + (large - small);
  }

  // ---------------------------------------------------------------- facts

  datatype Relation = Unrelated | Conflict | DatedChange | OtherSeller

  /** `dated` says that a date is a real calendar date. */
  function Relate(key: KeyOf, dated: string -> bool, left: Fact, right: Fact): Relation {
    if key(left.candidate) != key(right.candidate) || key(left.attribute) != key(right.attribute) ||
       key(left.value) == key(right.value) then Unrelated
    else if key(left.attribute) == "price" && left.link.Some? && right.link.Some? && left.link != right.link then OtherSeller
    else if key(left.attribute) == "price" && left.link.Some? && left.link == right.link &&
            left.date.Some? && right.date.Some? && dated(left.date.value) && dated(right.date.value) &&
            left.date != right.date then DatedChange
    else Conflict
  }

  datatype FactComparison = FactComparison(conflicts: seq<(Fact, Fact)>, datedChanges: nat, otherSellers: nat)

  /** How many pairs of one list's fact with the other's stand in a relation. */
  function CountWith(key: KeyOf, dated: string -> bool, left: Fact, right: seq<Fact>, relation: Relation): nat {
    if right == [] then 0
    else CountWith(key, dated, left, right[..|right| - 1], relation) +
         if Relate(key, dated, left, right[|right| - 1]) == relation then 1 else 0
  }

  function CountPairs(key: KeyOf, dated: string -> bool, left: seq<Fact>, right: seq<Fact>, relation: Relation): nat {
    if left == [] then 0
    else CountPairs(key, dated, left[..|left| - 1], right, relation) +
         CountWith(key, dated, left[|left| - 1], right, relation)
  }

  /** Where a pair that stands in a relation is: the two facts' places. */
  ghost function Places(key: KeyOf, dated: string -> bool, left: seq<Fact>, right: seq<Fact>, relation: Relation): set<(nat, nat)> {
    set i: nat, j: nat | i < |left| && j < |right| && Relate(key, dated, left[i], right[j]) == relation :: (i, j)
  }

  /** The two facts give one attribute of one candidate different values. */
  predicate Differ(key: KeyOf, left: Fact, right: Fact) {
    key(left.candidate) == key(right.candidate) && key(left.attribute) == key(right.attribute) && key(left.value) != key(right.value)
  }

  ghost function DifferingPlaces(key: KeyOf, left: seq<Fact>, right: seq<Fact>): set<(nat, nat)> {
    set i: nat, j: nat | i < |left| && j < |right| && Differ(key, left[i], right[j]) :: (i, j)
  }

  /** The place comes before the pair (i, j) when the pairs are read row by row. */
  predicate Earlier(p: (nat, nat), i: nat, j: nat) {
    p.0 < i || (p.0 == i && p.1 < j)
  }

  /** The pairs stand at these places, in order and each once. */
  ghost predicate StandAt(pairs: seq<(Fact, Fact)>, places: seq<(nat, nat)>, left: seq<Fact>, right: seq<Fact>) {
    && |pairs| == |places|
    && (forall k :: 0 <= k < |places| ==> places[k].0 < |left| && places[k].1 < |right| && pairs[k] == (left[places[k].0], right[places[k].1]))
    && forall k, l :: 0 <= k < l < |places| ==> Earlier(places[k], places[l].0, places[l].1)
  }

  /** Of the pairs before (i, j), the places are those of the conflicts. */
  ghost predicate ConflictsUpTo(key: KeyOf, dated: string -> bool, left: seq<Fact>, right: seq<Fact>, places: seq<(nat, nat)>, i: nat, j: nat) {
    forall p :: p in places <==> p in Places(key, dated, left, right, Conflict) && Earlier(p, i, j)
  }

  /** Exactly the conflicting pairs, row by row, each once. */
  ghost predicate ListsConflicts(key: KeyOf, dated: string -> bool, left: seq<Fact>, right: seq<Fact>, pairs: seq<(Fact, Fact)>) {
    exists places: seq<(nat, nat)> ::
      StandAt(pairs, places, left, right) && forall p :: p in places <==> p in Places(key, dated, left, right, Conflict)
  }

  method ConflictingFacts(key: KeyOf, dated: string -> bool, a: Answer, b: Answer) returns (r: FactComparison)
    ensures ListsConflicts(key, dated, a.facts, b.facts, r.conflicts)
    ensures |r.conflicts| == CountPairs(key, dated, a.facts, b.facts, Conflict)
    ensures r.datedChanges == CountPairs(key, dated, a.facts, b.facts, DatedChange)
    ensures r.otherSellers == CountPairs(key, dated, a.facts, b.facts, OtherSeller)
    ensures |r.conflicts| + r.datedChanges + r.otherSellers == |DifferingPlaces(key, a.facts, b.facts)|
  {
    hide Relate, Places, StandAt, ConflictsUpTo, DifferingPlaces;
    var conflicts: seq<(Fact, Fact)> := [];
    ghost var places: seq<(nat, nat)> := [];
    var datedChanges, otherSellers := 0, 0;
    NoConflictsYet(key, dated, a.facts, b.facts);
    for i := 0 to |a.facts|
      invariant |conflicts| == CountPairs(key, dated, a.facts[..i], b.facts, Conflict)
      invariant datedChanges == CountPairs(key, dated, a.facts[..i], b.facts, DatedChange)
      invariant otherSellers == CountPairs(key, dated, a.facts[..i], b.facts, OtherSeller)
      invariant StandAt(conflicts, places, a.facts, b.facts) && ConflictsUpTo(key, dated, a.facts, b.facts, places, i, 0)
    {
      var left := a.facts[i];
      ghost var had := (|conflicts|, datedChanges, otherSellers);
      assert a.facts[..i + 1][..i] == a.facts[..i];
      for j := 0 to |b.facts|
        invariant |conflicts| == had.0 + CountWith(key, dated, left, b.facts[..j], Conflict)
        invariant datedChanges == had.1 + CountWith(key, dated, left, b.facts[..j], DatedChange)
        invariant otherSellers == had.2 + CountWith(key, dated, left, b.facts[..j], OtherSeller)
        invariant StandAt(conflicts, places, a.facts, b.facts) && ConflictsUpTo(key, dated, a.facts, b.facts, places, i, j)
      {
        assert b.facts[..j + 1][..j] == b.facts[..j];
        NextPlace(key, dated, a.facts, b.facts, conflicts, places, i, j);
        match Relate(key, dated, left, b.facts[j]) {
          case Unrelated =>
          case OtherSeller => otherSellers := otherSellers + 1;
          case DatedChange => datedChanges := datedChanges + 1;
          case Conflict =>
            conflicts := conflicts + [(left, b.facts[j])];
            places := places + [(i, j)];
        }
      }
      assert b.facts[..|b.facts|] == b.facts;
      NextRow(key, dated, a.facts, b.facts, places, i);
    }
    assert a.facts[..|a.facts|] == a.facts;
    LastRow(key, dated, a.facts, b.facts, places);
    DifferingAddUp(key, dated, a.facts, b.facts);
    r := FactComparison(conflicts, datedChanges, otherSellers);
  }

  lemma NoConflictsYet(key: KeyOf, dated: string -> bool, left: seq<Fact>, right: seq<Fact>)
    ensures StandAt([], [], left, right) && ConflictsUpTo(key, dated, left, right, [], 0, 0)
  {
  }

  lemma NextPlace(key: KeyOf, dated: string -> bool, left: seq<Fact>, right: seq<Fact>, pairs: seq<(Fact, Fact)>, places: seq<(nat, nat)>,
                  i: nat, j: nat)
    requires i < |left| && j < |right| && StandAt(pairs, places, left, right) && ConflictsUpTo(key, dated, left, right, places, i, j)
    ensures if Relate(key, dated, left[i], right[j]) == Conflict
            then StandAt(pairs + [(left[i], right[j])], places + [(i, j)], left, right) &&
                 ConflictsUpTo(key, dated, left, right, places + [(i, j)], i, j + 1)
            else ConflictsUpTo(key, dated, left, right, places, i, j + 1)
  {
    hide Relate;
    forall p | p in Places(key, dated, left, right, Conflict)
      ensures Earlier(p, i, j + 1) <==> Earlier(p, i, j) || p == (i, j)
    {
    }
    assert (i, j) in Places(key, dated, left, right, Conflict) <==> Relate(key, dated, left[i], right[j]) == Conflict;
    forall k | 0 <= k < |places| ensures Earlier(places[k], i, j) {
      assert places[k] in places;
    }
  }

  lemma NextRow(key: KeyOf, dated: string -> bool, left: seq<Fact>, right: seq<Fact>, places: seq<(nat, nat)>, i: nat)
    requires ConflictsUpTo(key, dated, left, right, places, i, |right|)
    ensures ConflictsUpTo(key, dated, left, right, places, i + 1, 0)
  {
    hide Relate;
  }

  lemma LastRow(key: KeyOf, dated: string -> bool, left: seq<Fact>, right: seq<Fact>, places: seq<(nat, nat)>)
    requires ConflictsUpTo(key, dated, left, right, places, |left|, 0)
    ensures forall p :: p in places <==> p in Places(key, dated, left, right, Conflict)
  {
    hide Relate;
  }

  // ---------------------------------------------------------------- what the counts count

  ghost function Row(key: KeyOf, dated: string -> bool, n: nat, left: Fact, right: seq<Fact>, relation: Relation): set<(nat, nat)> {
    set j: nat | j < |right| && Relate(key, dated, left, right[j]) == relation :: (n, j)
  }

  lemma {:induction false} CountWithIs(key: KeyOf, dated: string -> bool, n: nat, left: Fact, right: seq<Fact>, relation: Relation)
    ensures CountWith(key, dated, left, right, relation) == |Row(key, dated, n, left, right, relation)|
  {
    hide Relate;
    if right != [] {
      var init, last := right[..|right| - 1], |right| - 1;
      CountWithIs(key, dated, n, left, init, relation);
      var more: set<(nat, nat)> := if Relate(key, dated, left, right[last]) == relation then {(n, last)} else {};
      LastOfRow(key, dated, n, left, right, relation, more);
      hide Row;
    }
  }

  lemma LastOfRow(key: KeyOf, dated: string -> bool, n: nat, left: Fact, right: seq<Fact>, relation: Relation, more: set<(nat, nat)>)
    requires right != []
    requires more == if Relate(key, dated, left, right[|right| - 1]) == relation then {(n, |right| - 1)} else {}
    ensures var before := Row(key, dated, n, left, right[..|right| - 1], relation);
            before !! more && Row(key, dated, n, left, right, relation) == before + more
  {
    hide Relate;
    var init := right[..|right| - 1];
    assert forall j :: 0 <= j < |init| ==> init[j] == right[j];
  }

  /** A count is the number of places where the relation stands. */
  lemma {:induction false} CountPairsIs(key: KeyOf, dated: string -> bool, left: seq<Fact>, right: seq<Fact>, relation: Relation)
    ensures CountPairs(key, dated, left, right, relation) == |Places(key, dated, left, right, relation)|
  {
    hide Relate;
    if left == [] {
      assert Places(key, dated, left, right, relation) == {};
    } else {
      var init, last := left[..|left| - 1], |left| - 1;
      CountPairsIs(key, dated, init, right, relation);
      CountWithIs(key, dated, last, left[last], right, relation);
      var row := Row(key, dated, last, left[last], right, relation);
      LastRowSplits(key, dated, left, right, relation);
      hide Places, Row;
    }
  }

  lemma LastRowSplits(key: KeyOf, dated: string -> bool, left: seq<Fact>, right: seq<Fact>, relation: Relation)
    requires left != []
    ensures var above := Places(key, dated, left[..|left| - 1], right, relation);
            var row := Row(key, dated, |left| - 1, left[|left| - 1], right, relation);
            above !! row && Places(key, dated, left, right, relation) == above + row
  {
    hide Relate;
    var init, last := left[..|left| - 1], |left| - 1;
    assert forall i :: 0 <= i < last ==> init[i] == left[i];
    var above, row := Places(key, dated, init, right, relation), Row(key, dated, last, left[last], right, relation);
    forall i: nat, j: nat ensures (i, j) in Places(key, dated, left, right, relation) <==> (i, j) in above || (i, j) in row {
      if i < last { assert (i, j) !in row; }
    }
  }

  /** The three results share out the pairs that differ. */
  lemma DifferingAddUp(key: KeyOf, dated: string -> bool, left: seq<Fact>, right: seq<Fact>)
    ensures CountPairs(key, dated, left, right, Conflict) + CountPairs(key, dated, left, right, DatedChange) +
            CountPairs(key, dated, left, right, OtherSeller) == |DifferingPlaces(key, left, right)|
  {
    CountPairsIs(key, dated, left, right, Conflict);
    CountPairsIs(key, dated, left, right, DatedChange);
    CountPairsIs(key, dated, left, right, OtherSeller);
    RelatedIsDiffering(key, dated, left, right);
    PlacesApart(key, dated, left, right, Conflict, DatedChange);
    PlacesApart(key, dated, left, right, Conflict, OtherSeller);
    PlacesApart(key, dated, left, right, DatedChange, OtherSeller);
    hide Places, DifferingPlaces;
  }

  lemma RelatedIsDiffering(key: KeyOf, dated: string -> bool, left: seq<Fact>, right: seq<Fact>)
    ensures DifferingPlaces(key, left, right) ==
            Places(key, dated, left, right, Conflict) + Places(key, dated, left, right, DatedChange) +
            Places(key, dated, left, right, OtherSeller)
  {
    hide Relate, Differ;
    forall i: nat, j: nat | i < |left| && j < |right|
      ensures Differ(key, left[i], right[j]) <==> Relate(key, dated, left[i], right[j]) != Unrelated
    {
      DifferingPairsLandOnce(key, dated, left[i], right[j]);
    }
  }

  lemma PlacesApart(key: KeyOf, dated: string -> bool, left: seq<Fact>, right: seq<Fact>, r: Relation, q: Relation)
    requires r != q
    ensures Places(key, dated, left, right, r) !! Places(key, dated, left, right, q)
  {
    hide Relate;
  }

  /**
   * What two differing values are: for a price, of another seller when both links are given and differ, and a dated change when both
   * are of one link and of two different real dates; anything else is a conflict.
   */
  lemma RelateMeans(key: KeyOf, dated: string -> bool, left: Fact, right: Fact)
    ensures var price := Differ(key, left, right) && key(left.attribute) == "price";
            var links := left.link.Some? && right.link.Some?;
            var dates := left.date.Some? && right.date.Some? && dated(left.date.value) && dated(right.date.value) && left.date.value != right.date.value;
            && (Relate(key, dated, left, right) == OtherSeller <==> price && links && left.link.value != right.link.value)
            && (Relate(key, dated, left, right) == DatedChange <==> price && links && left.link.value == right.link.value && dates)
            && (Relate(key, dated, left, right) == Conflict <==>
                Differ(key, left, right) && !(price && links && (left.link.value != right.link.value || dates)))
  {
  }

  lemma RelateSymmetric(key: KeyOf, dated: string -> bool, left: Fact, right: Fact)
    ensures Relate(key, dated, left, right) == Relate(key, dated, right, left)
  {
  }

  /** Each pair that differs in value on one attribute of one candidate lands in exactly one of the three. */
  lemma DifferingPairsLandOnce(key: KeyOf, dated: string -> bool, left: Fact, right: Fact)
    ensures Relate(key, dated, left, right) != Unrelated <==> Differ(key, left, right)
    ensures key(left.attribute) != "price" ==> Relate(key, dated, left, right) in {Unrelated, Conflict}
  {
  }

  lemma {:induction false} CountPairsTotal(key: KeyOf, dated: string -> bool, left: seq<Fact>, right: seq<Fact>)
    ensures CountPairs(key, dated, left, right, Unrelated) + CountPairs(key, dated, left, right, Conflict) +
            CountPairs(key, dated, left, right, DatedChange) + CountPairs(key, dated, left, right, OtherSeller) ==
            |left| * |right|
  {
    if left != [] {
      CountPairsTotal(key, dated, left[..|left| - 1], right);
      CountWithTotal(key, dated, left[|left| - 1], right);
      assert |left| * |right| == (|left| - 1) * |right| + |right|;
    }
  }

  lemma {:induction false} CountWithTotal(key: KeyOf, dated: string -> bool, left: Fact, right: seq<Fact>)
    ensures CountWith(key, dated, left, right, Unrelated) + CountWith(key, dated, left, right, Conflict) +
            CountWith(key, dated, left, right, DatedChange) + CountWith(key, dated, left, right, OtherSeller) == |right|
  {
    if right != [] {
      CountWithTotal(key, dated, left, right[..|right| - 1]);
    }
  }

  /** Counting by rows or by columns gives the same. */
  lemma {:induction false} CountPairsSwaps(key: KeyOf, dated: string -> bool, left: seq<Fact>, right: seq<Fact>, r: Relation)
    ensures CountPairs(key, dated, left, right, r) == CountPairs(key, dated, right, left, r)
  {
    if left == [] {
      NoColumns(key, dated, right, r);
    } else {
      var init, last := left[..|left| - 1], left[|left| - 1];
      CountPairsSwaps(key, dated, init, right, r);
      LastColumn(key, dated, right, left, r);
    }
  }

  lemma {:induction false} NoColumns(key: KeyOf, dated: string -> bool, left: seq<Fact>, r: Relation)
    ensures CountPairs(key, dated, left, [], r) == 0
  {
    if left != [] {
      NoColumns(key, dated, left[..|left| - 1], r);
    }
  }

  lemma {:induction false} LastColumn(key: KeyOf, dated: string -> bool, left: seq<Fact>, right: seq<Fact>, r: Relation)
    requires right != []
    ensures CountPairs(key, dated, left, right, r) ==
            CountPairs(key, dated, left, right[..|right| - 1], r) + CountWith(key, dated, right[|right| - 1], left, r)
  {
    if left != [] {
      LastColumn(key, dated, left[..|left| - 1], right, r);
      RelateSymmetric(key, dated, left[|left| - 1], right[|right| - 1]);
    }
  }

  // ---------------------------------------------------------------- picks

  datatype Picks = Picks(matches: Option<bool>, tieStated: bool, consistent: Option<bool>)

  function Matches(key: KeyOf, a: Answer, b: Answer): Option<bool> {
    if a.pick.Some? && a.pick.value != "" && b.pick.Some? && b.pick.value != "" then
      Some(key(a.pick.value) == key(b.pick.value))
    else None
  }

  /** The answer's tie admits what the other answer says. */
  predicate Tied(key: KeyOf, answer: Answer, other: Answer) {
    answer.tie.Some? &&
    if other.pick.Some? then
      exists i :: 0 <= i < |answer.tie.value.candidates| && key(answer.tie.value.candidates[i]) == key(other.pick.value)
    else
      other.tie.Some? && OverlapOf(key, answer.tie.value.candidates, other.tie.value.candidates).Jaccard() == Some(1.0)
  }

  function ComparePicks(key: KeyOf, a: Answer, b: Answer): Picks {
    var matches := Matches(key, a, b);
    Picks(matches, a.tie.Some? || b.tie.Some?,
          if matches == Some(true) || Tied(key, a, b) || Tied(key, b, a) then Some(true)
          else if matches == Some(false) then Some(false) else None)
  }

  /** The answer's tie names what the other picked, or both ties name the same candidates. */
  predicate Admits(key: KeyOf, answer: Answer, other: Answer) {
    answer.tie.Some? &&
    match other.pick
    case Some(pick) => exists c :: c in answer.tie.value.candidates && key(c) == key(pick)
    case None =>
      other.tie.Some? && answer.tie.value.candidates != [] && Labels(key, answer.tie.value.candidates) == Labels(key, other.tie.value.candidates)
  }

  /** Picks are consistent when they agree or a tie admits the other; inconsistent when two are made, differ and no tie helps. */
  lemma PicksMean(key: KeyOf, a: Answer, b: Answer)
    ensures var picks := ComparePicks(key, a, b);
            var both := a.pick.Some? && a.pick.value != "" && b.pick.Some? && b.pick.value != "";
            var same := both && key(a.pick.value) == key(b.pick.value);
            var admitted := Admits(key, a, b) || Admits(key, b, a);
            && (picks.matches == None <==> !both) && (picks.matches == Some(true) <==> same)
            && (picks.tieStated <==> a.tie.Some? || b.tie.Some?)
            && (picks.consistent == Some(true) <==> same || admitted)
            && (picks.consistent == Some(false) <==> both && !same && !admitted)
            && (picks.consistent == None <==> !both && !admitted)
  {
    AdmitsIff(key, a, b);
    AdmitsIff(key, b, a);
    hide Admits, Tied;
  }

  lemma AdmitsIff(key: KeyOf, answer: Answer, other: Answer)
    ensures Admits(key, answer, other) <==> Tied(key, answer, other)
  {
    if answer.tie.Some? {
      var named := answer.tie.value.candidates;
      if other.pick.Some? {
        if i :| 0 <= i < |named| && key(named[i]) == key(other.pick.value) {
          assert named[i] in named;
        }
      } else if other.tie.Some? {
        FullOverlapIff(key, named, other.tie.value.candidates);
        if named != [] {
          assert key(named[0]) in Labels(key, named);
        }
      }
    }
  }

  lemma ComparePicksSymmetric(key: KeyOf, a: Answer, b: Answer)
    ensures ComparePicks(key, a, b) == ComparePicks(key, b, a)
  {
  }
}
