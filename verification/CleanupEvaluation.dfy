/**
 * The evaluation of a cleanup against its rubric, and the checks before it: only attested removals may
 * separate the baseline from what is there now, so every erroneous removal is one a review made.
 */
module CleanupEvaluation {
  import opened Wrappers
  import opened Permutations
  import opened CleanupReviews

  datatype FactState = FactState(fact: string, version: Option<string>, active: bool, guarded: bool, snapshot: string)
  datatype Expected = Retain | Retire | Observe
  datatype Assertion = Assertion(facts: seq<string>, expected: Expected, guarded: bool)

  /** A value, or the code of the error thrown. */
  datatype Outcome<T> = Done(value: T) | Thrown(code: string)

  const SOURCE_MISSING := "memory_cleanup_fixture_source_missing"
  const PROTECTED_CHANGED := "memory_cleanup_protected_memory_changed"
  const INVENTORY_CHANGED := "memory_cleanup_baseline_inventory_changed"

  /** The rows by fact; of two rows of one fact the later counts. */
  function ByFact(states: seq<FactState>): map<string, FactState> {
    if states == [] then map[] else ByFact(states[..|states| - 1])[states[|states| - 1].fact := states[|states| - 1]]
  }

  lemma {:induction false} ByFactElements(states: seq<FactState>)
    ensures forall id :: id in ByFact(states) ==> ByFact(states)[id] in states && ByFact(states)[id].fact == id
    ensures forall s :: s in states ==> s.fact in ByFact(states)
  {
    if states != [] {
      var init, last := states[..|states| - 1], states[|states| - 1];
      ByFactElements(init);
      assert states == init + [last];
    }
  }

  /** The row kept for a fact is its last. */
  lemma {:induction false} LastRow(states: seq<FactState>, id: string)
    ensures id !in ByFact(states) <==> forall k :: 0 <= k < |states| ==> states[k].fact != id
    ensures id in ByFact(states) ==> exists k: nat :: LastOf(states, id, k) && ByFact(states)[id] == states[k]
  {
    if states != [] {
      var init := states[..|states| - 1];
      LastRow(init, id);
      if states[|init|].fact == id {
        assert LastOf(states, id, |init|);
      } else if id in ByFact(init) {
        var k: nat :| LastOf(init, id, k) && ByFact(init)[id] == init[k];
        LastStays(states, id, k);
      }
    }
  }

  /** Row `k` is the last of its fact. */
  predicate LastOf(states: seq<FactState>, id: string, k: nat) {
    k < |states| && states[k].fact == id && forall l :: k < l < |states| ==> states[l].fact != id
  }

  lemma LastStays(states: seq<FactState>, id: string, k: nat)
    requires states != [] && states[|states| - 1].fact != id && LastOf(states[..|states| - 1], id, k)
    ensures LastOf(states, id, k) && states[k] == states[..|states| - 1][k]
  {
    forall l | k < l < |states| ensures states[l].fact != id {
      assert l < |states| - 1 ==> states[..|states| - 1][l] == states[l];
    }
  }

  // ---------------------------------------------------------------- ownership

  predicate OwnedItem(now: map<string, FactState>, id: string, guarded: bool) {
    id in now && now[id].active && now[id].guarded == guarded
  }

  predicate OwnedAll(now: map<string, FactState>, a: Assertion) {
    forall k :: 0 <= k < |a.facts| ==> OwnedItem(now, a.facts[k], a.guarded)
  }

  method AssertOwnership(fixture: seq<Assertion>, states: seq<FactState>) returns (r: Outcome<()>)
    ensures r.Done? <==> forall i :: 0 <= i < |fixture| ==> OwnedAll(ByFact(states), fixture[i])
    ensures r.Done? <==>
            forall i, k :: 0 <= i < |fixture| && 0 <= k < |fixture[i].facts| ==>
              fixture[i].facts[k] in ByFact(states) && ByFact(states)[fixture[i].facts[k]].active &&
              ByFact(states)[fixture[i].facts[k]].guarded == fixture[i].guarded
    ensures r.Thrown? ==> r.code == "memory_cleanup_fixture_owner_or_protection_mismatch"
  {
    var now := ByFact(states);
    for i := 0 to |fixture|
      invariant forall k :: 0 <= k < i ==> OwnedAll(now, fixture[k])
    {
      for k := 0 to |fixture[i].facts|
        invariant forall l :: 0 <= l < k ==> OwnedItem(now, fixture[i].facts[l], fixture[i].guarded)
      {
        if !OwnedItem(now, fixture[i].facts[k], fixture[i].guarded) {
          assert !OwnedAll(now, fixture[i]);
          return Thrown("memory_cleanup_fixture_owner_or_protection_mismatch");
        }
      }
    }
    return Done(());
  }

  // ---------------------------------------------------------------- continuation

  /** Why a row of the baseline stops the continuation, if it does. A row without its fact breaks the check itself. */
  function Complaint(now: map<string, FactState>, removed: set<string>, was: FactState): Option<string> {
    if was.fact !in now then
      if was.guarded || was.active then Some("type_error") else None
    else
      var item := now[was.fact];
      if was.guarded && item.snapshot != was.snapshot then Some(PROTECTED_CHANGED)
      else if was.active && !item.active && was.fact !in removed then Some("memory_cleanup_unattested_prior_removal")
      else if was.active && item.active && was.version != item.version then Some("memory_cleanup_baseline_version_changed")
      else None
  }

  /** When a row has a complaint and, if its fact is still there, which. */
  lemma ComplaintMeans(now: map<string, FactState>, removed: set<string>, was: FactState)
    ensures was.fact !in now ==> (Complaint(now, removed, was) == None <==> !was.guarded && !was.active)
    ensures was.fact in now ==>
            var item, complaint := now[was.fact], Complaint(now, removed, was);
            var changed := was.guarded && item.snapshot != was.snapshot;
            && (complaint == Some("memory_cleanup_protected_memory_changed") <==> changed)
            && (complaint == Some("memory_cleanup_unattested_prior_removal") <==> !changed && was.active && !item.active && was.fact !in removed)
            && (complaint == Some("memory_cleanup_baseline_version_changed") <==>
                !changed && was.active && item.active && was.version != item.version)
            && (complaint == None <==>
                !changed && (was.active ==> if item.active then was.version == item.version else was.fact in removed))
  {
    assert |"memory_cleanup_protected_memory_changed"| == 39 && |"memory_cleanup_unattested_prior_removal"| == 39;
    assert "memory_cleanup_protected_memory_changed"[15] == 'p' && "memory_cleanup_unattested_prior_removal"[15] == 'u' &&
      "memory_cleanup_baseline_version_changed"[15] == 'b';
  }

  /** The current rows are as many as those of the baseline, and each is of one of its facts. */
  predicate SameInventory(before: seq<FactState>, current: seq<FactState>) {
    |before| == |current| && forall i :: 0 <= i < |current| ==> exists k :: 0 <= k < |before| && before[k].fact == current[i].fact
  }

  method AssertContinuation(before: seq<FactState>, current: seq<FactState>, removed: set<string>) returns (r: Outcome<()>)
    ensures r.Done? <==> SameInventory(before, current) && forall was :: was in before ==> Complaint(ByFact(current), removed, was) == None
    ensures |before| != |current| || (exists i :: 0 <= i < |current| && forall k :: 0 <= k < |before| ==> before[k].fact != current[i].fact) ==>
              r == Thrown("memory_cleanup_baseline_inventory_changed")
    ensures !SameInventory(before, current) ==> r == Thrown("memory_cleanup_baseline_inventory_changed")
    ensures r.Thrown? && SameInventory(before, current) ==>
              exists i :: 0 <= i < |before| && Complaint(ByFact(current), removed, before[i]) == Some(r.code) &&
                forall k :: 0 <= k < i ==> Complaint(ByFact(current), removed, before[k]) == None
  {
    var now := ByFact(current);
    if !SameInventory(before, current) {
      return Thrown(INVENTORY_CHANGED);
    }
    for i := 0 to |before|
      invariant forall k :: 0 <= k < i ==> Complaint(now, removed, before[k]) == None
    {
      var complaint := Complaint(now, removed, before[i]);
      if complaint.Some? {
        assert before[i] in before;
        return Thrown(complaint.value);
      }
    }
    return Done(());
  }

  // ---------------------------------------------------------------- evaluation

  datatype Item = Item(id: string, expected: Expected, guarded: bool)

  datatype Evaluation = Evaluation(checked: nat, passed: nat, guarded: nat, retained: nat, retired: nat, erroneous: nat, remaining: nat)

  function ItemsOf(a: Assertion): seq<Item> {
    seq(|a.facts|, k requires 0 <= k < |a.facts| => Item(a.facts[k], a.expected, a.guarded))
  }

  function Items(fixture: seq<Assertion>): seq<Item> {
    if fixture == [] then [] else Items(fixture[..|fixture| - 1]) + ItemsOf(fixture[|fixture| - 1])
  }

  /** The baseline, what is there now, and which facts count, if not all. */
  datatype Sides = Sides(before: map<string, FactState>, now: map<string, FactState>, reviewed: Option<set<string>>)

  predicate Visited(e: Sides, i: Item) {
    e.reviewed == None || i.id in e.reviewed.value || i.guarded
  }

  predicate ActiveIn(states: map<string, FactState>, id: string) {
    id in states && states[id].active
  }

  /** What the item expects is the case. */
  predicate Meets(e: Sides, i: Item) {
    match i.expected
    case Retain => ActiveIn(e.now, i.id) && i.id in e.before && e.now[i.id].version == e.before[i.id].version
    case Retire => !ActiveIn(e.now, i.id)
    case Observe => true
  }

  predicate Retained(e: Sides, i: Item) { Visited(e, i) && ActiveIn(e.now, i.id) }
  predicate Retired(e: Sides, i: Item) { Visited(e, i) && !ActiveIn(e.now, i.id) }
  predicate Checked(e: Sides, i: Item) { Visited(e, i) && i.expected != Observe }
  predicate ItemPassed(e: Sides, i: Item) { Checked(e, i) && Meets(e, i) }
  predicate Erroneous(e: Sides, i: Item) { Visited(e, i) && i.expected == Retain && !Meets(e, i) }
  predicate Remaining(e: Sides, i: Item) { Visited(e, i) && i.expected == Retire && ActiveIn(e.now, i.id) }

  function Count(p: (Sides, Item) -> bool, e: Sides, items: seq<Item>): nat {
    |Filter((i: Item) => p(e, i), items)|
  }

  function Guarded(before: seq<FactState>): seq<FactState> {
    Filter((s: FactState) => s.guarded, before)
  }

  /** The counts over all items of the rubric. */
  function CountsOf(e: Sides, guarded: nat, items: seq<Item>): Evaluation {
    Evaluation(Count(Checked, e, items), Count(ItemPassed, e, items), guarded, Count(Retained, e, items), Count(Retired, e, items),
               Count(Erroneous, e, items), Count(Remaining, e, items))
  }

  predicate Sourced(e: Sides, i: Item) {
    Visited(e, i) ==> ActiveIn(e.before, i.id)
  }

  predicate GuardedKept(now: map<string, FactState>, s: FactState) {
    s.guarded ==> s.fact in now && now[s.fact].snapshot == s.snapshot
  }

  lemma CountNext(p: (Sides, Item) -> bool, e: Sides, items: seq<Item>, i: Item)
    ensures Count(p, e, items + [i]) == if p(e, i) then Count(p, e, items) + 1 else Count(p, e, items)
  {
    assert (items + [i])[..|items|] == items;
  }

  function Bumped(b: bool, n: nat): nat {
    if b then n + 1 else n
  }

  /** The counts with one more item. */
  function WithItem(e: Sides, c: Evaluation, i: Item): Evaluation {
    Evaluation(Bumped(Checked(e, i), c.checked), Bumped(ItemPassed(e, i), c.passed), c.guarded,
               Bumped(Retained(e, i), c.retained), Bumped(Retired(e, i), c.retired),
               Bumped(Erroneous(e, i), c.erroneous), Bumped(Remaining(e, i), c.remaining))
  }

  lemma CountsNext(e: Sides, guarded: nat, items: seq<Item>, i: Item)
    ensures CountsOf(e, guarded, items + [i]) == WithItem(e, CountsOf(e, guarded, items), i)
  {
    CountNext(Checked, e, items, i);
    CountNext(ItemPassed, e, items, i);
    CountNext(Retained, e, items, i);
    CountNext(Retired, e, items, i);
    CountNext(Erroneous, e, items, i);
    CountNext(Remaining, e, items, i);
  }

  method VisitItem(e: Sides, c: Evaluation, i: Item) returns (r: Outcome<Evaluation>)
    ensures r == if Sourced(e, i) then Done(WithItem(e, c, i)) else Thrown(SOURCE_MISSING)
  {
    if e.reviewed.Some? && i.id !in e.reviewed.value && !i.guarded { return Done(c); }
    if !(i.id in e.before && e.before[i.id].active) { return Thrown(SOURCE_MISSING); }
    var active := i.id in e.now && e.now[i.id].active;
    var d := if active then c.(retained := c.retained + 1) else c.(retired := c.retired + 1);
    if i.expected == Observe { return Done(d); }
    d := d.(checked := d.checked + 1);
    var good := if i.expected == Retain then active && e.now[i.id].version == e.before[i.id].version else !active;
    if good { d := d.(passed := d.passed + 1); }
    else if i.expected == Retain { d := d.(erroneous := d.erroneous + 1); }
    else { d := d.(remaining := d.remaining + 1); }
    return Done(d);
  }

  predicate AllSourced(e: Sides, items: seq<Item>) {
    forall k :: 0 <= k < |items| ==> Sourced(e, items[k])
  }

  predicate AllKept(now: map<string, FactState>, before: seq<FactState>) {
    forall k :: 0 <= k < |before| ==> GuardedKept(now, before[k])
  }

  /** One assertion's items, after those of the assertions before it. */
  method VisitAssertion(e: Sides, c: Evaluation, guarded: nat, a: Assertion, ghost done: seq<Item>) returns (r: Outcome<Evaluation>)
    requires c == CountsOf(e, guarded, done)
    ensures r == if AllSourced(e, ItemsOf(a)) then Done(CountsOf(e, guarded, done + ItemsOf(a))) else Thrown(SOURCE_MISSING)
  {
    hide CountsOf, WithItem, Sourced;
    var items := ItemsOf(a);
    var d := c;
    assert done + items[..0] == done;
    for k := 0 to |items|
      invariant AllSourced(e, items[..k])
      invariant d == CountsOf(e, guarded, done + items[..k])
    {
      var visited := VisitItem(e, d, items[k]);
      if visited.Thrown? { return visited; }
      CountsNext(e, guarded, done + items[..k], items[k]);
      assert done + items[..k] + [items[k]] == done + items[..k + 1];
      d := visited.value;
    }
    assert items[..|items|] == items;
    return Done(d);
  }

  method VisitAll(e: Sides, guarded: nat, fixture: seq<Assertion>) returns (r: Outcome<Evaluation>)
    ensures r == if AllSourced(e, Items(fixture)) then Done(CountsOf(e, guarded, Items(fixture))) else Thrown(SOURCE_MISSING)
  {
    var d := Evaluation(0, 0, guarded, 0, 0, 0, 0);
    for k := 0 to |fixture|
      invariant AllSourced(e, Items(fixture[..k]))
      invariant d == CountsOf(e, guarded, Items(fixture[..k]))
    {
      ItemsNext(fixture, k);
      var visited := VisitAssertion(e, d, guarded, fixture[k], Items(fixture[..k]));
      if visited.Thrown? {
        ItemsMissing(e, fixture, k);
        return visited;
      }
      d := visited.value;
    }
    assert fixture[..|fixture|] == fixture;
    return Done(d);
  }

  lemma ItemsNext(fixture: seq<Assertion>, k: nat)
    requires k < |fixture|
    ensures Items(fixture[..k + 1]) == Items(fixture[..k]) + ItemsOf(fixture[k])
  {
    assert fixture[..k + 1][..k] == fixture[..k];
  }

  lemma {:induction false} ItemsElements(fixture: seq<Assertion>)
    ensures forall i :: i in Items(fixture) <==> exists a, k :: a in fixture && 0 <= k < |a.facts| && i == Item(a.facts[k], a.expected, a.guarded)
  {
    if fixture != [] {
      var init, last := fixture[..|fixture| - 1], fixture[|fixture| - 1];
      ItemsElements(init);
      assert fixture == init + [last];
      forall i ensures i in Items(fixture) <==> exists a, k :: a in fixture && 0 <= k < |a.facts| && i == Item(a.facts[k], a.expected, a.guarded) {
        if i in Items(init) {
          var a, k :| a in init && 0 <= k < |a.facts| && i == Item(a.facts[k], a.expected, a.guarded);
          assert a in fixture;
        }
        if i in ItemsOf(last) {
          var k :| 0 <= k < |last.facts| && ItemsOf(last)[k] == i;
          assert last in fixture;
        }
        if a, k :| a in fixture && 0 <= k < |a.facts| && i == Item(a.facts[k], a.expected, a.guarded) {
          if a == last {
            assert ItemsOf(last)[k] == i;
          } else {
            assert a in init;
          }
        }
      }
    }
  }

  lemma ItemsMissing(e: Sides, fixture: seq<Assertion>, k: nat)
    requires k < |fixture| && !AllSourced(e, ItemsOf(fixture[k]))
    ensures !AllSourced(e, Items(fixture))
  {
    var items := ItemsOf(fixture[k]);
    var j :| 0 <= j < |items| && !Sourced(e, items[j]);
    ItemsElements(fixture);
    assert fixture[k] in fixture;
    assert items[j] in Items(fixture);
  }

  method CountGuarded(now: map<string, FactState>, before: seq<FactState>) returns (r: Outcome<nat>)
    ensures r == if AllKept(now, before) then Done(|Guarded(before)|) else Thrown(PROTECTED_CHANGED)
  {
    var count := 0;
    for k := 0 to |before|
      invariant AllKept(now, before[..k]) && count == |Guarded(before[..k])|
    {
      assert before[..k + 1][..k] == before[..k];
      if before[k].guarded {
        count := count + 1;
        if before[k].fact !in now || now[before[k].fact].snapshot != before[k].snapshot {
          return Thrown(PROTECTED_CHANGED);
        }
      }
    }
    assert before[..|before|] == before;
    return Done(count);
  }

  /** A changed protected row comes before everything else; then every visited fact must have been active. */
  function Evaluated(fixture: seq<Assertion>, before: seq<FactState>, after: seq<FactState>, reviewed: Option<set<string>>): Outcome<Evaluation> {
    var e := Sides(ByFact(before), ByFact(after), reviewed);
    if !AllKept(ByFact(after), before) then Thrown(PROTECTED_CHANGED)
    else if !AllSourced(e, Items(fixture)) then Thrown(SOURCE_MISSING)
    else Done(CountsOf(e, |Guarded(before)|, Items(fixture)))
  }

  method Evaluate(fixture: seq<Assertion>, before: seq<FactState>, after: seq<FactState>, reviewed: Option<set<string>>)
    returns (r: Outcome<Evaluation>)
    ensures r == Evaluated(fixture, before, after, reviewed)
  {
    var e := Sides(ByFact(before), ByFact(after), reviewed);
    var guarded := CountGuarded(e.now, before);
    if guarded.Thrown? { return Thrown(guarded.code); }
    r := VisitAll(e, guarded.value, fixture);
  }

  // ---------------------------------------------------------------- the counts

  /** The fact is to be looked at: no selection is given, or it names it, or the rubric protects it. */
  predicate Looked(e: Sides, i: Item) {
    e.reviewed.Some? ==> i.id in e.reviewed.value || i.guarded
  }

  predicate Here(e: Sides, i: Item) {
    i.id in e.now && e.now[i.id].active
  }

  predicate SameVersion(e: Sides, i: Item) {
    i.id in e.now && i.id in e.before && e.now[i.id].version == e.before[i.id].version
  }

  /** A protected row of the baseline is gone, or reads differently. */
  predicate ProtectedChanged(now: map<string, FactState>, before: seq<FactState>) {
    exists k :: 0 <= k < |before| && before[k].guarded && (before[k].fact in now ==> now[before[k].fact].snapshot != before[k].snapshot)
  }

  /** A fact of the rubric that is looked at was not active. */
  ghost predicate SourceMissing(e: Sides, fixture: seq<Assertion>) {
    exists a, k :: a in fixture && 0 <= k < |a.facts| && Unsourced(e, a, k)
  }

  predicate Unsourced(e: Sides, a: Assertion, k: nat)
    requires k < |a.facts|
  {
    (e.reviewed.Some? ==> a.facts[k] in e.reviewed.value || a.guarded) && (a.facts[k] in e.before ==> !e.before[a.facts[k]].active)
  }

  /** What an evaluation throws, if it does: a changed protected row first, then a fact that was not active. */
  lemma EvaluatedMeans(fixture: seq<Assertion>, before: seq<FactState>, after: seq<FactState>, reviewed: Option<set<string>>)
    ensures var r, e := Evaluated(fixture, before, after, reviewed), Sides(ByFact(before), ByFact(after), reviewed);
            if ProtectedChanged(e.now, before) then r == Thrown("memory_cleanup_protected_memory_changed")
            else if SourceMissing(e, fixture) then r == Thrown("memory_cleanup_fixture_source_missing")
            else r == Done(CountsOf(e, |Places(before, (s: FactState) => s.guarded)|, Items(fixture)))
  {
    var e := Sides(ByFact(before), ByFact(after), reviewed);
    FilterCount((s: FactState) => s.guarded, before);
    assert AllKept(e.now, before) <==> !ProtectedChanged(e.now, before);
    SourcedIff(e, fixture);
    hide AllKept, AllSourced, SourceMissing, ProtectedChanged, CountsOf, Items, ByFact;
  }

  lemma SourcedIff(e: Sides, fixture: seq<Assertion>)
    ensures AllSourced(e, Items(fixture)) <==> !SourceMissing(e, fixture)
  {
    ItemsElements(fixture);
    if SourceMissing(e, fixture) {
      var a, k :| a in fixture && 0 <= k < |a.facts| && Unsourced(e, a, k);
      assert Item(a.facts[k], a.expected, a.guarded) in Items(fixture);
    }
    if !AllSourced(e, Items(fixture)) {
      var n :| 0 <= n < |Items(fixture)| && !Sourced(e, Items(fixture)[n]);
      assert Items(fixture)[n] in Items(fixture);
      var a, k :| a in fixture && 0 <= k < |a.facts| && Items(fixture)[n] == Item(a.facts[k], a.expected, a.guarded);
      assert Unsourced(e, a, k);
    }
  }

  /** Each count of an evaluation, as the number of the rubric's items of its kind. */
  lemma EvaluationMeans(e: Sides, guarded: nat, items: seq<Item>)
    ensures var c := CountsOf(e, guarded, items);
            && c.checked == |Places(items, (i: Item) => Looked(e, i) && i.expected != Observe)|
            && c.passed == |Places(items, (i: Item) => Looked(e, i) && ((i.expected == Retain && Here(e, i) && SameVersion(e, i)) || (i.expected == Retire && !Here(e, i))))|
            && c.retained == |Places(items, (i: Item) => Looked(e, i) && Here(e, i))|
            && c.retired == |Places(items, (i: Item) => Looked(e, i) && !Here(e, i))|
            && c.erroneous == |Places(items, (i: Item) => Looked(e, i) && i.expected == Retain && !(Here(e, i) && SameVersion(e, i)))|
            && c.remaining == |Places(items, (i: Item) => Looked(e, i) && i.expected == Retire && Here(e, i))|
  {
    KindIs(Checked, e, items, (i: Item) => Looked(e, i) && i.expected != Observe);
    KindIs(ItemPassed, e, items, (i: Item) => Looked(e, i) && ((i.expected == Retain && Here(e, i) && SameVersion(e, i)) || (i.expected == Retire && !Here(e, i))));
    KindIs(Retained, e, items, (i: Item) => Looked(e, i) && Here(e, i));
    KindIs(Retired, e, items, (i: Item) => Looked(e, i) && !Here(e, i));
    KindIs(Erroneous, e, items, (i: Item) => Looked(e, i) && i.expected == Retain && !(Here(e, i) && SameVersion(e, i)));
    KindIs(Remaining, e, items, (i: Item) => Looked(e, i) && i.expected == Retire && Here(e, i));
  }

  lemma KindIs(p: (Sides, Item) -> bool, e: Sides, items: seq<Item>, kind: Item -> bool)
    requires forall i :: kind(i) <==> p(e, i)
    ensures Count(p, e, items) == |Places(items, kind)|
  {
    FilterCount((i: Item) => p(e, i), items);
    assert Places(items, (i: Item) => p(e, i)) == Places(items, kind);
  }

  /** Every checked item passed, was erroneously removed, or remains to be retired; every visited one was retained or retired. */
  lemma {:induction false} CountsAddUp(e: Sides, guarded: nat, items: seq<Item>)
    ensures var c := CountsOf(e, guarded, items);
            c.checked == c.passed + c.erroneous + c.remaining && c.retained + c.retired == Count(Visited, e, items)
  {
    if items != [] {
      var init, last := items[..|items| - 1], items[|items| - 1];
      CountsAddUp(e, guarded, init);
      assert items == init + [last];
      CountsNext(e, guarded, init, last);
      CountNext(Visited, e, init, last);
    }
  }

  lemma CountZero(p: (Sides, Item) -> bool, e: Sides, items: seq<Item>)
    ensures Count(p, e, items) == 0 <==> forall i :: i in items ==> !p(e, i)
  {
    var keep := (i: Item) => p(e, i);
    FilterElements(keep, items);
    if Count(p, e, items) > 0 {
      assert Filter(keep, items)[0] in items;
    }
  }

  // ---------------------------------------------------------------- the chain

  /** The checks before an evaluation against the baseline passed. */
  ghost predicate Admitted(fixture: seq<Assertion>, before: seq<FactState>, current: seq<FactState>, removed: set<string>) {
    (forall i :: 0 <= i < |fixture| ==> OwnedAll(ByFact(before), fixture[i])) &&
    SameInventory(before, current) && forall was :: was in before ==> Complaint(ByFact(current), removed, was) == None
  }

  lemma ItemsOwned(fixture: seq<Assertion>, states: map<string, FactState>)
    requires forall i :: 0 <= i < |fixture| ==> OwnedAll(states, fixture[i])
    ensures forall i :: i in Items(fixture) ==> OwnedItem(states, i.id, i.guarded)
  {
    ItemsElements(fixture);
    forall i | i in Items(fixture) ensures OwnedItem(states, i.id, i.guarded) {
      var a, k :| a in fixture && 0 <= k < |a.facts| && i == Item(a.facts[k], a.expected, a.guarded);
      var n :| 0 <= n < |fixture| && fixture[n] == a;
      assert OwnedAll(states, fixture[n]);
    }
  }

  /** After the checks an evaluation against the baseline always completes. */
  lemma AdmittedEvaluates(fixture: seq<Assertion>, before: seq<FactState>, current: seq<FactState>, removed: set<string>,
                                             reviewed: Option<set<string>>)
    requires Admitted(fixture, before, current, removed)
    ensures Evaluated(fixture, before, current, reviewed).Done?
  {
    ItemsOwned(fixture, ByFact(before));
    forall k | 0 <= k < |before| ensures GuardedKept(ByFact(current), before[k]) {
      assert before[k] in before;
      assert Complaint(ByFact(current), removed, before[k]) == None;
    }
    forall k | 0 <= k < |Items(fixture)| ensures Sourced(Sides(ByFact(before), ByFact(current), reviewed), Items(fixture)[k]) {
      assert Items(fixture)[k] in Items(fixture);
    }
  }

  /** What became of a fact of the rubric: it still has its version, or it is gone and its removal was attested. */
  lemma KeptOrAttested(fixture: seq<Assertion>, before: seq<FactState>, current: seq<FactState>, removed: set<string>, i: Item)
    requires Admitted(fixture, before, current, removed) && i in Items(fixture)
    ensures var was, now := ByFact(before), ByFact(current);
            i.id in was && i.id in now && (if now[i.id].active then now[i.id].version == was[i.id].version else i.id in removed)
  {
    ItemsOwned(fixture, ByFact(before));
    ByFactElements(before);
    var was := ByFact(before)[i.id];
    assert was in before && Complaint(ByFact(current), removed, was) == None;
  }

  /**
   * Every erroneous removal the evaluation counts is a fact that some review removed, under a supported policy and in a
   * job that succeeded.
   */
  lemma ErroneousRemovalsAreAttested(q: Input, reviews: seq<Review>, fixture: seq<Assertion>, before: seq<FactState>,
                                                        current: seq<FactState>, reviewed: Option<set<string>>, i: Item)
    requires Admitted(fixture, before, current, Summarized(q, reviews).removed) && i in Items(fixture)
    requires Erroneous(Sides(ByFact(before), ByFact(current), reviewed), i)
    ensures !ActiveIn(ByFact(current), i.id) && exists r :: r in reviews && RemovedBy(q, r, i.id)
  {
    KeptOrAttested(fixture, before, current, Summarized(q, reviews).removed, i);
    RemovedIsAttested(q, reviews, i.id);
  }

  /** Without an attested removal of a fact to be retained the count is zero, and only then. */
  lemma NoErroneousRemovalsIff(q: Input, reviews: seq<Review>, fixture: seq<Assertion>, before: seq<FactState>,
                                                  current: seq<FactState>, reviewed: Option<set<string>>)
    requires Admitted(fixture, before, current, Summarized(q, reviews).removed)
    ensures var e := Sides(ByFact(before), ByFact(current), reviewed);
            Count(Erroneous, e, Items(fixture)) == 0 <==>
            forall i :: i in Items(fixture) && Visited(e, i) && i.expected == Retain && i.id in Summarized(q, reviews).removed ==>
              ActiveIn(ByFact(current), i.id)
  {
    var e := Sides(ByFact(before), ByFact(current), reviewed);
    CountZero(Erroneous, e, Items(fixture));
    forall i | i in Items(fixture) ensures Erroneous(e, i) <==> Visited(e, i) && i.expected == Retain && i.id in Summarized(q, reviews).removed && !ActiveIn(ByFact(current), i.id) {
      KeptOrAttested(fixture, before, current, Summarized(q, reviews).removed, i);
    }
  }

  /** The snapshot of a row decides whether it is active and which version it has. */
  ghost predicate SnapshotsDecide(before: seq<FactState>, current: seq<FactState>) {
    forall x, y :: x in before && y in current && x.fact == y.fact && x.snapshot == y.snapshot ==>
      x.active == y.active && x.version == y.version
  }

  /** A protected fact of the rubric always passes; the rubric expects it retained. */
  lemma ProtectedAlwaysPass(fixture: seq<Assertion>, before: seq<FactState>, current: seq<FactState>, removed: set<string>,
                                               reviewed: Option<set<string>>, i: Item)
    requires Admitted(fixture, before, current, removed) && SnapshotsDecide(before, current)
    requires i in Items(fixture) && i.guarded && i.expected == Retain
    ensures ItemPassed(Sides(ByFact(before), ByFact(current), reviewed), i)
  {
    ItemsOwned(fixture, ByFact(before));
    ByFactElements(before);
    ByFactElements(current);
    var was := ByFact(before)[i.id];
    assert was in before && Complaint(ByFact(current), removed, was) == None;
    KeptOrAttested(fixture, before, current, removed, i);
    assert ByFact(current)[i.id] in current;
  }
}
