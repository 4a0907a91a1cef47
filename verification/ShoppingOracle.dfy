/** The shopping scenario's oracle: a verdict without failures, and what it says about the shortlist, the choice and the cart. */
module ShoppingOracle {
  import opened Wrappers
  import opened JsText
  import opened Permutations
  import opened ShoppingCart

  datatype Category = Juice | Yogurt | FrozenPizza | Coffee | Cereal

  const CATEGORIES: seq<Category> := [Juice, Yogurt, FrozenPizza, Coffee, Cereal]

  /** A candidate's fields, each as its reader understands it, or nothing. */
  datatype Candidate = Candidate(name: Option<string>, price: Option<real>, rating: Option<real>, reviews: Option<nat>, key: Option<string>)

  /** One category's part of the result: its candidates, and the choice by product page, with or without a reason. */
  datatype Group = Group(category: Option<Category>, candidates: seq<Candidate>, pick: Option<string>, reasoned: bool)

  datatype Quantity = Number(n: real) | Text(s: string) | Other
  datatype CartLine = CartLine(shown: Line, quantity: Quantity, total: Option<real>)
  datatype Shopping = Shopping(groups: seq<Group>, lines: seq<CartLine>, subtotal: Option<real>, blocked: seq<string>)

  datatype Failure = CategoryMissing(c: Category) | CategoryRepeated(c: Category) | FewCandidates(c: Category) |
                     ChosenNotCandidate(c: Category) | ReasonMissing(c: Category) | FewProducts | ChosenRepeated | LinesNotFive |
                     LineMismatch | QuantityNotOne | LinePriceInvalid | SubtotalInvalid | SubtotalMismatch | BlockedReported

  // ---------------------------------------------------------------- the shortlist of a category

  predicate Valid(c: Candidate) {
    c.name.Some? && c.price.Some? && c.rating.Some? && c.reviews.Some? && c.key.Some?
  }

  function Entries(s: Shopping, c: Category): seq<Group> {
    Filter((g: Group) => g.category == Some(c), s.groups)
  }

  function ValidOnes(g: Group): seq<Candidate> {
    Filter((c: Candidate) => Valid(c), g.candidates)
  }

  function Keys(g: Group): set<string> {
    set i | 0 <= i < |g.candidates| && Valid(g.candidates[i]) :: g.candidates[i].key.value
  }

  function WithKey(candidates: seq<Candidate>, key: string): Option<Candidate> {
    if candidates == [] then None else if candidates[0].key == Some(key) then Some(candidates[0]) else WithKey(candidates[1..], key)
  }

  /** The candidate the choice names, if it is a valid one. */
  function Named(g: Group): Option<Candidate> {
    if g.pick.Some? then WithKey(ValidOnes(g), g.pick.value) else None
  }

  function Picked(g: Group): Option<Product> {
    var named := Named(g);
    if g.pick.Some? && named.Some? && named.value.name.Some? && g.reasoned then Some(Product(g.pick.value, named.value.name.value)) else None
  }

  function ShortlistFailures(s: Shopping, c: Category): seq<Failure> {
    var entries := Entries(s, c);
    if entries == [] then [CategoryMissing(c)]
    else
      var g := entries[0];
      (if |entries| > 1 then [CategoryRepeated(c)] else []) +
      (if |Keys(g)| < 3 then [FewCandidates(c)] else []) +
      if Named(g).None? then [ChosenNotCandidate(c)] else if !g.reasoned then [ReasonMissing(c)] else []
  }

  function ChosenIn(s: Shopping, c: Category): seq<Product> {
    var entries := Entries(s, c);
    if entries != [] && Picked(entries[0]).Some? then [Picked(entries[0]).value] else []
  }

  function KeysIn(s: Shopping, c: Category): set<string> {
    if Entries(s, c) == [] then {} else Keys(Entries(s, c)[0])
  }

  function AllShortlistFailures(s: Shopping, categories: seq<Category>): seq<Failure> {
    FlatMap((c: Category) => ShortlistFailures(s, c), categories)
  }

  function Chosen(s: Shopping, categories: seq<Category>): seq<Product> {
    FlatMap((c: Category) => ChosenIn(s, c), categories)
  }

  function Products(s: Shopping, categories: seq<Category>): set<string> {
    if categories == [] then {} else Products(s, categories[..|categories| - 1]) + KeysIn(s, categories[|categories| - 1])
  }

  lemma {:induction false} WithKeyElement(candidates: seq<Candidate>, key: string)
    ensures var found := WithKey(candidates, key);
            if found.Some? then found.value in candidates && found.value.key == Some(key)
            else forall c :: c in candidates ==> c.key != Some(key)
  {
    if candidates != [] {
      WithKeyElement(candidates[1..], key);
    }
  }

  /** The choice is a valid candidate of its category, by page and by name, with a reason. */
  lemma PickIsCandidate(g: Group)
    ensures Picked(g).Some? <==> Named(g).Some? && g.reasoned
    ensures Picked(g).Some? ==>
              exists c :: c in g.candidates && Valid(c) && c.key == Some(Picked(g).value.key) && c.name == Some(Picked(g).value.name)
    ensures Picked(g).Some? ==> Picked(g).value.key in Keys(g)
  {
    FilterElements((c: Candidate) => Valid(c), g.candidates);
    if g.pick.Some? {
      WithKeyElement(ValidOnes(g), g.pick.value);
      if Named(g).Some? {
        var i :| 0 <= i < |g.candidates| && g.candidates[i] == Named(g).value;
        assert Valid(g.candidates[i]);
      }
    }
  }

  /** A shortlist without failures: the category appears once, with three products or more, and a reasoned choice among them. */
  ghost predicate ShortlistGood(s: Shopping, c: Category) {
    |Entries(s, c)| == 1 && |Keys(Entries(s, c)[0])| >= 3 && Picked(Entries(s, c)[0]).Some?
  }

  lemma ShortlistIff(s: Shopping, c: Category)
    ensures ShortlistFailures(s, c) == [] <==> ShortlistGood(s, c)
    ensures ShortlistGood(s, c) ==> |ChosenIn(s, c)| == 1
  {
    if Entries(s, c) != [] {
      PickIsCandidate(Entries(s, c)[0]);
    }
  }

  // ---------------------------------------------------------------- the cart

  predicate QuantityOne(q: Quantity) {
    match q
    case Number(n) => n == 1.0
    case Text(t) => Trim(t) == "1"
    case Other => false
  }

  /** One, or a text of which white space leaves the digit one. */
  lemma QuantityOneIff(q: Quantity)
    ensures QuantityOne(q) <==>
            q == Number(1.0) ||
            (q.Text? && exists i :: 0 <= i < |q.s| && q.s[i] == '1' && forall j :: 0 <= j < |q.s| && j != i ==> IsSpace(q.s[j]))
  {
    if q.Text? {
      var left, right := TrimIs(q.s);
      DigitIsText();
      if Trim(q.s) == "1" {
        assert q.s[|left|] == '1';
      }
      if i :| 0 <= i < |q.s| && q.s[i] == '1' && forall j :: 0 <= j < |q.s| && j != i ==> IsSpace(q.s[j]) {
        OneLeft(q.s, i, left, Trim(q.s), right);
      }
    }
  }

  lemma DigitIsText()
    ensures !IsSpace('1')
  {
  }

  lemma OneLeft(s: string, i: nat, left: string, core: string, right: string)
    requires s == left + core + right && i < |s| && s[i] == '1' && forall j :: 0 <= j < |s| && j != i ==> IsSpace(s[j])
    requires (forall k :: 0 <= k < |left| ==> IsSpace(left[k])) && (forall k :: 0 <= k < |right| ==> IsSpace(right[k]))
    requires core != "" ==> !IsSpace(core[0]) && !IsSpace(core[|core| - 1])
    ensures core == "1"
  {
    DigitIsText();
    hide IsSpace;
    assert forall k :: 0 <= k < |left| ==> s[k] == left[k];
    assert forall k :: 0 <= k < |core| ==> s[|left| + k] == core[k];
    assert forall k :: 0 <= k < |right| ==> s[|left| + |core| + k] == right[k];
    assert |left| <= i < |left| + |core|;
    assert s[|left|] == core[0] && s[|left| + |core| - 1] == core[|core| - 1];
  }

  function Shown(lines: seq<CartLine>): seq<Line> {
    seq(|lines|, i requires 0 <= i < |lines| => lines[i].shown)
  }

  predicate Priced(lines: seq<CartLine>) {
    lines != [] && forall i :: 0 <= i < |lines| ==> lines[i].total.Some?
  }

  function Sum(lines: seq<CartLine>): real {
    if lines == [] then 0.0
    else Sum(lines[..|lines| - 1]) + match lines[|lines| - 1].total case Some(t) => t case None => 0.0
  }

  function Abs(x: real): real {
    if x < 0.0 then -x else x
  }

  /** A cent for each line, at least two. */
  function Tolerance(n: nat): real {
    if 0.01 * n as real > 0.02 then 0.01 * n as real else 0.02
  }

  predicate Near(a: real, b: real, tolerance: real) {
    Abs(a - b) <= tolerance + 0.000000001
  }

  function SubtotalFailures(s: Shopping): seq<Failure> {
    if s.subtotal.None? then [SubtotalInvalid]
    else if Priced(s.lines) && !Near(s.subtotal.value, Sum(s.lines), Tolerance(|s.lines|)) then [SubtotalMismatch] else []
  }

  function When(b: bool, f: Failure): seq<Failure> {
    if b then [f] else []
  }

  function KeySet(chosen: seq<Product>): set<string> {
    set i | 0 <= i < |chosen| :: chosen[i].key
  }

  function CartFailures(s: Shopping, chosen: seq<Product>): seq<Failure> {
    When(|s.lines| != |CATEGORIES|, LinesNotFive) + When(!Complete(chosen, Shown(s.lines)), LineMismatch) +
    When(exists i :: 0 <= i < |s.lines| && !QuantityOne(s.lines[i].quantity), QuantityNotOne) +
    When(!Priced(s.lines), LinePriceInvalid) + SubtotalFailures(s) + When(s.blocked != [], BlockedReported)
  }

  function Failures(s: Shopping): seq<Failure> {
    var chosen := Chosen(s, CATEGORIES);
    AllShortlistFailures(s, CATEGORIES) + When(|Products(s, CATEGORIES)| < 15, FewProducts) +
    When(|KeySet(chosen)| != |chosen|, ChosenRepeated) + CartFailures(s, chosen)
  }

  // ---------------------------------------------------------------- the counts beside the failures

  datatype Counts = Counts(candidates: nat, cartLines: nat, categories: nat, chosen: nat, distinctCandidates: nat,
                           matchedLines: nat, pricedLines: nat, subtotalMatches: nat)

  function ListedIn(s: Shopping, c: Category): nat {
    if Entries(s, c) == [] then 0 else |Entries(s, c)[0].candidates|
  }

  function Listed(s: Shopping, categories: seq<Category>): nat {
    if categories == [] then 0 else Listed(s, categories[..|categories| - 1]) + ListedIn(s, categories[|categories| - 1])
  }

  function Missing(failed: seq<Failure>): nat {
    if failed == [] then 0 else Missing(failed[..|failed| - 1]) + if failed[|failed| - 1].CategoryMissing? then 1 else 0
  }

  predicate SubtotalMatches(s: Shopping) {
    s.subtotal.Some? && Priced(s.lines) && Near(s.subtotal.value, Sum(s.lines), Tolerance(|s.lines|))
  }

  ghost predicate AreCounts(n: Counts, s: Shopping) {
    var chosen := Chosen(s, CATEGORIES);
    && n.candidates == Listed(s, CATEGORIES) && n.cartLines == |s.lines|
    && n.categories == |set c: Category | Entries(s, c) != []|
    && n.chosen == |chosen| && n.distinctCandidates == |Products(s, CATEGORIES)|
    && n.matchedLines == Greedy(chosen, Shown(s.lines)).matched
    && n.pricedLines == |Filter((l: CartLine) => l.total.Some?, s.lines)|
    && n.subtotalMatches == if SubtotalMatches(s) then 1 else 0
  }

  lemma {:induction false} MissingAppend(a: seq<Failure>, b: seq<Failure>)
    ensures Missing(a + b) == Missing(a) + Missing(b)
  {
    if b == [] {
      assert a + b == a;
    } else {
      assert (a + b)[..|a + b| - 1] == a + b[..|b| - 1];
      MissingAppend(a, b[..|b| - 1]);
    }
  }

  lemma {:induction false} NoneMissing(failed: seq<Failure>)
    requires forall f :: f in failed ==> !f.CategoryMissing?
    ensures Missing(failed) == 0
  {
    if failed != [] {
      NoneMissing(failed[..|failed| - 1]);
    }
  }

  lemma MissingInCategory(s: Shopping, c: Category)
    ensures Missing(ShortlistFailures(s, c)) == if Entries(s, c) == [] then 1 else 0
  {
    if Entries(s, c) == [] {
      assert [CategoryMissing(c)][..0] == [];
    } else {
      NoneMissingHere(s, c);
      NoneMissing(ShortlistFailures(s, c));
      hide ShortlistFailures;
    }
  }

  lemma NoneMissingHere(s: Shopping, c: Category)
    requires Entries(s, c) != []
    ensures forall f :: f in ShortlistFailures(s, c) ==> !f.CategoryMissing?
  {
    hide Entries, Keys, Named;
  }

  /** Missing categories and those with an entry are all the categories. */
  lemma {:induction false} MissingCategories(s: Shopping, categories: seq<Category>)
    requires Distinct(categories)
    ensures Missing(AllShortlistFailures(s, categories)) + |Entered(s, categories)| == |categories|
  {
    hide ShortlistFailures, Entries, Missing;
    if categories == [] {
      NoneMissing([]);
    } else {
      var init, last := categories[..|categories| - 1], categories[|categories| - 1];
      MissingCategories(s, init);
      MissingAppend(AllShortlistFailures(s, init), ShortlistFailures(s, last));
      MissingInCategory(s, last);
      EnteredNext(s, init, last);
      assert categories == init + [last];
    }
  }

  ghost function Entered(s: Shopping, categories: seq<Category>): set<Category> {
    set c: Category | c in categories && Entries(s, c) != []
  }

  lemma EnteredNext(s: Shopping, categories: seq<Category>, c: Category)
    requires c !in categories
    ensures |Entered(s, categories + [c])| == |Entered(s, categories)| + if Entries(s, c) == [] then 0 else 1
  {
    hide Entries;
    var more: set<Category> := if Entries(s, c) != [] then {c} else {};
    assert Entered(s, categories + [c]) == Entered(s, categories) + more && Entered(s, categories) !! more;
  }

  lemma CategoriesCounted(s: Shopping, failed: seq<Failure>)
    requires failed == Failures(s)
    ensures Missing(failed) + |set c: Category | Entries(s, c) != []| == |CATEGORIES|
  {
    hide AllShortlistFailures, CartFailures, Chosen, Products, KeySet, Entries;
    var chosen := Chosen(s, CATEGORIES);
    var more := When(|Products(s, CATEGORIES)| < 15, FewProducts) + When(|KeySet(chosen)| != |chosen|, ChosenRepeated) + CartFailures(s, chosen);
    CartMisses(s, chosen);
    NoneMissing(more);
    assert failed == AllShortlistFailures(s, CATEGORIES) + more;
    MissingAppend(AllShortlistFailures(s, CATEGORIES), more);
    MissingCategories(s, CATEGORIES);
    forall c: Category ensures c in CATEGORIES {
      AnyCategory(c);
    }
    assert Entered(s, CATEGORIES) == set c: Category | Entries(s, c) != [];
  }

  lemma CartMisses(s: Shopping, chosen: seq<Product>)
    ensures forall f :: f in CartFailures(s, chosen) ==> !f.CategoryMissing?
  {
    hide Complete, Priced, QuantityOne, Near, Sum, Shown, When, SubtotalFailures;
    WhenOnly(|s.lines| != |CATEGORIES|, LinesNotFive);
    WhenOnly(!Complete(chosen, Shown(s.lines)), LineMismatch);
    WhenOnly(exists i :: 0 <= i < |s.lines| && !QuantityOne(s.lines[i].quantity), QuantityNotOne);
    WhenOnly(!Priced(s.lines), LinePriceInvalid);
    WhenOnly(s.blocked != [], BlockedReported);
    SubtotalOnly(s);
  }

  lemma WhenOnly(b: bool, f: Failure)
    ensures forall x :: x in When(b, f) ==> x == f
  {
  }

  lemma SubtotalOnly(s: Shopping)
    ensures forall x :: x in SubtotalFailures(s) ==> x == SubtotalInvalid || x == SubtotalMismatch
  {
  }

  lemma AnyCategory(c: Category)
    ensures c in CATEGORIES
  {
    assert CATEGORIES[0] == Juice && CATEGORIES[1] == Yogurt && CATEGORIES[2] == FrozenPizza && CATEGORIES[3] == Coffee && CATEGORIES[4] == Cereal;
  }

  // ---------------------------------------------------------------- the oracle

  method Shortlist(s: Shopping, c: Category) returns (failed: seq<Failure>, chosen: seq<Product>, keys: set<string>, listed: nat)
    ensures failed == ShortlistFailures(s, c) && chosen == ChosenIn(s, c) && keys == KeysIn(s, c) && listed == ListedIn(s, c)
  {
    var entries := Entries(s, c);
    if entries == [] {
      return [CategoryMissing(c)], [], {}, 0;
    }
    var g := entries[0];
    listed := |g.candidates|;
    failed := if |entries| > 1 then [CategoryRepeated(c)] else [];
    keys := Keys(g);
    if |keys| < 3 { failed := failed + [FewCandidates(c)]; }
    var named := Named(g);
    PickIsCandidate(g);
    if named.None? { return failed + [ChosenNotCandidate(c)], [], keys, listed; }
    if !g.reasoned { return failed + [ReasonMissing(c)], [], keys, listed; }
    assert failed + [] == failed;
    return failed, [Picked(g).value], keys, listed;
  }

  method Shortlists(s: Shopping, categories: seq<Category>)
    returns (failed: seq<Failure>, chosen: seq<Product>, products: set<string>, listed: nat)
    ensures failed == AllShortlistFailures(s, categories) && chosen == Chosen(s, categories) && products == Products(s, categories)
    ensures listed == Listed(s, categories)
  {
    failed, chosen, products, listed := [], [], {}, 0;
    for k := 0 to |categories|
      invariant failed == AllShortlistFailures(s, categories[..k]) && chosen == Chosen(s, categories[..k])
      invariant products == Products(s, categories[..k]) && listed == Listed(s, categories[..k])
    {
      FlatMapNext((c: Category) => ShortlistFailures(s, c), categories, k);
      FlatMapNext((c: Category) => ChosenIn(s, c), categories, k);
      assert categories[..k + 1][..k] == categories[..k];
      var f, p, keys, own := Shortlist(s, categories[k]);
      failed, chosen, products, listed := failed + f, chosen + p, products + keys, listed + own;
    }
    assert categories[..|categories|] == categories;
  }

  method CheckCart(s: Shopping, chosen: seq<Product>) returns (failed: seq<Failure>, matched: nat)
    ensures failed == CartFailures(s, chosen) && matched == Greedy(chosen, Shown(s.lines)).matched
  {
    failed := When(|s.lines| != |CATEGORIES|, LinesNotFive);
    var open: seq<Product>;
    open, matched := MatchLines(chosen, Shown(s.lines));
    MatchedBound(chosen, Shown(s.lines));
    failed := failed + When(matched < |s.lines| || open != [], LineMismatch);
    failed := failed + When(exists i :: 0 <= i < |s.lines| && !QuantityOne(s.lines[i].quantity), QuantityNotOne);
    failed := failed + When(!Priced(s.lines), LinePriceInvalid) + SubtotalFailures(s) + When(s.blocked != [], BlockedReported);
  }

  method OracleS6(s: Shopping) returns (failed: seq<Failure>, counts: Counts)
    ensures failed == Failures(s) && AreCounts(counts, s)
  {
    var shortlists, chosen, products, listed := Shortlists(s, CATEGORIES);
    var cart, matched := CheckCart(s, chosen);
    failed := shortlists + When(|products| < 15, FewProducts) + When(|KeySet(chosen)| != |chosen|, ChosenRepeated) + cart;
    CategoriesCounted(s, failed);
    hide AllShortlistFailures, CartFailures, Products, Chosen, Greedy, SubtotalMatches, Missing, KeySet, Listed;
    counts := Counts(listed, |s.lines|, |CATEGORIES| - Missing(failed), |chosen|, |products|, matched,
                     |Filter((l: CartLine) => l.total.Some?, s.lines)|, if SubtotalMatches(s) then 1 else 0);
  }

  // ---------------------------------------------------------------- what no failure means

  lemma {:induction false} KeySetSize(chosen: seq<Product>)
    ensures |KeySet(chosen)| <= |chosen|
    ensures |KeySet(chosen)| == |chosen| <==> DistinctKeys(chosen)
  {
    if chosen != [] {
      var init, last := chosen[..|chosen| - 1], chosen[|chosen| - 1];
      KeySetSize(init);
      assert chosen == init + [last];
      assert KeySet(chosen) == KeySet(init) + {last.key};
      if last.key in KeySet(init) {
        assert KeySet(chosen) == KeySet(init);
        var i :| 0 <= i < |init| && init[i].key == last.key;
        assert chosen[i].key == chosen[|init|].key;
      }
    }
  }

  lemma {:induction false} NoFailuresOf(s: Shopping, categories: seq<Category>)
    ensures AllShortlistFailures(s, categories) == [] <==> forall k :: 0 <= k < |categories| ==> ShortlistGood(s, categories[k])
    ensures AllShortlistFailures(s, categories) == [] ==> |Chosen(s, categories)| == |categories|
    ensures AllShortlistFailures(s, categories) == [] ==>
              forall k :: 0 <= k < |categories| ==> [Chosen(s, categories)[k]] == ChosenIn(s, categories[k])
  {
    hide ShortlistFailures, ShortlistGood, ChosenIn;
    if categories != [] {
      var n := |categories| - 1;
      var init, last := categories[..n], categories[n];
      NoFailuresOf(s, init);
      ShortlistIff(s, last);
      assert AllShortlistFailures(s, categories) == AllShortlistFailures(s, init) + ShortlistFailures(s, last);
      assert Chosen(s, categories) == Chosen(s, init) + ChosenIn(s, last);
      hide AllShortlistFailures, Chosen, FlatMap;
      assert forall k :: 0 <= k < n ==> init[k] == categories[k];
    }
  }

  /** The cart shows five lines of one piece each, all priced, and a subtotal within their sum's rounding. */
  ghost predicate CartGood(s: Shopping) {
    && |s.lines| == 5
    && (forall i :: 0 <= i < |s.lines| ==> QuantityOne(s.lines[i].quantity) && s.lines[i].total.Some?)
    && s.subtotal.Some? && -0.050000001 <= s.subtotal.value - Sum(s.lines) <= 0.050000001
    && s.blocked == []
  }

  lemma CartIff(s: Shopping, chosen: seq<Product>)
    ensures CartFailures(s, chosen) == [] <==> CartGood(s) && Complete(chosen, Shown(s.lines))
  {
    if |s.lines| == 5 {
      assert Tolerance(5) == 0.05;
    }
  }

  /** The oracle has nothing to complain about exactly when all of this holds. */
  lemma NoFailuresIff(s: Shopping)
    ensures var chosen := Chosen(s, CATEGORIES);
            Failures(s) == [] <==>
            && (forall c: Category :: ShortlistGood(s, c))
            && |Products(s, CATEGORIES)| >= 15 && DistinctKeys(chosen)
            && CartGood(s) && Complete(chosen, Shown(s.lines))
  {
    NoFailuresOf(s, CATEGORIES);
    AllCategories(s);
    KeySetSize(Chosen(s, CATEGORIES));
    CartIff(s, Chosen(s, CATEGORIES));
  }

  lemma AllCategories(s: Shopping)
    ensures (forall k :: 0 <= k < |CATEGORIES| ==> ShortlistGood(s, CATEGORIES[k])) <==> forall c: Category :: ShortlistGood(s, c)
  {
    if forall k :: 0 <= k < |CATEGORIES| ==> ShortlistGood(s, CATEGORIES[k]) {
      assert ShortlistGood(s, CATEGORIES[0]) && ShortlistGood(s, CATEGORIES[1]) && ShortlistGood(s, CATEGORIES[2]);
      assert ShortlistGood(s, CATEGORIES[3]) && ShortlistGood(s, CATEGORIES[4]);
      forall c: Category ensures ShortlistGood(s, c) {
        match c {
          case Juice => case Yogurt => case FrozenPizza => case Coffee => case Cereal =>
        }
      }
    }
  }

  // ---------------------------------------------------------------- what each failure means

  /** The first group of the category; that many if there is none. */
  ghost function FirstGroup(groups: seq<Group>, c: Category): (i: nat)
    ensures i <= |groups| && (i < |groups| ==> groups[i].category == Some(c)) && forall j :: 0 <= j < i ==> groups[j].category != Some(c)
  {
    if groups == [] || groups[0].category == Some(c) then 0 else 1 + FirstGroup(groups[1..], c)
  }

  lemma {:induction false} EntriesAre(groups: seq<Group>, c: Category)
    ensures var entries, i := Filter((g: Group) => g.category == Some(c), groups), FirstGroup(groups, c);
            && (entries == [] <==> i == |groups|) && (entries != [] ==> entries[0] == groups[i])
            && (|entries| > 1 <==> Repeats(groups, c))
  {
    hide FirstGroup, Filter, Repeats;
    if groups == [] {
      NoGroups(c);
    } else {
      var init, last := groups[..|groups| - 1], groups[|groups| - 1];
      EntriesAre(init, c);
      assert groups == init + [last];
      FilterNext((g: Group) => g.category == Some(c), init, last);
      FirstKept(init, last, c);
      RepeatsNext(init, last, c);
    }
  }

  /** The category has another group after its first. */
  ghost predicate Repeats(groups: seq<Group>, c: Category) {
    exists j :: FirstGroup(groups, c) < j < |groups| && groups[j].category == Some(c)
  }

  lemma NoGroups(c: Category)
    ensures Filter((g: Group) => g.category == Some(c), []) == [] && FirstGroup([], c) == 0 && !Repeats([], c)
  {
  }

  lemma RepeatsNext(groups: seq<Group>, last: Group, c: Category)
    ensures Repeats(groups + [last], c) <==> Repeats(groups, c) || (FirstGroup(groups, c) < |groups| && last.category == Some(c))
  {
    FirstKept(groups, last, c);
    hide FirstGroup;
    var all := groups + [last];
    assert forall j :: 0 <= j < |groups| ==> all[j] == groups[j];
    if FirstGroup(groups, c) < |groups| && last.category == Some(c) {
      assert all[|groups|].category == Some(c);
    }
    if Repeats(groups, c) {
      var j :| FirstGroup(groups, c) < j < |groups| && groups[j].category == Some(c);
      assert all[j].category == Some(c);
    }
  }

  lemma FirstKept(groups: seq<Group>, last: Group, c: Category)
    ensures var i, k := FirstGroup(groups, c), FirstGroup(groups + [last], c);
            k == if i < |groups| || last.category == Some(c) then i else |groups| + 1
  {
    var all := groups + [last];
    var i, k := FirstGroup(groups, c), FirstGroup(all, c);
    assert forall j :: 0 <= j < |groups| ==> all[j] == groups[j];
    assert all[|groups|] == last;
  }

  /** A candidate with all five fields and this page. */
  predicate Offers(g: Group, key: string) {
    exists x :: x in g.candidates && x.name.Some? && x.price.Some? && x.rating.Some? && x.reviews.Some? && x.key == Some(key)
  }

  /** The pages of the group's candidates that have all five fields. */
  ghost function Pages(g: Group): (pages: set<string>)
    ensures forall key :: key in pages <==> Offers(g, key)
  {
    assert forall key :: key in Keys(g) ==> Offers(g, key);
    Keys(g)
  }

  lemma NamedIff(g: Group)
    ensures Named(g).Some? <==> g.pick.Some? && Offers(g, g.pick.value)
  {
    FilterElements((c: Candidate) => Valid(c), g.candidates);
    if g.pick.Some? {
      WithKeyElement(ValidOnes(g), g.pick.value);
      if Named(g).Some? {
        assert Named(g).value in g.candidates;
      }
    }
  }

  /** When the failures of a category are among those listed for it. */
  lemma ShortlistFailuresMean(s: Shopping, c: Category)
    ensures var i, failed := FirstGroup(s.groups, c), ShortlistFailures(s, c);
            && (CategoryMissing(c) in failed <==> forall j :: 0 <= j < |s.groups| ==> s.groups[j].category != Some(c))
            && (CategoryRepeated(c) in failed <==> Repeats(s.groups, c))
            && (FewCandidates(c) in failed <==> i < |s.groups| && |Pages(s.groups[i])| < 3)
            && (ChosenNotCandidate(c) in failed <==>
                i < |s.groups| && !(s.groups[i].pick.Some? && Offers(s.groups[i], s.groups[i].pick.value)))
            && (ReasonMissing(c) in failed <==>
                i < |s.groups| && s.groups[i].pick.Some? && Offers(s.groups[i], s.groups[i].pick.value) && !s.groups[i].reasoned)
  {
    EntriesAre(s.groups, c);
    ShortlistListed(s, c);
    hide ShortlistFailures, Named, Offers, Filter, FirstGroup, Repeats;
    var i := FirstGroup(s.groups, c);
    if i < |s.groups| {
      NamedIff(s.groups[i]);
      SamePages(s.groups[i]);
    }
  }

  lemma SamePages(g: Group)
    ensures Pages(g) == Keys(g)
  {
  }

  lemma ShortlistListed(s: Shopping, c: Category)
    ensures var entries, failed := Entries(s, c), ShortlistFailures(s, c);
            && (CategoryMissing(c) in failed <==> entries == [])
            && (CategoryRepeated(c) in failed <==> |entries| > 1)
            && (FewCandidates(c) in failed <==> entries != [] && |Keys(entries[0])| < 3)
            && (ChosenNotCandidate(c) in failed <==> entries != [] && Named(entries[0]).None?)
            && (ReasonMissing(c) in failed <==> entries != [] && Named(entries[0]).Some? && !entries[0].reasoned)
  {
    hide Entries, Keys, Named;
  }

  lemma OfCategory(s: Shopping, c: Category, f: Failure)
    requires f in ShortlistFailures(s, c)
    ensures f.CategoryMissing? || f.CategoryRepeated? || f.FewCandidates? || f.ChosenNotCandidate? || f.ReasonMissing?
    ensures f.c == c
  {
  }

  /** Each category's own failures are those of the verdict that name it. */
  lemma FailuresOfCategory(s: Shopping, f: Failure)
    requires f.CategoryMissing? || f.CategoryRepeated? || f.FewCandidates? || f.ChosenNotCandidate? || f.ReasonMissing?
    ensures f in Failures(s) <==> f in ShortlistFailures(s, f.c)
  {
    hide Failures, AllShortlistFailures, ShortlistFailures, CartFailures;
    ListElement(s, f);
    CartHasOthers(s, Chosen(s, CATEGORIES));
    ShortlistElements(s, CATEGORIES, f);
    AnyCategory(f.c);
  }

  lemma {:induction false} ShortlistElements(s: Shopping, categories: seq<Category>, f: Failure)
    requires f.CategoryMissing? || f.CategoryRepeated? || f.FewCandidates? || f.ChosenNotCandidate? || f.ReasonMissing?
    ensures f in AllShortlistFailures(s, categories) <==> f.c in categories && f in ShortlistFailures(s, f.c)
  {
    hide ShortlistFailures;
    if categories != [] {
      var init, last := categories[..|categories| - 1], categories[|categories| - 1];
      ShortlistElements(s, init, f);
      assert categories == init + [last];
      if f in ShortlistFailures(s, last) {
        OfCategory(s, last, f);
      }
    }
  }

  lemma CartHasOthers(s: Shopping, chosen: seq<Product>)
    ensures forall f :: f in CartFailures(s, chosen) ==>
              f == LinesNotFive || f == LineMismatch || f == QuantityNotOne || f == LinePriceInvalid || f == SubtotalInvalid ||
              f == SubtotalMismatch || f == BlockedReported
  {
    hide Complete, Priced, QuantityOne, Near, Sum, Shown, When, SubtotalFailures;
    WhenOnly(|s.lines| != |CATEGORIES|, LinesNotFive);
    WhenOnly(!Complete(chosen, Shown(s.lines)), LineMismatch);
    WhenOnly(exists i :: 0 <= i < |s.lines| && !QuantityOne(s.lines[i].quantity), QuantityNotOne);
    WhenOnly(!Priced(s.lines), LinePriceInvalid);
    WhenOnly(s.blocked != [], BlockedReported);
    SubtotalOnly(s);
  }

  /** A page that the first group of some category offers. */
  ghost predicate Offered(s: Shopping, c: Category, key: string) {
    var i := FirstGroup(s.groups, c);
    i < |s.groups| && Offers(s.groups[i], key)
  }

  lemma OfferedIn(s: Shopping, c: Category)
    ensures forall key :: key in KeysIn(s, c) <==> Offered(s, c, key)
  {
    EntriesAre(s.groups, c);
    hide FirstGroup, Offers, Filter;
    var i := FirstGroup(s.groups, c);
    if i < |s.groups| {
      SamePages(s.groups[i]);
    }
  }

  lemma {:induction false} ProductsIff(s: Shopping, categories: seq<Category>)
    ensures forall key :: key in Products(s, categories) <==> exists c :: c in categories && Offered(s, c, key)
  {
    hide Offered, KeysIn;
    if categories != [] {
      var init, last := categories[..|categories| - 1], categories[|categories| - 1];
      ProductsIff(s, init);
      OfferedIn(s, last);
      assert categories == init + [last];
    }
  }

  /** The pages of all products listed. */
  ghost function OfferedPages(s: Shopping): (pages: set<string>)
    ensures forall key :: key in pages <==> exists c :: Offered(s, c, key)
  {
    ProductsIff(s, CATEGORIES);
    assert forall c {:trigger c in CATEGORIES} :: c in CATEGORIES by {
      forall c: Category ensures c in CATEGORIES { AnyCategory(c); }
    }
    Products(s, CATEGORIES)
  }

  lemma OfferedAre(s: Shopping)
    ensures OfferedPages(s) == Products(s, CATEGORIES)
  {
  }

  /** The failures of the whole list and of the cart. */
  lemma CartFailuresMean(s: Shopping)
    ensures var chosen, failed := Chosen(s, CATEGORIES), Failures(s);
            var priced := s.lines != [] && forall i :: 0 <= i < |s.lines| ==> s.lines[i].total.Some?;
            && (FewProducts in failed <==> |OfferedPages(s)| < 15)
            && (ChosenRepeated in failed <==> exists i, j :: 0 <= i < j < |chosen| && chosen[i].key == chosen[j].key)
            && (LinesNotFive in failed <==> |s.lines| != 5)
            && (LineMismatch in failed <==> !Complete(chosen, Shown(s.lines)))
            && (QuantityNotOne in failed <==> exists i :: 0 <= i < |s.lines| && !QuantityOne(s.lines[i].quantity))
            && (LinePriceInvalid in failed <==> !priced)
            && (SubtotalInvalid in failed <==> s.subtotal.None?)
            && (SubtotalMismatch in failed <==> s.subtotal.Some? && priced && OffBy(s))
            && (BlockedReported in failed <==> s.blocked != [])
  {
    var chosen := Chosen(s, CATEGORIES);
    KeySetSize(chosen);
    NoneOfShortlists(s, CATEGORIES);
    CartListed(s, chosen);
    hide AllShortlistFailures, CartFailures, Products, KeySet, Complete, QuantityOne, OffBy, Shown, Chosen;
    ListElement(s, FewProducts);
    ListElement(s, ChosenRepeated);
    ListElement(s, LinesNotFive);
    ListElement(s, LineMismatch);
    ListElement(s, QuantityNotOne);
    ListElement(s, LinePriceInvalid);
    ListElement(s, SubtotalInvalid);
    ListElement(s, SubtotalMismatch);
    ListElement(s, BlockedReported);
    OfferedAre(s);
    hide Failures, OfferedPages;
  }

  lemma ListElement(s: Shopping, f: Failure)
    ensures var chosen := Chosen(s, CATEGORIES);
            f in Failures(s) <==>
            || f in AllShortlistFailures(s, CATEGORIES) || (|Products(s, CATEGORIES)| < 15 && f == FewProducts)
            || (|KeySet(chosen)| != |chosen| && f == ChosenRepeated) || f in CartFailures(s, chosen)
  {
    hide AllShortlistFailures, CartFailures, Products, KeySet, Chosen, When;
    var chosen := Chosen(s, CATEGORIES);
    WhenIff(|Products(s, CATEGORIES)| < 15, FewProducts, f);
    WhenIff(|KeySet(chosen)| != |chosen|, ChosenRepeated, f);
  }

  /** The subtotal is off by more than a cent a line, or two cents. */
  predicate OffBy(s: Shopping)
    requires s.subtotal.Some?
  {
    var off, cents := s.subtotal.value - Sum(s.lines), 0.01 * (if |s.lines| > 2 then |s.lines| else 2) as real + 0.000000001;
    off > cents || off < -cents
  }

  lemma CartListed(s: Shopping, chosen: seq<Product>)
    ensures var failed := CartFailures(s, chosen);
            var priced := s.lines != [] && forall i :: 0 <= i < |s.lines| ==> s.lines[i].total.Some?;
            && FewProducts !in failed && ChosenRepeated !in failed
            && (LinesNotFive in failed <==> |s.lines| != 5)
            && (LineMismatch in failed <==> !Complete(chosen, Shown(s.lines)))
            && (QuantityNotOne in failed <==> exists i :: 0 <= i < |s.lines| && !QuantityOne(s.lines[i].quantity))
            && (LinePriceInvalid in failed <==> !priced)
            && (SubtotalInvalid in failed <==> s.subtotal.None?)
            && (SubtotalMismatch in failed <==> s.subtotal.Some? && priced && OffBy(s))
            && (BlockedReported in failed <==> s.blocked != [])
  {
    hide CartFailures, Complete, QuantityOne, Sum, Shown;
    CartElement(s, chosen, FewProducts);
    CartElement(s, chosen, ChosenRepeated);
    CartElement(s, chosen, LinesNotFive);
    CartElement(s, chosen, LineMismatch);
    CartElement(s, chosen, QuantityNotOne);
    CartElement(s, chosen, LinePriceInvalid);
    CartElement(s, chosen, SubtotalInvalid);
    CartElement(s, chosen, SubtotalMismatch);
    CartElement(s, chosen, BlockedReported);
  }

  lemma CartElement(s: Shopping, chosen: seq<Product>, f: Failure)
    ensures f in CartFailures(s, chosen) <==>
            || (|s.lines| != |CATEGORIES| && f == LinesNotFive) || (!Complete(chosen, Shown(s.lines)) && f == LineMismatch)
            || ((exists i :: 0 <= i < |s.lines| && !QuantityOne(s.lines[i].quantity)) && f == QuantityNotOne)
            || (!Priced(s.lines) && f == LinePriceInvalid) || f in SubtotalFailures(s) || (s.blocked != [] && f == BlockedReported)
  {
    hide Complete, Priced, QuantityOne, Shown, When, SubtotalFailures;
    WhenIff(|s.lines| != |CATEGORIES|, LinesNotFive, f);
    WhenIff(!Complete(chosen, Shown(s.lines)), LineMismatch, f);
    WhenIff(exists i :: 0 <= i < |s.lines| && !QuantityOne(s.lines[i].quantity), QuantityNotOne, f);
    WhenIff(!Priced(s.lines), LinePriceInvalid, f);
    WhenIff(s.blocked != [], BlockedReported, f);
  }

  lemma WhenIff(b: bool, f: Failure, x: Failure)
    ensures x in When(b, f) <==> b && x == f
  {
  }

  lemma {:induction false} NoneOfShortlists(s: Shopping, categories: seq<Category>)
    ensures forall f :: f in AllShortlistFailures(s, categories) ==>
              f.CategoryMissing? || f.CategoryRepeated? || f.FewCandidates? || f.ChosenNotCandidate? || f.ReasonMissing?
  {
    hide ShortlistFailures;
    if categories != [] {
      var last := categories[|categories| - 1];
      NoneOfShortlists(s, categories[..|categories| - 1]);
      forall f | f in ShortlistFailures(s, last)
        ensures f.CategoryMissing? || f.CategoryRepeated? || f.FewCandidates? || f.ChosenNotCandidate? || f.ReasonMissing?
      {
        OfCategory(s, last, f);
      }
    }
  }

  /** The product chosen in category `c` comes from a valid candidate of its only group. */
  ghost predicate ChosenFrom(s: Shopping, c: Category, p: Product) {
    |Entries(s, c)| == 1 &&
    exists x :: x in Entries(s, c)[0].candidates && Valid(x) && x.key == Some(p.key) && x.name == Some(p.name)
  }

  /**
   * A pass pairs the five cart lines with five products of different pages, one chosen in each category among its valid
   * candidates, whatever order the lines come in.
   */
  lemma PassMeans(s: Shopping) returns (products: seq<Product>, to: seq<nat>)
    requires Failures(s) == []
    ensures |products| == 5 && DistinctKeys(products) && Assigns(products, Shown(s.lines), to) && |to| == 5
    ensures forall k :: 0 <= k < 5 ==> ChosenFrom(s, CATEGORIES[k], products[k])
  {
    hide Entries, Failures, DistinctKeys, ChosenFrom, CartFailures;
    NoFailuresIff(s);
    NoFailuresOf(s, CATEGORIES);
    products := Chosen(s, CATEGORIES);
    CompleteMeans(products, Shown(s.lines));
    to :| Assigns(products, Shown(s.lines), to);
    forall k | 0 <= k < 5 ensures ChosenFrom(s, CATEGORIES[k], products[k]) {
      assert ShortlistGood(s, CATEGORIES[k]);
      GoodChoice(s, CATEGORIES[k], products[k]);
    }
  }

  lemma GoodChoice(s: Shopping, c: Category, p: Product)
    requires ShortlistGood(s, c) && [p] == ChosenIn(s, c)
    ensures ChosenFrom(s, c, p)
  {
    hide Entries, Valid;
    PickIsCandidate(Entries(s, c)[0]);
    assert [p][0] == ChosenIn(s, c)[0];
  }

  lemma {:induction false} ListedBound(s: Shopping, categories: seq<Category>)
    ensures |Products(s, categories)| <= Listed(s, categories)
  {
    if categories != [] {
      var n := |categories| - 1;
      ListedBound(s, categories[..n]);
      KeysInBound(s, categories[n]);
    }
  }

  lemma KeysInBound(s: Shopping, c: Category)
    ensures |KeysIn(s, c)| <= ListedIn(s, c)
  {
    if Entries(s, c) != [] {
      KeysBound(Entries(s, c)[0].candidates, |Entries(s, c)[0].candidates|);
    }
  }

  lemma {:induction false} KeysBound(candidates: seq<Candidate>, n: nat)
    requires n <= |candidates|
    ensures |set i | 0 <= i < n && Valid(candidates[i]) :: candidates[i].key.value| <= n
  {
    if n > 0 {
      KeysBound(candidates, n - 1);
      var before := set i | 0 <= i < n - 1 && Valid(candidates[i]) :: candidates[i].key.value;
      var all := set i | 0 <= i < n && Valid(candidates[i]) :: candidates[i].key.value;
      if Valid(candidates[n - 1]) {
        assert all == before + {candidates[n - 1].key.value};
      } else {
        assert all == before;
      }
    }
  }

  /** What the counts show in a pass: all five categories, choices and lines, and at least fifteen products among the candidates. */
  lemma PassCounts(s: Shopping, n: Counts)
    requires Failures(s) == [] && AreCounts(n, s)
    ensures n.categories == n.chosen == n.cartLines == n.matchedLines == n.pricedLines == 5 && n.subtotalMatches == 1
    ensures 15 <= n.distinctCandidates <= n.candidates
  {
    NoFailuresIff(s);
    NoFailuresOf(s, CATEGORIES);
    CategoriesCounted(s, []);
    ListedBound(s, CATEGORIES);
    var chosen, shown := Chosen(s, CATEGORIES), Shown(s.lines);
    MatchedBound(chosen, shown);
    FilterAll((l: CartLine) => l.total.Some?, s.lines);
    assert Tolerance(5) == 0.05;
    hide Products, Listed, Chosen, Entries;
  }

  /** With different names the matching of the lines is complete exactly when some pairing of lines and products is. */
  lemma DistinctNamesPassIff(s: Shopping)
    requires DistinctNames(Chosen(s, CATEGORIES))
    ensures var chosen := Chosen(s, CATEGORIES);
            Failures(s) == [] <==>
            && (forall c: Category :: ShortlistGood(s, c))
            && |Products(s, CATEGORIES)| >= 15 && DistinctKeys(chosen)
            && CartGood(s) && PerfectMatching(chosen, Shown(s.lines))
  {
    var chosen := Chosen(s, CATEGORIES);
    NoFailuresIff(s);
    if DistinctKeys(chosen) {
      FindsEveryMatchingIff(chosen);
      if Complete(chosen, Shown(s.lines)) {
        CompleteMeans(chosen, Shown(s.lines));
      }
    }
  }

  // ---------------------------------------------------------------- what the counts mean

  /** A sum of line totals: nothing for no line, and each total is added; a line without one adds nothing. */
  lemma SumNext(lines: seq<CartLine>, line: CartLine)
    ensures Sum([]) == 0.0
    ensures Sum(lines + [line]) == if line.total.Some? then Sum(lines) + line.total.value else Sum(lines)
  {
    assert (lines + [line])[..|lines|] == lines;
  }

  /** What the first group of a category lists, valid or not. */
  ghost function ListedOf(s: Shopping, c: Category): (n: nat)
    ensures n == if FirstGroup(s.groups, c) < |s.groups| then |s.groups[FirstGroup(s.groups, c)].candidates| else 0
  {
    EntriesAre(s.groups, c);
    ListedIn(s, c)
  }

  lemma ListedAre(s: Shopping)
    ensures Listed(s, CATEGORIES) == ListedOf(s, Juice) + ListedOf(s, Yogurt) + ListedOf(s, FrozenPizza) + ListedOf(s, Coffee) + ListedOf(s, Cereal)
  {
    ListedNext(s, [Juice, Yogurt, FrozenPizza, Coffee], Cereal);
    ListedNext(s, [Juice, Yogurt, FrozenPizza], Coffee);
    ListedNext(s, [Juice, Yogurt], FrozenPizza);
    ListedNext(s, [Juice], Yogurt);
    ListedNext(s, [], Juice);
    hide Listed, ListedIn, ListedOf;
    assert CATEGORIES == [Juice, Yogurt, FrozenPizza, Coffee] + [Cereal] && [] + [Juice] == [Juice];
    assert [Juice] + [Yogurt] == [Juice, Yogurt] && [Juice, Yogurt] + [FrozenPizza] == [Juice, Yogurt, FrozenPizza];
    assert [Juice, Yogurt, FrozenPizza] + [Coffee] == [Juice, Yogurt, FrozenPizza, Coffee];
  }

  lemma ListedNext(s: Shopping, categories: seq<Category>, c: Category)
    ensures Listed(s, categories + [c]) == Listed(s, categories) + ListedOf(s, c) && Listed(s, []) == 0
  {
    assert (categories + [c])[..|categories|] == categories;
  }

  /** The category's choice is among its candidates and has a reason. */
  ghost predicate Chooses(s: Shopping, c: Category) {
    var i := FirstGroup(s.groups, c);
    i < |s.groups| && s.groups[i].pick.Some? && Offers(s.groups[i], s.groups[i].pick.value) && s.groups[i].reasoned
  }

  lemma ChosenIf(s: Shopping, c: Category)
    ensures |ChosenIn(s, c)| == if Chooses(s, c) then 1 else 0
    ensures Chooses(s, c) ==> Some(ChosenIn(s, c)[0].key) == s.groups[FirstGroup(s.groups, c)].pick
  {
    EntriesAre(s.groups, c);
    var i := FirstGroup(s.groups, c);
    if i < |s.groups| {
      NamedIff(s.groups[i]);
      if Named(s.groups[i]).Some? {
        NamedHasName(s.groups[i]);
      }
    }
    hide FirstGroup, Offers, Filter, Named;
  }

  lemma NamedHasName(g: Group)
    requires Named(g).Some?
    ensures Named(g).value.name.Some?
  {
    FilterElements((c: Candidate) => Valid(c), g.candidates);
    WithKeyElement(ValidOnes(g), g.pick.value);
  }

  lemma {:induction false} ChosenCount(s: Shopping, categories: seq<Category>)
    requires Distinct(categories)
    ensures |Chosen(s, categories)| == |set c: Category | c in categories && Chooses(s, c)|
  {
    if categories == [] {
      assert (set c: Category | c in categories && Chooses(s, c)) == {};
    } else {
      var init, last := categories[..|categories| - 1], categories[|categories| - 1];
      assert categories == init + [last] && last !in init;
      ChosenCount(s, init);
      ChosenIf(s, last);
      ChoosingNext(s, init, last);
      hide Chooses, ChosenIn;
    }
  }

  lemma ChoosingNext(s: Shopping, categories: seq<Category>, c: Category)
    requires c !in categories
    ensures |set d: Category | d in categories + [c] && Chooses(s, d)| ==
            |set d: Category | d in categories && Chooses(s, d)| + if Chooses(s, c) then 1 else 0
  {
    hide Chooses;
    var before, more := set d: Category | d in categories && Chooses(s, d), if Chooses(s, c) then {c} else {};
    assert (set d: Category | d in categories + [c] && Chooses(s, d)) == before + more && before !! more;
  }

  predicate HasGroup(s: Shopping, c: Category) {
    exists j :: 0 <= j < |s.groups| && s.groups[j].category == Some(c)
  }

  /** The counts beside a verdict. */
  lemma CountsMean(s: Shopping, n: Counts)
    requires AreCounts(n, s)
    ensures n.candidates == ListedOf(s, Juice) + ListedOf(s, Yogurt) + ListedOf(s, FrozenPizza) + ListedOf(s, Coffee) + ListedOf(s, Cereal)
    ensures n.categories == |set c: Category | HasGroup(s, c)|
    ensures n.chosen == |set c: Category | Chooses(s, c)| && n.distinctCandidates == |OfferedPages(s)|
    ensures n.cartLines == |s.lines| && n.pricedLines == |Places(s.lines, (l: CartLine) => l.total.Some?)|
    ensures n.subtotalMatches == if s.subtotal.Some? && s.lines != [] && (forall i :: 0 <= i < |s.lines| ==> s.lines[i].total.Some?) && !OffBy(s)
                                 then 1 else 0
  {
    ListedAre(s);
    OfferedAre(s);
    FilterCount((l: CartLine) => l.total.Some?, s.lines);
    ChosenOfAll(s);
    EnteredAre(s);
    hide Entries, Chosen, Chooses, Listed, ListedOf, Products, OfferedPages, Places, Filter, Greedy, Sum;
  }

  lemma ChosenOfAll(s: Shopping)
    ensures |Chosen(s, CATEGORIES)| == |set c: Category | Chooses(s, c)|
  {
    ChosenCount(s, CATEGORIES);
    hide Chosen, Chooses;
    forall c: Category ensures c in CATEGORIES {
      AnyCategory(c);
    }
    assert (set c: Category | c in CATEGORIES && Chooses(s, c)) == set c: Category | Chooses(s, c);
  }

  lemma EnteredAre(s: Shopping)
    ensures (set c: Category | Entries(s, c) != []) == set c: Category | HasGroup(s, c)
  {
    forall c: Category ensures Entries(s, c) != [] <==> HasGroup(s, c) {
      EntriesAre(s.groups, c);
    }
  }
}
