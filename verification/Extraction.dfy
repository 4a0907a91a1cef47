/** What a passed qualification of memory extraction means: the judge of one scenario, the summary of a run, and its status. */
module Extraction {
  import opened Wrappers
  import opened Permutations

  datatype Group = Durable | Ongoing | Mixed | Protected | Change | ShortTerm | Momentary | Common |
                   ChangeWithoutPrior | TaskLocal | Uncertain
  datatype Expectation = Save | Nothing | Replace
  datatype Language = En | Ru
  datatype Span = Span(start: int, end: int)
  datatype Saved = Saved(span: Span, explicitRemember: bool)

  datatype Scenario = Scenario(group: Group, language: Language, expectation: Expectation, text: string,
                               allowed: seq<Span>, maxSaves: Option<nat>)
  datatype Observation = Observation(saved: seq<Saved>, priorSaved: bool, priorReplaced: bool)

  datatype Reason = Passed | FalseSave | Miss | NotProtected | PriorMissing | NotChanged
  datatype Verdict = Verdict(correctSaves: nat, falseSaves: nat, miss: bool, reason: Reason) {
    predicate passed() { reason == Passed }
  }

  function ExpectationOf(group: Group): Expectation {
    match group
    case Durable => Save case Ongoing => Save case Mixed => Save case Protected => Save
    case Change => Replace
    case _ => Nothing
  }

  /** Every scenario of a strict group must pass; the other two allow one miss. */
  predicate Strict(group: Group) {
    group != Durable && group != Ongoing
  }

  // ---------------------------------------------------------------- judging one scenario

  predicate Overlaps(left: Span, right: Span) {
    left.start < right.end && right.start < left.end
  }

  predicate Allows(scenario: Scenario, span: Span) {
    exists i :: 0 <= i < |scenario.allowed| && Overlaps(span, scenario.allowed[i])
  }

  /** The saves that fall on an allowed span of a scenario that expects any. */
  function Matching(scenario: Scenario): Saved -> bool {
    (s: Saved) => scenario.expectation != Nothing && Allows(scenario, s.span)
  }

  function AtMost(n: nat, bound: Option<nat>): nat {
    if bound.Some? && n > bound.value then bound.value else n
  }

  function Correct(scenario: Scenario, saved: seq<Saved>): nat {
    AtMost(|Filter(Matching(scenario), saved)|, scenario.maxSaves)
  }

  predicate Remembered(scenario: Scenario, saved: seq<Saved>) {
    exists i :: 0 <= i < |saved| && saved[i].explicitRemember && Allows(scenario, saved[i].span)
  }

  /** A verdict in terms of what was saved where, without the judge's counters and order of checks. */
  ghost predicate Judged(scenario: Scenario, seen: Observation, verdict: Verdict) {
    && verdict.correctSaves == Correct(scenario, seen.saved)
    && verdict.correctSaves + verdict.falseSaves == |seen.saved|
    && verdict.reason == ReasonOf(scenario, seen, verdict.falseSaves > 0, verdict.correctSaves > 0)
    && (verdict.miss <==>
        verdict.reason == NotChanged ||
        (scenario.expectation == Save && verdict.correctSaves == 0))
  }

  function ReasonOf(scenario: Scenario, seen: Observation, anyFalse: bool, anyCorrect: bool): Reason {
    if scenario.expectation == Replace && !seen.priorSaved then PriorMissing
    else if scenario.expectation == Replace && !seen.priorReplaced then NotChanged
    else if anyFalse then FalseSave
    else if scenario.expectation == Save && !anyCorrect then Miss
    else if scenario.expectation == Save && scenario.group == Protected && !Remembered(scenario, seen.saved) then NotProtected
    else Passed
  }

  method JudgeScenario(scenario: Scenario, seen: Observation) returns (verdict: Verdict)
    ensures Judged(scenario, seen, verdict)
  {
    var correct, wrong := CountSaves(scenario, seen.saved);
    if scenario.maxSaves.Some? && correct > scenario.maxSaves.value {
      wrong := wrong + (correct - scenario.maxSaves.value);
      correct := scenario.maxSaves.value;
    }
    if scenario.expectation == Replace {
      if !seen.priorSaved { return Verdict(correct, wrong, false, PriorMissing); }
      if !seen.priorReplaced { return Verdict(correct, wrong, true, NotChanged); }
      return Verdict(correct, wrong, false, if wrong > 0 then FalseSave else Passed);
    }
    if wrong > 0 {
      return Verdict(correct, wrong, scenario.expectation == Save && correct == 0, FalseSave);
    }
    if scenario.expectation == Nothing { return Verdict(correct, wrong, false, Passed); }
    if correct == 0 { return Verdict(correct, wrong, true, Miss); }
    if scenario.group == Protected && !Remembered(scenario, seen.saved) {
      return Verdict(correct, wrong, false, NotProtected);
    }
    return Verdict(correct, wrong, false, Passed);
  }

  method CountSaves(scenario: Scenario, saved: seq<Saved>) returns (correct: nat, wrong: nat)
    ensures correct == |Filter(Matching(scenario), saved)| && correct + wrong == |saved|
  {
    correct, wrong := 0, 0;
    for i := 0 to |saved|
      invariant correct == |Filter(Matching(scenario), saved[..i])| && correct + wrong == i
    {
      assert saved[..i + 1][..i] == saved[..i];
      if scenario.expectation != Nothing && Allows(scenario, saved[i].span) {
        correct := correct + 1;
      } else {
        wrong := wrong + 1;
      }
    }
    assert saved[..|saved|] == saved;
  }

  // ---------------------------------------------------------------- what a verdict means

  /** The save meets an allowed span. */
  predicate Meets(scenario: Scenario, s: Saved): (r: bool)
    ensures r <==>
            exists i :: 0 <= i < |scenario.allowed| && s.span.start < scenario.allowed[i].end && scenario.allowed[i].start < s.span.end
  {
    Allows(scenario, s.span)
  }

  /** No save is false: each meets an allowed span, and there are no more than may be saved; where nothing may, there is none. */
  ghost predicate AllCorrect(scenario: Scenario, saved: seq<Saved>) {
    if scenario.expectation == Nothing then saved == []
    else (forall s :: s in saved ==> Meets(scenario, s)) && (scenario.maxSaves.Some? ==> |saved| <= scenario.maxSaves.value)
  }

  lemma FalseSavesIff(scenario: Scenario, seen: Observation, verdict: Verdict)
    requires Judged(scenario, seen, verdict)
    ensures verdict.falseSaves == 0 <==> AllCorrect(scenario, seen.saved)
  {
    FilterAll(Matching(scenario), seen.saved);
    if scenario.expectation == Nothing {
      FilterNone(Matching(scenario), seen.saved);
    }
  }

  /** A save counts as correct exactly when one may be saved and some meets an allowed span. */
  lemma CorrectIff(scenario: Scenario, seen: Observation, verdict: Verdict)
    requires Judged(scenario, seen, verdict)
    ensures verdict.correctSaves > 0 <==>
            scenario.expectation != Nothing && scenario.maxSaves != Some(0) && exists s :: s in seen.saved && Meets(scenario, s)
  {
    var matching := Matching(scenario);
    FilterElements(matching, seen.saved);
    if Filter(matching, seen.saved) != [] {
      var s := Filter(matching, seen.saved)[0];
      assert s in seen.saved && matching(s);
    }
    if s :| s in seen.saved && Meets(scenario, s) && scenario.expectation != Nothing {
      assert matching(s);
    }
  }

  /** Some save that was to be remembered meets an allowed span. */
  ghost predicate RememberedSave(scenario: Scenario, saved: seq<Saved>) {
    exists s :: s in saved && s.explicitRemember && Meets(scenario, s)
  }

  /** When each verdict is given, from the scenario and what was saved alone. */
  lemma VerdictMeans(scenario: Scenario, seen: Observation, verdict: Verdict)
    requires Judged(scenario, seen, verdict)
    ensures var replace, save := scenario.expectation == Replace, scenario.expectation == Save;
            var clean := AllCorrect(scenario, seen.saved);
            var settled := replace ==> seen.priorSaved && seen.priorReplaced;
            var protect := save && scenario.group == Protected && !RememberedSave(scenario, seen.saved);
            && (verdict.reason == PriorMissing <==> replace && !seen.priorSaved)
            && (verdict.reason == NotChanged <==> replace && seen.priorSaved && !seen.priorReplaced)
            && (verdict.reason == FalseSave <==> settled && !clean)
            && (verdict.reason == Miss <==> save && clean && seen.saved == [])
            && (verdict.reason == NotProtected <==> clean && seen.saved != [] && protect)
            && (verdict.reason == Passed <==> settled && clean && (save ==> seen.saved != []) && !protect)
            && (verdict.miss <==> verdict.reason == NotChanged || (save && verdict.correctSaves == 0))
  {
    FalseSavesIff(scenario, seen, verdict);
    RememberedIff(scenario, seen.saved);
    CorrectIff(scenario, seen, verdict);
    if verdict.falseSaves == 0 && seen.saved != [] {
      assert seen.saved[0] in seen.saved;
    }
    hide AllCorrect, RememberedSave, Remembered, Correct;
  }

  lemma RememberedIff(scenario: Scenario, saved: seq<Saved>)
    ensures Remembered(scenario, saved) <==> RememberedSave(scenario, saved)
  {
    if i :| 0 <= i < |saved| && saved[i].explicitRemember && Allows(scenario, saved[i].span) {
      assert saved[i] in saved && Meets(scenario, saved[i]);
    }
    if s :| s in saved && s.explicitRemember && Meets(scenario, s) {
      var i :| 0 <= i < |saved| && saved[i] == s;
    }
  }

  // ---------------------------------------------------------------- the summary of a run

  datatype Result = Result(scenario: Scenario, verdict: Verdict)
  datatype Figures = Figures(scenarios: nat, passed: nat, falseSaves: nat, misses: nat)
  datatype GroupReport = GroupReport(all: Figures, saved: nat, notSaved: nat, failures: multiset<Reason>, en: Figures, ru: Figures)

  function InGroup(g: Group): Result -> bool {
    (r: Result) => r.scenario.group == g
  }

  function InLanguage(l: Language): Result -> bool {
    (r: Result) => r.scenario.language == l
  }

  function DidPass(): Result -> bool {
    (r: Result) => r.verdict.passed()
  }

  function DidMiss(): Result -> bool {
    (r: Result) => r.verdict.miss
  }

  function DidSave(): Result -> bool {
    (r: Result) => r.verdict.correctSaves + r.verdict.falseSaves > 0
  }

  function SavedNothing(): Result -> bool {
    (r: Result) => r.verdict.correctSaves + r.verdict.falseSaves == 0
  }

  function Count(p: Result -> bool, s: seq<Result>): nat {
    |Filter(p, s)|
  }

  function FalseSaves(s: seq<Result>): nat {
    if s == [] then 0 else FalseSaves(s[..|s| - 1]) + s[|s| - 1].verdict.falseSaves
  }

  /** How often each reason kept a scenario from passing. */
  function Failures(s: seq<Result>): multiset<Reason> {
    if s == [] then multiset{}
    else
      var last := s[|s| - 1].verdict;
      Failures(s[..|s| - 1]) + if last.passed() then multiset{} else multiset{last.reason}
  }

  function Own(s: seq<Result>, g: Group): seq<Result> {
    Filter(InGroup(g), s)
  }

  function FiguresOf(s: seq<Result>): Figures {
    Figures(|s|, Count(DidPass(), s), FalseSaves(s), Count(DidMiss(), s))
  }

  function Spoken(s: seq<Result>, l: Language): seq<Result> {
    Filter(InLanguage(l), s)
  }

  function ReportOf(s: seq<Result>): GroupReport {
    GroupReport(FiguresOf(s), Count(DidSave(), s), Count(SavedNothing(), s), Failures(s),
                FiguresOf(Spoken(s, En)), FiguresOf(Spoken(s, Ru)))
  }

  /** The report with one more result of its group. */
  function Extended(report: GroupReport, r: Result): GroupReport {
    var v := r.verdict;
    GroupReport(More(report.all, v),
                if v.correctSaves + v.falseSaves > 0 then report.saved + 1 else report.saved,
                if v.correctSaves + v.falseSaves > 0 then report.notSaved else report.notSaved + 1,
                if v.passed() then report.failures else report.failures + multiset{v.reason},
                if r.scenario.language == En then More(report.en, v) else report.en,
                if r.scenario.language == Ru then More(report.ru, v) else report.ru)
  }

  function More(f: Figures, v: Verdict): Figures {
    Figures(f.scenarios + 1, if v.passed() then f.passed + 1 else f.passed,
            f.falseSaves + v.falseSaves, if v.miss then f.misses + 1 else f.misses)
  }

  lemma CountNext(p: Result -> bool, s: seq<Result>, r: Result)
    ensures Count(p, s + [r]) == if p(r) then Count(p, s) + 1 else Count(p, s)
  {
    FilterNext(p, s, r);
  }

  lemma SumsNext(s: seq<Result>, r: Result)
    ensures FalseSaves(s + [r]) == FalseSaves(s) + r.verdict.falseSaves
    ensures Failures(s + [r]) == if r.verdict.passed() then Failures(s) else Failures(s) + multiset{r.verdict.reason}
  {
    assert (s + [r])[..|s|] == s;
  }

  lemma FiguresNext(s: seq<Result>, r: Result)
    ensures FiguresOf(s + [r]) == More(FiguresOf(s), r.verdict)
  {
    CountNext(DidPass(), s, r);
    CountNext(DidMiss(), s, r);
    SumsNext(s, r);
  }

  lemma SpokenNext(s: seq<Result>, r: Result, l: Language)
    ensures FiguresOf(Spoken(s + [r], l)) ==
            if r.scenario.language == l then More(FiguresOf(Spoken(s, l)), r.verdict) else FiguresOf(Spoken(s, l))
  {
    FilterNext(InLanguage(l), s, r);
    FiguresNext(Spoken(s, l), r);
  }

  lemma SavedNext(s: seq<Result>, r: Result)
    ensures Count(DidSave(), s + [r]) ==
            if r.verdict.correctSaves + r.verdict.falseSaves > 0 then Count(DidSave(), s) + 1 else Count(DidSave(), s)
    ensures Count(SavedNothing(), s + [r]) ==
            if r.verdict.correctSaves + r.verdict.falseSaves > 0 then Count(SavedNothing(), s) else Count(SavedNothing(), s) + 1
  {
    CountNext(DidSave(), s, r);
    CountNext(SavedNothing(), s, r);
  }

  lemma ReportNext(s: seq<Result>, r: Result)
    ensures ReportOf(s + [r]) == Extended(ReportOf(s), r)
  {
    hide FiguresOf, Count, Failures, Spoken, More;
    FiguresNext(s, r);
    SavedNext(s, r);
    SumsNext(s, r);
    SpokenNext(s, r, En);
    SpokenNext(s, r, Ru);
  }

  lemma OwnNext(s: seq<Result>, r: Result, g: Group)
    ensures ReportOf(Own(s + [r], g)) == if r.scenario.group == g then Extended(ReportOf(Own(s, g)), r) else ReportOf(Own(s, g))
  {
    FilterNext(InGroup(g), s, r);
    ReportNext(Own(s, g), r);
  }

  const NO_FIGURES := Figures(0, 0, 0, 0)
  const NO_REPORT := GroupReport(NO_FIGURES, 0, 0, multiset{}, NO_FIGURES, NO_FIGURES)

  ghost predicate Tables(groups: map<Group, GroupReport>, s: seq<Result>) {
    forall g :: g in groups && groups[g] == ReportOf(Own(s, g))
  }

  method NoReports() returns (groups: map<Group, GroupReport>)
    ensures Tables(groups, [])
  {
    groups := map[Durable := NO_REPORT, Ongoing := NO_REPORT, Mixed := NO_REPORT, Protected := NO_REPORT, Change := NO_REPORT,
                  ShortTerm := NO_REPORT, Momentary := NO_REPORT, Common := NO_REPORT, ChangeWithoutPrior := NO_REPORT,
                  TaskLocal := NO_REPORT, Uncertain := NO_REPORT];
    EmptyReport();
    forall g ensures g in groups && groups[g] == ReportOf(Own([], g)) {
      assert Own([], g) == [];
      match g {
        case Durable => case Ongoing => case Mixed => case Protected => case Change => case ShortTerm =>
        case Momentary => case Common => case ChangeWithoutPrior => case TaskLocal => case Uncertain =>
      }
    }
  }

  lemma EmptyReport()
    ensures ReportOf([]) == NO_REPORT
  {
    assert Spoken([], En) == [] && Spoken([], Ru) == [];
  }

  method AddResult(groups: map<Group, GroupReport>, ghost s: seq<Result>, r: Result) returns (more: map<Group, GroupReport>)
    requires Tables(groups, s)
    ensures Tables(more, s + [r])
  {
    var g := r.scenario.group;
    more := groups[g := Extended(groups[g], r)];
    forall h ensures h in more && more[h] == ReportOf(Own(s + [r], h)) {
      OwnNext(s, r, h);
    }
  }

  method SummarizeGroups(results: seq<Result>) returns (groups: map<Group, GroupReport>)
    ensures Tables(groups, results)
  {
    groups := NoReports();
    for i := 0 to |results|
      invariant Tables(groups, results[..i])
    {
      groups := AddResult(groups, results[..i], results[i]);
      assert results[..i + 1] == results[..i] + [results[i]];
    }
    assert results[..|results|] == results;
  }

  lemma {:induction false} SavedOrNot(s: seq<Result>)
    ensures Count(DidSave(), s) + Count(SavedNothing(), s) == |s|
  {
    if s != [] {
      SavedOrNot(s[..|s| - 1]);
    }
  }

  lemma {:induction false} Languages(s: seq<Result>)
    ensures var all, en, ru := FiguresOf(s), FiguresOf(Spoken(s, En)), FiguresOf(Spoken(s, Ru));
            all == Figures(en.scenarios + ru.scenarios, en.passed + ru.passed, en.falseSaves + ru.falseSaves, en.misses + ru.misses)
  {
    hide FiguresOf, Spoken;
    if s != [] {
      var init, last := s[..|s| - 1], s[|s| - 1];
      Languages(init);
      assert s == init + [last];
      FiguresNext(init, last);
      SpokenNext(init, last, En);
      SpokenNext(init, last, Ru);
    } else {
      NothingSpoken();
    }
  }

  lemma NothingSpoken()
    ensures forall l :: Spoken([], l) == []
    ensures FiguresOf([]) == Figures(0, 0, 0, 0)
  {
  }

  lemma {:induction false} FailuresCount(s: seq<Result>)
    ensures |Failures(s)| + Count(DidPass(), s) == |s|
  {
    if s != [] {
      FailuresCount(s[..|s| - 1]);
    }
  }

  /** A group's figures fit together: by outcome, by reason and by language. */
  lemma ReportAddsUp(s: seq<Result>)
    ensures var r := ReportOf(s);
            && r.saved + r.notSaved == r.all.scenarios
            && r.all.passed + |r.failures| == r.all.scenarios
            && r.en.scenarios + r.ru.scenarios == r.all.scenarios && r.en.passed + r.ru.passed == r.all.passed
            && r.en.falseSaves + r.ru.falseSaves == r.all.falseSaves && r.en.misses + r.ru.misses == r.all.misses
  {
    SavedOrNot(s);
    FailuresCount(s);
    Languages(s);
  }

  // ---------------------------------------------------------------- the status

  predicate Healthy(state: string) {
    state == "SUCCEEDED" || state == "RETRIED"
  }

  function Degraded(codes: seq<string>, states: seq<string>): nat {
    |codes| + |Filter((s: string) => !Healthy(s), states)|
  }

  predicate GroupFails(g: Group, report: GroupReport) {
    if Strict(g) then report.all.passed != report.all.scenarios
    else report.all.misses > 1 || report.all.passed + report.all.misses < report.all.scenarios
  }

  ghost predicate Passes(results: seq<Result>, codes: seq<string>, states: seq<string>, expected: nat) {
    Degraded(codes, states) == 0 && (forall g :: !GroupFails(g, ReportOf(Own(results, g)))) && |results| == expected
  }

  method CountDegraded(codes: seq<string>, states: seq<string>) returns (degraded: nat)
    ensures degraded == Degraded(codes, states)
  {
    degraded := |codes|;
    ghost var unhealthy := (s: string) => !Healthy(s);
    for i := 0 to |states|
      invariant degraded == |codes| + |Filter(unhealthy, states[..i])|
    {
      FilterNext(unhealthy, states[..i], states[i]);
      assert states[..i + 1] == states[..i] + [states[i]];
      if !Healthy(states[i]) {
        degraded := degraded + 1;
      }
    }
    assert states[..|states|] == states;
  }

  const GROUPS: seq<Group> := [Durable, Ongoing, Mixed, Protected, Change, ShortTerm, Momentary, Common, ChangeWithoutPrior, TaskLocal, Uncertain]

  lemma GroupsAll(g: Group)
    ensures g in GROUPS
  {
    match g {
      case Durable => assert g == GROUPS[0];
      case Ongoing => assert g == GROUPS[1];
      case Mixed => assert g == GROUPS[2];
      case Protected => assert g == GROUPS[3];
      case Change => assert g == GROUPS[4];
      case ShortTerm => assert g == GROUPS[5];
      case Momentary => assert g == GROUPS[6];
      case Common => assert g == GROUPS[7];
      case ChangeWithoutPrior => assert g == GROUPS[8];
      case TaskLocal => assert g == GROUPS[9];
      case Uncertain => assert g == GROUPS[10];
    }
  }

  method AnyGroupFails(names: seq<Group>, groups: map<Group, GroupReport>) returns (failed: bool)
    requires forall g :: g in groups
    ensures failed <==> exists k :: 0 <= k < |names| && GroupFails(names[k], groups[names[k]])
  {
    failed := false;
    for i := 0 to |names|
      invariant failed <==> exists k :: 0 <= k < i && GroupFails(names[k], groups[names[k]])
    {
      if GroupFails(names[i], groups[names[i]]) {
        failed := true;
      }
    }
  }

  lemma SomeGroupFails(groups: map<Group, GroupReport>, results: seq<Result>, names: seq<Group>)
    requires Tables(groups, results) && forall g :: g in names
    ensures (exists k :: 0 <= k < |names| && GroupFails(names[k], groups[names[k]])) <==>
            !forall g :: !GroupFails(g, ReportOf(Own(results, g)))
  {
    if g :| GroupFails(g, ReportOf(Own(results, g))) {
      assert g in names;
      var k :| 0 <= k < |names| && names[k] == g;
      assert GroupFails(names[k], groups[names[k]]);
    }
  }

  /** The summary: a report for each group, the number of degraded calls and codes, and the status. */
  method Summarize(results: seq<Result>, codes: seq<string>, states: seq<string>, expected: nat)
    returns (groups: map<Group, GroupReport>, degraded: nat, passed: bool)
    ensures Tables(groups, results) && degraded == Degraded(codes, states)
    ensures passed <==> Passes(results, codes, states, expected)
  {
    groups := SummarizeGroups(results);
    degraded := CountDegraded(codes, states);
    var failed := AnyGroupFails(GROUPS, groups);
    forall g: Group ensures g in GROUPS {
      GroupsAll(g);
    }
    SomeGroupFails(groups, results, GROUPS);
    passed := degraded == 0 && !failed && |results| == expected;
  }

  // ---------------------------------------------------------------- what a pass means

  /** Each verdict is the judge's for what was observed. */
  ghost predicate FromRuns(results: seq<Result>, seen: seq<Observation>) {
    |seen| == |results| && forall i :: 0 <= i < |results| ==> Judged(results[i].scenario, seen[i], results[i].verdict)
  }

  ghost predicate Exclusive(s: seq<Result>) {
    forall r :: r in s && r.verdict.passed() ==> !r.verdict.miss && r.verdict.falseSaves == 0
  }

  lemma JudgedExclusive(results: seq<Result>, seen: seq<Observation>)
    requires FromRuns(results, seen)
    ensures Exclusive(results)
  {
    forall r | r in results && r.verdict.passed() ensures !r.verdict.miss && r.verdict.falseSaves == 0 {
      var i :| 0 <= i < |results| && results[i] == r;
      assert Judged(r.scenario, seen[i], r.verdict);
    }
  }

  lemma {:induction false} PassedOrMissed(s: seq<Result>)
    requires Exclusive(s)
    ensures Count(DidPass(), s) + Count(DidMiss(), s) <= |s|
    ensures Count(DidPass(), s) + Count(DidMiss(), s) == |s| <==> forall r :: r in s ==> r.verdict.passed() || r.verdict.miss
  {
    if s != [] {
      var init, last := s[..|s| - 1], s[|s| - 1];
      assert s == init + [last];
      PassedOrMissed(init);
      CountNext(DidPass(), init, last);
      CountNext(DidMiss(), init, last);
    }
  }

  lemma OwnElements(results: seq<Result>, g: Group)
    ensures forall r :: r in Own(results, g) <==> r in results && r.scenario.group == g
  {
    FilterElements(InGroup(g), results);
  }

  lemma GroupPasses(results: seq<Result>, g: Group)
    requires Exclusive(results)
    ensures !GroupFails(g, ReportOf(Own(results, g))) <==>
            (forall r :: r in results && r.scenario.group == g ==> r.verdict.passed() || (!Strict(g) && r.verdict.miss)) &&
            (Strict(g) || Count(DidMiss(), Own(results, g)) <= 1)
  {
    var own := Own(results, g);
    OwnElements(results, g);
    FilterAll(DidPass(), own);
    PassedOrMissed(own);
  }

  /** A run passes exactly when nothing degraded, all scenarios ran, and all pass but for one miss each in the two lenient groups. */
  lemma PassesIff(results: seq<Result>, codes: seq<string>, states: seq<string>, expected: nat)
    requires Exclusive(results)
    ensures Passes(results, codes, states, expected) <==>
            && codes == [] && (forall s :: s in states ==> Healthy(s)) && |results| == expected
            && (forall r :: r in results ==> r.verdict.passed() || (!Strict(r.scenario.group) && r.verdict.miss))
            && Count(DidMiss(), Own(results, Durable)) <= 1 && Count(DidMiss(), Own(results, Ongoing)) <= 1
  {
    NoneUnhealthy(states);
    forall g ensures !GroupFails(g, ReportOf(Own(results, g))) <==>
                     (forall r :: r in results && r.scenario.group == g ==> r.verdict.passed() || (!Strict(g) && r.verdict.miss)) &&
                     (Strict(g) || Count(DidMiss(), Own(results, g)) <= 1)
    {
      GroupPasses(results, g);
    }
  }

  lemma CountIs(p: Result -> bool, results: seq<Result>)
    ensures Count(p, results) == |Places(results, p)|
  {
    FilterCount(p, results);
  }

  lemma {:induction false} CountBoth(p: Result -> bool, q: Result -> bool, both: Result -> bool, results: seq<Result>)
    requires forall r :: both(r) <==> p(r) && q(r)
    ensures Count(p, Filter(q, results)) == Count(both, results)
  {
    if results != [] {
      var init, last := results[..|results| - 1], results[|results| - 1];
      assert results == init + [last];
      CountBoth(p, q, both, init);
      FilterNext(q, init, last);
      CountNext(p, Filter(q, init), last);
      CountNext(both, init, last);
    }
  }

  /** How many results of the group are of a kind. */
  lemma InGroupAre(p: Result -> bool, g: Group, results: seq<Result>, kind: Result -> bool)
    requires forall r :: kind(r) <==> r.scenario.group == g && p(r)
    ensures Count(p, Own(results, g)) == |Places(results, kind)|
  {
    CountBoth(p, InGroup(g), kind, results);
    CountIs(kind, results);
  }

  /** The figures of a group's report, as the number of its results of each kind. */
  lemma ReportMeans(results: seq<Result>, g: Group)
    ensures var report := ReportOf(Own(results, g));
            && report.all.scenarios == |Places(results, (r: Result) => r.scenario.group == g)|
            && report.all.passed == |Places(results, (r: Result) => r.scenario.group == g && r.verdict.reason == Passed)|
            && report.all.misses == |Places(results, (r: Result) => r.scenario.group == g && r.verdict.miss)|
            && report.saved == |Places(results, (r: Result) => r.scenario.group == g && r.verdict.correctSaves + r.verdict.falseSaves > 0)|
            && report.notSaved == |Places(results, (r: Result) => r.scenario.group == g && r.verdict.correctSaves + r.verdict.falseSaves == 0)|
  {
    CountBoth((r: Result) => true, InGroup(g), (r: Result) => r.scenario.group == g, results);
    CountIs((r: Result) => r.scenario.group == g, results);
    FilterAll((r: Result) => true, Own(results, g));
    InGroupAre(DidPass(), g, results, (r: Result) => r.scenario.group == g && r.verdict.reason == Passed);
    InGroupAre(DidMiss(), g, results, (r: Result) => r.scenario.group == g && r.verdict.miss);
    InGroupAre(DidSave(), g, results, (r: Result) => r.scenario.group == g && r.verdict.correctSaves + r.verdict.falseSaves > 0);
    InGroupAre(SavedNothing(), g, results, (r: Result) => r.scenario.group == g && r.verdict.correctSaves + r.verdict.falseSaves == 0);
  }

  /** The same for the results in one language. */
  lemma LanguageMeans(results: seq<Result>, g: Group, l: Language)
    ensures var report := ReportOf(Own(results, g));
            var part := if l == En then report.en else report.ru;
            && part.scenarios == |Places(results, (r: Result) => r.scenario.group == g && r.scenario.language == l)|
            && part.passed == |Places(results, (r: Result) => r.scenario.group == g && r.scenario.language == l && r.verdict.reason == Passed)|
            && part.misses == |Places(results, (r: Result) => r.scenario.group == g && r.scenario.language == l && r.verdict.miss)|
  {
    SpokenAre((r: Result) => true, g, l, results, (r: Result) => r.scenario.group == g && r.scenario.language == l);
    FilterAll((r: Result) => true, Spoken(Own(results, g), l));
    SpokenAre(DidPass(), g, l, results, (r: Result) => r.scenario.group == g && r.scenario.language == l && r.verdict.reason == Passed);
    SpokenAre(DidMiss(), g, l, results, (r: Result) => r.scenario.group == g && r.scenario.language == l && r.verdict.miss);
  }

  lemma SpokenAre(p: Result -> bool, g: Group, l: Language, results: seq<Result>, kind: Result -> bool)
    requires forall r :: kind(r) <==> r.scenario.group == g && r.scenario.language == l && p(r)
    ensures Count(p, Spoken(Own(results, g), l)) == |Places(results, kind)|
  {
    var inner := (r: Result) => r.scenario.language == l && p(r);
    CountBoth(p, InLanguage(l), inner, Own(results, g));
    CountBoth(inner, InGroup(g), kind, results);
    CountIs(kind, results);
  }

  /** The failures counted are the reasons that are no pass, and the false saves those of all results. */
  lemma {:induction false} FailuresMean(results: seq<Result>, reason: Reason)
    ensures Failures(results)[reason] == if reason == Passed then 0 else |Places(results, (r: Result) => r.verdict.reason == reason)|
  {
    var p := (r: Result) => r.verdict.reason == reason;
    if results == [] {
      assert Places(results, p) == {};
    } else {
      var init, n := results[..|results| - 1], |results| - 1;
      assert results == init + [results[n]];
      FailuresMean(init, reason);
      SumsNext(init, results[n]);
      CountIs(p, init);
      CountIs(p, results);
      CountNext(p, init, results[n]);
    }
  }

  /** When a run passes, from its results alone: no code, every call over, all scenarios, and at most one miss in a lenient group. */
  lemma PassesMeans(results: seq<Result>, seen: seq<Observation>, codes: seq<string>, states: seq<string>, expected: nat)
    requires FromRuns(results, seen)
    ensures Passes(results, codes, states, expected) <==>
            && codes == [] && (forall s :: s in states ==> s == "SUCCEEDED" || s == "RETRIED") && |results| == expected
            && (forall i :: 0 <= i < |results| ==>
                  results[i].verdict.reason == Passed || ((results[i].scenario.group == Durable || results[i].scenario.group == Ongoing) && results[i].verdict.miss))
            && (forall i, j :: 0 <= i < j < |results| && results[i].verdict.miss && results[j].verdict.miss ==>
                  results[i].scenario.group != results[j].scenario.group)
  {
    JudgedExclusive(results, seen);
    PassesIff(results, codes, states, expected);
    OneMissIff(results, Durable);
    OneMissIff(results, Ongoing);
    AllIn(results);
    hide Passes, FromRuns, Judged;
    forall s ensures Healthy(s) <==> s == "SUCCEEDED" || s == "RETRIED" {
    }
    if Passes(results, codes, states, expected) {
      LenientMisses(results, seen);
    }
  }

  lemma AllIn(results: seq<Result>)
    ensures (forall r :: r in results ==> r.verdict.passed() || (!Strict(r.scenario.group) && r.verdict.miss)) <==>
            forall i :: 0 <= i < |results| ==>
              results[i].verdict.reason == Passed || ((results[i].scenario.group == Durable || results[i].scenario.group == Ongoing) && results[i].verdict.miss)
  {
    forall i | 0 <= i < |results| ensures results[i] in results {
    }
  }

  /** Where all pass or miss in a lenient group, every miss is in one. */
  lemma LenientMisses(results: seq<Result>, seen: seq<Observation>)
    requires Exclusive(results)
    requires forall i :: 0 <= i < |results| ==>
               results[i].verdict.reason == Passed || ((results[i].scenario.group == Durable || results[i].scenario.group == Ongoing) && results[i].verdict.miss)
    ensures forall i :: 0 <= i < |results| && results[i].verdict.miss ==> results[i].scenario.group == Durable || results[i].scenario.group == Ongoing
  {
    forall i | 0 <= i < |results| && results[i].verdict.miss ensures results[i].scenario.group == Durable || results[i].scenario.group == Ongoing {
      assert results[i] in results;
    }
  }

  lemma OneMissIff(results: seq<Result>, g: Group)
    ensures Count(DidMiss(), Own(results, g)) <= 1 <==>
            forall i, j :: 0 <= i < j < |results| && results[i].verdict.miss && results[j].verdict.miss && results[i].scenario.group == g ==>
              results[j].scenario.group != g
  {
    var kind := (r: Result) => r.scenario.group == g && r.verdict.miss;
    InGroupAre(DidMiss(), g, results, kind);
    AtMostOne(results, kind);
  }

  lemma AtMostOne(results: seq<Result>, p: Result -> bool)
    ensures |Places(results, p)| <= 1 <==> forall i, j :: 0 <= i < j < |results| && p(results[i]) ==> !p(results[j])
  {
    var at := Places(results, p);
    if i: nat, j: nat :| i < j < |results| && p(results[i]) && p(results[j]) {
      assert {i, j} <= at && |{i, j}| == 2;
      SubsetSize({i, j}, at);
    } else if i :| i in at {
      assert at == {i};
    }
  }

  lemma SubsetSize(small: set<nat>, large: set<nat>)
    requires small <= large
    ensures |small| <= |large|
  {
    assert large == small + (large - small);
  }

  lemma NoneUnhealthy(states: seq<string>)
    ensures |Filter((s: string) => !Healthy(s), states)| == 0 <==> forall s :: s in states ==> Healthy(s)
  {
    var unhealthy := (s: string) => !Healthy(s);
    FilterElements(unhealthy, states);
    if |Filter(unhealthy, states)| > 0 {
      assert Filter(unhealthy, states)[0] in states;
    }
  }

  /** In a passed run every protected scenario was saved, and what was saved was to be remembered. */
  lemma PassedProtects(results: seq<Result>, seen: seq<Observation>, codes: seq<string>, states: seq<string>, expected: nat, i: nat)
    requires FromRuns(results, seen) && Passes(results, codes, states, expected)
    requires i < |results| && results[i].scenario.group == Protected && results[i].scenario.expectation == Save
    ensures exists s :: s in seen[i].saved && s.explicitRemember && Meets(results[i].scenario, s)
    ensures AllCorrect(results[i].scenario, seen[i].saved)
  {
    JudgedExclusive(results, seen);
    PassesIff(results, codes, states, expected);
    assert results[i] in results && Strict(Protected);
    VerdictMeans(results[i].scenario, seen[i], results[i].verdict);
  }

  lemma {:induction false} NoFalseSaves(s: seq<Result>)
    ensures FalseSaves(s) == 0 <==> forall r :: r in s ==> r.verdict.falseSaves == 0
  {
    if s != [] {
      NoFalseSaves(s[..|s| - 1]);
      assert s == s[..|s| - 1] + [s[|s| - 1]];
    }
  }

  /** In a passed run false saves can only hide in a scenario of a lenient group that counts as missed. */
  lemma {:induction false} FalseSavesHideInMisses(results: seq<Result>, seen: seq<Observation>, codes: seq<string>, states: seq<string>, expected: nat)
    requires FromRuns(results, seen) && Passes(results, codes, states, expected)
    requires forall r :: r in results ==> r.scenario.expectation == ExpectationOf(r.scenario.group)
    ensures FalseSaves(results) == 0 <==> forall i :: 0 <= i < |results| && results[i].verdict.miss ==> seen[i].saved == []
  {
    JudgedExclusive(results, seen);
    PassesIff(results, codes, states, expected);
    NoFalseSaves(results);
    forall i | 0 <= i < |results|
      ensures results[i].verdict.falseSaves == 0 <==> (results[i].verdict.miss ==> seen[i].saved == [])
    {
      var r := results[i];
      assert r in results && Judged(r.scenario, seen[i], r.verdict);
    }
  }

  /** A lenient scenario allows its whole text, and any number of saves. */
  ghost predicate WholeText(scenario: Scenario) {
    scenario.allowed == [Span(0, |scenario.text|)] && scenario.maxSaves == None
  }

  ghost predicate Reaches(span: Span, text: string) {
    span.start < |text| && span.end > 0
  }

  lemma WholeTextSaves(scenario: Scenario, saved: seq<Saved>)
    requires WholeText(scenario) && scenario.expectation == Save
    ensures Correct(scenario, saved) == |saved| <==> forall s :: s in saved ==> Reaches(s.span, scenario.text)
  {
    FilterAll(Matching(scenario), saved);
    forall s: Saved ensures Matching(scenario)(s) <==> Reaches(s.span, scenario.text) {
      if Reaches(s.span, scenario.text) {
        assert Overlaps(s.span, scenario.allowed[0]);
      }
    }
  }

  /** A passed run has no false save exactly when what the lenient scenarios saved reaches into their texts. */
  lemma {:induction false} ZeroFalseSavesIff(results: seq<Result>, seen: seq<Observation>, codes: seq<string>, states: seq<string>, expected: nat)
    requires FromRuns(results, seen) && Passes(results, codes, states, expected)
    requires forall r :: r in results ==> r.scenario.expectation == ExpectationOf(r.scenario.group)
    requires forall r :: r in results && !Strict(r.scenario.group) ==> WholeText(r.scenario)
    ensures FalseSaves(results) == 0 <==>
            forall i :: 0 <= i < |results| && !Strict(results[i].scenario.group) ==>
              forall s :: s in seen[i].saved ==> Reaches(s.span, results[i].scenario.text)
  {
    JudgedExclusive(results, seen);
    PassesIff(results, codes, states, expected);
    NoFalseSaves(results);
    forall i | 0 <= i < |results|
      ensures results[i].verdict.falseSaves == 0 <==>
              (!Strict(results[i].scenario.group) ==> forall s :: s in seen[i].saved ==> Reaches(s.span, results[i].scenario.text))
    {
      var r := results[i];
      assert r in results && Judged(r.scenario, seen[i], r.verdict);
      if !Strict(r.scenario.group) {
        WholeTextSaves(r.scenario, seen[i].saved);
      }
    }
  }

  /** One save just past the scenario's text. */
  function PastTheText(scenario: Scenario): Observation {
    Observation([Saved(Span(|scenario.text|, |scenario.text| + 1), false)], false, false)
  }

  const HIDDEN := Verdict(0, 1, true, FalseSave)

  /**
   * Any passing run that misses no durable scenario still passes when one of them saves just past its text instead: that
   * false save counts as the one permitted miss.
   */
  lemma HiddenFalseSave(results: seq<Result>, seen: seq<Observation>, codes: seq<string>, states: seq<string>, expected: nat, i: nat)
    requires FromRuns(results, seen) && Passes(results, codes, states, expected)
    requires forall r :: r in results && r.scenario.group == Durable ==> !r.verdict.miss
    requires i < |results| && results[i].scenario.group == Durable && results[i].scenario.expectation == Save && WholeText(results[i].scenario)
    ensures var scenario := results[i].scenario;
            var after := results[i := Result(scenario, HIDDEN)];
            FromRuns(after, seen[i := PastTheText(scenario)]) && Passes(after, codes, states, expected) &&
            FalseSaves(after) == FalseSaves(results) + 1
  {
    hide Passes, FalseSaves;
    var scenario, was := results[i].scenario, results[i];
    var hidden := Result(scenario, HIDDEN);
    var after, seenAfter := results[i := hidden], seen[i := PastTheText(scenario)];
    JudgedHidden(scenario);
    assert FromRuns(after, seenAfter);
    JudgedExclusive(results, seen);
    JudgedExclusive(after, seenAfter);
    PassesIff(results, codes, states, expected);
    assert was in results;
    PassesIff(after, codes, states, expected);
    MissesChange(results, i, hidden, Durable);
    MissesChange(results, i, hidden, Ongoing);
    NoMisses(results, Durable);
    FalseSavesChange(results, i, hidden);
  }

  lemma JudgedHidden(scenario: Scenario)
    requires scenario.group == Durable && scenario.expectation == Save && WholeText(scenario)
    ensures Judged(scenario, PastTheText(scenario), HIDDEN)
  {
    OneSave(scenario, PastTheText(scenario).saved[0]);
  }

  lemma OneSave(scenario: Scenario, s: Saved)
    requires !Allows(scenario, s.span) && scenario.maxSaves == None
    ensures Correct(scenario, [s]) == 0
  {
    assert [s][..0] == [];
    assert Filter(Matching(scenario), []) == [];
  }

  function Misses(s: seq<Result>, g: Group): nat {
    Count(DidMiss(), Own(s, g))
  }

  lemma MissesNext(s: seq<Result>, r: Result, g: Group)
    ensures Misses(s + [r], g) == Misses(s, g) + if r.scenario.group == g && r.verdict.miss then 1 else 0
  {
    OwnNext(s, r, g);
    if r.scenario.group == g {
      CountNext(DidMiss(), Own(s, g), r);
    }
  }

  /** One result for another of its group changes that group's misses by at most one, and no other's. */
  lemma {:induction false} MissesChange(s: seq<Result>, i: nat, r: Result, g: Group)
    requires i < |s| && s[i].scenario == r.scenario
    ensures Misses(s[i := r], g) <= Misses(s, g) + 1 && (r.scenario.group != g ==> Misses(s[i := r], g) == Misses(s, g))
  {
    hide Misses;
    var init, last := s[..|s| - 1], s[|s| - 1];
    assert s == init + [last];
    MissesNext(init, last, g);
    if i < |init| {
      MissesChange(init, i, r, g);
      assert s[i := r] == init[i := r] + [last];
      MissesNext(init[i := r], last, g);
    } else {
      assert s[i := r] == init + [r];
      MissesNext(init, r, g);
    }
  }

  lemma NoMisses(s: seq<Result>, g: Group)
    requires forall r :: r in s && r.scenario.group == g ==> !r.verdict.miss
    ensures Misses(s, g) == 0
  {
    OwnElements(s, g);
    FilterElements(DidMiss(), Own(s, g));
    if Filter(DidMiss(), Own(s, g)) != [] {
      assert Filter(DidMiss(), Own(s, g))[0] in Own(s, g);
    }
  }

  lemma {:induction false} FalseSavesChange(s: seq<Result>, i: nat, r: Result)
    requires i < |s|
    ensures FalseSaves(s[i := r]) == FalseSaves(s) - s[i].verdict.falseSaves + r.verdict.falseSaves
  {
    var init, last := s[..|s| - 1], s[|s| - 1];
    var after := s[i := r];
    assert after[..|after| - 1] == if i < |init| then init[i := r] else init;
    if i < |init| {
      FalseSavesChange(init, i, r);
    }
  }

  // ---------------------------------------------------------------- reported call states

  datatype Stage = Extracting | Adjudicating
  datatype Call = Call(stage: Stage, state: string, error: Option<string>, job: Option<string>)

  /** `transient` stands for the pattern of transient extraction codes. */
  datatype Context = Context(transient: string -> bool, retryable: set<string>, succeeded: set<string>)

  predicate Adjudicated(calls: seq<Call>, job: string) {
    exists i :: 0 <= i < |calls| && calls[i].stage == Adjudicating && calls[i].state == "SUCCEEDED" &&
      calls[i].job == Some(job) && job != ""
  }

  function CallState(calls: seq<Call>, c: Call, context: Context): string {
    if c.state != "FAILED" || c.job.None? || c.job.value !in context.succeeded then c.state
    else
      var code := if c.error.Some? then c.error.value else "";
      var retried := if c.stage == Extracting then context.transient(code)
                     else code in context.retryable && Adjudicated(calls, c.job.value);
      if retried then "RETRIED" else c.state
  }

  function CallStates(calls: seq<Call>, context: Context): seq<string> {
    seq(|calls|, i requires 0 <= i < |calls| => CallState(calls, calls[i], context))
  }

  /** The call failed, but its job went on to succeed: an adjudication's with an adjudication of its own. */
  ghost predicate Recovered(calls: seq<Call>, c: Call, context: Context) {
    c.state == "FAILED" && c.job.Some? && c.job.value in context.succeeded &&
    var code := if c.error.Some? then c.error.value else "";
    if c.stage == Extracting then context.transient(code)
    else code in context.retryable && exists d :: d in calls && d.stage == Adjudicating && d.state == "SUCCEEDED" && d.job == c.job
  }

  /** A call is reported as retried exactly when it recovered, and otherwise as it ended. */
  lemma CallStateIs(calls: seq<Call>, c: Call, context: Context)
    ensures CallState(calls, c, context) ==
            if Recovered(calls, c, context) && (c.stage == Adjudicating ==> c.job != Some("")) then "RETRIED" else c.state
  {
    if c.stage == Adjudicating && c.job.Some? {
      if k :| 0 <= k < |calls| && calls[k].stage == Adjudicating && calls[k].state == "SUCCEEDED" && calls[k].job == c.job {
        assert calls[k] in calls;
      }
    }
  }

  /** A run that passes made only calls that succeeded, or whose jobs recovered from them. */
  lemma PassedCallsRecovered(results: seq<Result>, codes: seq<string>, calls: seq<Call>, context: Context, expected: nat)
    requires Exclusive(results) && forall c :: c in calls ==> c.state != "RETRIED" && c.job != Some("")
    requires Passes(results, codes, CallStates(calls, context), expected)
    ensures forall c :: c in calls ==> c.state == "SUCCEEDED" || Recovered(calls, c, context)
  {
    PassesIff(results, codes, CallStates(calls, context), expected);
    var states := CallStates(calls, context);
    forall c | c in calls ensures c.state == "SUCCEEDED" || Recovered(calls, c, context) {
      var i :| 0 <= i < |calls| && calls[i] == c;
      assert states[i] in states;
      if c.state != "SUCCEEDED" && c.stage == Adjudicating {
        assert Adjudicated(calls, c.job.value);
        var k :| 0 <= k < |calls| && calls[k].stage == Adjudicating && calls[k].state == "SUCCEEDED" && calls[k].job == c.job;
        assert calls[k] in calls;
      }
    }
  }
}
