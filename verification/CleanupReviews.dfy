/** What the stored reviews of memory facts attest: which facts were reviewed, removed or settled, and how often. */
module CleanupReviews {
  import opened Wrappers
  import opened Permutations

  datatype Version = Version(id: string, fact: string)
  datatype Review = Review(version: string, job: Option<string>, policy: string, disposition: string, reason: Option<string>)

  datatype Input = Input(currentPolicy: string, supported: seq<string>, succeeded: seq<string>, active: seq<string>,
                         versions: seq<Version>)

  datatype Outcomes = Outcomes(kept: nat, rejected: nat, removed: nat, blocked: nat, unreviewable: nat)
  datatype Summary = Summary(reviewed: set<string>, removed: set<string>, settled: set<string>,
                             outcomes: Outcomes, reasons: multiset<string>, jobs: seq<string>)

  const REASONS: seq<string> := ["pending_relation", "evidence_without_offsets", "source_changed",
                                 "unreviewable_context", "statement_too_long", "evidence_not_current"]

  // ---------------------------------------------------------------- what one review says

  /** The fact of a version; of two entries for one version the later counts. */
  function FactByVersion(versions: seq<Version>, id: string): Option<string> {
    if versions == [] then None
    else if versions[|versions| - 1].id == id then Some(versions[|versions| - 1].fact)
    else FactByVersion(versions[..|versions| - 1], id)
  }

  /** The review names a known fact and was made under a supported policy. */
  predicate Considered(q: Input, r: Review) {
    var fact := FactByVersion(q.versions, r.version);
    fact.Some? && fact.value != "" && r.policy in q.supported
  }

  function Fact(q: Input, r: Review): string {
    var fact := FactByVersion(q.versions, r.version);
    if fact.Some? then fact.value else ""
  }

  predicate Committed(q: Input, r: Review) {
    Considered(q, r) && r.job.Some? && r.job.value in q.succeeded
  }

  predicate Blocked(q: Input, r: Review, disposition: string) {
    Considered(q, r) && r.policy == q.currentPolicy && r.disposition == disposition &&
    (r.job.None? || r.job.value in q.succeeded)
  }

  predicate Settles(q: Input, r: Review) {
    Blocked(q, r, "BLOCKED") || Blocked(q, r, "UNREVIEWABLE")
  }

  predicate Attests(q: Input, r: Review) {
    Committed(q, r) && r.disposition == "REMOVED"
  }

  predicate Current(q: Input, r: Review, disposition: string) {
    Committed(q, r) && r.policy == q.currentPolicy && r.disposition == disposition
  }

  /** The fact counts as reviewed: under the current policy, or because it was removed and is gone. */
  predicate Covers(q: Input, r: Review) {
    Current(q, r, "KEEP") || Current(q, r, "REJECTED") || Current(q, r, "REMOVED") || (Attests(q, r) && Fact(q, r) !in q.active)
  }

  // ---------------------------------------------------------------- the summary

  function Facts(q: Input, p: (Input, Review) -> bool, reviews: seq<Review>): set<string> {
    set r | r in reviews && p(q, r) :: Fact(q, r)
  }

  function Count(p: Review -> bool, reviews: seq<Review>): nat {
    |Filter(p, reviews)|
  }

  function Is(q: Input, disposition: string): Review -> bool {
    (r: Review) => Current(q, r, disposition)
  }

  function IsBlocked(q: Input, disposition: string): Review -> bool {
    (r: Review) => Blocked(q, r, disposition)
  }

  function ReasonOf(q: Input): Review -> seq<string> {
    (r: Review) => if Settles(q, r) && r.reason.Some? && r.reason.value in REASONS then [r.reason.value] else []
  }

  function OutcomesOf(q: Input, reviews: seq<Review>): Outcomes {
    Outcomes(Count(Is(q, "KEEP"), reviews), Count(Is(q, "REJECTED"), reviews), Count(Is(q, "REMOVED"), reviews),
             Count(IsBlocked(q, "BLOCKED"), reviews), Count(IsBlocked(q, "UNREVIEWABLE"), reviews))
  }

  /** The succeeded jobs, each once, in the order of their first mention. */
  function Jobs(q: Input): seq<string> {
    Firsts((job: string) => job, q.succeeded)
  }

  function Summarized(q: Input, reviews: seq<Review>): Summary {
    Summary(Facts(q, Covers, reviews), Facts(q, Attests, reviews), Facts(q, Settles, reviews),
            OutcomesOf(q, reviews), multiset(FlatMap(ReasonOf(q), reviews)), Jobs(q))
  }

  lemma FactsNext(q: Input, p: (Input, Review) -> bool, reviews: seq<Review>, r: Review)
    ensures Facts(q, p, reviews + [r]) == if p(q, r) then Facts(q, p, reviews) + {Fact(q, r)} else Facts(q, p, reviews)
  {
  }

  lemma CountNext(p: Review -> bool, reviews: seq<Review>, r: Review)
    ensures Count(p, reviews + [r]) == if p(r) then Count(p, reviews) + 1 else Count(p, reviews)
  {
    assert (reviews + [r])[..|reviews|] == reviews;
  }

  lemma OutcomesNext(q: Input, reviews: seq<Review>, r: Review)
    ensures var o := OutcomesOf(q, reviews);
            OutcomesOf(q, reviews + [r]) ==
            Outcomes(if Current(q, r, "KEEP") then o.kept + 1 else o.kept,
                     if Current(q, r, "REJECTED") then o.rejected + 1 else o.rejected,
                     if Current(q, r, "REMOVED") then o.removed + 1 else o.removed,
                     if Blocked(q, r, "BLOCKED") then o.blocked + 1 else o.blocked,
                     if Blocked(q, r, "UNREVIEWABLE") then o.unreviewable + 1 else o.unreviewable)
  {
    CountNext(Is(q, "KEEP"), reviews, r);
    CountNext(Is(q, "REJECTED"), reviews, r);
    CountNext(Is(q, "REMOVED"), reviews, r);
    CountNext(IsBlocked(q, "BLOCKED"), reviews, r);
    CountNext(IsBlocked(q, "UNREVIEWABLE"), reviews, r);
  }

  lemma ReasonsNext(q: Input, reviews: seq<Review>, r: Review)
    ensures multiset(FlatMap(ReasonOf(q), reviews + [r])) == multiset(FlatMap(ReasonOf(q), reviews)) + multiset(ReasonOf(q)(r))
  {
    assert (reviews + [r])[..|reviews|] == reviews;
  }

  /** The summary with one more review, as the branches of the loop take it. */
  method AddReview(q: Input, ghost reviews: seq<Review>, before: Summary, item: Review) returns (s: Summary)
    requires before == Summarized(q, reviews)
    ensures s == Summarized(q, reviews + [item])
  {
    hide Covers, Attests, Settles, Facts, OutcomesOf, Current, Blocked, ReasonOf, Fact;
    FactsNext(q, Covers, reviews, item);
    FactsNext(q, Attests, reviews, item);
    FactsNext(q, Settles, reviews, item);
    OutcomesNext(q, reviews, item);
    ReasonsNext(q, reviews, item);
    s := Step(q, before, item);
  }

  method Step(q: Input, before: Summary, item: Review) returns (s: Summary)
    ensures s.reviewed == if Covers(q, item) then before.reviewed + {Fact(q, item)} else before.reviewed
    ensures s.removed == if Attests(q, item) then before.removed + {Fact(q, item)} else before.removed
    ensures s.settled == if Settles(q, item) then before.settled + {Fact(q, item)} else before.settled
    ensures var o := before.outcomes;
            s.outcomes == Outcomes(if Current(q, item, "KEEP") then o.kept + 1 else o.kept,
                                   if Current(q, item, "REJECTED") then o.rejected + 1 else o.rejected,
                                   if Current(q, item, "REMOVED") then o.removed + 1 else o.removed,
                                   if Blocked(q, item, "BLOCKED") then o.blocked + 1 else o.blocked,
                                   if Blocked(q, item, "UNREVIEWABLE") then o.unreviewable + 1 else o.unreviewable)
    ensures s.reasons == before.reasons + multiset(ReasonOf(q)(item)) && s.jobs == before.jobs
  {
    s := before;
    var fact := FactByVersion(q.versions, item.version);
    if fact.None? || fact.value == "" || item.policy !in q.supported { return; }
    var current := item.policy == q.currentPolicy;
    if current && (item.disposition == "BLOCKED" || item.disposition == "UNREVIEWABLE") && (item.job.None? || item.job.value in q.succeeded) {
      s := s.(settled := s.settled + {fact.value},
              outcomes := if item.disposition == "BLOCKED" then s.outcomes.(blocked := s.outcomes.blocked + 1)
                          else s.outcomes.(unreviewable := s.outcomes.unreviewable + 1));
      if item.reason.Some? && item.reason.value in REASONS {
        s := s.(reasons := s.reasons + multiset{item.reason.value});
      }
      return;
    }
    if item.job.None? || item.job.value !in q.succeeded { return; }
    if item.disposition == "REMOVED" {
      s := s.(removed := s.removed + {fact.value});
      if current { s := s.(outcomes := s.outcomes.(removed := s.outcomes.removed + 1)); }
      if fact.value !in q.active || current { s := s.(reviewed := s.reviewed + {fact.value}); }
    } else if current && (item.disposition == "KEEP" || item.disposition == "REJECTED") {
      s := s.(reviewed := s.reviewed + {fact.value},
              outcomes := if item.disposition == "KEEP" then s.outcomes.(kept := s.outcomes.kept + 1)
                          else s.outcomes.(rejected := s.outcomes.rejected + 1));
    }
  }

  lemma NoReviews(q: Input)
    ensures Summarized(q, []) == Summary({}, {}, {}, Outcomes(0, 0, 0, 0, 0), multiset{}, Jobs(q))
  {
  }

  method SummarizeReviews(q: Input, reviews: seq<Review>) returns (s: Summary)
    ensures s == Summarized(q, reviews) && CoverageIsCurrent(q, reviews, s)
  {
    SummaryIsCurrent(q, reviews);
    s := Summary({}, {}, {}, Outcomes(0, 0, 0, 0, 0), multiset{}, Jobs(q));
    NoReviews(q);
    hide CoverageIsCurrent, Summarized, Jobs;
    for i := 0 to |reviews|
      invariant s == Summarized(q, reviews[..i])
    {
      assert reviews[..i + 1] == reviews[..i] + [reviews[i]];
      s := AddReview(q, reviews[..i], s, reviews[i]);
    }
    assert reviews[..|reviews|] == reviews;
  }

  // ---------------------------------------------------------------- what the summary means

  /** The fact of the last version listed under the id. */
  lemma {:induction false} LastVersion(versions: seq<Version>, id: string)
    ensures FactByVersion(versions, id) == None <==> forall k :: 0 <= k < |versions| ==> versions[k].id != id
    ensures FactByVersion(versions, id).Some? ==>
              exists k :: 0 <= k < |versions| && versions[k] == Version(id, FactByVersion(versions, id).value) &&
                forall l :: k < l < |versions| ==> versions[l].id != id
  {
    if versions != [] {
      var init := versions[..|versions| - 1];
      LastVersion(init, id);
      if versions[|init|].id != id && FactByVersion(init, id).Some? {
        var k :| 0 <= k < |init| && init[k] == Version(id, FactByVersion(init, id).value) && forall l :: k < l < |init| ==> init[l].id != id;
        assert versions[k] == init[k];
      }
    }
  }

  /** The review is of the fact, under a supported policy. */
  predicate IsOf(q: Input, r: Review, fact: string) {
    fact != "" && FactByVersion(q.versions, r.version) == Some(fact) && r.policy in q.supported
  }

  /** It was made in a job that succeeded. */
  predicate Succeeded(q: Input, r: Review) {
    r.job.Some? && r.job.value in q.succeeded
  }

  /** It attests that the fact was removed. */
  predicate Removes(q: Input, r: Review, fact: string) {
    IsOf(q, r, fact) && Succeeded(q, r) && r.disposition == "REMOVED"
  }

  /** It decided the fact under the current policy, or removed one that is gone. */
  predicate Decides(q: Input, r: Review, fact: string) {
    IsOf(q, r, fact) && Succeeded(q, r) &&
    ((r.policy == q.currentPolicy && r.disposition in {"KEEP", "REJECTED", "REMOVED"}) ||
     (r.disposition == "REMOVED" && fact !in q.active))
  }

  /** It found that the fact cannot be decided under the current policy. */
  predicate GivesUpOn(q: Input, r: Review, fact: string) {
    IsOf(q, r, fact) && (r.job.None? || Succeeded(q, r)) && r.policy == q.currentPolicy && r.disposition in {"BLOCKED", "UNREVIEWABLE"}
  }

  /** Which facts a summary names, from the reviews alone. */
  lemma SetsMean(q: Input, reviews: seq<Review>, fact: string)
    ensures fact in Summarized(q, reviews).removed <==> exists r :: r in reviews && Removes(q, r, fact)
    ensures fact in Summarized(q, reviews).reviewed <==> exists r :: r in reviews && Decides(q, r, fact)
    ensures fact in Summarized(q, reviews).settled <==> exists r :: r in reviews && GivesUpOn(q, r, fact)
  {
    forall r ensures (Attests(q, r) && Fact(q, r) == fact) <==> Removes(q, r, fact) {}
    forall r ensures (Covers(q, r) && Fact(q, r) == fact) <==> Decides(q, r, fact) {}
    forall r ensures (Settles(q, r) && Fact(q, r) == fact) <==> GivesUpOn(q, r, fact) {}
    hide Attests, Covers, Settles, Removes, Decides, GivesUpOn, Fact;
    InFacts(q, Attests, reviews, fact);
    InFacts(q, Covers, reviews, fact);
    InFacts(q, Settles, reviews, fact);
  }

  lemma InFacts(q: Input, p: (Input, Review) -> bool, reviews: seq<Review>, fact: string)
    ensures fact in Facts(q, p, reviews) <==> exists r :: r in reviews && p(q, r) && Fact(q, r) == fact
  {
  }

  /** A review under the current policy of a known fact, in a job that succeeded or, where none is needed, in none. */
  predicate Counts(q: Input, r: Review, disposition: string, jobless: bool) {
    && r.policy == q.currentPolicy && r.policy in q.supported && r.disposition == disposition
    && FactByVersion(q.versions, r.version).Some? && FactByVersion(q.versions, r.version) != Some("")
    && (Succeeded(q, r) || (jobless && r.job.None?))
  }

  /** Each outcome is the number of such reviews. */
  lemma OutcomesMean(q: Input, reviews: seq<Review>)
    ensures var o := Summarized(q, reviews).outcomes;
            && o.kept == |Places(reviews, (r: Review) => Counts(q, r, "KEEP", false))|
            && o.rejected == |Places(reviews, (r: Review) => Counts(q, r, "REJECTED", false))|
            && o.removed == |Places(reviews, (r: Review) => Counts(q, r, "REMOVED", false))|
            && o.blocked == |Places(reviews, (r: Review) => Counts(q, r, "BLOCKED", true))|
            && o.unreviewable == |Places(reviews, (r: Review) => Counts(q, r, "UNREVIEWABLE", true))|
  {
    CountMeans(q, reviews, "KEEP");
    CountMeans(q, reviews, "REJECTED");
    CountMeans(q, reviews, "REMOVED");
    BlockedMeans(q, reviews, "BLOCKED");
    BlockedMeans(q, reviews, "UNREVIEWABLE");
    hide Count, Places, Counts;
  }

  lemma CountMeans(q: Input, reviews: seq<Review>, disposition: string)
    ensures Count(Is(q, disposition), reviews) == |Places(reviews, (r: Review) => Counts(q, r, disposition, false))|
  {
    FilterCount(Is(q, disposition), reviews);
    assert Places(reviews, Is(q, disposition)) == Places(reviews, (r: Review) => Counts(q, r, disposition, false));
  }

  lemma BlockedMeans(q: Input, reviews: seq<Review>, disposition: string)
    ensures Count(IsBlocked(q, disposition), reviews) == |Places(reviews, (r: Review) => Counts(q, r, disposition, true))|
  {
    FilterCount(IsBlocked(q, disposition), reviews);
    assert Places(reviews, IsBlocked(q, disposition)) == Places(reviews, (r: Review) => Counts(q, r, disposition, true));
  }

  /** A reason is counted for each settling review that gives it, if it is one of the six. */
  lemma {:induction false} ReasonsMean(q: Input, reviews: seq<Review>, reason: string)
    ensures Summarized(q, reviews).reasons[reason] ==
            if reason in ["pending_relation", "evidence_without_offsets", "source_changed", "unreviewable_context", "statement_too_long",
                          "evidence_not_current"]
            then |Places(reviews, (r: Review) => r.reason == Some(reason) && (Counts(q, r, "BLOCKED", true) || Counts(q, r, "UNREVIEWABLE", true)))|
            else 0
  {
    var gives := (r: Review) => r.reason == Some(reason) && (Counts(q, r, "BLOCKED", true) || Counts(q, r, "UNREVIEWABLE", true));
    if reviews == [] {
      assert Places(reviews, gives) == {};
    } else {
      var init, last := reviews[..|reviews| - 1], reviews[|reviews| - 1];
      ReasonsMean(q, init, reason);
      assert reviews == init + [last];
      ReasonsNext(q, init, last);
      PlacesNext(reviews, gives);
      ReasonGiven(q, last, reason);
      hide Places, ReasonOf, Counts;
    }
  }

  lemma ReasonGiven(q: Input, r: Review, reason: string)
    ensures multiset(ReasonOf(q)(r))[reason] ==
            if reason in REASONS && r.reason == Some(reason) && (Counts(q, r, "BLOCKED", true) || Counts(q, r, "UNREVIEWABLE", true)) then 1 else 0
  {
  }

  // ---------------------------------------------------------------- the order of the reviews

  lemma {:induction false} FilterIsFlatMap(p: Review -> bool, reviews: seq<Review>)
    ensures Filter(p, reviews) == FlatMap((r: Review) => if p(r) then [r] else [], reviews)
  {
    if reviews != [] {
      FilterIsFlatMap(p, reviews[..|reviews| - 1]);
    }
  }

  lemma CountPermutes(p: Review -> bool, a: seq<Review>, b: seq<Review>)
    requires multiset(a) == multiset(b)
    ensures Count(p, a) == Count(p, b)
  {
    FilterIsFlatMap(p, a);
    FilterIsFlatMap(p, b);
    FlatMapPermutes((r: Review) => if p(r) then [r] else [], a, b);
    assert |Filter(p, a)| == |multiset(Filter(p, a))| && |Filter(p, b)| == |multiset(Filter(p, b))|;
  }

  lemma OutcomesPermute(q: Input, a: seq<Review>, b: seq<Review>)
    requires multiset(a) == multiset(b)
    ensures OutcomesOf(q, a) == OutcomesOf(q, b)
  {
    CountPermutes(Is(q, "KEEP"), a, b);
    CountPermutes(Is(q, "REJECTED"), a, b);
    CountPermutes(Is(q, "REMOVED"), a, b);
    CountPermutes(IsBlocked(q, "BLOCKED"), a, b);
    CountPermutes(IsBlocked(q, "UNREVIEWABLE"), a, b);
  }

  /** The summary does not depend on the order in which the reviews are read. */
  lemma ReviewOrderIrrelevant(q: Input, a: seq<Review>, b: seq<Review>)
    requires multiset(a) == multiset(b)
    ensures Summarized(q, a) == Summarized(q, b)
  {
    OutcomesPermute(q, a, b);
    FlatMapPermutes(ReasonOf(q), a, b);
    forall r ensures r in a <==> r in b {
      assert r in a <==> r in multiset(a);
      assert r in b <==> r in multiset(b);
    }
  }

  // ---------------------------------------------------------------- what the sets mean

  /** The review removed the fact under a supported policy, in a job that succeeded. */
  predicate RemovedBy(q: Input, r: Review, fact: string) {
    && FactByVersion(q.versions, r.version) == Some(fact)
    && r.policy in q.supported
    && r.disposition == "REMOVED"
    && r.job.Some? && r.job.value in q.succeeded
  }

  /** A fact counts as removed exactly when some review removed it. */
  lemma RemovedIsAttested(q: Input, reviews: seq<Review>, fact: string)
    ensures fact in Summarized(q, reviews).removed <==> fact != "" && exists r :: r in reviews && RemovedBy(q, r, fact)
  {
    if r :| r in reviews && fact != "" && RemovedBy(q, r, fact) {
      assert Attests(q, r) && Fact(q, r) == fact;
    }
    if fact in Summarized(q, reviews).removed {
      var r :| r in reviews && Attests(q, r) && Fact(q, r) == fact;
      assert RemovedBy(q, r, fact);
    }
  }

  /** A review under an older policy never makes an active fact count as reviewed; an older removal does for a fact that is gone. */
  ghost predicate CoverageIsCurrent(q: Input, reviews: seq<Review>, s: Summary) {
    && (forall fact :: fact in s.reviewed && fact in q.active ==> ReviewedNow(q, reviews, fact))
    && (forall fact :: fact in s.removed && fact !in q.active ==> fact in s.reviewed)
  }

  ghost predicate ReviewedNow(q: Input, reviews: seq<Review>, fact: string) {
    exists r :: r in reviews && Fact(q, r) == fact && r.policy == q.currentPolicy && Committed(q, r)
  }

  lemma SummaryIsCurrent(q: Input, reviews: seq<Review>)
    ensures CoverageIsCurrent(q, reviews, Summarized(q, reviews))
  {
    forall fact | fact in Summarized(q, reviews).reviewed && fact in q.active ensures ReviewedNow(q, reviews, fact) {
      var r :| r in reviews && Covers(q, r) && Fact(q, r) == fact;
    }
    forall fact | fact in Summarized(q, reviews).removed && fact !in q.active ensures fact in Summarized(q, reviews).reviewed {
      var r :| r in reviews && Attests(q, r) && Fact(q, r) == fact;
      assert Covers(q, r);
    }
  }
}
