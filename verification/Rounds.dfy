/**
 * Research rounds: researcher calls that overlap belong to one round, and a sweep over their starts
 * and ends counts how many ran at once. Times are whole milliseconds.
 */
module Rounds {
  import opened Wrappers
  import opened Sorting

  datatype Call = Call(id: string, start: Option<int>, completed: Option<int>)

  datatype Round = Round(calls: seq<Call>, start: int, end: int)

  function Max(a: int, b: int): int {
    if a > b then a else b
  }

  function EndOf(call: Call): (end: int)
    requires call.start.Some?
    ensures end >= call.start.value && (call.completed.Some? ==> end >= call.completed.value)
    ensures end == call.start.value || call.completed == Some(end)
  {
    Max(call.start.value, if call.completed.Some? then call.completed.value else call.start.value)
  }

  function ByStart(): (Call, Call) -> bool {
    (a: Call, b: Call) => StartOrZero(a) <= StartOrZero(b)
  }

  function StartOrZero(call: Call): int {
    if call.start.Some? then call.start.value else 0
  }

  /** The calls that have a start, in the order of their starts. */
  function Known(calls: seq<Call>): seq<Call> {
    if calls == [] then []
    else Known(calls[..|calls| - 1]) + if calls[|calls| - 1].start.Some? then [calls[|calls| - 1]] else []
  }

  ghost predicate Started(calls: seq<Call>) {
    forall i :: 0 <= i < |calls| ==> calls[i].start.Some?
  }

  // ---------------------------------------------------------------- rounds

  function CallsOf(rounds: seq<Round>): seq<Call> {
    if rounds == [] then [] else CallsOf(rounds[..|rounds| - 1]) + rounds[|rounds| - 1].calls
  }

  /** The latest end of the first `n` calls. */
  function LatestEnd(calls: seq<Call>, n: nat): int
    requires 0 < n <= |calls| && Started(calls)
  {
    if n == 1 then EndOf(calls[0]) else Max(LatestEnd(calls, n - 1), EndOf(calls[n - 1]))
  }

  /** One round: from its first start to its latest end, each later call starting before an earlier one ended. */
  ghost predicate IsRound(round: Round) {
    && round.calls != [] && Started(round.calls)
    && round.start == round.calls[0].start.value && round.end == LatestEnd(round.calls, |round.calls|)
    && (forall i :: 0 <= i < |round.calls| ==> round.start <= round.calls[i].start.value)
    && (forall i :: 0 < i < |round.calls| ==> round.calls[i].start.value < LatestEnd(round.calls, i))
  }

  /** The rounds of some calls: they hold all of them in order, and none starts before an earlier one ended. */
  ghost predicate AreRounds(rounds: seq<Round>, calls: seq<Call>) {
    && CallsOf(rounds) == calls
    && (forall r :: 0 <= r < |rounds| ==> IsRound(rounds[r]))
    && (forall q, r :: 0 <= q < r < |rounds| ==> rounds[q].end <= rounds[r].start)
  }

  lemma {:induction false} LatestEndPrefix(calls: seq<Call>, call: Call, n: nat)
    requires 0 < n <= |calls| && Started(calls) && Started(calls + [call])
    ensures LatestEnd(calls + [call], n) == LatestEnd(calls, n)
  {
    if n > 1 {
      LatestEndPrefix(calls, call, n - 1);
    }
  }

  lemma {:induction false} LatestEndBounds(calls: seq<Call>, n: nat, i: nat)
    requires 0 < n <= |calls| && Started(calls) && i < n
    ensures calls[i].start.value <= EndOf(calls[i]) <= LatestEnd(calls, n)
  {
    if i < n - 1 {
      LatestEndBounds(calls, n - 1, i);
    }
  }

  /** Some earlier call ends last. */
  lemma {:induction false} LatestIs(calls: seq<Call>, n: nat) returns (i: nat)
    requires 0 < n <= |calls| && Started(calls)
    ensures i < n && LatestEnd(calls, n) == EndOf(calls[i])
  {
    if n == 1 || LatestEnd(calls, n) == EndOf(calls[n - 1]) {
      i := n - 1;
    } else {
      i := LatestIs(calls, n - 1);
    }
  }

  /** In the calls' own times: the round ends with its last event, and each later call starts before an earlier one completed. */
  ghost predicate RoundTimes(round: Round) {
    && round.calls != [] && (forall i :: 0 <= i < |round.calls| ==> round.calls[i].start.Some?)
    && round.calls[0].start == Some(round.start)
    && (forall i :: 0 <= i < |round.calls| ==> round.start <= round.calls[i].start.value <= round.end)
    && (forall i :: 0 <= i < |round.calls| && round.calls[i].completed.Some? ==> round.calls[i].completed.value <= round.end)
    && (exists i :: 0 <= i < |round.calls| && (round.calls[i].start == Some(round.end) || round.calls[i].completed == Some(round.end)))
    && (forall i :: 0 < i < |round.calls| ==>
          exists j :: 0 <= j < i && round.calls[j].completed.Some? && round.calls[i].start.value < round.calls[j].completed.value)
  }

  lemma RoundMeans(round: Round)
    requires IsRound(round) && forall i, j :: 0 <= i < j < |round.calls| ==> round.calls[i].start.value <= round.calls[j].start.value
    ensures RoundTimes(round)
  {
    hide LatestEnd;
    var calls, n := round.calls, |round.calls|;
    forall i | 0 <= i < n ensures round.start <= calls[i].start.value <= round.end && (calls[i].completed.Some? ==> calls[i].completed.value <= round.end) {
      LatestEndBounds(calls, n, i);
    }
    var last := LatestIs(calls, n);
    forall i | 0 < i < n
      ensures exists j :: 0 <= j < i && calls[j].completed.Some? && calls[i].start.value < calls[j].completed.value
    {
      EarlierRuns(round, i);
    }
  }

  lemma EarlierRuns(round: Round, i: nat)
    requires IsRound(round) && forall i, j :: 0 <= i < j < |round.calls| ==> round.calls[i].start.value <= round.calls[j].start.value
    requires 0 < i < |round.calls|
    ensures exists j :: 0 <= j < i && round.calls[j].completed.Some? && round.calls[i].start.value < round.calls[j].completed.value
  {
    hide LatestEnd;
    var j := LatestIs(round.calls, i);
    assert round.calls[i].start.value < EndOf(round.calls[j]);
  }

  /** The rounds of calls in the order of their starts, in the calls' own times; no call completes after a later round starts. */
  ghost predicate RoundsTimes(rounds: seq<Round>) {
    && (forall r :: 0 <= r < |rounds| ==> RoundTimes(rounds[r]))
    && forall q, r, i :: 0 <= q < r < |rounds| && 0 <= i < |rounds[q].calls| && rounds[q].calls[i].completed.Some? ==>
         rounds[q].calls[i].completed.value <= rounds[r].start
  }

  ghost predicate StartsSorted(calls: seq<Call>) {
    Started(calls) && forall i, j :: 0 <= i < j < |calls| ==> calls[i].start.value <= calls[j].start.value
  }

  lemma {:induction false} MembersSorted(rounds: seq<Round>, r: nat)
    requires r < |rounds| && StartsSorted(CallsOf(rounds))
    ensures StartsSorted(rounds[r].calls)
  {
    var init, last := rounds[..|rounds| - 1], rounds[|rounds| - 1];
    var all := CallsOf(rounds);
    assert CallsOf(init) == all[..|CallsOf(init)|] && last.calls == all[|CallsOf(init)|..];
    if r < |init| {
      MembersSorted(init, r);
    }
  }

  lemma RoundsMean(rounds: seq<Round>, calls: seq<Call>)
    requires AreRounds(rounds, CallsOf(rounds)) && AreStarted(CallsOf(rounds), calls)
    ensures RoundsTimes(rounds)
  {
    hide IsRound, RoundTimes;
    var all := CallsOf(rounds);
    forall i | 0 <= i < |all| ensures all[i].start.Some? {
      assert all[i] in all;
    }
    forall i, j | 0 <= i < j < |all| ensures all[i].start.value <= all[j].start.value {
      assert ByStart()(all[i], all[j]);
    }
    forall r | 0 <= r < |rounds| ensures RoundTimes(rounds[r]) {
      MembersSorted(rounds, r);
      RoundMeans(rounds[r]);
    }
    forall q, r, i | 0 <= q < r < |rounds| && 0 <= i < |rounds[q].calls| && rounds[q].calls[i].completed.Some?
      ensures rounds[q].calls[i].completed.value <= rounds[r].start
    {
      CompletedByEnd(rounds[q], i);
    }
  }

  lemma CompletedByEnd(round: Round, i: nat)
    requires RoundTimes(round) && i < |round.calls| && round.calls[i].completed.Some?
    ensures round.calls[i].completed.value <= round.end
  {
  }

  lemma StartedAppend(calls: seq<Call>, call: Call)
    requires Started(calls) && call.start.Some?
    ensures Started(calls + [call])
  {
  }

  lemma JoinRound(round: Round, call: Call)
    requires IsRound(round) && call.start.Some? && round.start <= call.start.value < round.end
    ensures IsRound(Round(round.calls + [call], round.start, Max(round.end, EndOf(call))))
  {
    hide LatestEnd, EndOf, Max;
    StartedAppend(round.calls, call);
    LastJoins(round, call);
    MembersStay(round, call);
    OverlapsAll(round, call);
    FirstStays(round, call);
    hide Started, IsRound;
    RoundOf(round.calls + [call], round.start, Max(round.end, EndOf(call)));
  }

  lemma FirstStays(round: Round, call: Call)
    requires IsRound(round)
    ensures round.calls != [] && (round.calls + [call])[0] == round.calls[0] && round.calls[0].start == Some(round.start)
  {
  }

  lemma OverlapsAll(round: Round, call: Call)
    requires IsRound(round) && call.start.Some? && Started(round.calls + [call]) && round.start <= call.start.value < round.end
    ensures var calls := round.calls + [call]; forall i :: 0 < i < |calls| ==> calls[i].start.value < LatestEnd(calls, i)
  {
    var calls, n := round.calls + [call], |round.calls|;
    LastJoins(round, call);
    MembersStay(round, call);
    hide LatestEnd;
    forall i | 0 < i < |calls| ensures calls[i].start.value < LatestEnd(calls, i) {
      assert i == n || i < n;
    }
  }

  lemma RoundOf(calls: seq<Call>, start: int, end: int)
    requires calls != [] && Started(calls) && start == calls[0].start.value && end == LatestEnd(calls, |calls|)
    requires forall i :: 0 <= i < |calls| ==> start <= calls[i].start.value
    requires forall i :: 0 < i < |calls| ==> calls[i].start.value < LatestEnd(calls, i)
    ensures IsRound(Round(calls, start, end))
  {
  }

  lemma LastJoins(round: Round, call: Call)
    requires IsRound(round) && call.start.Some? && Started(round.calls + [call]) && call.start.value < round.end
    ensures var calls, n := round.calls + [call], |round.calls|;
            calls[n].start.value < LatestEnd(calls, n) && LatestEnd(calls, n + 1) == Max(round.end, EndOf(call))
  {
    LatestEndPrefix(round.calls, call, |round.calls|);
  }

  lemma MembersStay(round: Round, call: Call)
    requires IsRound(round) && call.start.Some? && Started(round.calls + [call]) && round.start <= call.start.value
    ensures var calls := round.calls + [call];
            (forall i :: 0 <= i < |calls| ==> round.start <= calls[i].start.value) &&
            forall i :: 0 < i < |round.calls| ==> calls[i].start.value < LatestEnd(calls, i)
  {
    var calls := round.calls + [call];
    assert forall i :: 0 <= i < |round.calls| ==> calls[i] == round.calls[i];
    forall i | 0 < i < |round.calls| ensures calls[i].start.value < LatestEnd(calls, i) {
      LatestEndPrefix(round.calls, call, i);
    }
  }

  lemma {:induction false} KnownElements(calls: seq<Call>)
    ensures Started(Known(calls)) && forall c :: c in Known(calls) <==> c in calls && c.start.Some?
    ensures forall c :: multiset(Known(calls))[c] == if c.start.Some? then multiset(calls)[c] else 0
  {
    if calls != [] {
      var init, last := calls[..|calls| - 1], calls[|calls| - 1];
      KnownElements(init);
      assert calls == init + [last];
    }
  }

  /** Known calls in the order of their starts keep that order. */
  lemma {:induction false} KnownSorted(calls: seq<Call>)
    requires SortedBy(ByStart(), calls)
    ensures SortedBy(ByStart(), Known(calls))
  {
    if calls != [] {
      var init, last := calls[..|calls| - 1], calls[|calls| - 1];
      KnownSorted(init);
      KnownElements(init);
      forall c | c in Known(init) ensures ByStart()(c, last) {
        var i :| 0 <= i < |init| && init[i] == c;
        assert ByStart()(calls[i], calls[|calls| - 1]);
      }
    }
  }

  /** Those of the calls that have a start, in the order of their starts. */
  ghost predicate AreStarted(known: seq<Call>, calls: seq<Call>) {
    && SortedBy(ByStart(), known) && (forall c :: c in known <==> c in calls && c.start.Some?)
    && forall c :: multiset(known)[c] == if c.start.Some? then multiset(calls)[c] else 0
  }

  lemma SortedCalls(calls: seq<Call>)
    ensures SortedBy(ByStart(), Sort(ByStart(), calls)) && AreStarted(Known(Sort(ByStart(), calls)), calls)
  {
    hide Sort, Known;
    StartPreorder();
    SortSorted(ByStart(), calls);
    SortElements(ByStart(), calls);
    SortMultiset(ByStart(), calls);
    KnownElements(Sort(ByStart(), calls));
    KnownSorted(Sort(ByStart(), calls));
  }

  lemma StartPreorder()
    ensures TotalPreorder(ByStart())
  {
  }

  /** A call that starts before the last round ends joins it; any other begins a round. */
  method AddCall(rounds: seq<Round>, call: Call) returns (more: seq<Round>)
    requires AreRounds(rounds, CallsOf(rounds)) && call.start.Some? && (rounds != [] ==> LastStart(rounds) <= call.start.value)
    ensures AreRounds(more, CallsOf(rounds) + [call]) && more != [] && LastStart(more) == call.start.value
  {
    var start, end := call.start.value, EndOf(call);
    if rounds != [] {
      LastStartLatest(rounds);
    }
    if rounds != [] && start < rounds[|rounds| - 1].end {
      var current := rounds[|rounds| - 1];
      JoinRound(current, call);
      var joined := Round(current.calls + [call], current.start, Max(current.end, end));
      ReplaceLast(rounds, joined, call);
      more := rounds[..|rounds| - 1] + [joined];
    } else {
      AppendRound(rounds, call);
      more := rounds + [Round([call], start, end)];
    }
  }

  lemma NoneKnown()
    ensures Known([]) == [] && AreRounds([], [])
  {
  }

  lemma KnownNext(calls: seq<Call>, k: nat)
    requires k < |calls|
    ensures Known(calls[..k + 1]) == if calls[k].start.Some? then Known(calls[..k]) + [calls[k]] else Known(calls[..k])
  {
    assert calls[..k + 1][..k] == calls[..k];
    assert Known(calls[..k]) + [] == Known(calls[..k]);
  }

  lemma StartsInOrder(calls: seq<Call>, j: nat, k: nat)
    requires SortedBy(ByStart(), calls) && j < k < |calls| && calls[j].start.Some? && calls[k].start.Some?
    ensures calls[j].start.value <= calls[k].start.value
  {
    assert ByStart()(calls[j], calls[k]);
  }

  /** The rounds of the calls, whatever order they came in. */
  method ResearchRounds(calls: seq<Call>) returns (rounds: seq<Round>)
    ensures AreRounds(rounds, Known(Sort(ByStart(), calls)))
    ensures AreStarted(CallsOf(rounds), calls) && RoundsTimes(rounds)
  {
    var sorted := Sort(ByStart(), calls);
    SortedCalls(calls);
    rounds := [];
    ghost var at := 0;
    hide Sort, SortedBy, IsRound, TotalPreorder, AreStarted, Known, LastStart;
    assert sorted[..0] == [];
    NoneKnown();
    for k := 0 to |sorted|
      invariant AreRounds(rounds, Known(sorted[..k]))
      invariant rounds == [] || (0 <= at < k && sorted[at].start == Some(LastStart(rounds)))
    {
      var call := sorted[k];
      KnownNext(sorted, k);
      if call.start.Some? {
        if rounds != [] {
          StartsInOrder(sorted, at, k);
        }
        rounds := AddCall(rounds, call);
        at := k;
      }
    }
    assert sorted[..|sorted|] == sorted;
    CallsAre(rounds, Known(sorted));
    RoundsMean(rounds, calls);
  }

  lemma CallsAre(rounds: seq<Round>, calls: seq<Call>)
    requires AreRounds(rounds, calls)
    ensures CallsOf(rounds) == calls
  {
  }

  /** The start of the last call of the last round. */
  ghost function LastStart(rounds: seq<Round>): int
    requires rounds != [] && (forall r :: 0 <= r < |rounds| ==> IsRound(rounds[r]))
  {
    var last := rounds[|rounds| - 1];
    assert IsRound(last);
    last.calls[|last.calls| - 1].start.value
  }

  lemma LastStartLatest(rounds: seq<Round>)
    requires rounds != [] && (forall r :: 0 <= r < |rounds| ==> IsRound(rounds[r]))
    ensures rounds[|rounds| - 1].start <= LastStart(rounds)
  {
  }

  lemma {:induction false} ReplaceLast(rounds: seq<Round>, joined: Round, call: Call)
    requires rounds != [] && (forall r :: 0 <= r < |rounds| ==> IsRound(rounds[r])) && IsRound(joined)
    requires forall q, r :: 0 <= q < r < |rounds| ==> rounds[q].end <= rounds[r].start
    requires joined.calls == rounds[|rounds| - 1].calls + [call] && joined.start == rounds[|rounds| - 1].start
    ensures AreRounds(rounds[..|rounds| - 1] + [joined], CallsOf(rounds) + [call])
  {
    hide IsRound, LatestEnd;
    var init := rounds[..|rounds| - 1];
    assert (init + [joined])[..|init|] == init;
    assert CallsOf(init) + (rounds[|rounds| - 1].calls + [call]) == CallsOf(init) + rounds[|rounds| - 1].calls + [call];
  }

  lemma EndsBefore(rounds: seq<Round>, start: int)
    requires forall r :: 0 <= r < |rounds| ==> IsRound(rounds[r])
    requires forall q, r :: 0 <= q < r < |rounds| ==> rounds[q].end <= rounds[r].start
    requires rounds != [] ==> rounds[|rounds| - 1].start <= start && rounds[|rounds| - 1].end <= start
    ensures forall r :: 0 <= r < |rounds| ==> rounds[r].end <= start
  {
  }

  lemma {:induction false} AppendRound(rounds: seq<Round>, call: Call)
    requires AreRounds(rounds, CallsOf(rounds)) && call.start.Some?
    requires rounds != [] ==> rounds[|rounds| - 1].start <= call.start.value && rounds[|rounds| - 1].end <= call.start.value
    ensures AreRounds(rounds + [Round([call], call.start.value, EndOf(call))], CallsOf(rounds) + [call])
  {
    var round := Round([call], call.start.value, EndOf(call));
    assert (rounds + [round])[..|rounds|] == rounds;
    assert IsRound(round) by { assert Started([call]) && LatestEnd([call], 1) == EndOf(call); }
    EndsBefore(rounds, call.start.value);
  }
}
