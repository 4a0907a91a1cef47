/** How many calls ran at once: the sweep over starts and ends, and what its maximum means. */
module Overlap {
  import opened Rounds
  import opened Sorting

  /** One end of a call: +1 where it starts, -1 where it ends. */
  datatype Step = Step(time: int, change: int)

  function ByTime(): (Step, Step) -> bool {
    (a: Step, b: Step) => a.time < b.time || (a.time == b.time && a.change <= b.change)
  }

  function Steps(calls: seq<Call>): seq<Step>
    requires Started(calls)
  {
    if calls == [] then []
    else Steps(calls[..|calls| - 1]) + [Step(calls[|calls| - 1].start.value, 1), Step(EndOf(calls[|calls| - 1]), -1)]
  }

  // ---------------------------------------------------------------- what is to be counted

  /** A call runs at `t` from its start up to, not including, its end. */
  predicate Covers(call: Call, t: int)
    requires call.start.Some?
  {
    call.start.value <= t < EndOf(call)
  }

  /** From the call's own times: only a completed call runs, and until it completes. */
  lemma CoversIff(call: Call, t: int)
    requires call.start.Some?
    ensures Covers(call, t) <==> call.completed.Some? && call.start.value <= t < call.completed.value
  {
  }

  /** Which of the calls run at `t`. */
  ghost function RunningAt(calls: seq<Call>, t: int): (at: set<nat>)
    ensures forall i: nat :: i in at <==>
              i < |calls| && calls[i].start.Some? && calls[i].completed.Some? && calls[i].start.value <= t < calls[i].completed.value
  {
    set i: nat | i < |calls| && calls[i].start.Some? && calls[i].completed.Some? && calls[i].start.value <= t < calls[i].completed.value
  }

  lemma {:induction false} RunningIs(calls: seq<Call>, t: int)
    requires Started(calls)
    ensures Running(calls, t) == |RunningAt(calls, t)|
  {
    if calls == [] {
      assert RunningAt(calls, t) == {};
    } else {
      var init, n := calls[..|calls| - 1], |calls| - 1;
      RunningIs(init, t);
      CoversIff(calls[n], t);
      hide Covers;
      var more: set<nat> := if Covers(calls[n], t) then {n} else {};
      RunningNext(calls, t, more);
      hide RunningAt;
    }
  }

  lemma RunningNext(calls: seq<Call>, t: int, more: set<nat>)
    requires calls != [] && Started(calls) && more == if Covers(calls[|calls| - 1], t) then {|calls| - 1 as nat} else {}
    ensures RunningAt(calls, t) == RunningAt(calls[..|calls| - 1], t) + more && RunningAt(calls[..|calls| - 1], t) !! more
  {
    CoversIff(calls[|calls| - 1], t);
    hide Covers;
    assert forall i :: 0 <= i < |calls| - 1 ==> calls[..|calls| - 1][i] == calls[i];
  }

  /** How many of the calls run at `t`. */
  function Running(calls: seq<Call>, t: int): nat
    requires Started(calls)
  {
    if calls == [] then 0
    else Running(calls[..|calls| - 1], t) + if Covers(calls[|calls| - 1], t) then 1 else 0
  }

  /** `most` is the greatest number that run at one time. */
  ghost predicate IsPeak(calls: seq<Call>, most: nat)
    requires Started(calls)
  {
    (forall t :: Running(calls, t) <= most) && exists t :: Running(calls, t) == most
  }

  // ---------------------------------------------------------------- sums of steps

  function Sum(steps: seq<Step>): int {
    if steps == [] then 0 else Sum(steps[..|steps| - 1]) + steps[|steps| - 1].change
  }

  /** The changes at times up to `t`. */
  function SumUpTo(steps: seq<Step>, t: int): int {
    if steps == [] then 0
    else Contribution(steps[0], t) + SumUpTo(steps[1..], t)
  }

  function Contribution(step: Step, t: int): int {
    if step.time <= t then step.change else 0
  }

  ghost predicate Unit(steps: seq<Step>) {
    forall i :: 0 <= i < |steps| ==> steps[i].change == 1 || steps[i].change == -1
  }

  lemma {:induction false} SumUpToAppend(a: seq<Step>, b: seq<Step>, t: int)
    ensures SumUpTo(a + b, t) == SumUpTo(a, t) + SumUpTo(b, t)
  {
    if a == [] {
      assert a + b == b;
    } else {
      assert (a + b)[1..] == a[1..] + b;
      SumUpToAppend(a[1..], b, t);
    }
  }

  lemma {:induction false} SumUpToInsert(x: Step, steps: seq<Step>, t: int)
    ensures SumUpTo(Insert(ByTime(), x, steps), t) == SumUpTo(steps, t) + Contribution(x, t)
  {
    if steps != [] {
      if ByTime()(steps[0], x) {
        SumUpToInsert(x, steps[1..], t);
        assert Insert(ByTime(), x, steps)[1..] == Insert(ByTime(), x, steps[1..]);
      } else {
        assert ([x] + steps)[1..] == steps;
      }
    }
  }

  /** Sorting changes no such sum. */
  lemma {:induction false} SumUpToSort(steps: seq<Step>, t: int)
    ensures SumUpTo(Sort(ByTime(), steps), t) == SumUpTo(steps, t)
  {
    if steps != [] {
      var init, last := steps[..|steps| - 1], steps[|steps| - 1];
      SumUpToSort(init, t);
      SumUpToInsert(last, Sort(ByTime(), init), t);
      SumUpToAppend(init, [last], t);
      assert init + [last] == steps && SumUpTo([last][1..], t) == 0;
    }
  }

  /** The changes up to `t` add up to the calls that run at `t`. */
  lemma {:induction false} SumIsRunning(calls: seq<Call>, t: int)
    requires Started(calls)
    ensures SumUpTo(Steps(calls), t) == Running(calls, t)
  {
    if calls != [] {
      var init, last := calls[..|calls| - 1], calls[|calls| - 1];
      var two := [Step(last.start.value, 1), Step(EndOf(last), -1)];
      SumIsRunning(init, t);
      SumUpToAppend(Steps(init), two, t);
      assert two[1..] == [two[1]] && SumUpTo(two[1..][1..], t) == 0;
    }
  }

  lemma {:induction false} StepsUnit(calls: seq<Call>)
    requires Started(calls)
    ensures Unit(Steps(calls))
  {
    if calls != [] {
      StepsUnit(calls[..|calls| - 1]);
    }
  }

  lemma SortUnit(steps: seq<Step>)
    requires Unit(steps)
    ensures Unit(Sort(ByTime(), steps))
  {
    var sorted := Sort(ByTime(), steps);
    SortElements(ByTime(), steps);
    forall i | 0 <= i < |sorted| ensures sorted[i].change == 1 || sorted[i].change == -1 {
      assert sorted[i] in steps;
    }
  }

  lemma TimePreorder()
    ensures TotalPreorder(ByTime())
  {
  }

  // ---------------------------------------------------------------- prefixes of the sweep

  /** Every sum up to a time is reached by the sweep. */
  lemma TimeIsPrefix(steps: seq<Step>, t: int) returns (k: nat)
    requires SortedBy(ByTime(), steps)
    ensures k <= |steps| && Sum(steps[..k]) == SumUpTo(steps, t)
  {
    k := 0;
    while k < |steps| && steps[k].time <= t
      invariant k <= |steps|
      invariant Sum(steps[..k]) + SumUpTo(steps[k..], t) == SumUpTo(steps, t)
    {
      assert steps[k..][1..] == steps[k + 1..];
      assert steps[..k + 1][..k] == steps[..k];
      k := k + 1;
    }
    LaterSteps(steps[k..], t);
  }

  lemma {:induction false} LaterSteps(steps: seq<Step>, t: int)
    requires SortedBy(ByTime(), steps) && (steps != [] ==> t < steps[0].time)
    ensures SumUpTo(steps, t) == 0
  {
    if steps != [] {
      if |steps| > 1 {
        assert ByTime()(steps[0], steps[1]);
      }
      assert forall i, j :: 0 <= i < j < |steps[1..]| ==> ByTime()(steps[1..][i], steps[1..][j]) by {
        forall i, j | 0 <= i < j < |steps[1..]| ensures ByTime()(steps[1..][i], steps[1..][j]) {
          assert ByTime()(steps[i + 1], steps[j + 1]);
        }
      }
      LaterSteps(steps[1..], t);
    }
  }

  /** Up to a time that no step of it exceeds, a prefix counts whole. */
  lemma {:induction false} AllUpTo(steps: seq<Step>, t: int)
    requires forall i :: 0 <= i < |steps| ==> steps[i].time <= t
    ensures SumUpTo(steps, t) == Sum(steps)
  {
    if steps != [] {
      var init, last := steps[..|steps| - 1], steps[|steps| - 1];
      AllUpTo(init, t);
      SumUpToAppend(init, [last], t);
      assert init + [last] == steps && SumUpTo([last][1..], t) == 0;
    }
  }

  /** Steps left out because they come later only take away, so what remains is at least the whole. */
  lemma {:induction false} OnlyEndsLater(steps: seq<Step>, t: int)
    requires forall i :: 0 <= i < |steps| && steps[i].time > t ==> steps[i].change == -1
    ensures Sum(steps) <= SumUpTo(steps, t)
  {
    if steps != [] {
      var init, last := steps[..|steps| - 1], steps[|steps| - 1];
      OnlyEndsLater(init, t);
      SumUpToAppend(init, [last], t);
      assert init + [last] == steps && SumUpTo([last][1..], t) == 0;
    }
  }

  lemma {:induction false} OnlyStartsNow(steps: seq<Step>, t: int)
    requires forall i :: 0 <= i < |steps| && steps[i].time <= t ==> steps[i].change == 1
    ensures SumUpTo(steps, t) >= 0
  {
    if steps != [] {
      OnlyStartsNow(steps[1..], t);
    }
  }

  /** No point of the sweep exceeds what runs at some time. */
  lemma PrefixIsBounded(steps: seq<Step>, k: nat) returns (t: int)
    requires SortedBy(ByTime(), steps) && Unit(steps) && 0 < k <= |steps|
    ensures Sum(steps[..k]) <= SumUpTo(steps, t)
  {
    var last := steps[k - 1];
    t := if last.change == 1 then last.time else last.time - 1;
    SumUpToAppend(steps[..k], steps[k..], t);
    assert steps[..k] + steps[k..] == steps;
    forall i | 0 <= i < k ensures steps[i] == last || ByTime()(steps[i], last) {
      if i < k - 1 { assert ByTime()(steps[i], steps[k - 1]); }
    }
    forall i | k <= i < |steps| ensures ByTime()(last, steps[i]) {
      assert ByTime()(steps[k - 1], steps[i]);
    }
    if last.change == 1 {
      AllUpTo(steps[..k], t);
    } else {
      OnlyEndsLater(steps[..k], t);
    }
    OnlyStartsNow(steps[k..], t);
  }

  // ---------------------------------------------------------------- the sweep

  ghost predicate PeakOf(steps: seq<Step>, n: nat, most: int)
    requires n <= |steps|
  {
    most >= 0 && (forall k :: 0 <= k <= n ==> Sum(steps[..k]) <= most) && exists k :: 0 <= k <= n && Sum(steps[..k]) == most
  }

  lemma PeakMeaning(calls: seq<Call>, most: int)
    requires Started(calls)
    requires var sorted := Sort(ByTime(), Steps(calls)); PeakOf(sorted, |sorted|, most)
    ensures most >= 0 && IsPeak(calls, most)
  {
    var sorted := Sort(ByTime(), Steps(calls));
    TimePreorder();
    SortSorted(ByTime(), Steps(calls));
    StepsUnit(calls);
    SortUnit(Steps(calls));
    forall t ensures Running(calls, t) <= most {
      SumUpToSort(Steps(calls), t);
      SumIsRunning(calls, t);
      var k := TimeIsPrefix(sorted, t);
    }
    var k :| 0 <= k <= |sorted| && Sum(sorted[..k]) == most;
    var t: int;
    if k > 0 {
      t := PrefixIsBounded(sorted, k);
    } else {
      t := 0;
    }
    SumUpToSort(Steps(calls), t);
    SumIsRunning(calls, t);
    assert Running(calls, t) == most;
  }

  /** The most calls that ran at one time. */
  method Peak(calls: seq<Call>) returns (most: nat)
    requires Started(calls)
    ensures IsPeak(calls, most)
    ensures (forall t :: |RunningAt(calls, t)| <= most) && exists t :: |RunningAt(calls, t)| == most
  {
    var steps := Sort(ByTime(), Steps(calls));
    var running, high := 0, 0;
    assert Sum(steps[..0]) == 0;
    for i := 0 to |steps|
      invariant running == Sum(steps[..i])
      invariant PeakOf(steps, i, high)
    {
      assert steps[..i + 1][..i] == steps[..i];
      running := running + steps[i].change;
      high := Max(high, running);
    }
    PeakMeaning(calls, high);
    PeakIs(calls, high);
    most := high;
  }

  lemma PeakIs(calls: seq<Call>, most: nat)
    requires Started(calls) && IsPeak(calls, most)
    ensures (forall t :: |RunningAt(calls, t)| <= most) && exists t :: |RunningAt(calls, t)| == most
  {
    forall t ensures |RunningAt(calls, t)| <= most {
      RunningIs(calls, t);
    }
    var t :| Running(calls, t) == most;
    RunningIs(calls, t);
  }

  // ---------------------------------------------------------------- rounds and overlap

  lemma {:induction false} RunningAppend(a: seq<Call>, b: seq<Call>, t: int)
    requires Started(a) && Started(b)
    ensures Started(a + b) && Running(a + b, t) == Running(a, t) + Running(b, t)
  {
    assert Started(a + b);
    if b == [] {
      assert a + b == a;
    } else {
      assert (a + b)[..|a + b| - 1] == a + b[..|b| - 1];
      RunningAppend(a, b[..|b| - 1], t);
    }
  }

  lemma {:induction false} NoneRunning(calls: seq<Call>, t: int)
    requires Started(calls) && forall i :: 0 <= i < |calls| ==> !Covers(calls[i], t)
    ensures Running(calls, t) == 0
  {
    if calls != [] {
      NoneRunning(calls[..|calls| - 1], t);
    }
  }

  lemma OutsideRound(round: Round, t: int)
    requires IsRound(round) && (t < round.start || round.end <= t)
    ensures Running(round.calls, t) == 0
  {
    forall i | 0 <= i < |round.calls| ensures !Covers(round.calls[i], t) {
      LatestEndBounds(round.calls, |round.calls|, i);
    }
    NoneRunning(round.calls, t);
  }

  ghost predicate Separate(rounds: seq<Round>) {
    && (forall r :: 0 <= r < |rounds| ==> IsRound(rounds[r]))
    && (forall q, r :: 0 <= q < r < |rounds| ==> rounds[q].end <= rounds[r].start)
  }

  lemma {:induction false} CallsOfStarted(rounds: seq<Round>)
    requires Separate(rounds)
    ensures Started(CallsOf(rounds))
  {
    if rounds != [] {
      CallsOfStarted(rounds[..|rounds| - 1]);
      assert IsRound(rounds[|rounds| - 1]);
    }
  }

  /** Before the start of the last round only earlier rounds run, and from it on only the last. */
  lemma {:induction false} EarlierOver(rounds: seq<Round>, t: int)
    requires Separate(rounds) && forall r :: 0 <= r < |rounds| ==> rounds[r].end <= t
    ensures Started(CallsOf(rounds)) && Running(CallsOf(rounds), t) == 0
  {
    CallsOfStarted(rounds);
    if rounds != [] {
      var init, last := rounds[..|rounds| - 1], rounds[|rounds| - 1];
      EarlierOver(init, t);
      OutsideRound(last, t);
      RunningAppend(CallsOf(init), last.calls, t);
    }
  }

  /** At any time, all that runs belongs to one round. */
  lemma {:induction false} OneRoundRuns(rounds: seq<Round>, t: int)
    requires Separate(rounds)
    ensures Started(CallsOf(rounds))
    ensures Running(CallsOf(rounds), t) == 0 ||
            exists r :: 0 <= r < |rounds| && RunsAlone(rounds, r, t)
  {
    CallsOfStarted(rounds);
    if rounds != [] {
      var init, last := rounds[..|rounds| - 1], rounds[|rounds| - 1];
      CallsOfStarted(init);
      RunningAppend(CallsOf(init), last.calls, t);
      if last.start <= t {
        EarlierOver(init, t);
        assert RunsAlone(rounds, |rounds| - 1, t);
      } else {
        OutsideRound(last, t);
        OneRoundRuns(init, t);
        if Running(CallsOf(init), t) != 0 {
          var r :| 0 <= r < |init| && RunsAlone(init, r, t);
          assert RunsAlone(rounds, r, t);
        }
      }
    }
  }

  ghost predicate RunsAlone(rounds: seq<Round>, r: nat, t: int)
    requires Separate(rounds) && r < |rounds|
  {
    CallsOfStarted(rounds);
    Running(CallsOf(rounds), t) == Running(rounds[r].calls, t)
  }

  /** So the peak over all calls is the greatest peak of a round. */
  lemma PeakIsOfARound(rounds: seq<Round>, most: nat, peaks: seq<nat>)
    requires Separate(rounds) && rounds != [] && |peaks| == |rounds|
    requires forall r :: 0 <= r < |rounds| ==> IsPeak(rounds[r].calls, peaks[r])
    requires Started(CallsOf(rounds)) && IsPeak(CallsOf(rounds), most)
    ensures (forall r :: 0 <= r < |rounds| ==> peaks[r] <= most) && exists r :: 0 <= r < |rounds| && peaks[r] == most
  {
    forall r | 0 <= r < |rounds| ensures peaks[r] <= most {
      var t :| Running(rounds[r].calls, t) == peaks[r];
      RoundWithin(rounds, r, t);
    }
    var t :| Running(CallsOf(rounds), t) == most;
    OneRoundRuns(rounds, t);
    if most != 0 {
      var r :| 0 <= r < |rounds| && RunsAlone(rounds, r, t);
      assert most <= peaks[r];
      assert peaks[r] == most;
    } else {
      assert peaks[0] == most;
    }
  }

  lemma {:induction false} RoundWithin(rounds: seq<Round>, r: nat, t: int)
    requires Separate(rounds) && r < |rounds|
    ensures Started(CallsOf(rounds)) && Running(rounds[r].calls, t) <= Running(CallsOf(rounds), t)
  {
    hide Running, Separate, CallsOf, Started;
    LastRound(rounds, t);
    var init, last := rounds[..|rounds| - 1], rounds[|rounds| - 1];
    if r < |init| {
      RoundWithin(init, r, t);
      assert init[r] == rounds[r];
    } else {
      assert rounds[r] == last;
    }
  }

  lemma LastRound(rounds: seq<Round>, t: int)
    requires Separate(rounds) && rounds != []
    ensures var init, last := rounds[..|rounds| - 1], rounds[|rounds| - 1];
            Separate(init) && Started(CallsOf(init)) && Started(last.calls) && Started(CallsOf(rounds)) &&
            Running(CallsOf(rounds), t) == Running(CallsOf(init), t) + Running(last.calls, t)
  {
    var init, last := rounds[..|rounds| - 1], rounds[|rounds| - 1];
    assert IsRound(last);
    CallsOfStarted(init);
    hide Running, IsRound;
    RunningAppend(CallsOf(init), last.calls, t);
  }
}
