/**
 * The research pool: a fixed number of workers take items from one shared cursor, and may be
 * interleaved in any order between their awaits. One rejected item must not discard the others.
 */
module Pool {
  import opened Wrappers

  datatype Outcome<R> = Resolves(value: R) | Rejects
  datatype Settled<R> = Fulfilled(value: R) | Rejected(reason: string)

  /** Where one worker stands: about to test the cursor, awaiting an item, or finished. */
  datatype Worker = AtGuard | Awaiting(index: nat) | Finished

  /** `started` lists the items whose work was called, in the order of the calls. */
  datatype State<R> = State(cursor: nat, results: seq<Option<Settled<R>>>, workers: seq<Worker>, started: seq<nat>)

  function SettledAs<R>(outcome: Outcome<R>): Settled<R> {
    match outcome
    case Resolves(value) => Fulfilled(value)
    case Rejects => Rejected("research_question_failed")
  }

  function Min(a: nat, b: nat): (m: nat)
    ensures m <= a && m <= b && (m == a || m == b)
  {
    if a < b then a else b
  }

  function Init<R>(items: nat, concurrency: nat): State<R> {
    State(0, seq(items, _ => None), seq(Min(concurrency, items), _ => AtGuard), [])
  }

  // ---------------------------------------------------------------- steps

  /** Worker `w` runs from the guard to its await, or past the loop. */
  ghost predicate Takes<R>(s: State<R>, w: nat, t: State<R>) {
    w < |s.workers| && s.workers[w].AtGuard? &&
    if s.cursor < |s.results| then
      t == State(s.cursor + 1, s.results, s.workers[w := Awaiting(s.cursor)], s.started + [s.cursor])
    else
      t == s.(workers := s.workers[w := Finished])
  }

  /** The promise worker `w` awaits settles, and its outcome is stored in the item's slot. */
  ghost predicate Settles<R>(work: nat -> Outcome<R>, s: State<R>, w: nat, t: State<R>) {
    w < |s.workers| && s.workers[w].Awaiting? && s.workers[w].index < |s.results| &&
    t == s.(results := s.results[s.workers[w].index := Some(SettledAs(work(s.workers[w].index)))],
            workers := s.workers[w := AtGuard])
  }

  ghost predicate StepOf<R>(work: nat -> Outcome<R>, s: State<R>, w: nat, t: State<R>) {
    Takes(s, w, t) || Settles(work, s, w, t)
  }

  ghost predicate Next<R>(work: nat -> Outcome<R>, s: State<R>, t: State<R>) {
    exists w: nat :: StepOf(work, s, w, t)
  }

  /** A run: any interleaving of the workers' steps, from the start. */
  ghost predicate Run<R>(work: nat -> Outcome<R>, items: nat, concurrency: nat, run: seq<State<R>>) {
    run != [] && run[0] == Init(items, concurrency) && forall k :: 0 < k < |run| ==> Next(work, run[k - 1], run[k])
  }

  // ---------------------------------------------------------------- the invariant

  predicate InFlight<R>(s: State<R>, i: nat) {
    exists w :: 0 <= w < |s.workers| && s.workers[w] == Awaiting(i)
  }

  ghost predicate Inv<R>(work: nat -> Outcome<R>, items: nat, concurrency: nat, s: State<R>) {
    && |s.results| == items && |s.workers| == Min(concurrency, items) && s.cursor <= items
    // the work of the items before the cursor was called, once each and in order
    && |s.started| == s.cursor && (forall i :: 0 <= i < s.cursor ==> s.started[i] == i)
    // an awaited item is taken, unsettled and awaited by one worker only
    && (forall w :: 0 <= w < |s.workers| && s.workers[w].Awaiting? ==>
          s.workers[w].index < s.cursor && s.results[s.workers[w].index] == None)
    && (forall v, w :: 0 <= v < w < |s.workers| && s.workers[v].Awaiting? ==> s.workers[v] != s.workers[w])
    // every taken item is settled with its own outcome or in flight; no other slot is filled
    && (forall i :: 0 <= i < s.cursor ==> s.results[i] == Some(SettledAs(work(i))) || InFlight(s, i))
    && (forall i :: s.cursor <= i < items ==> s.results[i] == None)
    && (forall w :: 0 <= w < |s.workers| && s.workers[w].Finished? ==> s.cursor == items)
  }

  lemma InitInv<R>(work: nat -> Outcome<R>, items: nat, concurrency: nat)
    ensures Inv(work, items, concurrency, Init(items, concurrency))
  {
  }

  lemma StillInFlight<R>(s: State<R>, t: State<R>, w: nat, i: nat)
    requires InFlight(s, i) && w < |s.workers| && s.workers[w] != Awaiting(i)
    requires |t.workers| == |s.workers| && t.workers == s.workers[w := t.workers[w]]
    ensures InFlight(t, i)
  {
    var v :| 0 <= v < |s.workers| && s.workers[v] == Awaiting(i);
    assert t.workers[v] == Awaiting(i);
  }

  lemma TakesInv<R>(work: nat -> Outcome<R>, items: nat, concurrency: nat, s: State<R>, w: nat, t: State<R>)
    requires Inv(work, items, concurrency, s) && Takes(s, w, t)
    ensures Inv(work, items, concurrency, t)
  {
    if s.cursor < items {
      assert t.workers[w] == Awaiting(s.cursor);
    }
    forall i | 0 <= i < t.cursor ensures t.results[i] == Some(SettledAs(work(i))) || InFlight(t, i) {
      if i < s.cursor && InFlight(s, i) {
        StillInFlight(s, t, w, i);
      }
    }
  }

  lemma SettlesInv<R>(work: nat -> Outcome<R>, items: nat, concurrency: nat, s: State<R>, w: nat, t: State<R>)
    requires Inv(work, items, concurrency, s) && Settles(work, s, w, t)
    ensures Inv(work, items, concurrency, t)
  {
    var done := s.workers[w].index;
    forall i | 0 <= i < t.cursor ensures t.results[i] == Some(SettledAs(work(i))) || InFlight(t, i) {
      if i != done && InFlight(s, i) {
        StillInFlight(s, t, w, i);
      }
    }
    forall v | 0 <= v < |t.workers| && t.workers[v].Awaiting?
      ensures t.workers[v].index < t.cursor && t.results[t.workers[v].index] == None
    {
      assert s.workers[v] == t.workers[v] && v != w;
      assert s.workers[v] != s.workers[w];
    }
  }

  lemma NextInv<R>(work: nat -> Outcome<R>, items: nat, concurrency: nat, s: State<R>, t: State<R>)
    requires Inv(work, items, concurrency, s) && Next(work, s, t)
    ensures Inv(work, items, concurrency, t)
  {
    var w: nat :| StepOf(work, s, w, t);
    if Takes(s, w, t) {
      TakesInv(work, items, concurrency, s, w, t);
    } else {
      SettlesInv(work, items, concurrency, s, w, t);
    }
  }

  lemma {:induction false} RunInv<R>(work: nat -> Outcome<R>, items: nat, concurrency: nat, run: seq<State<R>>, k: nat)
    requires Run(work, items, concurrency, run) && k < |run|
    ensures Inv(work, items, concurrency, run[k])
  {
    if k == 0 {
      InitInv(work, items, concurrency);
    } else {
      RunInv(work, items, concurrency, run, k - 1);
      assert Next(work, run[k - 1], run[k]);
      NextInv(work, items, concurrency, run[k - 1], run[k]);
    }
  }

  // ---------------------------------------------------------------- theorems over every run

  function Awaited<R>(s: State<R>): set<nat> {
    set w | 0 <= w < |s.workers| && s.workers[w].Awaiting? :: s.workers[w].index
  }

  /** A run begins with as many workers as there are items, but no more than allowed, and nothing done. */
  lemma RunBegins<R>(work: nat -> Outcome<R>, items: nat, concurrency: nat, run: seq<State<R>>)
    requires Run(work, items, concurrency, run)
    ensures |run[0].workers| <= concurrency && |run[0].workers| <= items
    ensures |run[0].workers| == concurrency || |run[0].workers| == items
    ensures (forall w :: 0 <= w < |run[0].workers| ==> run[0].workers[w].AtGuard?) && run[0].cursor == 0 && run[0].started == []
    ensures |run[0].results| == items && forall i :: 0 <= i < items ==> run[0].results[i].None?
  {
  }

  /** Any steps make a run. */
  lemma RunsAreSteps<R>(work: nat -> Outcome<R>, items: nat, concurrency: nat, run: seq<State<R>>, s: State<R>)
    ensures Run(work, items, concurrency, [Init(items, concurrency)])
    ensures Run(work, items, concurrency, run) && Next(work, run[|run| - 1], s) ==> Run(work, items, concurrency, run + [s])
  {
    hide Next;
  }

  /** In every state of every run: each call is of a new item, in order, and few enough are in flight. */
  lemma NoItemRunsTwice<R>(work: nat -> Outcome<R>, items: nat, concurrency: nat, run: seq<State<R>>, k: nat)
    requires Run(work, items, concurrency, run) && k < |run|
    ensures forall i, j :: 0 <= i < j < |run[k].started| ==> run[k].started[i] != run[k].started[j]
    ensures |Awaited(run[k])| <= concurrency && |Awaited(run[k])| <= items
    ensures forall w :: 0 <= w < |run[k].workers| && run[k].workers[w].Awaiting? ==> run[k].workers[w].index in Awaited(run[k])
    ensures Awaited(run[k]) <= set i | 0 <= i < |run[k].started| :: run[k].started[i]
  {
    RunInv(work, items, concurrency, run, k);
    var s := run[k];
    AwaitedBound(s, |s.workers|);
    assert forall w :: 0 <= w < |s.workers| && s.workers[w].Awaiting? ==> s.workers[w].index == s.started[s.workers[w].index];
  }

  lemma {:induction false} AwaitedBound<R>(s: State<R>, n: nat)
    requires n <= |s.workers|
    ensures |(set w | 0 <= w < n && s.workers[w].Awaiting? :: s.workers[w].index)| <= n
  {
    if n > 0 {
      AwaitedBound(s, n - 1);
      var before := set w | 0 <= w < n - 1 && s.workers[w].Awaiting? :: s.workers[w].index;
      var all := set w | 0 <= w < n && s.workers[w].Awaiting? :: s.workers[w].index;
      if s.workers[n - 1].Awaiting? {
        assert all == before + {s.workers[n - 1].index};
      } else {
        assert all == before;
      }
    }
  }

  predicate Done<R>(s: State<R>) {
    forall w :: 0 <= w < |s.workers| ==> s.workers[w].Finished?
  }

  /** The pool's answer: slot by slot, what each item's work came to. */
  function Outcomes<R>(work: nat -> Outcome<R>, items: nat): seq<Option<Settled<R>>> {
    seq(items, i requires i >= 0 => Some(SettledAs(work(i))))
  }

  /** When all workers have finished, each item was called once, in order, and each slot holds its own item's outcome. */
  lemma FinishedRunIsComplete<R>(work: nat -> Outcome<R>, items: nat, concurrency: nat, run: seq<State<R>>)
    requires concurrency >= 1 && Run(work, items, concurrency, run) && Done(run[|run| - 1])
    ensures run[|run| - 1].results == Outcomes(work, items) && run[|run| - 1].started == seq(items, (i: nat) => i)
    ensures |run[|run| - 1].results| == items
    ensures forall i :: 0 <= i < items ==>
              match work(i)
              case Resolves(value) => run[|run| - 1].results[i] == Some(Fulfilled(value))
              case Rejects => run[|run| - 1].results[i] == Some(Rejected("research_question_failed"))
  {
    RunInv(work, items, concurrency, run, |run| - 1);
    DoneResults(work, items, concurrency, run[|run| - 1]);
  }

  lemma DoneResults<R>(work: nat -> Outcome<R>, items: nat, concurrency: nat, s: State<R>)
    requires concurrency >= 1 && Inv(work, items, concurrency, s) && Done(s)
    ensures s.results == Outcomes(work, items) && s.started == seq(items, (i: nat) => i)
  {
    if items > 0 {
      assert s.workers[0].Finished?;
    }
    assert forall i: nat :: !InFlight(s, i);
  }

  // ---------------------------------------------------------------- progress

  function Weight(w: Worker): nat {
    match w
    case AtGuard => 1
    case Awaiting(_) => 2
    case Finished => 0
  }

  function TotalWeight(workers: seq<Worker>): nat {
    if workers == [] then 0 else Weight(workers[0]) + TotalWeight(workers[1..])
  }

  /** Steps still possible: two for each item not yet taken, and the workers' own. */
  function Measure<R>(s: State<R>): int {
    2 * (|s.results| - s.cursor) + TotalWeight(s.workers)
  }

  lemma {:induction false} WeightChange(workers: seq<Worker>, w: nat, to: Worker)
    requires w < |workers|
    ensures TotalWeight(workers[w := to]) == TotalWeight(workers) - Weight(workers[w]) + Weight(to)
  {
    if w == 0 {
      assert workers[0 := to][1..] == workers[1..];
    } else {
      WeightChange(workers[1..], w - 1, to);
      assert workers[w := to][1..] == workers[1..][w - 1 := to];
    }
  }

  lemma StepDecreases<R>(work: nat -> Outcome<R>, items: nat, concurrency: nat, s: State<R>, t: State<R>)
    requires Inv(work, items, concurrency, s) && Next(work, s, t)
    ensures 0 <= Measure(t) && Measure(t) == Measure(s) - 1
  {
    var w: nat :| StepOf(work, s, w, t);
    NextInv(work, items, concurrency, s, t);
    WeightChange(s.workers, w, t.workers[w]);
  }

  /** While a worker is unfinished it can step, if the work it awaits settles. */
  lemma Progress<R>(work: nat -> Outcome<R>, items: nat, concurrency: nat, s: State<R>)
    requires Inv(work, items, concurrency, s)
    ensures Done(s) <==> !exists t :: Next(work, s, t)
  {
    if !Done(s) {
      var w :| 0 <= w < |s.workers| && !s.workers[w].Finished?;
      var t := Advance(work, s, w);
      assert StepOf(work, s, w, t);
      assert Next(work, s, t);
    }
  }

  /** The state one step of worker `w` leads to. */
  function Advance<R>(work: nat -> Outcome<R>, s: State<R>, w: nat): (t: State<R>)
    requires w < |s.workers| && (s.workers[w].Awaiting? ==> s.workers[w].index < |s.results|)
    ensures !s.workers[w].Finished? ==> StepOf(work, s, w, t)
  {
    match s.workers[w]
    case AtGuard =>
      if s.cursor < |s.results| then
        State(s.cursor + 1, s.results, s.workers[w := Awaiting(s.cursor)], s.started + [s.cursor])
      else s.(workers := s.workers[w := Finished])
    case Awaiting(index) =>
      s.(results := s.results[index := Some(SettledAs(work(index)))], workers := s.workers[w := AtGuard])
    case Finished => s
  }

  /** No run is longer than two steps an item and one a worker, so every run that goes on ends. */
  lemma {:induction false} RunsAreBounded<R>(work: nat -> Outcome<R>, items: nat, concurrency: nat, run: seq<State<R>>, k: nat)
    requires Run(work, items, concurrency, run) && k < |run|
    ensures k + Measure(run[k]) == 2 * items + Min(concurrency, items)
    ensures k <= 2 * items + Min(concurrency, items)
  {
    if k == 0 {
      InitWeight(Min(concurrency, items));
    } else {
      RunsAreBounded(work, items, concurrency, run, k - 1);
      RunInv(work, items, concurrency, run, k - 1);
      assert Next(work, run[k - 1], run[k]);
      StepDecreases(work, items, concurrency, run[k - 1], run[k]);
    }
    RunInv(work, items, concurrency, run, k);
  }

  lemma {:induction false} InitWeight(n: nat)
    ensures TotalWeight(seq(n, _ => AtGuard)) == n
  {
    if n > 0 {
      InitWeight(n - 1);
      assert seq(n, _ => AtGuard)[1..] == seq(n - 1, _ => AtGuard);
    }
  }

  /** A run finishes exactly when it has used up all its steps. */
  lemma RunEndsDone<R>(work: nat -> Outcome<R>, items: nat, concurrency: nat, run: seq<State<R>>)
    requires concurrency >= 1 && Run(work, items, concurrency, run)
    ensures Done(run[|run| - 1]) <==> |run| == 1 + 2 * items + Min(concurrency, items)
  {
    var last := run[|run| - 1];
    RunsAreBounded(work, items, concurrency, run, |run| - 1);
    RunInv(work, items, concurrency, run, |run| - 1);
    if Done(last) {
      NoWeight(last.workers);
      if items > 0 {
        assert last.workers[0].Finished?;
      }
    } else {
      var w :| 0 <= w < |last.workers| && !last.workers[w].Finished?;
      SomeWeight(last.workers, w);
    }
  }

  lemma {:induction false} NoWeight(workers: seq<Worker>)
    requires forall w :: 0 <= w < |workers| ==> workers[w].Finished?
    ensures TotalWeight(workers) == 0
  {
    if workers != [] {
      NoWeight(workers[1..]);
    }
  }

  lemma {:induction false} SomeWeight(workers: seq<Worker>, w: nat)
    requires w < |workers| && !workers[w].Finished?
    ensures TotalWeight(workers) > 0
  {
    if w > 0 {
      SomeWeight(workers[1..], w - 1);
    }
  }

  // ---------------------------------------------------------------- the pool itself

  /** Runs the workers under an arbitrary scheduler; whatever it picks, the answer is the same. */
  method ResearchPool<R>(items: nat, concurrency: int, work: nat -> Outcome<R>)
    returns (valid: bool, results: array<Option<Settled<R>>>)
    ensures valid == (concurrency >= 1)
    ensures valid ==> results[..] == Outcomes(work, items)
    ensures valid ==> results.Length == items
    ensures valid ==> forall i :: 0 <= i < items ==>
              match work(i)
              case Resolves(value) => results[i] == Some(Fulfilled(value))
              case Rejects => results[i] == Some(Rejected("research_question_failed"))
  {
    results := new Option<Settled<R>>[items](_ => None);
    if concurrency < 1 {
      return false, results;
    }
    var cursor: nat := 0;
    var workers: seq<Worker> := seq(Min(concurrency, items), _ => AtGuard);
    ghost var started: seq<nat> := [];
    InitInv(work, items, concurrency);
    assert State(cursor, results[..], workers, started) == Init(items, concurrency);
    while exists w :: 0 <= w < |workers| && !workers[w].Finished?
      invariant Inv(work, items, concurrency, State(cursor, results[..], workers, started))
      decreases Measure(State(cursor, results[..], workers, started))
    {
      ghost var before := State(cursor, results[..], workers, started);
      var w: nat :| w < |workers| && !workers[w].Finished?;
      match workers[w] {
        case AtGuard =>
          if cursor < items {
            workers := workers[w := Awaiting(cursor)];
            started := started + [cursor];
            cursor := cursor + 1;
          } else {
            workers := workers[w := Finished];
          }
        case Awaiting(index) =>
          results[index] := Some(SettledAs(work(index)));
          workers := workers[w := AtGuard];
      }
      ghost var after := State(cursor, results[..], workers, started);
      assert after == Advance(work, before, w);
      assert StepOf(work, before, w, after);
      NextInv(work, items, concurrency, before, after);
      StepDecreases(work, items, concurrency, before, after);
    }
    DoneResults(work, items, concurrency, State(cursor, results[..], workers, started));
    valid := true;
  }
}
