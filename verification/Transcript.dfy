/**
 * Model responses of a stored transcript: rows of one response are consecutive in their lane, carry one
 * timestamp, and only the first has the request's anchor.
 */
module Transcript {
  import opened Wrappers
  import opened Sorting

  /** Rows of one run, thread and turn. */
  datatype Lane = Lane(run: string, thread: Option<string>, turn: Option<string>)

  /**
   * A transcript row. `model` says that it is a model item with an origin, `anchor` holds the reported
   * input tokens of a request anchor, and `output` the reported share of output tokens.
   */
  datatype Item = Item(id: string, lane: Lane, sequence: int, created: Option<int>, model: bool,
                       anchor: Option<Option<nat>>, output: Option<nat>)

  datatype Response = Response(lane: Lane, input: Option<nat>, output: Option<nat>)

  // ---------------------------------------------------------------- one lane

  predicate Continues(previous: Item, row: Item) {
    row.sequence == previous.sequence + 1 && row.created == previous.created && row.anchor == None
  }

  /** Row `k` belongs to the response of the row before it. */
  predicate Joins(rows: seq<Item>, k: int)
    requires k < |rows|
  {
    k > 0 && rows[k - 1].model && rows[k].model && Continues(rows[k - 1], rows[k])
  }

  predicate StartsAt(rows: seq<Item>, k: int)
    requires 0 <= k < |rows|
  {
    rows[k].model && !Joins(rows, k)
  }

  /** Where the run of rows that starts at `a` ends. */
  function RunEnd(rows: seq<Item>, a: nat): (b: nat)
    requires a < |rows|
    ensures a < b <= |rows|
    decreases |rows| - a
  {
    if a + 1 < |rows| && Joins(rows, a + 1) then RunEnd(rows, a + 1) else a + 1
  }

  /** The starts of the first `n` rows, in order. */
  function Starts(rows: seq<Item>, n: nat): (r: seq<nat>)
    requires n <= |rows|
    ensures forall i :: 0 <= i < |r| ==> r[i] < n && StartsAt(rows, r[i])
  {
    if n == 0 then [] else Starts(rows, n - 1) + if StartsAt(rows, n - 1) then [n - 1] else []
  }

  /** The maximal runs of model rows: one for each start, as far as rows join. */
  function Runs(rows: seq<Item>): seq<seq<Item>> {
    var starts := Starts(rows, |rows|);
    seq(|starts|, i requires 0 <= i < |starts| => rows[starts[i]..RunEnd(rows, starts[i])])
  }

  function ModelRows(rows: seq<Item>): seq<Item> {
    if rows == [] then []
    else ModelRows(rows[..|rows| - 1]) + if rows[|rows| - 1].model then [rows[|rows| - 1]] else []
  }

  function Flatten(runs: seq<seq<Item>>): seq<Item> {
    if runs == [] then [] else Flatten(runs[..|runs| - 1]) + runs[|runs| - 1]
  }

  // ---------------------------------------------------------------- one more row

  lemma {:induction false} StartsInit(rows: seq<Item>, last: Item, n: nat)
    requires n <= |rows|
    ensures Starts(rows + [last], n) == Starts(rows, n)
  {
    if n > 0 {
      StartsInit(rows, last, n - 1);
      var all := rows + [last];
      assert all[n - 1] == rows[n - 1] && (n - 1 > 0 ==> all[n - 2] == rows[n - 2]);
    }
  }

  /** A run grows by the new row exactly when it reached the end and the row joins. */
  lemma {:induction false} RunEndInit(rows: seq<Item>, last: Item, a: nat)
    requires a < |rows|
    ensures var all := rows + [last];
            RunEnd(all, a) == if RunEnd(rows, a) == |rows| && Joins(all, |rows|) then |rows| + 1 else RunEnd(rows, a)
    decreases |rows| - a
  {
    var all := rows + [last];
    assert forall k :: 0 <= k < |rows| ==> all[k] == rows[k];
    if a + 1 < |rows| {
      assert Joins(all, a + 1) == Joins(rows, a + 1);
      if Joins(rows, a + 1) {
        RunEndInit(rows, last, a + 1);
      }
    } else if Joins(all, a + 1) {
      assert RunEnd(all, a + 1) == a + 2;
    }
  }

  /** The last run reaches the end exactly when the last row is a model row, and earlier runs never do. */
  lemma {:induction false} LastRun(rows: seq<Item>)
    ensures var starts := Starts(rows, |rows|);
            forall i :: 0 <= i < |starts| ==>
              (RunEnd(rows, starts[i]) == |rows| <==> i == |starts| - 1 && rows[|rows| - 1].model)
    ensures rows != [] && rows[|rows| - 1].model ==> Starts(rows, |rows|) != []
  {
    if rows != [] {
      var init, last := rows[..|rows| - 1], rows[|rows| - 1];
      assert rows == init + [last];
      LastRun(init);
      StartsInit(init, last, |init|);
      var before, starts := Starts(init, |init|), Starts(rows, |rows|);
      forall i | 0 <= i < |starts|
        ensures RunEnd(rows, starts[i]) == |rows| <==> i == |starts| - 1 && last.model
      {
        if i < |before| {
          assert starts[i] == before[i];
          RunEndInit(init, last, before[i]);
        }
      }
    }
  }

  lemma RunGrows(rows: seq<Item>, last: Item, i: nat)
    requires i < |Runs(rows)|
    ensures var all := rows + [last];
            i < |Runs(all)| && Runs(all)[i] == if i == |Runs(rows)| - 1 && Joins(all, |rows|) then Runs(rows)[i] + [last] else Runs(rows)[i]
  {
    var all, a := rows + [last], Starts(rows, |rows|)[i];
    StartsInit(rows, last, |rows|);
    LastRun(rows);
    RunEndInit(rows, last, a);
    var b := RunEnd(rows, a);
    assert Starts(all, |all|)[i] == a && Runs(rows)[i] == rows[a..b];
    assert all[a..b] == rows[a..b];
    if i == |Runs(rows)| - 1 && Joins(all, |rows|) {
      assert all[a..|rows| + 1] == all[a..|rows|] + [last];
    }
  }

  /** How many runs there are once a row is added, and what a new one holds. */
  lemma RunsCount(rows: seq<Item>, last: Item)
    ensures var all := rows + [last];
            if StartsAt(all, |rows|) then |Runs(all)| == |Runs(rows)| + 1 && Runs(all)[|Runs(rows)|] == [last]
            else |Runs(all)| == |Runs(rows)|
  {
    var all := rows + [last];
    StartsInit(rows, last, |rows|);
    if StartsAt(all, |rows|) {
      assert RunEnd(all, |rows|) == |rows| + 1;
      assert all[|rows|..|rows| + 1] == [last];
    }
  }

  /** What a pass over the rows keeps, once a row is added. */
  ghost predicate Grown(runs: seq<seq<Item>>, more: seq<seq<Item>>, last: Item, joins: bool) {
    if !last.model then more == runs
    else if joins then runs != [] && more == runs[..|runs| - 1] + [runs[|runs| - 1] + [last]]
    else more == runs + [[last]]
  }

  lemma Assemble(runs: seq<seq<Item>>, more: seq<seq<Item>>, last: Item, joins: bool)
    requires joins ==> last.model && runs != []
    requires |more| == |runs| + if last.model && !joins then 1 else 0
    requires last.model && !joins ==> more[|runs|] == [last]
    requires forall i :: 0 <= i < |runs| ==> more[i] == if i == |runs| - 1 && joins then runs[i] + [last] else runs[i]
    ensures Grown(runs, more, last, joins)
  {
  }

  lemma RunsNext(rows: seq<Item>, last: Item)
    ensures Grown(Runs(rows), Runs(rows + [last]), last, Joins(rows + [last], |rows|))
  {
    var runs, more := Runs(rows), Runs(rows + [last]);
    RunsCount(rows, last);
    LastRun(rows);
    forall i | 0 <= i < |runs|
      ensures i < |more| && more[i] == if i == |runs| - 1 && Joins(rows + [last], |rows|) then runs[i] + [last] else runs[i]
    {
      RunGrows(rows, last, i);
    }
    Assemble(runs, more, last, Joins(rows + [last], |rows|));
  }

  /** The runs partition the model rows, in order. */
  lemma {:induction false} RunsPartition(rows: seq<Item>)
    ensures Flatten(Runs(rows)) == ModelRows(rows)
  {
    if rows != [] {
      var init, last := rows[..|rows| - 1], rows[|rows| - 1];
      assert rows == init + [last];
      RunsPartition(init);
      RunsNext(init, last);
      var runs := Runs(init);
      if last.model {
        if Joins(rows, |init|) {
          FlattenLast(runs[..|runs| - 1], runs[|runs| - 1] + [last]);
        } else {
          FlattenLast(runs, [last]);
        }
      }
    }
  }

  lemma FlattenLast(runs: seq<seq<Item>>, run: seq<Item>)
    ensures Flatten(runs + [run]) == Flatten(runs) + run
  {
    assert (runs + [run])[..|runs|] == runs;
  }

  /** Within a run rows are model rows in step, and only the first may carry an anchor. */
  lemma {:induction false} RunIsOneResponse(rows: seq<Item>, a: nat)
    requires a < |rows| && rows[a].model
    ensures forall k :: a <= k < RunEnd(rows, a) ==> rows[k].model
    ensures forall k :: a < k < RunEnd(rows, a) ==>
              rows[k].sequence == rows[k - 1].sequence + 1 && rows[k].created == rows[k - 1].created && rows[k].anchor == None
    ensures var b := RunEnd(rows, a);
            b == |rows| || !rows[b].model || rows[b].sequence != rows[b - 1].sequence + 1 || rows[b].created != rows[b - 1].created ||
            rows[b].anchor.Some?
    decreases |rows| - a
  {
    if a + 1 < |rows| && Joins(rows, a + 1) {
      RunIsOneResponse(rows, a + 1);
    }
  }

  /** Every row that begins a response is a start, in order. */
  lemma {:induction false} StartsAre(rows: seq<Item>, n: nat)
    requires n <= |rows|
    ensures forall i, j :: 0 <= i < j < |Starts(rows, n)| ==> Starts(rows, n)[i] < Starts(rows, n)[j]
    ensures forall k: nat :: k in Starts(rows, n) <==> k < n && StartsAt(rows, k)
  {
    if n > 0 {
      StartsAre(rows, n - 1);
    }
  }

  /** Each response is a run of rows of one response, and begins where the row before it does not lead on. */
  lemma RunsMean(rows: seq<Item>, i: nat) returns (a: nat, b: nat)
    requires i < |Runs(rows)|
    ensures |Runs(rows)| == |Starts(rows, |rows|)| && a == Starts(rows, |rows|)[i]
    ensures a < b <= |rows| && Runs(rows)[i] == rows[a..b]
    ensures forall k :: a <= k < b ==> rows[k].model
    ensures forall k :: a < k < b ==>
              rows[k].sequence == rows[k - 1].sequence + 1 && rows[k].created == rows[k - 1].created && rows[k].anchor == None
    ensures b == |rows| || !rows[b].model || rows[b].sequence != rows[b - 1].sequence + 1 || rows[b].created != rows[b - 1].created ||
            rows[b].anchor.Some?
    ensures a == 0 || !rows[a - 1].model || rows[a].sequence != rows[a - 1].sequence + 1 || rows[a].created != rows[a - 1].created ||
            rows[a].anchor.Some?
  {
    a := Starts(rows, |rows|)[i];
    b := RunEnd(rows, a);
    RunIsOneResponse(rows, a);
  }

  /** One pass over a lane in the order of its sequence numbers. */
  method Segment(rows: seq<Item>) returns (responses: seq<seq<Item>>)
    ensures responses == Runs(rows)
  {
    responses := [];
    var open := false;
    var previous: Option<Item> := None;
    for k := 0 to |rows|
      invariant responses == Runs(rows[..k])
      invariant previous == if k == 0 then None else Some(rows[k - 1])
      invariant open <==> k > 0 && rows[k - 1].model
      invariant open ==> responses != []
    {
      var row := rows[k];
      RunsNext(rows[..k], row);
      assert rows[..k + 1] == rows[..k] + [row];
      if !row.model {
        open := false;
      } else {
        if !open || previous == None || row.sequence != previous.value.sequence + 1 ||
           row.created != previous.value.created || row.anchor.Some? {
          responses := responses + [[row]];
          open := true;
        } else {
          responses := responses[..|responses| - 1] + [responses[|responses| - 1] + [row]];
        }
      }
      previous := Some(row);
    }
    assert rows[..|rows|] == rows;
  }
}
