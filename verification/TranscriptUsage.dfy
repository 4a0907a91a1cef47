/** All lanes of a transcript: the responses do not depend on the order of the stored rows, and their figures add up by role. */
module TranscriptUsage {
  import opened Wrappers
  import opened Permutations
  import opened Sorting
  import opened Transcript

  // ---------------------------------------------------------------- rows by id

  function IndexOfId(rows: seq<Item>, id: string): (i: nat)
    ensures i <= |rows| && (i < |rows| ==> rows[i].id == id) && forall j :: 0 <= j < i ==> rows[j].id != id
  {
    if rows == [] || rows[0].id == id then 0 else 1 + IndexOfId(rows[1..], id)
  }

  /** A later row of the same id takes the place of the earlier one. */
  function Put(rows: seq<Item>, row: Item): seq<Item> {
    var i := IndexOfId(rows, row.id);
    if i < |rows| then rows[i := row] else rows + [row]
  }

  function ById(rows: seq<Item>): seq<Item> {
    if rows == [] then [] else Put(ById(rows[..|rows| - 1]), rows[|rows| - 1])
  }

  /** Rows of one id are the same row, and rows of one lane differ in their sequence numbers. */
  ghost predicate Consistent(rows: seq<Item>) {
    forall x, y :: x in rows && y in rows ==>
      (x.id == y.id ==> x == y) && (x.lane == y.lane && x.sequence == y.sequence ==> x == y)
  }

  lemma {:induction false} ByIdElements(rows: seq<Item>)
    requires Consistent(rows)
    ensures Distinct(ById(rows)) && forall x :: x in ById(rows) <==> x in rows
    ensures forall i, j :: 0 <= i < j < |ById(rows)| ==> ById(rows)[i].id != ById(rows)[j].id
  {
    if rows != [] {
      var init, last := rows[..|rows| - 1], rows[|rows| - 1];
      assert rows == init + [last];
      ByIdElements(init);
      var before := ById(init);
      var i := IndexOfId(before, last.id);
      if i < |before| {
        assert before[i] in init && before[i] == last;
        assert before[i := last] == before;
      } else {
        forall x | x in before ensures x.id != last.id {
          var j :| 0 <= j < |before| && before[j] == x;
        }
      }
    }
  }

  // ---------------------------------------------------------------- lanes

  function InLane(lane: Lane): Item -> bool {
    (row: Item) => row.lane == lane
  }

  function BySequence(): (Item, Item) -> bool {
    (a: Item, b: Item) => a.sequence <= b.sequence
  }

  function OwnRows(rows: seq<Item>, lane: Lane): seq<Item> {
    Filter(InLane(lane), rows)
  }

  /** The lane's rows in the order of their sequence numbers. */
  function LaneRows(rows: seq<Item>, lane: Lane): seq<Item> {
    Sort(BySequence(), OwnRows(rows, lane))
  }

  function LaneOf(): Item -> Lane {
    (row: Item) => row.lane
  }

  /** The lanes in the order of their first rows. */
  function Lanes(rows: seq<Item>): seq<Lane> {
    Firsts(LaneOf(), rows)
  }

  function TotalOutput(run: seq<Item>): Option<nat> {
    if run == [] then Some(0)
    else
      match (TotalOutput(run[..|run| - 1]), run[|run| - 1].output)
      case (Some(m), Some(n)) => Some(m + n)
      case _ => None
  }

  /** The figures of one response: the input its first item's anchor reports, and its items' shares of the output. */
  function Figures(lane: Lane, run: seq<Item>): Response {
    Response(lane, if run != [] && run[0].anchor.Some? then run[0].anchor.value else None, TotalOutput(run))
  }

  function RunFigures(lane: Lane): seq<Item> -> seq<Response> {
    (run: seq<Item>) => [Figures(lane, run)]
  }

  function LaneResponses(rows: seq<Item>): Lane -> seq<Response> {
    (lane: Lane) => FlatMap(RunFigures(lane), Runs(LaneRows(rows, lane)))
  }

  function Responses(rows: seq<Item>): seq<Response> {
    FlatMap(LaneResponses(ById(rows)), Lanes(ById(rows)))
  }

  // ---------------------------------------------------------------- order does not matter

  lemma SequencePreorder()
    ensures TotalPreorder(BySequence())
  {
  }

  lemma LaneRowsSame(s: seq<Item>, t: seq<Item>, lane: Lane)
    requires Distinct(s) && Distinct(t) && (forall x :: x in s <==> x in t) && Consistent(s)
    ensures LaneRows(s, lane) == LaneRows(t, lane)
  {
    var keep := InLane(lane);
    FilterElements(keep, s);
    FilterElements(keep, t);
    DistinctPermutation(Filter(keep, s), Filter(keep, t));
    SequencePreorder();
    SortCanonical(BySequence(), Filter(keep, s), Filter(keep, t));
  }

  /** The same rows in another order, or stored more than once, give the same responses. */
  lemma RowOrderIrrelevant(s: seq<Item>, t: seq<Item>)
    requires Consistent(s) && forall x :: x in s <==> x in t
    ensures multiset(Responses(s)) == multiset(Responses(t))
    ensures forall lane :: LaneRows(ById(s), lane) == LaneRows(ById(t), lane)
  {
    assert Consistent(t);
    ByIdElements(s);
    ByIdElements(t);
    forall lane ensures LaneRows(ById(s), lane) == LaneRows(ById(t), lane) {
      LaneRowsSame(ById(s), ById(t), lane);
    }
    FirstsSame(LaneOf(), ById(s), ById(t));
    FlatMapPermutes(LaneResponses(ById(s)), Lanes(ById(s)), Lanes(ById(t)));
    FlatMapSame(LaneResponses(ById(s)), LaneResponses(ById(t)), Lanes(ById(t)));
  }

  // ---------------------------------------------------------------- reading the transcript

  method ResearchResponses(rows: seq<Item>) returns (responses: seq<Response>)
    ensures responses == Responses(rows)
  {
    var unique: seq<Item> := [];
    for i := 0 to |rows|
      invariant unique == ById(rows[..i])
    {
      assert rows[..i + 1][..i] == rows[..i];
      unique := Put(unique, rows[i]);
    }
    assert rows[..|rows|] == rows;
    responses := ReadLanes(unique);
  }

  lemma FlatMapNone<T, U>(f: T -> seq<U>)
    ensures FlatMap(f, []) == []
  {
  }

  lemma LaneResponsesAre(rows: seq<Item>, lane: Lane, own: seq<Item>)
    requires own == OwnRows(rows, lane)
    ensures LaneResponses(rows)(lane) == FlatMap(RunFigures(lane), Runs(Sort(BySequence(), own)))
  {
  }

  method ReadLanes(rows: seq<Item>) returns (responses: seq<Response>)
    ensures responses == FlatMap(LaneResponses(rows), Lanes(rows))
  {
    var order, table := GroupByLane(rows);
    responses := Collect(rows, order, table);
    GroupsOrder(order, table, rows);
  }

  method Collect(rows: seq<Item>, order: seq<Lane>, table: map<Lane, seq<Item>>) returns (responses: seq<Response>)
    requires forall l :: l in order ==> l in table && table[l] == OwnRows(rows, l)
    ensures responses == FlatMap(LaneResponses(rows), order)
  {
    ghost var f := LaneResponses(rows);
    responses := [];
    FlatMapNone(f);
    for k := 0 to |order|
      invariant responses == FlatMap(f, order[..k])
    {
      var found := ReadLane(order[k], table[order[k]]);
      LaneResponsesAre(rows, order[k], table[order[k]]);
      FlatMapNext(f, order, k);
      responses := responses + found;
    }
    assert order[..|order|] == order;
  }

  function Held(table: map<Lane, seq<Item>>, lane: Lane): seq<Item> {
    if lane in table then table[lane] else []
  }

  /** The table holds each lane's rows so far. */
  ghost predicate Groups(order: seq<Lane>, table: map<Lane, seq<Item>>, rows: seq<Item>) {
    order == Lanes(rows) && (forall l :: l in table <==> l in order) && forall l :: Held(table, l) == OwnRows(rows, l)
  }

  lemma GroupsOrder(order: seq<Lane>, table: map<Lane, seq<Item>>, rows: seq<Item>)
    requires Groups(order, table, rows)
    ensures order == Lanes(rows)
    ensures forall l :: l in order ==> l in table && table[l] == OwnRows(rows, l)
  {
    forall l | l in order ensures l in table && table[l] == OwnRows(rows, l) {
      assert Held(table, l) == OwnRows(rows, l);
    }
  }

  lemma GroupsStart()
    ensures Groups([], map[], [])
  {
  }

  lemma OwnNext(rows: seq<Item>, row: Item, lane: Lane)
    ensures OwnRows(rows + [row], lane) == if row.lane == lane then OwnRows(rows, lane) + [row] else OwnRows(rows, lane)
  {
    FilterNext(InLane(lane), rows, row);
  }

  lemma GroupsNext(order: seq<Lane>, table: map<Lane, seq<Item>>, rows: seq<Item>, row: Item)
    requires Groups(order, table, rows)
    ensures Groups(if row.lane in table then order else order + [row.lane],
                   table[row.lane := Held(table, row.lane) + [row]], rows + [row])
  {
    FirstsNext(LaneOf(), rows, row);
    var more := table[row.lane := Held(table, row.lane) + [row]];
    forall l ensures Held(more, l) == OwnRows(rows + [row], l) {
      OwnNext(rows, row, l);
      assert Held(table, l) == OwnRows(rows, l);
    }
  }

  method GroupByLane(rows: seq<Item>) returns (order: seq<Lane>, table: map<Lane, seq<Item>>)
    ensures Groups(order, table, rows)
  {
    order, table := [], map[];
    GroupsStart();
    for i := 0 to |rows|
      invariant Groups(order, table, rows[..i])
    {
      GroupsNext(order, table, rows[..i], rows[i]);
      var lane := rows[i].lane;
      var own := Held(table, lane);
      order := if lane in table then order else order + [lane];
      table := table[lane := own + [rows[i]]];
      assert rows[..i + 1] == rows[..i] + [rows[i]];
    }
    assert rows[..|rows|] == rows;
  }

  method ReadLane(lane: Lane, rows: seq<Item>) returns (responses: seq<Response>)
    ensures responses == FlatMap(RunFigures(lane), Runs(Sort(BySequence(), rows)))
  {
    var runs := Segment(Sort(BySequence(), rows));
    responses := [];
    for i := 0 to |runs|
      invariant responses == FlatMap(RunFigures(lane), runs[..i])
    {
      assert runs[..i + 1][..i] == runs[..i];
      responses := responses + [Figures(lane, runs[i])];
    }
    assert runs[..|runs|] == runs;
  }

  // ---------------------------------------------------------------- what the responses are

  /** Row `k` is the last of its id. */
  predicate LastOfId(rows: seq<Item>, k: nat) {
    k < |rows| && forall l :: k < l < |rows| ==> rows[l].id != rows[k].id
  }

  function IdOf(): Item -> string {
    (row: Item) => row.id
  }

  /** Each id keeps its last row, in the place of its first. */
  lemma {:induction false} ByIdMeans(rows: seq<Item>)
    ensures forall x :: x in ById(rows) <==> Last(rows, x)
    ensures |ById(rows)| == |Firsts(IdOf(), rows)| && forall i :: 0 <= i < |ById(rows)| ==> ById(rows)[i].id == Firsts(IdOf(), rows)[i]
  {
    if rows != [] {
      var init, last := rows[..|rows| - 1], rows[|rows| - 1];
      ByIdMeans(init);
      FirstsElements(IdOf(), init);
      PutMeans(ById(init), last);
      PutKeys(ById(init), Firsts(IdOf(), init), last);
      forall x ensures x in ById(rows) <==> Last(rows, x) {
        LastNext(rows, x);
      }
    }
  }

  /** The row takes the place of those of its id, of which there is one at most. */
  lemma PutMeans(before: seq<Item>, last: Item)
    requires forall i, j :: 0 <= i < j < |before| ==> before[i].id != before[j].id
    ensures forall x :: x in Put(before, last) <==> x == last || (x in before && x.id != last.id)
  {
    var i := IndexOfId(before, last.id);
    var after := Put(before, last);
    assert after[i] == last;
    forall x | x in before && x.id != last.id ensures x in after {
      var j :| 0 <= j < |before| && before[j] == x;
      assert after[j] == x;
    }
  }

  lemma PutKeys(before: seq<Item>, ids: seq<string>, last: Item)
    requires |before| == |ids| && forall i :: 0 <= i < |before| ==> before[i].id == ids[i]
    ensures var more := if last.id in ids then ids else ids + [last.id];
            |Put(before, last)| == |more| && forall i :: 0 <= i < |more| ==> Put(before, last)[i].id == more[i]
  {
    if last.id in ids {
      var j :| 0 <= j < |ids| && ids[j] == last.id;
      assert before[j].id == last.id;
    }
  }

  /** The row is the last of its id. */
  ghost predicate Last(rows: seq<Item>, x: Item) {
    exists k: nat :: LastOfId(rows, k) && rows[k] == x
  }

  lemma LastNext(rows: seq<Item>, x: Item)
    requires rows != []
    ensures var init, last := rows[..|rows| - 1], rows[|rows| - 1];
            Last(rows, x) <==> x == last || (x.id != last.id && Last(init, x))
  {
    var init, n := rows[..|rows| - 1], |rows| - 1;
    assert LastOfId(rows, n);
    if x.id != rows[n].id && Last(init, x) {
      LastStays(rows, x);
    }
    if x != rows[n] && Last(rows, x) {
      LastBefore(rows, x);
    }
  }

  lemma LastStays(rows: seq<Item>, x: Item)
    requires rows != [] && x.id != rows[|rows| - 1].id && Last(rows[..|rows| - 1], x)
    ensures Last(rows, x)
  {
    var init := rows[..|rows| - 1];
    var k: nat :| LastOfId(init, k) && init[k] == x;
    assert forall l :: 0 <= l < |init| ==> init[l] == rows[l];
    assert LastOfId(rows, k);
  }

  lemma LastBefore(rows: seq<Item>, x: Item)
    requires rows != [] && x != rows[|rows| - 1] && Last(rows, x)
    ensures x.id != rows[|rows| - 1].id && Last(rows[..|rows| - 1], x)
  {
    var init := rows[..|rows| - 1];
    var k: nat :| LastOfId(rows, k) && rows[k] == x;
    assert forall l :: 0 <= l < |init| ==> init[l] == rows[l];
    assert LastOfId(init, k);
  }

  /** A lane's rows, by their sequence numbers. */
  lemma LaneRowsAre(rows: seq<Item>, lane: Lane)
    ensures multiset(LaneRows(rows, lane)) == multiset(Filter(InLane(lane), rows))
    ensures forall x :: x in LaneRows(rows, lane) <==> x in rows && x.lane == lane
    ensures forall i, j :: 0 <= i < j < |LaneRows(rows, lane)| ==> LaneRows(rows, lane)[i].sequence <= LaneRows(rows, lane)[j].sequence
  {
    FilterElements(InLane(lane), rows);
    SortMultiset(BySequence(), OwnRows(rows, lane));
    SortElements(BySequence(), OwnRows(rows, lane));
    SequencePreorder();
    SortSorted(BySequence(), OwnRows(rows, lane));
  }

  /** A response has the input of its first row's anchor, and its rows' output if each of them has one. */
  lemma FiguresMean(rows: seq<Item>, lane: Lane, i: nat)
    requires i < |Runs(LaneRows(rows, lane))|
    ensures |LaneResponses(rows)(lane)| == |Runs(LaneRows(rows, lane))|
    ensures var r, run := LaneResponses(rows)(lane)[i], Runs(LaneRows(rows, lane))[i];
            && r.lane == lane && run != [] && r.output == TotalOutput(run)
            && (forall v :: r.input == Some(v) <==> run[0].anchor == Some(Some(v)))
            && (r.output == None <==> exists k :: 0 <= k < |run| && run[k].output == None)
  {
    var runs := Runs(LaneRows(rows, lane));
    FlatFigures(lane, runs);
    var a, b := RunsMean(LaneRows(rows, lane), i);
    OutputMissing(runs[i]);
  }

  lemma {:induction false} FlatFigures(lane: Lane, runs: seq<seq<Item>>)
    ensures var all := FlatMap(RunFigures(lane), runs);
            |all| == |runs| && forall i :: 0 <= i < |runs| ==> all[i] == Figures(lane, runs[i])
  {
    if runs != [] {
      FlatFigures(lane, runs[..|runs| - 1]);
    }
  }

  lemma {:induction false} OutputMissing(run: seq<Item>)
    ensures TotalOutput(run) == None <==> exists k :: 0 <= k < |run| && run[k].output == None
  {
    if run != [] {
      var init := run[..|run| - 1];
      OutputMissing(init);
      assert forall k :: 0 <= k < |init| ==> init[k] == run[k];
    }
  }

  /** Output shares add up. */
  lemma {:induction false} OutputsAdd(a: seq<Item>, b: seq<Item>)
    ensures forall x: Item :: TotalOutput([x]) == x.output
    ensures TotalOutput(a + b) ==
            if TotalOutput(a) == None || TotalOutput(b) == None then None else Some(TotalOutput(a).value + TotalOutput(b).value)
  {
    forall x: Item ensures TotalOutput([x]) == x.output {
      assert [x][..0] == [];
    }
    if b == [] {
      assert a + b == a;
    } else {
      assert (a + b)[..|a + b| - 1] == a + b[..|b| - 1];
      OutputsAdd(a, b[..|b| - 1]);
    }
  }

  function FromLane(lane: Lane): Response -> bool {
    (r: Response) => r.lane == lane
  }

  /** The responses are those of each lane, in order. */
  lemma ResponsesOfLane(rows: seq<Item>, lane: Lane)
    ensures Filter(FromLane(lane), Responses(rows)) == LaneResponses(ById(rows))(lane)
  {
    FirstsElements(LaneOf(), ById(rows));
    if lane !in Lanes(ById(rows)) {
      NoRows(ById(rows), lane);
    }
    hide LaneResponses, Lanes, ById;
    forall other ensures Filter(FromLane(lane), LaneResponses(ById(rows))(other)) ==
                         if other == lane then LaneResponses(ById(rows))(other) else [] {
      FromOneLane(ById(rows), other, lane);
    }
    FilterFlatMap(FromLane(lane), LaneResponses(ById(rows)), Lanes(ById(rows)), lane);
  }

  lemma NoRows(rows: seq<Item>, lane: Lane)
    requires lane !in Lanes(rows)
    ensures LaneResponses(rows)(lane) == []
  {
    forall x | x in rows ensures !InLane(lane)(x) {
      var i: nat :| i < |rows| && rows[i] == x;
      KeyIn(LaneOf(), rows, i);
    }
    FilterNone(InLane(lane), rows);
  }

  lemma FromOneLane(rows: seq<Item>, other: Lane, lane: Lane)
    ensures Filter(FromLane(lane), LaneResponses(rows)(other)) == if other == lane then LaneResponses(rows)(lane) else []
  {
    FlatFigures(other, Runs(LaneRows(rows, other)));
    if other == lane {
      FilterWhole(FromLane(lane), LaneResponses(rows)(other));
    } else {
      FilterNone(FromLane(lane), LaneResponses(rows)(other));
    }
  }

  // ---------------------------------------------------------------- usage by role

  datatype Role = Main | Researchers | GapJudge | Verifier | Skeptic | Unattributed

  /** The role of a thread: the main one, one with a known name, or neither. */
  function ThreadRole(names: map<string, Role>, thread: Option<string>): Role {
    match thread
    case None => Main
    case Some(id) => if id in names then names[id] else Unattributed
  }

  function Total<T>(f: T -> nat, s: seq<T>): nat {
    if s == [] then 0 else Total(f, s[..|s| - 1]) + f(s[|s| - 1])
  }

  function OfRole<T>(role: T -> Role, r: Role): T -> bool {
    (x: T) => role(x) == r
  }

  function Own<T>(role: T -> Role, r: Role, s: seq<T>): seq<T> {
    Filter(OfRole(role, r), s)
  }

  function OverRoles<T>(f: T -> nat, role: T -> Role, s: seq<T>): nat {
    Total(f, Own(role, Main, s)) + Total(f, Own(role, Researchers, s)) + Total(f, Own(role, GapJudge, s)) +
    Total(f, Own(role, Verifier, s)) + Total(f, Own(role, Skeptic, s)) + Total(f, Own(role, Unattributed, s))
  }

  lemma TotalNext<T>(f: T -> nat, s: seq<T>, x: T)
    ensures Total(f, s + [x]) == Total(f, s) + f(x)
  {
    assert (s + [x])[..|s|] == s;
  }

  lemma OwnTotalNext<T>(f: T -> nat, role: T -> Role, r: Role, s: seq<T>)
    requires s != []
    ensures Total(f, Own(role, r, s)) ==
            Total(f, Own(role, r, s[..|s| - 1])) + if role(s[|s| - 1]) == r then f(s[|s| - 1]) else 0
  {
    var before := Own(role, r, s[..|s| - 1]);
    TotalNext(f, before, s[|s| - 1]);
    assert before + [] == before;
  }

  /** Whatever is summed over the responses, or the turns, the six roles share it out completely. */
  lemma {:induction false} RolesConserve<T>(f: T -> nat, role: T -> Role, s: seq<T>)
    ensures OverRoles(f, role, s) == Total(f, s)
  {
    if s != [] {
      RolesConserve(f, role, s[..|s| - 1]);
      OwnTotalNext(f, role, Main, s);
      OwnTotalNext(f, role, Researchers, s);
      OwnTotalNext(f, role, GapJudge, s);
      OwnTotalNext(f, role, Verifier, s);
      OwnTotalNext(f, role, Skeptic, s);
      OwnTotalNext(f, role, Unattributed, s);
    }
  }

  /** A role's part of the usage: counts of responses, and sums of what they report, if any of them does. */
  datatype Usage = Usage(responses: nat, input: Option<nat>, output: Option<nat>, missing: nat, missingInput: nat, missingOutput: nat)

  function One<T>(): T -> nat {
    (x: T) => 1
  }

  function InputOf(): Response -> Option<nat> {
    (r: Response) => r.input
  }

  function OutputOf(): Response -> Option<nat> {
    (r: Response) => r.output
  }

  function AmountOf(figure: Response -> Option<nat>): Response -> nat {
    (r: Response) => if figure(r).Some? then figure(r).value else 0
  }

  function Known(figure: Response -> Option<nat>): Response -> nat {
    (r: Response) => if figure(r).Some? then 1 else 0
  }

  function Unknown(figure: Response -> Option<nat>): Response -> nat {
    (r: Response) => if figure(r).Some? then 0 else 1
  }

  function Incomplete(): Response -> nat {
    (r: Response) => if r.input.None? || r.output.None? then 1 else 0
  }

  function Reported(figure: Response -> Option<nat>, s: seq<Response>): Option<nat> {
    if Total(Known(figure), s) == 0 then None else Some(Total(AmountOf(figure), s))
  }

  function RoleOf(names: map<string, Role>): Response -> Role {
    (r: Response) => ThreadRole(names, r.lane.thread)
  }

  function RoleUsage(names: map<string, Role>, r: Role, measured: seq<Response>): Usage {
    var own := Own(RoleOf(names), r, measured);
    Usage(|own|, Reported(InputOf(), own), Reported(OutputOf(), own),
          Total(Incomplete(), own), Total(Unknown(InputOf()), own), Total(Unknown(OutputOf()), own))
  }

  function Amount(x: Option<nat>): nat {
    if x.Some? then x.value else 0
  }

  function SumRoles(part: Role -> nat): nat {
    part(Main) + part(Researchers) + part(GapJudge) + part(Verifier) + part(Skeptic) + part(Unattributed)
  }

  lemma {:induction false} CountOnes<T>(s: seq<T>)
    ensures Total(One<T>(), s) == |s|
  {
    if s != [] {
      CountOnes(s[..|s| - 1]);
    }
  }

  lemma {:induction false} NoneKnown(figure: Response -> Option<nat>, s: seq<Response>)
    ensures Total(Known(figure), s) == 0 ==> Total(AmountOf(figure), s) == 0
    ensures Total(Known(figure), s) + Total(Unknown(figure), s) == |s|
  {
    if s != [] {
      NoneKnown(figure, s[..|s| - 1]);
    }
  }

  /** The role's amount is its responses' sum: a figure none of them reports is absent, not zero. */
  lemma ReportedAmount(figure: Response -> Option<nat>, s: seq<Response>)
    ensures Amount(Reported(figure, s)) == Total(AmountOf(figure), s)
    ensures Reported(figure, s) == None <==> Total(Unknown(figure), s) == |s|
  {
    NoneKnown(figure, s);
  }

  /** The six roles share out the responses, and the reported figures, completely. */
  lemma ResponsesConserved(names: map<string, Role>, measured: seq<Response>)
    ensures SumRoles(r => RoleUsage(names, r, measured).responses) == |measured|
  {
    RolesConserve(One<Response>(), RoleOf(names), measured);
    CountOnes(measured);
    forall r: Role ensures |Own(RoleOf(names), r, measured)| == Total(One<Response>(), Own(RoleOf(names), r, measured)) {
      CountOnes(Own(RoleOf(names), r, measured));
    }
  }

  lemma InputConserved(names: map<string, Role>, measured: seq<Response>)
    ensures SumRoles(r => Amount(RoleUsage(names, r, measured).input)) == Total(AmountOf(InputOf()), measured)
    ensures SumRoles(r => RoleUsage(names, r, measured).missingInput) == Total(Unknown(InputOf()), measured)
  {
    RolesConserve(AmountOf(InputOf()), RoleOf(names), measured);
    RolesConserve(Unknown(InputOf()), RoleOf(names), measured);
    forall r: Role ensures Amount(RoleUsage(names, r, measured).input) == Total(AmountOf(InputOf()), Own(RoleOf(names), r, measured)) {
      ReportedAmount(InputOf(), Own(RoleOf(names), r, measured));
    }
  }

  lemma OutputConserved(names: map<string, Role>, measured: seq<Response>)
    ensures SumRoles(r => Amount(RoleUsage(names, r, measured).output)) == Total(AmountOf(OutputOf()), measured)
    ensures SumRoles(r => RoleUsage(names, r, measured).missingOutput) == Total(Unknown(OutputOf()), measured)
  {
    RolesConserve(AmountOf(OutputOf()), RoleOf(names), measured);
    RolesConserve(Unknown(OutputOf()), RoleOf(names), measured);
    forall r: Role ensures Amount(RoleUsage(names, r, measured).output) == Total(AmountOf(OutputOf()), Own(RoleOf(names), r, measured)) {
      ReportedAmount(OutputOf(), Own(RoleOf(names), r, measured));
    }
  }

  // ---------------------------------------------------------------- what a role's usage means

  predicate Plays(names: map<string, Role>, r: Role, x: Response) {
    match x.lane.thread
    case None => r == Main
    case Some(id) => r == if id in names then names[id] else Unattributed
  }

  lemma {:induction false} CountOwn<T>(f: T -> nat, keep: T -> bool, both: T -> bool, s: seq<T>)
    requires forall x :: keep(x) ==> f(x) == if both(x) then 1 else 0
    requires forall x :: both(x) ==> keep(x)
    ensures Total(f, Filter(keep, s)) == |Places(s, both)|
  {
    if s == [] {
      assert Places(s, both) == {};
    } else {
      var init, last := s[..|s| - 1], s[|s| - 1];
      CountOwn(f, keep, both, init);
      PlacesNext(s, both);
      TotalNext(f, Filter(keep, init), last);
      assert s == init + [last];
      FilterNext(keep, init, last);
      hide Places, Filter, Total;
    }
  }

  /** The counts are those of the role's responses, and of those that miss a figure. */
  lemma UsageCounts(names: map<string, Role>, r: Role, measured: seq<Response>)
    ensures var u := RoleUsage(names, r, measured);
            && u.responses == |Places(measured, (x: Response) => Plays(names, r, x))|
            && u.missing == |Places(measured, (x: Response) => Plays(names, r, x) && (x.input.None? || x.output.None?))|
            && u.missingInput == |Places(measured, (x: Response) => Plays(names, r, x) && x.input.None?)|
            && u.missingOutput == |Places(measured, (x: Response) => Plays(names, r, x) && x.output.None?)|
  {
    hide Places, Total, Own, Plays;
    Played(names, r, measured);
    Counted(names, r, measured, Incomplete(), (x: Response) => Plays(names, r, x) && (x.input.None? || x.output.None?));
    Counted(names, r, measured, Unknown(InputOf()), (x: Response) => Plays(names, r, x) && x.input.None?);
    Counted(names, r, measured, Unknown(OutputOf()), (x: Response) => Plays(names, r, x) && x.output.None?);
  }

  lemma Played(names: map<string, Role>, r: Role, measured: seq<Response>)
    ensures |Own(RoleOf(names), r, measured)| == |Places(measured, (x: Response) => Plays(names, r, x))|
  {
    FilterCount(OfRole(RoleOf(names), r), measured);
    SamePlaces(measured, OfRole(RoleOf(names), r), (x: Response) => Plays(names, r, x));
  }

  lemma Counted(names: map<string, Role>, r: Role, measured: seq<Response>, f: Response -> nat, both: Response -> bool)
    requires forall x :: Plays(names, r, x) ==> f(x) == if both(x) then 1 else 0
    requires forall x :: both(x) ==> Plays(names, r, x)
    ensures Total(f, Own(RoleOf(names), r, measured)) == |Places(measured, both)|
  {
    CountOwn(f, OfRole(RoleOf(names), r), both, measured);
  }

  /** Two figures together: absent if both are. */
  function Plus(a: Option<nat>, b: Option<nat>): Option<nat> {
    if a == None then b else if b == None then a else Some(a.value + b.value)
  }

  lemma {:induction false} TotalAppend<T>(f: T -> nat, s: seq<T>, t: seq<T>)
    ensures Total(f, s + t) == Total(f, s) + Total(f, t)
  {
    if t == [] {
      assert s + t == s;
    } else {
      assert (s + t)[..|s + t| - 1] == s + t[..|t| - 1];
      TotalAppend(f, s, t[..|t| - 1]);
    }
  }

  lemma ReportedAppend(figure: Response -> Option<nat>, s: seq<Response>, t: seq<Response>)
    ensures Reported(figure, s + t) == Plus(Reported(figure, s), Reported(figure, t))
  {
    TotalAppend(Known(figure), s, t);
    TotalAppend(AmountOf(figure), s, t);
    NoneKnown(figure, s);
    NoneKnown(figure, t);
  }

  lemma ReportedOne(figure: Response -> Option<nat>, x: Response)
    ensures Reported(figure, [x]) == figure(x) && Reported(figure, []) == None
  {
    TotalNext(Known(figure), [], x);
    TotalNext(AmountOf(figure), [], x);
    assert [] + [x] == [x];
  }

  /** What a role reports is put together from its responses one by one. */
  lemma UsageAdds(names: map<string, Role>, r: Role, measured: seq<Response>, x: Response)
    ensures var u, v := RoleUsage(names, r, measured), RoleUsage(names, r, measured + [x]);
            && v.input == (if Plays(names, r, x) then Plus(u.input, x.input) else u.input)
            && v.output == (if Plays(names, r, x) then Plus(u.output, x.output) else u.output)
    ensures RoleUsage(names, r, []).input == None && RoleUsage(names, r, []).output == None
  {
    var own := Own(RoleOf(names), r, measured);
    FilterNext(OfRole(RoleOf(names), r), measured, x);
    ReportedAppend(InputOf(), own, [x]);
    ReportedAppend(OutputOf(), own, [x]);
    ReportedOne(InputOf(), x);
    ReportedOne(OutputOf(), x);
    hide Reported, Filter;
    assert Own(RoleOf(names), r, []) == [] by { OwnNone(names, r); }
  }

  lemma OwnNone(names: map<string, Role>, r: Role)
    ensures Own(RoleOf(names), r, []) == []
  {
  }
}
