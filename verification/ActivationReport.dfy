/**
 * The report beside the journal: a save renames the journal first and the report second, and can fail, or the process
 * crash, between them. Every run of the two files is a run of the journal alone, so what holds of those holds here.
 */
module ActivationReport {
  import opened Wrappers
  import opened Activation
  import opened ActivationRecords

  // `P(..) == true` in a contract keeps Dafny from expanding P at every call, see `ActivationRecords`.

  /** What the report shows of the journal it was written from. */
  datatype Report = Report(rows: seq<Row>, cleanup: bool)

  /**
   * `written`: there is a journal file. `saving`: the journal is renamed and the report is not yet. `setup`: the process
   * has started and not yet saved the catalog it found.
   */
  datatype Files = Files(state: State, written: bool, report: Option<Report>, saving: bool, setup: bool)

  datatype Move = Act(a: Action) | FirstSave | SetupSave | RenameReport | ThrowBetween | CrashBetween

  const NO_FILES := Files(START, false, None, false, false)

  function Shown(j: Journal): Report {
    Report(j.rows, j.cleanup)
  }

  predicate ByServer(a: Action) {
    a.Admit? || a.Drop? || a.Terminate? || a.Account?
  }

  /**
   * Between the two renames only the server acts. A fresh process writes its journal before it opens its connection, so a
   * failure until then ends it; any process saves once more when it has read the catalog.
   */
  predicate Allowed(server: Server, plan: set<Key>, f: Files, m: Move) {
    match m
    case Act(a) =>
      (Enabled(server, plan, f.state, a) == true) && (f.saving ==> ByServer(a)) &&
      (f.setup ==> ByServer(a) || a.Crash? || (a.Throw? && f.written))
    case FirstSave => f.setup && !f.saving && !f.written
    case SetupSave => f.setup && !f.saving && f.written
    case RenameReport => f.saving
    case ThrowBetween => f.saving && !f.setup
    case CrashBetween => f.saving
  }

  /** The journal in memory on disk. */
  function Saved(s: State): State {
    if s.process.Up? then s.(disk := s.process.mem) else s
  }

  function Thrown(s: State): State {
    if s.process.Up? && !s.process.pc.Failing? then Apply(s, Throw) else s
  }

  function Moved(f: Files, m: Move): Files {
    match m
    case Act(a) =>
      f.(state := Apply(f.state, a), saving := f.saving || a.Save?, setup := a.Start? || (f.setup && !a.Throw? && !a.Crash?))
    case FirstSave => f.(state := Saved(f.state), written := true, saving := true)
    case SetupSave => f.(state := Saved(f.state), saving := true, setup := false)
    case RenameReport => f.(report := Some(Shown(f.state.disk)), saving := false)
    case ThrowBetween => f.(state := Thrown(f.state), saving := false)
    case CrashBetween => f.(state := if f.state.process.Up? then Apply(f.state, Crash) else f.state, saving := false, setup := false)
  }

  function FilesAfter(moves: seq<Move>): Files {
    if moves == [] then NO_FILES else Moved(FilesAfter(moves[..|moves| - 1]), moves[|moves| - 1])
  }

  ghost predicate IsFileRun(server: Server, plan: set<Key>, moves: seq<Move>) {
    forall k :: 0 <= k < |moves| ==> Allowed(server, plan, FilesAfter(moves[..k]), moves[k])
  }

  lemma InitIsRun(server: Server, plan: set<Key>, moves: seq<Move>)
    requires IsFileRun(server, plan, moves) && moves != []
    ensures var n := |moves| - 1;
            IsFileRun(server, plan, moves[..n]) && Allowed(server, plan, FilesAfter(moves[..n]), moves[n]) == true
  {
    var init := moves[..|moves| - 1];
    forall k | 0 <= k < |init| ensures Allowed(server, plan, FilesAfter(init[..k]), init[k]) == true {
      assert init[..k] == moves[..k];
      assert Allowed(server, plan, FilesAfter(moves[..k]), moves[k]) == true;
    }
  }

  // ---------------------------------------------------------------- the journal alone

  /** Where the process stands while it sets up and between two renames. */
  ghost predicate InPlace(f: Files) {
    && (f.saving ==> f.written)
    && (f.setup ==> f.state.process.Up? && f.state.process.mem == f.state.disk && !InFinish(f.state.process.pc))
    && (!f.written ==> f.report == None && (f.state.process.Up? ==> f.setup))
    && (f.saving && f.state.process.Up? ==> !InFinish(f.state.process.pc))
  }

  lemma ServerLeavesProcess(s: State, a: Action)
    requires ByServer(a)
    ensures Apply(s, a).process == s.process && Apply(s, a).disk == s.disk
  {
  }

  lemma StartsInSetup(s: State)
    ensures var t := Apply(s, Start); t.process.Up? && t.process.mem == t.disk && !InFinish(t.process.pc)
  {
  }

  lemma SavesInPlace(server: Server, plan: set<Key>, s: State)
    requires Enabled(server, plan, s, Save) == true
    ensures s.process.Up? && (Apply(s, Save).process.Up? ==> !InFinish(Apply(s, Save).process.pc))
  {
  }

  lemma StaysDown(server: Server, plan: set<Key>, s: State, a: Action)
    requires Enabled(server, plan, s, a) == true && !a.Start?
    ensures Apply(s, a).process.Up? ==> s.process.Up?
  {
  }

  lemma CrashEnds(s: State)
    requires s.process.Up?
    ensures Apply(s, Crash).process.Down? && Apply(s, Crash).disk == s.disk
  {
  }

  lemma ActInPlace(server: Server, plan: set<Key>, f: Files, a: Action)
    requires InPlace(f) && Allowed(server, plan, f, Act(a)) == true
    ensures InPlace(Moved(f, Act(a)))
  {
    if ByServer(a) {
      ServerLeavesProcess(f.state, a);
    } else if a.Save? {
      SavesInPlace(server, plan, f.state);
    } else if a.Start? {
      StartsInSetup(f.state);
    } else {
      StaysDown(server, plan, f.state, a);
    }
    hide Enabled, Apply, InFinish;
  }

  lemma MoveInPlace(server: Server, plan: set<Key>, f: Files, m: Move)
    requires InPlace(f) && Allowed(server, plan, f, m) == true
    ensures InPlace(Moved(f, m))
  {
    if m.Act? {
      ActInPlace(server, plan, f, m.a);
    } else if m.CrashBetween? && f.state.process.Up? {
      CrashEnds(f.state);
    }
    hide Enabled, Apply;
  }

  lemma MoveReaches(server: Server, plan: set<Key>, f: Files, m: Move)
    requires Reaches(server, plan, f.state) == true && InPlace(f) && Allowed(server, plan, f, m) == true
    ensures Reaches(server, plan, Moved(f, m).state) == true
  {
    hide Reaches, Apply;
    match m
    case Act(a) => ReachesNext(server, plan, f.state, a);
    case FirstSave => assert Saved(f.state) == f.state;
    case SetupSave => assert Saved(f.state) == f.state;
    case RenameReport =>
    case ThrowBetween =>
      if Thrown(f.state) != f.state {
        ReachesNext(server, plan, f.state, Throw);
      }
    case CrashBetween =>
      if f.state.process.Up? {
        ReachesNext(server, plan, f.state, Crash);
      }
  }

  /** Leaving the report out, every run is one of the journal alone. */
  lemma {:induction false} FilesReach(server: Server, plan: set<Key>, moves: seq<Move>)
    requires IsFileRun(server, plan, moves)
    ensures Reaches(server, plan, FilesAfter(moves).state) == true && InPlace(FilesAfter(moves))
  {
    if moves == [] {
      StartReaches(server, plan);
    } else {
      var n := |moves| - 1;
      hide Reaches, Allowed, Moved, InPlace;
      InitIsRun(server, plan, moves);
      FilesReach(server, plan, moves[..n]);
      MoveReaches(server, plan, FilesAfter(moves[..n]), moves[n]);
      MoveInPlace(server, plan, FilesAfter(moves[..n]), moves[n]);
    }
  }

  // ---------------------------------------------------------------- what the two files show

  /** What the journal on disk shows, if there is one. */
  function Showing(f: Files): Option<Report> {
    if f.written then Some(Shown(f.state.disk)) else None
  }

  predicate Agrees(f: Files) {
    f.report == Showing(f)
  }

  /** The report was written from this journal or an earlier one, and one marked complete from this. */
  ghost predicate NotAhead(f: Files) {
    f.report.Some? ==> f.written && f.report.value.rows <= f.state.disk.rows && (f.report.value.cleanup ==> Agrees(f))
  }

  lemma CompleteIsDown(plan: set<Key>, s: State)
    requires Recorded(plan, s) == true
    ensures s.disk.cleanup ==> s.process.Down?
  {
  }

  lemma SavesUp(server: Server, plan: set<Key>, s: State)
    requires Enabled(server, plan, s, Save) == true
    ensures s.process.Up?
  {
  }

  /** The journal on disk only grows, and once marked complete stays as it is. */
  lemma MoveGrows(server: Server, plan: set<Key>, f: Files, m: Move)
    requires Recorded(plan, f.state) == true && InPlace(f) && Allowed(server, plan, f, m) == true
    ensures f.state.disk.rows <= Moved(f, m).state.disk.rows && (f.state.disk.cleanup ==> Moved(f, m).state.disk == f.state.disk)
    ensures f.written ==> Moved(f, m).written
  {
    hide Recorded, Apply, Enabled, InFinish;
    CompleteIsDown(plan, f.state);
    match m
    case Act(a) =>
      DiskGrows(server, plan, f.state, a);
      if a.Save? {
        SavesUp(server, plan, f.state);
      } else {
        OnlySaveWrites(server, plan, f.state, a);
      }
    case FirstSave =>
    case SetupSave =>
    case RenameReport =>
    case ThrowBetween => ThrowWrites(f.state);
    case CrashBetween => CrashWrites(f.state);
  }

  lemma ThrowWrites(s: State)
    ensures Thrown(s).disk == s.disk && (s.process.Down? ==> Thrown(s).process.Down?)
  {
  }

  lemma CrashWrites(s: State)
    ensures Apply(s, Crash).disk == s.disk
  {
  }

  lemma NeverBack(f: Files, g: Files)
    requires NotAhead(f) && g.report == f.report && (f.written ==> g.written)
    requires f.state.disk.rows <= g.state.disk.rows && (f.state.disk.cleanup ==> g.state.disk == f.state.disk)
    ensures NotAhead(g) && (Agrees(g) <==> Agrees(f) && Showing(g) == Showing(f))
  {
    if Agrees(g) && f.report.Some? {
      assert f.report.value.rows == f.state.disk.rows == g.state.disk.rows;
    }
  }

  /**
   * Renaming the report makes the two agree; renaming the journal over one that shows something else makes them disagree;
   * nothing else changes whether they agree.
   */
  lemma MoveShows(server: Server, plan: set<Key>, f: Files, m: Move)
    requires Recorded(plan, f.state) == true && InPlace(f) && NotAhead(f) && Allowed(server, plan, f, m) == true
    ensures NotAhead(Moved(f, m))
    ensures var g := Moved(f, m);
            Agrees(g) <==> m.RenameReport? || (Agrees(f) && Showing(g) == Showing(f))
  {
    MoveGrows(server, plan, f, m);
    hide Recorded, Apply, Enabled, InFinish, Thrown, Saved;
    var g := Moved(f, m);
    if !m.RenameReport? {
      NeverBack(f, g);
    }
  }

  /** Move `k` is a rename of the journal that changes what the journal shows. */
  ghost predicate Changes(moves: seq<Move>, k: nat)
    requires k < |moves|
  {
    Showing(FilesAfter(moves[..k + 1])) != Showing(FilesAfter(moves[..k]))
  }

  ghost predicate ReportedAfter(moves: seq<Move>, k: nat) {
    exists j :: k < j < |moves| && moves[j].RenameReport?
  }

  /** Every rename of the journal that changed what it shows was followed by a rename of the report. */
  ghost predicate Followed(moves: seq<Move>) {
    forall k :: 0 <= k < |moves| && Changes(moves, k) ==> ReportedAfter(moves, k)
  }

  lemma FollowedNext(moves: seq<Move>)
    requires moves != [] && (moves[|moves| - 1].RenameReport? ==> !Changes(moves, |moves| - 1))
    ensures Followed(moves) <==>
            moves[|moves| - 1].RenameReport? || (!Changes(moves, |moves| - 1) && Followed(moves[..|moves| - 1]))
  {
    var n := |moves| - 1;
    var init := moves[..n];
    forall k | 0 <= k < n ensures Changes(init, k) == Changes(moves, k) {
      assert init[..k] == moves[..k] && init[..k + 1] == moves[..k + 1];
    }
    hide Changes;
    if moves[n].RenameReport? {
      forall k | 0 <= k < |moves| && Changes(moves, k) ensures ReportedAfter(moves, k) {
        assert k < n;
      }
    } else {
      forall k | 0 <= k < n ensures ReportedAfter(init, k) == ReportedAfter(moves, k) {
        assert forall j :: k < j < n ==> init[j] == moves[j];
      }
      assert !ReportedAfter(moves, n);
      if Followed(moves) && !Changes(moves, n) {
        forall k | 0 <= k < |init| && Changes(init, k) ensures ReportedAfter(init, k) {
          assert Changes(moves, k);
        }
      }
    }
  }

  lemma {:induction false} RunShows(server: Server, plan: set<Key>, moves: seq<Move>)
    requires IsFileRun(server, plan, moves)
    ensures NotAhead(FilesAfter(moves)) && (Agrees(FilesAfter(moves)) <==> Followed(moves))
  {
    if moves != [] {
      var n := |moves| - 1;
      var f, m := FilesAfter(moves[..n]), moves[n];
      hide Reaches, Allowed, NotAhead, Recorded, InPlace, Followed, Showing;
      InitIsRun(server, plan, moves);
      RunShows(server, plan, moves[..n]);
      FilesReach(server, plan, moves[..n]);
      ReachedRecords(server, plan, f.state);
      MoveShows(server, plan, f, m);
      LastMove(moves);
      FollowedNext(moves);
    }
  }

  lemma LastMove(moves: seq<Move>)
    requires moves != []
    ensures var n := |moves| - 1;
            var f, m := FilesAfter(moves[..n]), moves[n];
            FilesAfter(moves) == Moved(f, m) && (Changes(moves, n) <==> Showing(Moved(f, m)) != Showing(f)) &&
            (m.RenameReport? ==> !Changes(moves, n))
  {
    hide Apply;
    assert moves[..|moves|] == moves;
  }

  /**
   * The report agrees with the journal exactly when every rename of the journal that changed its rows or its mark was
   * followed by a rename of the report.
   */
  lemma ReportAgreesIff(server: Server, plan: set<Key>, moves: seq<Move>)
    requires IsFileRun(server, plan, moves)
    ensures Agrees(FilesAfter(moves)) <==> Followed(moves)
  {
    RunShows(server, plan, moves);
  }

  /** Beside a complete journal the report agrees exactly when it says itself that it is complete. */
  lemma CompleteReportAgreesIff(server: Server, plan: set<Key>, moves: seq<Move>)
    requires IsFileRun(server, plan, moves)
    ensures var f := FilesAfter(moves);
            f.written && f.state.disk.cleanup ==> (Agrees(f) <==> f.report.Some? && f.report.value.cleanup)
  {
    RunShows(server, plan, moves);
  }

  predicate Interrupts(m: Move) {
    m.ThrowBetween? || m.CrashBetween?
  }

  /** Once the two agree, they do outside a save until a save is interrupted between its renames. */
  lemma {:induction false} AgreesUntilInterrupted(server: Server, plan: set<Key>, moves: seq<Move>, j: nat, k: nat)
    requires IsFileRun(server, plan, moves) && j <= k <= |moves|
    requires Agrees(FilesAfter(moves[..j])) && forall i :: j <= i < k ==> !Interrupts(moves[i])
    ensures Agrees(FilesAfter(moves[..k])) || FilesAfter(moves[..k]).saving
  {
    hide Agrees, Recorded, InPlace, NotAhead, Allowed, Moved, IsFileRun, FilesAfter;
    if j < k {
      AgreesUntilInterrupted(server, plan, moves, j, k - 1);
      RunKeepsFiles(server, plan, moves, k - 1);
      FilesStep(moves, k);
      MoveAgrees(server, plan, FilesAfter(moves[..k - 1]), moves[k - 1]);
    }
  }

  lemma FilesStep(moves: seq<Move>, k: nat)
    requires 0 < k <= |moves|
    ensures FilesAfter(moves[..k]) == Moved(FilesAfter(moves[..k - 1]), moves[k - 1])
  {
    hide Moved;
    assert moves[..k][..k - 1] == moves[..k - 1];
  }

  lemma RunKeepsFiles(server: Server, plan: set<Key>, moves: seq<Move>, k: nat)
    requires IsFileRun(server, plan, moves) && k < |moves|
    ensures var f := FilesAfter(moves[..k]);
            (Recorded(plan, f.state) == true) && InPlace(f) && NotAhead(f) && (Allowed(server, plan, f, moves[k]) == true)
  {
    hide Allowed, NotAhead, InPlace, FilesAfter;
    PrefixIsRun(server, plan, moves, k);
    FilesReach(server, plan, moves[..k]);
    ReachedRecords(server, plan, FilesAfter(moves[..k]).state);
    RunShows(server, plan, moves[..k]);
  }

  lemma PrefixIsRun(server: Server, plan: set<Key>, moves: seq<Move>, k: nat)
    requires IsFileRun(server, plan, moves) && k < |moves|
    ensures IsFileRun(server, plan, moves[..k]) && Allowed(server, plan, FilesAfter(moves[..k]), moves[k]) == true
  {
    hide Allowed, FilesAfter;
    var init := moves[..k];
    forall i | 0 <= i < |init| ensures Allowed(server, plan, FilesAfter(init[..i]), init[i]) == true {
      assert init[..i] == moves[..i];
    }
  }

  lemma MoveAgrees(server: Server, plan: set<Key>, f: Files, m: Move)
    requires Recorded(plan, f.state) == true && InPlace(f) && NotAhead(f) && Allowed(server, plan, f, m) == true
    requires (Agrees(f) || f.saving) && !Interrupts(m)
    ensures Agrees(Moved(f, m)) || Moved(f, m).saving
  {
    MoveShows(server, plan, f, m);
    if m.Act? && !m.a.Save? {
      OnlySaveWrites(server, plan, f.state, m.a);
    }
    hide Recorded, Apply, Enabled;
  }

  ghost predicate SameFiles(f: Files, g: Files) {
    g.report == f.report && g.state.disk == f.state.disk && !g.saving
  }

  /** Beside a complete journal nothing is written again, neither the journal nor the report. */
  lemma {:induction false} StaleForGood(server: Server, plan: set<Key>, moves: seq<Move>, j: nat, k: nat)
    requires IsFileRun(server, plan, moves) && j <= k <= |moves|
    requires FilesAfter(moves[..j]).state.disk.cleanup && !FilesAfter(moves[..j]).saving
    ensures SameFiles(FilesAfter(moves[..j]), FilesAfter(moves[..k]))
  {
    hide Recorded, InPlace, NotAhead, Allowed, Moved, IsFileRun, FilesAfter;
    if j < k {
      StaleForGood(server, plan, moves, j, k - 1);
      RunKeepsFiles(server, plan, moves, k - 1);
      FilesStep(moves, k);
      MoveIdle(server, plan, FilesAfter(moves[..k - 1]), moves[k - 1]);
    }
  }

  lemma MoveIdle(server: Server, plan: set<Key>, f: Files, m: Move)
    requires Recorded(plan, f.state) == true && InPlace(f) && f.state.disk.cleanup && !f.saving && Allowed(server, plan, f, m) == true
    ensures SameFiles(f, Moved(f, m))
  {
    CompleteIsDown(plan, f.state);
    CompleteIsIdle(server, plan, f.state, m.a);
  }

  lemma CompleteIsIdle(server: Server, plan: set<Key>, s: State, a: Action)
    requires s.disk.cleanup && s.process.Down? && Enabled(server, plan, s, a) == true
    ensures ByServer(a) && Apply(s, a).disk == s.disk
  {
  }

  // ---------------------------------------------------------------- reports left behind

  ghost predicate FilesReached(server: Server, plan: set<Key>, f: Files) {
    exists moves :: IsFileRun(server, plan, moves) && FilesAfter(moves) == f
  }

  lemma NothingYet(server: Server, plan: set<Key>)
    ensures FilesReached(server, plan, NO_FILES)
  {
    var none: seq<Move> := [];
    assert IsFileRun(server, plan, none) && FilesAfter(none) == NO_FILES;
  }

  lemma FilesNext(server: Server, plan: set<Key>, f: Files, m: Move)
    requires FilesReached(server, plan, f) && Allowed(server, plan, f, m) == true
    ensures FilesReached(server, plan, Moved(f, m))
  {
    hide Allowed, Moved;
    var before :| IsFileRun(server, plan, before) && FilesAfter(before) == f;
    var moves := before + [m];
    assert moves[..|before|] == before;
    forall k | 0 <= k < |moves| ensures Allowed(server, plan, FilesAfter(moves[..k]), moves[k]) == true {
      if k < |before| {
        assert moves[..k] == before[..k];
        assert Allowed(server, plan, FilesAfter(before[..k]), before[k]) == true;
      }
    }
    assert FilesAfter(moves) == Moved(f, m);
  }

  /** Each move is allowed with the files before it and leads to those after. */
  ghost predicate LeadsTo(server: Server, plan: set<Key>, files: seq<Files>, moves: seq<Move>, k: nat)
    requires |files| == |moves| + 1 && k < |moves|
  {
    (Allowed(server, plan, files[k], moves[k]) == true) && Moved(files[k], moves[k]) == files[k + 1]
  }

  lemma {:induction false} FilesWalk(server: Server, plan: set<Key>, files: seq<Files>, moves: seq<Move>, n: nat)
    requires |files| == |moves| + 1 && n <= |moves| && FilesReached(server, plan, files[0])
    requires forall k :: 0 <= k < n ==> LeadsTo(server, plan, files, moves, k)
    ensures FilesReached(server, plan, files[n])
  {
    hide FilesReached, Allowed, Moved;
    if n > 0 {
      FilesWalk(server, plan, files, moves, n - 1);
      assert LeadsTo(server, plan, files, moves, n - 1);
      FilesNext(server, plan, files[n - 1], moves[n - 1]);
    }
  }

  function With(rows: seq<Row>): Journal {
    FRESH.(rows := rows)
  }

  /** No chat yet, the journal with these rows on disk and another set in memory. */
  function Idle(disk: seq<Row>, pc: Pc, mem: seq<Row>): State {
    State(With(disk), EMPTY_WORLD, Up(pc, With(mem), false))
  }

  /** About to choose, with files that agree. */
  function Ready(rows: seq<Row>): Files {
    Files(Idle(rows, Choosing, rows), true, Some(Report(rows, false)), false, false)
  }

  const STARTING := [NO_FILES,
                     Files(Idle([], Choosing, []), false, None, false, true),
                     Files(Idle([], Choosing, []), true, None, true, true),
                     Files(Idle([], Choosing, []), true, Some(Report([], false)), false, true),
                     Files(Idle([], Choosing, []), true, Some(Report([], false)), true, false),
                     Ready([])]
  const STARTS := [Act(Start), FirstSave, RenameReport, SetupSave, RenameReport]

  lemma BecomesReady(server: Server, plan: set<Key>)
    ensures FilesReached(server, plan, Ready([]))
  {
    hide FilesReached;
    NothingYet(server, plan);
    forall k | 0 <= k < 5 ensures LeadsTo(server, plan, STARTING, STARTS, k) {
    }
    FilesWalk(server, plan, STARTING, STARTS, 5);
  }

  function Listing(rows: seq<Row>, key: Key): seq<Files> {
    var more := rows + [Row(key, None)];
    [Ready(rows),
     Files(Idle(rows, SavingNotRun, more), true, Some(Report(rows, false)), false, false),
     Files(Idle(more, Choosing, more), true, Some(Report(rows, false)), true, false),
     Ready(more)]
  }

  function Lists(key: Key): seq<Move> {
    [Act(ChooseNotRun(key)), Act(Save), RenameReport]
  }

  lemma ListsRow(server: Server, plan: set<Key>, rows: seq<Row>, key: Key)
    requires FilesReached(server, plan, Ready(rows)) && key in plan && !HasKey(rows, key)
    ensures forall k :: 0 <= k <= 3 ==> FilesReached(server, plan, Listing(rows, key)[k])
  {
    hide FilesReached;
    forall k | 0 <= k < 3 ensures LeadsTo(server, plan, Listing(rows, key), Lists(key), k) {
    }
    forall k | 0 <= k <= 3 ensures FilesReached(server, plan, Listing(rows, key)[k]) {
      FilesWalk(server, plan, Listing(rows, key), Lists(key), k);
    }
  }

  function KeysOf(rows: seq<Row>): set<Key> {
    set i | 0 <= i < |rows| :: rows[i].key
  }

  /** When no cell can run, every planned key gets its row. */
  lemma {:induction false} ListsAll(server: Server, plan: set<Key>, rows: seq<Row>) returns (all: seq<Row>)
    requires FilesReached(server, plan, Ready(rows))
    ensures FilesReached(server, plan, Ready(all)) && forall k :: k in plan ==> HasKey(all, k)
    decreases |plan - KeysOf(rows)|
  {
    hide FilesReached;
    if key :| key in plan && !HasKey(rows, key) {
      ListsRow(server, plan, rows, key);
      var more := rows + [Row(key, None)];
      assert Listing(rows, key)[3] == Ready(more);
      KeyListed(plan, rows, key);
      all := ListsAll(server, plan, more);
    } else {
      all := rows;
    }
  }

  lemma KeyListed(plan: set<Key>, rows: seq<Row>, key: Key)
    requires key in plan && !HasKey(rows, key)
    ensures |plan - KeysOf(rows + [Row(key, None)])| < |plan - KeysOf(rows)|
  {
    var more := rows + [Row(key, None)];
    assert more[|rows|].key == key;
    assert plan - KeysOf(rows) == (plan - KeysOf(more)) + {key} by {
      forall k ensures k in KeysOf(more) <==> k in KeysOf(rows) || k == key {
        if i :| 0 <= i < |rows| && rows[i].key == k { assert more[i].key == k; }
      }
    }
  }

  /** The last save, interrupted: a complete journal, and a report that says otherwise. */
  function LeftBehind(rows: seq<Row>): Files {
    Files(State(With(rows).(cleanup := true), EMPTY_WORLD, Down), true, Some(Report(rows, false)), false, false)
  }

  function Ending(rows: seq<Row>): seq<Files> {
    var done := With(rows).(cleanup := true);
    [Ready(rows),
     Ready(rows).(state := State(With(rows), EMPTY_WORLD, Up(Finishing, With(rows), true))),
     Ready(rows).(state := State(With(rows), EMPTY_WORLD, Up(SavingCleanup, done, true))),
     LeftBehind(rows).(saving := true),
     LeftBehind(rows)]
  }

  const ENDS := [Act(ChooseDone), Act(FinishDone), Act(Save), CrashBetween]

  lemma Ends(server: Server, plan: set<Key>, rows: seq<Row>, k: nat)
    requires k < 4 && forall key :: key in plan ==> HasKey(rows, key)
    ensures LeadsTo(server, plan, Ending(rows), ENDS, k)
  {
  }

  /** For every plan, and whatever the server does, a complete journal can stand beside a report that says otherwise. */
  lemma ReportLeftBehind(server: Server, plan: set<Key>) returns (rows: seq<Row>)
    ensures FilesReached(server, plan, LeftBehind(rows)) && LeftBehind(rows).state.disk.cleanup && !Agrees(LeftBehind(rows))
  {
    hide FilesReached;
    BecomesReady(server, plan);
    rows := ListsAll(server, plan, []);
    forall k | 0 <= k < 4 ensures LeadsTo(server, plan, Ending(rows), ENDS, k) {
      Ends(server, plan, rows, k);
    }
    FilesWalk(server, plan, Ending(rows), ENDS, 4);
  }

  /** A process that lives on outside a save while the report lacks a row on disk: the save of that row failed between its renames. */
  lemma StaleAfterFailure(server: Server, plan: set<Key>, key: Key) returns (f: Files)
    requires key in plan
    ensures FilesReached(server, plan, f) && f.state.process == Up(Finishing, f.state.disk, false) && !f.saving && !f.setup && !Agrees(f)
  {
    hide FilesReached;
    BecomesReady(server, plan);
    ListsRow(server, plan, [], key);
    var rows := [Row(key, None)];
    assert [] + rows == rows;
    f := Files(Idle(rows, Failing, rows), true, Some(Report([], false)), false, false);
    assert Moved(Listing([], key)[2], ThrowBetween) == f;
    FilesNext(server, plan, Listing([], key)[2], ThrowBetween);
    FilesNext(server, plan, f, Act(Finally));
    f := Moved(f, Act(Finally));
  }

  /** A resumed process reads and asks beside a stale report until it saves for the first time. */
  lemma StaleAtResume(server: Server, plan: set<Key>) returns (f: Files)
    ensures FilesReached(server, plan, f) && f.state.process.Up? && f.setup && !f.saving && f.written && !Agrees(f)
  {
    hide FilesReached;
    NothingYet(server, plan);
    FilesNext(server, plan, NO_FILES, Act(Start));
    FilesNext(server, plan, STARTING[1], FirstSave);
    FilesNext(server, plan, STARTING[2], CrashBetween);
    var down := Files(State(With([]), EMPTY_WORLD, Down), true, None, false, false);
    assert Moved(STARTING[2], CrashBetween) == down;
    FilesNext(server, plan, down, Act(Start));
    f := Moved(down, Act(Start));
  }
}
