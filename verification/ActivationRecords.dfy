/**
 * What holds of the activation experiment whatever the server does: its records only grow, its rows name runs that
 * were admitted, and a journal is marked complete only when all is done.
 */
module ActivationRecords {
  import opened Wrappers
  import opened Activation

  // A contract says `P(..) == true` where P is large: Dafny expands a predicate that stands alone at every call, and the
  // solver then needs many times the memory.

  // ---------------------------------------------------------------- steps and runs

  /** Steps of the server, and of the process as a whole. */
  predicate IsOuter(a: Action) {
    a.Admit? || a.Drop? || a.Terminate? || a.Account? || a.Start? || a.Crash? || a.Throw?
  }

  /** Steps up to the answer to an admission request. */
  predicate IsAdmission(a: Action) {
    a.Recover? || a.ChooseNotRun? || a.ChooseRun? || a.ChooseDone? || a.PassStartBoundary? || a.Create? || a.Register? ||
    a.Submit? || a.Post? || a.RespondOk? || a.RespondError?
  }

  lemma RunStep(server: Server, plan: set<Key>, actions: seq<Action>, k: nat)
    requires IsRun(server, plan, actions) && 0 < k <= |actions|
    ensures var s, a := StateAfter(actions[..k - 1]), actions[k - 1];
            StateAfter(actions[..k]) == Apply(s, a) && (Enabled(server, plan, s, a) == true)
  {
    hide Apply, Enabled;
    assert actions[..k][..k - 1] == actions[..k - 1];
  }

  ghost predicate Reaches(server: Server, plan: set<Key>, s: State) {
    exists actions :: IsRun(server, plan, actions) && StateAfter(actions) == s
  }

  lemma StartReaches(server: Server, plan: set<Key>)
    ensures Reaches(server, plan, START)
  {
    var none: seq<Action> := [];
    assert IsRun(server, plan, none) && StateAfter(none) == START;
  }

  lemma RunGrows(server: Server, plan: set<Key>, before: seq<Action>, a: Action)
    requires IsRun(server, plan, before) && Enabled(server, plan, StateAfter(before), a) == true
    ensures IsRun(server, plan, before + [a]) && StateAfter(before + [a]) == Apply(StateAfter(before), a)
  {
    hide Enabled, Apply;
    var actions := before + [a];
    assert actions[..|before|] == before;
    forall k | 0 <= k < |actions| ensures Enabled(server, plan, StateAfter(actions[..k]), actions[k]) == true {
      if k < |before| {
        assert actions[..k] == before[..k] && actions[k] == before[k];
      }
    }
  }

  lemma ReachesNext(server: Server, plan: set<Key>, s: State, a: Action)
    requires Reaches(server, plan, s) && Enabled(server, plan, s, a) == true
    ensures Reaches(server, plan, Apply(s, a))
  {
    hide Enabled, Apply, IsRun, StateAfter;
    var before :| IsRun(server, plan, before) && StateAfter(before) == s;
    RunGrows(server, plan, before, a);
  }

  // ---------------------------------------------------------------- small facts

  lemma HasKeyMono(a: seq<Row>, b: seq<Row>, key: Key)
    requires a <= b && HasKey(a, key)
    ensures HasKey(b, key)
  {
    var i :| 0 <= i < |a| && a[i].key == key;
    assert b[i].key == key;
  }

  lemma WithRowFacts(rows: seq<Row>, row: Row)
    requires UniqueKeys(rows)
    ensures UniqueKeys(WithRow(rows, row)) && rows <= WithRow(rows, row)
    ensures HasKey(WithRow(rows, row), row.key)
    ensures !HasKey(rows, row.key) ==> row in WithRow(rows, row)
  {
    if !HasKey(rows, row.key) {
      assert (rows + [row])[|rows|] == row;
    }
  }

  lemma OnlySaveWrites(server: Server, plan: set<Key>, s: State, a: Action)
    requires Enabled(server, plan, s, a) == true && !a.Save?
    ensures Apply(s, a).disk == s.disk
  {
    if IsAdmission(a) {
      AdmissionWritesNothing(server, plan, s, a);
    }
  }

  lemma AdmissionWritesNothing(server: Server, plan: set<Key>, s: State, a: Action)
    requires Enabled(server, plan, s, a) == true && IsAdmission(a)
    ensures Apply(s, a).disk == s.disk
  {
  }

  // ---------------------------------------------------------------- the invariant

  ghost predicate Covers(rows: seq<Row>, plan: set<Key>) {
    forall k :: k in plan ==> HasKey(rows, k)
  }

  /** A journal is marked complete only at the very end. */
  ghost predicate CompleteInv(plan: set<Key>, s: State) {
    && (s.disk.cleanup ==> s.process.Down? && s.disk.pending == None && s.world.chats == {} && Covers(s.disk.rows, plan))
    && (s.process.Up? ==>
          && (s.process.mem.cleanup ==> s.process.pc.SavingCleanup? && s.process.complete)
          && (s.process.complete ==> InFinish(s.process.pc) && Covers(s.process.mem.rows, plan)))
  }

  /** Every row with a run names one that was admitted for that row's key, and has ended. */
  ghost predicate NamesRuns(rows: seq<Row>, w: World) {
    forall i :: 0 <= i < |rows| && rows[i].run.Some? ==>
      rows[i].run.value in w.admitted && w.admitted[rows[i].run.value].key == rows[i].key && rows[i].run.value in w.terminal
  }

  ghost predicate OfChat(w: World, chat: Chat, key: Key) {
    chat in w.keyOf && w.keyOf[chat] == key
  }

  ghost predicate Named(j: Journal, w: World) {
    NamesRuns(j.rows, w) && (j.pending.Some? ==> OfChat(w, j.pending.value.chat, j.pending.value.key))
  }

  /** Rows and receipts name what the stand has. */
  ghost predicate NamesInv(s: State) {
    && (forall r :: r in s.world.admitted ==> OfChat(s.world, s.world.admitted[r].chat, s.world.admitted[r].key))
    && Named(s.disk, s.world) && (s.process.Up? ==> Named(s.process.mem, s.world))
  }

  /** Memory holds what the disk does, and one row a key. */
  ghost predicate GrowInv(s: State) {
    && UniqueKeys(s.disk.rows)
    && (s.process.Up? ==>
          UniqueKeys(s.process.mem.rows) && s.disk.rows <= s.process.mem.rows && Extends(s.process.mem.receipts, s.disk.receipts))
  }

  ghost predicate Awaits(j: Journal, chat: Chat) {
    j.pending.Some? && j.pending.value.chat == chat
  }

  /** A request in flight is that of the pending row, on disk and in memory. */
  ghost predicate InflightInv(s: State) {
    forall chat :: chat in s.world.inflight ==> Awaits(s.disk, chat) && (s.process.Up? ==> Awaits(s.process.mem, chat))
  }

  ghost predicate PlaceInv(s: State, pc: Pc, mem: Journal) {
    match pc
    case Recovering => mem.pending.Some? && mem == s.disk
    case Choosing => mem.pending == None
    case CheckingStart(_) => mem.pending == None
    case Creating(_) => mem.pending == None
    case Registering(key, chat) => mem.pending == None && OfChat(s.world, chat, key)
    case Posting => s.disk.pending == mem.pending
    case Merging(r) => IsCollecting(s, mem, r)
    case CheckingCollected(r) => IsCollecting(s, mem, r)
    case Appending(r) => IsCollecting(s, mem, r)
    case SavingNotRun => mem.pending == None
    case Checking(chat, after) => if after.Finish? then mem.pending == None else Awaits(mem, chat)
    case Deleting(chat, after) => if after.Finish? then mem.pending == None else Awaits(mem, chat)
    case Clearing(_) => s.world.inflight == {}
    case SavingCleared(_) => mem.pending == None
    case Finishing => mem.pending == None
    case SavingCleanup => mem.pending == None && s.world.chats == {}
    case _ => true
  }

  ghost predicate IsCollecting(s: State, mem: Journal, r: RunId) {
    mem.pending.Some? && r in s.world.admitted && s.world.admitted[r].chat == mem.pending.value.chat && r in s.world.terminal
  }

  ghost predicate Recorded(plan: set<Key>, s: State) {
    && GrowInv(s) && NamesInv(s) && InflightInv(s) && CompleteInv(plan, s)
    && Placed(s)
  }

  ghost predicate Placed(s: State) {
    s.process.Up? ==> PlaceInv(s, s.process.pc, s.process.mem)
  }

  lemma StartRecorded(plan: set<Key>)
    ensures Recorded(plan, START) == true
  {
  }

  // ---------------------------------------------------------------- every step keeps it

  lemma OuterGrow(server: Server, plan: set<Key>, s: State, a: Action)
    requires GrowInv(s) && Enabled(server, plan, s, a) == true && IsOuter(a)
    ensures GrowInv(Apply(s, a))
  {
  }

  lemma OuterNames(server: Server, plan: set<Key>, s: State, a: Action)
    requires NamesInv(s) && Placed(s) && Enabled(server, plan, s, a) == true && IsOuter(a)
    ensures NamesInv(Apply(s, a))
  {
  }

  lemma OuterInflight(server: Server, plan: set<Key>, s: State, a: Action)
    requires InflightInv(s) && Placed(s) && Enabled(server, plan, s, a) == true && IsOuter(a)
    ensures InflightInv(Apply(s, a))
  {
  }

  lemma OuterComplete(server: Server, plan: set<Key>, s: State, a: Action)
    requires CompleteInv(plan, s) && Placed(s) && Enabled(server, plan, s, a) == true && IsOuter(a)
    ensures CompleteInv(plan, Apply(s, a))
  {
  }

  lemma OuterPlace(server: Server, plan: set<Key>, s: State, a: Action)
    requires Placed(s) && NamesInv(s) && Enabled(server, plan, s, a) == true && IsOuter(a)
    ensures Placed(Apply(s, a))
  {
  }

  lemma OuterRecords(server: Server, plan: set<Key>, s: State, a: Action)
    requires Recorded(plan, s) == true && Enabled(server, plan, s, a) == true && IsOuter(a)
    ensures Recorded(plan, Apply(s, a)) == true
  {
    OuterGrow(server, plan, s, a);
    OuterNames(server, plan, s, a);
    OuterInflight(server, plan, s, a);
    OuterComplete(server, plan, s, a);
    OuterPlace(server, plan, s, a);
    hide Enabled, Apply, GrowInv, NamesInv, InflightInv, CompleteInv, Placed;
  }

  lemma AdmissionGrow(server: Server, plan: set<Key>, s: State, a: Action)
    requires GrowInv(s) && Enabled(server, plan, s, a) == true && IsAdmission(a)
    ensures GrowInv(Apply(s, a))
  {
    if a.ChooseNotRun? {
      WithRowFacts(s.process.mem.rows, Row(a.key, None));
    }
  }

  lemma AdmissionNames(server: Server, plan: set<Key>, s: State, a: Action)
    requires NamesInv(s) && Placed(s) && Enabled(server, plan, s, a) == true && IsAdmission(a)
    ensures NamesInv(Apply(s, a))
  {
    hide Enabled, Apply, NamesInv, Placed;
    if a.ChooseNotRun? {
      NotRunNames(server, plan, s, a);
    } else if a.Create? || a.Register? || a.Submit? || a.Post? {
      PostNames(server, plan, s, a);
    } else {
      QuietNames(server, plan, s, a);
    }
  }

  lemma PostNames(server: Server, plan: set<Key>, s: State, a: Action)
    requires NamesInv(s) && Placed(s) && Enabled(server, plan, s, a) == true && (a.Create? || a.Register? || a.Submit? || a.Post?)
    ensures NamesInv(Apply(s, a))
  {
    hide Boundary, HasKey;
  }

  lemma QuietNames(server: Server, plan: set<Key>, s: State, a: Action)
    requires NamesInv(s) && Placed(s) && Enabled(server, plan, s, a) == true
    requires a.Recover? || a.ChooseRun? || a.ChooseDone? || a.PassStartBoundary? || a.RespondOk? || a.RespondError?
    ensures NamesInv(Apply(s, a))
  {
    hide Boundary, RunsOf, HasKey, ResumeAction;
  }

  lemma NotRunNames(server: Server, plan: set<Key>, s: State, a: Action)
    requires NamesInv(s) && Enabled(server, plan, s, a) == true && a.ChooseNotRun?
    ensures NamesInv(Apply(s, a))
  {
  }

  lemma AdmissionInflight(server: Server, plan: set<Key>, s: State, a: Action)
    requires InflightInv(s) && Placed(s) && Enabled(server, plan, s, a) == true && IsAdmission(a)
    ensures InflightInv(Apply(s, a))
  {
    if a.Post? {
      PostInflight(server, plan, s);
    } else {
      QuietInflight(server, plan, s, a);
    }
    hide Enabled, Apply, InflightInv, Placed;
  }

  lemma PostInflight(server: Server, plan: set<Key>, s: State)
    requires InflightInv(s) && Placed(s) && Enabled(server, plan, s, Post) == true
    ensures InflightInv(Apply(s, Post))
  {
  }

  lemma QuietInflight(server: Server, plan: set<Key>, s: State, a: Action)
    requires InflightInv(s) && Placed(s) && Enabled(server, plan, s, a) == true && IsAdmission(a) && !a.Post?
    ensures InflightInv(Apply(s, a))
  {
    QuietStep(server, plan, s, a);
    hide Enabled, Apply, Awaits, Placed;
  }

  lemma QuietStep(server: Server, plan: set<Key>, s: State, a: Action)
    requires Placed(s) && Enabled(server, plan, s, a) == true && IsAdmission(a) && !a.Post?
    ensures var t := Apply(s, a);
            s.process.Up? && t.process.Up? && t.world.inflight == s.world.inflight && t.disk == s.disk &&
            forall chat :: Awaits(s.process.mem, chat) ==> Awaits(t.process.mem, chat)
  {
  }

  lemma AdmissionComplete(server: Server, plan: set<Key>, s: State, a: Action)
    requires CompleteInv(plan, s) && Placed(s) && Enabled(server, plan, s, a) == true && IsAdmission(a)
    ensures CompleteInv(plan, Apply(s, a))
  {
  }

  lemma AdmissionPlace(server: Server, plan: set<Key>, s: State, a: Action)
    requires Placed(s) && Enabled(server, plan, s, a) == true && IsAdmission(a)
    ensures Placed(Apply(s, a))
  {
  }

  lemma AdmissionRecords(server: Server, plan: set<Key>, s: State, a: Action)
    requires Recorded(plan, s) == true && Enabled(server, plan, s, a) == true && IsAdmission(a)
    ensures Recorded(plan, Apply(s, a)) == true
  {
    AdmissionGrow(server, plan, s, a);
    AdmissionNames(server, plan, s, a);
    AdmissionInflight(server, plan, s, a);
    AdmissionComplete(server, plan, s, a);
    AdmissionPlace(server, plan, s, a);
    hide Enabled, Apply, GrowInv, NamesInv, InflightInv, CompleteInv, Placed;
  }

  lemma SettlementGrow(server: Server, plan: set<Key>, s: State, a: Action)
    requires GrowInv(s) && Enabled(server, plan, s, a) == true && !IsOuter(a) && !IsAdmission(a)
    ensures GrowInv(Apply(s, a))
  {
    if a.Append? {
      WithRowFacts(s.process.mem.rows, Row(s.process.mem.pending.value.key, Some(s.process.pc.run)));
    } else if a.Merge? {
      MergedExtends(s.process.mem.receipts, a.events);
    }
  }

  lemma SettlementNames(server: Server, plan: set<Key>, s: State, a: Action)
    requires NamesInv(s) && Placed(s) && Enabled(server, plan, s, a) == true && !IsOuter(a) && !IsAdmission(a)
    ensures NamesInv(Apply(s, a))
  {
  }

  lemma SettlementInflight(server: Server, plan: set<Key>, s: State, a: Action)
    requires InflightInv(s) && Placed(s) && Enabled(server, plan, s, a) == true && !IsOuter(a) && !IsAdmission(a)
    ensures InflightInv(Apply(s, a))
  {
  }

  lemma SettlementComplete(server: Server, plan: set<Key>, s: State, a: Action)
    requires CompleteInv(plan, s) && Placed(s) && Enabled(server, plan, s, a) == true && !IsOuter(a) && !IsAdmission(a)
    ensures CompleteInv(plan, Apply(s, a))
  {
  }

  lemma SettlementPlace(server: Server, plan: set<Key>, s: State, a: Action)
    requires InflightInv(s) && Placed(s) && Enabled(server, plan, s, a) == true && !IsOuter(a) && !IsAdmission(a)
    ensures Placed(Apply(s, a))
  {
    if a.Save? {
      SavePlace(server, plan, s);
    } else {
      CleanupPlace(server, plan, s, a);
    }
    hide Enabled, Apply, InflightInv, Placed;
  }

  lemma SavePlace(server: Server, plan: set<Key>, s: State)
    requires Placed(s) && Enabled(server, plan, s, Save) == true
    ensures Placed(Apply(s, Save))
  {
  }

  lemma CleanupPlace(server: Server, plan: set<Key>, s: State, a: Action)
    requires InflightInv(s) && Placed(s) && Enabled(server, plan, s, a) == true && !IsOuter(a) && !IsAdmission(a) && !a.Save?
    ensures Placed(Apply(s, a))
  {
    hide HasKey, Boundary, WithRow, EventBindings;
  }

  lemma SettlementRecords(server: Server, plan: set<Key>, s: State, a: Action)
    requires Recorded(plan, s) == true && Enabled(server, plan, s, a) == true && !IsOuter(a) && !IsAdmission(a)
    ensures Recorded(plan, Apply(s, a)) == true
  {
    SettlementGrow(server, plan, s, a);
    SettlementNames(server, plan, s, a);
    SettlementInflight(server, plan, s, a);
    SettlementComplete(server, plan, s, a);
    SettlementPlace(server, plan, s, a);
    hide Enabled, Apply, GrowInv, NamesInv, InflightInv, CompleteInv, Placed;
  }

  lemma StepRecords(server: Server, plan: set<Key>, s: State, a: Action)
    requires Recorded(plan, s) == true && Enabled(server, plan, s, a) == true
    ensures Recorded(plan, Apply(s, a)) == true
  {
    hide Recorded, Enabled, Apply, IsOuter, IsAdmission;
    if IsOuter(a) {
      OuterRecords(server, plan, s, a);
    } else if IsAdmission(a) {
      AdmissionRecords(server, plan, s, a);
    } else {
      SettlementRecords(server, plan, s, a);
    }
  }

  lemma {:induction false} RunRecords(server: Server, plan: set<Key>, actions: seq<Action>, k: nat)
    requires IsRun(server, plan, actions) && k <= |actions|
    ensures Recorded(plan, StateAfter(actions[..k])) == true
  {
    if k == 0 {
      StartRecorded(plan);
    } else {
      RunRecords(server, plan, actions, k - 1);
      RunStep(server, plan, actions, k);
      hide Recorded, Enabled, Apply, StateAfter, IsRun;
      StepRecords(server, plan, StateAfter(actions[..k - 1]), actions[k - 1]);
    }
  }

  lemma ReachedRecords(server: Server, plan: set<Key>, s: State)
    requires Reaches(server, plan, s)
    ensures Recorded(plan, s) == true
  {
    var actions :| IsRun(server, plan, actions) && StateAfter(actions) == s;
    assert actions[..|actions|] == actions;
    RunRecords(server, plan, actions, |actions|);
  }

  // ---------------------------------------------------------------- what a check is for

  /** The places a check lets the process on to: a new chat, a row, a deletion. */
  predicate Checked(pc: Pc) {
    pc.Creating? || pc.Appending? || pc.Deleting?
  }

  /** No such place is entered but where every provider call is settled, and every receipt and started call on record as it reads now. */
  lemma OnlyWhereSettled(server: Server, plan: set<Key>, s: State, a: Action)
    requires Enabled(server, plan, s, a) == true
    requires s.process.Up? && Apply(s, a).process.Up? && Checked(Apply(s, a).process.pc) && Apply(s, a).process.pc != s.process.pc
    ensures var j, w := s.process.mem, s.world;
            && (forall b :: b in w.bindings ==> w.bindings[b].settled && (w.bindings[b].started ==> b in j.bindings))
            && forall id :: id in w.receipts ==> id in j.receipts && j.receipts[id] == w.receipts[id]
  {
    hide Enabled, Apply, Checked;
    if IsAdmission(a) {
      AdmissionSettled(server, plan, s, a);
    } else {
      CheckSettled(server, plan, s, a);
    }
  }

  lemma AdmissionSettled(server: Server, plan: set<Key>, s: State, a: Action)
    requires Enabled(server, plan, s, a) == true && IsAdmission(a)
    requires s.process.Up? && Apply(s, a).process.Up? && Checked(Apply(s, a).process.pc) && Apply(s, a).process.pc != s.process.pc
    ensures a == PassStartBoundary && Boundary(s.process.mem, s.world)
  {
    hide Boundary, RunsOf, HasKey, WithRow;
  }

  lemma CheckSettled(server: Server, plan: set<Key>, s: State, a: Action)
    requires Enabled(server, plan, s, a) == true && !IsAdmission(a)
    requires s.process.Up? && Apply(s, a).process.Up? && Checked(Apply(s, a).process.pc) && Apply(s, a).process.pc != s.process.pc
    ensures Boundary(s.process.mem, s.world)
  {
    hide Boundary, RunsOf, HasKey, WithRow, Merged;
  }

  // ---------------------------------------------------------------- what every server leaves

  lemma DiskGrows(server: Server, plan: set<Key>, s: State, a: Action)
    requires Recorded(plan, s) == true && Enabled(server, plan, s, a) == true
    ensures Extends(Apply(s, a).disk.receipts, s.disk.receipts) && s.disk.rows <= Apply(s, a).disk.rows
  {
    hide Recorded, Enabled, Apply;
    if a.Save? {
      SaveGrows(server, plan, s);
    } else {
      OnlySaveWrites(server, plan, s, a);
    }
  }

  lemma SaveGrows(server: Server, plan: set<Key>, s: State)
    requires Recorded(plan, s) == true && Enabled(server, plan, s, Save) == true
    ensures Extends(Apply(s, Save).disk.receipts, s.disk.receipts) && s.disk.rows <= Apply(s, Save).disk.rows
  {
  }

  /** A receipt once recorded on disk is there, unchanged, ever after; so is a report row. */
  lemma {:induction false} RecordsNeverChange(server: Server, plan: set<Key>, actions: seq<Action>, j: nat, k: nat)
    requires IsRun(server, plan, actions) && j <= k <= |actions|
    ensures Extends(StateAfter(actions[..k]).disk.receipts, StateAfter(actions[..j]).disk.receipts)
    ensures StateAfter(actions[..j]).disk.rows <= StateAfter(actions[..k]).disk.rows
  {
    hide Recorded, Apply, Enabled, StateAfter, IsRun;
    if j < k {
      RecordsNeverChange(server, plan, actions, j, k - 1);
      RunRecords(server, plan, actions, k - 1);
      RunStep(server, plan, actions, k);
      DiskGrows(server, plan, StateAfter(actions[..k - 1]), actions[k - 1]);
    }
  }

  /** The report never holds two rows of one key, and each row with a run names an admitted one of its key that has ended. */
  lemma RowsAreOfRuns(server: Server, plan: set<Key>, actions: seq<Action>, k: nat)
    requires IsRun(server, plan, actions) && k <= |actions|
    ensures var s := StateAfter(actions[..k]); UniqueKeys(s.disk.rows) && NamesRuns(s.disk.rows, s.world)
  {
    RunRecords(server, plan, actions, k);
  }

  /** A journal marked complete has a row for every planned key; no chat is left, and nothing is pending or in flight. */
  lemma CompleteMeans(server: Server, plan: set<Key>, actions: seq<Action>, k: nat)
    requires IsRun(server, plan, actions) && k <= |actions|
    ensures var s := StateAfter(actions[..k]);
            s.disk.cleanup ==> Covers(s.disk.rows, plan) && s.disk.pending == None && s.world.chats == {} && s.world.inflight == {}
  {
    RunRecords(server, plan, actions, k);
    var s := StateAfter(actions[..k]);
    if s.disk.cleanup {
      assert forall chat :: chat !in s.world.inflight;
    }
  }
}
