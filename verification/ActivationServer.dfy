/** What the two assumptions on the server are for: the exact conditions, and the runs that need them. */
module ActivationServer {
  import opened Wrappers
  import opened Activation
  import opened ActivationRecords
  import opened ActivationSafety

  // `P(..) == true` in a contract keeps Dafny from expanding P at every call, see `ActivationRecords`.

  // ---------------------------------------------------------------- the examples

  /** What the examples pass through: one key, one chat, and on disk and in memory its pending row, or its report row, or both. */
  function Example(pc: Pc, disk: Journal, mem: Journal, w: World): State {
    State(disk, w, Up(pc, mem, false))
  }

  function Held(submitted: Option<bool>, reported: bool): Journal {
    FRESH.(pending := if submitted.Some? then Some(Pending("k", 0, submitted.value)) else None,
           rows := if reported then [Row("k", Some(7))] else [])
  }

  const NO_ROW := Held(None, false)
  const PENDING := Held(Some(false), false)
  const SUBMITTED := Held(Some(true), false)
  const REPORTED := Held(Some(true), true)

  /** The chat exists; its request was sent, its run was admitted, and the run ended. */
  function Stand(requested: bool, admitted: bool, ended: bool): World {
    World({0}, map[0 := "k"], if admitted then map[7 := Admission(0, "k")] else map[], if ended then {7} else {},
          if requested && !admitted then {0} else {}, if requested then {0} else {}, map[], map[])
  }

  const LATE_RECEIPT: map<Id, Receipt> := map["late" := Receipt("usage", None)]

  /** Each action is enabled in the state before it and leads to the one after. */
  ghost predicate Leads(server: Server, states: seq<State>, actions: seq<Action>, k: nat)
    requires |states| == |actions| + 1 && k < |actions|
  {
    (Enabled(server, {"k"}, states[k], actions[k]) == true) && Apply(states[k], actions[k]) == states[k + 1]
  }

  lemma {:induction false} Walk(server: Server, states: seq<State>, actions: seq<Action>, n: nat)
    requires |states| == |actions| + 1 && n <= |actions| && Reaches(server, {"k"}, states[0])
    requires forall k :: 0 <= k < n ==> Leads(server, states, actions, k)
    ensures Reaches(server, {"k"}, states[n])
  {
    hide Reaches;
    if n > 0 {
      Walk(server, states, actions, n - 1);
      assert Leads(server, states, actions, n - 1);
      ReachesNext(server, {"k"}, states[n - 1], actions[n - 1]);
    }
  }

  /** To the answer of the run's request. */
  const ASKED_STATES := [START,
                         Example(Choosing, NO_ROW, NO_ROW, EMPTY_WORLD),
                         Example(CheckingStart("k"), NO_ROW, NO_ROW, EMPTY_WORLD),
                         Example(Creating("k"), NO_ROW, NO_ROW, EMPTY_WORLD),
                         Example(Registering("k", 0), NO_ROW, NO_ROW, Stand(false, false, false)),
                         Example(SavingPending, NO_ROW, PENDING, Stand(false, false, false)),
                         Example(Uploading, PENDING, PENDING, Stand(false, false, false)),
                         Example(SavingSubmitted, PENDING, SUBMITTED, Stand(false, false, false)),
                         Example(Posting, SUBMITTED, SUBMITTED, Stand(false, false, false)),
                         Example(AwaitingResponse, SUBMITTED, SUBMITTED, Stand(true, false, false))]
  const ASKED := [Start, ChooseRun("k"), PassStartBoundary, Create(0), Register, Save, Submit, Save, Post]

  lemma AskedReached(server: Server)
    ensures Reaches(server, {"k"}, ASKED_STATES[9])
  {
    StartReaches(server, {"k"});
    forall k | 0 <= k < 9 ensures Leads(server, ASKED_STATES, ASKED, k) {
      AskedLeads(server, k);
    }
    Walk(server, ASKED_STATES, ASKED, 9);
  }

  lemma AskedLeads(server: Server, k: nat)
    requires k < 9
    ensures Leads(server, ASKED_STATES, ASKED, k)
  {
    hide Leads;
    if k < 3 {
      AskedStarts(server, k);
    } else if k < 5 {
      AskedCreates(server, k);
    } else if k < 7 {
      AskedSaves(server, k);
    } else {
      AskedPosts(server, k);
    }
  }

  lemma AskedStarts(server: Server, k: nat)
    requires k < 3
    ensures Leads(server, ASKED_STATES, ASKED, k)
  {
  }

  lemma AskedCreates(server: Server, k: nat)
    requires 3 <= k < 5
    ensures Leads(server, ASKED_STATES, ASKED, k)
  {
  }

  lemma AskedSaves(server: Server, k: nat)
    requires 5 <= k < 7
    ensures Leads(server, ASKED_STATES, ASKED, k)
  {
  }

  lemma AskedPosts(server: Server, k: nat)
    requires 7 <= k < 9
    ensures Leads(server, ASKED_STATES, ASKED, k)
  {
  }

  /** The request fails, no run shows, and the run is admitted once the process is about to clean up. */
  const LATE_RUN_STATES := [ASKED_STATES[9],
                            Example(Counting, SUBMITTED, SUBMITTED, Stand(true, false, false)),
                            Example(Checking(0, Fail), SUBMITTED, SUBMITTED, Stand(true, false, false)),
                            Example(Checking(0, Fail), SUBMITTED, SUBMITTED, Stand(true, true, false)),
                            Example(Deleting(0, Fail), SUBMITTED, SUBMITTED, Stand(true, true, false))]
  const LATE_RUN := [RespondError, Count, Admit(0, 7), PassCleanupBoundary]

  lemma LateRunLost(server: Server)
    requires server.lateRuns
    ensures Reaches(server, {"k"}, LATE_RUN_STATES[4])
  {
    AskedReached(server);
    forall k | 0 <= k < 4 ensures Leads(server, LATE_RUN_STATES, LATE_RUN, k) {
      LateRunLeads(server, k);
    }
    Walk(server, LATE_RUN_STATES, LATE_RUN, 4);
  }

  lemma LateRunLeads(server: Server, k: nat)
    requires server.lateRuns && k < 4
    ensures Leads(server, LATE_RUN_STATES, LATE_RUN, k)
  {
  }

  /** A collected run, its row on disk, and a receipt that arrives after the last check. */
  const LATE_RECEIPT_STATES := [ASKED_STATES[9],
                                Example(AwaitingResponse, SUBMITTED, SUBMITTED, Stand(true, true, false)),
                                Example(AwaitingResponse, SUBMITTED, SUBMITTED, Stand(true, true, true)),
                                Example(Polling, SUBMITTED, SUBMITTED, Stand(true, true, true)),
                                Example(Merging(7), SUBMITTED, SUBMITTED, Stand(true, true, true)),
                                Example(CheckingCollected(7), SUBMITTED, SUBMITTED, Stand(true, true, true)),
                                Example(Appending(7), SUBMITTED, SUBMITTED, Stand(true, true, true)),
                                Example(SavingRow, SUBMITTED, REPORTED, Stand(true, true, true)),
                                Example(Checking(0, Continue), REPORTED, REPORTED, Stand(true, true, true)),
                                Example(Deleting(0, Continue), REPORTED, REPORTED, Stand(true, true, true)),
                                Example(Deleting(0, Continue), REPORTED, REPORTED, Stand(true, true, true).(receipts := LATE_RECEIPT))]
  const LATE_RECEIPT_RUN := [Admit(0, 7), Terminate(7), RespondOk, Poll(7), Merge([]), PassCollectBoundary, Append, Save,
                             PassCleanupBoundary, Account(LATE_RECEIPT, map[])]

  lemma LateReceiptLost(server: Server)
    requires server.lateReceipts
    ensures Reaches(server, {"k"}, LATE_RECEIPT_STATES[10])
  {
    AskedReached(server);
    forall k | 0 <= k < 10 ensures Leads(server, LATE_RECEIPT_STATES, LATE_RECEIPT_RUN, k) {
      LateReceiptLeads(server, k);
    }
    Walk(server, LATE_RECEIPT_STATES, LATE_RECEIPT_RUN, 10);
  }

  lemma LateReceiptLeads(server: Server, k: nat)
    requires server.lateReceipts && k < 10
    ensures Leads(server, LATE_RECEIPT_STATES, LATE_RECEIPT_RUN, k)
  {
    hide Leads;
    if k < 2 {
      RunEnds(server, k);
    } else if k < 4 {
      RunAnswers(server, k);
    } else if k == 4 {
      RunMerged(server);
    } else if k < 7 {
      RunCollected(server, k);
    } else {
      RunReported(server, k);
    }
  }

  lemma RunEnds(server: Server, k: nat)
    requires k < 2
    ensures Leads(server, LATE_RECEIPT_STATES, LATE_RECEIPT_RUN, k)
  {
  }

  lemma RunAnswers(server: Server, k: nat)
    requires 2 <= k < 4
    ensures Leads(server, LATE_RECEIPT_STATES, LATE_RECEIPT_RUN, k)
  {
    assert RunsOf(Stand(true, true, true), 0) == {7};
  }

  lemma RunMerged(server: Server)
    ensures Leads(server, LATE_RECEIPT_STATES, LATE_RECEIPT_RUN, 4)
  {
    var none: seq<Event> := [];
    assert SUBMITTED.bindings + EventBindings(none) == SUBMITTED.bindings && Merged(SUBMITTED.receipts, none) == Some(SUBMITTED.receipts);
  }

  lemma RunCollected(server: Server, k: nat)
    requires 5 <= k < 7
    ensures Leads(server, LATE_RECEIPT_STATES, LATE_RECEIPT_RUN, k)
  {
    assert WithRow([], Row("k", Some(7))) == [Row("k", Some(7))];
  }

  lemma RunReported(server: Server, k: nat)
    requires server.lateReceipts && 7 <= k < 10
    ensures Leads(server, LATE_RECEIPT_STATES, LATE_RECEIPT_RUN, k)
  {
  }

  lemma UnsafeExamples(server: Server)
    requires server != PROMPT
    ensures exists s :: Reaches(server, {"k"}, s) && !DeletesSafely(s)
  {
    if server.lateRuns {
      LateRunLost(server);
      var s := LATE_RUN_STATES[4];
      assert 7 in s.world.admitted && !Counted(s.disk.rows, s.world, 7);
      assert Reaches(server, {"k"}, s) && !DeletesSafely(s);
    } else {
      LateReceiptLost(server);
      var s := LATE_RECEIPT_STATES[10];
      assert "late" in s.world.receipts && "late" !in s.disk.receipts;
      assert Reaches(server, {"k"}, s) && !DeletesSafely(s);
    }
  }

  /**
   * Every reachable deletion is safe exactly when the server admits no run after answering its request with an error,
   * and adds or changes no receipt or binding between the last check and the deletion: neither pair is one step.
   */
  lemma DeletionSafeIff(server: Server)
    ensures (forall plan, s :: Reaches(server, plan, s) ==> DeletesSafely(s)) <==> !server.lateRuns && !server.lateReceipts
  {
    if server == PROMPT {
      forall plan, s | Reaches(server, plan, s) ensures DeletesSafely(s) {
        var actions :| IsRun(server, plan, actions) && StateAfter(actions) == s;
        assert actions[..|actions|] == actions;
        DeletionIsSafe(plan, actions, |actions|);
      }
    } else {
      UnsafeExamples(server);
    }
  }

  // ---------------------------------------------------------------- a key paid for twice

  /** The run's chat is gone with the run. */
  const LOST := Stand(true, true, false).(chats := {})

  /** The chat of the late run is deleted and its row cleared; a later process finds nothing pending. */
  const FREED_STATES := [LATE_RUN_STATES[4],
                         Example(Clearing(Fail), SUBMITTED, SUBMITTED, LOST),
                         Example(SavingCleared(Fail), SUBMITTED, NO_ROW, LOST),
                         Example(Failing, NO_ROW, NO_ROW, LOST),
                         State(NO_ROW, LOST, Down),
                         Example(Choosing, NO_ROW, NO_ROW, LOST)]
  const FREED := [Delete, Clear, Save, Crash, Start]

  lemma FreedReached(server: Server)
    requires server.lateRuns
    ensures Reaches(server, {"k"}, FREED_STATES[5])
  {
    LateRunLost(server);
    forall k | 0 <= k < 5 ensures Leads(server, FREED_STATES, FREED, k) {
      FreedLeads(server, k);
    }
    Walk(server, FREED_STATES, FREED, 5);
  }

  lemma FreedLeads(server: Server, k: nat)
    requires k < 5
    ensures Leads(server, FREED_STATES, FREED, k)
  {
    hide Leads;
    if k < 2 {
      FreedClears(server, k);
    } else {
      FreedStarts(server, k);
    }
  }

  lemma FreedClears(server: Server, k: nat)
    requires k < 2
    ensures Leads(server, FREED_STATES, FREED, k)
  {
  }

  lemma FreedStarts(server: Server, k: nat)
    requires 2 <= k < 5
    ensures Leads(server, FREED_STATES, FREED, k)
  {
  }

  /** The second chat for the key, its request not sent yet. */
  const SECOND := LOST.(chats := {1}, keyOf := map[0 := "k", 1 := "k"])
  const SENT := SECOND.(inflight := {1}, posted := {0, 1})
  const AGAIN := NO_ROW.(pending := Some(Pending("k", 1, false)))
  const RESENT := NO_ROW.(pending := Some(Pending("k", 1, true)))

  const TWICE_STATES := [FREED_STATES[5],
                         Example(CheckingStart("k"), NO_ROW, NO_ROW, LOST),
                         Example(Creating("k"), NO_ROW, NO_ROW, LOST),
                         Example(Registering("k", 1), NO_ROW, NO_ROW, SECOND),
                         Example(SavingPending, NO_ROW, AGAIN, SECOND),
                         Example(Uploading, AGAIN, AGAIN, SECOND),
                         Example(SavingSubmitted, AGAIN, RESENT, SECOND),
                         Example(Posting, RESENT, RESENT, SECOND),
                         Example(AwaitingResponse, RESENT, RESENT, SENT),
                         Example(AwaitingResponse, RESENT, RESENT,
                                 SENT.(inflight := {}, admitted := map[7 := Admission(0, "k"), 8 := Admission(1, "k")]))]
  const TWICE := [ChooseRun("k"), PassStartBoundary, Create(1), Register, Save, Submit, Save, Post, Admit(1, 8)]

  lemma PaidTwice(server: Server)
    requires server.lateRuns
    ensures Reaches(server, {"k"}, TWICE_STATES[9])
  {
    FreedReached(server);
    forall k | 0 <= k < 9 ensures Leads(server, TWICE_STATES, TWICE, k) {
      TwiceLeads(server, k);
    }
    Walk(server, TWICE_STATES, TWICE, 9);
  }

  lemma TwiceLeads(server: Server, k: nat)
    requires k < 9
    ensures Leads(server, TWICE_STATES, TWICE, k)
  {
    hide Leads;
    if k < 2 {
      TwiceChecks(server, k);
    } else if k < 4 {
      TwiceCreates(server, k);
    } else if k < 6 {
      TwiceRegisters(server, k);
    } else if k == 6 {
      TwiceSubmits(server);
    } else if k == 7 {
      TwicePosts(server);
    } else {
      TwiceAdmits(server);
    }
  }

  lemma TwiceChecks(server: Server, k: nat)
    requires k < 2
    ensures Leads(server, TWICE_STATES, TWICE, k)
  {
  }

  lemma TwiceCreates(server: Server, k: nat)
    requires 2 <= k < 4
    ensures Leads(server, TWICE_STATES, TWICE, k)
  {
  }

  lemma TwiceRegisters(server: Server, k: nat)
    requires 4 <= k < 6
    ensures Leads(server, TWICE_STATES, TWICE, k)
  {
  }

  lemma TwiceSubmits(server: Server)
    ensures Leads(server, TWICE_STATES, TWICE, 6)
  {
  }

  lemma TwicePosts(server: Server)
    ensures Leads(server, TWICE_STATES, TWICE, 7)
  {
  }

  lemma TwiceAdmits(server: Server)
    ensures Leads(server, TWICE_STATES, TWICE, 8)
  {
  }

  /** No key is ever paid for twice exactly when the server admits no run after answering its request with an error. */
  lemma OneRunPerKeyIff(server: Server)
    ensures (forall plan, s :: Reaches(server, plan, s) ==> OneRunPerKey(s.world)) <==> !server.lateRuns
  {
    if server.lateRuns {
      PaidTwice(server);
      var s := TWICE_STATES[9];
      assert s.world.admitted[7].key == s.world.admitted[8].key;
      assert Reaches(server, {"k"}, s) && !OneRunPerKey(s.world);
    } else {
      forall plan, s | Reaches(server, plan, s) ensures OneRunPerKey(s.world) {
        var actions :| IsRun(server, plan, actions) && StateAfter(actions) == s;
        assert actions[..|actions|] == actions;
        OneRunPerKeyEver(server, plan, actions, |actions|);
      }
    }
  }

  // ---------------------------------------------------------------- a complete report without a run

  const NOT_RUN := FRESH.(rows := [Row("k", None)])
  const DONE := NOT_RUN.(cleanup := true)

  /** The later process finds that the cell cannot run, and ends. */
  const UNCOUNTED_STATES := [FREED_STATES[5],
                             Example(SavingNotRun, NO_ROW, NOT_RUN, LOST),
                             Example(Choosing, NOT_RUN, NOT_RUN, LOST),
                             State(NOT_RUN, LOST, Up(Finishing, NOT_RUN, true)),
                             State(NOT_RUN, LOST, Up(SavingCleanup, DONE, true)),
                             State(DONE, LOST, Down)]
  const UNCOUNTED := [ChooseNotRun("k"), Save, ChooseDone, FinishDone, Save]

  lemma RunUncounted(server: Server)
    requires server.lateRuns
    ensures Reaches(server, {"k"}, UNCOUNTED_STATES[5])
  {
    FreedReached(server);
    forall k | 0 <= k < 5 ensures Leads(server, UNCOUNTED_STATES, UNCOUNTED, k) {
      UncountedLeads(server, k);
    }
    Walk(server, UNCOUNTED_STATES, UNCOUNTED, 5);
  }

  lemma UncountedLeads(server: Server, k: nat)
    requires k < 5
    ensures Leads(server, UNCOUNTED_STATES, UNCOUNTED, k)
  {
    hide Leads;
    if k < 2 {
      UncountedLists(server, k);
    } else {
      UncountedEnds(server, k);
    }
  }

  lemma UncountedLists(server: Server, k: nat)
    requires k < 2
    ensures Leads(server, UNCOUNTED_STATES, UNCOUNTED, k)
  {
    assert WithRow([], Row("k", None)) == [Row("k", None)];
  }

  lemma UncountedEnds(server: Server, k: nat)
    requires 2 <= k < 5
    ensures Leads(server, UNCOUNTED_STATES, UNCOUNTED, k)
  {
    assert NOT_RUN.rows[0].key == "k";
  }

  /** A complete report counts every admitted run once, and no other, exactly for the same servers. */
  lemma CountedOnceIff(server: Server)
    ensures (forall plan, s :: Reaches(server, plan, s) && s.disk.cleanup ==> AllCountedOnce(s)) <==> !server.lateRuns
  {
    if server.lateRuns {
      RunUncounted(server);
      var s := UNCOUNTED_STATES[5];
      assert 7 in s.world.admitted && forall i :: 0 <= i < |s.disk.rows| ==> s.disk.rows[i] == Row("k", None);
      assert Reaches(server, {"k"}, s) && s.disk.cleanup && !AllCountedOnce(s);
    } else {
      forall plan, s | Reaches(server, plan, s) && s.disk.cleanup ensures AllCountedOnce(s) {
        var actions :| IsRun(server, plan, actions) && StateAfter(actions) == s;
        assert actions[..|actions|] == actions;
        CompleteReportCountsAll(server, plan, actions, |actions|);
      }
    }
  }
}
