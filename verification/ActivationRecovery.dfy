/** What a resumed process does with the pending row it finds, and that an admitted run can always be collected. */
module ActivationRecovery {
  import opened Wrappers
  import opened Activation
  import opened ActivationRecords

  // ---------------------------------------------------------------- the choice

  /** The runs the stand shows for the pending row's chat. */
  ghost function Accepted(w: World, chat: Chat): (runs: set<RunId>)
    ensures forall r :: r in runs <==> chat in w.chats && r in w.admitted && w.admitted[r].chat == chat
  {
    set r | r in w.admitted && w.admitted[r].chat == chat && chat in w.chats
  }

  /** The key has a report row. */
  predicate HasRow(j: Journal, key: Key): (r: bool)
    ensures r <==> exists i :: 0 <= i < |j.rows| && j.rows[i].key == key
  {
    HasKey(j.rows, key)
  }

  /**
   * Whatever the server did: a row that is reported, or was never submitted and shows no run, is cleaned up; one run that is
   * not reported is collected; anything else stops the process. Nothing but the process's place changes.
   */
  lemma RecoverIs(server: Server, plan: set<Key>, s: State)
    requires Reaches(server, plan, s) && s.process.Up? && s.process.pc.Recovering?
    ensures s.process.mem.pending.Some? && s.process.mem == s.disk && (Enabled(server, plan, s, Recover) == true)
    ensures var p, t := s.disk.pending.value, Apply(s, Recover);
            var runs, reported := Accepted(s.world, p.chat), HasRow(s.disk, p.key);
            && t.disk == s.disk && t.world == s.world && t.process.Up? && t.process == s.process.(pc := t.process.pc)
            && (t.process.pc == Polling <==> !reported && |runs| == 1)
            && (t.process.pc == Checking(p.chat, Continue) <==> (reported && |runs| <= 1) || (!reported && !p.submitted && runs == {}))
            && (t.process.pc == Failing <==> |runs| > 1 || (!reported && p.submitted && runs == {}))
  {
    FoundPending(server, plan, s);
    RecoveredPc(s);
    hide Reaches, Apply;
  }

  lemma FoundPending(server: Server, plan: set<Key>, s: State)
    requires Reaches(server, plan, s) && s.process.Up? && s.process.pc.Recovering?
    ensures s.process.mem.pending.Some? && s.process.mem == s.disk
  {
    ReachedRecords(server, plan, s);
    hide Reaches;
  }

  lemma RecoveredPc(s: State)
    requires s.process.Up? && s.process.mem.pending.Some? && s.process.mem == s.disk
    ensures var p, t := s.disk.pending.value, Apply(s, Recover);
            var runs, reported := Accepted(s.world, p.chat), HasRow(s.disk, p.key);
            && t.disk == s.disk && t.world == s.world && t.process.Up? && t.process == s.process.(pc := t.process.pc)
            && (t.process.pc == Polling <==> !reported && |runs| == 1)
            && (t.process.pc == Checking(p.chat, Continue) <==> (reported && |runs| <= 1) || (!reported && !p.submitted && runs == {}))
            && (t.process.pc == Failing <==> |runs| > 1 || (!reported && p.submitted && runs == {}))
  {
    var p := s.disk.pending.value;
    assert Accepted(s.world, p.chat) == RunsOf(s.world, p.chat);
  }

  // ---------------------------------------------------------------- collecting

  /** The run's provider calls are over, and what is recorded of them reads as it does on the stand. */
  ghost predicate Settled(j: Journal, w: World) {
    && (forall b :: b in w.bindings ==> w.bindings[b].settled)
    && (forall id :: id in w.receipts && id in j.receipts ==> j.receipts[id] == w.receipts[id])
    && (forall b :: b in w.bindings && w.bindings[b].started ==>
          b in j.bindings || exists id :: id in w.receipts && w.receipts[id].binding == Some(b))
  }

  /** The stand's receipts as the events of a run. */
  lemma {:induction false} EventsOf(receipts: map<Id, Receipt>) returns (events: seq<Event>)
    ensures forall i :: 0 <= i < |events| ==> events[i].id in receipts && receipts[events[i].id] == events[i].receipt
    ensures forall id :: id in receipts ==> exists i :: 0 <= i < |events| && events[i].id == id
    decreases |receipts|
  {
    if id :| id in receipts {
      var rest := receipts - {id};
      assert |rest| < |receipts| by { assert rest.Keys == receipts.Keys - {id}; assert |rest.Keys| == |rest| && |receipts.Keys| == |receipts|; }
      var later := EventsOf(rest);
      events := [Event(id, receipts[id])] + later;
      forall k | k in receipts ensures exists i :: 0 <= i < |events| && events[i].id == k {
        if k == id {
          assert events[0].id == k;
        } else {
          assert k in rest;
          var i :| 0 <= i < |later| && later[i].id == k;
          assert events[i + 1].id == k;
        }
      }
    } else {
      events := [];
    }
  }

  /** With the stand's receipts recorded, the boundary is passed. */
  lemma RecordedAll(j: Journal, w: World, events: seq<Event>)
    requires Settled(j, w)
    requires forall i :: 0 <= i < |events| ==> events[i].id in w.receipts && w.receipts[events[i].id] == events[i].receipt
    requires forall id :: id in w.receipts ==> exists i :: 0 <= i < |events| && events[i].id == id
    ensures Merged(j.receipts, events).Some?
    ensures Boundary(j.(receipts := Merged(j.receipts, events).value, bindings := j.bindings + EventBindings(events)), w)
  {
    MergedMeaning(j.receipts, events);
    assert Agreeing(j.receipts, events);
    var m, all := Merged(j.receipts, events).value, j.bindings + EventBindings(events);
    forall id | id in w.receipts ensures id in m && m[id] == w.receipts[id] {
      var i :| 0 <= i < |events| && events[i].id == id;
    }
    forall b | b in w.bindings && w.bindings[b].started ensures b in all {
      if b !in j.bindings {
        var id :| id in w.receipts && w.receipts[id].binding == Some(b);
        var i :| 0 <= i < |events| && events[i].id == id;
        assert events[i].receipt.binding == Some(b);
      }
    }
  }

  /** Each action is enabled in the state before it and leads to the one after. */
  ghost predicate Steps(server: Server, plan: set<Key>, states: seq<State>, actions: seq<Action>) {
    && |states| == |actions| + 1
    && forall k :: 0 <= k < |actions| ==> (Enabled(server, plan, states[k], actions[k]) == true) && Apply(states[k], actions[k]) == states[k + 1]
  }

  /** The row is on disk, and what was pending is done: its chat is gone and the next key may be chosen. */
  predicate Collected(s: State, t: State, rows: seq<Row>, pending: Pending, run: RunId) {
    && t.disk.rows == rows + [Row(pending.key, Some(run))] && t.disk.pending == None
    && t.process.Up? && t.process.pc == Choosing && t.process.mem == t.disk
    && t.world == s.world.(chats := s.world.chats - {pending.chat}, inflight := s.world.inflight - {pending.chat})
  }

  /** A process that polls for a run that ended, its calls settled, comes to that run's row on disk and then to the next key. */
  lemma RunIsCollected(server: Server, plan: set<Key>, s: State, run: RunId) returns (states: seq<State>, actions: seq<Action>)
    requires s.process.Up? && s.process.pc == Polling && s.process.mem.pending.Some?
    requires var p := s.process.mem.pending.value;
             Accepted(s.world, p.chat) == {run} && run in s.world.terminal && !HasRow(s.process.mem, p.key)
    requires Settled(s.process.mem, s.world)
    ensures Steps(server, plan, states, actions) && |states| == |actions| + 1 && states[0] == s
    ensures Collected(s, states[|actions|], s.process.mem.rows, s.process.mem.pending.value, run)
  {
    hide Enabled, Apply, Steps, Settled, Boundary;
    var first, done := RowIsSaved(server, plan, s, run);
    var after, more := ChatIsCleared(server, plan, first[5], s.process.mem.pending.value);
    states, actions := first + after[1..], done + more;
    Joined(server, plan, first, done, after, more);
  }

  /** A chat whose boundary is passed is deleted, and its pending row cleared. */
  lemma ChatIsCleared(server: Server, plan: set<Key>, t: State, p: Pending) returns (states: seq<State>, actions: seq<Action>)
    requires t.process.Up? && t.process.pc == Checking(p.chat, Continue) && Boundary(t.process.mem, t.world)
    ensures Steps(server, plan, states, actions) && |states| == |actions| + 1 && |actions| == 4 && states[0] == t
    ensures states[4] == State(t.process.mem.(pending := None),
                               t.world.(chats := t.world.chats - {p.chat}, inflight := t.world.inflight - {p.chat}),
                               t.process.(pc := Choosing, mem := t.process.mem.(pending := None)))
  {
    var up, row := t.process, t.process.mem;
    var gone := t.world.(chats := t.world.chats - {p.chat}, inflight := t.world.inflight - {p.chat});
    var free := row.(pending := None);
    actions := [PassCleanupBoundary, Delete, Clear, Save];
    states := [t, t.(process := up.(pc := Deleting(p.chat, Continue))),
               t.(world := gone, process := up.(pc := Clearing(Continue))),
               t.(world := gone, process := up.(pc := SavingCleared(Continue), mem := free)),
               State(free, gone, up.(pc := Choosing, mem := free))];
    forall k | 0 <= k < 4 ensures (Enabled(server, plan, states[k], actions[k]) == true) && Apply(states[k], actions[k]) == states[k + 1] {
      hide Boundary;
    }
  }

  lemma Joined(server: Server, plan: set<Key>, first: seq<State>, done: seq<Action>, after: seq<State>, more: seq<Action>)
    requires Steps(server, plan, first, done) && Steps(server, plan, after, more) && first[|done|] == after[0]
    ensures Steps(server, plan, first + after[1..], done + more) && |first| == |done| + 1 && |after| == |more| + 1
    ensures (first + after[1..])[0] == first[0] && (first + after[1..])[|done + more|] == after[|more|]
  {
    hide Enabled, Apply;
    var states, actions := first + after[1..], done + more;
    forall k | 0 <= k < |actions| ensures (Enabled(server, plan, states[k], actions[k]) == true) && Apply(states[k], actions[k]) == states[k + 1] {
      if k < |done| {
        assert states[k] == first[k] && states[k + 1] == first[k + 1] && actions[k] == done[k];
      } else {
        assert states[k] == after[k - |done|] && states[k + 1] == after[k - |done| + 1] && actions[k] == more[k - |done|];
      }
    }
  }

  lemma RowIsSaved(server: Server, plan: set<Key>, s: State, run: RunId) returns (states: seq<State>, actions: seq<Action>)
    requires s.process.Up? && s.process.pc == Polling && s.process.mem.pending.Some?
    requires var p := s.process.mem.pending.value;
             Accepted(s.world, p.chat) == {run} && run in s.world.terminal && !HasRow(s.process.mem, p.key)
    requires Settled(s.process.mem, s.world)
    ensures Steps(server, plan, states, actions) && |states| == |actions| + 1 && states[0] == s && |actions| == 5
    ensures var t, p := states[5], s.process.mem.pending.value;
            && t.world == s.world && t.process.Up? && t.process.pc == Checking(p.chat, Continue) && t.process.mem == t.disk
            && t.disk.rows == s.process.mem.rows + [Row(p.key, Some(run))] && Boundary(t.disk, t.world)
  {
    hide Enabled, Apply, Steps, Settled, Boundary, HasRow;
    var first, done := RunIsMerged(server, plan, s, run);
    var after, more := RowIsAppended(server, plan, first[3], run);
    states, actions := first + after[1..], done + more;
    Joined(server, plan, first, done, after, more);
  }

  lemma RunIsMerged(server: Server, plan: set<Key>, s: State, run: RunId) returns (states: seq<State>, actions: seq<Action>)
    requires s.process.Up? && s.process.pc == Polling && s.process.mem.pending.Some?
    requires Accepted(s.world, s.process.mem.pending.value.chat) == {run} && run in s.world.terminal && Settled(s.process.mem, s.world)
    ensures Steps(server, plan, states, actions) && |states| == |actions| + 1 && states[0] == s && |actions| == 3
    ensures var t := states[3];
            && t.world == s.world && t.process.Up? && t.process.pc == Appending(run) && Boundary(t.process.mem, t.world)
            && t.process.mem == s.process.mem.(receipts := t.process.mem.receipts, bindings := t.process.mem.bindings)
  {
    var mem, w, up := s.process.mem, s.world, s.process;
    var events := EventsOf(w.receipts);
    RecordedAll(mem, w, events);
    var merged := mem.(receipts := Merged(mem.receipts, events).value, bindings := mem.bindings + EventBindings(events));
    actions := [Poll(run), Merge(events), PassCollectBoundary];
    states := [s, s.(process := up.(pc := Merging(run))), s.(process := up.(pc := CheckingCollected(run), mem := merged)),
               s.(process := up.(pc := Appending(run), mem := merged))];
    assert Accepted(w, mem.pending.value.chat) == RunsOf(w, mem.pending.value.chat);
    forall k | 0 <= k < 3 ensures (Enabled(server, plan, states[k], actions[k]) == true) && Apply(states[k], actions[k]) == states[k + 1] {
      hide Boundary, Merged;
    }
  }

  lemma RowIsAppended(server: Server, plan: set<Key>, s: State, run: RunId) returns (states: seq<State>, actions: seq<Action>)
    requires s.process.Up? && s.process.pc == Appending(run) && s.process.mem.pending.Some? && Boundary(s.process.mem, s.world)
    requires !HasRow(s.process.mem, s.process.mem.pending.value.key)
    ensures Steps(server, plan, states, actions) && |states| == |actions| + 1 && states[0] == s && |actions| == 2
    ensures var t, p := states[2], s.process.mem.pending.value;
            && t.world == s.world && t.process.Up? && t.process.pc == Checking(p.chat, Continue) && t.process.mem == t.disk
            && t.disk.rows == s.process.mem.rows + [Row(p.key, Some(run))] && Boundary(t.disk, t.world)
  {
    var mem, up := s.process.mem, s.process;
    var p := mem.pending.value;
    var row := mem.(rows := mem.rows + [Row(p.key, Some(run))]);
    actions := [Append, Save];
    states := [s, s.(process := up.(pc := SavingRow, mem := row)), s.(disk := row, process := up.(pc := Checking(p.chat, Continue), mem := row))];
  }

  /** So a process that finds one admitted run without a row, ended and settled, can collect it. */
  lemma ResumedRunIsCollected(server: Server, plan: set<Key>, s: State, run: RunId) returns (states: seq<State>, actions: seq<Action>)
    requires Reaches(server, plan, s) && s.process.Up? && s.process.pc.Recovering?
    requires s.disk.pending.Some? && Accepted(s.world, s.disk.pending.value.chat) == {run} && !HasRow(s.disk, s.disk.pending.value.key)
    requires run in s.world.terminal && Settled(s.disk, s.world)
    ensures Steps(server, plan, states, actions) && |states| == |actions| + 1 && states[0] == s
    ensures Collected(s, states[|actions|], s.disk.rows, s.disk.pending.value, run)
  {
    hide Reaches, Enabled, Apply, Steps, Settled, HasRow, Collected;
    RecoverIs(server, plan, s);
    var later, more := RunIsCollected(server, plan, Apply(s, Recover), run);
    states, actions := [s] + later, [Recover] + more;
    StepFirst(server, plan, s, Recover, later, more);
    SameCollected(s, Apply(s, Recover), later[|more|], s.disk.rows, s.disk.pending.value, run);
  }

  lemma SameCollected(s: State, u: State, t: State, rows: seq<Row>, pending: Pending, run: RunId)
    requires s.world == u.world && Collected(u, t, rows, pending, run)
    ensures Collected(s, t, rows, pending, run)
  {
  }

  lemma StepFirst(server: Server, plan: set<Key>, s: State, a: Action, states: seq<State>, actions: seq<Action>)
    requires Steps(server, plan, states, actions) && (Enabled(server, plan, s, a) == true) && states[0] == Apply(s, a)
    ensures Steps(server, plan, [s] + states, [a] + actions) && ([s] + states)[|[a] + actions|] == states[|actions|]
  {
    hide Enabled, Apply;
    var all, more := [s] + states, [a] + actions;
    forall k | 0 <= k < |more| ensures (Enabled(server, plan, all[k], more[k]) == true) && Apply(all[k], more[k]) == all[k + 1] {
      if k > 0 {
        assert all[k] == states[k - 1] && more[k] == actions[k - 1] && all[k + 1] == states[k];
      }
    }
  }
}
