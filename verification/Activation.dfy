/**
 * The workspace-activation experiment: one process drives paid runs on a stand, and a journal on
 * disk lets a later process go on after a crash between any two steps. Every step of the process,
 * of the server and of a crash is an action; a run is any sequence of enabled actions.
 */
module Activation {
  import opened Wrappers

  type Key = string
  type Chat = nat
  type RunId = nat
  type Id = string

  // ---------------------------------------------------------------- the journal

  /** A report row, with the run it was measured from; none for a cell that could not run. */
  datatype Row = Row(key: Key, run: Option<RunId>)

  datatype Pending = Pending(key: Key, chat: Chat, submitted: bool)

  /** A usage receipt: the fields its hash covers. Hashes are taken to be injective. */
  datatype Receipt = Receipt(content: string, binding: Option<Id>)

  datatype Event = Event(id: Id, receipt: Receipt)

  datatype Journal = Journal(rows: seq<Row>, pending: Option<Pending>, receipts: map<Id, Receipt>,
                             bindings: set<Id>, cleanup: bool)

  const FRESH := Journal([], None, map[], {}, false)

  predicate HasKey(rows: seq<Row>, key: Key) {
    exists i :: 0 <= i < |rows| && rows[i].key == key
  }

  ghost predicate UniqueKeys(rows: seq<Row>) {
    forall i, j :: 0 <= i < j < |rows| ==> rows[i].key != rows[j].key
  }

  function WithRow(rows: seq<Row>, row: Row): seq<Row> {
    if HasKey(rows, row.key) then rows else rows + [row]
  }

  /** The recorded receipts with those of a run added; none when a recorded one reads differently now. */
  function Merged(recorded: map<Id, Receipt>, events: seq<Event>): Option<map<Id, Receipt>> {
    if events == [] then Some(recorded)
    else
      var last := events[|events| - 1];
      match Merged(recorded, events[..|events| - 1])
      case None => None
      case Some(m) => if last.id in m && m[last.id] != last.receipt then None else Some(m[last.id := last.receipt])
  }

  predicate Extends(m: map<Id, Receipt>, base: map<Id, Receipt>) {
    forall id :: id in base ==> id in m && m[id] == base[id]
  }

  lemma {:induction false} MergedExtends(recorded: map<Id, Receipt>, events: seq<Event>)
    ensures Merged(recorded, events).Some? ==> Extends(Merged(recorded, events).value, recorded)
  {
    if events != [] {
      MergedExtends(recorded, events[..|events| - 1]);
    }
  }

  /** The receipts of one id read the same wherever they stand. */
  ghost predicate Agreeing(recorded: map<Id, Receipt>, events: seq<Event>) {
    && (forall i :: 0 <= i < |events| && events[i].id in recorded ==> recorded[events[i].id] == events[i].receipt)
    && (forall i, j :: 0 <= i < j < |events| && events[i].id == events[j].id ==> events[i].receipt == events[j].receipt)
  }

  ghost predicate Holds(m: map<Id, Receipt>, recorded: map<Id, Receipt>, events: seq<Event>) {
    && Extends(m, recorded)
    && (forall i :: 0 <= i < |events| ==> events[i].id in m && m[events[i].id] == events[i].receipt)
    && (forall id :: id in m ==> id in recorded || exists i :: 0 <= i < |events| && events[i].id == id)
  }

  lemma AgreeingNext(m: map<Id, Receipt>, recorded: map<Id, Receipt>, events: seq<Event>, last: Event)
    requires Holds(m, recorded, events)
    ensures Agreeing(recorded, events + [last]) <==> Agreeing(recorded, events) && (last.id in m ==> m[last.id] == last.receipt)
  {
    var all := events + [last];
    assert all[|events|] == last && forall i :: 0 <= i < |events| ==> all[i] == events[i];
    if Agreeing(recorded, all) && last.id in m && last.id !in recorded {
      var i :| 0 <= i < |events| && events[i].id == last.id;
      assert all[i].receipt == all[|events|].receipt;
    }
  }

  lemma AgreeingInit(recorded: map<Id, Receipt>, events: seq<Event>, last: Event)
    ensures Agreeing(recorded, events + [last]) ==> Agreeing(recorded, events)
  {
    assert forall i :: 0 <= i < |events| ==> (events + [last])[i] == events[i];
  }

  /** Recording succeeds exactly when nothing reads differently, and then holds old and new and no more. */
  lemma {:induction false} MergedMeaning(recorded: map<Id, Receipt>, events: seq<Event>)
    ensures Merged(recorded, events).Some? <==> Agreeing(recorded, events)
    ensures Merged(recorded, events).Some? ==> Holds(Merged(recorded, events).value, recorded, events)
  {
    if events != [] {
      hide Agreeing, Holds;
      var init, last := events[..|events| - 1], events[|events| - 1];
      assert events == init + [last];
      MergedMeaning(recorded, init);
      AgreeingInit(recorded, init, last);
      if Merged(recorded, init).Some? {
        var m := Merged(recorded, init).value;
        AgreeingNext(m, recorded, init, last);
        if last.id in m ==> m[last.id] == last.receipt {
          HoldsNext(m, recorded, init, last);
        }
      }
    }
  }

  lemma HoldsNext(m: map<Id, Receipt>, recorded: map<Id, Receipt>, events: seq<Event>, last: Event)
    requires Holds(m, recorded, events) && (last.id in m ==> m[last.id] == last.receipt)
    ensures Holds(m[last.id := last.receipt], recorded, events + [last])
  {
    var all, more := events + [last], m[last.id := last.receipt];
    forall id | id in more ensures id in recorded || exists i :: 0 <= i < |all| && all[i].id == id {
      if id == last.id {
        assert all[|events|].id == id;
      } else if id !in recorded {
        var i :| 0 <= i < |events| && events[i].id == id;
        assert all[i].id == id;
      }
    }
  }

  function EventBindings(events: seq<Event>): set<Id> {
    set i | 0 <= i < |events| && events[i].receipt.binding.Some? :: events[i].receipt.binding.value
  }

  // ---------------------------------------------------------------- the stand

  datatype Admission = Admission(chat: Chat, key: Key)
  datatype Binding = Binding(settled: bool, started: bool)

  /**
   * The server's side: which chats exist, which key each chat was created for, every run ever
   * admitted, the requests still in flight, and the accounting rows as the database shows them now.
   */
  datatype World = World(chats: set<Chat>, keyOf: map<Chat, Key>, admitted: map<RunId, Admission>, terminal: set<RunId>,
                         inflight: set<Chat>, posted: set<Chat>, receipts: map<Id, Receipt>, bindings: map<Id, Binding>)

  const EMPTY_WORLD := World({}, map[], map[], {}, {}, {}, map[], map[])

  /** The runs the database shows for a chat; they go with it when it is deleted. */
  function RunsOf(w: World, chat: Chat): set<RunId> {
    set r | r in w.admitted && w.admitted[r].chat == chat && chat in w.chats
  }

  /** No binding unsettled, every receipt recorded as it reads now, every started binding recorded. */
  predicate Boundary(j: Journal, w: World) {
    && (forall b :: b in w.bindings ==> w.bindings[b].settled)
    && Extends(j.receipts, w.receipts)
    && (forall b :: b in w.bindings && w.bindings[b].started ==> b in j.bindings)
  }

  // ---------------------------------------------------------------- the process

  /** What follows a chat's cleanup. */
  datatype After = Continue | Fail | Finish

  datatype Pc =
    | Recovering
    | Choosing
    | CheckingStart(key: Key)
    | Creating(key: Key)
    | Registering(key: Key, chat: Chat)
    | SavingPending
    | Uploading
    | SavingSubmitted
    | Posting
    | AwaitingResponse
    | Counting
    | Polling
    | Merging(run: RunId)
    | CheckingCollected(run: RunId)
    | Appending(run: RunId)
    | SavingRow
    | SavingNotRun
    | Checking(chat: Chat, after: After)
    | Deleting(chat: Chat, after: After)
    | Clearing(after: After)
    | SavingCleared(after: After)
    | Failing
    | Finishing
    | SavingCleanup

  datatype Process = Down | Up(pc: Pc, mem: Journal, complete: bool)

  /** The journal on disk, the stand, and the process with its journal in memory. */
  datatype State = State(disk: Journal, world: World, process: Process)

  const START := State(FRESH, EMPTY_WORLD, Down)

  datatype Recovery = CleanupReported | CollectExisting | DiscardUnsent | Refuse

  /** What a resumed process does with the pending row it finds. */
  function ResumeAction(reported: bool, submitted: bool, acceptedRuns: nat): Recovery {
    if acceptedRuns > 1 then Refuse
    else if reported then CleanupReported
    else if acceptedRuns == 1 then CollectExisting
    else if submitted then Refuse
    else DiscardUnsent
  }

  datatype Action =
    // the server
    | Admit(chat: Chat, run: RunId)
    | Drop(chat: Chat)
    | Terminate(run: RunId)
    | Account(receipts: map<Id, Receipt>, bindings: map<Id, Binding>)
    // the process as a whole
    | Start
    | Crash
    | Throw
    // its steps
    | Recover
    | ChooseNotRun(key: Key)
    | ChooseRun(key: Key)
    | ChooseDone
    | PassStartBoundary
    | Create(chat: Chat)
    | Register
    | Submit
    | Post
    | RespondOk
    | RespondError
    | Count
    | Poll(run: RunId)
    | Merge(events: seq<Event>)
    | PassCollectBoundary
    | Append
    | Save
    | PassCleanupBoundary
    | Delete
    | Clear
    | Finally
    | FinishChat(chat: Chat)
    | FinishDone

  function SavedPc(pc: Pc): Option<Pc> {
    match pc
    case SavingPending => Some(Uploading)
    case SavingSubmitted => Some(Posting)
    case SavingNotRun => Some(Choosing)
    case SavingCleared(after) => Some(if after.Fail? then Failing else Choosing)
    case _ => None
  }

  predicate InFinish(pc: Pc) {
    pc.Finishing? || pc.SavingCleanup? || (pc.Checking? && pc.after.Finish?) || (pc.Deleting? && pc.after.Finish?)
  }

  /**
   * What the server may do. `lateRuns`: it may still admit a run after it has answered its request with an error.
   * `lateReceipts`: it may add or change a receipt or a binding between a passed boundary and the deletion that follows it.
   */
  datatype Server = Server(lateRuns: bool, lateReceipts: bool)

  const PROMPT := Server(false, false)

  predicate Deletes(s: State) {
    s.process.Up? && s.process.pc.Deleting?
  }

  /** No binding is new, and none reads differently. */
  predicate Unchanged(before: map<Id, Binding>, after: map<Id, Binding>) {
    forall b :: b in after ==> b in before && before[b] == after[b]
  }

  /** When an action can happen. */
  predicate Enabled(server: Server, plan: set<Key>, s: State, a: Action) {
    var w := s.world;
    match a
    case Admit(chat, run) => chat in w.inflight && chat in w.chats && chat in w.keyOf && run !in w.admitted
    case Drop(chat) => chat in w.inflight
    case Terminate(run) => run in w.admitted
    case Account(receipts, bindings) =>
      Deletes(s) && !server.lateReceipts ==> Extends(w.receipts, receipts) && Unchanged(w.bindings, bindings)
    case Start => s.process.Down? && !s.disk.cleanup
    case Crash => s.process.Up?
    case _ => s.process.Up? && ProcessEnabled(server, plan, s.process.pc, s.process.mem, w, a)
  }

  predicate ProcessEnabled(server: Server, plan: set<Key>, pc: Pc, mem: Journal, w: World, a: Action) {
    match a
    case Throw => !InFinish(pc) && !pc.Failing?
    case Recover => pc.Recovering? && mem.pending.Some?
    case ChooseNotRun(key) => pc.Choosing? && key in plan && !HasKey(mem.rows, key)
    case ChooseRun(key) => pc.Choosing? && key in plan && !HasKey(mem.rows, key)
    case ChooseDone => pc.Choosing? && forall k :: k in plan ==> HasKey(mem.rows, k)
    case PassStartBoundary => pc.CheckingStart? && Boundary(mem, w)
    case Create(chat) => pc.Creating? && chat !in w.keyOf
    case Register => pc.Registering?
    case Submit => pc.Uploading? && mem.pending.Some?
    case Post => pc.Posting? && mem.pending.Some?
    case RespondOk => pc.AwaitingResponse?
    case RespondError => pc.AwaitingResponse? && mem.pending.Some? && (server.lateRuns || mem.pending.value.chat !in w.inflight)
    case Count => pc.Counting? && mem.pending.Some?
    case Poll(run) => pc.Polling? && mem.pending.Some? && RunsOf(w, mem.pending.value.chat) == {run} && run in w.terminal
    case Merge(_) => pc.Merging?
    case PassCollectBoundary => pc.CheckingCollected? && Boundary(mem, w)
    case Append => pc.Appending? && mem.pending.Some?
    case Save => SavedPc(pc).Some? || pc.SavingRow? || pc.SavingCleanup?
    case PassCleanupBoundary => pc.Checking? && Boundary(mem, w)
    case Delete => pc.Deleting?
    case Clear => pc.Clearing?
    case Finally => pc.Failing?
    case FinishChat(chat) => pc.Finishing? && mem.pending == None && chat in w.chats
    case FinishDone => pc.Finishing? && w.chats == {}
    case _ => false
  }

  /** The state an enabled action leads to. */
  function Apply(s: State, a: Action): State {
    var w := s.world;
    match a
    case Admit(chat, run) =>
      if chat in w.keyOf then
        s.(world := w.(admitted := w.admitted[run := Admission(chat, w.keyOf[chat])], inflight := w.inflight - {chat}))
      else s
    case Drop(chat) => s.(world := w.(inflight := w.inflight - {chat}))
    case Terminate(run) => s.(world := w.(terminal := w.terminal + {run}))
    case Account(receipts, bindings) => s.(world := w.(receipts := receipts, bindings := bindings))
    case Start => s.(process := Up(if s.disk.pending.Some? then Recovering else Choosing, s.disk, false))
    case Crash => s.(process := Down)
    case _ => if s.process.Up? then ProcessApply(s, s.process.pc, s.process.mem, s.process.complete, a) else s
  }

  function ProcessApply(s: State, pc: Pc, mem: Journal, complete: bool, a: Action): State {
    var w, p := s.world, Up(pc, mem, complete);
    match a
    case Throw => s.(process := p.(pc := Failing))
    case Recover => if mem.pending.Some? then s.(process := p.(pc := RecoverPc(mem, mem.pending.value, w))) else s
    case ChooseNotRun(key) => s.(process := p.(pc := SavingNotRun, mem := mem.(rows := WithRow(mem.rows, Row(key, None)))))
    case ChooseRun(key) => s.(process := p.(pc := CheckingStart(key)))
    case ChooseDone => s.(process := p.(pc := Finishing, complete := true))
    case PassStartBoundary => if p.pc.CheckingStart? then s.(process := p.(pc := Creating(p.pc.key))) else s
    case Create(chat) =>
      if p.pc.Creating? then
        s.(world := w.(chats := w.chats + {chat}, keyOf := w.keyOf[chat := p.pc.key]),
           process := p.(pc := Registering(p.pc.key, chat)))
      else s
    case Register =>
      if p.pc.Registering? then
        s.(process := p.(pc := SavingPending, mem := mem.(pending := Some(Pending(p.pc.key, p.pc.chat, false)))))
      else s
    case Submit =>
      if mem.pending.Some? then
        s.(process := p.(pc := SavingSubmitted, mem := mem.(pending := Some(mem.pending.value.(submitted := true)))))
      else s
    case Post =>
      if mem.pending.Some? then
        s.(world := w.(inflight := w.inflight + {mem.pending.value.chat}, posted := w.posted + {mem.pending.value.chat}),
           process := p.(pc := AwaitingResponse))
      else s
    case RespondOk => s.(process := p.(pc := Polling))
    case RespondError => s.(process := p.(pc := Counting))
    case Count =>
      if mem.pending.Some? then
        s.(process := p.(pc := if RunsOf(w, mem.pending.value.chat) == {} then Checking(mem.pending.value.chat, Fail) else Failing))
      else s
    case Poll(run) => s.(process := p.(pc := Merging(run)))
    case Merge(events) =>
      if p.pc.Merging? then
        match Merged(mem.receipts, events)
        case None => s.(process := p.(pc := Failing))
        case Some(m) => s.(process := p.(pc := CheckingCollected(p.pc.run),
                                         mem := mem.(receipts := m, bindings := mem.bindings + EventBindings(events))))
      else s
    case PassCollectBoundary => if p.pc.CheckingCollected? then s.(process := p.(pc := Appending(p.pc.run))) else s
    case Append =>
      if p.pc.Appending? && mem.pending.Some? then
        s.(process := p.(pc := SavingRow, mem := mem.(rows := WithRow(mem.rows, Row(mem.pending.value.key, Some(p.pc.run))))))
      else s
    case Save =>
      s.(disk := mem,
         process := if p.pc.SavingCleanup? then Down
                    else if p.pc.SavingRow? then
                      (if mem.pending.Some? then p.(pc := Checking(mem.pending.value.chat, Continue)) else p)
                    else if SavedPc(p.pc).Some? then p.(pc := SavedPc(p.pc).value) else p)
    case PassCleanupBoundary => if p.pc.Checking? then s.(process := p.(pc := Deleting(p.pc.chat, p.pc.after))) else s
    case Delete =>
      if p.pc.Deleting? then
        s.(world := w.(chats := w.chats - {p.pc.chat}, inflight := w.inflight - {p.pc.chat}),
           process := p.(pc := if p.pc.after.Finish? then Finishing else Clearing(p.pc.after)))
      else s
    case Clear => if p.pc.Clearing? then s.(process := p.(pc := SavingCleared(p.pc.after), mem := mem.(pending := None))) else s
    case Finally => s.(process := if mem.pending.Some? then Down else p.(pc := Finishing))
    case FinishChat(chat) => s.(process := p.(pc := Checking(chat, Finish)))
    case FinishDone => s.(process := p.(pc := SavingCleanup, mem := mem.(cleanup := p.complete)))
    case _ => s
  }

  function RecoverPc(mem: Journal, pending: Pending, w: World): Pc {
    match ResumeAction(HasKey(mem.rows, pending.key), pending.submitted, |RunsOf(w, pending.chat)|)
    case CollectExisting => Polling
    case Refuse => Failing
    case _ => Checking(pending.chat, Continue)
  }

  /** A run: actions, each enabled in the state the ones before it lead to. */
  function StateAfter(actions: seq<Action>): State {
    if actions == [] then START else Apply(StateAfter(actions[..|actions| - 1]), actions[|actions| - 1])
  }

  ghost predicate IsRun(server: Server, plan: set<Key>, actions: seq<Action>) {
    forall k :: 0 <= k < |actions| ==> Enabled(server, plan, StateAfter(actions[..k]), actions[k])
  }

  lemma {:induction false} MergedFails(recorded: map<Id, Receipt>, events: seq<Event>, k: nat)
    requires k <= |events| && Merged(recorded, events[..k]) == None
    ensures Merged(recorded, events) == None
    decreases |events|
  {
    if k < |events| {
      assert events[..|events| - 1][..k] == events[..k];
      MergedFails(recorded, events[..|events| - 1], k);
    } else {
      assert events[..k] == events;
    }
  }
}
