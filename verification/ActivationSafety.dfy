/** What every run of the activation experiment keeps, through crashes at any point. */
module ActivationSafety {
  import opened Wrappers
  import opened Activation
  import opened ActivationRecords

  // A contract says `P(..) == true` where P is large: Dafny expands a predicate that stands alone at every call, and the
  // solver then needs many times the memory.

  // ---------------------------------------------------------------- the invariant

  ghost predicate Counted(rows: seq<Row>, w: World, r: RunId)
    requires r in w.admitted
  {
    Row(w.admitted[r].key, Some(r)) in rows
  }

  /** Every run of a chat stands in these rows. */
  ghost predicate ChatCounted(rows: seq<Row>, w: World, chat: Chat) {
    forall r :: r in w.admitted && w.admitted[r].chat == chat ==> Counted(rows, w, r)
  }

  ghost predicate SettledChat(s: State, chat: Chat) {
    chat !in s.world.inflight && ChatCounted(s.disk.rows, s.world, chat)
  }

  /** The pending row on disk, and in the memory of a living process, names this chat as submitted. */
  ghost predicate Protected(s: State, chat: Chat) {
    && s.disk.pending.Some? && s.disk.pending.value.chat == chat && s.disk.pending.value.submitted
    && (s.process.Up? ==> s.process.mem.pending == s.disk.pending)
  }

  ghost predicate OneRunPerKey(w: World) {
    forall r, q :: r in w.admitted && q in w.admitted && w.admitted[r].key == w.admitted[q].key ==> r == q
  }

  ghost predicate WorldInv(w: World) {
    && w.inflight <= w.posted && w.posted <= w.keyOf.Keys
    && (forall r :: r in w.admitted ==>
          w.admitted[r].chat in w.posted && w.keyOf[w.admitted[r].chat] == w.admitted[r].key &&
          w.admitted[r].chat !in w.inflight)
    && OneRunPerKey(w)
  }

  ghost predicate DiskInv(s: State) {
    && UniqueKeys(s.disk.rows)
    && (forall chat :: chat in s.world.inflight ==> Protected(s, chat))
    && (forall r :: r in s.world.admitted ==>
          Counted(s.disk.rows, s.world, r) || Protected(s, s.world.admitted[r].chat))
    && (s.disk.pending.Some? ==> PendingInv(s, s.disk.pending.value))
  }

  ghost predicate PendingInv(s: State, p: Pending) {
    && p.chat in s.world.keyOf && s.world.keyOf[p.chat] == p.key
    && (p.submitted || p.chat !in s.world.posted)
    && (forall r :: r in s.world.admitted && s.world.admitted[r].key == p.key ==> s.world.admitted[r].chat == p.chat)
    && (HasKey(s.disk.rows, p.key) ==> SettledChat(s, p.chat))
  }

  ghost predicate SameAccounts(disk: Journal, mem: Journal) {
    mem.receipts == disk.receipts && mem.bindings == disk.bindings
  }

  ghost predicate MemInv(s: State, mem: Journal) {
    && UniqueKeys(mem.rows) && s.disk.rows <= mem.rows
    && Extends(mem.receipts, s.disk.receipts) && s.disk.bindings <= mem.bindings
    && (mem.pending == None ==> SameAccounts(s.disk, mem))
    && (mem.pending.Some? ==> PendingInv(s, mem.pending.value))
  }

  /** The pending row of a key not reported yet. */
  ghost predicate Unreported(s: State, mem: Journal, submitted: bool, saved: bool) {
    && mem.pending.Some? && mem.pending.value.submitted == submitted
    && !HasKey(mem.rows, mem.pending.value.key)
    && (saved ==> s.disk.pending == mem.pending)
  }

  /** Such a row before its run's accounting is read: the chat exists and the accounts are as on disk. */
  ghost predicate Open(s: State, mem: Journal, submitted: bool, saved: bool) {
    Unreported(s, mem, submitted, saved) && mem.pending.value.chat in s.world.chats && SameAccounts(s.disk, mem)
  }

  ghost predicate Collecting(s: State, mem: Journal, r: RunId) {
    Unreported(s, mem, true, true) && r in s.world.admitted && s.world.admitted[r].chat == mem.pending.value.chat
  }

  ghost predicate CleanupInv(s: State, mem: Journal, chat: Chat, after: After) {
    && SettledChat(s, chat) && SameAccounts(s.disk, mem)
    && (if after.Finish? then mem.pending == None else mem.pending.Some? && mem.pending.value.chat == chat)
  }

  ghost predicate PcInv(s: State, pc: Pc, mem: Journal) {
    match pc
    case Recovering => mem == s.disk
    case Choosing => mem.pending == None
    case CheckingStart(key) => mem.pending == None && !HasKey(mem.rows, key)
    case Creating(key) => mem.pending == None && !HasKey(mem.rows, key)
    case Registering(key, chat) => mem.pending == None && !HasKey(mem.rows, key) &&
      chat in s.world.chats && chat in s.world.keyOf && s.world.keyOf[chat] == key && chat !in s.world.posted
    case SavingPending => Open(s, mem, false, false)
    case Uploading => Open(s, mem, false, true)
    case SavingSubmitted => Open(s, mem, true, false) && mem.pending.value.chat !in s.world.posted
    case Posting => Open(s, mem, true, true) && mem.pending.value.chat !in s.world.posted
    case AwaitingResponse => Open(s, mem, true, true)
    case Counting => Open(s, mem, true, true) && mem.pending.value.chat !in s.world.inflight
    case Polling => Open(s, mem, true, true)
    case Merging(r) => Collecting(s, mem, r)
    case CheckingCollected(r) => Collecting(s, mem, r)
    case Appending(r) => Collecting(s, mem, r)
    case SavingRow => mem.pending.Some? && s.disk.pending == mem.pending && mem.pending.value.chat !in s.world.inflight &&
      ChatCounted(mem.rows, s.world, mem.pending.value.chat)
    case SavingNotRun => mem.pending == None
    case Checking(chat, after) => CleanupInv(s, mem, chat, after)
    case Deleting(chat, after) => CleanupInv(s, mem, chat, after)
    case Clearing(after) => !after.Finish? && SameAccounts(s.disk, mem) && mem.pending.Some? && SettledChat(s, mem.pending.value.chat)
    case SavingCleared(after) => mem.pending == None
    case Failing => true
    case Finishing => mem.pending == None
    case SavingCleanup => mem.pending == None && s.world.chats == {}
  }

  ghost predicate Inv(plan: set<Key>, s: State) {
    && WorldInv(s.world) && DiskInv(s) && CompleteInv(plan, s)
    && (s.process.Up? ==> MemInv(s, s.process.mem) && PcInv(s, s.process.pc, s.process.mem))
  }

  lemma StartInv(plan: set<Key>)
    ensures Inv(plan, START) == true
  {
  }

  // ---------------------------------------------------------------- small facts

  lemma CountedHasKey(rows: seq<Row>, w: World, r: RunId)
    requires r in w.admitted && Counted(rows, w, r)
    ensures HasKey(rows, w.admitted[r].key)
  {
    var i :| 0 <= i < |rows| && rows[i] == Row(w.admitted[r].key, Some(r));
    assert rows[i].key == w.admitted[r].key;
  }

  /** With no pending row in memory nothing is in flight and every run is counted on disk. */
  lemma NothingPending(plan: set<Key>, s: State)
    requires Inv(plan, s) == true && s.process.Up? && s.process.mem.pending == None
    ensures s.world.inflight == {}
    ensures forall r :: r in s.world.admitted ==> Counted(s.disk.rows, s.world, r)
    ensures forall chat :: SettledChat(s, chat)
  {
    assert forall chat :: !Protected(s, chat);
    assert forall chat :: chat !in s.world.inflight;
  }

  /** A step of the process alone, which leaves disk, stand and pending row as they are. */
  ghost predicate Local(s: State, t: State) {
    s.process.Up? && t.process.Up? && t.disk == s.disk && t.world == s.world && t.process.mem.pending == s.process.mem.pending
  }

  lemma LocalKeeps(s: State, t: State)
    requires Local(s, t) && WorldInv(s.world) && DiskInv(s)
    ensures WorldInv(t.world) && DiskInv(t)
    ensures s.process.mem.pending.Some? ==>
              PendingInv(t, t.process.mem.pending.value) == PendingInv(s, s.process.mem.pending.value)
  {
    assert forall chat :: Protected(t, chat) == Protected(s, chat);
    forall p | PendingInv(s, p) ensures PendingInv(t, p) {
      if HasKey(s.disk.rows, p.key) {
        assert SettledChat(s, p.chat);
        assert SettledChat(t, p.chat);
      }
    }
  }

  // ---------------------------------------------------------------- the server's steps

  /** The same disk and the same runs, at most as many requests in flight, and no protection lost. */
  ghost predicate Calmer(s: State, t: State) {
    && t.disk == s.disk && t.world.keyOf == s.world.keyOf && t.world.admitted == s.world.admitted && t.world.posted == s.world.posted
    && t.world.inflight <= s.world.inflight
    && forall chat :: Protected(s, chat) ==> Protected(t, chat)
  }

  lemma CalmPending(s: State, t: State, p: Pending)
    requires Calmer(s, t) && PendingInv(s, p)
    ensures PendingInv(t, p)
  {
  }

  lemma CalmChats(s: State, t: State)
    requires Calmer(s, t)
    ensures forall chat :: SettledChat(s, chat) ==> SettledChat(t, chat)
  {
  }

  lemma CalmDisk(s: State, t: State)
    requires Calmer(s, t) && WorldInv(s.world) && DiskInv(s)
    ensures WorldInv(t.world) && DiskInv(t)
  {
    if s.disk.pending.Some? {
      CalmPending(s, t, s.disk.pending.value);
    }
    hide Protected, PendingInv;
  }

  lemma CalmMem(s: State, t: State, mem: Journal)
    requires Calmer(s, t) && MemInv(s, mem)
    ensures MemInv(t, mem)
  {
    if mem.pending.Some? {
      CalmPending(s, t, mem.pending.value);
    }
    hide PendingInv;
  }

  /** Fewer requests in flight and more terminal runs or accounting rows. */
  ghost predicate Quieter(s: State, t: State) {
    && t.disk == s.disk && t.process == s.process
    && t.world == s.world.(inflight := t.world.inflight, terminal := t.world.terminal,
                           receipts := t.world.receipts, bindings := t.world.bindings)
    && t.world.inflight <= s.world.inflight
  }

  lemma QuietPc(s: State, t: State)
    requires Quieter(s, t) && s.process.Up? && PcInv(s, s.process.pc, s.process.mem)
    ensures PcInv(t, t.process.pc, t.process.mem)
  {
    CalmChats(s, t);
    hide SettledChat;
  }

  /** They disturb nothing. */
  lemma QuietWorld(plan: set<Key>, s: State, t: State)
    requires Inv(plan, s) == true && Quieter(s, t)
    ensures Inv(plan, t) == true
  {
    CalmDisk(s, t);
    if s.process.Up? {
      CalmMem(s, t, s.process.mem);
      QuietPc(s, t);
    }
    hide DiskInv, MemInv, PcInv;
  }

  predicate CanAdmit(w: World, chat: Chat, run: RunId) {
    chat in w.inflight && chat in w.keyOf && run !in w.admitted
  }

  lemma AdmitKeeps(plan: set<Key>, s: State, chat: Chat, run: RunId)
    requires Inv(plan, s) == true && CanAdmit(s.world, chat, run)
    ensures Inv(plan, Apply(s, Admit(chat, run))) == true
  {
    var t := Apply(s, Admit(chat, run));
    AdmitWorld(s, chat, run);
    AdmitDisk(s, chat, run);
    if s.process.Up? {
      AdmitPc(s, chat, run);
    }
    hide WorldInv, DiskInv, PcInv, Protected, PendingInv;
  }

  lemma AdmitDisk(s: State, chat: Chat, run: RunId)
    requires WorldInv(s.world) && DiskInv(s) && CanAdmit(s.world, chat, run)
    ensures DiskInv(Apply(s, Admit(chat, run))) && Protected(s, chat)
    ensures PendingInv(Apply(s, Admit(chat, run)), s.disk.pending.value)
  {
    var t := Apply(s, Admit(chat, run));
    assert Protected(s, chat);
    assert forall c :: Protected(t, c) == Protected(s, c);
    assert forall r :: r in s.world.admitted && Counted(s.disk.rows, s.world, r) ==> Counted(t.disk.rows, t.world, r);
    assert !SettledChat(s, chat);
    forall c | SettledChat(s, c) ensures SettledChat(t, c) {
      assert c != chat;
      AdmitCounted(s.disk.rows, s, chat, run, c);
    }
    assert PendingInv(t, s.disk.pending.value);
  }

  lemma AdmitWorld(s: State, chat: Chat, run: RunId)
    requires WorldInv(s.world) && DiskInv(s) && CanAdmit(s.world, chat, run)
    ensures WorldInv(Apply(s, Admit(chat, run)).world)
  {
    var w, t := s.world, Apply(s, Admit(chat, run));
    assert Protected(s, chat);
    forall r | r in w.admitted ensures w.admitted[r].key != w.keyOf[chat] {
      assert w.admitted[r].chat !in w.inflight;
    }
  }

  lemma AdmitCounted(rows: seq<Row>, s: State, chat: Chat, run: RunId, other: Chat)
    requires chat in s.world.keyOf && run !in s.world.admitted
    requires ChatCounted(rows, s.world, other) && other != chat
    ensures ChatCounted(rows, Apply(s, Admit(chat, run)).world, other)
  {
    var t := Apply(s, Admit(chat, run)).world;
    forall r | r in t.admitted && t.admitted[r].chat == other ensures Counted(rows, t, r) {
      assert r != run;
      assert Counted(rows, s.world, r);
    }
  }

  lemma AdmitPc(s: State, chat: Chat, run: RunId)
    requires s.process.Up? && CanAdmit(s.world, chat, run) && Protected(s, chat)
    requires PcInv(s, s.process.pc, s.process.mem)
    ensures PcInv(Apply(s, Admit(chat, run)), s.process.pc, s.process.mem)
  {
    var t, mem := Apply(s, Admit(chat, run)), s.process.mem;
    forall c | SettledChat(s, c) ensures SettledChat(t, c) {
      assert c != chat;
      AdmitCounted(s.disk.rows, s, chat, run, c);
    }
    if s.process.pc.SavingRow? {
      assert false;
    }
  }

  // ---------------------------------------------------------------- starting and stopping

  lemma CrashKeeps(plan: set<Key>, s: State)
    requires Inv(plan, s) == true && s.process.Up?
    ensures Inv(plan, Apply(s, Crash)) == true
  {
    CalmDisk(s, Apply(s, Crash));
  }

  lemma StartKeeps(plan: set<Key>, s: State)
    requires Inv(plan, s) == true && s.process.Down? && !s.disk.cleanup
    ensures Inv(plan, Apply(s, Start)) == true
  {
    CalmDisk(s, Apply(s, Start));
    hide PendingInv;
  }

  // ---------------------------------------------------------------- steps inside the process

  ghost predicate OnlyPc(s: State, t: State) {
    Local(s, t) && t.process.mem == s.process.mem
  }

  lemma SettledSame(s: State, t: State)
    requires t.disk == s.disk && t.world == s.world
    ensures forall chat :: SettledChat(t, chat) == SettledChat(s, chat)
  {
  }

  lemma OnlyPcKeeps(plan: set<Key>, s: State, t: State)
    requires Inv(plan, s) == true && OnlyPc(s, t)
    ensures WorldInv(t.world) && DiskInv(t) && MemInv(t, t.process.mem)
  {
    LocalKeeps(s, t);
  }

  lemma ThrowKeeps(plan: set<Key>, s: State)
    requires Inv(plan, s) == true && s.process.Up? && !InFinish(s.process.pc)
    ensures Inv(plan, Apply(s, Throw)) == true
  {
    OnlyPcKeeps(plan, s, Apply(s, Throw));
  }

  lemma RecoverKeeps(plan: set<Key>, s: State)
    requires Inv(plan, s) == true && s.process.Up? && s.process.pc.Recovering? && s.process.mem.pending.Some?
    ensures Inv(plan, Apply(s, Recover)) == true
  {
    var t, mem, p := Apply(s, Recover), s.process.mem, s.process.mem.pending.value;
    OnlyPcKeeps(plan, s, t);
    SettledSame(s, t);
    if t.process.pc.Polling? {
      assert RunsOf(s.world, p.chat) != {};
      var r :| r in RunsOf(s.world, p.chat);
      assert p.submitted;
    } else if t.process.pc.Checking? && !HasKey(mem.rows, p.key) {
      assert p.chat !in s.world.posted;
    }
  }

  lemma ChooseNotRunKeeps(plan: set<Key>, s: State, key: Key)
    requires Inv(plan, s) == true && s.process.Up? && s.process.pc.Choosing? && !HasKey(s.process.mem.rows, key)
    ensures Inv(plan, Apply(s, ChooseNotRun(key))) == true
  {
    LocalKeeps(s, Apply(s, ChooseNotRun(key)));
    WithRowFacts(s.process.mem.rows, Row(key, None));
  }

  lemma ChooseRunKeeps(plan: set<Key>, s: State, key: Key)
    requires Inv(plan, s) == true && s.process.Up? && s.process.pc.Choosing? && !HasKey(s.process.mem.rows, key)
    ensures Inv(plan, Apply(s, ChooseRun(key))) == true
  {
    OnlyPcKeeps(plan, s, Apply(s, ChooseRun(key)));
  }

  lemma ChooseDoneKeeps(plan: set<Key>, s: State)
    requires Inv(plan, s) == true && s.process.Up? && s.process.pc.Choosing? && Covers(s.process.mem.rows, plan)
    ensures Inv(plan, Apply(s, ChooseDone)) == true
  {
    OnlyPcKeeps(plan, s, Apply(s, ChooseDone));
  }

  lemma PassStartBoundaryKeeps(plan: set<Key>, s: State)
    requires Inv(plan, s) == true && s.process.Up? && s.process.pc.CheckingStart?
    ensures Inv(plan, Apply(s, PassStartBoundary)) == true
  {
    OnlyPcKeeps(plan, s, Apply(s, PassStartBoundary));
  }

  lemma RespondOkKeeps(plan: set<Key>, s: State)
    requires Inv(plan, s) == true && s.process.Up? && s.process.pc.AwaitingResponse?
    ensures Inv(plan, Apply(s, RespondOk)) == true
  {
    OnlyPcKeeps(plan, s, Apply(s, RespondOk));
  }

  /** Here the server must be done with the request it answers. */
  lemma RespondErrorKeeps(plan: set<Key>, s: State)
    requires Inv(plan, s) == true && s.process.Up? && s.process.pc.AwaitingResponse?
    requires s.process.mem.pending.Some? && s.process.mem.pending.value.chat !in s.world.inflight
    ensures Inv(plan, Apply(s, RespondError)) == true
  {
    OnlyPcKeeps(plan, s, Apply(s, RespondError));
  }

  lemma CountKeeps(plan: set<Key>, s: State)
    requires Inv(plan, s) == true && s.process.Up? && s.process.pc.Counting?
    ensures Inv(plan, Apply(s, Count)) == true
  {
    var t, chat := Apply(s, Count), s.process.mem.pending.value.chat;
    OnlyPcKeeps(plan, s, t);
    SettledSame(s, t);
    assert forall r :: r in s.world.admitted && s.world.admitted[r].chat == chat ==> r in RunsOf(s.world, chat);
  }

  lemma PollKeeps(plan: set<Key>, s: State, run: RunId)
    requires Inv(plan, s) == true && s.process.Up? && s.process.pc.Polling? && s.process.mem.pending.Some?
    requires RunsOf(s.world, s.process.mem.pending.value.chat) == {run}
    ensures Inv(plan, Apply(s, Poll(run))) == true
  {
    OnlyPcKeeps(plan, s, Apply(s, Poll(run)));
    assert run in RunsOf(s.world, s.process.mem.pending.value.chat);
  }

  lemma MergeKeeps(plan: set<Key>, s: State, events: seq<Event>)
    requires Inv(plan, s) == true && s.process.Up? && s.process.pc.Merging?
    ensures Inv(plan, Apply(s, Merge(events))) == true
  {
    if Merged(s.process.mem.receipts, events).Some? {
      MergedKeeps(plan, s, events);
    } else {
      OnlyPcKeeps(plan, s, Apply(s, Merge(events)));
    }
  }

  lemma MergedKeeps(plan: set<Key>, s: State, events: seq<Event>)
    requires Inv(plan, s) == true && s.process.Up? && s.process.pc.Merging? && Merged(s.process.mem.receipts, events).Some?
    ensures Inv(plan, Apply(s, Merge(events))) == true
  {
    LocalKeeps(s, Apply(s, Merge(events)));
    MergedExtends(s.process.mem.receipts, events);
    hide DiskInv, WorldInv, PendingInv;
  }

  lemma PassCollectBoundaryKeeps(plan: set<Key>, s: State)
    requires Inv(plan, s) == true && s.process.Up? && s.process.pc.CheckingCollected?
    ensures Inv(plan, Apply(s, PassCollectBoundary)) == true
  {
    OnlyPcKeeps(plan, s, Apply(s, PassCollectBoundary));
  }

  lemma AppendKeeps(plan: set<Key>, s: State)
    requires Inv(plan, s) == true && s.process.Up? && s.process.pc.Appending?
    ensures Inv(plan, Apply(s, Append)) == true
  {
    var t, mem, r := Apply(s, Append), s.process.mem, s.process.pc.run;
    var row := Row(mem.pending.value.key, Some(r));
    LocalKeeps(s, t);
    WithRowFacts(mem.rows, row);
    AppendCounts(s, mem.pending.value, r, t.process.mem.rows);
    hide DiskInv, WorldInv, PendingInv, ChatCounted;
  }

  lemma AppendCounts(s: State, p: Pending, r: RunId, rows: seq<Row>)
    requires WorldInv(s.world) && PendingInv(s, p) && r in s.world.admitted && s.world.admitted[r].chat == p.chat
    requires Row(p.key, Some(r)) in rows
    ensures ChatCounted(rows, s.world, p.chat)
  {
    forall q | q in s.world.admitted && s.world.admitted[q].chat == p.chat ensures Counted(rows, s.world, q) {
      assert s.world.admitted[q].key == s.world.admitted[r].key == p.key;
      assert q == r;
    }
  }

  lemma PassCleanupBoundaryKeeps(plan: set<Key>, s: State)
    requires Inv(plan, s) == true && s.process.Up? && s.process.pc.Checking? && Boundary(s.process.mem, s.world)
    ensures Inv(plan, Apply(s, PassCleanupBoundary)) == true
  {
    var t := Apply(s, PassCleanupBoundary);
    OnlyPcKeeps(plan, s, t);
    SettledSame(s, t);
  }

  lemma FinallyKeeps(plan: set<Key>, s: State)
    requires Inv(plan, s) == true && s.process.Up? && s.process.pc.Failing?
    ensures Inv(plan, Apply(s, Finally)) == true
  {
    if s.process.mem.pending.Some? {
      CrashKeeps(plan, s);
    } else {
      OnlyPcKeeps(plan, s, Apply(s, Finally));
    }
  }

  lemma FinishChatKeeps(plan: set<Key>, s: State, chat: Chat)
    requires Inv(plan, s) == true && s.process.Up? && s.process.pc.Finishing?
    ensures Inv(plan, Apply(s, FinishChat(chat))) == true
  {
    NothingPending(plan, s);
    OnlyPcKeeps(plan, s, Apply(s, FinishChat(chat)));
    SettledSame(s, Apply(s, FinishChat(chat)));
  }

  lemma FinishDoneKeeps(plan: set<Key>, s: State)
    requires Inv(plan, s) == true && s.process.Up? && s.process.pc.Finishing? && s.world.chats == {}
    ensures Inv(plan, Apply(s, FinishDone)) == true
  {
    LocalKeeps(s, Apply(s, FinishDone));
  }

  // ---------------------------------------------------------------- steps that touch disk or stand

  lemma CreateKeeps(plan: set<Key>, s: State, chat: Chat)
    requires Inv(plan, s) == true && s.process.Up? && s.process.pc.Creating? && chat !in s.world.keyOf
    ensures Inv(plan, Apply(s, Create(chat))) == true
  {
    var t := Apply(s, Create(chat));
    assert forall c :: Protected(t, c) == Protected(s, c);
    assert forall c :: SettledChat(t, c) == SettledChat(s, c);
    assert forall p :: PendingInv(s, p) ==> PendingInv(t, p);
  }

  lemma RegisterKeeps(plan: set<Key>, s: State)
    requires Inv(plan, s) == true && s.process.Up? && s.process.pc.Registering?
    ensures Inv(plan, Apply(s, Register)) == true
  {
    var t, key := Apply(s, Register), s.process.pc.key;
    NothingPending(plan, s);
    SettledSame(s, t);
    forall r | r in s.world.admitted ensures s.world.admitted[r].key != key {
      CountedHasKey(s.disk.rows, s.world, r);
      HasKeyMono(s.disk.rows, s.process.mem.rows, s.world.admitted[r].key);
    }
    assert forall p :: PendingInv(s, p) ==> PendingInv(t, p);
  }

  lemma SubmitKeeps(plan: set<Key>, s: State)
    requires Inv(plan, s) == true && s.process.Up? && s.process.pc.Uploading?
    ensures Inv(plan, Apply(s, Submit)) == true
  {
    var t := Apply(s, Submit);
    assert forall c :: !Protected(s, c);
    assert forall c :: c !in s.world.inflight;
    SettledSame(s, t);
    assert forall p :: PendingInv(s, p) ==> PendingInv(t, p);
    assert PendingInv(s, s.process.mem.pending.value);
  }

  lemma PostKeeps(plan: set<Key>, s: State)
    requires Inv(plan, s) == true && s.process.Up? && s.process.pc.Posting?
    ensures Inv(plan, Apply(s, Post)) == true
  {
    var t, p := Apply(s, Post), s.process.mem.pending.value;
    assert forall c :: Protected(t, c) == Protected(s, c);
    assert Protected(t, p.chat);
    assert !HasKey(s.disk.rows, p.key) by {
      if HasKey(s.disk.rows, p.key) {
        HasKeyMono(s.disk.rows, s.process.mem.rows, p.key);
      }
    }
    assert PendingInv(t, p);
  }

  lemma ClearKeeps(plan: set<Key>, s: State)
    requires Inv(plan, s) == true && s.process.Up? && s.process.pc.Clearing?
    ensures Inv(plan, Apply(s, Clear)) == true
  {
    var t, chat := Apply(s, Clear), s.process.mem.pending.value.chat;
    SettledSame(s, t);
    assert forall c :: Protected(s, c) ==> c == chat;
    assert forall p :: PendingInv(s, p) ==> PendingInv(t, p);
  }

  lemma DeleteKeeps(plan: set<Key>, s: State)
    requires Inv(plan, s) == true && s.process.Up? && s.process.pc.Deleting?
    ensures Inv(plan, Apply(s, Delete)) == true
  {
    var t := Apply(s, Delete);
    assert t.world.inflight == s.world.inflight;
    CalmDisk(s, t);
    CalmMem(s, t, s.process.mem);
    CalmChats(s, t);
    hide DiskInv, MemInv, WorldInv, SettledChat;
  }

  /** What a save writes was already consistent with the stand. */
  lemma SaveDisk(plan: set<Key>, s: State, t: State)
    requires Inv(plan, s) == true && s.process.Up? && t.world == s.world && t.disk == s.process.mem
    requires t.process.Up? ==> t.process.mem == s.process.mem
    requires s.process.mem.pending.Some? && HasKey(s.process.mem.rows, s.process.mem.pending.value.key) ==>
               SettledChat(t, s.process.mem.pending.value.chat)
    ensures DiskInv(t)
    ensures s.process.mem.pending.Some? ==> PendingInv(t, s.process.mem.pending.value)
    ensures forall c :: SettledChat(s, c) ==> SettledChat(t, c)
  {
    assert forall c :: Protected(s, c) ==> Protected(t, c);
    assert forall r :: r in s.world.admitted && Counted(s.disk.rows, s.world, r) ==> Counted(t.disk.rows, t.world, r);
  }

  lemma SaveKeeps(plan: set<Key>, s: State)
    requires Inv(plan, s) == true && s.process.Up?
    requires SavedPc(s.process.pc).Some? || s.process.pc.SavingRow? || s.process.pc.SavingCleanup?
    ensures Inv(plan, Apply(s, Save)) == true
  {
    SaveDisk(plan, s, Apply(s, Save));
    SavePc(plan, s);
    hide DiskInv, PcInv, SettledChat;
  }

  lemma SavePc(plan: set<Key>, s: State)
    requires Inv(plan, s) == true && s.process.Up?
    requires SavedPc(s.process.pc).Some? || s.process.pc.SavingRow? || s.process.pc.SavingCleanup?
    ensures var t := Apply(s, Save); t.process.Up? ==> PcInv(t, t.process.pc, t.process.mem)
  {
    if s.process.pc.SavingRow? {
      SaveRowPc(plan, s);
    } else {
      SaveOtherPc(plan, s);
    }
    hide Inv, Apply, PcInv;
  }

  lemma SaveRowPc(plan: set<Key>, s: State)
    requires Inv(plan, s) == true && s.process.Up? && s.process.pc.SavingRow?
    ensures var t := Apply(s, Save); t.process.Up? && PcInv(t, t.process.pc, t.process.mem)
  {
    hide WorldInv, DiskInv;
  }

  lemma SaveOtherPc(plan: set<Key>, s: State)
    requires Inv(plan, s) == true && s.process.Up? && (SavedPc(s.process.pc).Some? || s.process.pc.SavingCleanup?)
    ensures var t := Apply(s, Save); t.process.Up? ==> PcInv(t, t.process.pc, t.process.mem)
  {
    hide WorldInv, DiskInv, PendingInv;
  }

  // ---------------------------------------------------------------- every step, every run

  lemma OuterKeeps(server: Server, plan: set<Key>, s: State, a: Action)
    requires !server.lateRuns && Inv(plan, s) == true && Enabled(server, plan, s, a) == true && IsOuter(a)
    ensures Inv(plan, Apply(s, a)) == true
  {
    match a
    case Admit(chat, run) => AdmitKeeps(plan, s, chat, run);
    case Drop(chat) => QuietWorld(plan, s, Apply(s, a));
    case Terminate(run) => QuietWorld(plan, s, Apply(s, a));
    case Account(receipts, bindings) => QuietWorld(plan, s, Apply(s, a));
    case Start => StartKeeps(plan, s);
    case Crash => CrashKeeps(plan, s);
    case Throw => ThrowKeeps(plan, s);
  }

  lemma AdmissionKeeps(server: Server, plan: set<Key>, s: State, a: Action)
    requires !server.lateRuns && Inv(plan, s) == true && Enabled(server, plan, s, a) == true && IsAdmission(a)
    ensures Inv(plan, Apply(s, a)) == true
  {
    hide Inv, Apply;
    match a
    case Recover => RecoverKeeps(plan, s);
    case ChooseNotRun(key) => ChooseNotRunKeeps(plan, s, key);
    case ChooseRun(key) => ChooseRunKeeps(plan, s, key);
    case ChooseDone => ChooseDoneKeeps(plan, s);
    case PassStartBoundary => PassStartBoundaryKeeps(plan, s);
    case Create(chat) => CreateKeeps(plan, s, chat);
    case Register => RegisterKeeps(plan, s);
    case Submit => SubmitKeeps(plan, s);
    case Post => PostKeeps(plan, s);
    case RespondOk => RespondOkKeeps(plan, s);
    case RespondError => RespondErrorKeeps(plan, s);
  }

  lemma SettlementKeeps(server: Server, plan: set<Key>, s: State, a: Action)
    requires !server.lateRuns && Inv(plan, s) == true && Enabled(server, plan, s, a) == true && !IsOuter(a) && !IsAdmission(a)
    ensures Inv(plan, Apply(s, a)) == true
  {
    hide Inv, Apply;
    match a
    case Count => CountKeeps(plan, s);
    case Poll(run) => PollKeeps(plan, s, run);
    case Merge(events) => MergeKeeps(plan, s, events);
    case PassCollectBoundary => PassCollectBoundaryKeeps(plan, s);
    case Append => AppendKeeps(plan, s);
    case Save => SaveKeeps(plan, s);
    case PassCleanupBoundary => PassCleanupBoundaryKeeps(plan, s);
    case Delete => DeleteKeeps(plan, s);
    case Clear => ClearKeeps(plan, s);
    case Finally => FinallyKeeps(plan, s);
    case FinishChat(chat) => FinishChatKeeps(plan, s, chat);
    case FinishDone => FinishDoneKeeps(plan, s);
  }

  lemma StepKeeps(server: Server, plan: set<Key>, s: State, a: Action)
    requires !server.lateRuns && Inv(plan, s) == true && Enabled(server, plan, s, a) == true
    ensures Inv(plan, Apply(s, a)) == true
  {
    hide Inv, Enabled, Apply, IsOuter, IsAdmission;
    if IsOuter(a) {
      OuterKeeps(server, plan, s, a);
    } else if IsAdmission(a) {
      AdmissionKeeps(server, plan, s, a);
    } else {
      SettlementKeeps(server, plan, s, a);
    }
  }

  lemma {:induction false} RunKeeps(server: Server, plan: set<Key>, actions: seq<Action>, k: nat)
    requires !server.lateRuns && IsRun(server, plan, actions) && k <= |actions|
    ensures Inv(plan, StateAfter(actions[..k])) == true
  {
    if k == 0 {
      StartInv(plan);
    } else {
      RunKeeps(server, plan, actions, k - 1);
      RunStep(server, plan, actions, k);
      hide Inv, Enabled, Apply, StateAfter, IsRun;
      StepKeeps(server, plan, StateAfter(actions[..k - 1]), actions[k - 1]);
    }
  }

  // ---------------------------------------------------------------- the theorems

  /** No key is ever paid for twice, if no run is admitted after its request was answered with an error. */
  lemma OneRunPerKeyEver(server: Server, plan: set<Key>, actions: seq<Action>, k: nat)
    requires !server.lateRuns && IsRun(server, plan, actions) && k <= |actions|
    ensures OneRunPerKey(StateAfter(actions[..k]).world)
  {
    RunKeeps(server, plan, actions, k);
  }

  /**
   * When a chat is deleted, the row of each run admitted in it and all receipts the stand holds are on disk, and every provider
   * call is settled.
   */
  ghost predicate DeletesSafely(s: State) {
    Deletes(s) ==>
      ChatCounted(s.disk.rows, s.world, s.process.pc.chat) && Extends(s.disk.receipts, s.world.receipts) &&
      BindingsSettled(s.disk, s.world) && s.process.pc.chat !in s.world.inflight
  }

  /** Every binding the stand holds is settled, and on record if its call was started. */
  ghost predicate BindingsSettled(j: Journal, w: World) {
    forall b :: b in w.bindings ==> w.bindings[b].settled && (w.bindings[b].started ==> b in j.bindings)
  }

  /** The receipts and bindings the stand holds when a chat is deleted are those of the last check. */
  ghost predicate ReceiptsKept(s: State) {
    Deletes(s) ==> Extends(s.disk.receipts, s.world.receipts) && BindingsSettled(s.disk, s.world)
  }

  lemma CheckedReceipts(plan: set<Key>, s: State)
    requires Inv(plan, s) == true && Enabled(PROMPT, plan, s, PassCleanupBoundary) == true
    ensures ReceiptsKept(Apply(s, PassCleanupBoundary))
  {
  }

  /** A step that is not the check leads to a deletion only from one, and then leaves the accounts as they are. */
  ghost predicate LeavesAccounts(s: State, t: State) {
    Deletes(t) ==> Deletes(s) && t.disk == s.disk && t.world.receipts == s.world.receipts && t.world.bindings == s.world.bindings
  }

  lemma AccountReceipts(plan: set<Key>, s: State, a: Action)
    requires a.Account? && Enabled(PROMPT, plan, s, a) == true
    ensures ReceiptsKept(s) ==> ReceiptsKept(Apply(s, a))
  {
  }

  lemma OuterAccounts(plan: set<Key>, s: State, a: Action)
    requires IsOuter(a) && !a.Account? && Enabled(PROMPT, plan, s, a) == true
    ensures LeavesAccounts(s, Apply(s, a))
  {
  }

  lemma AdmissionAccounts(plan: set<Key>, s: State, a: Action)
    requires IsAdmission(a) && Enabled(PROMPT, plan, s, a) == true
    ensures LeavesAccounts(s, Apply(s, a))
  {
  }

  lemma SettlementAccounts(plan: set<Key>, s: State, a: Action)
    requires !IsOuter(a) && !IsAdmission(a) && !a.PassCleanupBoundary? && Enabled(PROMPT, plan, s, a) == true
    ensures LeavesAccounts(s, Apply(s, a))
  {
  }

  lemma OtherReceipts(plan: set<Key>, s: State, a: Action)
    requires ReceiptsKept(s) && Enabled(PROMPT, plan, s, a) == true && !a.PassCleanupBoundary?
    ensures ReceiptsKept(Apply(s, a))
  {
    hide Enabled, Apply, IsOuter, IsAdmission;
    if a.Account? {
      AccountReceipts(plan, s, a);
    } else if IsOuter(a) {
      OuterAccounts(plan, s, a);
    } else if IsAdmission(a) {
      AdmissionAccounts(plan, s, a);
    } else {
      SettlementAccounts(plan, s, a);
    }
  }

  lemma {:induction false} ReceiptsStay(plan: set<Key>, actions: seq<Action>, k: nat)
    requires IsRun(PROMPT, plan, actions) && k <= |actions|
    ensures ReceiptsKept(StateAfter(actions[..k]))
  {
    hide Inv, Enabled, Apply, IsRun, ReceiptsKept;
    if k > 0 {
      var s := StateAfter(actions[..k - 1]);
      ReceiptsStay(plan, actions, k - 1);
      RunKeeps(PROMPT, plan, actions, k - 1);
      RunStep(PROMPT, plan, actions, k);
      if actions[k - 1].PassCleanupBoundary? {
        CheckedReceipts(plan, s);
      } else {
        OtherReceipts(plan, s, actions[k - 1]);
      }
    } else {
      NothingDeleted();
    }
  }

  lemma NothingDeleted()
    ensures ReceiptsKept(StateAfter([]))
  {
  }

  lemma DeletionIsSafe(plan: set<Key>, actions: seq<Action>, k: nat)
    requires IsRun(PROMPT, plan, actions) && k <= |actions|
    ensures DeletesSafely(StateAfter(actions[..k]))
  {
    hide StateAfter, IsRun;
    RunKeeps(PROMPT, plan, actions, k);
    ReceiptsStay(plan, actions, k);
  }

  /** Row `i` counts run `r`, and no other row has its key. */
  ghost predicate CountedAt(s: State, r: RunId, i: nat)
    requires r in s.world.admitted && i < |s.disk.rows|
  {
    s.disk.rows[i] == Row(s.world.admitted[r].key, Some(r)) &&
    forall j :: 0 <= j < |s.disk.rows| && s.disk.rows[j].key == s.world.admitted[r].key ==> j == i
  }

  /** Every admitted run is counted in one row, and every row with a run counts an admitted one. */
  ghost predicate AllCountedOnce(s: State) {
    (forall r :: r in s.world.admitted ==> exists i :: 0 <= i < |s.disk.rows| && CountedAt(s, r, i)) && NamesRuns(s.disk.rows, s.world)
  }

  /** A report marked complete counts every run ever admitted exactly once, and no other, under the same assumption. */
  lemma CompleteReportCountsAll(server: Server, plan: set<Key>, actions: seq<Action>, k: nat)
    requires !server.lateRuns && IsRun(server, plan, actions) && k <= |actions|
    ensures var s := StateAfter(actions[..k]);
            s.disk.cleanup ==> Covers(s.disk.rows, plan) && s.world.chats == {} && s.world.inflight == {} && AllCountedOnce(s)
  {
    RunKeeps(server, plan, actions, k);
    RunRecords(server, plan, actions, k);
    var s := StateAfter(actions[..k]);
    if s.disk.cleanup {
      assert forall c :: !Protected(s, c);
      assert forall c :: c !in s.world.inflight;
      forall r | r in s.world.admitted
        ensures exists i :: 0 <= i < |s.disk.rows| && CountedAt(s, r, i)
      {
        assert Counted(s.disk.rows, s.world, r);
        var i :| 0 <= i < |s.disk.rows| && s.disk.rows[i] == Row(s.world.admitted[r].key, Some(r));
        assert CountedAt(s, r, i);
      }
    }
  }
}
