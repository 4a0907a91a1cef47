/**
 * The reader of a run's event stream: blocks end at an empty line, and what is pushed in pieces
 * must give the events of the whole text, as long as no unfinished block outgrows the bound.
 */
module SseReader {
  import opened JsText
  import opened Wrappers

  /** A longer block without an end is dropped. */
  const REST_MAX := 4 * 1024 * 1024

  /** An event as sent: its type and its data text, before the data is parsed. */
  datatype SseEvent = SseEvent(kind: string, data: string)

  // ---------------------------------------------------------------- one block

  predicate IsData(line: string) {
    !StartsWith(line, "event:") && StartsWith(line, "data:")
  }

  function FieldText(line: string): string
    requires StartsWith(line, "data:")
  {
    if |line| > 5 && line[5] == ' ' then line[6..] else line[5..]
  }

  /** The data fields of a block, in order. */
  function DataOf(lines: seq<string>): seq<string> {
    if lines == [] then []
    else
      var last := lines[|lines| - 1];
      DataOf(lines[..|lines| - 1]) + if IsData(last) then [FieldText(last)] else []
  }

  /** The type a block names: its last `event:` line, else `message`. */
  function KindOf(lines: seq<string>): string {
    if lines == [] then "message"
    else
      var last := lines[|lines| - 1];
      if StartsWith(last, "event:") then Trim(last[6..]) else KindOf(lines[..|lines| - 1])
  }

  /** The event of one block; a block without data is none. */
  function BlockEvent(block: string): Option<SseEvent> {
    var lines := Split(block);
    var data := DataOf(lines);
    if data == [] then None else Some(SseEvent(KindOf(lines), Join(data)))
  }

  function Events(blocks: seq<string>): seq<SseEvent> {
    if blocks == [] then [] else Events(blocks[..|blocks| - 1]) + EventsOf(blocks[|blocks| - 1])
  }

  function EventsOf(block: string): seq<SseEvent> {
    match BlockEvent(block)
    case Some(event) => [event]
    case None => []
  }

  lemma {:induction false} EventsAppend(a: seq<string>, b: seq<string>)
    ensures Events(a + b) == Events(a) + Events(b)
  {
    if b == [] {
      assert a + b == a;
    } else {
      assert (a + b)[..|a + b| - 1] == a + b[..|b| - 1];
      EventsAppend(a, b[..|b| - 1]);
    }
  }

  // ---------------------------------------------------------------- what a block says

  /** The kind is that of the last `event:` line, trimmed; without one it is "message". */
  lemma {:induction false} KindIs(lines: seq<string>) returns (at: nat)
    ensures at <= |lines| && forall k :: at < k < |lines| ==> !StartsWith(lines[k], "event:")
    ensures if at < |lines| then StartsWith(lines[at], "event:") && KindOf(lines) == Trim(lines[at][6..])
            else KindOf(lines) == "message" && forall k :: 0 <= k < |lines| ==> !StartsWith(lines[k], "event:")
  {
    if lines == [] {
      at := 0;
    } else {
      var init, n := lines[..|lines| - 1], |lines| - 1;
      var before := KindIs(init);
      at := if StartsWith(lines[n], "event:") then n else if before < n then before else |lines|;
      assert forall k :: 0 <= k < n ==> init[k] == lines[k];
    }
  }

  /** These are the data lines, in order, and what follows each one's colon and the space after it. */
  ghost predicate DataAt(lines: seq<string>, data: seq<string>, at: seq<nat>) {
    && |at| == |data| && (forall k, l :: 0 <= k < l < |at| ==> at[k] < at[l])
    && (forall i: nat :: i in at <==> i < |lines| && StartsWith(lines[i], "data:"))
    && forall k :: 0 <= k < |at| ==> at[k] < |lines| && IsField(lines[at[k]], data[k])
  }

  predicate IsField(line: string, text: string) {
    line == "data: " + text || (line == "data:" + text && !StartsWith(line, "data: "))
  }

  lemma FieldIs(line: string)
    requires StartsWith(line, "data:")
    ensures IsField(line, FieldText(line)) && IsData(line)
  {
    assert line[0] == 'd';
    if |line| > 5 && line[5] == ' ' {
      assert line == "data: " + line[6..];
    } else {
      assert line == "data:" + line[5..];
    }
  }

  lemma DataAtNext(lines: seq<string>, data: seq<string>, at: seq<nat>, last: string)
    requires DataAt(lines, data, at)
    ensures if StartsWith(last, "data:") then DataAt(lines + [last], data + [FieldText(last)], at + [|lines|])
            else DataAt(lines + [last], data, at)
  {
    if StartsWith(last, "data:") {
      FieldIs(last);
    }
    hide FieldText, IsField, StartsWith;
    assert forall i :: 0 <= i < |lines| ==> (lines + [last])[i] == lines[i];
    forall k | 0 <= k < |at| ensures at[k] < |lines| {
      assert at[k] in at;
    }
  }

  lemma {:induction false} DataAre(lines: seq<string>) returns (at: seq<nat>)
    ensures DataAt(lines, DataOf(lines), at)
  {
    hide DataAt, IsData, StartsWith;
    if lines == [] {
      at := [];
      NoData();
    } else {
      var init, last := lines[..|lines| - 1], lines[|lines| - 1];
      var before := DataAre(init);
      DataAtNext(init, DataOf(init), before, last);
      assert lines == init + [last] && DataOf(init) + [] == DataOf(init);
      if StartsWith(last, "data:") {
        FieldIs(last);
      }
      at := if StartsWith(last, "data:") then before + [|init|] else before;
      DataOrNot(last);
    }
  }

  lemma NoData()
    ensures DataAt([], [], [])
  {
  }

  lemma DataOrNot(line: string)
    ensures IsData(line) ==> StartsWith(line, "data:")
  {
  }

  /** A block says its data lines joined, under the kind it names last; without data it says nothing. */
  lemma BlockMeans(block: string) returns (kind: nat, at: seq<nat>, data: seq<string>)
    ensures DataAt(Split(block), data, at) && kind <= |Split(block)|
    ensures if kind < |Split(block)| then StartsWith(Split(block)[kind], "event:") && forall k :: kind < k < |Split(block)| ==> !StartsWith(Split(block)[k], "event:")
            else forall k :: 0 <= k < |Split(block)| ==> !StartsWith(Split(block)[k], "event:")
    ensures BlockEvent(block) ==
            if data == [] then None
            else Some(SseEvent(if kind < |Split(block)| then Trim(Split(block)[kind][6..]) else "message", Join(data)))
  {
    hide Split, Trim, StartsWith, DataAt;
    kind := KindIs(Split(block));
    at := DataAre(Split(block));
    data := DataOf(Split(block));
  }

  // ---------------------------------------------------------------- the whole-text parse

  predicate BlankLineAt(text: string, i: int) {
    0 <= i && i + 2 <= |text| && text[i] == '\n' && text[i + 1] == '\n'
  }

  /** Where the first empty line starts, or -1. */
  function FindBlankLine(text: string): (at: int)
    ensures at == -1 || (BlankLineAt(text, at) && 0 <= at <= |text| - 2)
    ensures forall j :: BlankLineAt(text, j) ==> 0 <= at <= j
  {
    if BlankLineAt(text, 0) then 0
    else if text == "" then -1
    else
      var later := FindBlankLine(text[1..]);
      assert forall j :: BlankLineAt(text, j) ==> BlankLineAt(text[1..], j - 1);
      if later == -1 then -1 else later + 1
  }

  /** The finished blocks of a text and what is left after the last one. */
  function Cut(text: string): (r: (seq<string>, string))
    decreases |text|
  {
    var at := FindBlankLine(text);
    if at == -1 then ([], text)
    else
      var (blocks, rest) := Cut(text[at + 2..]);
      ([text[..at]] + blocks, rest)
  }

  /** The text is its blocks, each with the empty line that ended it, and what is left; neither holds an empty line. */
  lemma {:induction false} CutIs(text: string)
    ensures text == Rejoined(Cut(text).0, Cut(text).1)
    ensures (forall b :: b in Cut(text).0 ==> FindBlankLine(b) == -1) && FindBlankLine(Cut(text).1) == -1
    decreases |text|
  {
    hide BlankLineAt, Cut, Rejoined, FindBlankLine;
    var at := FindBlankLine(text);
    if at == -1 {
      CutNone(text);
      RejoinedNone(text);
    } else {
      NoneInside(text, at);
      var block, tail := text[..at], text[at + 2..];
      CutIs(tail);
      CutFirst(text, at);
      RejoinedFirst(block, Cut(tail).0, Cut(tail).1);
      assert text == block + "\n\n" + tail;
    }
  }

  lemma RejoinedNone(rest: string)
    ensures Rejoined([], rest) == rest
  {
  }

  lemma RejoinedFirst(block: string, blocks: seq<string>, rest: string)
    ensures Rejoined([block] + blocks, rest) == block + "\n\n" + Rejoined(blocks, rest)
  {
    assert ([block] + blocks)[1..] == blocks;
  }

  function Rejoined(blocks: seq<string>, rest: string): string {
    if blocks == [] then rest else blocks[0] + "\n\n" + Rejoined(blocks[1..], rest)
  }

  lemma NoneInside(text: string, at: nat)
    requires FindBlankLine(text) == at
    ensures FindBlankLine(text[..at]) == -1 && at + 2 <= |text| && text[at..at + 2] == "\n\n"
  {
    var block := text[..at];
    assert forall i :: BlankLineAt(block, i) ==> BlankLineAt(text, i);
  }

  lemma FirstBlankLineStays(a: string, b: string)
    requires FindBlankLine(a) != -1
    ensures FindBlankLine(a + b) == FindBlankLine(a)
  {
    var at := FindBlankLine(a);
    assert BlankLineAt(a + b, at);
    var first := FindBlankLine(a + b);
    assert BlankLineAt(a, first);
  }

  /** Cutting may stop anywhere and go on later from what was left. */
  lemma {:induction false} CutAppend(a: string, b: string)
    ensures Cut(a + b) == (Cut(a).0 + Cut(Cut(a).1 + b).0, Cut(Cut(a).1 + b).1)
    decreases |a|
  {
    hide BlankLineAt, FindBlankLine, Cut;
    var at := FindBlankLine(a);
    if at != -1 {
      FirstBlankLineStays(a, b);
      assert (a + b)[..at] == a[..at];
      assert (a + b)[at + 2..] == a[at + 2..] + b;
      CutAppend(a[at + 2..], b);
      CutFirst(a, at);
      CutFirst(a + b, at);
      var first, blocks, later := [a[..at]], Cut(a[at + 2..]).0, Cut(Cut(a[at + 2..]).1 + b).0;
      assert first + (blocks + later) == first + blocks + later;
    } else {
      CutNone(a);
      assert [] + Cut(a + b).0 == Cut(a + b).0;
    }
  }

  lemma CutNone(text: string)
    requires FindBlankLine(text) == -1
    ensures Cut(text) == ([], text)
  {
  }

  lemma CutFirst(text: string, at: nat)
    requires at + 2 <= |text| && FindBlankLine(text) == at
    ensures Cut(text) == ([text[..at]] + Cut(text[at + 2..]).0, Cut(text[at + 2..]).1)
  {
  }

  // ---------------------------------------------------------------- pushing pieces

  /** The events one push gives and what is kept after it. */
  function Pushed(rest: string, chunk: string): (seq<SseEvent>, string) {
    var (blocks, left) := Cut(rest + chunk);
    (Events(blocks), if |left| > REST_MAX then "" else left)
  }

  function Fed(chunks: seq<string>): (seq<SseEvent>, string) {
    if chunks == [] then ([], "")
    else
      var (before, rest) := Fed(chunks[..|chunks| - 1]);
      var (events, left) := Pushed(rest, chunks[|chunks| - 1]);
      (before + events, left)
  }

  lemma FedNext(chunks: seq<string>, chunk: string)
    ensures Fed(chunks + [chunk]) == (Fed(chunks).0 + Pushed(Fed(chunks).1, chunk).0, Pushed(Fed(chunks).1, chunk).1)
  {
    assert (chunks + [chunk])[..|chunks|] == chunks;
  }

  function Concat(chunks: seq<string>): string {
    if chunks == [] then "" else Concat(chunks[..|chunks| - 1]) + chunks[|chunks| - 1]
  }

  /** Push `k` leaves no unfinished block above the bound. */
  predicate WithinBound(chunks: seq<string>, k: nat)
    requires k < |chunks|
  {
    |Cut(Fed(chunks[..k]).1 + chunks[k]).1| <= 4_194_304
  }

  ghost predicate NoDrop(chunks: seq<string>) {
    forall k :: 0 <= k < |chunks| ==> WithinBound(chunks, k)
  }

  lemma NoDropInit(chunks: seq<string>)
    requires chunks != [] && NoDrop(chunks)
    ensures NoDrop(chunks[..|chunks| - 1])
  {
    var init := chunks[..|chunks| - 1];
    forall k | 0 <= k < |init| ensures WithinBound(init, k) {
      assert init[..k] == chunks[..k];
      assert WithinBound(chunks, k);
    }
  }

  /** Within the bound the pieces do not matter: events and pending text are those of the whole text. */
  lemma {:induction false} ChunkingIndependent(chunks: seq<string>)
    requires NoDrop(chunks)
    ensures Fed(chunks) == (Events(Cut(Concat(chunks)).0), Cut(Concat(chunks)).1)
  {
    if chunks == [] {
      assert FindBlankLine("") == -1;
    } else {
      var init, last := chunks[..|chunks| - 1], chunks[|chunks| - 1];
      NoDropInit(chunks);
      ChunkingIndependent(init);
      var all := Concat(init);
      CutAppend(all, last);
      EventsAppend(Cut(all).0, Cut(Cut(all).1 + last).0);
      assert WithinBound(chunks, |chunks| - 1);
    }
  }

  /** After every push the kept text is the whole text's unfinished block. */
  ghost predicate InStep(chunks: seq<string>) {
    forall k :: 0 <= k <= |chunks| ==> Kept(chunks, k)
  }

  predicate Kept(chunks: seq<string>, k: nat)
    requires k <= |chunks|
  {
    Fed(chunks[..k]).1 == Cut(Concat(chunks[..k])).1
  }

  /** The reader keeps in step with the whole text exactly when no push dropped a block. */
  lemma InStepIffNoDrop(chunks: seq<string>)
    ensures InStep(chunks) <==> NoDrop(chunks)
  {
    if NoDrop(chunks) {
      forall k | 0 <= k <= |chunks| ensures Kept(chunks, k) {
        NoDropPrefix(chunks, k);
        ChunkingIndependent(chunks[..k]);
      }
    }
    if InStep(chunks) {
      forall k | 0 <= k < |chunks| ensures WithinBound(chunks, k) {
        assert Kept(chunks, k) && Kept(chunks, k + 1);
        var upTo := chunks[..k + 1];
        assert upTo[..|upTo| - 1] == chunks[..k];
        CutAppend(Concat(chunks[..k]), chunks[k]);
      }
    }
  }

  lemma NoDropPrefix(chunks: seq<string>, k: nat)
    requires NoDrop(chunks) && k <= |chunks|
    ensures NoDrop(chunks[..k])
  {
    forall j | 0 <= j < k ensures WithinBound(chunks[..k], j) {
      assert chunks[..k][..j] == chunks[..j];
      assert WithinBound(chunks, j);
    }
  }

  lemma RunawayDropped(comment: string)
    requires |comment| > 4_194_304 && forall i :: 0 <= i < |comment| ==> comment[i] == ':'
    ensures Fed([comment]) == ([], "") && Concat([comment]) == comment
  {
    assert Cut(comment) == ([], comment) by { assert forall i :: !BlankLineAt(comment, i); }
    assert "" + comment == comment;
    var empty: seq<string> := [];
    assert Fed(empty) == ([], "") && Events(empty) == [] && Concat(empty) == "";
    assert Pushed("", comment) == ([], "");
    FedNext(empty, comment);
    assert empty + [comment] == [comment];
    assert Fed([comment]).0 == [];
    assert [comment][..0] == empty;
  }

  /** A runaway block does change the events: its comment line, once dropped, no longer hides what follows it. */
  lemma RunawayBlockChangesEvents(comment: string)
    requires |comment| > 4_194_304 && forall i :: 0 <= i < |comment| ==> comment[i] == ':'
    ensures var chunks := [comment, "data:x\n\n"];
            Fed(chunks).0 == [SseEvent("message", "x")] && Events(Cut(Concat(chunks)).0) == []
  {
    hide Fed, Pushed, Cut, Events;
    var first, second := [comment], "data:x\n\n";
    RunawayDropped(comment);
    FedNext(first, second);
    assert first + [second] == [comment, second];
    DataX();
    assert Concat(first + [second]) == comment + second by { assert (first + [second])[..1] == first; }
    assert second == "data:x" + "\n\n";
    assert comment + second == (comment + "data:x") + "\n\n";
    OneBlock(comment + "data:x");
    CommentOnly(comment + "data:x");
  }

  lemma OneBlock(block: string)
    requires '\n' !in block
    ensures Cut(block + "\n\n") == ([block], "")
  {
    var text := block + "\n\n";
    assert BlankLineAt(text, |block|);
    var at := FindBlankLine(text);
    assert forall j :: 0 <= j < |block| ==> text[j] == block[j] && block[j] in block;
    assert at == |block|;
    assert text[..at] == block && text[at + 2..] == "";
    assert Cut(text[at + 2..]) == ([], "") by { assert FindBlankLine("") == -1; }
    assert [block] + [] == [block];
  }

  lemma {:induction false} SplitSingle(line: string)
    requires '\n' !in line
    ensures Split(line) == [line]
  {
    if line != "" {
      SplitSingle(line[1..]);
      assert [line[0]] + line[1..] == line;
    }
  }

  lemma DataX()
    ensures Pushed("", "data:x\n\n") == ([SseEvent("message", "x")], "")
  {
    OneBlock("data:x");
    assert "" + "data:x\n\n" == "data:x" + "\n\n";
    SingleEvents("data:x");
    SplitSingle("data:x");
    var lines := ["data:x"];
    assert lines[..0] == [];
    assert lines[0][0] == 'd';
    assert lines[0][5..] == "x";
    assert DataOf(lines) == [] + ["x"];
    assert KindOf(lines) == "message";
  }

  lemma CommentOnly(block: string)
    requires '\n' !in block && block != "" && block[0] == ':'
    ensures Events([block]) == []
  {
    SplitSingle(block);
    var lines := [block];
    assert lines[..0] == [];
    assert !StartsWith(block, "data:");
    assert DataOf(lines) == [];
  }

  // ---------------------------------------------------------------- which texts are never dropped

  /** The first `k` characters end in a block, finished or not, within the bound. */
  predicate TailFits(text: string, k: nat)
    requires k <= |text|
  {
    |Cut(text[..k]).1| <= 4_194_304
  }

  ghost predicate TailsFit(text: string) {
    forall k :: 0 <= k <= |text| ==> TailFits(text, k)
  }

  lemma {:induction false} KeptWhileTailsFit(text: string, chunks: seq<string>)
    requires TailsFit(text) && Concat(chunks) <= text
    ensures NoDrop(chunks)
  {
    if chunks != [] {
      var init, last := chunks[..|chunks| - 1], chunks[|chunks| - 1];
      KeptWhileTailsFit(text, init);
      ChunkingIndependent(init);
      CutAppend(Concat(init), last);
      assert Concat(chunks) == text[..|Concat(chunks)|];
      assert TailFits(text, |Concat(chunks)|);
      NoDropExtends(chunks);
    }
  }

  lemma NoDropExtends(chunks: seq<string>)
    requires chunks != [] && NoDrop(chunks[..|chunks| - 1]) && WithinBound(chunks, |chunks| - 1)
    ensures NoDrop(chunks)
  {
    var init := chunks[..|chunks| - 1];
    forall k | 0 <= k < |chunks| ensures WithinBound(chunks, k) {
      if k < |init| {
        assert init[..k] == chunks[..k];
        assert WithinBound(init, k);
      }
    }
  }

  ghost predicate NeverDropped(text: string) {
    forall chunks :: Concat(chunks) == text ==> NoDrop(chunks)
  }

  /** No way of cutting a text into pushes loses a block exactly when no start of it ends in a block above the bound. */
  lemma NeverDroppedIff(text: string)
    ensures NeverDropped(text) <==> TailsFit(text)
  {
    if TailsFit(text) {
      forall chunks | Concat(chunks) == text ensures NoDrop(chunks) {
        KeptWhileTailsFit(text, chunks);
      }
    }
    if NeverDropped(text) {
      forall k | 0 <= k <= |text| ensures TailFits(text, k) {
        TwoPushes(text[..k], text[k..]);
        assert text[..k] + text[k..] == text;
      }
    }
  }

  lemma TwoPushes(head: string, tail: string)
    ensures Concat([head, tail]) == head + tail && (NoDrop([head, tail]) ==> |Cut(head).1| <= 4_194_304)
  {
    hide Cut, Pushed;
    var chunks, one := [head, tail], [head];
    assert chunks[..1] == one && chunks[..0] == [] && one[..0] == [];
    assert Concat(one) == "" + head == head;
    if NoDrop(chunks) {
      hide Concat;
      assert WithinBound(chunks, 0);
      assert "" + head == head;
    }
  }

  // ---------------------------------------------------------------- what the server writes

  /** One write of a live run stream: an event, or the keepalive comment. */
  datatype Frame = Sent(event: SseEvent) | Keepalive

  const KEEPALIVE := ": keepalive"

  function FrameBlock(frame: Frame): string {
    match frame
    case Sent(e) => "event: " + e.kind + "\n" + ("data: " + e.data)
    case Keepalive => KEEPALIVE
  }

  function Encode(frames: seq<Frame>): string {
    if frames == [] then "" else FrameBlock(frames[0]) + "\n\n" + Encode(frames[1..])
  }

  function SentEvents(frames: seq<Frame>): seq<SseEvent> {
    if frames == [] then []
    else (if frames[0].Sent? then [frames[0].event] else []) + SentEvents(frames[1..])
  }

  /** Types are plain names, and serialised data holds no line feed. */
  predicate WellFormed(frame: Frame) {
    frame.Sent? ==> (forall i :: 0 <= i < |frame.event.kind| ==> !IsSpace(frame.event.kind[i])) && '\n' !in frame.event.data
  }

  lemma NameTrims(name: string)
    requires forall i :: 0 <= i < |name| ==> !IsSpace(name[i])
    ensures Trim(" " + name) == name
  {
    assert (" " + name)[1..] == name;
    assert TrimStart(" " + name) == TrimStart(name) == name;
  }

  lemma {:induction false} SplitTwo(head: string, tail: string)
    requires '\n' !in head && '\n' !in tail
    ensures Split(head + "\n" + tail) == [head, tail]
  {
    var text := head + "\n" + tail;
    if head == "" {
      assert text[0] == '\n' && text[1..] == tail;
      SplitSingle(tail);
    } else {
      assert text[1..] == head[1..] + "\n" + tail;
      SplitTwo(head[1..], tail);
      assert [head[0]] + head[1..] == head;
    }
  }

  lemma FrameLines(e: SseEvent)
    requires WellFormed(Sent(e))
    ensures Split(FrameBlock(Sent(e))) == ["event: " + e.kind, "data: " + e.data]
  {
    assert '\n' !in e.kind by { assert IsSpace('\n'); }
    SplitTwo("event: " + e.kind, "data: " + e.data);
  }

  lemma TwoFields(head: string, tail: string)
    requires StartsWith(head, "event:") && StartsWith(tail, "data:") && !StartsWith(tail, "event:")
    ensures KindOf([head, tail]) == Trim(head[6..]) && DataOf([head, tail]) == [FieldText(tail)]
  {
    var lines, first := [head, tail], [head];
    assert lines[..1] == first && first[..0] == [];
    assert DataOf(first) == [] && KindOf(first) == Trim(head[6..]);
  }

  lemma FrameEvent(e: SseEvent)
    requires WellFormed(Sent(e))
    ensures BlockEvent(FrameBlock(Sent(e))) == Some(e)
  {
    hide Split, KindOf, DataOf, Trim, FrameBlock;
    var head, tail := "event: " + e.kind, "data: " + e.data;
    FrameLines(e);
    assert tail[0] == 'd' && tail[5] == ' ' && tail[6..] == e.data;
    assert head[6..] == " " + e.kind;
    TwoFields(head, tail);
    NameTrims(e.kind);
  }

  /** The first empty line of an encoded frame is the one that ends it. */
  lemma FrameEnd(frame: Frame, rest: string)
    requires WellFormed(frame)
    ensures FindBlankLine(FrameBlock(frame) + "\n\n" + rest) == |FrameBlock(frame)|
  {
    var block := FrameBlock(frame);
    var text := block + "\n\n" + rest;
    assert BlankLineAt(text, |block|);
    forall j | 0 <= j < |block| ensures !BlankLineAt(text, j) {
      NoInnerBlankLine(frame, j);
    }
  }

  lemma NoInnerBlankLine(frame: Frame, j: nat)
    requires WellFormed(frame) && j < |FrameBlock(frame)|
    ensures var block := FrameBlock(frame);
            block[j] != '\n' || (j + 1 < |block| && block[j + 1] != '\n')
  {
    if frame.Sent? {
      var e := frame.event;
      var head, tail := "event: " + e.kind, "data: " + e.data;
      var block := FrameBlock(frame);
      assert block == head + "\n" + tail;
      if j < |head| {
        assert block[j] == head[j];
        assert head[j] != '\n' by {
          if j >= 7 { assert head[j] == e.kind[j - 7]; }
        }
      } else if j == |head| {
        assert block[j + 1] == 'd';
      } else {
        assert block[j] == tail[j - |head| - 1];
        assert tail[j - |head| - 1] != '\n' by {
          if j - |head| - 1 >= 6 { assert tail[j - |head| - 1] == e.data[j - |head| - 7]; }
        }
      }
    }
  }

  lemma EncodeCut(frames: seq<Frame>, rest: string)
    requires frames != [] && WellFormed(frames[0])
    ensures var block := FrameBlock(frames[0]);
            Cut(block + "\n\n" + rest) == ([block] + Cut(rest).0, Cut(rest).1)
  {
    FrameEnd(frames[0], rest);
    var block := FrameBlock(frames[0]);
    var text := block + "\n\n" + rest;
    assert text[..|block|] == block && text[|block| + 2..] == rest;
  }

  lemma FrameRead(frame: Frame)
    requires WellFormed(frame)
    ensures Events([FrameBlock(frame)]) == if frame.Sent? then [frame.event] else []
  {
    hide Events, BlockEvent;
    if frame.Sent? {
      hide FrameBlock;
      SingleEvents(FrameBlock(frame));
      FrameEvent(frame.event);
    } else {
      KeepaliveRead();
    }
  }

  lemma KeepaliveRead()
    ensures Events([KEEPALIVE]) == []
  {
    hide Events;
    CommentOnly(KEEPALIVE);
  }

  /** Reading what was written gives back exactly the events sent. */
  lemma {:induction false} RoundTrip(frames: seq<Frame>)
    requires forall f :: f in frames ==> WellFormed(f)
    ensures Events(Cut(Encode(frames)).0) == SentEvents(frames) && Cut(Encode(frames)).1 == ""
  {
    if frames == [] {
      assert FindBlankLine("") == -1;
    } else {
      hide Cut, Events, EventsOf, BlockEvent, FrameBlock, WellFormed;
      var rest := Encode(frames[1..]);
      RoundTrip(frames[1..]);
      EncodeCut(frames, rest);
      EventsAppend([FrameBlock(frames[0])], Cut(rest).0);
      FrameRead(frames[0]);
    }
  }

  /** No unfinished block of a written stream is longer than its longest frame. */
  lemma {:induction false} TailBounded(frames: seq<Frame>, prefix: string, bound: nat)
    requires forall f :: f in frames ==> WellFormed(f) && |FrameBlock(f)| + 2 <= bound
    requires prefix <= Encode(frames)
    ensures |Cut(prefix).1| <= bound
  {
    if frames != [] {
      var block, rest := FrameBlock(frames[0]), Encode(frames[1..]);
      var frame := block + "\n\n";
      assert Encode(frames) == frame + rest;
      if |prefix| >= |frame| {
        var more := prefix[|frame|..];
        assert prefix == block + "\n\n" + more;
        assert more <= rest;
        EncodeCut(frames, more);
        TailBounded(frames[1..], more, bound);
      } else {
        CutShorter(prefix);
      }
    } else {
      CutShorter(prefix);
    }
  }

  lemma {:induction false} CutShorter(text: string)
    ensures |Cut(text).1| <= |text|
    decreases |text|
  {
    var at := FindBlankLine(text);
    if at != -1 {
      CutShorter(text[at + 2..]);
    }
  }

  /** A stream whose frames fit the bound is never dropped, however it is cut. */
  lemma WrittenNeverDropped(frames: seq<Frame>, chunks: seq<string>)
    requires forall f :: f in frames ==> WellFormed(f) && |FrameBlock(f)| + 2 <= 4_194_304
    requires Concat(chunks) == Encode(frames)
    ensures NoDrop(chunks)
  {
    var text := Encode(frames);
    forall k | 0 <= k <= |text| ensures TailFits(text, k) {
      TailBounded(frames, text[..k], 4_194_304);
    }
    KeptWhileTailsFit(text, chunks);
  }

  /** End to end: however a written stream is cut, the reader gives exactly the events sent. */
  lemma WrittenStreamIsRead(frames: seq<Frame>, chunks: seq<string>)
    requires forall f :: f in frames ==> WellFormed(f) && |FrameBlock(f)| + 2 <= 4_194_304
    requires Concat(chunks) == Encode(frames)
    ensures Fed(chunks) == (SentEvents(frames), "")
  {
    WrittenNeverDropped(frames, chunks);
    ChunkingIndependent(chunks);
    RoundTrip(frames);
  }

  // ---------------------------------------------------------------- the reader

  class Reader {
    var rest: string
    /** All text pushed so far, and all events given for it. */
    ghost var chunks: seq<string>
    ghost var given: seq<SseEvent>

    ghost predicate Valid()
      reads this
    {
      Fed(chunks) == (given, rest)
    }

    constructor ()
      ensures Valid() && chunks == []
    {
      rest, chunks, given := "", [], [];
    }

    method Parse(block: string) returns (event: Option<SseEvent>)
      ensures event == BlockEvent(block)
    {
      var kind := "message";
      var data: seq<string> := [];
      var lines := Split(block);
      for i := 0 to |lines|
        invariant data == DataOf(lines[..i]) && kind == KindOf(lines[..i])
      {
        assert lines[..i + 1][..i] == lines[..i];
        var line := lines[i];
        if StartsWith(line, "event:") {
          kind := Trim(line[6..]);
        } else if StartsWith(line, "data:") {
          data := data + [FieldText(line)];
        }
      }
      assert lines[..|lines|] == lines;
      event := if data == [] then None else Some(SseEvent(kind, Join(data)));
    }

    /** While nothing was dropped, the events given so far are the whole text's, and the rest its unfinished block. */
    method Push(chunk: string) returns (events: seq<SseEvent>)
      requires Valid()
      modifies this
      ensures Valid() && chunks == old(chunks) + [chunk] && given == old(given) + events
      ensures NoDrop(chunks) ==> given == Events(Cut(Concat(chunks)).0) && rest == Cut(Concat(chunks)).1
      ensures |rest| <= 4_194_304
    {
      hide Cut, Events, BlockEvent, Concat, BlankLineAt, NoDrop;
      ghost var kept := rest;
      rest := rest + chunk;
      events := [];
      ghost var text := rest;
      ghost var blocks: seq<string> := [];
      CutNothing(text);
      var end := FindBlankLine(rest);
      while end >= 0
        invariant end == FindBlankLine(rest)
        invariant chunks == old(chunks) && given == old(given)
        invariant Cut(text) == (blocks + Cut(rest).0, Cut(rest).1)
        invariant events == Events(blocks)
        decreases |rest|
      {
        var block := rest[..end];
        CutNext(text, blocks, rest);
        rest := rest[end + 2..];
        var event := Parse(block);
        EventsNext(blocks, block);
        blocks := blocks + [block];
        if event.Some? {
          events := events + [event.value];
        }
        end := FindBlankLine(rest);
      }
      CutEnd(text, blocks, rest);
      if |rest| > REST_MAX {
        rest := "";
      }
      assert Pushed(kept, chunk) == (events, rest);
      chunks, given := chunks + [chunk], given + events;
      FedNext(old(chunks), chunk);
      if NoDrop(chunks) {
        ChunkingIndependent(chunks);
      }
    }
  }

  lemma CutNothing(text: string)
    ensures Cut(text) == ([] + Cut(text).0, Cut(text).1) && Events([]) == []
  {
    assert [] + Cut(text).0 == Cut(text).0;
  }

  lemma CutNext(text: string, blocks: seq<string>, rest: string)
    requires Cut(text) == (blocks + Cut(rest).0, Cut(rest).1) && FindBlankLine(rest) != -1
    ensures var end := FindBlankLine(rest);
            Cut(text) == ((blocks + [rest[..end]]) + Cut(rest[end + 2..]).0, Cut(rest[end + 2..]).1)
  {
    hide FindBlankLine, Cut, BlankLineAt;
    var end := FindBlankLine(rest);
    var block, later := rest[..end], Cut(rest[end + 2..]);
    CutFirst(rest, end);
    assert blocks + ([block] + later.0) == (blocks + [block]) + later.0;
  }

  lemma CutEnd(text: string, blocks: seq<string>, rest: string)
    requires Cut(text) == (blocks + Cut(rest).0, Cut(rest).1) && FindBlankLine(rest) == -1
    ensures Cut(text) == (blocks, rest)
  {
    hide FindBlankLine, Cut, BlankLineAt;
    CutNone(rest);
    assert blocks + [] == blocks;
  }

  lemma EventsNext(blocks: seq<string>, block: string)
    ensures Events(blocks + [block]) == match BlockEvent(block) case Some(e) => Events(blocks) + [e] case None => Events(blocks)
  {
    EventsAppend(blocks, [block]);
    SingleEvents(block);
    assert Events(blocks) + [] == Events(blocks);
  }

  lemma SingleEvents(block: string)
    ensures Events([block]) == EventsOf(block)
  {
    assert [block][..0] == [];
    assert Events([]) == [];
  }
}
