/**
 * The run-stream scanner: text arrives in arbitrary pieces, at most one bounded line is kept,
 * and the count of running compaction statuses must not depend on how the text was cut.
 */
module StreamScanner {
  import opened JsText

  const LINE_MAX := 4096

  /** What the lines read so far leave behind: the current event name and the count. */
  datatype Progress = Progress(event: string, cycles: nat)

  /** Everything the scanner keeps between two pushes. */
  datatype View = View(progress: Progress, line: string, skipping: bool)

  // ---------------------------------------------------------------- whole-text meaning

  function StripCr(line: string): (value: string)
    ensures line == value || line == value + "\r"
    ensures line == value <==> (line == "" || line[|line| - 1] != '\r')
  {
    if line != "" && line[|line| - 1] == '\r' then line[..|line| - 1] else line
  }

  /** One complete line. `running` says whether a data field is a running compaction status. */
  function Complete(running: string -> bool, p: Progress, value: string): Progress {
    if value == "" then p.(event := "")
    else if StartsWith(value, "event:") then p.(event := Trim(value[6..]))
    else if p.event == "artifact" && StartsWith(value, "data:") && running(value[5..]) then p.(cycles := p.cycles + 1)
    else p
  }

  /** A terminated line as it is read: an over-long one has no effect at all. */
  function ReadLine(running: string -> bool, p: Progress, line: string): Progress {
    if |line| > LINE_MAX then p else Complete(running, p, StripCr(line))
  }

  function ReadLines(running: string -> bool, lines: seq<string>): Progress {
    if lines == [] then Progress("", 0)
    else ReadLine(running, ReadLines(running, lines[..|lines| - 1]), lines[|lines| - 1])
  }

  /** The state that pieces, the last one unterminated, lead to. */
  function AfterPieces(running: string -> bool, pieces: seq<string>): View
    requires pieces != []
  {
    var tail := pieces[|pieces| - 1];
    View(ReadLines(running, pieces[..|pieces| - 1]), if |tail| > LINE_MAX then "" else tail, |tail| > LINE_MAX)
  }

  /** The state after reading `text` whole. */
  function Whole(running: string -> bool, text: string): View {
    AfterPieces(running, Split(text))
  }

  // ---------------------------------------------------------------- one push, piece by piece

  /** The pieces read before piece `i` of a push, after `seen` earlier pieces. */
  ghost function Before(seen: seq<string>, pieces: seq<string>, i: nat): (r: seq<string>)
    requires seen != [] && i <= |pieces|
    ensures r != []
  {
    if i == 0 then seen else Glue(seen, pieces[..i]) + [""]
  }

  /** A piece continues the open line, unless that would make it over-long. */
  function AddPiece(v: View, piece: string): View {
    var over := !v.skipping && |v.line| + |piece| > LINE_MAX;
    if v.skipping || over then View(v.progress, if over then "" else v.line, true)
    else v.(line := v.line + piece)
  }

  /** The line feed after a piece completes the open line. */
  function EndLine(running: string -> bool, v: View): View {
    View(if v.skipping then v.progress else Complete(running, v.progress, StripCr(v.line)), "", false)
  }

  lemma AddPieceContinues(running: string -> bool, seen: seq<string>, pieces: seq<string>, i: nat)
    requires seen != [] && i < |pieces|
    ensures AddPiece(AfterPieces(running, Before(seen, pieces, i)), pieces[i]) ==
            AfterPieces(running, Glue(seen, pieces[..i + 1]))
  {
    var open, joined := Before(seen, pieces, i), Glue(seen, pieces[..i + 1]);
    if i == 0 {
      assert pieces[..1] == [pieces[0]];
      assert joined == open[..|open| - 1] + [open[|open| - 1] + pieces[0]];
    } else {
      assert pieces[..i + 1][1..] == pieces[..i][1..] + [pieces[i]];
      assert "" + pieces[i] == pieces[i];
      assert joined == Glue(seen, pieces[..i]) + [pieces[i]];
      assert open[..|open| - 1] == Glue(seen, pieces[..i]);
    }
    assert joined[..|joined| - 1] == open[..|open| - 1];
  }

  lemma EndLineCompletes(running: string -> bool, seen: seq<string>, pieces: seq<string>, i: nat)
    requires seen != [] && i < |pieces|
    ensures EndLine(running, AfterPieces(running, Glue(seen, pieces[..i + 1]))) ==
            AfterPieces(running, Before(seen, pieces, i + 1))
  {
    var joined := Glue(seen, pieces[..i + 1]);
    assert (joined + [""])[..|joined|] == joined;
  }

  /** The state of a push before piece `i`, and after the last piece. */
  ghost function Standing(running: string -> bool, seen: seq<string>, pieces: seq<string>, i: nat): View
    requires seen != [] && pieces != [] && i <= |pieces|
  {
    AfterPieces(running, if i < |pieces| then Before(seen, pieces, i) else Glue(seen, pieces))
  }

  lemma StandingNext(running: string -> bool, seen: seq<string>, pieces: seq<string>, i: nat)
    requires seen != [] && i < |pieces|
    ensures var added := AddPiece(Standing(running, seen, pieces, i), pieces[i]);
            Standing(running, seen, pieces, i + 1) == if i == |pieces| - 1 then added else EndLine(running, added)
  {
    AddPieceContinues(running, seen, pieces, i);
    if i == |pieces| - 1 {
      assert pieces[..i + 1] == pieces;
    } else {
      EndLineCompletes(running, seen, pieces, i);
    }
  }

  // ---------------------------------------------------------------- the scanner

  class Scanner {
    const running: string -> bool
    var event: string
    var line: string
    var skipping: bool
    var cycles: nat
    /** All text pushed so far. */
    ghost var history: string

    ghost function State(): View
      reads this
    {
      View(Progress(event, cycles), line, skipping)
    }

    /** The scanner stands exactly where reading the whole history would put it. */
    ghost predicate Valid()
      reads this
    {
      State() == Whole(running, history)
    }

    constructor (running: string -> bool)
      ensures Valid() && history == "" && this.running == running
    {
      this.running := running;
      event, line, skipping, cycles, history := "", "", false, 0, "";
    }

    method CompleteLine(value: string)
      modifies this`event, this`cycles
      ensures Progress(event, cycles) == Complete(running, old(Progress(event, cycles)), value)
    {
      if value == "" {
        event := "";
        return;
      }
      if StartsWith(value, "event:") {
        event := Trim(value[6..]);
        return;
      }
      if event != "artifact" || !StartsWith(value, "data:") {
        return;
      }
      if running(value[5..]) {
        cycles := cycles + 1;
      }
    }

    /** One piece of a push; all but the last piece end with a line feed. */
    method TakePiece(piece: string, last: bool)
      modifies this`event, this`line, this`skipping, this`cycles
      ensures State() == (var added := AddPiece(old(State()), piece); if last then added else EndLine(running, added))
    {
      if !skipping && |line| + |piece| > LINE_MAX {
        skipping := true;
        line := "";
      }
      if !skipping {
        line := line + piece;
      }
      if last {
        return;
      }
      if !skipping {
        CompleteLine(StripCr(line));
      }
      line := "";
      skipping := false;
    }

    /** However the text is cut into pushes, the state is that of the whole text. */
    method Push(text: string)
      requires Valid()
      modifies this
      ensures Valid() && history == old(history) + text
      ensures |line| <= LINE_MAX && (skipping ==> line == "")
    {
      var pieces := Split(text);
      ghost var seen := Split(history);
      SplitAppend(history, text);
      for index := 0 to |pieces|
        invariant history == old(history)
        invariant State() == Standing(running, seen, pieces, index)
      {
        StandingNext(running, seen, pieces, index);
        TakePiece(pieces[index], index == |pieces| - 1);
      }
      history := history + text;
    }

    method SummaryCycles() returns (count: nat)
      requires Valid()
      ensures count == |Cycles(running, Kept(history))|
    {
      count := cycles;
      CyclesCount(running, Split(history)[..|Split(history)| - 1]);
    }
  }

  // ---------------------------------------------------------------- what the count means

  /** The terminated lines of a text that are not over-long, without their CR. */
  ghost function Kept(text: string): seq<string> {
    KeptLines(Split(text)[..|Split(text)| - 1])
  }

  ghost function KeptLines(lines: seq<string>): seq<string> {
    if lines == [] then []
    else
      var rest := KeptLines(lines[..|lines| - 1]);
      if |lines[|lines| - 1]| > LINE_MAX then rest else rest + [StripCr(lines[|lines| - 1])]
  }

  /** The lines of at most 4096 characters, in order, each as it stands or less one CR at its end. */
  ghost predicate KeptAt(lines: seq<string>, kept: seq<string>, at: seq<nat>) {
    && |at| == |kept| && (forall k, l :: 0 <= k < l < |at| ==> at[k] < at[l])
    && (forall i: nat :: i in at <==> i < |lines| && |lines[i]| <= 4096)
    && forall k :: 0 <= k < |at| ==> at[k] < |lines| && kept[k] == StripCr(lines[at[k]])
  }

  lemma KeptAtNext(lines: seq<string>, kept: seq<string>, at: seq<nat>, last: string)
    requires KeptAt(lines, kept, at)
    ensures if |last| <= 4096 then KeptAt(lines + [last], kept + [StripCr(last)], at + [|lines|]) else KeptAt(lines + [last], kept, at)
  {
    hide StripCr;
    assert forall i :: 0 <= i < |lines| ==> (lines + [last])[i] == lines[i];
    forall k | 0 <= k < |at| ensures at[k] < |lines| {
      assert at[k] in at;
    }
  }

  lemma {:induction false} KeptAre(lines: seq<string>) returns (at: seq<nat>)
    ensures KeptAt(lines, KeptLines(lines), at)
  {
    hide KeptAt;
    if lines == [] {
      at := [];
      NoneKept();
    } else {
      var init, last := lines[..|lines| - 1], lines[|lines| - 1];
      var before := KeptAre(init);
      KeptAtNext(init, KeptLines(init), before, last);
      assert lines == init + [last];
      at := if |last| <= 4096 then before + [|init|] else before;
    }
  }

  lemma NoneKept()
    ensures KeptAt([], [], [])
  {
  }

  /** A line that sets the event name: an `event:` field, or the blank line ending a block. */
  ghost predicate Sets(line: string) {
    line == "" || StartsWith(line, "event:")
  }

  /** Line `i` stands in an artifact event: the last line before it that sets the name names `artifact`. */
  ghost predicate InArtifact(lines: seq<string>, i: nat)
    requires i <= |lines|
  {
    exists j :: 0 <= j < i && StartsWith(lines[j], "event:") && Trim(lines[j][6..]) == "artifact" &&
      forall k :: j < k < i ==> !Sets(lines[k])
  }

  /** Line `i` is a running compaction status: a data line of an artifact event. */
  ghost predicate Counts(running: string -> bool, lines: seq<string>, i: nat) {
    i < |lines| && StartsWith(lines[i], "data:") && running(lines[i][5..]) && InArtifact(lines, i)
  }

  ghost function Cycles(running: string -> bool, lines: seq<string>): set<nat> {
    set i: nat | 0 <= i < |lines| && Counts(running, lines, i)
  }

  lemma InArtifactExtends(lines: seq<string>, last: string, i: nat)
    requires i <= |lines|
    ensures InArtifact(lines + [last], i) == InArtifact(lines, i)
  {
    var more := lines + [last];
    assert forall j :: 0 <= j < i ==> more[j] == lines[j];
    if InArtifact(lines, i) {
      var j :| 0 <= j < i && StartsWith(lines[j], "event:") && Trim(lines[j][6..]) == "artifact" &&
        forall k :: j < k < i ==> !Sets(lines[k]);
      assert StartsWith(more[j], "event:");
    }
    if InArtifact(more, i) {
      var j :| 0 <= j < i && StartsWith(more[j], "event:") && Trim(more[j][6..]) == "artifact" &&
        forall k :: j < k < i ==> !Sets(more[k]);
      assert StartsWith(lines[j], "event:");
    }
  }

  lemma InArtifactNext(lines: seq<string>, last: string)
    ensures InArtifact(lines + [last], |lines| + 1) ==
      if StartsWith(last, "event:") then Trim(last[6..]) == "artifact"
      else last != "" && InArtifact(lines, |lines|)
  {
    var more := lines + [last];
    assert more[|lines|] == last;
    if StartsWith(last, "event:") && Trim(last[6..]) == "artifact" {
      assert StartsWith(more[|lines|], "event:");
    }
    if !Sets(last) && InArtifact(lines, |lines|) {
      var j :| 0 <= j < |lines| && StartsWith(lines[j], "event:") && Trim(lines[j][6..]) == "artifact" &&
        forall k :: j < k < |lines| ==> !Sets(lines[k]);
      assert StartsWith(more[j], "event:");
      assert forall k :: j < k < |lines| + 1 ==> !Sets(more[k]);
    }
    if InArtifact(more, |more|) {
      var j :| 0 <= j < |more| && StartsWith(more[j], "event:") && Trim(more[j][6..]) == "artifact" &&
        forall k :: j < k < |more| ==> !Sets(more[k]);
      if j < |lines| {
        assert !Sets(more[|lines|]);
        assert StartsWith(lines[j], "event:");
        assert forall k :: j < k < |lines| ==> !Sets(lines[k]) by {
          forall k | j < k < |lines| ensures !Sets(lines[k]) { assert !Sets(more[k]); }
        }
      }
    }
  }

  lemma CountsEarlier(running: string -> bool, lines: seq<string>, last: string, i: nat)
    requires i < |lines|
    ensures Counts(running, lines + [last], i) == Counts(running, lines, i)
  {
    InArtifactExtends(lines, last, i);
    assert (lines + [last])[i] == lines[i];
  }

  lemma CyclesExtend(running: string -> bool, lines: seq<string>, last: string)
    ensures |Cycles(running, lines + [last])| ==
            |Cycles(running, lines)| + if Counts(running, lines + [last], |lines|) then 1 else 0
  {
    hide Counts;
    var more := lines + [last];
    var last': set<nat> := if Counts(running, more, |lines|) then {|lines|} else {};
    forall i: nat ensures i in Cycles(running, more) <==> i in Cycles(running, lines) + last' {
      if i < |lines| {
        CountsEarlier(running, lines, last, i);
      }
    }
    assert Cycles(running, more) == Cycles(running, lines) + last';
    assert Cycles(running, lines) !! last';
  }

  lemma CountsNext(running: string -> bool, lines: seq<string>, last: string)
    ensures Counts(running, lines + [last], |lines|) ==
            (StartsWith(last, "data:") && running(last[5..]) && InArtifact(lines, |lines|))
  {
    InArtifactExtends(lines, last, |lines|);
  }

  /** The progress agrees with the lines it has read. */
  ghost predicate Agrees(running: string -> bool, p: Progress, lines: seq<string>) {
    p.cycles == |Cycles(running, lines)| && (p.event == "artifact") == InArtifact(lines, |lines|)
  }

  lemma CompleteAgrees(running: string -> bool, p: Progress, lines: seq<string>, value: string)
    requires Agrees(running, p, lines)
    ensures Agrees(running, Complete(running, p, value), lines + [value])
  {
    InArtifactNext(lines, value);
    CyclesExtend(running, lines, value);
    CountsNext(running, lines, value);
    DataIsNotEvent(value);
  }

  lemma DataIsNotEvent(value: string)
    ensures StartsWith(value, "data:") ==> value != "" && value[0] == 'd'
    ensures StartsWith(value, "event:") ==> value != "" && value[0] == 'e'
  {
  }

  /** The line machine counts exactly the running data lines of artifact events. */
  lemma {:induction false} CyclesCount(running: string -> bool, lines: seq<string>)
    ensures Agrees(running, ReadLines(running, lines), KeptLines(lines))
  {
    if lines == [] {
      assert Cycles(running, []) == {};
    } else {
      var init, last := lines[..|lines| - 1], lines[|lines| - 1];
      CyclesCount(running, init);
      if |last| <= LINE_MAX {
        CompleteAgrees(running, ReadLines(running, init), KeptLines(init), StripCr(last));
      }
    }
  }
}
