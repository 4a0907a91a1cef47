/**
 * What a run's stream showed of its answer: the text segments between resets, how many resets came
 * after text, and how many of them rewrote the answer.
 */
module AnswerStream {
  import opened JsText
  import opened Wrappers
  import opened AnswerParagraph
  import SseReader

  datatype Kind = Token(delta: string) | Reset | Finish | Other

  /** An event with the harness's clock when it was read. */
  datatype Timed = Timed(at: int, kind: Kind)

  datatype Facts = Facts(endAt: Option<int>, firstParagraph: Option<string>, firstTokenAt: Option<int>,
                         resetsAfterText: nat, rewritten: nat, tokenTimes: seq<int>)

  function Kinds(events: seq<Timed>): seq<Kind> {
    seq(|events|, i requires 0 <= i < |events| => events[i].kind)
  }

  // ---------------------------------------------------------------- specification

  /** The text between resets; the last segment is what is visible at the end. */
  function Segments(kinds: seq<Kind>): (r: seq<string>)
    ensures r != []
  {
    if kinds == [] then [""]
    else
      var before := Segments(kinds[..|kinds| - 1]);
      match kinds[|kinds| - 1]
      case Token(delta) => before[..|before| - 1] + [before[|before| - 1] + delta]
      case Reset => before + [""]
      case _ => before
  }

  /** The first segment with text from `i` on, or the empty text. */
  function NextText(segments: seq<string>, i: nat): string
    decreases |segments| - i
  {
    if i >= |segments| then "" else if !Blank(segments[i]) then segments[i] else NextText(segments, i + 1)
  }

  function Head(segment: string): (head: string)
    ensures head <= Trim(segment) && |head| <= 300 && (|head| == 300 || head == Trim(segment))
  {
    var trimmed := Trim(segment);
    if |trimmed| > MATCH_MAX then trimmed[..MATCH_MAX] else trimmed
  }

  /** The text after the reset that ended segment `i` still begins with that segment. */
  predicate KeptText(segments: seq<string>, i: nat)
    requires i < |segments|
  {
    StartsWith(TrimStart(NextText(segments, i + 1)), Head(segments[i]))
  }

  ghost function TextResets(segments: seq<string>): set<nat> {
    set i: nat | 0 <= i < |segments| - 1 && !Blank(segments[i])
  }

  ghost function Rewrites(segments: seq<string>): set<nat> {
    set i: nat | 0 <= i < |segments| - 1 && Rewritten(segments, i)
  }

  ghost function FinishTime(events: seq<Timed>): Option<int> {
    if events == [] then None
    else
      var before := FinishTime(events[..|events| - 1]);
      if before == None && events[|events| - 1].kind.Finish? then Some(events[|events| - 1].at) else before
  }

  predicate ShowsText(e: Timed) {
    e.kind.Token? && !Blank(e.kind.delta)
  }

  function TextTimes(events: seq<Timed>): seq<int> {
    if events == [] then []
    else TextTimes(events[..|events| - 1]) + if ShowsText(events[|events| - 1]) then [events[|events| - 1].at] else []
  }

  // ---------------------------------------------------------------- the fold

  /** Everything but the times depends on the kinds alone. */
  ghost predicate AreFacts(facts: Facts, events: seq<Timed>) {
    var segments := Segments(Kinds(events));
    && facts.resetsAfterText == |TextResets(segments)| && facts.rewritten == |Rewrites(segments)|
    && facts.firstParagraph == FirstParagraph(NextText(segments, 0))
    && facts.endAt == FinishTime(events) && facts.tokenTimes == TextTimes(events)
    && facts.firstTokenAt == if TextTimes(events) == [] then None else Some(TextTimes(events)[0])
  }

  method AnswerStreamFacts(events: seq<Timed>) returns (facts: Facts)
    ensures AreFacts(facts, events)
  {
    var visible := "";
    var endAt: Option<int> := None;
    var tokenTimes: seq<int> := [];
    var segments: seq<string> := [];
    var resets := 0;
    assert Kinds(events)[..0] == [];
    ghost var kinds := Kinds(events);
    for i := 0 to |events|
      invariant segments + [visible] == Segments(kinds[..i])
      invariant resets == |TextResets(segments + [visible])|
      invariant endAt == FinishTime(events[..i]) && tokenTimes == TextTimes(events[..i])
    {
      var event := events[i];
      assert events[..i + 1][..i] == events[..i] && kinds[..i + 1][..i] == kinds[..i];
      ghost var before := segments + [visible];
      assert before[..|before| - 1] == segments;
      if event.kind.Token? {
        TextResetsOfInit(segments, visible, visible + event.kind.delta);
        visible := visible + event.kind.delta;
        if !Blank(event.kind.delta) {
          tokenTimes := tokenTimes + [event.at];
        }
      } else if event.kind.Reset? {
        TextResetsGrow(segments, visible);
        segments := segments + [visible];
        if !Blank(visible) {
          resets := resets + 1;
        }
        visible := "";
      } else if event.kind.Finish? && endAt == None {
        endAt := Some(event.at);
      }
    }
    assert events[..|events|] == events && kinds[..|events|] == kinds;
    segments := segments + [visible];
    var rewritten := CountRewrites(segments);
    var firstText := NextText(segments, 0);
    facts := Facts(endAt, FirstParagraph(firstText), if tokenTimes == [] then None else Some(tokenTimes[0]), resets, rewritten, tokenTimes);
  }

  method CountRewrites(segments: seq<string>) returns (rewritten: nat)
    requires segments != []
    ensures rewritten == |Rewrites(segments)|
  {
    rewritten := 0;
    for i := 0 to |segments| - 1
      invariant rewritten == |RewritesBefore(segments, i)|
    {
      RewritesBeforeNext(segments, i);
      if !Blank(segments[i]) && !KeptText(segments, i) {
        rewritten := rewritten + 1;
      }
    }
    assert RewritesBefore(segments, |segments| - 1) == Rewrites(segments);
  }

  ghost predicate Rewritten(segments: seq<string>, i: nat)
    requires i < |segments|
  {
    !Blank(segments[i]) && !KeptText(segments, i)
  }

  ghost function RewritesBefore(segments: seq<string>, n: nat): set<nat>
    requires n <= |segments|
  {
    set i: nat | 0 <= i < n && Rewritten(segments, i)
  }

  lemma RewritesBeforeNext(segments: seq<string>, n: nat)
    requires n < |segments|
    ensures |RewritesBefore(segments, n + 1)| == |RewritesBefore(segments, n)| + if Rewritten(segments, n) then 1 else 0
  {
    hide Rewritten;
    var extra: set<nat> := if Rewritten(segments, n) then {n} else {};
    assert RewritesBefore(segments, n + 1) == RewritesBefore(segments, n) + extra;
    assert RewritesBefore(segments, n) !! extra;
  }

  lemma TextResetsOfInit(segments: seq<string>, a: string, b: string)
    ensures TextResets(segments + [a]) == TextResets(segments + [b])
  {
    hide Blank;
    var left, right := segments + [a], segments + [b];
    assert forall i :: 0 <= i < |segments| ==> left[i] == right[i];
    forall i: nat ensures i in TextResets(left) <==> i in TextResets(right) {
    }
  }

  lemma TextResetsGrow(segments: seq<string>, visible: string)
    ensures |TextResets(segments + [visible] + [""])| ==
            |TextResets(segments + [visible])| + if Blank(visible) then 0 else 1
  {
    hide Blank;
    var small, large := segments + [visible], segments + [visible] + [""];
    assert forall i :: 0 <= i <= |segments| ==> large[i] == small[i];
    var extra: set<nat> := if Blank(visible) then {} else {|segments|};
    forall i: nat ensures i in TextResets(large) <==> i in TextResets(small) + extra {
    }
    assert TextResets(large) == TextResets(small) + extra;
    assert TextResets(small) !! extra;
  }

  // ---------------------------------------------------------------- what the segments are

  lemma FirstSegments(kind: Kind)
    ensures Segments([]) == [""]
    ensures Segments([kind]) ==
            match kind
            case Token(delta) => [delta]
            case Reset => ["", ""]
            case _ => [""]
  {
    assert [kind][..0] == [];
    if kind.Token? {
      assert [""][..0] == [] && "" + kind.delta == kind.delta;
    }
  }

  /** Two stretches of a stream read together: the open segment of the first goes on with the first segment of the second. */
  lemma {:induction false} SegmentsAppend(a: seq<Kind>, b: seq<Kind>)
    ensures var x, y := Segments(a), Segments(b);
            Segments(a + b) == x[..|x| - 1] + [x[|x| - 1] + y[0]] + y[1..]
  {
    var x := Segments(a);
    if b == [] {
      assert a + b == a && x[|x| - 1] + "" == x[|x| - 1];
    } else {
      var init, last := b[..|b| - 1], b[|b| - 1];
      assert (a + b)[..|a + b| - 1] == a + init && (a + b)[|a + b| - 1] == last;
      SegmentsAppend(a, init);
      JoinLast(x, Segments(init), last);
    }
  }

  lemma JoinLast(x: seq<string>, y: seq<string>, last: Kind)
    requires x != [] && y != []
    ensures var joined := x[..|x| - 1] + [x[|x| - 1] + y[0]] + y[1..];
            match last
            case Token(delta) =>
              var z := y[..|y| - 1] + [y[|y| - 1] + delta];
              joined[..|joined| - 1] + [joined[|joined| - 1] + delta] == x[..|x| - 1] + [x[|x| - 1] + z[0]] + z[1..]
            case Reset =>
              var z := y + [""];
              joined + [""] == x[..|x| - 1] + [x[|x| - 1] + z[0]] + z[1..]
            case _ => true
  {
    if last.Token? && |y| == 1 {
      assert x[|x| - 1] + (y[0] + last.delta) == x[|x| - 1] + y[0] + last.delta;
    }
  }

  /** A reset cuts: what comes after it does not touch what came before. */
  lemma ResetCuts(a: seq<Kind>, b: seq<Kind>)
    ensures Segments(a + [Reset] + b) == Segments(a) + Segments(b)
  {
    hide Segments;
    var x, y := Segments(a), Segments(b);
    FirstSegments(Reset);
    SegmentsAppend(a, [Reset]);
    SegmentsAppend(a + [Reset], b);
    assert x[|x| - 1] + "" == x[|x| - 1] && "" + y[0] == y[0];
    assert Segments(a + [Reset]) == x + [""];
  }

  /** Without a reset there is one segment, the deltas in stream order. */
  lemma {:induction false} OneSegment(kinds: seq<Kind>)
    requires forall i :: 0 <= i < |kinds| ==> !kinds[i].Reset?
    ensures Segments(kinds) ==
            [SseReader.Concat(seq(|kinds|, i requires 0 <= i < |kinds| => if kinds[i].Token? then kinds[i].delta else ""))]
  {
    if kinds != [] {
      var init, last := kinds[..|kinds| - 1], kinds[|kinds| - 1];
      OneSegment(init);
      var deltas := seq(|kinds|, i requires 0 <= i < |kinds| => if kinds[i].Token? then kinds[i].delta else "");
      assert deltas[..|init|] == seq(|init|, i requires 0 <= i < |init| => if init[i].Token? then init[i].delta else "");
      assert SseReader.Concat(deltas[..|init|]) + "" == SseReader.Concat(deltas[..|init|]);
    }
  }

  // ---------------------------------------------------------------- what the times are

  /** The answer ends at the first finish event. */
  lemma {:induction false} EndAtIff(events: seq<Timed>, t: int)
    ensures FinishTime(events) == Some(t) <==>
            exists i :: 0 <= i < |events| && events[i].kind.Finish? && events[i].at == t && forall j :: 0 <= j < i ==> !events[j].kind.Finish?
    ensures FinishTime(events) == None <==> forall i :: 0 <= i < |events| ==> !events[i].kind.Finish?
  {
    if events != [] {
      var init, last := events[..|events| - 1], events[|events| - 1];
      EndAtIff(init, t);
      assert forall i :: 0 <= i < |init| ==> init[i] == events[i];
      if FinishTime(init) == None && last.kind.Finish? {
        assert events[|init|] == last;
      } else if i :| 0 <= i < |init| && init[i].kind.Finish? && init[i].at == t && forall j :: 0 <= j < i ==> !init[j].kind.Finish? {
        assert events[i].kind.Finish? && events[i].at == t;
      } else if FinishTime(init).Some? {
        EndAtIff(init, FinishTime(init).value);
      }
    }
  }

  /** These are the places of the tokens that show text, and the times are theirs. */
  ghost predicate TimesAt(events: seq<Timed>, times: seq<int>, at: seq<nat>) {
    && |at| == |times| && (forall k :: 0 <= k < |at| ==> at[k] < |events| && times[k] == events[at[k]].at)
    && (forall k, l :: 0 <= k < l < |at| ==> at[k] < at[l])
    && forall i: nat :: i in at <==> i < |events| && events[i].kind.Token? && HasText(events[i].kind.delta)
  }

  /** The times are those of the tokens that show text, in stream order. */
  lemma {:induction false} TextTimesAre(events: seq<Timed>) returns (at: seq<nat>)
    ensures TimesAt(events, TextTimes(events), at)
  {
    if events == [] {
      at := [];
    } else {
      var init, last := events[..|events| - 1], events[|events| - 1];
      var before := TextTimesAre(init);
      at := before + if ShowsText(last) then [|init|] else [];
      TextTimesNext(init, last);
      TimesNext(init, last, TextTimes(init), before);
      assert events == init + [last];
    }
  }

  lemma TextTimesNext(events: seq<Timed>, last: Timed)
    ensures TextTimes(events + [last]) == TextTimes(events) + if ShowsText(last) then [last.at] else []
  {
    assert (events + [last])[..|events|] == events;
  }

  lemma TimesNext(events: seq<Timed>, last: Timed, times: seq<int>, at: seq<nat>)
    requires TimesAt(events, times, at)
    ensures if ShowsText(last) then TimesAt(events + [last], times + [last.at], at + [|events|])
            else TimesAt(events + [last], times + [], at + [])
  {
    if last.kind.Token? {
      BlankIff(last.kind.delta);
    }
    hide Blank, HasText;
    assert forall i :: 0 <= i < |events| ==> (events + [last])[i] == events[i];
    assert forall k :: 0 <= k < |at| ==> at[k] in at;
    assert times + [] == times && at + [] == at;
  }

  // ---------------------------------------------------------------- what the facts promise

  /** Only a reset that came after text can have rewritten the answer. */
  lemma RewritesAreTextResets(segments: seq<string>)
    ensures |Rewrites(segments)| <= |TextResets(segments)|
  {
    assert Rewrites(segments) <= TextResets(segments);
    SubsetSize(Rewrites(segments), TextResets(segments));
  }

  lemma SubsetSize(a: set<nat>, b: set<nat>)
    requires a <= b
    ensures |a| <= |b|
  {
    assert b == a + (b - a);
  }

  lemma TrimIsPrefixOfTrimStart(s: string)
    ensures Trim(s) <= TrimStart(s)
  {
    TrimEndPrefix(TrimStart(s));
  }

  lemma HeadReappears(before: string, after: string)
    requires Trim(before) <= Trim(after)
    ensures StartsWith(TrimStart(after), Head(before))
  {
    TrimIsPrefixOfTrimStart(after);
    assert Head(before) <= Trim(before);
  }

  /** The next text of a segment is at a later index, and nothing between has text. */
  lemma {:induction false} NextTextIs(segments: seq<string>, i: nat, j: nat)
    requires i <= j < |segments| && !Blank(segments[j])
    requires forall k :: i <= k < j ==> Blank(segments[k])
    ensures NextText(segments, i) == segments[j]
    decreases j - i
  {
    hide Blank;
    if i < j {
      assert Blank(segments[i]);
      NextTextIs(segments, i + 1, j);
    } else {
      assert NextText(segments, j) == segments[j];
    }
  }

  lemma {:induction false} NoNextText(segments: seq<string>, i: nat)
    requires forall k :: i <= k < |segments| ==> Blank(segments[k])
    ensures NextText(segments, i) == ""
    decreases |segments| - i
  {
    hide Blank;
    if i < |segments| {
      NoNextText(segments, i + 1);
    }
  }

  /** Segment `i` reappears at the start of the first text after it. */
  ghost predicate Resent(segments: seq<string>, i: nat)
    requires i < |segments|
  {
    exists j :: i < j < |segments| && !Blank(segments[j]) && (forall k :: i < k < j ==> Blank(segments[k])) &&
      StartsWith(TrimStart(segments[j]), Head(segments[i]))
  }

  lemma KeptIffResent(segments: seq<string>, i: nat)
    requires i < |segments| && !Blank(segments[i])
    ensures KeptText(segments, i) <==> Resent(segments, i)
  {
    BlankText();
    hide TrimStart, Blank, Head;
    if j :| i < j < |segments| && !Blank(segments[j]) {
      var first := FirstText(segments, i + 1, j);
      NextTextIs(segments, i + 1, first);
    } else {
      NoNextText(segments, i + 1);
      HeadOfText(segments[i]);
    }
  }

  lemma BlankText()
    ensures TrimStart("") == ""
  {
  }

  lemma HeadOfText(segment: string)
    requires !Blank(segment)
    ensures Head(segment) != ""
  {
  }

  lemma {:induction false} FirstText(segments: seq<string>, i: nat, j: nat) returns (first: nat)
    requires i <= j < |segments| && !Blank(segments[j])
    ensures i <= first <= j && !Blank(segments[first]) && forall k :: i <= k < first ==> Blank(segments[k])
    decreases j - i
  {
    hide Blank;
    if !Blank(segments[i]) {
      first := i;
    } else {
      first := FirstText(segments, i + 1, j);
    }
  }

  /** Nothing counts as rewritten exactly when every segment with text before a reset is resent by the next text. */
  lemma RewrittenZeroIff(segments: seq<string>)
    ensures Rewrites(segments) == {} <==>
            forall i :: 0 <= i < |segments| - 1 && !Blank(segments[i]) ==> Resent(segments, i)
  {
    forall i | 0 <= i < |segments| - 1 && !Blank(segments[i])
      ensures KeptText(segments, i) <==> Resent(segments, i)
    {
      KeptIffResent(segments, i);
    }
    if Rewrites(segments) == {} {
      forall i | 0 <= i < |segments| - 1 && !Blank(segments[i]) ensures Resent(segments, i) {
        assert i !in Rewrites(segments);
      }
    }
  }

  /** The segment shows something. */
  predicate HasText(segment: string) {
    exists c :: 0 <= c < |segment| && !IsSpace(segment[c])
  }

  /** Where text first shows, if anywhere. */
  lemma {:induction false} FirstWithText(segments: seq<string>, i: nat) returns (first: nat)
    requires i <= |segments|
    ensures i <= first <= |segments| && (forall k :: i <= k < first ==> !HasText(segments[k]))
    ensures first < |segments| ==> HasText(segments[first])
    ensures NextText(segments, i) == if first < |segments| then segments[first] else ""
    decreases |segments| - i
  {
    hide HasText, Blank;
    if i == |segments| {
      first := i;
    } else {
      TextIff(segments[i]);
      if HasText(segments[i]) {
        first := i;
      } else {
        first := FirstWithText(segments, i + 1);
      }
    }
  }

  lemma TextIff(segment: string)
    ensures HasText(segment) <==> !Blank(segment)
  {
    BlankIff(segment);
  }

  /**
   * The facts of a stream, in terms of its segments and events: `first` is the first segment with text, `resets` are the segments with text that a reset ended,
   * `rewrites` those of them whose start is not resent by the next text, and `at` the places of the text tokens.
   */
  lemma FactsMean(facts: Facts, events: seq<Timed>) returns (first: nat, resets: set<nat>, rewrites: set<nat>, at: seq<nat>)
    requires AreFacts(facts, events)
    ensures var segments := Segments(Kinds(events));
            && facts.resetsAfterText == |resets| && (forall i: nat :: i in resets <==> i < |segments| - 1 && HasText(segments[i]))
            && facts.rewritten == |rewrites| && (forall i: nat :: i in rewrites <==> i in resets && !Resent(segments, i))
    ensures var segments := Segments(Kinds(events));
            && first <= |segments| && (forall k :: 0 <= k < first ==> !HasText(segments[k])) && (first < |segments| ==> HasText(segments[first]))
            && facts.firstParagraph == FirstParagraph(if first < |segments| then segments[first] else "")
    ensures |at| == |facts.tokenTimes| && forall k :: 0 <= k < |at| ==> at[k] < |events| && facts.tokenTimes[k] == events[at[k]].at
    ensures forall k, l :: 0 <= k < l < |at| ==> at[k] < at[l]
    ensures forall i: nat :: i in at <==> i < |events| && events[i].kind.Token? && HasText(events[i].kind.delta)
    ensures facts.firstTokenAt == if at == [] then None else Some(events[at[0]].at)
    ensures facts.endAt.Some? ==>
              exists i :: 0 <= i < |events| && events[i].kind.Finish? && events[i].at == facts.endAt.value && forall j :: 0 <= j < i ==> !events[j].kind.Finish?
    ensures facts.endAt == None <==> forall i :: 0 <= i < |events| ==> !events[i].kind.Finish?
  {
    hide Segments, KeptText, Resent, Blank;
    var segments := Segments(Kinds(events));
    first := FirstWithText(segments, 0);
    resets, rewrites := TextResets(segments), Rewrites(segments);
    forall i: nat ensures i in resets <==> i < |segments| - 1 && HasText(segments[i]) {
      if i < |segments| - 1 {
        BlankIff(segments[i]);
      }
    }
    forall i: nat ensures i in rewrites <==> i in resets && !Resent(segments, i) {
      if i < |segments| - 1 && !Blank(segments[i]) {
        KeptIffResent(segments, i);
      }
    }
    at := TextTimesAre(events);
    if facts.endAt.Some? {
      EndAtIff(events, facts.endAt.value);
    } else {
      EndAtIff(events, 0);
    }
  }

  /** A stream that ends with text and whose texts each extend the ones before rewrote nothing. */
  lemma ResendingKeeps(segments: seq<string>)
    requires segments != [] && !Blank(segments[|segments| - 1])
    requires forall i, j :: 0 <= i < j < |segments| && !Blank(segments[j]) ==> Trim(segments[i]) <= Trim(segments[j])
    ensures Rewrites(segments) == {}
  {
    forall i | 0 <= i < |segments| - 1 && !Blank(segments[i]) ensures Resent(segments, i) {
      var j := FirstText(segments, i + 1, |segments| - 1);
      HeadReappears(segments[i], segments[j]);
    }
    RewrittenZeroIff(segments);
  }

  function Decoded(decode: SseReader.SseEvent -> Kind, events: seq<SseReader.SseEvent>): seq<Kind> {
    seq(|events|, i requires 0 <= i < |events| => decode(events[i]))
  }

  /** These facts are of a stream that arrived in these chunks, at any times; `decode` parses an event's data. */
  ghost predicate FactsOfChunks(decode: SseReader.SseEvent -> Kind, chunks: seq<string>, events: seq<Timed>, facts: Facts) {
    Kinds(events) == Decoded(decode, SseReader.Fed(chunks).0) && AreFacts(facts, events)
  }

  /** The facts as if everything had been read at once. */
  function Untimed(facts: Facts): Facts {
    facts.(endAt := None, firstTokenAt := None, tokenTimes := [])
  }

  /** Two chunkings of one stream give the same facts but for the times, and as many times. */
  lemma FactsIgnoreChunking(decode: SseReader.SseEvent -> Kind, left: seq<string>, leftEvents: seq<Timed>, leftFacts: Facts,
                            right: seq<string>, rightEvents: seq<Timed>, rightFacts: Facts)
    requires SseReader.Concat(left) == SseReader.Concat(right)
    requires SseReader.NoDrop(left) && SseReader.NoDrop(right)
    requires FactsOfChunks(decode, left, leftEvents, leftFacts) && FactsOfChunks(decode, right, rightEvents, rightFacts)
    ensures Untimed(leftFacts) == Untimed(rightFacts)
    ensures |leftFacts.tokenTimes| == |rightFacts.tokenTimes| && leftFacts.endAt.None? == rightFacts.endAt.None?
    ensures leftFacts.firstTokenAt.None? == rightFacts.firstTokenAt.None?
  {
    hide AreFacts, Untimed, SseReader.Fed, SseReader.NoDrop, SseReader.Concat;
    SseReader.ChunkingIndependent(left);
    SseReader.ChunkingIndependent(right);
    SameKindsSameFacts(leftEvents, leftFacts, rightEvents, rightFacts);
  }

  lemma SameKindsSameFacts(left: seq<Timed>, leftFacts: Facts, right: seq<Timed>, rightFacts: Facts)
    requires Kinds(left) == Kinds(right) && AreFacts(leftFacts, left) && AreFacts(rightFacts, right)
    ensures Untimed(leftFacts) == Untimed(rightFacts)
    ensures |leftFacts.tokenTimes| == |rightFacts.tokenTimes| && leftFacts.endAt.None? == rightFacts.endAt.None?
    ensures leftFacts.firstTokenAt.None? == rightFacts.firstTokenAt.None?
  {
    SameKindsSameTimes(left, right);
  }

  lemma {:induction false} SameKindsSameTimes(left: seq<Timed>, right: seq<Timed>)
    requires Kinds(left) == Kinds(right)
    ensures |TextTimes(left)| == |TextTimes(right)| && FinishTime(left).None? == FinishTime(right).None?
  {
    assert |left| == |Kinds(left)| == |Kinds(right)| == |right|;
    if left != [] {
      var last := |left| - 1;
      assert left[last].kind == Kinds(left)[last] == Kinds(right)[last] == right[last].kind;
      forall i | 0 <= i < last ensures Kinds(left[..last])[i] == Kinds(right[..last])[i] {
        assert Kinds(left)[i] == Kinds(right)[i];
      }
      SameKindsSameTimes(left[..last], right[..last]);
    }
  }
}
