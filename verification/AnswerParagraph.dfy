/** The first paragraph of an answer's text: texts are split at blank lines, and headings and short pieces passed over. */
module AnswerParagraph {
  import opened JsText
  import opened Wrappers

  /** At most this much of a text is matched. */
  const MATCH_MAX := 300

  /** A shorter paragraph is not looked for again. */
  const PARAGRAPH_MIN := 120

  function SpaceEnd(text: string, i: nat): (e: nat)
    requires i <= |text|
    ensures i <= e <= |text| && (forall k :: i <= k < e ==> IsSpace(text[k])) && (e < |text| ==> !IsSpace(text[e]))
    decreases |text| - i
  {
    if i < |text| && IsSpace(text[i]) then SpaceEnd(text, i + 1) else i
  }

  function LastFeed(text: string, i: nat, e: nat): (j: Option<nat>)
    requires i <= e <= |text|
    ensures j.Some? ==> i <= j.value < e && text[j.value] == '\n'
    ensures forall k :: i <= k < e && text[k] == '\n' ==> j.Some? && k <= j.value
    decreases e - i
  {
    if i == e then None else if text[e - 1] == '\n' then Some(e - 1) else LastFeed(text, i, e - 1)
  }

  /** Where the break that starts at a line feed ends: at the last line feed of the white space after it, if there is one. */
  function BreakEnd(text: string, i: nat): (end: Option<nat>)
    requires i < |text|
    ensures end.Some? ==> i + 1 < end.value <= |text|
  {
    if text[i] != '\n' then None
    else
      var last := LastFeed(text, i + 1, SpaceEnd(text, i + 1));
      if last.Some? then Some(last.value + 1) else None
  }

  /** The stretches between breaks; the one being read started at `from`. */
  function Paragraphs(text: string, from: nat, i: nat): seq<(nat, nat)>
    requires from <= i <= |text|
    decreases |text| - i
  {
    if i == |text| then [(from, i)]
    else if BreakEnd(text, i).Some? then [(from, i)] + Paragraphs(text, BreakEnd(text, i).value, BreakEnd(text, i).value)
    else Paragraphs(text, from, i + 1)
  }

  predicate LongEnough(part: string) {
    |part| >= PARAGRAPH_MIN && !StartsWith(part, "#")
  }

  function FirstLong(parts: seq<string>): Option<string> {
    if parts == [] then None else if LongEnough(Trim(parts[0])) then Some(Trim(parts[0])) else FirstLong(parts[1..])
  }

  predicate Within(text: string, p: (nat, nat)) {
    p.0 <= p.1 <= |text|
  }

  predicate Inside(text: string, spans: seq<(nat, nat)>) {
    forall i :: 0 <= i < |spans| ==> Within(text, spans[i])
  }

  function PartsOf(text: string, spans: seq<(nat, nat)>): seq<string>
    requires Inside(text, spans)
  {
    seq(|spans|, i requires 0 <= i < |spans| => text[spans[i].0..spans[i].1])
  }

  function Shortened(p: string): string {
    if |p| > MATCH_MAX then p[..MATCH_MAX] else p
  }

  /** The pieces of the text between its breaks. */
  function Pieces(text: string): (pieces: seq<string>)
    ensures |pieces| == |Paragraphs(text, 0, 0)|
  {
    ParagraphsUnbroken(text, 0, 0);
    PartsOf(text, Paragraphs(text, 0, 0))
  }

  function FirstParagraph(text: string): Option<string> {
    match FirstLong(Pieces(text))
    case Some(p) => Some(Shortened(p))
    case None => None
  }

  /** Between two line feeds of the stretch there is always more than white space. */
  predicate Unbroken(text: string, from: nat, to: nat)
    requires from <= to <= |text|
  {
    forall i, j :: from <= i < j < to && text[i] == '\n' && text[j] == '\n' ==> exists k :: i < k < j && !IsSpace(text[k])
  }

  ghost predicate AllUnbroken(text: string, spans: seq<(nat, nat)>) {
    Inside(text, spans) && forall i :: 0 <= i < |spans| ==> Unbroken(text, spans[i].0, spans[i].1)
  }

  lemma AllUnbrokenNext(text: string, p: (nat, nat), spans: seq<(nat, nat)>)
    requires Within(text, p) && Unbroken(text, p.0, p.1) && AllUnbroken(text, spans)
    ensures AllUnbroken(text, [p] + spans)
  {
    hide Unbroken;
    forall i | 0 <= i < |[p] + spans| ensures Within(text, ([p] + spans)[i]) && Unbroken(text, ([p] + spans)[i].0, ([p] + spans)[i].1) {
      if i > 0 {
        assert Within(text, spans[i - 1]);
      }
    }
  }

  lemma NoBreakUnbroken(text: string, from: nat, to: nat)
    requires from <= to <= |text| && forall i :: from <= i < to ==> BreakEnd(text, i) == None
    ensures Unbroken(text, from, to)
  {
    forall i, j | from <= i < j < to && text[i] == '\n' && text[j] == '\n' ensures exists k :: i < k < j && !IsSpace(text[k]) {
      hide BreakEnd;
      FeedsApart(text, i, j);
    }
  }

  lemma FeedsApart(text: string, i: nat, j: nat)
    requires i < j < |text| && text[i] == '\n' && text[j] == '\n' && BreakEnd(text, i) == None
    ensures exists k :: i < k < j && !IsSpace(text[k])
  {
    hide SpaceEnd, LastFeed;
    var e := SpaceEnd(text, i + 1);
    var last := LastFeed(text, i + 1, e);
    assert last == None;
    assert IsSpace('\n');
    hide IsSpace;
    assert !IsSpace(text[e]);
  }

  /** No paragraph is broken by a blank line. */
  lemma {:induction false} ParagraphsUnbroken(text: string, from: nat, i: nat)
    requires from <= i <= |text| && forall k :: from <= k < i ==> BreakEnd(text, k) == None
    ensures AllUnbroken(text, Paragraphs(text, from, i))
    decreases |text| - i
  {
    NoBreakUnbroken(text, from, i);
    hide Unbroken, AllUnbroken, BreakEnd, Inside;
    if i == |text| {
      OneUnbroken(text, from);
    } else {
      var end := BreakEnd(text, i);
      if end.Some? {
        ParagraphsUnbroken(text, end.value, end.value);
        AllUnbrokenNext(text, (from, i), Paragraphs(text, end.value, end.value));
      } else {
        ParagraphsUnbroken(text, from, i + 1);
      }
    }
  }

  lemma OneUnbroken(text: string, from: nat)
    requires from <= |text| && Unbroken(text, from, |text|)
    ensures AllUnbroken(text, [(from, |text|)])
  {
  }

  predicate Covers(spans: seq<(nat, nat)>, k: nat) {
    exists i :: 0 <= i < |spans| && spans[i].0 <= k < spans[i].1
  }

  lemma CoversNext(p: (nat, nat), spans: seq<(nat, nat)>, k: nat)
    requires p.0 <= k < p.1 || Covers(spans, k)
    ensures Covers([p] + spans, k)
  {
    var all := [p] + spans;
    if p.0 <= k < p.1 {
      assert all[0] == p;
    } else {
      var i :| 0 <= i < |spans| && spans[i].0 <= k < spans[i].1;
      assert all[i + 1] == spans[i];
    }
  }

  /** Nothing but white space is lost between the paragraphs. */
  lemma {:induction false} ParagraphsCover(text: string, from: nat, i: nat, k: nat)
    requires from <= i <= |text| && from <= k < |text| && !IsSpace(text[k])
    ensures Covers(Paragraphs(text, from, i), k)
    decreases |text| - i
  {
    hide Covers;
    var none: seq<(nat, nat)> := [];
    if i == |text| {
      CoversNext((from, i), none, k);
      assert [(from, i)] + none == Paragraphs(text, from, i);
    } else {
      var end := BreakEnd(text, i);
      if end.Some? {
        assert IsSpace('\n');
        if k >= end.value {
          ParagraphsCover(text, end.value, end.value, k);
        }
        CoversNext((from, i), Paragraphs(text, end.value, end.value), k);
      } else {
        ParagraphsCover(text, from, i + 1, k);
      }
    }
  }

  /** A line feed and another with only white space between them, and no further one in the white space that follows. */
  predicate IsBreak(text: string, from: nat, to: nat) {
    && from + 1 < to <= |text| && text[from] == '\n' && text[to - 1] == '\n' && (forall k :: from <= k < to ==> IsSpace(text[k]))
    && forall k :: to <= k < |text| && text[k] == '\n' ==> exists l :: to <= l < k && !IsSpace(text[l])
  }

  /** The pieces run from the start to the end of the text with a break between any two. */
  ghost predicate Apart(text: string, spans: seq<(nat, nat)>, from: nat) {
    && spans != [] && spans[0].0 == from && spans[|spans| - 1].1 == |text|
    && forall k :: 0 <= k < |spans| - 1 ==> IsBreak(text, spans[k].1, spans[k + 1].0)
  }

  lemma BreakIs(text: string, i: nat)
    requires i < |text| && BreakEnd(text, i).Some?
    ensures IsBreak(text, i, BreakEnd(text, i).value)
  {
    hide SpaceEnd, LastFeed;
    var e := SpaceEnd(text, i + 1);
    var last := LastFeed(text, i + 1, e);
    assert BreakEnd(text, i) == Some(last.value + 1);
    assert IsSpace('\n');
    hide IsSpace, BreakEnd;
    forall k | last.value + 1 <= k < |text| && text[k] == '\n' ensures exists l :: last.value + 1 <= l < k && !IsSpace(text[l]) {
      FeedAfter(text, last.value + 1, e, k);
    }
  }

  lemma FeedAfter(text: string, end: nat, e: nat, k: nat)
    requires end <= e <= |text| && (e < |text| ==> !IsSpace(text[e])) && IsSpace('\n')
    requires end <= k < |text| && text[k] == '\n' && !(k < e)
    ensures exists l :: end <= l < k && !IsSpace(text[l])
  {
    hide IsSpace;
    assert !IsSpace(text[e]);
  }

  lemma {:induction false} PiecesApart(text: string, from: nat, i: nat)
    requires from <= i <= |text|
    ensures Apart(text, Paragraphs(text, from, i), from)
    decreases |text| - i
  {
    if i < |text| {
      hide IsBreak, BreakEnd;
      var end := BreakEnd(text, i);
      if end.Some? {
        PiecesApart(text, end.value, end.value);
        BreakIs(text, i);
        ApartNext(text, (from, i), Paragraphs(text, end.value, end.value), end.value);
      } else {
        PiecesApart(text, from, i + 1);
      }
    }
  }

  lemma ApartNext(text: string, p: (nat, nat), spans: seq<(nat, nat)>, from: nat)
    requires Apart(text, spans, from) && IsBreak(text, p.1, from)
    ensures Apart(text, [p] + spans, p.0)
  {
    hide IsBreak;
    var all := [p] + spans;
    forall k | 0 <= k < |all| - 1 ensures IsBreak(text, all[k].1, all[k + 1].0) {
      if k > 0 {
        assert all[k] == spans[k - 1] && all[k + 1] == spans[k];
      }
    }
  }

  lemma {:induction false} FirstLongIs(parts: seq<string>) returns (i: nat)
    ensures i <= |parts| && (forall k :: 0 <= k < i ==> !LongEnough(Trim(parts[k])))
    ensures if i < |parts| then LongEnough(Trim(parts[i])) && FirstLong(parts) == Some(Trim(parts[i])) else FirstLong(parts) == None
  {
    hide LongEnough, Trim;
    if parts == [] || LongEnough(Trim(parts[0])) {
      i := 0;
    } else {
      var later := FirstLongIs(parts[1..]);
      i := later + 1;
    }
  }

  lemma {:induction false} TrimStartAt(s: string) returns (at: nat)
    ensures at <= |s| && TrimStart(s) == s[at..] && (at < |s| ==> !IsSpace(s[at]))
  {
    if s != "" && IsSpace(s[0]) {
      var later := TrimStartAt(s[1..]);
      at := later + 1;
    } else {
      at := 0;
    }
  }

  /** The text of a stretch of `text`, which no blank line breaks, and which starts with neither white space nor a heading's mark. */
  ghost predicate IsParagraph(text: string, p: string, at: nat) {
    && at + |p| <= |text| && p == text[at..at + |p|] && Unbroken(text, at, at + |p|)
    && PARAGRAPH_MIN <= |p| <= MATCH_MAX && !IsSpace(p[0]) && p[0] != '#'
  }

  lemma TrimmedParagraph(text: string, from: nat, to: nat) returns (at: nat)
    requires from <= to <= |text| && Unbroken(text, from, to) && LongEnough(Trim(text[from..to]))
    ensures IsParagraph(text, Shortened(Trim(text[from..to])), at) && from <= at < to
  {
    hide TrimEnd;
    var part := text[from..to];
    var start := TrimStartAt(part);
    TrimEndPrefix(TrimStart(part));
    at := from + start;
    StartOfStretch(text, from, to, at, Trim(part));
  }

  lemma StartOfStretch(text: string, from: nat, to: nat, at: nat, part: string)
    requires from <= at < to <= |text| && Unbroken(text, from, to) && part <= text[at..to] && LongEnough(part) && !IsSpace(text[at])
    ensures IsParagraph(text, Shortened(part), at)
  {
    var p := Shortened(part);
    assert p <= text[at..to];
    assert p == text[at..at + |p|];
    assert p[0] == text[at];
    assert part[0] == '#' ==> "#" <= part;
  }

  lemma ShortenedIs()
    ensures forall p: string :: Shortened(p) <= p && |Shortened(p)| <= 300 && (|Shortened(p)| == 300 || Shortened(p) == p)
  {
  }

  lemma LongIff()
    ensures forall p: string :: LongEnough(p) <==> |p| >= 120 && p[0] != '#'
  {
    forall p: string ensures LongEnough(p) <==> |p| >= 120 && p[0] != '#' {
      if |p| > 0 && p[0] == '#' {
        assert "#" <= p;
      }
    }
  }

  /** Each piece ends before the next begins. */
  ghost predicate InOrder(spans: seq<(nat, nat)>) {
    forall i, j :: 0 <= i < j < |spans| ==> spans[i].1 < spans[j].0
  }

  ghost predicate StartFrom(spans: seq<(nat, nat)>, from: nat) {
    forall i :: 0 <= i < |spans| ==> from <= spans[i].0
  }

  lemma InOrderNext(p: (nat, nat), spans: seq<(nat, nat)>, from: nat)
    requires InOrder(spans) && StartFrom(spans, from) && p.0 <= p.1 < from
    ensures InOrder([p] + spans) && StartFrom([p] + spans, p.0)
  {
    var all := [p] + spans;
    assert forall i :: 0 < i < |all| ==> all[i] == spans[i - 1];
  }

  lemma {:induction false} ParagraphsInOrder(text: string, from: nat, i: nat)
    requires from <= i <= |text|
    ensures InOrder(Paragraphs(text, from, i)) && StartFrom(Paragraphs(text, from, i), from)
    decreases |text| - i
  {
    if i < |text| {
      hide BreakEnd, InOrder, StartFrom;
      var end := BreakEnd(text, i);
      if end.Some? {
        ParagraphsInOrder(text, end.value, end.value);
        InOrderNext((from, i), Paragraphs(text, end.value, end.value), end.value);
      } else {
        ParagraphsInOrder(text, from, i + 1);
      }
    }
  }

  /**
   * The first paragraph is the start of the first piece that is long enough and no heading, an unbroken stretch of the text;
   * there is none exactly when no piece is.
   */
  lemma FirstParagraphMeans(text: string) returns (i: nat, at: nat)
    ensures i <= |Pieces(text)| && forall k :: 0 <= k < i ==> |Trim(Pieces(text)[k])| < 120 || Trim(Pieces(text)[k])[0] == '#'
    ensures FirstParagraph(text).Some? <==> i < |Pieces(text)|
    ensures InOrder(Paragraphs(text, 0, 0)) && Apart(text, Paragraphs(text, 0, 0), 0)
    ensures FirstParagraph(text).Some? ==>
              Paragraphs(text, 0, 0)[i].0 <= at < Paragraphs(text, 0, 0)[i].1 &&
              |Trim(Pieces(text)[i])| >= 120 && Trim(Pieces(text)[i])[0] != '#' &&
              FirstParagraph(text).value <= Trim(Pieces(text)[i]) &&
              (|FirstParagraph(text).value| == 300 || FirstParagraph(text).value == Trim(Pieces(text)[i])) &&
              IsParagraph(text, FirstParagraph(text).value, at)
  {
    ParagraphsUnbroken(text, 0, 0);
    ParagraphsInOrder(text, 0, 0);
    PiecesApart(text, 0, 0);
    ShortenedIs();
    LongIff();
    var spans := Paragraphs(text, 0, 0);
    hide Paragraphs, FirstLong, Unbroken, IsParagraph, LongEnough, Trim, Shortened, InOrder, Apart;
    i := FirstLongIs(Pieces(text));
    at := 0;
    if i < |Pieces(text)| {
      assert Within(text, spans[i]);
      at := TrimmedParagraph(text, spans[i].0, spans[i].1);
    }
  }
}
