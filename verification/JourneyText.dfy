/** The texts of a context-compaction journey: how long prose gets, how a message is made to fit, and how far a filler carries the measure. */
module JourneyText {
  import opened Wrappers

  const MAX_MESSAGE_BYTES: nat := 896 * 1024
  const ANSWER_TOKENS: nat := 2048
  const FILLER_MIN: nat := 256
  const MIN_WINDOW: nat := 262144
  const MAX_WINDOW: nat := 1000000
  const PARAGRAPHS: nat := 4096
  const ATTEMPTS: nat := 8

  // ---------------------------------------------------------------- prose

  /** The paragraphs of a seed in order, and the estimator. */
  datatype Source = Source(paragraph: nat -> string, estimate: string -> int) {
    function Tokens(i: nat): (t: nat)
      ensures t >= 1 && t >= estimate(paragraph(i)) && (t == 1 || t == estimate(paragraph(i)))
    {
      var e := estimate(paragraph(i));
      if e < 1 then 1 else e
    }

    function Total(n: nat): nat {
      if n == 0 then 0 else Total(n - 1) + Tokens(n - 1)
    }

    function Take(n: nat): seq<string> {
      seq(n, i requires 0 <= i < n => paragraph(i))
    }

    /** The first number of paragraphs from `n` on that reaches the target, or the ceiling. */
    function Reaching(target: int, n: nat): nat
      requires n <= PARAGRAPHS
      decreases PARAGRAPHS - n
    {
      if n == PARAGRAPHS || Total(n) >= target then n else Reaching(target, n + 1)
    }
  }

  /** As few paragraphs as reach the target, and no more than the ceiling. */
  method Prose(source: Source, target: int) returns (paragraphs: seq<string>)
    ensures |paragraphs| <= 4096 && forall i :: 0 <= i < |paragraphs| ==> paragraphs[i] == source.paragraph(i)
    ensures |paragraphs| == source.Reaching(target, 0)
    ensures target <= source.Total(|paragraphs|) || |paragraphs| == 4096
    ensures forall n: nat :: n < |paragraphs| ==> source.Total(n) < target
  {
    paragraphs := [];
    var tokens := 0;
    var index := 0;
    hide Source.Tokens, Source.Take, Source.Reaching;
    assert source.Take(0) == [] by { TakeNone(source); }
    while tokens < target && index < PARAGRAPHS
      invariant index <= PARAGRAPHS && paragraphs == source.Take(index) && tokens == source.Total(index)
      invariant source.Reaching(target, 0) == source.Reaching(target, index)
      invariant forall n: nat :: n < index ==> source.Total(n) < target
      decreases PARAGRAPHS - index
    {
      OneMore(source, target, index);
      paragraphs := paragraphs + [source.paragraph(index)];
      tokens := tokens + source.Tokens(index);
      index := index + 1;
    }
    Enough(source, target, index);
    TakeIs(source, index);
  }

  lemma TakeIs(source: Source, n: nat)
    ensures forall i :: 0 <= i < n ==> source.Take(n)[i] == source.paragraph(i)
  {
  }

  lemma Enough(source: Source, target: int, n: nat)
    requires n <= PARAGRAPHS && (target <= source.Total(n) || n == PARAGRAPHS)
    ensures source.Reaching(target, n) == n && |source.Take(n)| == n
  {
  }

  lemma TakeNone(source: Source)
    ensures source.Take(0) == []
  {
  }

  lemma OneMore(source: Source, target: int, n: nat)
    requires n < PARAGRAPHS && source.Total(n) < target
    ensures source.Reaching(target, n) == source.Reaching(target, n + 1) && source.Take(n + 1) == source.Take(n) + [source.paragraph(n)]
  {
  }

  lemma {:induction false} TotalGrows(source: Source, n: nat)
    ensures source.Total(n) >= n
  {
    if n > 0 {
      TotalGrows(source, n - 1);
    }
  }

  /** The prose overshoots a positive target by less than its last paragraph, and falls short only of a target past the ceiling. */
  lemma ProseOvershoot(source: Source, target: int, paragraphs: seq<string>, longest: nat)
    requires |paragraphs| <= PARAGRAPHS && (target <= source.Total(|paragraphs|) || |paragraphs| == PARAGRAPHS)
    requires forall n: nat :: n < |paragraphs| ==> source.Total(n) < target
    requires forall i: nat :: source.Tokens(i) <= longest
    ensures target <= 0 ==> source.Total(|paragraphs|) == 0
    ensures target > 0 ==> source.Total(|paragraphs|) < target + longest
    ensures target <= PARAGRAPHS ==> target <= source.Total(|paragraphs|)
  {
    TotalGrows(source, |paragraphs|);
    assert source.Total(0) == 0;
    if |paragraphs| > 0 {
      assert source.Total(|paragraphs| - 1) < target;
      assert source.Tokens(|paragraphs| - 1) <= longest;
    }
  }

  // ---------------------------------------------------------------- fitting a message

  function Floor(n: nat, d: nat): nat
    requires d > 0
  {
    n / d
  }

  function Times(a: nat, b: nat): nat {
    a * b
  }

  function Scaled(target: nat, bytes: nat): nat
    requires bytes > 0
  {
    Floor(Times(target, MAX_MESSAGE_BYTES * 98), bytes * 100)
  }

  /** The next target after a text of `bytes`, scaled down to fit with two per cent to spare. */
  function Shrunk(target: nat, bytes: nat): (t: nat)
    requires bytes > MAX_MESSAGE_BYTES
    ensures t <= target
  {
    ScaledBound(target, bytes);
    Scaled(target, bytes)
  }

  lemma Product(a: nat, b: nat, c: nat)
    requires b <= c
    ensures a * b <= a * c
  {
  }

  lemma Above(d: nat, q: nat, m: nat)
    requires m > q
    ensures d * m >= q * d + d
  {
    Product(d, q + 1, m);
    assert d * (q + 1) == q * d + d;
  }

  lemma Divides(n: nat, d: nat)
    requires d > 0
    ensures d * (n / d) <= n
  {
  }

  lemma Quotient(n: nat, d: nat, q: nat)
    requires d > 0 && n <= q * d
    ensures n / d <= q
  {
    Divides(n, d);
    if n / d > q {
      Above(d, q, n / d);
    }
  }

  lemma ScaledBound(target: nat, bytes: nat)
    requires bytes > MAX_MESSAGE_BYTES
    ensures Scaled(target, bytes) <= target
  {
    Product(target, MAX_MESSAGE_BYTES * 98, bytes * 100);
    Quotient(Times(target, MAX_MESSAGE_BYTES * 98), bytes * 100, target);
  }

  datatype Builder = Builder(build: nat -> string, size: string -> nat) {
    predicate Fits(target: nat) {
      size(build(target)) <= MAX_MESSAGE_BYTES
    }

    /** The target of attempt `k`, if the attempts before it were all too large. */
    function Target(tokens: nat, k: nat): (t: nat)
      ensures t <= tokens
    {
      if k == 0 then tokens
      else
        var t := Target(tokens, k - 1);
        if Fits(t) then t else Shrunk(t, size(build(t)))
    }
  }

  /** Attempts start at the target itself, and a text that is too large takes the next to 98 per cent of what would fit, rounded down. */
  lemma TargetIs(b: Builder, tokens: nat, k: nat)
    ensures b.Target(tokens, 0) == tokens
    ensures var t, next := b.Target(tokens, k), b.Target(tokens, k + 1);
            var bytes := b.size(b.build(t));
            bytes > 917504 ==> next * (bytes * 100) <= t * (917504 * 98) < (next + 1) * (bytes * 100)
  {
    var t := b.Target(tokens, k);
    var bytes := b.size(b.build(t));
    if bytes > MAX_MESSAGE_BYTES {
      assert b.Target(tokens, k + 1) == Shrunk(t, bytes) == Scaled(t, bytes);
      Quotients(Times(t, MAX_MESSAGE_BYTES * 98), bytes * 100);
    }
  }

  lemma Quotients(n: nat, d: nat)
    requires d > 0
    ensures Floor(n, d) * d <= n < (Floor(n, d) + 1) * d
  {
  }

  /** The target of the first attempt that fits, among eight. */
  ghost predicate Fitted(b: Builder, tokens: nat, target: nat) {
    exists k: nat :: k < 8 && b.Target(tokens, k) == target && b.size(b.build(target)) <= 917504 &&
      forall j: nat :: j < k ==> b.size(b.build(b.Target(tokens, j))) > 917504
  }

  /** No attempt fits. */
  ghost predicate Unsendable(b: Builder, tokens: nat) {
    forall target: nat :: !Fitted(b, tokens, target)
  }

  /** The first attempt's text that fits, or nothing after eight that do not. */
  method BoundedMessage(b: Builder, tokens: nat) returns (text: Option<string>, ghost target: nat)
    ensures text.Some? ==> text.value == b.build(target) && Fitted(b, tokens, target) && target <= tokens
    ensures text.None? <==> forall k :: 0 <= k < ATTEMPTS ==> !b.Fits(b.Target(tokens, k))
    ensures text.None? ==> Unsendable(b, tokens)
  {
    var size := tokens;
    target := tokens;
    for attempt := 0 to ATTEMPTS
      invariant size == b.Target(tokens, attempt)
      invariant forall j :: 0 <= j < attempt ==> !b.Fits(b.Target(tokens, j))
    {
      var candidate := b.build(size);
      var bytes := b.size(candidate);
      if bytes <= MAX_MESSAGE_BYTES {
        target := size;
        return Some(candidate), target;
      }
      size := Shrunk(size, bytes);
    }
    return None, target;
  }

  /** A text that fits at once is not made smaller; one that does not fits at the second attempt if its bytes for a token grow by at most 1/49. */
  lemma SecondAttemptFits(b: Builder, tokens: nat)
    requires tokens > 0 && !b.Fits(tokens)
    requires b.size(b.build(b.Target(tokens, 1))) * tokens * 98 <= b.size(b.build(tokens)) * b.Target(tokens, 1) * 100
    ensures b.Fits(b.Target(tokens, 1))
  {
    var bytes := b.size(b.build(tokens));
    var t := Shrunk(tokens, bytes);
    assert b.Target(tokens, 0) == tokens;
    assert b.Target(tokens, 1) == t;
    RateBound(b.size(b.build(t)), tokens, bytes, t);
  }

  lemma RateBound(smaller: nat, tokens: nat, bytes: nat, t: nat)
    requires tokens > 0 && bytes > MAX_MESSAGE_BYTES && t == Scaled(tokens, bytes)
    requires smaller * tokens * 98 <= bytes * t * 100
    ensures smaller <= MAX_MESSAGE_BYTES
  {
    Divides(Times(tokens, MAX_MESSAGE_BYTES * 98), bytes * 100);
    assert Times(tokens, MAX_MESSAGE_BYTES * 98) == tokens * MAX_MESSAGE_BYTES * 98;
    Rearranged(bytes, t);
    if smaller > MAX_MESSAGE_BYTES {
      Above(tokens, MAX_MESSAGE_BYTES, smaller);
    }
  }

  lemma Rearranged(bytes: nat, t: nat)
    ensures bytes * t * 100 == bytes * 100 * t
  {
  }

  // ---------------------------------------------------------------- the 72-85 % band

  /** The measure has passed 72 per cent of the budget, so a filler is minimal. */
  predicate PastTrigger(measure: nat, budget: nat) {
    100 * measure >= 72 * budget
  }

  /** The next request waits for a summary. */
  predicate PastSwap(measure: nat, budget: nat) {
    100 * measure >= 85 * budget
  }

  function NextFiller(measure: nat, budget: nat): nat {
    if PastTrigger(measure, budget) then FILLER_MIN
    else if budget * 6 / 100 > FILLER_MIN then budget * 6 / 100 else FILLER_MIN
  }

  /** A filler is minimal from 72 per cent of the budget on, and before that a step of six, rounded down, but not less. */
  lemma NextFillerIs(measure: nat, budget: nat)
    ensures 256 <= NextFiller(measure, budget)
    ensures 100 * measure >= 72 * budget ==> NextFiller(measure, budget) == 256
    ensures 100 * measure < 72 * budget ==> 6 * budget < 100 * NextFiller(measure, budget) + 100
    ensures NextFiller(measure, budget) > 256 ==> 100 * measure < 72 * budget && 100 * NextFiller(measure, budget) <= 6 * budget
  {
  }

  function EngineTokens(window: nat, reserved: nat): nat {
    if window < reserved then 0 else window - reserved
  }

  /** A filler of header and prose, as its estimator counts it: the prose makes up what the header leaves of the target. */
  ghost predicate FillerAdds(added: nat, target: nat, header: nat, longest: nat) {
    added < (if target > header then target else header) + longest
  }

  /** What a filler of this target weighs: its header, and prose for what the header leaves of the target. */
  function FillerTokens(source: Source, header: nat, target: nat): nat {
    header + source.Total(source.Reaching(if target > header then target - header else 0, 0))
  }

  lemma {:induction false} ReachingIs(source: Source, target: int, n: nat)
    requires n <= PARAGRAPHS && forall k: nat :: k < n ==> source.Total(k) < target
    ensures var m := source.Reaching(target, n);
            && n <= m <= PARAGRAPHS && (target <= source.Total(m) || m == PARAGRAPHS)
            && forall k: nat :: k < m ==> source.Total(k) < target
    decreases PARAGRAPHS - n
  {
    if n < PARAGRAPHS && source.Total(n) < target {
      ReachingIs(source, target, n + 1);
    }
  }

  /** The prose a filler asks for keeps to that, whatever its paragraphs are. */
  lemma FillerIsBounded(source: Source, target: nat, header: nat, longest: nat)
    requires forall i: nat :: source.Tokens(i) <= longest
    ensures FillerAdds(FillerTokens(source, header, target), target, header, longest)
  {
    var prose := if target > header then target - header else 0;
    ReachingIs(source, prose, 0);
    assert source.Tokens(0) >= 1;
    var m := source.Reaching(prose, 0);
    hide Source.Reaching;
    ProseOvershoot(source, prose, source.Take(m), longest);
  }

  /** A filler turn at an admitted window, as the harness plans it from a measure below the trigger. */
  datatype FillerTurn = FillerTurn(window: nat, measure: nat, target: nat, header: nat, source: Source, answer: nat) {
    function Budget(): nat {
      EngineTokens(window, ANSWER_TOKENS)
    }

    /** The header is no longer than the smallest full step, and `longest` bounds a paragraph. */
    ghost predicate Planned(longest: nat) {
      && MIN_WINDOW <= window <= MAX_WINDOW && answer <= ANSWER_TOKENS && header <= HEADER_MAX
      && (forall i: nat :: source.Tokens(i) <= longest)
      && !PastTrigger(measure, Budget()) && target <= NextFiller(measure, Budget())
    }

    /** The measure after the turn: with its text and its answer. */
    function After(): nat {
      measure + FillerTokens(source, header, target) + answer
    }

    ghost predicate Skips() {
      PastSwap(After(), Budget())
    }
  }

  /** The full step at the smallest window. */
  const HEADER_MAX: nat := 15605

  lemma BandArithmetic(budget: nat, measure: nat, added: nat, answer: nat, target: nat, header: nat, longest: nat)
    requires budget >= MIN_WINDOW - ANSWER_TOKENS && answer <= ANSWER_TOKENS && header <= HEADER_MAX && longest <= LONGEST
    requires !PastTrigger(measure, budget) && target <= NextFiller(measure, budget) && FillerAdds(added, target, header, longest)
    ensures !PastSwap(measure + added + answer, budget)
  {
    assert NextFiller(measure, budget) == budget * 6 / 100 >= HEADER_MAX;
    assert added < budget * 6 / 100 + longest;
  }

  const LONGEST: nat := 16160

  /** Below a full step of prose one paragraph short, and then a long paragraph. */
  function LongParagraphs(longest: nat): Source {
    Source(i => if i == 0 then "" else "long", text => if text == "" then HEADER_MAX - 1 else longest)
  }

  lemma LongTotal(longest: nat)
    requires longest >= HEADER_MAX
    ensures var s := LongParagraphs(longest);
            s.Total(0) == 0 && s.Total(1) == HEADER_MAX - 1 && s.Total(2) == HEADER_MAX - 1 + longest
    ensures forall i: nat :: LongParagraphs(longest).Tokens(i) <= longest
  {
    var s := LongParagraphs(longest);
    assert s.Tokens(0) == HEADER_MAX - 1 && s.Tokens(1) == longest;
    assert s.Total(0) == 0;
    assert s.Total(1) == s.Total(0) + s.Tokens(0);
    assert s.Total(2) == s.Total(1) + s.Tokens(1);
  }

  lemma LongReaching(longest: nat)
    requires longest >= HEADER_MAX
    ensures FillerTokens(LongParagraphs(longest), 0, HEADER_MAX) == HEADER_MAX - 1 + longest
  {
    var s := LongParagraphs(longest);
    LongTotal(longest);
    assert s.Reaching(HEADER_MAX, 2) == 2;
    assert s.Reaching(HEADER_MAX, 1) == 2;
    assert s.Reaching(HEADER_MAX, 0) == 2;
  }

  /** At the smallest window, from the last token below the trigger. */
  function SkippingTurn(longest: nat): FillerTurn {
    FillerTurn(MIN_WINDOW, 187269, HEADER_MAX, 0, LongParagraphs(longest), ANSWER_TOKENS)
  }

  /**
   * From below the trigger a filler and its answer never reach the swap, at any admitted window, exactly when no paragraph
   * has more than 16160 tokens.
   */
  lemma BandKeptIff(longest: nat)
    ensures (forall t: FillerTurn :: t.Planned(longest) ==> !t.Skips()) <==> longest <= 16160
  {
    if longest <= LONGEST {
      forall t: FillerTurn | t.Planned(longest) ensures !t.Skips() {
        FillerIsBounded(t.source, t.target, t.header, longest);
        BandArithmetic(t.Budget(), t.measure, FillerTokens(t.source, t.header, t.target), t.answer, t.target, t.header, longest);
      }
    } else {
      LongTotal(longest);
      LongReaching(longest);
      var t := SkippingTurn(longest);
      assert t.Planned(longest) && t.Skips();
    }
  }

  // ---------------------------------------------------------------- the crossing turn

  /** Every paragraph weighs `tokens`. */
  function EvenParagraphs(tokens: nat): Source {
    Source(i => "", text => tokens)
  }

  lemma EvenTotal(tokens: nat)
    requires tokens >= 1
    ensures var s := EvenParagraphs(tokens);
            (forall i: nat :: s.Tokens(i) == tokens) && s.Total(0) == 0 && s.Total(1) == tokens && s.Reaching(1, 0) == 1
  {
    var s := EvenParagraphs(tokens);
    assert s.Tokens(0) == tokens && s.Total(1) == s.Total(0) + s.Tokens(0);
    assert s.Reaching(1, 1) == 1;
  }

  /** Below 78 per cent of the budget. */
  predicate Below78(measure: nat, budget: nat) {
    100 * measure < 78 * budget
  }

  /** At a window whose thresholds are whole: a header one token short of the full step, from the last token below the trigger. */
  function EdgeTurn(longest: nat, answer: nat): FillerTurn {
    FillerTurn(262148, 187271, 15606, 15605, EvenParagraphs(longest), answer)
  }

  /**
   * A full step lands below 78 per cent by itself, and so by the measure after the turn only if nothing but the step counts:
   * exactly when no paragraph has more than one token and the answer has none.
   */
  lemma LandsBelow78Iff(longest: nat, answer: nat)
    requires longest >= 1 && answer <= ANSWER_TOKENS
    ensures (forall t: FillerTurn :: t.Planned(longest) && t.answer <= answer ==> Below78(t.After(), t.Budget())) <==>
            longest == 1 && answer == 0
  {
    if longest == 1 && answer == 0 {
      forall t: FillerTurn | t.Planned(longest) && t.answer <= answer ensures Below78(t.After(), t.Budget()) {
        FillerIsBounded(t.source, t.target, t.header, longest);
        StepArithmetic(t.Budget(), t.measure, FillerTokens(t.source, t.header, t.target), t.target, t.header);
      }
    } else {
      EvenTotal(longest);
      var t := EdgeTurn(longest, answer);
      assert FillerTokens(t.source, t.header, t.target) == 15605 + longest;
      assert t.Planned(longest) && !Below78(t.After(), t.Budget());
    }
  }

  lemma StepArithmetic(budget: nat, measure: nat, added: nat, target: nat, header: nat)
    requires budget >= MIN_WINDOW - ANSWER_TOKENS && header <= HEADER_MAX
    requires !PastTrigger(measure, budget) && target <= NextFiller(measure, budget) && FillerAdds(added, target, header, 1)
    ensures Below78(measure + added, budget)
  {
    assert NextFiller(measure, budget) == budget * 6 / 100 >= HEADER_MAX;
  }

  /** The turn after the one that crossed the trigger: a minimal filler of the same header, from where that one landed. */
  ghost predicate Follows(t: FillerTurn, u: FillerTurn, longest: nat) {
    && t.Planned(longest) && t.header <= FILLER_MIN && PastTrigger(t.After(), t.Budget())
    && u.window == t.window && u.measure == t.After() && u.header == t.header && u.answer <= ANSWER_TOKENS
    && (forall i: nat :: u.source.Tokens(i) <= longest) && u.target <= NextFiller(u.measure, u.Budget())
  }

  const LONGEST_TWICE: nat := 6928

  /**
   * The crossing turn and the minimal filler after it stay below the swap together, at any admitted window and for a header no
   * longer than a minimal filler, exactly when no paragraph has more than 6928 tokens.
   */
  lemma MinimalFillerStaysIff(longest: nat)
    ensures (forall t: FillerTurn, u: FillerTurn :: Follows(t, u, longest) ==> !t.Skips() && !u.Skips()) <==> longest <= 6928
  {
    if longest <= LONGEST_TWICE {
      forall t: FillerTurn, u: FillerTurn | Follows(t, u, longest) ensures !t.Skips() && !u.Skips() {
        FillerIsBounded(t.source, t.target, t.header, longest);
        FillerIsBounded(u.source, u.target, u.header, longest);
        TwoStepsArithmetic(t.Budget(), t.measure, FillerTokens(t.source, t.header, t.target), t.answer, t.target,
                           u.measure, FillerTokens(u.source, u.header, u.target), u.answer, u.target, t.header, longest);
      }
    } else {
      CrossingReaches(longest);
      EvenTotal(longest);
      var t, u := CrossingTurn(longest), MinimalTurn(longest);
      assert FillerTokens(u.source, u.header, u.target) == 255 + longest;
      assert Follows(t, u, longest) && u.Skips();
    }
  }

  lemma TwoStepsArithmetic(budget: nat, measure: nat, added: nat, answer: nat, target: nat, landed: nat, more: nat, reply: nat,
                           minimal: nat, header: nat, longest: nat)
    requires budget >= MIN_WINDOW - ANSWER_TOKENS && answer <= ANSWER_TOKENS && reply <= ANSWER_TOKENS
    requires header <= FILLER_MIN && longest <= LONGEST_TWICE
    requires !PastTrigger(measure, budget) && target <= NextFiller(measure, budget) && FillerAdds(added, target, header, longest)
    requires landed <= measure + added + answer && PastTrigger(landed, budget)
    requires minimal <= NextFiller(landed, budget) && FillerAdds(more, minimal, header, longest)
    ensures !PastSwap(landed, budget) && !PastSwap(landed + more + reply, budget)
  {
    assert NextFiller(measure, budget) == budget * 6 / 100 >= FILLER_MIN;
    assert added < budget * 6 / 100 + longest && more < FILLER_MIN + longest;
  }

  /** Three paragraphs one token short of the step's prose, and then a long one. */
  function CrossingParagraphs(longest: nat): Source {
    Source(i => if i == 0 then "first" else if i <= 2 then "next" else "long",
           text => if text == "first" then 5117 else if text == "next" then 5116 else longest)
  }

  function CrossingTurn(longest: nat): FillerTurn {
    FillerTurn(MIN_WINDOW, 187269, 15605, 255, CrossingParagraphs(longest), ANSWER_TOKENS)
  }

  function MinimalTurn(longest: nat): FillerTurn {
    FillerTurn(MIN_WINDOW, CrossingTurn(longest).After(), FILLER_MIN, 255, EvenParagraphs(longest), ANSWER_TOKENS)
  }

  lemma CrossingReaches(longest: nat)
    requires longest > LONGEST_TWICE
    ensures var s := CrossingParagraphs(longest);
            (forall i: nat :: s.Tokens(i) <= longest) && FillerTokens(s, 255, 15605) == 255 + 15349 + longest
  {
    var s := CrossingParagraphs(longest);
    assert s.Tokens(0) == 5117 && s.Tokens(1) == 5116 && s.Tokens(2) == 5116 && s.Tokens(3) == longest;
    assert s.Total(0) == 0;
    assert s.Total(1) == s.Total(0) + s.Tokens(0);
    assert s.Total(2) == s.Total(1) + s.Tokens(1);
    assert s.Total(3) == s.Total(2) + s.Tokens(2);
    assert s.Total(4) == s.Total(3) + s.Tokens(3);
    assert s.Reaching(15350, 4) == 4;
    assert s.Reaching(15350, 3) == 4;
    assert s.Reaching(15350, 2) == 4;
    assert s.Reaching(15350, 1) == 4;
    assert s.Reaching(15350, 0) == 4;
  }

  /** A minimal filler from past the trigger and at most 78 per cent, with a header of at most so many tokens. */
  ghost predicate FromBelow78(t: FillerTurn, header: nat, longest: nat) {
    && MIN_WINDOW <= t.window <= MAX_WINDOW && t.answer <= ANSWER_TOKENS && t.header <= header
    && (forall i: nat :: t.source.Tokens(i) <= longest)
    && PastTrigger(t.measure, t.Budget()) && 100 * t.measure <= 78 * t.Budget() && t.target <= NextFiller(t.measure, t.Budget())
  }

  /** From no more than 78 per cent it stays below the swap exactly for paragraphs of at most 15903 tokens and headers of 16158. */
  lemma From78StaysIff(header: nat, longest: nat)
    requires longest >= 1
    ensures (forall t: FillerTurn :: FromBelow78(t, header, longest) ==> !t.Skips()) <==> longest <= 15903 && header <= 16158
  {
    if longest <= 15903 && header <= 16158 {
      forall t: FillerTurn | FromBelow78(t, header, longest) ensures !t.Skips() {
        FillerIsBounded(t.source, t.target, t.header, longest);
        LongHeader(t.source, t.header, t.target);
        MinimalArithmetic(t.Budget(), t.measure, FillerTokens(t.source, t.header, t.target), t.answer, t.target, t.header, longest);
      }
    } else if longest > 15903 {
      ShortThenLong(longest);
      var t := FillerTurn(262148, 202878, FILLER_MIN, 0, ShortParagraph(longest), ANSWER_TOKENS);
      assert FromBelow78(t, header, longest) && t.Skips();
    } else {
      EvenTotal(1);
      var t := FillerTurn(262148, 202878, FILLER_MIN, 16159, EvenParagraphs(1), ANSWER_TOKENS);
      LongHeader(t.source, t.header, t.target);
      assert FromBelow78(t, header, longest) && t.Skips();
    }
  }

  /** A header that fills the target takes no prose. */
  lemma LongHeader(source: Source, header: nat, target: nat)
    ensures target <= header ==> FillerTokens(source, header, target) == header
  {
    assert source.Total(0) == 0;
    assert target <= header ==> source.Reaching(0, 0) == 0;
  }

  lemma MinimalArithmetic(budget: nat, measure: nat, added: nat, answer: nat, target: nat, header: nat, longest: nat)
    requires budget >= MIN_WINDOW - ANSWER_TOKENS && answer <= ANSWER_TOKENS && header <= 16158 && longest <= 15903
    requires PastTrigger(measure, budget) && 100 * measure <= 78 * budget && target <= NextFiller(measure, budget)
    requires FillerAdds(added, target, header, longest) && (target <= header ==> added == header)
    ensures !PastSwap(measure + added + answer, budget)
  {
  }

  /** One paragraph a token short of a minimal filler, and then a long one. */
  function ShortParagraph(longest: nat): Source {
    Source(i => if i == 0 then "" else "long", text => if text == "" then FILLER_MIN - 1 else longest)
  }

  lemma ShortThenLong(longest: nat)
    requires longest > 15903
    ensures var s := ShortParagraph(longest);
            (forall i: nat :: s.Tokens(i) <= longest) && FillerTokens(s, 0, FILLER_MIN) == FILLER_MIN - 1 + longest
  {
    var s := ShortParagraph(longest);
    assert s.Tokens(0) == FILLER_MIN - 1 && s.Tokens(1) == longest;
    assert s.Total(0) == 0;
    assert s.Total(1) == s.Total(0) + s.Tokens(0);
    assert s.Total(2) == s.Total(1) + s.Tokens(1);
    assert s.Reaching(FILLER_MIN, 2) == 2;
    assert s.Reaching(FILLER_MIN, 1) == 2;
    assert s.Reaching(FILLER_MIN, 0) == 2;
  }
}
