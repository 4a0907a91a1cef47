/**
 * The verdicts of verifier reports: one for each claim whose lines agree, however often and in whatever
 * order the lines come, and a tally that reaches every claim exactly when no counted line is spelled
 * with two spaces or with a letter that only matches an ASCII one when case is ignored.
 */
module Verdicts {
  import opened Wrappers
  import opened JsText
  import opened Permutations

  // ---------------------------------------------------------------- spelling

  /** What a matching line captures: the claim's digits and the verdict as written. */
  datatype Line = Line(claim: string, word: string)
  datatype Answer = Answer(claim: string, verdict: string)

  const LONG_S: char := '\U{017F}'
  const KELVIN: char := '\U{212A}'

  /** Matching without regard to case in Unicode mode: two letters outside ASCII match ASCII ones. */
  function Fold(c: char): char {
    if 'A' <= c <= 'Z' then c - 'A' + 'a' else if c == LONG_S then 's' else if c == KELVIN then 'k' else c
  }

  /** Lower case: the long s already is. */
  function Lower(c: char): char {
    if 'A' <= c <= 'Z' then c - 'A' + 'a' else if c == KELVIN then 'k' else c
  }

  function Folded(s: string): string {
    seq(|s|, i requires 0 <= i < |s| => Fold(s[i]))
  }

  function Lowered(s: string): string {
    seq(|s|, i requires 0 <= i < |s| => Lower(s[i]))
  }

  /** Only the first space is replaced. */
  function ReplaceSpace(s: string): string {
    if s == "" then "" else if s[0] == ' ' then "_" + s[1..] else [s[0]] + ReplaceSpace(s[1..])
  }

  function Normalised(word: string): string {
    ReplaceSpace(Lowered(word))
  }

  const VERDICTS: set<string> := {"supported", "partly", "unsupported", "contradicted", "could_not_check"}
  const SPELLINGS: set<string> := VERDICTS + {"could not_check", "could_not check", "could not check"}

  /** What the line's pattern can capture. */
  predicate Captured(word: string) {
    Folded(word) in SPELLINGS
  }

  lemma {:induction false} ReplaceKeeps(s: string, c: char)
    requires c != ' ' && c in s
    ensures c in ReplaceSpace(s)
  {
    if s[0] == ' ' {
      var i :| 0 <= i < |s| && s[i] == c;
      assert ReplaceSpace(s)[i] == c;
    } else if s[0] == c {
      assert ReplaceSpace(s)[0] == c;
    } else {
      ReplaceKeeps(s[1..], c);
      var rest := ReplaceSpace(s[1..]);
      var i :| 0 <= i < |rest| && rest[i] == c;
      assert ReplaceSpace(s)[i + 1] == c;
    }
  }

  lemma {:induction false} ReplaceAt(before: string, after: string)
    requires ' ' !in before
    ensures ReplaceSpace(before + " " + after) == before + "_" + after
  {
    var s := before + " " + after;
    if before == "" {
      assert s == " " + after;
    } else {
      ReplaceAt(before[1..], after);
      assert s[1..] == before[1..] + " " + after;
      assert [before[0]] + (before[1..] + "_" + after) == before + "_" + after;
    }
  }

  lemma {:induction false} ReplaceNothing(s: string)
    requires ' ' !in s
    ensures ReplaceSpace(s) == s
  {
    if s != "" {
      ReplaceNothing(s[1..]);
    }
  }

  lemma ReplacedSpellings()
    ensures ReplaceSpace("could not_check") == "could_not_check"
    ensures ReplaceSpace("could_not check") == "could_not_check"
    ensures ReplaceSpace("could not check") == "could_not check"
  {
    hide ReplaceSpace;
    FirstReplaced();
    SecondReplaced();
    BothSpaces();
  }

  lemma FirstReplaced()
    ensures ReplaceSpace("could not_check") == "could_not_check"
  {
    assert "could" + " " + "not_check" == "could not_check";
    ReplaceAt("could", "not_check");
    assert "could" + "_" + "not_check" == "could_not_check";
  }

  lemma SecondReplaced()
    ensures ReplaceSpace("could_not check") == "could_not_check"
  {
    assert "could_not" + " " + "check" == "could_not check";
    ReplaceAt("could_not", "check");
    assert "could_not" + "_" + "check" == "could_not_check";
  }

  lemma BothSpaces()
    ensures ReplaceSpace("could not check") == "could_not check"
  {
    assert "could" + " " + "not check" == "could not check";
    ReplaceAt("could", "not check");
    assert "could" + "_" + "not check" == "could_not check";
  }

  lemma NoSpaces()
    ensures ' ' !in "supported" && ' ' !in "partly" && ' ' !in "unsupported" && ' ' !in "contradicted" && ' ' !in "could_not_check"
  {
  }

  lemma Spaces()
    ensures ' ' in "could_not check" && ' ' in "could not_check" && ' ' in "could not check"
    ensures "could not_check" != "could not check" && "could_not check" != "could not check"
  {
    assert "could_not check"[9] == ' ' && "could not_check"[5] == ' ' && "could not check"[5] == ' ';
    assert "could not_check"[9] != "could not check"[9] && "could_not check"[5] != "could not check"[5];
  }

  lemma VerdictHasNoSpace(s: string)
    requires s in VERDICTS
    ensures ' ' !in s
  {
    NoSpaces();
  }

  lemma HalfReplaced()
    ensures "could_not check" !in VERDICTS
  {
    Spaces();
    if "could_not check" in VERDICTS {
      VerdictHasNoSpace("could_not check");
    }
  }

  lemma ReplacedVerdict(s: string)
    requires s in VERDICTS
    ensures ReplaceSpace(s) in VERDICTS && s != "could not check"
  {
    VerdictHasNoSpace(s);
    ReplaceNothing(s);
    Spaces();
  }

  lemma ReplacedSpelling(s: string)
    requires s in SPELLINGS
    ensures ReplaceSpace(s) in VERDICTS <==> s != "could not check"
  {
    hide ReplaceSpace;
    if s in VERDICTS {
      ReplacedVerdict(s);
    } else {
      OtherSpelling(s);
    }
  }

  lemma OtherSpelling(s: string)
    requires s == "could not_check" || s == "could_not check" || s == "could not check"
    ensures ReplaceSpace(s) in VERDICTS <==> s != "could not check"
  {
    Spaces();
    ReplacedSpellings();
    if s == "could not check" {
      HalfReplaced();
    } else {
      assert ReplaceSpace(s) == "could_not_check";
    }
  }

  lemma LoweredAscii(word: string)
    requires LONG_S !in word
    ensures Lowered(word) == Folded(word)
  {
  }

  lemma AsciiWord(word: string)
    requires Captured(word) && LONG_S !in word
    ensures Normalised(word) in VERDICTS <==> Folded(word) != "could not check"
  {
    LoweredAscii(word);
    ReplacedSpelling(Folded(word));
  }

  /** Exactly the spellings with both spaces, or with a long s, are none of the five verdicts once normalised. */
  lemma TalliedIff(word: string)
    requires Captured(word)
    ensures Normalised(word) in VERDICTS <==> LONG_S !in word && Folded(word) != "could not check"
  {
    if LONG_S in word {
      var i :| 0 <= i < |word| && word[i] == LONG_S;
      assert Lowered(word)[i] == LONG_S;
      ReplaceKeeps(Lowered(word), LONG_S);
      assert LONG_S !in "supported" && LONG_S !in "partly" && LONG_S !in "unsupported";
      assert LONG_S !in "contradicted" && LONG_S !in "could_not_check";
    } else {
      AsciiWord(word);
    }
  }

  /** In one case and without a long s: four verdicts are read as they stand, and the fifth with its first space replaced. */
  lemma NormalisedMeans(word: string)
    requires Captured(word) && LONG_S !in word
    ensures Folded(word) in {"supported", "partly", "unsupported", "contradicted", "could_not_check"} ==> Normalised(word) == Folded(word)
    ensures Folded(word) in {"could not_check", "could_not check"} ==> Normalised(word) == "could_not_check"
    ensures Folded(word) == "could not check" ==> Normalised(word) == "could_not check"
  {
    LoweredAscii(word);
    ReplacedSpellings();
    hide Folded, Lowered;
    if Folded(word) in VERDICTS {
      VerdictHasNoSpace(Folded(word));
      ReplaceNothing(Folded(word));
    }
    hide ReplaceSpace;
  }

  // ---------------------------------------------------------------- one verdict for a claim

  function AnswersOf(lines: seq<Line>): seq<Answer> {
    seq(|lines|, i requires 0 <= i < |lines| => Answer(lines[i].claim, Normalised(lines[i].word)))
  }

  /** All lines of the claim give the verdict, and there is one. */
  predicate Agreed(answers: seq<Answer>, claim: string, verdict: string) {
    Answer(claim, verdict) in answers && forall a :: a in answers && a.claim == claim ==> a.verdict == verdict
  }

  function FirstFor(answers: seq<Answer>, claim: string): Option<string> {
    if answers == [] then None else if answers[0].claim == claim then Some(answers[0].verdict) else FirstFor(answers[1..], claim)
  }

  /** The claim's verdict, unless its lines differ. */
  function Standing(answers: seq<Answer>, claim: string): Option<string> {
    var first := FirstFor(answers, claim);
    if first.Some? && Agreed(answers, claim, first.value) then first else None
  }

  function ClaimOf(): Answer -> string {
    (a: Answer) => a.claim
  }

  /** The claims in the order of their first lines. */
  function Claims(answers: seq<Answer>): seq<string> {
    Firsts(ClaimOf(), answers)
  }

  function Counted(answers: seq<Answer>): string -> seq<string> {
    (claim: string) => if Standing(answers, claim).Some? then [Standing(answers, claim).value] else []
  }

  function VerdictsOf(answers: seq<Answer>): seq<string> {
    FlatMap(Counted(answers), Claims(answers))
  }

  lemma {:induction false} FirstElement(answers: seq<Answer>, claim: string)
    ensures var first := FirstFor(answers, claim);
            if first.Some? then Answer(claim, first.value) in answers else forall a :: a in answers ==> a.claim != claim
  {
    if answers != [] {
      FirstElement(answers[1..], claim);
    }
  }

  lemma StandingIs(answers: seq<Answer>, claim: string)
    ensures forall v :: Standing(answers, claim) == Some(v) <==> Agreed(answers, claim, v)
  {
    FirstElement(answers, claim);
  }

  /** Line `i` is the first of its claim, and all the claim's lines give its verdict. */
  predicate Settles(answers: seq<Answer>, i: nat)
    requires i < |answers|
  {
    && (forall j :: 0 <= j < i ==> answers[j].claim != answers[i].claim)
    && forall j :: 0 <= j < |answers| && answers[j].claim == answers[i].claim ==> answers[j].verdict == answers[i].verdict
  }

  /** The verdicts are those of these lines, in order. */
  ghost predicate VerdictsAt(answers: seq<Answer>, verdicts: seq<string>, at: seq<nat>, n: nat)
    requires n <= |answers|
  {
    && |at| == |verdicts| && (forall k, l :: 0 <= k < l < |at| ==> at[k] < at[l])
    && (forall i: nat :: i in at <==> i < n && Settles(answers, i))
    && forall k :: 0 <= k < |at| ==> at[k] < n && verdicts[k] == answers[at[k]].verdict
  }

  /** There is one verdict for each claim whose lines agree, in the order of the claims' first lines. */
  lemma VerdictsAre(answers: seq<Answer>) returns (at: seq<nat>)
    ensures VerdictsAt(answers, VerdictsOf(answers), at, |answers|)
  {
    at := VerdictsUpTo(answers, |answers|);
    assert answers[..|answers|] == answers;
  }

  lemma {:induction false} VerdictsUpTo(answers: seq<Answer>, n: nat) returns (at: seq<nat>)
    requires n <= |answers|
    ensures VerdictsAt(answers, FlatMap(Counted(answers), Claims(answers[..n])), at, n)
  {
    hide Counted, VerdictsAt, Claims, FlatMap;
    if n == 0 {
      at := [];
      NoVerdicts(answers);
      assert answers[..0] == [];
    } else {
      var before := VerdictsUpTo(answers, n - 1);
      at := VerdictsStep(answers, n, before);
    }
  }

  lemma NoVerdicts(answers: seq<Answer>)
    ensures VerdictsAt(answers, FlatMap(Counted(answers), Claims([])), [], 0)
  {
  }

  lemma VerdictsStep(answers: seq<Answer>, n: nat, before: seq<nat>) returns (at: seq<nat>)
    requires 0 < n <= |answers| && VerdictsAt(answers, FlatMap(Counted(answers), Claims(answers[..n - 1])), before, n - 1)
    ensures VerdictsAt(answers, FlatMap(Counted(answers), Claims(answers[..n])), at, n)
  {
    hide Counted, VerdictsAt, FlatMap, Settles;
    var claims, last := Claims(answers[..n - 1]), answers[n - 1];
    ClaimsNext(answers, n);
    FirstOrNot(answers, n - 1);
    SettlesIff(answers, n - 1);
    hide Claims;
    at := if Settles(answers, n - 1) then before + [n - 1] else before;
    if Settles(answers, n - 1) {
      FlatMapOne(Counted(answers), claims, last.claim);
      VerdictsGrow(answers, FlatMap(Counted(answers), claims), before, n);
    } else {
      if last.claim !in claims {
        FlatMapOne(Counted(answers), claims, last.claim);
        assert FlatMap(Counted(answers), claims) + [] == FlatMap(Counted(answers), claims);
      }
      VerdictsStay(answers, FlatMap(Counted(answers), claims), before, n);
    }
  }

  lemma ClaimsNext(answers: seq<Answer>, n: nat)
    requires 0 < n <= |answers|
    ensures var claims, claim := Claims(answers[..n - 1]), answers[n - 1].claim;
            Claims(answers[..n]) == if claim in claims then claims else claims + [claim]
  {
    assert answers[..n] == answers[..n - 1] + [answers[n - 1]];
    FirstsNext(ClaimOf(), answers[..n - 1], answers[n - 1]);
  }

  lemma FlatMapOne(f: string -> seq<string>, s: seq<string>, x: string)
    ensures FlatMap(f, s + [x]) == FlatMap(f, s) + f(x)
  {
    assert (s + [x])[..|s|] == s;
  }

  lemma VerdictsStay(answers: seq<Answer>, verdicts: seq<string>, at: seq<nat>, n: nat)
    requires 0 < n <= |answers| && VerdictsAt(answers, verdicts, at, n - 1) && !Settles(answers, n - 1)
    ensures VerdictsAt(answers, verdicts, at, n)
  {
    hide Settles;
  }

  lemma VerdictsGrow(answers: seq<Answer>, verdicts: seq<string>, at: seq<nat>, n: nat)
    requires 0 < n <= |answers| && VerdictsAt(answers, verdicts, at, n - 1) && Settles(answers, n - 1)
    ensures VerdictsAt(answers, verdicts + [answers[n - 1].verdict], at + [n - 1], n)
  {
    hide Settles;
    forall k | 0 <= k < |at| ensures at[k] < n - 1 {
      assert at[k] in at;
    }
  }

  /** The claim of line `i` is among the earlier ones exactly when an earlier line has it. */
  lemma FirstOrNot(answers: seq<Answer>, i: nat)
    requires i < |answers|
    ensures answers[i].claim in Claims(answers[..i]) <==> exists j :: 0 <= j < i && answers[j].claim == answers[i].claim
  {
    var init := answers[..i];
    FirstsElements(ClaimOf(), init);
    if j :| 0 <= j < i && answers[j].claim == answers[i].claim {
      assert ClaimOf()(init[j]) == answers[i].claim;
    }
    if j :| 0 <= j < |init| && ClaimOf()(init[j]) == answers[i].claim {
      assert answers[j].claim == answers[i].claim;
    }
  }

  /** For the first line of a claim: it settles the claim exactly when the claim stands, and then with that line's verdict. */
  lemma SettlesIff(answers: seq<Answer>, i: nat)
    requires i < |answers|
    ensures Settles(answers, i) ==> Counted(answers)(answers[i].claim) == [answers[i].verdict]
    ensures !Settles(answers, i) && (forall j :: 0 <= j < i ==> answers[j].claim != answers[i].claim) ==>
              Counted(answers)(answers[i].claim) == []
    ensures (exists j :: 0 <= j < i && answers[j].claim == answers[i].claim) ==> !Settles(answers, i)
  {
    var a := answers[i];
    StandingIs(answers, a.claim);
    if Settles(answers, i) {
      assert answers[i] in answers;
      assert Agreed(answers, a.claim, a.verdict) by {
        forall b | b in answers && b.claim == a.claim ensures b.verdict == a.verdict {
          var j :| 0 <= j < |answers| && answers[j] == b;
        }
      }
    } else if Standing(answers, a.claim).Some? {
      var v := Standing(answers, a.claim).value;
      assert Agreed(answers, a.claim, v) && answers[i] in answers;
      forall j | 0 <= j < |answers| && answers[j].claim == a.claim ensures answers[j].verdict == a.verdict {
        assert answers[j] in answers;
      }
    }
  }

  /** A claim whose lines once differed never gets a verdict again. */
  lemma DisputedForGood(answers: seq<Answer>, more: seq<Answer>, claim: string, v: string, w: string)
    requires v != w && Answer(claim, v) in answers && Answer(claim, w) in answers
    ensures Standing(answers + more, claim) == None
  {
    StandingIs(answers + more, claim);
    assert Answer(claim, v) in answers + more && Answer(claim, w) in answers + more;
  }

  /** Only which verdict each claim's lines give matters: not their order, and not how often they say it. */
  lemma OnlyTheSetMatters(s: seq<Answer>, t: seq<Answer>)
    requires forall a :: a in s <==> a in t
    ensures multiset(VerdictsOf(s)) == multiset(VerdictsOf(t))
  {
    forall claim ensures Standing(s, claim) == Standing(t, claim) {
      StandingIs(s, claim);
      StandingIs(t, claim);
      assert forall v :: Agreed(s, claim, v) <==> Agreed(t, claim, v);
      if Standing(s, claim).Some? {
        assert Agreed(t, claim, Standing(s, claim).value);
      }
    }
    FirstsSame(ClaimOf(), s, t);
    FlatMapPermutes(Counted(s), Claims(s), Claims(t));
    FlatMapSame(Counted(s), Counted(t), Claims(t));
  }

  // ---------------------------------------------------------------- reading a report

  /** The lines of a report that match; `read` stands for the line's pattern. */
  function ReadLines(read: string -> Option<Line>, lines: seq<string>): seq<Line> {
    if lines == [] then []
    else ReadLines(read, lines[..|lines| - 1]) + match read(lines[|lines| - 1]) case Some(line) => [line] case None => []
  }

  ghost predicate Tabled(order: seq<string>, table: map<string, Option<string>>, answers: seq<Answer>) {
    order == Claims(answers) && (forall c :: c in table <==> c in order) &&
    forall c :: c in table ==> table[c] == Standing(answers, c)
  }

  lemma StandingNext(answers: seq<Answer>, a: Answer)
    ensures forall c :: c != a.claim ==> Standing(answers + [a], c) == Standing(answers, c)
    ensures Standing(answers + [a], a.claim) ==
            if FirstFor(answers, a.claim) == None || Standing(answers, a.claim) == Some(a.verdict) then Some(a.verdict) else None
  {
    var more := answers + [a];
    forall c | c != a.claim ensures Standing(more, c) == Standing(answers, c) {
      StandingIs(answers, c);
      StandingIs(more, c);
      assert forall v :: Agreed(more, c, v) <==> Agreed(answers, c, v);
      if Standing(answers, c).Some? {
        assert Agreed(more, c, Standing(answers, c).value);
      }
      if Standing(more, c).Some? {
        assert Agreed(answers, c, Standing(more, c).value);
      }
    }
    StandingOwn(answers, a);
  }

  lemma StandingOwn(answers: seq<Answer>, a: Answer)
    ensures Standing(answers + [a], a.claim) ==
            if FirstFor(answers, a.claim) == None || Standing(answers, a.claim) == Some(a.verdict) then Some(a.verdict) else None
  {
    var more := answers + [a];
    FirstElement(answers, a.claim);
    StandingIs(answers, a.claim);
    StandingIs(more, a.claim);
    assert a in more;
    if Standing(more, a.claim).Some? {
      var v := Standing(more, a.claim).value;
      assert Agreed(more, a.claim, v) && v == a.verdict;
      if FirstFor(answers, a.claim).Some? {
        assert Answer(a.claim, FirstFor(answers, a.claim).value) in more;
        assert Agreed(answers, a.claim, v);
      }
    }
    if FirstFor(answers, a.claim) == None || Standing(answers, a.claim) == Some(a.verdict) {
      assert Agreed(more, a.claim, a.verdict);
    }
  }

  /** One line: the first sets the claim's verdict, an equal one keeps it, and any other clears it. */
  method AddLine(order: seq<string>, table: map<string, Option<string>>, ghost answers: seq<Answer>, line: Line)
    returns (claims: seq<string>, verdicts: map<string, Option<string>>)
    requires Tabled(order, table, answers)
    ensures Tabled(claims, verdicts, answers + [Answer(line.claim, Normalised(line.word))])
  {
    var verdict := Normalised(line.word);
    var keeps := line.claim !in table || table[line.claim] == Some(verdict);
    claims := if line.claim in table then order else order + [line.claim];
    verdicts := table[line.claim := if keeps then Some(verdict) else None];
    ghost var a := Answer(line.claim, verdict);
    FirstsElements(ClaimOf(), answers);
    FirstElement(answers, a.claim);
    StandingNext(answers, a);
    FirstsNext(ClaimOf(), answers, a);
  }

  method ReadVerdicts(lines: seq<Line>) returns (order: seq<string>, table: map<string, Option<string>>)
    ensures Tabled(order, table, AnswersOf(lines))
  {
    order, table := [], map[];
    for i := 0 to |lines|
      invariant Tabled(order, table, AnswersOf(lines)[..i])
    {
      order, table := AddLine(order, table, AnswersOf(lines)[..i], lines[i]);
      assert AnswersOf(lines)[..i + 1] == AnswersOf(lines)[..i] + [AnswersOf(lines)[i]];
    }
    assert AnswersOf(lines)[..|lines|] == AnswersOf(lines);
  }

  method Standings(order: seq<string>, table: map<string, Option<string>>, ghost answers: seq<Answer>)
    returns (verdicts: seq<string>)
    requires Tabled(order, table, answers)
    ensures verdicts == VerdictsOf(answers)
  {
    verdicts := [];
    for k := 0 to |order|
      invariant verdicts == FlatMap(Counted(answers), order[..k])
    {
      assert order[..k + 1][..k] == order[..k];
      assert order[k] in order;
      var found := table[order[k]];
      if found.Some? {
        verdicts := verdicts + [found.value];
      } else {
        assert verdicts + [] == verdicts;
      }
    }
    assert order[..|order|] == order;
  }

  /** An absent report reads as an empty one. */
  method VerifierVerdicts(report: Option<string>, read: string -> Option<Line>) returns (verdicts: seq<string>)
    ensures verdicts == VerdictsOf(AnswersOf(ReadLines(read, Split(if report.Some? then report.value else ""))))
  {
    var text := Split(if report.Some? then report.value else "");
    var lines: seq<Line> := [];
    for i := 0 to |text|
      invariant lines == ReadLines(read, text[..i])
    {
      assert text[..i + 1][..i] == text[..i];
      match read(text[i]) {
        case Some(line) => lines := lines + [line];
        case None => assert lines + [] == lines;
      }
    }
    assert text[..|text|] == text;
    var order, table := ReadVerdicts(lines);
    verdicts := Standings(order, table, AnswersOf(lines));
  }

  // ---------------------------------------------------------------- the tally

  datatype Tally = Tally(claims: nat, supported: nat, partly: nat, unsupported: nat, contradicted: nat, couldNotCheck: nat) {
    function Sum(): nat {
      supported + partly + unsupported + contradicted + couldNotCheck
    }
  }

  function Count(verdict: string, s: seq<string>): nat {
    |Filter((v: string) => v == verdict, s)|
  }

  function TallyOf(s: seq<string>): Tally {
    Tally(|s|, Count("supported", s), Count("partly", s), Count("unsupported", s), Count("contradicted", s), Count("could_not_check", s))
  }

  lemma {:induction false} CountIs(verdict: string, s: seq<string>)
    ensures Count(verdict, s) == multiset(s)[verdict]
  {
    if s != [] {
      CountIs(verdict, s[..|s| - 1]);
      assert s == s[..|s| - 1] + [s[|s| - 1]];
    }
  }

  /** Each count is that of its own verdict, and the claims are all. */
  lemma TallyMeans(s: seq<string>)
    ensures var tally, m := TallyOf(s), multiset(s);
            tally == Tally(|s|, m["supported"], m["partly"], m["unsupported"], m["contradicted"], m["could_not_check"])
  {
    hide Count;
    CountIs("supported", s);
    CountIs("partly", s);
    CountIs("unsupported", s);
    CountIs("contradicted", s);
    CountIs("could_not_check", s);
  }

  /** The tally, too, depends on the set of answers only. */
  lemma TallyOfTheSet(s: seq<Answer>, t: seq<Answer>)
    requires forall a :: a in s <==> a in t
    ensures TallyOf(VerdictsOf(s)) == TallyOf(VerdictsOf(t))
  {
    hide VerdictsOf, Count;
    OnlyTheSetMatters(s, t);
    var u, v := VerdictsOf(s), VerdictsOf(t);
    assert |u| == |multiset(u)| && |v| == |multiset(v)|;
    forall verdict ensures Count(verdict, u) == Count(verdict, v) {
      CountIs(verdict, u);
      CountIs(verdict, v);
    }
  }

  lemma CountNext(verdict: string, s: seq<string>)
    requires s != []
    ensures Count(verdict, s) == Count(verdict, s[..|s| - 1]) + if s[|s| - 1] == verdict then 1 else 0
  {
  }

  lemma {:induction false} SumIs(s: seq<string>)
    ensures TallyOf(s).Sum() == |Filter((v: string) => v in VERDICTS, s)|
  {
    if s != [] {
      SumIs(s[..|s| - 1]);
      CountNext("supported", s);
      CountNext("partly", s);
      CountNext("unsupported", s);
      CountNext("contradicted", s);
      CountNext("could_not_check", s);
    }
  }

  // ---------------------------------------------------------------- the claims in no tally

  /** The claim has a verdict, and it is none of the five. */
  predicate LeftOver(answers: seq<Answer>, claim: string) {
    Standing(answers, claim).Some? && Standing(answers, claim).value !in VERDICTS
  }

  ghost function LeftOvers(answers: seq<Answer>, claims: seq<string>): set<string> {
    set c | c in claims && LeftOver(answers, c)
  }

  lemma LeftOversNext(answers: seq<Answer>, claims: seq<string>, claim: string)
    requires claim !in claims
    ensures |LeftOvers(answers, claims + [claim])| == |LeftOvers(answers, claims)| + if LeftOver(answers, claim) then 1 else 0
  {
    hide LeftOver;
    var more: set<string> := if LeftOver(answers, claim) then {claim} else {};
    assert LeftOvers(answers, claims + [claim]) == LeftOvers(answers, claims) + more && LeftOvers(answers, claims) !! more;
  }

  function Five(s: seq<string>): nat {
    |Filter((v: string) => v in VERDICTS, s)|
  }

  lemma FiveOfNone()
    ensures Five([]) == 0
  {
  }

  lemma FiveNext(s: seq<string>, answers: seq<Answer>, claim: string)
    ensures var more := Counted(answers)(claim);
            |s + more| - Five(s + more) == |s| - Five(s) + if LeftOver(answers, claim) then 1 else 0
  {
    hide Standing;
    var standing := Standing(answers, claim);
    if standing.Some? {
      FilterNext((v: string) => v in VERDICTS, s, standing.value);
    } else {
      assert s + [] == s;
    }
  }

  lemma {:induction false} LeftOverCount(answers: seq<Answer>, claims: seq<string>)
    requires Distinct(claims)
    ensures var s := FlatMap(Counted(answers), claims); |s| - Five(s) == |LeftOvers(answers, claims)|
  {
    hide Five, LeftOver, Counted;
    if claims == [] {
      assert LeftOvers(answers, claims) == {};
      FiveOfNone();
    } else {
      var init, last := claims[..|claims| - 1], claims[|claims| - 1];
      assert claims == init + [last] && last !in init;
      LeftOverCount(answers, init);
      LeftOversNext(answers, init, last);
      FiveNext(FlatMap(Counted(answers), init), answers, last);
    }
  }

  /** The line's claim has a verdict: all its lines say the same once normalised. */
  ghost predicate Stands(lines: seq<Line>, line: Line) {
    forall l :: l in lines && l.claim == line.claim ==> Normalised(l.word) == Normalised(line.word)
  }

  lemma StandsIs(lines: seq<Line>, line: Line)
    requires line in lines
    ensures Stands(lines, line) <==> Agreed(AnswersOf(lines), line.claim, Normalised(line.word))
  {
    var answers := AnswersOf(lines);
    var k :| 0 <= k < |lines| && lines[k] == line;
    assert answers[k] == Answer(line.claim, Normalised(line.word));
    if Stands(lines, line) {
      forall a | a in answers && a.claim == line.claim ensures a.verdict == Normalised(line.word) {
        var i :| 0 <= i < |answers| && answers[i] == a;
        assert lines[i] in lines;
      }
    }
    if Agreed(answers, line.claim, Normalised(line.word)) {
      forall l | l in lines && l.claim == line.claim ensures Normalised(l.word) == Normalised(line.word) {
        var i :| 0 <= i < |lines| && lines[i] == l;
        assert answers[i] in answers;
      }
    }
  }

  /** Spelled with both spaces or with a long s. */
  predicate Misspelled(word: string) {
    LONG_S in word || Folded(word) == "could not check"
  }

  /** The claims that have a verdict and a line spelled so. */
  ghost function MisspelledClaims(lines: seq<Line>): set<string> {
    set l | l in lines && Stands(lines, l) && Misspelled(l.word) :: l.claim
  }

  lemma LineLeftOver(lines: seq<Line>, l: Line)
    requires l in lines && Captured(l.word) && Stands(lines, l)
    ensures LeftOver(AnswersOf(lines), l.claim) <==> Misspelled(l.word)
  {
    StandsIs(lines, l);
    StandingIs(AnswersOf(lines), l.claim);
    TalliedIff(l.word);
  }

  lemma LeftOverLine(lines: seq<Line>, claim: string) returns (l: Line)
    requires LeftOver(AnswersOf(lines), claim)
    ensures l in lines && l.claim == claim && Stands(lines, l)
  {
    var answers := AnswersOf(lines);
    var verdict := Standing(answers, claim).value;
    StandingIs(answers, claim);
    var k :| 0 <= k < |answers| && answers[k] == Answer(claim, verdict);
    l := lines[k];
    StandsIs(lines, l);
  }

  lemma LeftOversAreMisspelled(lines: seq<Line>)
    requires forall l :: l in lines ==> Captured(l.word)
    ensures LeftOvers(AnswersOf(lines), Claims(AnswersOf(lines))) == MisspelledClaims(lines)
  {
    hide LeftOver, Stands, Misspelled, Captured;
    var answers := AnswersOf(lines);
    FirstsElements(ClaimOf(), answers);
    forall c | c in LeftOvers(answers, Claims(answers)) ensures c in MisspelledClaims(lines) {
      var l := LeftOverLine(lines, c);
      LineLeftOver(lines, l);
    }
    forall l | l in lines && Stands(lines, l) && Misspelled(l.word) ensures l.claim in LeftOvers(answers, Claims(answers)) {
      LineLeftOver(lines, l);
      var k :| 0 <= k < |lines| && lines[k] == l;
      assert ClaimOf()(answers[k]) == l.claim;
    }
  }

  /**
   * The claims are those of the five counts and those with a line spelled with both spaces or with a long s; so the counts add
   * up to the claims exactly when no line of a claim that has a verdict is spelled so.
   */
  lemma ClaimsAddUpIff(lines: seq<Line>)
    requires forall l :: l in lines ==> Captured(l.word)
    ensures var tally := TallyOf(VerdictsOf(AnswersOf(lines)));
            tally.claims == tally.Sum() + |MisspelledClaims(lines)| &&
            (tally.Sum() == tally.claims <==> forall l :: l in lines && Stands(lines, l) ==> !Misspelled(l.word))
  {
    hide Stands, Misspelled, Captured, LeftOvers;
    var answers := AnswersOf(lines);
    SumIs(VerdictsOf(answers));
    FirstsElements(ClaimOf(), answers);
    LeftOverCount(answers, Claims(answers));
    LeftOversAreMisspelled(lines);
    forall l | l in lines && Stands(lines, l) && Misspelled(l.word) ensures l.claim in MisspelledClaims(lines) {
    }
  }

  lemma OneLine(claim: string, verdict: string)
    ensures VerdictsOf([Answer(claim, verdict)]) == [verdict]
  {
    var answers := [Answer(claim, verdict)];
    FirstsNext(ClaimOf(), [], answers[0]);
    assert [] + [answers[0]] == answers && [] + [claim] == [claim];
    assert answers[0] == Answer(claim, verdict);
    assert Agreed(answers, claim, verdict);
    FlatMapSingle(Counted(answers), claim);
  }

  /** One claim, counted but in none of the five tallies. */
  lemma ExampleTwoSpaces(line: Line)
    requires line.word == "could not check"
    ensures var verdicts := VerdictsOf(AnswersOf([line])); TallyOf(verdicts).claims == 1 && TallyOf(verdicts).Sum() == 0
  {
    FoldedExample(line.word);
    TalliedIff(line.word);
    var verdict := Normalised(line.word);
    assert AnswersOf([line]) == [Answer(line.claim, verdict)];
    OneLine(line.claim, verdict);
    SumOne(verdict);
  }

  /** A long s is taken for an s and stays, so its line is in no tally. */
  lemma ExampleLongS()
    ensures Captured("\U{017F}upported") && Normalised("\U{017F}upported") == "\U{017F}upported"
  {
    var word := "\U{017F}upported";
    assert Folded(word)[0] == 's' && Folded(word)[1..] == word[1..];
    assert Folded(word) == "supported" && Lowered(word) == word;
    hide Folded, Lowered, ReplaceSpace;
    NoSpaceStays(word);
  }

  /** The Kelvin sign is taken for a k and becomes one. */
  lemma ExampleKelvin()
    ensures Captured("could_not_chec\U{212A}") && Normalised("could_not_chec\U{212A}") == "could_not_check"
  {
    var word := "could_not_chec\U{212A}";
    assert Folded(word) == "could_not_check" && Lowered(word) == "could_not_check";
    hide Folded, Lowered, ReplaceSpace;
    NoSpaceStays("could_not_check");
  }

  lemma {:induction false} NoSpaceStays(s: string)
    requires ' ' !in s
    ensures ReplaceSpace(s) == s
  {
    if s != "" {
      NoSpaceStays(s[1..]);
      assert s == [s[0]] + s[1..];
    }
  }

  lemma FoldedExample(word: string)
    requires word == "could not check"
    ensures Folded(word) == word
  {
  }

  lemma SumOne(verdict: string)
    requires verdict !in VERDICTS
    ensures TallyOf([verdict]).Sum() == 0
  {
    var s := [verdict];
    SumIs(s);
    assert s[..0] == [];
  }
}
