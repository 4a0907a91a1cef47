/**
 * Euro amounts as a page shows them: Spanish or English separators, with or without the currency.
 * Amounts are in whole cents.
 */
module Euro {
  import opened JsText
  import opened Wrappers

  const TEXT_MAX := 32
  const CENTS_LIMIT := 1_000_000_000

  // ---------------------------------------------------------------- digits

  predicate IsDigit(c: char) {
    '0' <= c <= '9'
  }

  predicate Digits(s: string) {
    s != "" && forall i :: 0 <= i < |s| ==> IsDigit(s[i])
  }

  /** The number that a text of digits spells. */
  function Value(s: string): nat {
    if s == "" then 0
    else
      var last := s[|s| - 1];
      Value(s[..|s| - 1]) * 10 + if IsDigit(last) then (last as int) - ('0' as int) else 0
  }

  // ---------------------------------------------------------------- the four forms

  /** One to three digits, then at least one group of a separator and three digits. */
  function Grouped(s: string, a: char, b: char): Option<nat> {
    if |s| < 5 || (s[|s| - 4] != a && s[|s| - 4] != b) || !Digits(s[|s| - 3..]) then None
    else
      var left := s[..|s| - 4];
      var group := Value(s[|s| - 3..]);
      if Digits(left) && |left| <= 3 then Some(Value(left) * 1000 + group)
      else
        match Grouped(left, a, b)
        case None => None
        case Some(n) => Some(n * 1000 + group)
  }

  /** Cents written with one or two digits. */
  function Cents(s: string): Option<nat> {
    if !Digits(s) || |s| > 2 then None else Some(if |s| == 1 then Value(s) * 10 else Value(s))
  }

  /** Where `mark` first stands, or the end of the text. */
  function Find(s: string, mark: char): (i: nat)
    ensures i <= |s| && (i < |s| ==> s[i] == mark) && forall j :: 0 <= j < i ==> s[j] != mark
  {
    if s == "" || s[0] == mark then 0 else 1 + Find(s[1..], mark)
  }

  /** A grouped whole part, and cents after the decimal mark if there is one. */
  function GroupedAmount(s: string, a: char, b: char, mark: char): Option<nat> {
    var at := Find(s, mark);
    match Grouped(s[..at], a, b)
    case None => None
    case Some(whole) =>
      if at == |s| then Some(whole * 100)
      else
        match Cents(s[at + 1..])
        case None => None
        case Some(cents) => Some(whole * 100 + cents)
  }

  function WholeAmount(s: string): Option<nat> {
    if Digits(s) then Some(Value(s) * 100) else None
  }

  /** Digits, one decimal mark of either kind, and one or two digits. */
  function PlainAmount(s: string, mark: char): Option<nat> {
    var at := Find(s, mark);
    if at == |s| || !Digits(s[..at]) then None
    else
      match Cents(s[at + 1..])
      case None => None
      case Some(cents) => Some(Value(s[..at]) * 100 + cents)
  }

  function Spanish(s: string): Option<nat> {
    GroupedAmount(s, '.', ' ', ',')
  }

  function English(s: string): Option<nat> {
    GroupedAmount(s, ',', ' ', '.')
  }

  function Plain(s: string): Option<nat> {
    if PlainAmount(s, '.').Some? then PlainAmount(s, '.') else PlainAmount(s, ',')
  }

  /** The branches in their order. */
  function Number(s: string): Option<nat> {
    if WholeAmount(s).Some? then WholeAmount(s)
    else if Spanish(s).Some? then Spanish(s)
    else if English(s).Some? then English(s)
    else Plain(s)
  }

  // ---------------------------------------------------------------- the currency

  /** No-break spaces read as spaces. */
  function Spaced(s: string): (t: string)
    ensures |t| == |s| && forall i :: 0 <= i < |s| && s[i] != '\U{00A0}' && s[i] != '\U{202F}' ==> t[i] == s[i]
    ensures forall i :: 0 <= i < |s| && (s[i] == '\U{00A0}' || s[i] == '\U{202F}') ==> t[i] == ' '
  {
    seq(|s|, i requires 0 <= i < |s| => if s[i] == '\U{00A0}' || s[i] == '\U{202F}' then ' ' else s[i])
  }

  predicate IsEur(s: string) {
    |s| == 3 && s[0] in "eE" && s[1] in "uU" && s[2] in "rR"
  }

  function DropLeadingCurrency(s: string): string {
    if s != "" && s[0] == '\U{20AC}' then TrimStart(s[1..])
    else if |s| >= 3 && IsEur(s[..3]) then TrimStart(s[3..])
    else s
  }

  function DropTrailingCurrency(s: string): string {
    if s != "" && s[|s| - 1] == '\U{20AC}' then TrimEnd(s[..|s| - 1])
    else if |s| >= 3 && IsEur(s[|s| - 3..]) then TrimEnd(s[..|s| - 3])
    else s
  }

  function Clean(s: string): string {
    Trim(DropTrailingCurrency(DropLeadingCurrency(Trim(Spaced(s)))))
  }

  /** An amount of at least a cent and below ten million euros. */
  function InRange(n: Option<nat>): Option<nat> {
    if n.Some? && 0 < n.value < CENTS_LIMIT then n else None
  }

  function EuroAmount(s: string): Option<nat> {
    if |s| > TEXT_MAX then None else InRange(Number(Clean(s)))
  }

  // ---------------------------------------------------------------- the branches agree

  /** A grouped text ends in three digits and holds a separator. */
  lemma GroupedShape(s: string, a: char, b: char)
    requires Grouped(s, a, b).Some? && !IsDigit(a) && !IsDigit(b)
    ensures |s| >= 5 && Digits(s[|s| - 3..]) && (s[|s| - 4] == a || s[|s| - 4] == b) && !Digits(s)
    ensures IsDigit(s[|s| - 1]) && IsDigit(s[|s| - 2]) && IsDigit(s[|s| - 3])
  {
    var tail := s[|s| - 3..];
    assert tail[0] == s[|s| - 3] && tail[1] == s[|s| - 2] && tail[2] == s[|s| - 1];
  }

  /** Only the separators matter that the text has. */
  lemma {:induction false} GroupedAgree(s: string)
    requires Grouped(s, '.', ' ').Some? && Grouped(s, ',', ' ').Some?
    ensures Grouped(s, '.', ' ') == Grouped(s, ',', ' ')
    decreases |s|
  {
    var left := s[..|s| - 4];
    if !(Digits(left) && |left| <= 3) {
      GroupedAgree(left);
    }
  }

  lemma CentsShape(s: string, at: nat)
    requires at < |s| && Cents(s[at + 1..]).Some?
    ensures |s| - 3 <= at < |s| - 1
    ensures forall j :: at < j < |s| ==> IsDigit(s[j])
  {
    var tail := s[at + 1..];
    forall j | at < j < |s| ensures IsDigit(s[j]) {
      assert tail[j - at - 1] == s[j];
    }
  }

  lemma SpanishEnglish(s: string)
    requires Spanish(s).Some? && English(s).Some?
    ensures Spanish(s) == English(s)
  {
    var comma, dot := Find(s, ','), Find(s, '.');
    if comma < |s| {
      CentsShape(s, comma);
    } else {
      assert s[..comma] == s;
      GroupedShape(s, '.', ' ');
    }
    if dot < |s| {
      CentsShape(s, dot);
    } else {
      assert s[..dot] == s;
      GroupedShape(s, ',', ' ');
    }
    GroupedAgree(s);
  }

  /** A grouped amount has a separator, three digits, and then its end or its decimal mark. */
  lemma GroupedSeparator(s: string, a: char, mark: char)
    requires GroupedAmount(s, a, ' ', mark).Some? && !IsDigit(a)
    ensures var at := Find(s, mark);
            at >= 5 && (s[at - 4] == a || s[at - 4] == ' ') && IsDigit(s[at - 3]) && IsDigit(s[at - 2]) && IsDigit(s[at - 1])
  {
    GroupedShape(s[..Find(s, mark)], a, ' ');
  }

  /** A plain amount is all digits but for its mark, which stands one or two digits before the end. */
  lemma PlainShape(s: string, mark: char)
    requires PlainAmount(s, mark).Some?
    ensures var at := Find(s, mark);
            |s| - 3 <= at < |s| - 1 && forall j :: 0 <= j < |s| && j != at ==> IsDigit(s[j])
  {
    var at := Find(s, mark);
    CentsShape(s, at);
    forall j | 0 <= j < |s| && j != at ensures IsDigit(s[j]) {
      if j < at {
        assert s[..at][j] == s[j];
      }
    }
  }

  lemma GroupedNotPlain(s: string, a: char, mark: char, plain: char)
    requires (a == '.' && mark == ',') || (a == ',' && mark == '.')
    requires plain == '.' || plain == ','
    ensures GroupedAmount(s, a, ' ', mark) == None || PlainAmount(s, plain) == None
  {
    if GroupedAmount(s, a, ' ', mark).Some? && PlainAmount(s, plain).Some? {
      GroupedSeparator(s, a, mark);
      PlainShape(s, plain);
    }
  }

  lemma PlainUnique(s: string)
    ensures !(PlainAmount(s, '.').Some? && PlainAmount(s, ',').Some?)
  {
    if PlainAmount(s, '.').Some? && PlainAmount(s, ',').Some? {
      CentsShape(s, Find(s, '.'));
      CentsShape(s, Find(s, ','));
    }
  }

  lemma WholeAlone(s: string)
    requires WholeAmount(s).Some?
    ensures Spanish(s) == None && English(s) == None && Plain(s) == None
  {
    assert Find(s, ',') == |s| && Find(s, '.') == |s|;
    assert s[..|s|] == s;
    if Spanish(s).Some? {
      GroupedShape(s, '.', ' ');
    }
    if English(s).Some? {
      GroupedShape(s, ',', ' ');
    }
  }

  /** Whatever forms a text has, they give one value, so the order of the branches does not matter. */
  lemma BranchesAgree(s: string)
    ensures forall n :: n in {WholeAmount(s), Spanish(s), English(s), Plain(s)} && n.Some? ==> Number(s) == n
  {
    if WholeAmount(s).Some? {
      WholeAlone(s);
    }
    if Spanish(s).Some? && English(s).Some? {
      SpanishEnglish(s);
    }
    GroupedNotPlain(s, '.', ',', '.');
    GroupedNotPlain(s, '.', ',', ',');
    GroupedNotPlain(s, ',', '.', '.');
    GroupedNotPlain(s, ',', '.', ',');
  }

  // ---------------------------------------------------------------- the printers

  function DigitChar(d: nat): (c: char)
    requires d < 10
    ensures IsDigit(c) && (c as int) - ('0' as int) == d
  {
    "0123456789"[d]
  }

  function Decimal(n: nat): string {
    if n < 10 then [DigitChar(n)] else Decimal(n / 10) + [DigitChar(n % 10)]
  }

  function TwoDigits(n: nat): string
    requires n < 100
  {
    [DigitChar(n / 10), DigitChar(n % 10)]
  }

  function ThreeDigits(n: nat): string
    requires n < 1000
  {
    [DigitChar(n / 100), DigitChar(n / 10 % 10), DigitChar(n % 10)]
  }

  /** A whole number in groups of three digits. */
  function InGroups(n: nat, separator: char): string {
    if n < 1000 then Decimal(n) else InGroups(n / 1000, separator) + [separator] + ThreeDigits(n % 1000)
  }

  /** An amount in cents as a page prints it, with its cents or, when there are none, possibly without. */
  function Print(cents: nat, separator: char, mark: char, short: bool): string {
    InGroups(cents / 100, separator) +
    if short && cents % 100 == 0 then "" else [mark] + TwoDigits(cents % 100)
  }

  // ---------------------------------------------------------------- reading what was printed

  lemma {:induction false} DecimalReads(n: nat)
    ensures Digits(Decimal(n)) && Value(Decimal(n)) == n
    ensures n < 1000 ==> |Decimal(n)| <= 3
  {
    if n >= 10 {
      DecimalReads(n / 10);
      var d := Decimal(n);
      assert d[..|d| - 1] == Decimal(n / 10);
      if n < 1000 {
        DecimalLength(n);
      }
    } else {
      assert Decimal(n)[..0] == "";
    }
  }

  lemma DecimalLength(n: nat)
    requires n < 1000
    ensures |Decimal(n)| <= 3
  {
    if n >= 100 {
      assert |Decimal(n / 10 / 10)| == 1;
      assert |Decimal(n / 10)| == 2;
    }
  }

  lemma TwoReads(n: nat)
    requires n < 100
    ensures Cents(TwoDigits(n)) == Some(n)
  {
    var t := TwoDigits(n);
    assert t[..1] == [DigitChar(n / 10)] && t[..1][..0] == "";
    assert Value(t[..1]) == n / 10;
    assert forall i :: 0 <= i < |t| ==> IsDigit(t[i]);
  }

  lemma ThreeReads(n: nat)
    requires n < 1000
    ensures Digits(ThreeDigits(n)) && Value(ThreeDigits(n)) == n
  {
    var a, b, c := n / 100, n / 10 % 10, n % 10;
    ValueNext("", a);
    ValueNext([DigitChar(a)], b);
    ValueNext([DigitChar(a), DigitChar(b)], c);
    hide Value, DigitChar;
    assert "" + [DigitChar(a)] == [DigitChar(a)] && [DigitChar(a)] + [DigitChar(b)] == [DigitChar(a), DigitChar(b)];
    assert [DigitChar(a), DigitChar(b)] + [DigitChar(c)] == ThreeDigits(n);
    assert a * 10 + b == n / 10;
  }

  lemma ValueNext(s: string, d: nat)
    requires d < 10
    ensures Value(s + [DigitChar(d)]) == Value(s) * 10 + d && Value("") == 0
  {
    assert (s + [DigitChar(d)])[..|s|] == s;
  }

  /** Grouped digits are digits and separators, never empty, and begin and end with digits. */
  lemma {:induction false} GroupsShape(n: nat, separator: char)
    ensures var g := InGroups(n, separator);
            g != "" && IsDigit(g[0]) && IsDigit(g[|g| - 1]) &&
            forall i :: 0 <= i < |g| ==> IsDigit(g[i]) || g[i] == separator
  {
    if n < 1000 {
      DecimalReads(n);
    } else {
      GroupsShape(n / 1000, separator);
      ThreeReads(n % 1000);
    }
  }

  lemma GroupedStep(left: string, separator: char, other: char, tail: string)
    requires |left| >= 1 && |tail| == 3 && Digits(tail)
    requires (Digits(left) && |left| <= 3) || (!Digits(left) && Grouped(left, separator, other).Some?)
    ensures var n := if Digits(left) then Value(left) else Grouped(left, separator, other).value;
            Grouped(left + [separator] + tail, separator, other) == Some(n * 1000 + Value(tail))
  {
    var g := left + [separator] + tail;
    assert |g| == |left| + 4 && g[|g| - 4] == separator;
    assert g[|g| - 3..] == tail && g[..|g| - 4] == left;
  }

  /** A number with a group reads back, whichever second separator is allowed. */
  lemma {:induction false} GroupsRead(n: nat, separator: char, other: char)
    requires n >= 1000 && !IsDigit(separator)
    ensures Grouped(InGroups(n, separator), separator, other) == Some(n)
  {
    var left, tail := InGroups(n / 1000, separator), ThreeDigits(n % 1000);
    assert InGroups(n, separator) == left + [separator] + tail;
    GroupsShape(n / 1000, separator);
    ThreeReads(n % 1000);
    if n / 1000 < 1000 {
      assert left == Decimal(n / 1000);
      DecimalReads(n / 1000);
    } else {
      GroupsRead(n / 1000, separator, other);
      NotDigits(n / 1000, separator);
    }
    hide Grouped, Digits, Value, Decimal, ThreeDigits, IsDigit, InGroups;
    GroupedStep(left, separator, other, tail);
    assert n / 1000 * 1000 + n % 1000 == n;
  }

  lemma NotDigits(n: nat, separator: char)
    requires n >= 1000 && !IsDigit(separator)
    ensures !Digits(InGroups(n, separator))
  {
    var g := InGroups(n, separator);
    assert g[|InGroups(n / 1000, separator)|] == separator;
  }

  lemma FindAfter(left: string, mark: char, right: string)
    requires forall i :: 0 <= i < |left| ==> left[i] != mark
    ensures Find(left + [mark] + right, mark) == |left| && Find(left, mark) == |left|
  {
    var text := left + [mark] + right;
    var at := Find(text, mark);
    assert text[|left|] == mark;
    assert forall j :: 0 <= j < |left| ==> text[j] == left[j];
  }

  lemma ReadSmall(whole: nat, rest: nat, mark: char)
    requires whole < 1000 && rest < 100 && (mark == ',' || mark == '.')
    ensures Plain(Decimal(whole) + [mark] + TwoDigits(rest)) == Some(whole * 100 + rest)
  {
    hide TwoDigits, Decimal, Value, Cents, Find;
    var g := Decimal(whole);
    var text := g + [mark] + TwoDigits(rest);
    DecimalReads(whole);
    FindAfter(g, mark, TwoDigits(rest));
    TwoReads(rest);
    assert text[..|g|] == g && text[|g| + 1..] == TwoDigits(rest);
    assert PlainAmount(text, mark) == Some(whole * 100 + rest);
    PlainUnique(text);
  }

  lemma ReadLarge(whole: nat, rest: nat, separator: char, mark: char)
    requires whole >= 1000 && rest < 100 && !IsDigit(separator) && !IsDigit(mark) && separator != mark
    ensures GroupedAmount(InGroups(whole, separator) + [mark] + TwoDigits(rest), separator, ' ', mark) == Some(whole * 100 + rest)
  {
    var g := InGroups(whole, separator);
    var text := g + [mark] + TwoDigits(rest);
    GroupsShape(whole, separator);
    GroupsRead(whole, separator, ' ');
    FindAfter(g, mark, TwoDigits(rest));
    TwoReads(rest);
    assert text[..|g|] == g && text[|g| + 1..] == TwoDigits(rest);
  }

  lemma ReadLargeShort(whole: nat, separator: char, mark: char)
    requires whole >= 1000 && !IsDigit(separator) && !IsDigit(mark) && separator != mark
    ensures GroupedAmount(InGroups(whole, separator), separator, ' ', mark) == Some(whole * 100)
  {
    var g := InGroups(whole, separator);
    GroupsShape(whole, separator);
    GroupsRead(whole, separator, ' ');
    FindAfter(g, mark, "");
    assert g[..|g|] == g;
  }

  lemma FormReads(s: string, n: nat)
    requires WholeAmount(s) == Some(n) || Spanish(s) == Some(n) || English(s) == Some(n) || Plain(s) == Some(n)
    ensures Number(s) == Some(n)
  {
    BranchesAgree(s);
  }

  ghost predicate Marks(separator: char, mark: char) {
    (separator == '.' && mark == ',') || (separator == ',' && mark == '.')
  }

  lemma LongReads(whole: nat, rest: nat, separator: char, mark: char)
    requires rest < 100 && Marks(separator, mark)
    ensures Number(InGroups(whole, separator) + [mark] + TwoDigits(rest)) == Some(whole * 100 + rest)
  {
    hide GroupedAmount, PlainAmount, Number, Decimal, TwoDigits;
    var text := InGroups(whole, separator) + [mark] + TwoDigits(rest);
    if whole < 1000 {
      ReadSmall(whole, rest, mark);
    } else {
      ReadLarge(whole, rest, separator, mark);
    }
    FormReads(text, whole * 100 + rest);
  }

  lemma ShortReads(whole: nat, separator: char, mark: char)
    requires Marks(separator, mark)
    ensures Number(InGroups(whole, separator)) == Some(whole * 100)
  {
    if whole < 1000 {
      DecimalReads(whole);
    } else {
      ReadLargeShort(whole, separator, mark);
    }
    FormReads(InGroups(whole, separator), whole * 100);
  }

  /** A printed amount is read by one of the forms. */
  lemma PrintReads(cents: nat, separator: char, mark: char, short: bool)
    requires Marks(separator, mark)
    ensures Number(Print(cents, separator, mark, short)) == Some(cents)
  {
    hide Number, Decimal, InGroups, TwoDigits;
    var whole, rest := cents / 100, cents % 100;
    if short && rest == 0 {
      ShortReads(whole, separator, mark);
      assert Print(cents, separator, mark, short) == InGroups(whole, separator);
    } else {
      LongReads(whole, rest, separator, mark);
      assert Print(cents, separator, mark, short) == InGroups(whole, separator) + [mark] + TwoDigits(rest);
    }
  }

  // ---------------------------------------------------------------- with the currency around it

  predicate Spaces(s: string) {
    forall i :: 0 <= i < |s| ==> IsSpace(s[i])
  }

  predicate IsCurrency(s: string) {
    s == "\U{20AC}" || IsEur(s)
  }

  /** The euro sign or `eur` in any case, with spaces on either side; or only spaces. */
  datatype Side = Side(outer: string, currency: string, inner: string)

  predicate ValidSide(side: Side) {
    Spaces(side.outer) && Spaces(side.inner) && (IsCurrency(side.currency) || (side.currency == "" && side.inner == ""))
  }

  function Before(side: Side): string {
    side.outer + side.currency + side.inner
  }

  function After(side: Side): string {
    side.inner + side.currency + side.outer
  }

  lemma {:induction false} TrimStartDrops(spaces: string, s: string)
    requires Spaces(spaces) && s != "" && !IsSpace(s[0])
    ensures TrimStart(spaces + s) == s
  {
    if spaces == "" {
      assert spaces + s == s;
    } else {
      assert (spaces + s)[1..] == spaces[1..] + s;
      TrimStartDrops(spaces[1..], s);
    }
  }

  lemma {:induction false} TrimEndDrops(s: string, spaces: string)
    requires Spaces(spaces) && s != "" && !IsSpace(s[|s| - 1])
    ensures TrimEnd(s + spaces) == s
  {
    hide IsSpace;
    if spaces == "" {
      assert s + spaces == s;
    } else {
      var text := s + spaces;
      assert text[..|text| - 1] == s + spaces[..|spaces| - 1];
      TrimEndDrops(s, spaces[..|spaces| - 1]);
    }
  }

  lemma SpacedSpaces(s: string)
    requires Spaces(s)
    ensures Spaces(Spaced(s)) && |Spaced(s)| == |s|
  {
  }

  lemma SpacedAppend(a: string, b: string)
    ensures Spaced(a + b) == Spaced(a) + Spaced(b)
  {
  }

  /** Text between the currencies: it begins and ends with a digit and has no no-break space. */
  predicate IsBody(s: string) {
    s != "" && IsDigit(s[0]) && IsDigit(s[|s| - 1]) && Spaced(s) == s
  }

  lemma SpacedCurrency(s: string)
    requires IsCurrency(s) || s == ""
    ensures Spaced(s) == s
    ensures s != "" ==> !IsSpace(s[0]) && !IsSpace(s[|s| - 1]) && !IsDigit(s[0]) && !IsDigit(s[|s| - 1])
  {
  }

  lemma SpacedSides(left: Side, body: string, right: Side)
    requires ValidSide(left) && ValidSide(right) && IsBody(body)
    ensures var l := Side(Spaced(left.outer), left.currency, Spaced(left.inner));
            var r := Side(Spaced(right.outer), right.currency, Spaced(right.inner));
            ValidSide(l) && ValidSide(r) && Spaced(Before(left) + body + After(right)) == Before(l) + body + After(r)
  {
    SpacedAppend(Before(left) + body, After(right));
    SpacedAppend(Before(left), body);
    SpacedAppend(left.outer + left.currency, left.inner);
    SpacedAppend(left.outer, left.currency);
    SpacedAppend(right.inner + right.currency, right.outer);
    SpacedAppend(right.inner, right.currency);
    SpacedCurrency(left.currency);
    SpacedCurrency(right.currency);
    SpacedSpaces(left.outer);
    SpacedSpaces(left.inner);
    SpacedSpaces(right.outer);
    SpacedSpaces(right.inner);
  }

  /** What is left once the outer spaces are gone. */
  function Core(left: Side, body: string, right: Side): string {
    left.currency + left.inner + body + right.inner + right.currency
  }

  lemma BodyEnds(body: string)
    requires IsBody(body)
    ensures !IsSpace(body[0]) && !IsSpace(body[|body| - 1])
  {
  }

  lemma CoreEnds(left: Side, body: string, right: Side)
    requires ValidSide(left) && ValidSide(right) && IsBody(body)
    ensures var core := Core(left, body, right);
            core != "" && !IsSpace(core[0]) && !IsSpace(core[|core| - 1])
  {
    BodyEnds(body);
    hide Spaced, IsSpace, IsDigit, Digits;
    var head, tail := left.currency + left.inner, right.inner + right.currency;
    assert Core(left, body, right) == head + body + tail;
    SpacedCurrency(left.currency);
    SpacedCurrency(right.currency);
    assert left.currency == "" ==> head == "";
    assert right.currency == "" ==> tail == "";
    OuterEnds(head, body, tail);
  }

  lemma OuterEnds(head: string, body: string, tail: string)
    requires body != ""
    ensures var text := head + body + tail;
            text != "" && text[0] == (if head != "" then head[0] else body[0]) &&
            text[|text| - 1] == if tail != "" then tail[|tail| - 1] else body[|body| - 1]
  {
  }

  lemma TrimToCore(left: Side, body: string, right: Side)
    requires ValidSide(left) && ValidSide(right) && IsBody(body)
    ensures Trim(Before(left) + body + After(right)) == Core(left, body, right)
  {
    var core := Core(left, body, right);
    CoreEnds(left, body, right);
    hide IsSpace, Spaces, TrimStart, TrimEnd, IsBody;
    assert Before(left) + body + After(right) == left.outer + (core + right.outer);
    TrimStartDrops(left.outer, core + right.outer);
    TrimEndDrops(core, right.outer);
  }

  lemma DigitIsNoSpace(c: char)
    requires IsDigit(c)
    ensures !IsSpace(c)
  {
  }

  lemma LeadingDropped(left: Side, body: string, tail: string)
    requires ValidSide(left) && body != "" && IsDigit(body[0])
    ensures DropLeadingCurrency(left.currency + left.inner + body + tail) == body + tail
  {
    DigitIsNoSpace(body[0]);
    hide IsSpace, TrimStart;
    var text, rest := left.currency + left.inner + body + tail, left.inner + (body + tail);
    assert text == left.currency + rest;
    TrimStartDrops(left.inner, body + tail);
    if left.currency == "" {
      assert text == body + tail && text[0] == body[0];
    } else if left.currency == "\U{20AC}" {
      assert text[0] == '\U{20AC}' && text[1..] == rest;
    } else {
      assert text[..3] == left.currency && text[3..] == rest && text[0] == left.currency[0];
    }
  }

  lemma TrailingDropped(body: string, right: Side)
    requires ValidSide(right) && body != "" && IsDigit(body[|body| - 1])
    ensures DropTrailingCurrency(body + right.inner + right.currency) == body
  {
    DigitIsNoSpace(body[|body| - 1]);
    hide IsSpace, TrimEnd;
    var text, rest := body + right.inner + right.currency, body + right.inner;
    TrimEndDrops(body, right.inner);
    if right.currency == "" {
      assert text == body;
    } else if right.currency == "\U{20AC}" {
      assert text[|text| - 1] == '\U{20AC}' && text[..|text| - 1] == rest;
    } else {
      assert text[|text| - 3..] == right.currency && text[..|text| - 3] == rest;
      assert text[|text| - 1] == right.currency[2];
    }
  }

  /** The currency and the spaces around it are taken off, and nothing else. */
  lemma CleanFindsBody(left: Side, body: string, right: Side)
    requires ValidSide(left) && ValidSide(right) && IsBody(body)
    ensures Clean(Before(left) + body + After(right)) == body
  {
    var l := Side(Spaced(left.outer), left.currency, Spaced(left.inner));
    var r := Side(Spaced(right.outer), right.currency, Spaced(right.inner));
    SpacedSides(left, body, right);
    TrimToCore(l, body, r);
    CoreDropped(l, body, r);
    BodyTrimmed(body);
  }

  lemma CoreDropped(left: Side, body: string, right: Side)
    requires ValidSide(left) && ValidSide(right) && IsBody(body)
    ensures DropTrailingCurrency(DropLeadingCurrency(Core(left, body, right))) == body
  {
    var tail := right.inner + right.currency;
    assert Core(left, body, right) == left.currency + left.inner + body + tail;
    LeadingDropped(left, body, tail);
    assert body + tail == body + right.inner + right.currency;
    TrailingDropped(body, right);
  }

  lemma BodyTrimmed(body: string)
    requires IsBody(body)
    ensures Trim(body) == body
  {
    assert TrimStart(body) == body && TrimEnd(body) == body;
  }

  lemma PrintIsBody(cents: nat, separator: char, mark: char, short: bool)
    requires Marks(separator, mark)
    ensures IsBody(Print(cents, separator, mark, short))
  {
    var text := Print(cents, separator, mark, short);
    GroupsShape(cents / 100, separator);
    forall i | 0 <= i < |text| ensures Spaced(text)[i] == text[i] {
    }
    assert Spaced(text) == text;
  }

  /** Every printed amount, in either notation and with the currency on either side or both, reads back. */
  lemma PrintedAmountReadsBack(cents: nat, separator: char, mark: char, short: bool, left: Side, right: Side)
    requires 0 < cents < CENTS_LIMIT
    requires Marks(separator, mark)
    requires ValidSide(left) && ValidSide(right)
    requires |Before(left) + Print(cents, separator, mark, short) + After(right)| <= TEXT_MAX
    ensures EuroAmount(Before(left) + Print(cents, separator, mark, short) + After(right)) == Some(cents)
  {
    PrintIsBody(cents, separator, mark, short);
    CleanFindsBody(left, Print(cents, separator, mark, short), right);
    PrintReads(cents, separator, mark, short);
  }
}
