/** Which texts are read as an amount: exactly those of the four forms, with a currency or spaces on either side. */
module EuroShape {
  import opened Wrappers
  import opened JsText
  import opened Euro

  /** One to three digits, then groups of a separator and three digits: the separators stand at every fourth place from the end. */
  predicate Groups(s: string, a: char, b: char) {
    |s| >= 5 && |s| % 4 != 0 &&
    forall i :: 0 <= i < |s| ==> if (|s| - i) % 4 == 0 then s[i] == a || s[i] == b else '0' <= s[i] <= '9'
  }

  /** An amount whose whole part ends at `at`: digits or groups, and then nothing, or a decimal mark and one or two digits. */
  predicate Written(s: string, at: nat) {
    at <= |s| &&
    if at == |s| then Digits(s) || Groups(s, '.', ' ') || Groups(s, ',', ' ')
    else
      && |s| - 3 <= at < |s| - 1 && Digits(s[at + 1..])
      && ((s[at] == ',' && (Digits(s[..at]) || Groups(s[..at], '.', ' '))) || (s[at] == '.' && (Digits(s[..at]) || Groups(s[..at], ',', ' '))))
  }

  /** The digits of a text. */
  function Bare(s: string): string {
    if s == "" then "" else Bare(s[..|s| - 1]) + if IsDigit(s[|s| - 1]) then [s[|s| - 1]] else ""
  }

  /** What such a text is worth in cents. */
  function Worth(s: string, at: nat): nat
    requires at <= |s|
  {
    Value(Bare(s[..at])) * 100 +
    if at + 2 == |s| then Value(s[at + 1..]) * 10 else if at < |s| then Value(s[at + 1..]) else 0
  }

  // ---------------------------------------------------------------- groups

  lemma {:induction false} BareDigits(s: string)
    requires forall i :: 0 <= i < |s| ==> IsDigit(s[i])
    ensures Bare(s) == s
  {
    if s != "" {
      BareDigits(s[..|s| - 1]);
      assert s == s[..|s| - 1] + [s[|s| - 1]];
    }
  }

  lemma {:induction false} BareAppend(s: string, t: string)
    ensures Bare(s + t) == Bare(s) + Bare(t)
  {
    if t == "" {
      assert s + t == s;
    } else {
      assert (s + t)[..|s + t| - 1] == s + t[..|t| - 1];
      BareAppend(s, t[..|t| - 1]);
    }
  }

  lemma ValueStep(s: string)
    requires s != "" && IsDigit(s[|s| - 1])
    ensures Value(s) == Value(s[..|s| - 1]) * 10 + (s[|s| - 1] as int - '0' as int)
  {
  }

  lemma ValueThree(s: string, t: string)
    requires |t| == 3 && Digits(t)
    ensures Value(s + t) == Value(s) * 1000 + Value(t)
  {
    var all := s + t;
    ValueStep(all);
    ValueStep(all[..|all| - 1]);
    ValueStep(all[..|all| - 2]);
    assert all[..|all| - 1][..|all| - 2] == all[..|all| - 2] && all[..|all| - 2][..|all| - 3] == s;
    ValueStep(t);
    ValueStep(t[..2]);
    ValueStep(t[..1]);
    assert t[..2][..1] == t[..1] && t[..1][..0] == "";
  }

  lemma GroupsStep(s: string, a: char, b: char)
    requires |s| >= 8 && !IsDigit(a) && !IsDigit(b)
    ensures Groups(s, a, b) <==> Groups(s[..|s| - 4], a, b) && (s[|s| - 4] == a || s[|s| - 4] == b) && Digits(s[|s| - 3..])
  {
    hide Groups, Digits;
    if Groups(s, a, b) {
      GroupsShorter(s, a, b);
    }
    if Groups(s[..|s| - 4], a, b) && (s[|s| - 4] == a || s[|s| - 4] == b) && Digits(s[|s| - 3..]) {
      GroupsLonger(s, a, b);
    }
  }

  lemma GroupsShorter(s: string, a: char, b: char)
    requires |s| >= 8 && Groups(s, a, b)
    ensures Groups(s[..|s| - 4], a, b) && (s[|s| - 4] == a || s[|s| - 4] == b) && Digits(s[|s| - 3..])
  {
    var left, tail := s[..|s| - 4], s[|s| - 3..];
    forall i | 0 <= i < 3 ensures IsDigit(tail[i]) {
      assert tail[i] == s[|s| - 3 + i];
    }
    forall i | 0 <= i < |left| ensures if (|left| - i) % 4 == 0 then left[i] == a || left[i] == b else '0' <= left[i] <= '9' {
      assert left[i] == s[i] && |s| - i == |left| - i + 4;
    }
  }

  lemma GroupsLonger(s: string, a: char, b: char)
    requires |s| >= 8 && Groups(s[..|s| - 4], a, b) && (s[|s| - 4] == a || s[|s| - 4] == b) && Digits(s[|s| - 3..])
    ensures Groups(s, a, b)
  {
    var left, tail := s[..|s| - 4], s[|s| - 3..];
    forall i | 0 <= i < |s| ensures if (|s| - i) % 4 == 0 then s[i] == a || s[i] == b else '0' <= s[i] <= '9' {
      if i < |left| {
        assert left[i] == s[i] && |s| - i == |left| - i + 4;
      } else if i >= |s| - 3 {
        assert tail[i - (|s| - 3)] == s[i];
      }
    }
  }

  lemma OneGroup(s: string, a: char, b: char)
    requires 5 <= |s| <= 7 && !IsDigit(a) && !IsDigit(b)
    ensures Groups(s, a, b) <==> Digits(s[..|s| - 4]) && (s[|s| - 4] == a || s[|s| - 4] == b) && Digits(s[|s| - 3..])
  {
    var left, tail := s[..|s| - 4], s[|s| - 3..];
    assert forall i :: 0 <= i < 3 ==> tail[i] == s[|s| - 3 + i];
    assert forall i :: 0 <= i < |left| ==> left[i] == s[i];
    assert tail[0] == s[|s| - 3] && tail[1] == s[|s| - 2] && tail[2] == s[|s| - 1];
  }

  /** The search for groups from the end finds exactly these texts. */
  lemma {:induction false} GroupedIff(s: string, a: char, b: char)
    requires !IsDigit(a) && !IsDigit(b)
    ensures Grouped(s, a, b).Some? <==> Groups(s, a, b)
    ensures Grouped(s, a, b).Some? ==> Grouped(s, a, b).value == Value(Bare(s))
    decreases |s|
  {
    hide Groups, Value, Bare;
    if |s| >= 5 {
      var left := s[..|s| - 4];
      if |left| <= 3 {
        OneGroup(s, a, b);
      } else {
        GroupsStep(s, a, b);
        GroupedIff(left, a, b);
      }
      if Grouped(s, a, b).Some? {
        GroupWorth(s);
        assert |left| <= 3 ==> Bare(left) == left by {
          if |left| <= 3 {
            assert Grouped(left, a, b) == None && Digits(left);
            BareDigits(left);
          }
        }
      }
    } else {
      TooShort(s, a, b);
    }
  }

  lemma TooShort(s: string, a: char, b: char)
    requires |s| < 5
    ensures !Groups(s, a, b)
  {
  }

  lemma GroupWorth(s: string)
    requires |s| >= 5 && !IsDigit(s[|s| - 4]) && Digits(s[|s| - 3..])
    ensures Value(Bare(s)) == Value(Bare(s[..|s| - 4])) * 1000 + Value(s[|s| - 3..])
  {
    hide Value;
    var left, tail := s[..|s| - 4], s[|s| - 3..];
    assert s == left + [s[|s| - 4]] + tail;
    BareAppend(left + [s[|s| - 4]], tail);
    BareAppend(left, [s[|s| - 4]]);
    BareOther(s[|s| - 4]);
    BareDigits(tail);
    assert Bare(left) + "" == Bare(left);
    ValueThree(Bare(left), tail);
  }

  lemma BareOther(c: char)
    requires !IsDigit(c)
    ensures Bare([c]) == ""
  {
    assert [c][..0] == "";
  }

  // ---------------------------------------------------------------- the four forms

  lemma NoMark(s: string, mark: char)
    requires forall i :: 0 <= i < |s| ==> s[i] != mark
    ensures Find(s, mark) == |s| && s[..Find(s, mark)] == s
  {
  }

  lemma MarkAt(s: string, mark: char, at: nat)
    requires at < |s| && s[at] == mark && forall i :: 0 <= i < at ==> s[i] != mark
    ensures Find(s, mark) == at
  {
  }

  lemma CentsAre(s: string)
    ensures Cents(s).Some? <==> Digits(s) && |s| <= 2
    ensures Cents(s).Some? ==> Cents(s).value == if |s| == 1 then Value(s) * 10 else Value(s)
  {
  }

  lemma DigitsBare(s: string)
    requires Digits(s)
    ensures Bare(s) == s
  {
    BareDigits(s);
  }

  /** Groups of one separator hold no mark of the other kind. */
  lemma GroupsHold(s: string, a: char, mark: char)
    requires Groups(s, a, ' ') && !IsDigit(mark) && mark != a && mark != ' '
    ensures forall i :: 0 <= i < |s| ==> s[i] != mark
  {
  }

  lemma GroupedReads(s: string, at: nat, a: char, mark: char)
    requires Marks(a, mark) && at <= |s| && Groups(s[..at], a, ' ')
    requires at == |s| || (s[at] == mark && |s| - 3 <= at < |s| - 1 && Digits(s[at + 1..]))
    ensures GroupedAmount(s, a, ' ', mark) == Some(Worth(s, at))
  {
    GroupsHold(s[..at], a, mark);
    GroupedIff(s[..at], a, ' ');
    assert forall i :: 0 <= i < at ==> s[..at][i] == s[i];
    hide Groups, Grouped, Value, Bare, Find, Cents;
    if at == |s| {
      assert s[..at] == s;
      NoMark(s, mark);
    } else {
      MarkAt(s, mark, at);
      CentsAre(s[at + 1..]);
    }
  }

  lemma PlainReads(s: string, at: nat, mark: char)
    requires at < |s| && !IsDigit(mark) && s[at] == mark && |s| - 3 <= at < |s| - 1 && Digits(s[..at]) && Digits(s[at + 1..])
    ensures PlainAmount(s, mark) == Some(Worth(s, at))
  {
    hide Value, Bare, Find, Cents, Digits, IsDigit;
    var whole, rest := s[..at], s[at + 1..];
    DigitsBare(whole);
    MarkAfterDigits(s, at, mark);
    CentsAre(rest);
    assert |rest| == 1 || |rest| == 2;
    assert Worth(s, at) == Value(whole) * 100 + Cents(rest).value;
  }

  lemma MarkAfterDigits(s: string, at: nat, mark: char)
    requires at < |s| && !IsDigit(mark) && s[at] == mark && Digits(s[..at])
    ensures Find(s, mark) == at
  {
    assert forall i :: 0 <= i < at ==> s[..at][i] == s[i];
    hide Find;
    MarkAt(s, mark, at);
  }

  /** Every text of the four forms is read as what it is worth. */
  lemma WrittenReads(s: string, at: nat)
    requires Written(s, at)
    ensures Number(s) == Some(Worth(s, at))
  {
    hide Groups, Number, Value, Bare, GroupedAmount, PlainAmount;
    if at == |s| {
      assert s[..at] == s;
      if Digits(s) {
        DigitsBare(s);
      } else if Groups(s, '.', ' ') {
        GroupedReads(s, at, '.', ',');
      } else {
        GroupedReads(s, at, ',', '.');
      }
    } else if Digits(s[..at]) {
      PlainReads(s, at, s[at]);
      PlainUnique(s);
    } else if s[at] == ',' {
      GroupedReads(s, at, '.', ',');
    } else {
      GroupedReads(s, at, ',', '.');
    }
    FormReads(s, Worth(s, at));
  }

  lemma GroupedWritten(s: string, a: char, mark: char)
    requires Marks(a, mark) && GroupedAmount(s, a, ' ', mark).Some?
    ensures Written(s, Find(s, mark))
  {
    var at := Find(s, mark);
    GroupedIff(s[..at], a, ' ');
    hide Groups, Grouped, Value, Find, Cents;
    if at == |s| {
      assert s[..at] == s;
    } else {
      CentsAre(s[at + 1..]);
    }
  }

  lemma PlainWritten(s: string, mark: char)
    requires (mark == ',' || mark == '.') && PlainAmount(s, mark).Some?
    ensures Written(s, Find(s, mark))
  {
    hide Value, Find, Cents, Groups;
    CentsAre(s[Find(s, mark) + 1..]);
  }

  /** No other text is read. */
  lemma ReadIsWritten(s: string) returns (at: nat)
    requires Number(s).Some?
    ensures Written(s, at) && Number(s) == Some(Worth(s, at))
  {
    if WholeAmount(s).Some? {
      at := |s|;
    } else if Spanish(s).Some? {
      GroupedWritten(s, '.', ',');
      at := Find(s, ',');
    } else if English(s).Some? {
      GroupedWritten(s, ',', '.');
      at := Find(s, '.');
    } else {
      var mark := if PlainAmount(s, '.').Some? then '.' else ',';
      PlainWritten(s, mark);
      at := Find(s, mark);
    }
    WrittenReads(s, at);
  }

  // ---------------------------------------------------------------- what stands around an amount

  /** The sign, or three letters in any case. */
  lemma CurrencyIff(s: string)
    ensures IsCurrency(s) <==> s in {"\U{20AC}", "eur", "Eur", "eUr", "euR", "EUr", "EuR", "eUR", "EUR"}
  {
    if IsEur(s) {
      assert s == [s[0], s[1], s[2]];
    }
  }

  lemma SpacesBefore(s: string) returns (spaces: string)
    ensures s == spaces + TrimStart(s) && Spaces(spaces) && (TrimStart(s) != "" ==> !IsSpace(TrimStart(s)[0]))
  {
    hide IsSpace, TrimStart;
    TrimStartIs(s);
    var n := |s| - |TrimStart(s)|;
    spaces := s[..n];
    assert s == s[..n] + s[n..];
  }

  lemma SpacesAfter(s: string) returns (spaces: string)
    ensures s == TrimEnd(s) + spaces && Spaces(spaces) && (TrimEnd(s) != "" ==> !IsSpace(TrimEnd(s)[|TrimEnd(s)| - 1]))
  {
    hide IsSpace, TrimEnd;
    TrimEndIs(s);
    var n := |TrimEnd(s)|;
    spaces := s[n..];
    assert s == s[..n] + s[n..];
  }

  /** The ends of a text are no spaces. */
  predicate Bounded(s: string) {
    s == "" || (!IsSpace(s[0]) && !IsSpace(s[|s| - 1]))
  }

  lemma LeadingIs(s: string) returns (currency: string, inner: string)
    requires Bounded(s)
    ensures s == currency + inner + DropLeadingCurrency(s) && Spaces(inner) && (IsCurrency(currency) || (currency == "" && inner == ""))
    ensures Bounded(DropLeadingCurrency(s))
  {
    hide TrimStart, IsEur, Spaces, IsSpace, DropLeadingCurrency;
    var n := LeadingLength(s);
    currency, inner := s[..n], "";
    NoSpaces();
    if n > 0 {
      inner := SpacesBefore(s[n..]);
    }
    var rest := DropLeadingCurrency(s);
    assert s == s[..n] + s[n..] && s[n..] == inner + rest;
    assert rest != "" ==> rest[|rest| - 1] == s[|s| - 1];
    assert n == 0 ==> s[n..] == s;
  }

  lemma LeadingLength(s: string) returns (n: nat)
    ensures n <= |s| && (n > 0 ==> IsCurrency(s[..n])) && DropLeadingCurrency(s) == if n == 0 then s else TrimStart(s[n..])
  {
    hide TrimStart, IsEur;
    n := if s != "" && s[0] == '\U{20AC}' then 1 else if |s| >= 3 && IsEur(s[..3]) then 3 else 0;
  }

  lemma TrailingLength(s: string) returns (n: nat)
    ensures n <= |s| && (n > 0 ==> IsCurrency(s[|s| - n..])) && DropTrailingCurrency(s) == if n == 0 then s else TrimEnd(s[..|s| - n])
  {
    hide TrimEnd, IsEur;
    n := if s != "" && s[|s| - 1] == '\U{20AC}' then 1 else if |s| >= 3 && IsEur(s[|s| - 3..]) then 3 else 0;
  }

  lemma TrailingIs(s: string) returns (currency: string, inner: string)
    requires Bounded(s)
    ensures s == DropTrailingCurrency(s) + inner + currency && Spaces(inner) && (IsCurrency(currency) || (currency == "" && inner == ""))
    ensures Bounded(DropTrailingCurrency(s))
  {
    hide TrimEnd, IsEur, Spaces, IsSpace, DropTrailingCurrency;
    var n := TrailingLength(s);
    var m := |s| - n;
    currency, inner := s[m..], "";
    NoSpaces();
    if n > 0 {
      inner := SpacesAfter(s[..m]);
    }
    var rest := DropTrailingCurrency(s);
    assert n == 0 ==> s[..m] == s;
    assert s == s[..m] + s[m..] && s[..m] == rest + inner;
    assert rest != "" ==> rest[0] == s[0];
  }

  lemma NoSpaces()
    ensures Spaces("")
  {
  }

  lemma TrimNothing(s: string)
    requires Bounded(s)
    ensures Trim(s) == s
  {
  }

  /** Cleaning takes off white space, one currency before and one after, and nothing else. */
  lemma CleanIs(s: string) returns (left: Side, right: Side)
    ensures ValidSide(left) && ValidSide(right) && Spaced(s) == Before(left) + Clean(s) + After(right)
  {
    hide IsSpace, Spaced, Trim, DropLeadingCurrency, DropTrailingCurrency, IsCurrency;
    var outerLeft, outerRight := TrimIs(Spaced(s));
    var core := Trim(Spaced(s));
    var currencyLeft, innerLeft := LeadingIs(core);
    var rest := DropLeadingCurrency(core);
    var currencyRight, innerRight := TrailingIs(rest);
    TrimNothing(DropTrailingCurrency(rest));
    left, right := Side(outerLeft, currencyLeft, innerLeft), Side(outerRight, currencyRight, innerRight);
  }

  // ---------------------------------------------------------------- amounts

  lemma WrittenIsBody(s: string, at: nat)
    requires Written(s, at)
    ensures IsBody(s)
  {
    if at < |s| {
      assert forall i :: 0 <= i < at ==> s[..at][i] == s[i];
      assert forall i :: at < i < |s| ==> s[at + 1..][i - at - 1] == s[i];
    }
    assert forall i :: 0 <= i < |s| ==> IsDigit(s[i]) || s[i] == '.' || s[i] == ',' || s[i] == ' ';
    assert Spaced(s) == s;
  }

  /** What is read as an amount, and as which: no text but a written one, with sides that are valid, below 33 characters and in range. */
  lemma AmountIsWritten(s: string) returns (left: Side, body: string, right: Side, at: nat)
    requires EuroAmount(s).Some?
    ensures ValidSide(left) && ValidSide(right) && Spaced(s) == Before(left) + body + After(right)
    ensures |s| <= 32 && Written(body, at) && EuroAmount(s) == Some(Worth(body, at)) && 1 <= Worth(body, at) <= 999_999_999
  {
    left, right := CleanIs(s);
    body := Clean(s);
    at := ReadIsWritten(body);
  }

  /** And each such text is. */
  lemma WrittenIsAmount(s: string, left: Side, body: string, right: Side, at: nat)
    requires ValidSide(left) && ValidSide(right) && Spaced(s) == Before(left) + body + After(right)
    requires |s| <= 32 && Written(body, at) && 1 <= Worth(body, at) <= 999_999_999
    ensures EuroAmount(s) == Some(Worth(body, at))
  {
    WrittenIsBody(body, at);
    CleanFindsBody(left, body, right);
    assert Spaced(Spaced(s)) == Spaced(s);
    WrittenReads(body, at);
  }
}
