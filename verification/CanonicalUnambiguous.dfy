/** Canonical texts are unambiguous: equal texts have equal meanings, whatever the order of keys is. */
module CanonicalUnambiguous {
  import opened Sorting
  import opened Canonical

  /** What may follow a value's text. */
  predicate Delim(s: string) {
    s == "" || s[0] in ",]}"
  }

  ghost predicate SameText(x: string, s: string, y: string, t: string) {
    x + s == y + t
  }

  /** Neither text is a proper beginning of the other where a delimiter must follow. */
  ghost predicate PrefixFree(x: string, y: string) {
    forall s, t :: Delim(s) && Delim(t) && SameText(x, s, y, t) ==> x == y
  }

  lemma CancelPrefix(x: string, s: string, t: string)
    requires x + s == x + t
    ensures s == t
  {
    assert (x + s)[|x|..] == s && (x + t)[|x|..] == t;
  }

  // ---------------------------------------------------------------- strings

  lemma EscapeCharPrefixFree(c: char, d: char, s: string, t: string)
    requires EscapeChar(c) + s == EscapeChar(d) + t
    ensures c == d && s == t
  {
    var left, right := EscapeChar(c), EscapeChar(d);
    assert left[0] == (left + s)[0] && right[0] == (right + t)[0];
    if |left| >= 2 && |right| >= 2 {
      assert left[1] == (left + s)[1] && right[1] == (right + t)[1];
      if |left| == 6 && |right| == 6 {
        assert left[4] == (left + s)[4] && right[4] == (right + t)[4];
        assert left[5] == (left + s)[5] && right[5] == (right + t)[5];
        HexCode(c, d);
      }
    }
    assert c == d;
    CancelPrefix(left, s, t);
  }

  lemma HexCode(c: char, d: char)
    requires c < ' ' && d < ' '
    requires (c < '\U{0010}') == (d < '\U{0010}') && HexDigit((c as int) % 16) == HexDigit((d as int) % 16)
    ensures c == d
  {
    HexInjective((c as int) % 16, (d as int) % 16);
    assert (c as int) / 16 == (d as int) / 16;
  }

  lemma HexInjective(m: nat, n: nat)
    requires m < 16 && n < 16 && HexDigit(m) == HexDigit(n)
    ensures m == n
  {
    var digits := "0123456789abcdef";
    assert digits[m] == digits[n];
  }

  /** Inside a string no quotation mark stands unescaped, so the first one ends it. */
  lemma EscapeStart(a: string, s: string)
    ensures (Escape(a) + ['"'] + s)[0] == '"' <==> a == ""
  {
    if a != "" {
      EscapeSplit(a, s);
    }
  }

  lemma EscapeSplit(a: string, s: string)
    requires a != ""
    ensures Escape(a) + ['"'] + s == EscapeChar(a[0]) + (Escape(a[1..]) + ['"'] + s)
  {
  }

  lemma EmptyEscape()
    ensures Escape("") == ""
  {
  }

  lemma {:induction false} EscapePrefixFree(a: string, b: string, s: string, t: string)
    requires Escape(a) + ['"'] + s == Escape(b) + ['"'] + t
    ensures a == b && s == t
  {
    EscapeStart(a, s);
    EscapeStart(b, t);
    hide EscapeChar, Escape;
    if a == "" && b == "" {
      EmptyEscape();
      assert Escape(a) + ['"'] + s == ['"'] + s && Escape(b) + ['"'] + t == ['"'] + t;
      CancelPrefix(['"'], s, t);
    } else if a != "" && b != "" {
      var left, right := Escape(a[1..]) + ['"'] + s, Escape(b[1..]) + ['"'] + t;
      EscapeSplit(a, s);
      EscapeSplit(b, t);
      EscapeCharPrefixFree(a[0], b[0], left, right);
      EscapePrefixFree(a[1..], b[1..], s, t);
      assert a == [a[0]] + a[1..] && b == [b[0]] + b[1..];
    }
  }

  lemma QuotePrefixFree(a: string, b: string, s: string, t: string)
    requires Quote(a) + s == Quote(b) + t
    ensures a == b && s == t
  {
    hide Escape;
    assert Quote(a) + s == ['"'] + (Escape(a) + ['"'] + s);
    assert Quote(b) + t == ['"'] + (Escape(b) + ['"'] + t);
    CancelPrefix(['"'], Escape(a) + ['"'] + s, Escape(b) + ['"'] + t);
    EscapePrefixFree(a, b, s, t);
  }

  // ---------------------------------------------------------------- numbers

  lemma NumberPrefixFree(x: string, y: string)
    requires forall i :: 0 <= i < |x| ==> NumChar(x[i])
    requires forall i :: 0 <= i < |y| ==> NumChar(y[i])
    ensures PrefixFree(x, y)
  {
    forall s, t | Delim(s) && Delim(t) && SameText(x, s, y, t) ensures x == y {
      if |x| < |y| {
        ShorterNumber(x, s, y, t);
      } else if |y| < |x| {
        ShorterNumber(y, t, x, s);
      } else {
        assert (x + s)[..|x|] == x && (y + t)[..|x|] == y;
      }
    }
  }

  lemma ShorterNumber(x: string, s: string, y: string, t: string)
    requires x + s == y + t
    ensures |x| < |y| ==> s != "" && s[0] == y[|x|]
  {
    if |x| < |y| {
      assert (x + s)[|x|] == s[0];
      assert (y + t)[|x|] == y[|x|];
    }
  }

  // ---------------------------------------------------------------- lists

  predicate Opens(text: string) {
    text != "" && text[0] !in ",]}"
  }

  ghost predicate AllPrefixFree(a: seq<string>, b: seq<string>) {
    forall i, j :: 0 <= i < |a| && 0 <= j < |b| ==> PrefixFree(a[i], b[j])
  }

  /** The rest of a list from its first comma or its closing bracket. */
  ghost function Rest(texts: seq<string>, close: char, s: string): string {
    More(texts) + [close] + s
  }

  lemma RestStart(texts: seq<string>, close: char, s: string)
    ensures Rest(texts, close, s) != "" && Rest(texts, close, s)[0] == (if texts == [] then close else ',')
    ensures texts != [] ==> Rest(texts, close, s) == [','] + (texts[0] + Rest(texts[1..], close, s))
  {
    if texts != [] {
      var more := More(texts[1..]);
      assert More(texts) == [','] + texts[0] + more;
      hide More;
      assert ([','] + texts[0] + more) + [close] + s == [','] + (texts[0] + (more + [close] + s));
    }
  }

  lemma SameItem(x: string, y: string, s: string, t: string)
    requires PrefixFree(x, y) && Delim(s) && Delim(t) && x + s == y + t
    ensures x == y && s == t
  {
    assert SameText(x, s, y, t);
    CancelPrefix(x, s, t);
  }

  lemma {:induction false} RestPrefixFree(a: seq<string>, b: seq<string>, close: char, s: string, t: string)
    requires AllPrefixFree(a, b) && close in "]}"
    requires Rest(a, close, s) == Rest(b, close, t)
    ensures a == b && s == t
  {
    RestStart(a, close, s);
    RestStart(b, close, t);
    if a == [] && b == [] {
      assert Rest(a, close, s) == [close] + s && Rest(b, close, t) == [close] + t;
      CancelPrefix([close], s, t);
    } else if a != [] && b != [] {
      var left, right := Rest(a[1..], close, s), Rest(b[1..], close, t);
      CancelPrefix([','], a[0] + left, b[0] + right);
      RestStart(a[1..], close, s);
      RestStart(b[1..], close, t);
      assert PrefixFree(a[0], b[0]);
      SameItem(a[0], b[0], left, right);
      assert AllPrefixFree(a[1..], b[1..]);
      RestPrefixFree(a[1..], b[1..], close, s, t);
      assert a == [a[0]] + a[1..] && b == [b[0]] + b[1..];
    }
  }

  lemma JoinStart(texts: seq<string>, close: char, s: string)
    requires forall i :: 0 <= i < |texts| ==> Opens(texts[i])
    ensures var text := JoinComma(texts) + [close] + s;
            text != "" && if texts == [] then text[0] == close else texts[0] != "" && text[0] == texts[0][0]
    ensures texts != [] ==> JoinComma(texts) + [close] + s == texts[0] + Rest(texts[1..], close, s)
  {
  }

  lemma JoinPrefixFree(a: seq<string>, b: seq<string>, close: char, s: string, t: string)
    requires AllPrefixFree(a, b) && close in "]}"
    requires forall i :: 0 <= i < |a| ==> Opens(a[i])
    requires forall i :: 0 <= i < |b| ==> Opens(b[i])
    requires JoinComma(a) + [close] + s == JoinComma(b) + [close] + t
    ensures a == b && s == t
  {
    JoinStart(a, close, s);
    JoinStart(b, close, t);
    if a == [] && b == [] {
      assert JoinComma(a) + [close] + s == [close] + s && JoinComma(b) + [close] + t == [close] + t;
      CancelPrefix([close], s, t);
    } else if a != [] && b != [] {
      var left, right := Rest(a[1..], close, s), Rest(b[1..], close, t);
      RestStart(a[1..], close, s);
      RestStart(b[1..], close, t);
      assert PrefixFree(a[0], b[0]);
      SameItem(a[0], b[0], left, right);
      assert AllPrefixFree(a[1..], b[1..]);
      RestPrefixFree(a[1..], b[1..], close, s, t);
      assert a == [a[0]] + a[1..] && b == [b[0]] + b[1..];
    }
  }

  // ---------------------------------------------------------------- fields

  lemma FieldPrefixFree(f: Field, g: Field)
    requires PrefixFree(f.text, g.text)
    ensures PrefixFree(FieldText(f), FieldText(g))
    ensures FieldText(f) == FieldText(g) ==> f == g
  {
    forall s, t | Delim(s) && Delim(t) && SameText(FieldText(f), s, FieldText(g), t) ensures f == g {
      FieldSame(f, g, s, t);
    }
    if FieldText(f) == FieldText(g) {
      assert SameText(FieldText(f), "", FieldText(g), "");
    }
  }

  lemma FieldSame(f: Field, g: Field, s: string, t: string)
    requires PrefixFree(f.text, g.text) && Delim(s) && Delim(t)
    requires FieldText(f) + s == FieldText(g) + t
    ensures f == g
  {
    hide Quote, PrefixFree;
    assert FieldText(f) + s == Quote(f.key) + ([':'] + (f.text + s));
    assert FieldText(g) + t == Quote(g.key) + ([':'] + (g.text + t));
    QuotePrefixFree(f.key, g.key, [':'] + (f.text + s), [':'] + (g.text + t));
    CancelPrefix([':'], f.text + s, g.text + t);
    SameItem(f.text, g.text, s, t);
  }

  // ---------------------------------------------------------------- values

  /** The first character tells what kind of value a text is. */
  function FirstChar(v: Json): char
    requires v.Num? ==> v.lexeme != ""
  {
    match v
    case Undefined => 'n'
    case Null => 'n'
    case NotFinite => 'n'
    case Bool(b) => if b then 't' else 'f'
    case Num(lexeme) => lexeme[0]
    case Str(_) => '"'
    case Date(_) => '"'
    case Arr(_) => '['
    case Obj(_) => '{'
  }

  lemma CanonStart(leq: KeyOrder, v: Json)
    requires WellFormed(v)
    ensures Canon(leq, v) != "" && Canon(leq, v)[0] == FirstChar(v) && Opens(Canon(leq, v))
  {
    if v.Arr? || v.Obj? {
      BracketStart(leq, v);
    } else {
      ScalarStart(leq, v);
    }
    hide Canon, WellFormed, FirstChar, Opens;
  }

  lemma BracketStart(leq: KeyOrder, v: Json)
    requires v.Arr? || v.Obj?
    ensures Canon(leq, v) != "" && Canon(leq, v)[0] == FirstChar(v) && Opens(Canon(leq, v))
  {
    hide FieldTexts, JoinComma, Fields, ItemTexts;
    if v.Arr? {
      CanonArr(leq, v.items);
    } else {
      CanonObj(leq, v.entries);
    }
    hide Canon;
  }

  lemma ScalarStart(leq: KeyOrder, v: Json)
    requires WellFormed(v) && !v.Arr? && !v.Obj?
    ensures Canon(leq, v) != "" && Canon(leq, v)[0] == FirstChar(v) && Opens(Canon(leq, v))
  {
    hide Escape, NumChar;
    if v.Num? {
      SignOrDigit(v.lexeme[0]);
    }
  }

  lemma SignOrDigit(c: char)
    requires c in "-0123456789"
    ensures '-' <= c <= '9'
  {
  }

  /** Where a field of an object's text comes from. */
  lemma FieldSource(leq: KeyOrder, entries: seq<Entry>, k: nat) returns (i: nat)
    requires k < |Sort(ByKey(leq), Fields(leq, entries))|
    ensures i < |entries|
    ensures Sort(ByKey(leq), Fields(leq, entries))[k] == Field(entries[i].key, Canon(leq, entries[i].value))
  {
    var fields := Fields(leq, entries);
    SortElements(ByKey(leq), fields);
    assert Sort(ByKey(leq), fields)[k] in fields;
    i :| 0 <= i < |fields| && fields[i] == Sort(ByKey(leq), fields)[k];
  }

  lemma CanonPrefixFree(leq: KeyOrder, a: Json, b: Json)
    requires WellFormed(a) && WellFormed(b)
    ensures PrefixFree(Canon(leq, a), Canon(leq, b))
    decreases a
  {
    forall s, t | Delim(s) && Delim(t) && SameText(Canon(leq, a), s, Canon(leq, b), t)
      ensures Canon(leq, a) == Canon(leq, b)
    {
      CanonSameKind(leq, a, b, s, t);
      if a.Num? {
        NumberPrefixFree(a.lexeme, b.lexeme);
      } else if a.Arr? {
        ArrayPrefixFree(leq, a, b);
        SameArrays(leq, a.items, b.items, s, t);
      } else if a.Obj? {
        ObjectPrefixFree(leq, a, b);
        SameObjects(leq, a.entries, b.entries, s, t);
      } else if a.Str? || a.Date? {
        QuotePrefixFree(TextOf(a), TextOf(b), s, t);
      }
    }
  }

  function TextOf(v: Json): string
    requires v.Str? || v.Date?
  {
    if v.Str? then v.text else v.iso
  }

  lemma SameFirst(x: string, s: string, y: string, t: string)
    requires x != "" && y != "" && x + s == y + t
    ensures x[0] == y[0]
  {
    assert (x + s)[0] == x[0] && (y + t)[0] == y[0];
  }

  lemma KindByFirst(a: Json, b: Json)
    requires WellFormed(a) && WellFormed(b) && FirstChar(a) == FirstChar(b)
    ensures (a.Num? <==> b.Num?) && (a.Arr? <==> b.Arr?) && (a.Obj? <==> b.Obj?)
    ensures (a.Str? || a.Date?) <==> (b.Str? || b.Date?)
    ensures a.Bool? <==> b.Bool?
  {
    KindOf(a);
    KindOf(b);
    hide FirstChar, WellFormed;
  }

  lemma KindOf(v: Json)
    requires WellFormed(v)
    ensures var c := FirstChar(v);
            && (v.Num? <==> NumChar(c)) && (v.Arr? <==> c == '[') && (v.Obj? <==> c == '{')
            && (v.Str? || v.Date? <==> c == '"') && (v.Bool? <==> c == 't' || c == 'f')
  {
    NumChars();
    if v.Num? {
      assert NumChar(v.lexeme[0]);
    }
    hide NumChar;
  }

  lemma NumChars()
    ensures !NumChar('n') && !NumChar('t') && !NumChar('f') && !NumChar('"') && !NumChar('[') && !NumChar('{')
  {
    NotNumChar('n');
    NotNumChar('t');
    NotNumChar('f');
    NotNumChar('"');
    NotNumChar('[');
    NotNumChar('{');
    hide NumChar;
  }

  lemma NotNumChar(c: char)
    requires c in "ntf\"[{"
    ensures !NumChar(c)
  {
  }

  lemma CanonSameKind(leq: KeyOrder, a: Json, b: Json, s: string, t: string)
    requires WellFormed(a) && WellFormed(b) && Canon(leq, a) + s == Canon(leq, b) + t
    ensures FirstChar(a) == FirstChar(b)
    ensures (a.Num? <==> b.Num?) && (a.Arr? <==> b.Arr?) && (a.Obj? <==> b.Obj?)
    ensures (a.Str? || a.Date?) <==> (b.Str? || b.Date?)
    ensures a.Bool? <==> b.Bool?
  {
    hide Canon, WellFormed;
    CanonStart(leq, a);
    CanonStart(leq, b);
    SameFirst(Canon(leq, a), s, Canon(leq, b), t);
    KindByFirst(a, b);
  }

  lemma ArrayPrefixFree(leq: KeyOrder, a: Json, b: Json)
    requires WellFormed(a) && WellFormed(b) && a.Arr? && b.Arr?
    ensures AllPrefixFree(ItemTexts(leq, a.items), ItemTexts(leq, b.items))
    decreases a, 0
  {
    forall i, j | 0 <= i < |a.items| && 0 <= j < |b.items|
      ensures PrefixFree(ItemTexts(leq, a.items)[i], ItemTexts(leq, b.items)[j])
    {
      CanonPrefixFree(leq, a.items[i], b.items[j]);
    }
  }

  lemma SortedFieldTexts(leq: KeyOrder, a: Json)
    requires WellFormed(a) && a.Obj?
    ensures forall k :: 0 <= k < |ObjectTexts(leq, a)| ==> Opens(ObjectTexts(leq, a)[k])
  {
  }

  ghost function ObjectFields(leq: KeyOrder, a: Json): seq<Field>
    requires a.Obj?
  {
    Sort(ByKey(leq), Fields(leq, a.entries))
  }

  ghost function ObjectTexts(leq: KeyOrder, a: Json): seq<string>
    requires a.Obj?
  {
    FieldTexts(ObjectFields(leq, a))
  }

  /** Different fields have different texts. */
  ghost predicate FieldTextsDiffer(left: seq<Field>, right: seq<Field>) {
    forall k, l :: 0 <= k < |left| && 0 <= l < |right| ==> FieldText(left[k]) != FieldText(right[l]) || left[k] == right[l]
  }

  lemma ObjectPrefixFree(leq: KeyOrder, a: Json, b: Json)
    requires WellFormed(a) && WellFormed(b) && a.Obj? && b.Obj?
    ensures AllPrefixFree(ObjectTexts(leq, a), ObjectTexts(leq, b))
    ensures FieldTextsDiffer(ObjectFields(leq, a), ObjectFields(leq, b))
    decreases a, 0
  {
    var left, right := ObjectFields(leq, a), ObjectFields(leq, b);
    forall k, l | 0 <= k < |left| && 0 <= l < |right|
      ensures PrefixFree(FieldText(left[k]), FieldText(right[l]))
      ensures FieldText(left[k]) == FieldText(right[l]) ==> left[k] == right[l]
    {
      var i := FieldSource(leq, a.entries, k);
      var j := FieldSource(leq, b.entries, l);
      CanonPrefixFree(leq, a.entries[i].value, b.entries[j].value);
      FieldPrefixFree(left[k], right[l]);
    }
  }

  lemma SameArrays(leq: KeyOrder, a: seq<Json>, b: seq<Json>, s: string, t: string)
    requires WellFormed(Arr(a)) && WellFormed(Arr(b))
    requires AllPrefixFree(ItemTexts(leq, a), ItemTexts(leq, b))
    requires Canon(leq, Arr(a)) + s == Canon(leq, Arr(b)) + t
    ensures ItemTexts(leq, a) == ItemTexts(leq, b) && Canon(leq, Arr(a)) == Canon(leq, Arr(b))
  {
    var left, right := ItemTexts(leq, a), ItemTexts(leq, b);
    CanonArr(leq, a);
    CanonArr(leq, b);
    forall i | 0 <= i < |a| ensures Opens(left[i]) { CanonStart(leq, a[i]); }
    forall i | 0 <= i < |b| ensures Opens(right[i]) { CanonStart(leq, b[i]); }
    SameBracketed(left, right, '[', ']', s, t);
  }

  lemma SameBracketed(a: seq<string>, b: seq<string>, open: char, close: char, s: string, t: string)
    requires AllPrefixFree(a, b) && close in "]}"
    requires forall i :: 0 <= i < |a| ==> Opens(a[i])
    requires forall i :: 0 <= i < |b| ==> Opens(b[i])
    requires [open] + JoinComma(a) + [close] + s == [open] + JoinComma(b) + [close] + t
    ensures a == b
  {
    var left, right := JoinComma(a) + [close] + s, JoinComma(b) + [close] + t;
    assert [open] + JoinComma(a) + [close] + s == [open] + left;
    assert [open] + JoinComma(b) + [close] + t == [open] + right;
    CancelPrefix([open], left, right);
    JoinPrefixFree(a, b, close, s, t);
  }

  lemma SameObjects(leq: KeyOrder, a: seq<Entry>, b: seq<Entry>, s: string, t: string)
    requires WellFormed(Obj(a)) && WellFormed(Obj(b))
    requires AllPrefixFree(ObjectTexts(leq, Obj(a)), ObjectTexts(leq, Obj(b)))
    requires Canon(leq, Obj(a)) + s == Canon(leq, Obj(b)) + t
    ensures ObjectTexts(leq, Obj(a)) == ObjectTexts(leq, Obj(b)) && Canon(leq, Obj(a)) == Canon(leq, Obj(b))
  {
    CanonObj(leq, a);
    CanonObj(leq, b);
    SortedFieldTexts(leq, Obj(a));
    SortedFieldTexts(leq, Obj(b));
    SameBracketed(ObjectTexts(leq, Obj(a)), ObjectTexts(leq, Obj(b)), '{', '}', s, t);
  }

  // ---------------------------------------------------------------- texts and meanings

  /** Equal texts mean equal values. */
  lemma TextDeterminesMeaning(leq: KeyOrder, a: Json, b: Json)
    requires WellFormed(a) && WellFormed(b) && Canon(leq, a) == Canon(leq, b)
    ensures Meaning(a) == Meaning(b)
    decreases a
  {
    assert Canon(leq, a) + "" == Canon(leq, a) && Canon(leq, b) + "" == Canon(leq, b);
    CanonSameKind(leq, a, b, "", "");
    if a.Arr? {
      ArrayPrefixFree(leq, a, b);
      SameArrays(leq, a.items, b.items, "", "");
      ArrayMeaning(leq, a, b);
    } else if a.Obj? {
      ObjectPrefixFree(leq, a, b);
      SameObjects(leq, a.entries, b.entries, "", "");
      SameFields(ObjectFields(leq, a), ObjectFields(leq, b));
      ObjectMeaning(leq, a, b);
    } else if a.Str? || a.Date? {
      QuotePrefixFree(TextOf(a), TextOf(b), "", "");
    }
  }

  lemma ArrayMeaning(leq: KeyOrder, a: Json, b: Json)
    requires WellFormed(a) && WellFormed(b) && a.Arr? && b.Arr?
    requires ItemTexts(leq, a.items) == ItemTexts(leq, b.items)
    ensures Meaning(a) == Meaning(b)
    decreases a, 0
  {
    assert |a.items| == |ItemTexts(leq, a.items)| == |b.items|;
    forall i | 0 <= i < |a.items| ensures Meaning(a.items[i]) == Meaning(b.items[i]) {
      assert ItemTexts(leq, a.items)[i] == ItemTexts(leq, b.items)[i];
      TextDeterminesMeaning(leq, a.items[i], b.items[i]);
    }
  }

  lemma SameFields(left: seq<Field>, right: seq<Field>)
    requires FieldTexts(left) == FieldTexts(right) && FieldTextsDiffer(left, right)
    ensures left == right
  {
    assert |left| == |FieldTexts(left)| == |right|;
    forall k | 0 <= k < |left| ensures left[k] == right[k] {
      assert FieldTexts(left)[k] == FieldTexts(right)[k];
    }
  }

  ghost function Members(entries: seq<Entry>): set<Member> {
    set i | 0 <= i < |entries| :: Member(entries[i].key, Meaning(entries[i].value))
  }

  lemma MeaningObj(entries: seq<Entry>)
    ensures Meaning(Obj(entries)) == VObj(Members(entries))
  {
    assert Members(entries) == set i | 0 <= i < |entries| :: Member(entries[i].key, Meaning(entries[i].value));
  }

  /** The entry of `b` that prints as entry `i` of `a` does. */
  lemma Partner(leq: KeyOrder, a: Json, b: Json, i: nat) returns (j: nat)
    requires a.Obj? && b.Obj? && ObjectFields(leq, a) == ObjectFields(leq, b) && i < |a.entries|
    ensures j < |b.entries| && b.entries[j].key == a.entries[i].key
    ensures Canon(leq, a.entries[i].value) == Canon(leq, b.entries[j].value)
  {
    var fields := Fields(leq, a.entries);
    SortElements(ByKey(leq), fields);
    SortElements(ByKey(leq), Fields(leq, b.entries));
    assert fields[i] in fields;
    assert fields[i] in Fields(leq, b.entries);
    j :| 0 <= j < |b.entries| && Fields(leq, b.entries)[j] == fields[i];
  }

  lemma ObjectMeaning(leq: KeyOrder, a: Json, b: Json)
    requires WellFormed(a) && WellFormed(b) && a.Obj? && b.Obj?
    requires ObjectFields(leq, a) == ObjectFields(leq, b)
    ensures Members(a.entries) == Members(b.entries) && Meaning(a) == Meaning(b)
    decreases a, 0
  {
    forall i | 0 <= i < |a.entries|
      ensures Member(a.entries[i].key, Meaning(a.entries[i].value)) in Members(b.entries)
    {
      var j := Partner(leq, a, b, i);
      TextDeterminesMeaning(leq, a.entries[i].value, b.entries[j].value);
    }
    forall j | 0 <= j < |b.entries|
      ensures Member(b.entries[j].key, Meaning(b.entries[j].value)) in Members(a.entries)
    {
      var i := Partner(leq, b, a, j);
      TextDeterminesMeaning(leq, a.entries[i].value, b.entries[j].value);
    }
    MeaningObj(a.entries);
    MeaningObj(b.entries);
  }
}
