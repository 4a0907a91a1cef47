/** What the canonical text of a value looks like: its strings read back, its commas, and its fields in the order of their keys. */
module CanonicalText {
  import opened Wrappers
  import opened Sorting
  import opened Canonical
  import opened CanonicalUnambiguous
  import opened CanonicalOrder

  // ---------------------------------------------------------------- strings read back

  /** The value of a hexadecimal digit. */
  function HexValue(c: char): Option<nat> {
    if '0' <= c <= '9' then Some(c as nat - '0' as nat)
    else if 'a' <= c <= 'f' then Some(10 + c as nat - 'a' as nat)
    else if 'A' <= c <= 'F' then Some(10 + c as nat - 'A' as nat)
    else None
  }

  /** The character of a four-digit escape; a surrogate is none of its own. */
  function HexChar(s: string): Option<char>
    requires |s| == 4
  {
    match (HexValue(s[0]), HexValue(s[1]), HexValue(s[2]), HexValue(s[3]))
    case (Some(p), Some(q), Some(r), Some(t)) =>
      var code := ((p * 16 + q) * 16 + r) * 16 + t;
      if code < 0xD800 then Some(code as char) else None
    case _ => None
  }

  /** The character a two-character escape stands for, by section 7 of RFC 8259. */
  function Short(c: char): Option<char> {
    if c == '"' || c == '\\' || c == '/' then Some(c)
    else if c == 'b' then Some(0x8 as char)
    else if c == 't' then Some(0x9 as char)
    else if c == 'n' then Some(0xA as char)
    else if c == 'f' then Some(0xC as char)
    else if c == 'r' then Some(0xD as char)
    else None
  }

  function Before(c: Option<char>, rest: Option<string>): Option<string> {
    if c.Some? && rest.Some? then Some([c.value] + rest.value) else None
  }

  /** The string that a JSON string's inside stands for, by section 7 of RFC 8259. */
  function Unescape(s: string): Option<string> {
    if s == "" then Some("")
    else if s[0] == '"' || s[0] as nat < 0x20 then None
    else if s[0] != '\\' then Before(Some(s[0]), Unescape(s[1..]))
    else if |s| >= 6 && s[1] == 'u' then Before(HexChar(s[2..6]), Unescape(s[6..]))
    else if |s| >= 2 then Before(Short(s[1]), Unescape(s[2..]))
    else None
  }

  lemma PlainReads(c: char, rest: string)
    requires c != '"' && c != '\\' && c as nat >= 0x20
    ensures Unescape([c] + rest) == Before(Some(c), Unescape(rest))
  {
    assert ([c] + rest)[1..] == rest;
  }

  lemma ShortReads(c: char, rest: string)
    requires c != 'u'
    ensures Unescape(['\\', c] + rest) == Before(Short(c), Unescape(rest))
  {
    assert (['\\', c] + rest)[2..] == rest;
  }

  lemma LongReads(hex: string, rest: string)
    requires |hex| == 4
    ensures Unescape(['\\', 'u'] + hex + rest) == Before(HexChar(hex), Unescape(rest))
  {
    var all := ['\\', 'u'] + hex + rest;
    assert all[2..6] == hex && all[6..] == rest;
    hide HexChar;
  }

  lemma EscapeCharReads(c: char, rest: string)
    ensures Unescape(EscapeChar(c) + rest) == Before(Some(c), Unescape(rest))
  {
    hide Unescape, HexChar, HexDigit;
    if |EscapeChar(c)| == 1 {
      PlainReads(c, rest);
    } else if |EscapeChar(c)| == 2 {
      ShortReads(EscapeChar(c)[1], rest);
    } else {
      var hex := EscapeChar(c)[2..6];
      LongReads(hex, rest);
      HexReads(c);
      assert EscapeChar(c) == ['\\', 'u'] + hex;
    }
  }

  /** Only what must be is escaped, and briefly where JSON has a letter for it. */
  lemma EscapeIsShort(c: char)
    ensures |EscapeChar(c)| == 2 <==> c in {'"', '\\', 0x8 as char, 0x9 as char, 0xA as char, 0xC as char, 0xD as char}
    ensures |EscapeChar(c)| == 6 <==> (c as nat < 0x20 && |EscapeChar(c)| != 2)
    ensures |EscapeChar(c)| == 1 <==> (c as nat >= 0x20 && c != '"' && c != '\\')
    ensures |EscapeChar(c)| == 1 ==> EscapeChar(c) == [c]
  {
  }

  lemma HexReads(c: char)
    requires |EscapeChar(c)| == 6
    ensures HexChar(EscapeChar(c)[2..6]) == Some(c)
  {
    var n := c as nat;
    var s := EscapeChar(c)[2..6];
    assert n < 32 && s[0] == '0' && s[1] == '0' && s[2] == (if n < 16 then '0' else '1') && s[3] == HexDigit(n % 16);
    DigitReads(n % 16);
    hide HexDigit;
  }

  lemma DigitReads(n: nat)
    requires n < 16
    ensures HexValue(HexDigit(n)) == Some(n)
  {
  }

  /** A string's text is read as the string. */
  lemma {:induction false} EscapeReads(s: string)
    ensures Unescape(Escape(s)) == Some(s)
  {
    if s != "" {
      EscapeReads(s[1..]);
      EscapeCharReads(s[0], Escape(s[1..]));
      assert [s[0]] + s[1..] == s;
    }
  }

  // ---------------------------------------------------------------- values

  /** The texts of values that hold no others. */
  lemma Scalars(leq: KeyOrder, v: Json)
    ensures v in {Undefined, Null, NotFinite} ==> Canon(leq, v) == "null"
    ensures v == Bool(true) ==> Canon(leq, v) == "true"
    ensures v == Bool(false) ==> Canon(leq, v) == "false"
    ensures v.Num? ==> Canon(leq, v) == v.lexeme
    ensures v.Str? || v.Date? ==>
              var text := if v.Str? then v.text else v.iso;
              |Canon(leq, v)| >= 2 && Canon(leq, v)[0] == '"' && Canon(leq, v)[|Canon(leq, v)| - 1] == '"' &&
              Unescape(Canon(leq, v)[1..|Canon(leq, v)| - 1]) == Some(text)
  {
    if v.Str? || v.Date? {
      var text := if v.Str? then v.text else v.iso;
      EscapeReads(text);
      assert Quote(text)[1..|Quote(text)| - 1] == Escape(text);
    }
  }

  /** Texts are joined by single commas. */
  lemma Commas(texts: seq<string>, last: string)
    ensures JoinComma([]) == "" && JoinComma([last]) == last
    ensures texts != [] ==> JoinComma(texts + [last]) == JoinComma(texts) + "," + last
  {
    assert More([]) == "" && [last][1..] == [];
    if texts != [] {
      MoreNext(texts[1..], last);
      assert (texts + [last])[1..] == texts[1..] + [last];
    }
  }

  lemma {:induction false} MoreNext(texts: seq<string>, last: string)
    ensures More(texts + [last]) == More(texts) + "," + last
  {
    if texts == [] {
      assert [] + [last] == [last] && [last][1..] == [];
    } else {
      MoreNext(texts[1..], last);
      assert (texts + [last])[1..] == texts[1..] + [last];
    }
  }

  /** An array's text is its items' texts in order. */
  lemma ArrayText(leq: KeyOrder, items: seq<Json>) returns (texts: seq<string>)
    ensures |texts| == |items| && forall i :: 0 <= i < |items| ==> texts[i] == Canon(leq, items[i])
    ensures Canon(leq, Arr(items)) == "[" + JoinComma(texts) + "]"
  {
    texts := ItemTexts(leq, items);
    CanonArr(leq, items);
  }

  /** An object's text is its fields in the order of their keys, each once. */
  lemma ObjectText(leq: KeyOrder, entries: seq<Entry>) returns (fields: seq<Field>)
    requires TotalPreorder(leq)
    ensures multiset(fields) == multiset(seq(|entries|, i requires 0 <= i < |entries| => Field(entries[i].key, Canon(leq, entries[i].value))))
    ensures forall i, j :: 0 <= i < j < |fields| ==> leq(fields[i].key, fields[j].key)
    ensures Canon(leq, Obj(entries)) == "{" + JoinComma(FieldTexts(fields)) + "}"
    ensures forall i :: 0 <= i < |fields| ==> FieldTexts(fields)[i] == "\"" + Escape(fields[i].key) + "\":" + fields[i].text
  {
    fields := Sort(ByKey(leq), Fields(leq, entries));
    CanonObj(leq, entries);
    ByKeyPreorder(leq);
    SortSorted(ByKey(leq), Fields(leq, entries));
    SortMultiset(ByKey(leq), Fields(leq, entries));
  }
}
