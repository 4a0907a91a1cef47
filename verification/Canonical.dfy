/**
 * The canonical text a value is hashed over: object keys are sorted, so the text must not depend on
 * key order, and different values must have different texts.
 */
module Canonical {
  import opened Sorting

  /** A value as the program holds it; numbers stand for the text they print as. */
  datatype Json =
    | Undefined
    | Null
    | NotFinite
    | Bool(b: bool)
    | Num(lexeme: string)
    | Str(text: string)
    | Date(iso: string)
    | Arr(items: seq<Json>)
    | Obj(entries: seq<Entry>)

  datatype Entry = Entry(key: string, value: Json)

  /** An object's entry once its value is printed. */
  datatype Field = Field(key: string, text: string)

  type KeyOrder = (string, string) -> bool

  // ---------------------------------------------------------------- the printer

  function HexDigit(n: nat): char
    requires n < 16
  {
    "0123456789abcdef"[n]
  }

  function EscapeChar(c: char): string {
    if c == '"' then ['\\', '"']
    else if c == '\\' then ['\\', '\\']
    else if c == '\U{0008}' then ['\\', 'b']
    else if c == '\t' then ['\\', 't']
    else if c == '\n' then ['\\', 'n']
    else if c == '\U{000C}' then ['\\', 'f']
    else if c == '\r' then ['\\', 'r']
    else if c < ' ' then ['\\', 'u', '0', '0', if c < '\U{0010}' then '0' else '1', HexDigit((c as int) % 16)]
    else [c]
  }

  function Escape(s: string): string {
    if s == "" then "" else EscapeChar(s[0]) + Escape(s[1..])
  }

  function Quote(s: string): string {
    ['"'] + Escape(s) + ['"']
  }

  /** The texts after the first, each behind its comma. */
  function More(texts: seq<string>): string {
    if texts == [] then "" else [','] + texts[0] + More(texts[1..])
  }

  function JoinComma(texts: seq<string>): string {
    if texts == [] then "" else texts[0] + More(texts[1..])
  }

  function FieldText(f: Field): string {
    Quote(f.key) + [':'] + f.text
  }

  function FieldTexts(fields: seq<Field>): seq<string> {
    seq(|fields|, i requires 0 <= i < |fields| => FieldText(fields[i]))
  }

  function ByKey(leq: KeyOrder): (Field, Field) -> bool {
    (f: Field, g: Field) => leq(f.key, g.key)
  }

  function Canon(leq: KeyOrder, v: Json): string
    decreases v
  {
    match v
    case Undefined => "null"
    case Null => "null"
    case NotFinite => "null"
    case Bool(b) => if b then "true" else "false"
    case Num(lexeme) => lexeme
    case Str(text) => Quote(text)
    case Date(iso) => Quote(iso)
    case Arr(items) => ['['] + JoinComma(seq(|items|, i requires 0 <= i < |items| => Canon(leq, items[i]))) + [']']
    case Obj(entries) =>
      var fields := seq(|entries|, i requires 0 <= i < |entries| => Field(entries[i].key, Canon(leq, entries[i].value)));
      ['{'] + JoinComma(FieldTexts(Sort(ByKey(leq), fields))) + ['}']
  }

  function ItemTexts(leq: KeyOrder, items: seq<Json>): seq<string> {
    seq(|items|, i requires 0 <= i < |items| => Canon(leq, items[i]))
  }

  function Fields(leq: KeyOrder, entries: seq<Entry>): seq<Field> {
    seq(|entries|, i requires 0 <= i < |entries| => Field(entries[i].key, Canon(leq, entries[i].value)))
  }

  lemma CanonObj(leq: KeyOrder, entries: seq<Entry>)
    ensures Canon(leq, Obj(entries)) == ['{'] + JoinComma(FieldTexts(Sort(ByKey(leq), Fields(leq, entries)))) + ['}']
  {
    assert Fields(leq, entries) ==
      seq(|entries|, i requires 0 <= i < |entries| => Field(entries[i].key, Canon(leq, entries[i].value)));
  }

  lemma CanonArr(leq: KeyOrder, items: seq<Json>)
    ensures Canon(leq, Arr(items)) == ['['] + JoinComma(ItemTexts(leq, items)) + [']']
  {
    assert ItemTexts(leq, items) == seq(|items|, i requires 0 <= i < |items| => Canon(leq, items[i]));
  }

  // ---------------------------------------------------------------- the meaning of a value

  /** A value up to what the text leaves out: key order, and the kinds that print alike. */
  datatype Value =
    | VNull
    | VBool(b: bool)
    | VNum(lexeme: string)
    | VStr(text: string)
    | VArr(items: seq<Value>)
    | VObj(members: set<Member>)

  datatype Member = Member(key: string, value: Value)

  ghost function Meaning(v: Json): Value
    decreases v
  {
    match v
    case Undefined => VNull
    case Null => VNull
    case NotFinite => VNull
    case Bool(b) => VBool(b)
    case Num(lexeme) => VNum(lexeme)
    case Str(text) => VStr(text)
    case Date(iso) => VStr(iso)
    case Arr(items) => VArr(seq(|items|, i requires 0 <= i < |items| => Meaning(items[i])))
    case Obj(entries) => VObj(set i | 0 <= i < |entries| :: Member(entries[i].key, Meaning(entries[i].value)))
  }

  predicate NumChar(c: char) {
    c in "0123456789+-.eE"
  }

  ghost predicate UniqueKeys(entries: seq<Entry>) {
    forall i, j :: 0 <= i < j < |entries| ==> entries[i].key != entries[j].key
  }

  /** What every value of the program satisfies: numbers print as numbers, and an object's keys are distinct. */
  ghost predicate WellFormed(v: Json)
    decreases v
  {
    match v
    case Num(lexeme) => lexeme != "" && lexeme[0] in "-0123456789" && forall i :: 0 <= i < |lexeme| ==> NumChar(lexeme[i])
    case Arr(items) => forall i :: 0 <= i < |items| ==> WellFormed(items[i])
    case Obj(entries) => UniqueKeys(entries) && forall i :: 0 <= i < |entries| ==> WellFormed(entries[i].value)
    case _ => true
  }
}
