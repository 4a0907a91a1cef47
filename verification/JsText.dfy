/** The few string operations of JavaScript that the models share. */
module JsText {

  /** White space and line terminators, the characters `trim` removes. */
  predicate IsSpace(c: char) {
    c in "\t\n\r \U{000B}\U{000C}\U{00A0}\U{1680}\U{2028}\U{2029}\U{202F}\U{205F}\U{3000}\U{FEFF}" ||
    '\U{2000}' <= c <= '\U{200A}'
  }

  function TrimStart(s: string): string {
    if s != "" && IsSpace(s[0]) then TrimStart(s[1..]) else s
  }

  function TrimEnd(s: string): string {
    if s != "" && IsSpace(s[|s| - 1]) then TrimEnd(s[..|s| - 1]) else s
  }

  function Trim(s: string): string {
    TrimEnd(TrimStart(s))
  }

  predicate Blank(s: string) {
    Trim(s) == ""
  }

  predicate StartsWith(s: string, prefix: string) {
    prefix <= s
  }

  // ---------------------------------------------------------------- lines

  /** The pieces between line feeds; the last one is the unterminated tail. */
  function Split(text: string): (pieces: seq<string>)
    ensures |pieces| >= 1
    ensures forall k :: 0 <= k < |pieces| ==> '\n' !in pieces[k]
    ensures Join(pieces) == text
  {
    if text == "" then [""]
    else
      var rest := Split(text[1..]);
      JoinFirst(text, rest);
      if text[0] == '\n' then [""] + rest else [[text[0]] + rest[0]] + rest[1..]
  }

  /** The pieces put back together with line feeds between them. */
  function Join(pieces: seq<string>): string
    requires pieces != []
  {
    if |pieces| == 1 then pieces[0] else pieces[0] + "\n" + Join(pieces[1..])
  }

  lemma JoinFirst(text: string, rest: seq<string>)
    requires text != "" && rest != [] && Join(rest) == text[1..]
    ensures text[0] == '\n' ==> Join([""] + rest) == text
    ensures text[0] != '\n' ==> Join([[text[0]] + rest[0]] + rest[1..]) == text
  {
    assert ([""] + rest)[1..] == rest;
    var grown := [[text[0]] + rest[0]] + rest[1..];
    if |rest| > 1 {
      assert grown[1..] == rest[1..];
      assert [text[0]] + rest[0] + "\n" + Join(rest[1..]) == [text[0]] + (rest[0] + "\n" + Join(rest[1..]));
    }
  }

  /** The pieces of two texts joined: the last piece of one continues into the first of the other. */
  function Glue(left: seq<string>, right: seq<string>): seq<string>
    requires left != []
  {
    if right == [] then left
    else left[..|left| - 1] + [left[|left| - 1] + right[0]] + right[1..]
  }

  lemma GlueNew(rest: seq<string>, right: seq<string>)
    requires rest != [] && right != []
    ensures Glue([""] + rest, right) == [""] + Glue(rest, right)
  {
    var more := [""] + rest;
    assert more[..|more| - 1] == [""] + rest[..|rest| - 1];
  }

  /** Reading one more character in front commutes with gluing. */
  lemma GlueFirst(c: char, rest: seq<string>, right: seq<string>)
    requires rest != [] && right != []
    ensures var glued := Glue(rest, right);
            Glue([[c] + rest[0]] + rest[1..], right) == [[c] + glued[0]] + glued[1..]
  {
    var glued := Glue(rest, right);
    var first := [[c] + rest[0]] + rest[1..];
    if |rest| == 1 {
      assert [c] + rest[0] + right[0] == [c] + (rest[0] + right[0]);
    } else {
      assert first[..|first| - 1] == [[c] + rest[0]] + rest[..|rest| - 1][1..];
      assert glued[1..] == rest[..|rest| - 1][1..] + [rest[|rest| - 1] + right[0]] + right[1..];
    }
  }

  lemma {:induction false} SplitAppend(a: string, b: string)
    ensures Split(a + b) == Glue(Split(a), Split(b))
  {
    var right := Split(b);
    if a == "" {
      assert a + b == b;
      assert "" + right[0] == right[0];
      assert Glue([""], right) == right;
    } else {
      assert (a + b)[1..] == a[1..] + b;
      SplitAppend(a[1..], b);
      GlueNew(Split(a[1..]), right);
      GlueFirst(a[0], Split(a[1..]), right);
    }
  }

  // ---------------------------------------------------------------- trimming

  lemma TrimEndPrefix(s: string)
    ensures TrimEnd(s) <= s
  {
    if s != "" && IsSpace(s[|s| - 1]) {
      TrimEndPrefix(s[..|s| - 1]);
    }
  }

  lemma {:induction false} TrimStartIs(s: string)
    ensures var n := |s| - |TrimStart(s)|;
            0 <= n <= |s| && TrimStart(s) == s[n..] && (forall i :: 0 <= i < n ==> IsSpace(s[i])) && (n < |s| ==> !IsSpace(s[n]))
  {
    hide IsSpace;
    if s != "" && IsSpace(s[0]) {
      var tail := s[1..];
      TrimStartIs(tail);
      var n := |tail| - |TrimStart(tail)|;
      assert TrimStart(s) == TrimStart(tail) == tail[n..] == s[n + 1..];
      assert forall i :: 0 <= i < |tail| ==> tail[i] == s[i + 1];
    }
  }

  lemma {:induction false} TrimEndIs(s: string)
    ensures var n := |TrimEnd(s)|;
            n <= |s| && TrimEnd(s) == s[..n] && (forall i :: n <= i < |s| ==> IsSpace(s[i])) && (n > 0 ==> !IsSpace(s[n - 1]))
  {
    hide IsSpace;
    if s != "" && IsSpace(s[|s| - 1]) {
      var init := s[..|s| - 1];
      TrimEndIs(init);
      assert init[..|TrimEnd(init)|] == s[..|TrimEnd(init)|];
      assert forall i :: 0 <= i < |init| ==> init[i] == s[i];
    }
  }

  /** Trimming takes the white space from both ends and nothing else. */
  lemma TrimIs(s: string) returns (left: string, right: string)
    ensures s == left + Trim(s) + right
    ensures (forall i :: 0 <= i < |left| ==> IsSpace(left[i])) && forall i :: 0 <= i < |right| ==> IsSpace(right[i])
    ensures Trim(s) != "" ==> !IsSpace(Trim(s)[0]) && !IsSpace(Trim(s)[|Trim(s)| - 1])
  {
    hide IsSpace, TrimStart, TrimEnd;
    var rest := TrimStart(s);
    TrimStartIs(s);
    TrimEndIs(rest);
    left, right := s[..|s| - |rest|], rest[|Trim(s)|..];
    assert rest == Trim(s) + right && s == left + rest;
  }

  lemma BlankIff(s: string)
    ensures Blank(s) <==> forall i :: 0 <= i < |s| ==> IsSpace(s[i])
  {
    var left, right := TrimIs(s);
    if !Blank(s) {
      assert s[|left|] == Trim(s)[0];
    }
  }
}
