/** Whether a text names something: across joined tokens, or as written between open boundaries. */
module NameMatch {

  // ---------------------------------------------------------------- tokens

  function Joined(tokens: seq<string>): string {
    if tokens == [] then "" else Joined(tokens[..|tokens| - 1]) + tokens[|tokens| - 1]
  }

  /** Tokens are joined in order. */
  lemma {:induction false} JoinedAppend(a: seq<string>, b: seq<string>)
    ensures Joined(a + b) == Joined(a) + Joined(b) && forall t :: Joined([t]) == t
  {
    if b == [] {
      assert a + b == a;
    } else {
      assert (a + b)[..|a + b| - 1] == a + b[..|b| - 1];
      JoinedAppend(a, b[..|b| - 1]);
    }
    forall t ensures Joined([t]) == t {
      assert [t][..0] == [];
    }
  }

  /** Consecutive tokens, joined, spell `needle`. */
  ghost predicate Spells(haystack: seq<string>, needle: string) {
    exists start, end :: 0 <= start < end <= |haystack| && Joined(haystack[start..end]) == needle
  }

  lemma {:induction false} JoinedPrefix(tokens: seq<string>, n: nat)
    requires n <= |tokens|
    ensures Joined(tokens[..n]) <= Joined(tokens)
    decreases |tokens|
  {
    if n < |tokens| {
      var init := tokens[..|tokens| - 1];
      assert init[..n] == tokens[..n];
      JoinedPrefix(init, n);
    } else {
      assert tokens[..n] == tokens;
    }
  }

  /** Once the joined tokens reach the needle's length or leave it, longer ranges cannot spell it. */
  lemma BreakIsSafe(haystack: seq<string>, needle: string, start: nat, stop: nat, end: nat)
    requires start < stop < end <= |haystack| && Joined(haystack[start..stop]) != needle
    requires |Joined(haystack[start..stop])| >= |needle| || !(Joined(haystack[start..stop]) <= needle)
    ensures Joined(haystack[start..end]) != needle
  {
    var long := haystack[start..end];
    assert long[..stop - start] == haystack[start..stop];
    JoinedPrefix(long, stop - start);
  }

  /** The early exits of the search lose nothing. */
  method TokensSpell(haystack: seq<string>, needle: string) returns (found: bool)
    ensures found <==> needle != "" && Spells(haystack, needle)
  {
    if needle == "" {
      return false;
    }
    for start := 0 to |haystack|
      invariant forall s, e :: 0 <= s < start && s < e <= |haystack| ==> Joined(haystack[s..e]) != needle
    {
      var joined := "";
      var end := start;
      assert haystack[start..start] == [];
      while end < |haystack|
        invariant start <= end <= |haystack| && joined == Joined(haystack[start..end])
        invariant forall e :: start < e <= end ==> Joined(haystack[start..e]) != needle
        decreases |haystack| - end
      {
        assert haystack[start..end + 1][..end - start] == haystack[start..end];
        joined := joined + haystack[end];
        end := end + 1;
        if joined == needle {
          return true;
        }
        if |joined| >= |needle| || !(joined <= needle) {
          forall e | end < e <= |haystack| ensures Joined(haystack[start..e]) != needle {
            BreakIsSafe(haystack, needle, start, end, e);
          }
          break;
        }
      }
    }
    found := false;
  }

  // ---------------------------------------------------------------- boundaries

  /** The character classes the boundaries are read by; a digit is a word character. */
  datatype Classes = Classes(word: char -> bool, digit: char -> bool)

  predicate OccursAt(haystack: string, needle: string, at: int) {
    0 <= at && at + |needle| <= |haystack| && haystack[at..at + |needle|] == needle
  }

  /** A dot with a digit beyond it continues the number it touches. */
  predicate Continues(c: Classes, haystack: string, separator: int, next: int) {
    0 <= separator < |haystack| && haystack[separator] == '.' && 0 <= next < |haystack| && c.digit(haystack[next])
  }

  /** Position `outside` does not carry on the word or number whose character `edge` is; `beyond` lies behind it. */
  predicate Open(c: Classes, haystack: string, edge: char, outside: int, beyond: int) {
    !c.word(edge) || !(0 <= outside < |haystack|) ||
    (!c.word(haystack[outside]) && !(c.digit(edge) && Continues(c, haystack, outside, beyond)))
  }

  /**
   * An occurrence that stands as a whole word or number: a word character at its end is not followed by another, nor a digit by a
   * dot and a digit; and likewise before it.
   */
  predicate StandsAt(c: Classes, haystack: string, needle: string, at: int): (r: bool)
    requires needle != ""
    ensures r ==> 0 <= at <= at + |needle| <= |haystack| && haystack[at..at + |needle|] == needle
    ensures r && at > 0 && c.word(needle[0]) ==>
              !c.word(haystack[at - 1]) && !(c.digit(needle[0]) && at > 1 && haystack[at - 1] == '.' && c.digit(haystack[at - 2]))
    ensures var end := at + |needle|;
            r && end < |haystack| && c.word(needle[|needle| - 1]) ==>
              !c.word(haystack[end]) &&
              !(c.digit(needle[|needle| - 1]) && end + 1 < |haystack| && haystack[end] == '.' && c.digit(haystack[end + 1]))
    ensures var end := at + |needle|;
            0 <= at <= end <= |haystack| && haystack[at..end] == needle && !r ==>
              (at > 0 && c.word(needle[0]) &&
               (c.word(haystack[at - 1]) || (c.digit(needle[0]) && at > 1 && haystack[at - 1] == '.' && c.digit(haystack[at - 2])))) ||
              (end < |haystack| && c.word(needle[|needle| - 1]) &&
               (c.word(haystack[end]) ||
                (c.digit(needle[|needle| - 1]) && end + 1 < |haystack| && haystack[end] == '.' && c.digit(haystack[end + 1]))))
  {
    var end := at + |needle|;
    OccursAt(haystack, needle, at) &&
    Open(c, haystack, needle[0], at - 1, at - 2) && Open(c, haystack, needle[|needle| - 1], end, end + 1)
  }

  /** The first occurrence from `start` on, or -1. */
  method IndexOf(haystack: string, needle: string, start: nat) returns (at: int)
    ensures at == -1 || (start <= at && OccursAt(haystack, needle, at))
    ensures forall j :: start <= j && OccursAt(haystack, needle, j) ==> 0 <= at <= j
  {
    at := start;
    while at + |needle| <= |haystack|
      invariant start <= at && forall j :: start <= j < at ==> !OccursAt(haystack, needle, j)
      decreases |haystack| - at
    {
      if haystack[at..at + |needle|] == needle {
        return;
      }
      at := at + 1;
    }
    at := -1;
  }

  /** Every occurrence is tried, overlapping ones included. */
  method Holds(c: Classes, haystack: string, needle: string) returns (found: bool)
    ensures found <==> needle != "" && exists at :: StandsAt(c, haystack, needle, at)
  {
    if needle == "" {
      return false;
    }
    var at := IndexOf(haystack, needle, 0);
    while at >= 0
      invariant at == -1 || OccursAt(haystack, needle, at)
      invariant forall j :: StandsAt(c, haystack, needle, j) ==> 0 <= at <= j
      decreases if at < 0 then 0 else |haystack| - at + 1
    {
      var end := at + |needle|;
      var open := Open(c, haystack, needle[0], at - 1, at - 2);
      var close := Open(c, haystack, needle[|needle| - 1], end, end + 1);
      if open && close {
        assert StandsAt(c, haystack, needle, at);
        return true;
      }
      at := IndexOf(haystack, needle, at + 1);
    }
    found := false;
  }
}
