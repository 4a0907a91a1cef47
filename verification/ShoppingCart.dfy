/**
 * Matching cart lines to chosen products one line at a time: each line takes the first product still open
 * that it fits. Compared with what it stands for, a perfect matching of lines and products.
 */
module ShoppingCart {
  import opened Wrappers
  import opened Permutations

  /** A chosen product: its page, and its name as compared. */
  datatype Product = Product(key: string, name: string)

  /** A cart line's product page, if it shows one, and its name, if it has one. */
  datatype Line = Line(key: Option<string>, name: Option<string>)

  /** By the product page, or by the name when the line has no page. */
  predicate Fits(line: Line, p: Product): (r: bool)
    ensures r <==> line.key == Some(p.key) || (line.key == None && line.name == Some(p.name))
  {
    if line.key.Some? then p.key == line.key.value else line.name == Some(p.name)
  }

  function FirstFit(open: seq<Product>, line: Line): (i: nat)
    ensures i <= |open| && (i < |open| ==> Fits(line, open[i])) && forall j :: 0 <= j < i ==> !Fits(line, open[j])
  {
    if open == [] || Fits(line, open[0]) then 0 else 1 + FirstFit(open[1..], line)
  }

  datatype Matching = Matching(open: seq<Product>, matched: nat)

  function Take(m: Matching, line: Line): Matching {
    var i := FirstFit(m.open, line);
    if i < |m.open| then Matching(Without(m.open, i), m.matched + 1) else m
  }

  /** What is left open, and how many lines matched, after the lines in turn. */
  function Greedy(chosen: seq<Product>, lines: seq<Line>): Matching {
    if lines == [] then Matching(chosen, 0) else Take(Greedy(chosen, lines[..|lines| - 1]), lines[|lines| - 1])
  }

  /** Every line took a product, and none is left. */
  predicate Complete(chosen: seq<Product>, lines: seq<Line>) {
    var m := Greedy(chosen, lines);
    m.matched == |lines| && m.open == []
  }

  method MatchLines(chosen: seq<Product>, lines: seq<Line>) returns (open: seq<Product>, matched: nat)
    ensures Matching(open, matched) == Greedy(chosen, lines)
  {
    open, matched := chosen, 0;
    for k := 0 to |lines|
      invariant Matching(open, matched) == Greedy(chosen, lines[..k])
    {
      assert lines[..k + 1][..k] == lines[..k];
      var i := FirstFit(open, lines[k]);
      if i < |open| {
        open := Without(open, i);
        matched := matched + 1;
      }
    }
    assert lines[..|lines|] == lines;
  }

  // ---------------------------------------------------------------- perfect matchings

  /** `to` gives each line a product of its own that it fits. */
  ghost predicate Assigns(chosen: seq<Product>, lines: seq<Line>, to: seq<nat>) {
    |to| == |lines| && Distinct(to) && forall i :: 0 <= i < |lines| ==> to[i] < |chosen| && Fits(lines[i], chosen[to[i]])
  }

  ghost predicate PerfectMatching(chosen: seq<Product>, lines: seq<Line>) {
    |lines| == |chosen| && exists to :: Assigns(chosen, lines, to)
  }

  function Picked(chosen: seq<Product>, at: seq<nat>): seq<Product>
    requires forall k :: 0 <= k < |at| ==> at[k] < |chosen|
  {
    seq(|at|, k requires 0 <= k < |at| => chosen[at[k]])
  }

  lemma {:induction false} MatchedBound(chosen: seq<Product>, lines: seq<Line>)
    ensures var m := Greedy(chosen, lines); m.matched <= |lines| && |m.open| + m.matched == |chosen|
  {
    if lines != [] {
      MatchedBound(chosen, lines[..|lines| - 1]);
    }
  }

  /** The lines took the products at `to`, and those at `left` are open. */
  ghost predicate Traced(chosen: seq<Product>, lines: seq<Line>, to: seq<nat>, left: seq<nat>) {
    && Assigns(chosen, lines, to) && Distinct(to + left)
    && (forall k :: 0 <= k < |left| ==> left[k] < |chosen|)
    && Greedy(chosen, lines).open == Picked(chosen, left)
  }

  lemma TraceStart(chosen: seq<Product>) returns (left: seq<nat>)
    ensures Traced(chosen, [], [], left)
  {
    left := seq(|chosen|, k => k);
    assert [] + left == left;
    assert Picked(chosen, left) == chosen;
  }

  lemma GreedyNext(chosen: seq<Product>, init: seq<Line>, last: Line)
    ensures Greedy(chosen, init + [last]) == Take(Greedy(chosen, init), last)
  {
    assert (init + [last])[..|init|] == init;
  }

  lemma AssignsNext(chosen: seq<Product>, init: seq<Line>, last: Line, to: seq<nat>, own: nat)
    requires Assigns(chosen, init, to) && own < |chosen| && Fits(last, chosen[own]) && Distinct(to + [own])
    ensures Assigns(chosen, init + [last], to + [own])
  {
  }

  lemma PickedWithout(chosen: seq<Product>, at: seq<nat>, i: nat)
    requires (forall k :: 0 <= k < |at| ==> at[k] < |chosen|) && i < |at|
    ensures forall k :: 0 <= k < |Without(at, i)| ==> Without(at, i)[k] < |chosen|
    ensures Picked(chosen, Without(at, i)) == Without(Picked(chosen, at), i)
  {
  }

  lemma TraceNext(chosen: seq<Product>, init: seq<Line>, last: Line, to: seq<nat>, left: seq<nat>, i: nat)
    requires Traced(chosen, init, to, left) && i == FirstFit(Greedy(chosen, init).open, last) && i < |left|
    ensures Traced(chosen, init + [last], to + [left[i]], Without(left, i))
  {
    hide Distinct, Assigns, Greedy, Fits;
    GreedyNext(chosen, init, last);
    MovedDistinct(to, left, i);
    assert Picked(chosen, left)[i] == chosen[left[i]];
    AssignsNext(chosen, init, last, to, left[i]);
    PickedWithout(chosen, left, i);
  }

  /** Which products the lines took, and which are left, while every line has found one. */
  lemma {:induction false} Trace(chosen: seq<Product>, lines: seq<Line>) returns (to: seq<nat>, left: seq<nat>)
    requires Greedy(chosen, lines).matched == |lines|
    ensures Traced(chosen, lines, to, left)
  {
    if lines == [] {
      to := [];
      left := TraceStart(chosen);
    } else {
      var init, last := lines[..|lines| - 1], lines[|lines| - 1];
      MatchedBound(chosen, init);
      var before, rest := Trace(chosen, init);
      var i := FirstFit(Greedy(chosen, init).open, last);
      TraceNext(chosen, init, last, before, rest, i);
      assert lines == init + [last];
      to, left := before + [rest[i]], Without(rest, i);
    }
  }

  lemma MovedDistinct(a: seq<nat>, b: seq<nat>, i: nat)
    requires i < |b| && Distinct(a + b)
    ensures Distinct(a + [b[i]] + Without(b, i)) && Distinct(a + [b[i]])
  {
    assert b == b[..i] + [b[i]] + b[i + 1..];
    var moved := a + [b[i]] + Without(b, i);
    assert multiset(moved) == multiset(a + b);
    PermutationDistinct(a + b, moved);
    forall j, k | 0 <= j < k < |a + [b[i]]| ensures (a + [b[i]])[j] != (a + [b[i]])[k] {
      assert moved[j] == (a + [b[i]])[j] && moved[k] == (a + [b[i]])[k];
    }
  }

  /** Whenever it completes there is a perfect matching: the one it made. */
  lemma CompleteMeans(chosen: seq<Product>, lines: seq<Line>)
    requires Complete(chosen, lines)
    ensures PerfectMatching(chosen, lines)
  {
    MatchedBound(chosen, lines);
    var to, left := Trace(chosen, lines);
  }

  // ---------------------------------------------------------------- distinct products

  ghost predicate DistinctKeys(chosen: seq<Product>) {
    forall i, j :: 0 <= i < j < |chosen| ==> chosen[i].key != chosen[j].key
  }

  ghost predicate DistinctNames(chosen: seq<Product>) {
    forall i, j :: 0 <= i < j < |chosen| ==> chosen[i].name != chosen[j].name
  }

  lemma OneFit(chosen: seq<Product>, line: Line, p: Product, r: Product)
    requires DistinctKeys(chosen) && DistinctNames(chosen) && p in chosen && r in chosen && Fits(line, p) && Fits(line, r)
    ensures p == r
  {
    var i :| 0 <= i < |chosen| && chosen[i] == p;
    var j :| 0 <= j < |chosen| && chosen[j] == r;
  }

  lemma WithoutElements(s: seq<Product>, i: nat)
    requires Distinct(s) && i < |s|
    ensures Distinct(Without(s, i)) && forall p :: p in Without(s, i) <==> p in s && p != s[i]
  {
    var t := Without(s, i);
    forall p ensures p in t <==> p in s && p != s[i] {
      if p in s && p != s[i] {
        var k :| 0 <= k < |s| && s[k] == p;
        assert t[if k < i then k else k - 1] == p;
      }
      if p in t {
        var k :| 0 <= k < |t| && t[k] == p;
        assert s[if k < i then k else k + 1] == p;
      }
    }
  }

  /** The open products are those not assigned to the lines so far. */
  ghost predicate OpenAre(chosen: seq<Product>, to: seq<nat>, open: seq<Product>)
    requires forall k :: 0 <= k < |to| ==> to[k] < |chosen|
  {
    Distinct(open) && forall p :: p in open <==> p in chosen && forall k :: 0 <= k < |to| ==> p != chosen[to[k]]
  }

  lemma OpenNext(chosen: seq<Product>, to: seq<nat>, own: nat, open: seq<Product>, i: nat)
    requires own < |chosen| && (forall k :: 0 <= k < |to| ==> to[k] < |chosen|)
    requires OpenAre(chosen, to, open) && i < |open| && open[i] == chosen[own]
    ensures OpenAre(chosen, to + [own], Without(open, i))
  {
    WithoutElements(open, i);
    var all := to + [own];
    forall p ensures p in Without(open, i) <==> p in chosen && forall k :: 0 <= k < |all| ==> p != chosen[all[k]] {
      if p in chosen && forall k :: 0 <= k < |all| ==> p != chosen[all[k]] {
        assert p != chosen[all[|to|]];
        assert forall k :: 0 <= k < |to| ==> all[k] == to[k];
      }
    }
  }

  lemma OwnIsOpen(chosen: seq<Product>, to: seq<nat>, own: nat, open: seq<Product>)
    requires DistinctKeys(chosen) && own < |chosen| && (forall k :: 0 <= k < |to| ==> to[k] < |chosen|)
    requires OpenAre(chosen, to, open) && own !in to
    ensures chosen[own] in open
  {
    forall k | 0 <= k < |to| ensures chosen[own] != chosen[to[k]] {
      if to[k] < own {
        assert chosen[to[k]].key != chosen[own].key;
      } else {
        assert to[k] in to;
        assert chosen[own].key != chosen[to[k]].key;
      }
    }
  }

  lemma FitsItsOwn(chosen: seq<Product>, line: Line, own: Product, open: seq<Product>) returns (i: nat)
    requires DistinctKeys(chosen) && DistinctNames(chosen) && own in chosen && own in open && Fits(line, own)
    requires forall p :: p in open ==> p in chosen
    ensures i == FirstFit(open, line) && i < |open| && open[i] == own
  {
    i := FirstFit(open, line);
    var j :| 0 <= j < |open| && open[j] == own;
    assert open[i] in chosen;
    OneFit(chosen, line, own, open[i]);
  }

  lemma AssignsPrefix(chosen: seq<Product>, lines: seq<Line>, to: seq<nat>)
    requires Assigns(chosen, lines, to) && lines != []
    ensures Assigns(chosen, lines[..|lines| - 1], to[..|lines| - 1])
    ensures to[|lines| - 1] !in to[..|lines| - 1]
  {
  }

  lemma TakesNext(chosen: seq<Product>, init: seq<Line>, last: Line, to: seq<nat>, own: nat)
    requires DistinctKeys(chosen) && DistinctNames(chosen) && Assigns(chosen, init, to)
    requires own < |chosen| && own !in to && Fits(last, chosen[own])
    requires Greedy(chosen, init).matched == |init| && OpenAre(chosen, to, Greedy(chosen, init).open)
    ensures Greedy(chosen, init + [last]).matched == |init| + 1
    ensures OpenAre(chosen, to + [own], Greedy(chosen, init + [last]).open)
  {
    var open := Greedy(chosen, init).open;
    OwnIsOpen(chosen, to, own, open);
    var i := FitsItsOwn(chosen, last, chosen[own], open);
    OpenNext(chosen, to, own, open, i);
    GreedyNext(chosen, init, last);
  }

  lemma FitsLast(chosen: seq<Product>, lines: seq<Line>, to: seq<nat>)
    requires Assigns(chosen, lines, to) && lines != []
    ensures |to| == |lines| && to[|lines| - 1] < |chosen| && Fits(lines[|lines| - 1], chosen[to[|lines| - 1]])
  {
  }

  /** Each line takes its own product, the only one it fits, so that product is still open when its turn comes. */
  lemma {:induction false} TakesItsOwn(chosen: seq<Product>, lines: seq<Line>, to: seq<nat>)
    requires DistinctKeys(chosen) && DistinctNames(chosen) && Assigns(chosen, lines, to)
    ensures Greedy(chosen, lines).matched == |lines| && OpenAre(chosen, to, Greedy(chosen, lines).open)
  {
    hide *;
    if lines == [] {
      NothingTaken(chosen, lines, to);
    } else {
      var n := |lines| - 1;
      FitsLast(chosen, lines, to);
      AssignsPrefix(chosen, lines, to);
      TakesItsOwn(chosen, lines[..n], to[..n]);
      TakesNext(chosen, lines[..n], lines[n], to[..n], to[n]);
      assert to[..n] + [to[n]] == to && lines[..n] + [lines[n]] == lines;
    }
  }

  lemma NothingTaken(chosen: seq<Product>, lines: seq<Line>, to: seq<nat>)
    requires DistinctKeys(chosen) && Assigns(chosen, lines, to) && lines == []
    ensures Greedy(chosen, lines).matched == |lines| && OpenAre(chosen, to, Greedy(chosen, lines).open)
  {
  }

  /** With distinct pages and names, taking the first fit finds a perfect matching whenever there is one. */
  lemma DistinctComplete(chosen: seq<Product>, lines: seq<Line>)
    requires DistinctKeys(chosen) && DistinctNames(chosen) && PerfectMatching(chosen, lines)
    ensures Complete(chosen, lines)
  {
    var to :| Assigns(chosen, lines, to);
    TakesItsOwn(chosen, lines, to);
    MatchedBound(chosen, lines);
  }

  // ---------------------------------------------------------------- a repeated name

  function Keyed(chosen: seq<Product>): seq<Line> {
    seq(|chosen|, k requires 0 <= k < |chosen| => Line(Some(chosen[k].key), None))
  }

  /** A cart of two products with one name: the first line shows only the name, the others show pages, and none that of `b`. */
  function NameFirst(chosen: seq<Product>, b: nat): seq<Line>
    requires b < |chosen|
  {
    [Line(None, Some(chosen[b].name))] + Keyed(Without(chosen, b))
  }

  function Except(n: nat, b: nat): seq<nat>
    requires b < n
  {
    seq(n - 1, k => if k < b then k else k + 1)
  }

  lemma NameFirstMatches(chosen: seq<Product>, b: nat)
    requires b < |chosen|
    ensures PerfectMatching(chosen, NameFirst(chosen, b))
  {
    var lines, to := NameFirst(chosen, b), [b] + Except(|chosen|, b);
    forall i | 0 <= i < |lines| ensures to[i] < |chosen| && Fits(lines[i], chosen[to[i]]) {
      if i > 0 {
        assert lines[i] == Keyed(Without(chosen, b))[i - 1];
        assert Without(chosen, b)[i - 1] == chosen[Except(|chosen|, b)[i - 1]];
      }
    }
    assert Assigns(chosen, lines, to);
  }

  /** Once a product is taken, the line that shows its page stays without one. */
  lemma {:induction false} OpenSubset(chosen: seq<Product>, first: seq<Line>, more: seq<Line>)
    ensures forall p :: p in Greedy(chosen, first + more).open ==> p in Greedy(chosen, first).open
  {
    if more == [] {
      assert first + more == first;
    } else {
      assert (first + more)[..|first + more| - 1] == first + more[..|more| - 1];
      OpenSubset(chosen, first, more[..|more| - 1]);
    }
  }

  lemma {:induction false} NoFit(open: seq<Product>, line: Line)
    requires forall p :: p in open ==> !Fits(line, p)
    ensures FirstFit(open, line) == |open|
  {
    if open != [] {
      assert open[0] in open;
      NoFit(open[1..], line);
    }
  }

  lemma {:induction false} UnmatchedLine(chosen: seq<Product>, lines: seq<Line>, n: nat)
    requires n < |lines| && forall p :: p in Greedy(chosen, lines[..n]).open ==> !Fits(lines[n], p)
    ensures Greedy(chosen, lines).matched < |lines|
  {
    var init := lines[..|lines| - 1];
    if n == |init| {
      MatchedBound(chosen, init);
      NoFit(Greedy(chosen, init).open, lines[n]);
    } else {
      assert init[..n] == lines[..n];
      UnmatchedLine(chosen, init, n);
    }
  }

  lemma NameFirstFails(chosen: seq<Product>, a: nat, b: nat)
    requires DistinctKeys(chosen) && a < b < |chosen| && chosen[a].name == chosen[b].name
    ensures !Complete(chosen, NameFirst(chosen, b))
  {
    var lines := NameFirst(chosen, b);
    var first := FirstFit(chosen, lines[0]);
    assert Fits(lines[0], chosen[a]) && first <= a;
    assert lines[..1] == [lines[0]] && [lines[0]][..0] == [];
    assert Greedy(chosen, []) == Matching(chosen, 0);
    assert Greedy(chosen, lines[..1]).open == Without(chosen, first);
    var n := first + 1;
    assert lines[n] == Keyed(Without(chosen, b))[first] && Without(chosen, b)[first] == chosen[first];
    assert lines[..1] + lines[1..n] == lines[..n];
    OpenSubset(chosen, lines[..1], lines[1..n]);
    forall p | p in Greedy(chosen, lines[..n]).open ensures !Fits(lines[n], p) {
      PageTaken(chosen, first, lines[n], p);
    }
    hide Fits, Greedy, NameFirst;
    UnmatchedLine(chosen, lines, n);
  }

  /** A line that shows the page of a product taken fits no other. */
  lemma PageTaken(chosen: seq<Product>, first: nat, line: Line, p: Product)
    requires DistinctKeys(chosen) && first < |chosen| && line.key == Some(chosen[first].key) && p in Without(chosen, first)
    ensures !Fits(line, p)
  {
    var k :| 0 <= k < |Without(chosen, first)| && Without(chosen, first)[k] == p;
    assert p == chosen[if k < first then k else k + 1];
  }

  /** For products of distinct pages: it finds every perfect matching, in any order of lines, exactly when their names differ too. */
  lemma FindsEveryMatchingIff(chosen: seq<Product>)
    requires DistinctKeys(chosen)
    ensures (forall lines :: PerfectMatching(chosen, lines) ==> Complete(chosen, lines)) <==> DistinctNames(chosen)
  {
    if DistinctNames(chosen) {
      forall lines | PerfectMatching(chosen, lines) ensures Complete(chosen, lines) {
        DistinctComplete(chosen, lines);
      }
    } else {
      var a, b :| 0 <= a < b < |chosen| && chosen[a].name == chosen[b].name;
      NameFirstMatches(chosen, b);
      NameFirstFails(chosen, a, b);
    }
  }

  /** With distinct pages and names the order of the lines does not matter. */
  lemma LineOrderIrrelevant(chosen: seq<Product>, lines: seq<Line>, other: seq<Line>)
    requires DistinctKeys(chosen) && DistinctNames(chosen) && multiset(lines) == multiset(other)
    ensures Complete(chosen, lines) ==> Complete(chosen, other)
  {
    if Complete(chosen, lines) {
      CompleteMeans(chosen, lines);
      MatchingReordered(chosen, lines, other);
      DistinctComplete(chosen, other);
    }
  }

  lemma MatchingReordered(chosen: seq<Product>, lines: seq<Line>, other: seq<Line>)
    requires PerfectMatching(chosen, lines) && multiset(lines) == multiset(other)
    ensures PerfectMatching(chosen, other)
  {
    var to :| Assigns(chosen, lines, to);
    var moved := Reassign(chosen, lines, other, to);
    assert |other| == |multiset(other)| && |lines| == |multiset(lines)|;
  }

  lemma {:induction false} Reassign(chosen: seq<Product>, lines: seq<Line>, other: seq<Line>, to: seq<nat>) returns (moved: seq<nat>)
    requires Assigns(chosen, lines, to) && multiset(lines) == multiset(other)
    ensures Assigns(chosen, other, moved) && multiset(moved) == multiset(to)
    decreases |other|
  {
    assert |other| == |multiset(other)| && |lines| == |multiset(lines)|;
    if other == [] {
      moved := [];
    } else {
      var i := MatchFirst(other, lines);
      var fewer, rest := Without(lines, i), Without(to, i);
      WithoutMultiset(to, i);
      DistinctWithout(to, i);
      forall k | 0 <= k < |fewer| ensures rest[k] < |chosen| && Fits(fewer[k], chosen[rest[k]]) {
        var at := if k < i then k else k + 1;
        assert fewer[k] == lines[at] && rest[k] == to[at];
      }
      var tail := Reassign(chosen, fewer, Without(other, 0), rest);
      moved := [to[i]] + tail;
      assert multiset(moved) == multiset(to);
      PermutationDistinct(to, moved);
      forall k | 0 <= k < |other| ensures moved[k] < |chosen| && Fits(other[k], chosen[moved[k]]) {
        if k > 0 {
          assert other[k] == Without(other, 0)[k - 1];
        }
      }
    }
  }

  lemma DistinctWithout(s: seq<nat>, i: nat)
    requires Distinct(s) && i < |s|
    ensures Distinct(Without(s, i))
  {
  }
}
