/**
 * How the checkers run their regular expressions. A pattern is modelled by what it
 * does when tried at one position of the text: a `Matcher` gives the match that
 * JavaScript's backtracking engine finds there (where its capture group starts and
 * where the match ends), a `Probe` only says whether one exists. `ScanFrom` is the
 * engine's search for successive matches with the `g` flag: `exec` in a loop, or
 * `String.prototype.match`; `Found` is `test` on a freshly built expression.
 */
module Matching {
  import opened Wrappers
  import opened Text

  /** A match found when trying a pattern at one position: start of its capture group, end of the match. */
  datatype Hit = Hit(group: nat, end: nat)

  /** A match found by a scan: `match.index`, the start of the capture group, the end. */
  datatype Span = Span(start: nat, group: nat, end: nat)

  type Matcher = (string, nat) -> Option<Hit>
  type Probe = (string, nat) -> bool

  /** A non-empty match that starts at `i` and lies inside `s`. */
  predicate Fits(s: string, i: nat, h: Hit) {
    i <= h.group <= h.end <= |s| && i < h.end
  }

  /** The pattern matches at position `i`. */
  predicate MatchesAt(s: string, at: Matcher, i: nat) {
    at(s, i).Some? && Fits(s, i, at(s, i).value)
  }

  /** A span of `s` that a match can occupy. */
  predicate InText(s: string, sp: Span) {
    sp.start <= sp.group <= sp.end <= |s| && sp.start < sp.end
  }

  /**
   * The successive matches at or after `i`, leftmost first, each search resuming where
   * the previous match ended. Every match of the modelled patterns is non-empty and
   * lies inside the text (each matcher's contract says so); a try that did not fit
   * would count as no match. `ScanOrder` states what the scan finds.
   */
  function ScanFrom(s: string, at: Matcher, i: nat): (r: seq<Span>)
    decreases |s| + 1 - i
  {
    if i > |s| then []
    else match at(s, i)
      case Some(h) =>
        if Fits(s, i, h) then
          var rest := ScanFrom(s, at, h.end);
          [Span(i, h.group, h.end)] + rest
        else ScanFrom(s, at, i + 1)
      case None => ScanFrom(s, at, i + 1)
  }

  /**
   * A scan lists exactly the leftmost-first matches: each span is what the pattern gives
   * at its start, the spans do not overlap and come in text order, nothing matches
   * before the first one, and the scan is empty exactly when nothing matches at all.
   */
  lemma {:induction false} ScanOrder(s: string, at: Matcher, i: nat)
    ensures var r := ScanFrom(s, at, i);
            forall k :: 0 <= k < |r| ==> i <= r[k].start && InText(s, r[k])
    ensures var r := ScanFrom(s, at, i);
            forall k :: 0 <= k < |r| ==> at(s, r[k].start) == Some(Hit(r[k].group, r[k].end))
    ensures var r := ScanFrom(s, at, i);
            forall j, k :: 0 <= j < k < |r| ==> r[j].end <= r[k].start
    ensures var r := ScanFrom(s, at, i);
            r == [] <==> forall j :: i <= j <= |s| ==> !MatchesAt(s, at, j)
    ensures var r := ScanFrom(s, at, i);
            r != [] ==> forall j :: i <= j < r[0].start ==> !MatchesAt(s, at, j)
    decreases |s| + 1 - i
  {
    if i <= |s| {
      match at(s, i)
      case Some(h) =>
        if Fits(s, i, h) {
          ScanOrder(s, at, h.end);
          var rest := ScanFrom(s, at, h.end);
          var r := ScanFrom(s, at, i);
          assert r == [Span(i, h.group, h.end)] + rest;
          assert forall k :: 1 <= k < |r| ==> r[k] == rest[k - 1];
          assert MatchesAt(s, at, i);
        } else {
          ScanOrder(s, at, i + 1);
        }
      case None =>
        ScanOrder(s, at, i + 1);
    }
  }

  /**
   * `pattern.exec(s)` with the `g` flag and `lastIndex` at `from`: the first match at or
   * after `from`. Setting `lastIndex` to its end, as `exec` does, resumes the scan.
   */
  method Exec(s: string, at: Matcher, from: nat) returns (m: Option<Span>)
    ensures m.None? <==> ScanFrom(s, at, from) == []
    ensures m.Some? ==> from <= m.value.start && InText(s, m.value)
    ensures m.Some? ==> ScanFrom(s, at, from) == [m.value] + ScanFrom(s, at, m.value.end)
  {
    var i := from;
    while i <= |s|
      invariant from <= i
      invariant ScanFrom(s, at, from) == ScanFrom(s, at, i)
      decreases |s| + 1 - i
    {
      var h := at(s, i);
      if h.Some? && Fits(s, i, h.value) {
        return Some(Span(i, h.value.group, h.value.end));
      }
      i := i + 1;
    }
    return None;
  }

  /** All the matches in `s`, from the start. */
  function Scan(s: string, at: Matcher): seq<Span> {
    ScanFrom(s, at, 0)
  }

  /** `test`: the pattern matches somewhere in `s`. */
  predicate Found(s: string, p: Probe) {
    exists j :: 0 <= j <= |s| && p(s, j)
  }

  /** The positions in `probes` of the patterns that match somewhere in `s`. */
  function FoundIndices(s: string, probes: seq<Probe>): set<int> {
    set k | 0 <= k < |probes| && Found(s, probes[k])
  }

  /**
   * `patterns.forEach(p => { if (p.test(s)) issues.push(issue) })`: the issue once for
   * every pattern that matches somewhere in `s` (`ForEachFoundCount` counts them).
   */
  function ForEachFound<T>(s: string, probes: seq<Probe>, issue: T): (r: seq<T>)
    ensures |r| <= |probes|
    ensures forall x :: x in r ==> x == issue
    ensures issue in r <==> exists k :: 0 <= k < |probes| && Found(s, probes[k])
  {
    if probes == [] then []
    else
      var n := |probes| - 1;
      ForEachFound(s, probes[..n], issue) + (if Found(s, probes[n]) then [issue] else [])
  }

  /** The issue stands exactly once per matching pattern. */
  lemma {:induction false} ForEachFoundCount<T>(s: string, probes: seq<Probe>, issue: T)
    ensures |ForEachFound(s, probes, issue)| == |FoundIndices(s, probes)|
    ensures multiset(ForEachFound(s, probes, issue))[issue] == |FoundIndices(s, probes)|
  {
    if probes != [] {
      var n := |probes| - 1;
      ForEachFoundCount(s, probes[..n], issue);
      FoundIndicesSnoc(s, probes);
      if Found(s, probes[n]) {
        assert ForEachFound(s, probes, issue) == ForEachFound(s, probes[..n], issue) + [issue];
      }
    }
  }

  /** Dropping the last pattern drops its position, if it matched. */
  lemma FoundIndicesSnoc(s: string, probes: seq<Probe>)
    requires probes != []
    ensures var n := |probes| - 1;
            |FoundIndices(s, probes)| == |FoundIndices(s, probes[..n])| + (if Found(s, probes[n]) then 1 else 0)
  {
    var n := |probes| - 1;
    var before := FoundIndices(s, probes[..n]);
    if Found(s, probes[n]) {
      assert n !in before;
      assert FoundIndices(s, probes) == before + {n};
    } else {
      assert FoundIndices(s, probes) == before;
    }
  }

  /** Of three patterns, each one that matches somewhere adds one issue. */
  lemma ForEachFoundOfThree<T>(s: string, a: Probe, b: Probe, c: Probe, issue: T)
    ensures |ForEachFound(s, [a, b, c], issue)| ==
      (if Found(s, a) then 1 else 0) + (if Found(s, b) then 1 else 0) + (if Found(s, c) then 1 else 0)
  {
    assert [a, b, c][..2] == [a, b];
    assert [a, b][..1] == [a];
    assert [a][..0] == [];
    var one := |ForEachFound(s, [a], issue)|;
    assert one == (if Found(s, a) then 1 else 0);
    var two := |ForEachFound(s, [a, b], issue)|;
    assert two == one + (if Found(s, b) then 1 else 0);
  }

  /** The positions in `matchers` of the patterns with more than `least` matches in `s`. */
  function FrequentIndices(s: string, matchers: seq<Matcher>, least: nat): set<int> {
    set k | 0 <= k < |matchers| && |Scan(s, matchers[k])| > least
  }

  /**
   * `patterns.forEach(p => { const m = s.match(p); if (m && m.length > least) issues.push(issue) })`:
   * the issue once for every pattern with more than `least` matches (`ForEachFrequentCount`
   * counts them).
   */
  function ForEachFrequent<T>(s: string, matchers: seq<Matcher>, least: nat, issue: T): (r: seq<T>)
    ensures |r| <= |matchers|
    ensures forall x :: x in r ==> x == issue
    ensures issue in r <==> exists k :: 0 <= k < |matchers| && |Scan(s, matchers[k])| > least
  {
    if matchers == [] then []
    else
      var n := |matchers| - 1;
      ForEachFrequent(s, matchers[..n], least, issue) + (if |Scan(s, matchers[n])| > least then [issue] else [])
  }

  /** The issue stands exactly once per pattern with more than `least` matches. */
  lemma {:induction false} ForEachFrequentCount<T>(s: string, matchers: seq<Matcher>, least: nat, issue: T)
    ensures |ForEachFrequent(s, matchers, least, issue)| == |FrequentIndices(s, matchers, least)|
    ensures multiset(ForEachFrequent(s, matchers, least, issue))[issue] == |FrequentIndices(s, matchers, least)|
  {
    if matchers != [] {
      var n := |matchers| - 1;
      ForEachFrequentCount(s, matchers[..n], least, issue);
      FrequentIndicesSnoc(s, matchers, least);
      if |Scan(s, matchers[n])| > least {
        assert ForEachFrequent(s, matchers, least, issue) == ForEachFrequent(s, matchers[..n], least, issue) + [issue];
      }
    }
  }

  /** Dropping the last pattern drops its position, if it matched often enough. */
  lemma FrequentIndicesSnoc(s: string, matchers: seq<Matcher>, least: nat)
    requires matchers != []
    ensures var n := |matchers| - 1;
            |FrequentIndices(s, matchers, least)|
            == |FrequentIndices(s, matchers[..n], least)| + (if |Scan(s, matchers[n])| > least then 1 else 0)
  {
    var n := |matchers| - 1;
    var before := FrequentIndices(s, matchers[..n], least);
    if |Scan(s, matchers[n])| > least {
      assert n !in before;
      assert FrequentIndices(s, matchers, least) == before + {n};
    } else {
      assert FrequentIndices(s, matchers, least) == before;
    }
  }

  // A scan only yields spans inside the text (`ScanOrder`); any other span reads as
  // empty, so that the functions below need no precondition.

  /** The text a match covers (`match[0]`). */
  function Matched(s: string, sp: Span): string {
    if InText(s, sp) then s[sp.start..sp.end] else ""
  }

  /** The text of a match's capture group (`match[1]`, when the group ends the match). */
  function Group(s: string, sp: Span): string {
    if InText(s, sp) then s[sp.group..sp.end] else ""
  }

  /** The text before a match, `s.substring(0, match.index)`; `substring` clamps the index to the length. */
  function Preceding(s: string, sp: Span): string {
    if sp.start <= |s| then s[..sp.start] else s
  }

  /** A literal pattern such as `/\.find\(/g`: it matches exactly where the literal occurs. */
  function Literal(lit: string): Matcher {
    (s: string, i: nat) => if |lit| > 0 && StartsAt(s, i, lit) then Some(Hit(i, i + |lit|)) else None
  }

  /** One literal pattern per literal. */
  function Literals(lits: seq<string>): (r: seq<Matcher>)
    ensures |r| == |lits|
    ensures forall k :: 0 <= k < |lits| ==> r[k] == Literal(lits[k])
  {
    seq(|lits|, k requires 0 <= k < |lits| => Literal(lits[k]))
  }

  /** Every match of a literal pattern reads as the literal itself. */
  lemma LiteralMatches(s: string, lit: string)
    ensures forall k :: 0 <= k < |Scan(s, Literal(lit))| ==>
      Matched(s, Scan(s, Literal(lit))[k]) == lit
  {
    ScanOrder(s, Literal(lit), 0);
  }

  /** A literal pattern finds no match exactly when the literal does not occur (or is empty). */
  lemma {:induction false} LiteralNone(s: string, lit: string)
    requires |lit| > 0
    ensures Scan(s, Literal(lit)) == [] <==> !Contains(s, lit)
  {
    ScanOrder(s, Literal(lit), 0);
    if Contains(s, lit) {
      var i :| 0 <= i <= |s| && StartsAt(s, i, lit);
      assert MatchesAt(s, Literal(lit), i);
    }
  }
}
