/**
 * The regular expressions of the development standards checker, each as what the
 * backtracking engine does when the pattern is tried at one position. Greedy runs
 * (`\s*`, `\s+`, `[^)]*`, `[a-zA-Z0-9_]*`) are maximal runs: in every pattern here the
 * item after a run cannot match a character of the run, so giving characters back
 * never lets the rest match and the greedy run is the only one that can succeed.
 */
module StandardsPatterns {
  import opened Wrappers
  import opened Text
  import opened Matching

  predicate IsQuote(c: char) { c == '\'' || c == '"' }
  predicate NotQuote(c: char) { !IsQuote(c) }
  predicate NotCloseParen(c: char) { c != ')' }
  predicate NotSemicolon(c: char) { c != ';' }
  /** What `.` matches. */
  predicate NotLineTerminator(c: char) { !IsLineTerminator(c) }

  /**
   * `\s+([a-zA-Z_][a-zA-Z0-9_]*)` tried at `j`: at least one whitespace character, then
   * an identifier captured in full.
   */
  function SpacedName(s: string, j: nat): (r: Option<Hit>)
    requires j <= |s|
    ensures r.Some? ==> Fits(s, j, r.value) && j < r.value.group < r.value.end
    ensures r.Some? ==> forall k :: j <= k < r.value.group ==> IsSpace(s[k])
    ensures r.Some? ==> IsIdentStart(s[r.value.group])
    ensures r.Some? ==> forall k :: r.value.group <= k < r.value.end ==> IsWordChar(s[k])
    ensures r.Some? ==> r.value.end == |s| || !IsWordChar(s[r.value.end])
    ensures r.None? <==> j == |s| || !IsSpace(s[j])
                         || j + Run(s, j, IsSpace) == |s| || !IsIdentStart(s[j + Run(s, j, IsSpace)])
  {
    var w := Run(s, j, IsSpace);
    var g := j + w;
    if w == 0 || g == |s| || !IsIdentStart(s[g]) then None
    else Some(Hit(g, g + Run(s, g, IsWordChar)))
  }

  /**
   * `/(?:let|const|var)\s+([a-zA-Z_][a-zA-Z0-9_]*)/g` tried at `i`. The keywords begin
   * with different letters, so at most one alternative can apply.
   */
  function VarDeclAt(s: string, i: nat): (r: Option<Hit>)
    ensures r.Some? ==> Fits(s, i, r.value)
    ensures r.Some? ==> StartsAt(s, i, "let") || StartsAt(s, i, "const") || StartsAt(s, i, "var")
  {
    if StartsAt(s, i, "let") then SpacedName(s, i + 3)
    else if StartsAt(s, i, "const") then SpacedName(s, i + 5)
    else if StartsAt(s, i, "var") then SpacedName(s, i + 3)
    else None
  }

  /**
   * `/(?:function|async\s+function)\s+([a-zA-Z_][a-zA-Z0-9_]*)/g` tried at `i`; the
   * match starts at `async` when the declaration has it.
   */
  function FuncDeclAt(s: string, i: nat): (r: Option<Hit>)
    ensures r.Some? ==> Fits(s, i, r.value)
    ensures r.Some? ==> StartsAt(s, i, "function") || StartsAt(s, i, "async")
  {
    if StartsAt(s, i, "function") then SpacedName(s, i + 8)
    else if StartsAt(s, i, "async") then
      var w := Run(s, i + 5, IsSpace);
      if w > 0 && StartsAt(s, i + 5 + w, "function") then SpacedName(s, i + 5 + w + 8)
      else None
    else None
  }

  /** `/class\s+([a-zA-Z_][a-zA-Z0-9_]*)/g` tried at `i`. */
  function ClassDeclAt(s: string, i: nat): (r: Option<Hit>)
    ensures r.Some? ==> Fits(s, i, r.value) && StartsAt(s, i, "class")
  {
    if StartsAt(s, i, "class") then SpacedName(s, i + 5) else None
  }

  /**
   * `\s*=\s*['"][^'"]+['"]` at `j`: an assignment of a non-empty quoted string. Any
   * quote may close it; the two quotes need not be the same.
   */
  predicate QuotedAssignmentAt(s: string, j: nat) {
    && j <= |s|
    && var a := j + Run(s, j, IsSpace);
    && a < |s| && s[a] == '='
    && var b := a + 1 + Run(s, a + 1, IsSpace);
    && b < |s| && IsQuote(s[b])
    && var n := Run(s, b + 1, NotQuote);
    && n >= 1 && b + 1 + n < |s|
  }

  /** ` = '…'` with single spaces around the `=` and `n` characters between the quotes matches. */
  lemma SpacedQuotedAssignment(s: string, j: nat, n: nat)
    requires j + 4 + n < |s| && n >= 1
    requires s[j] == ' ' && s[j + 1] == '=' && s[j + 2] == ' ' && IsQuote(s[j + 3])
    requires forall k :: j + 4 <= k < j + 4 + n ==> NotQuote(s[k])
    requires IsQuote(s[j + 4 + n])
    ensures QuotedAssignmentAt(s, j)
  {
    RunLength(s, j, IsSpace, 1);
    RunLength(s, j + 2, IsSpace, 1);
    RunLength(s, j + 4, NotQuote, n);
  }

  /** `/password\s*=\s*['"][^'"]+['"]/gi`, and the same for `secret` and `token`. */
  predicate CredentialAt(s: string, i: nat, name: string) {
    StartsAtIgnoringCase(s, i, name) && QuotedAssignmentAt(s, i + |name|)
  }

  /** `/api[_-]?key\s*=\s*['"][^'"]+['"]/gi`; the optional separator is taken when present. */
  predicate ApiKeyAt(s: string, i: nat) {
    && StartsAtIgnoringCase(s, i, "api")
    && var j := if i + 3 < |s| && (s[i + 3] == '_' || s[i + 3] == '-') then i + 4 else i + 3;
    && StartsAtIgnoringCase(s, j, "key") && QuotedAssignmentAt(s, j + 3)
  }

  predicate SqlKeywordAt(s: string, i: nat) {
    || StartsAtIgnoringCase(s, i, "select") || StartsAtIgnoringCase(s, i, "insert")
    || StartsAtIgnoringCase(s, i, "update") || StartsAtIgnoringCase(s, i, "delete")
  }

  /**
   * `/(?:SELECT|INSERT|UPDATE|DELETE).*\+.*['"]/gi` at `i`: a keyword, then on the same
   * line a `+` with a quote somewhere after it. All four keywords have six letters.
   */
  predicate SqlConcatAt(s: string, i: nat) {
    && SqlKeywordAt(s, i)
    && var line := s[i + 6..i + 6 + Run(s, i + 6, NotLineTerminator)];
    && exists p, q :: 0 <= p < q < |line| && line[p] == '+' && IsQuote(line[q])
  }

  /**
   * `/innerHTML\s*=\s*[^;]*\+/gi` at `i`: an assignment to `innerHTML` whose right-hand
   * side has a `+` before the next `;`. Whitespace is never `;`, so `\s*[^;]*` covers
   * exactly the run of non-`;` characters after the `=`.
   */
  predicate InnerHtmlConcatAt(s: string, i: nat) {
    && StartsAtIgnoringCase(s, i, "innerhtml")
    && var a := i + 9 + Run(s, i + 9, IsSpace);
    && a < |s| && s[a] == '='
    && exists p :: a + 1 <= p < a + 1 + Run(s, a + 1, NotSemicolon) && s[p] == '+'
  }

  /**
   * `keyword\s*\(` at `i`, followed by the run of non-`)` characters and the closing
   * `)`: the text of the run, or None when the pattern cannot match.
   */
  function ConditionAt(s: string, i: nat, keyword: string): (r: Option<string>)
    ensures r.Some? ==> StartsAt(s, i, keyword) && ')' !in r.value
  {
    if !StartsAt(s, i, keyword) then None
    else
      var j := i + |keyword| + Run(s, i + |keyword|, IsSpace);
      if j < |s| && s[j] == '(' then
        var n := Run(s, j + 1, NotCloseParen);
        if j + 1 + n < |s| then
          Some(s[j + 1..j + 1 + n])
        else None
      else None
  }

  /**
   * `/if\s*\([^)]{50,}\)/g` (with `for`/`while` and 30 likewise): a parenthesised condition
   * at least `min` long. Without the `u` flag `[^)]` matches one UTF-16 code unit, so the
   * length is counted in code units and a character above U+FFFF counts twice.
   */
  predicate LongConditionAt(s: string, i: nat, keyword: string, min: nat) {
    ConditionAt(s, i, keyword).Some? && Utf16Length(ConditionAt(s, i, keyword).value) >= min
  }

  /** `/for\s*\([^)]*\.length[^)]*\)/g` (and `while`): a parenthesised condition that reads a `.length`. */
  predicate LengthInConditionAt(s: string, i: nat, keyword: string) {
    ConditionAt(s, i, keyword).Some? && Contains(ConditionAt(s, i, keyword).value, ".length")
  }

  /**
   * Twenty-five emoji (U+1F600) are fifty code units: `if (` followed by them and `)`
   * is a long condition, although it holds only twenty-five characters.
   */
  lemma EmojiConditionIsLong(run: string)
    requires |run| == 25
    requires forall k :: 0 <= k < |run| ==> run[k] == '\U{1F600}'
    ensures LongIfAt("if (" + run + ")", 0)
  {
    var s := "if (" + run + ")";
    assert s[0..2] == "if";
    RunLength(s, 2, IsSpace, 1);
    assert forall k :: 4 <= k < 29 ==> s[k] == run[k - 4];
    RunLength(s, 4, NotCloseParen, 25);
    assert s[4..29] == run;
    Utf16LengthAstral(run);
  }

  /** Below U+10000 the code units are the characters: a plain condition needs `min` characters. */
  lemma PlainConditionLength(s: string, i: nat, keyword: string, min: nat)
    requires ConditionAt(s, i, keyword).Some?
    requires forall k :: 0 <= k < |ConditionAt(s, i, keyword).value| ==> ConditionAt(s, i, keyword).value[k] as int <= 0xFFFF
    ensures LongConditionAt(s, i, keyword, min) <==> |ConditionAt(s, i, keyword).value| >= min
  {
    Utf16LengthBasic(ConditionAt(s, i, keyword).value);
  }

  /** End of the line that starts at `j`: where a greedy `.*` from `j` stops. */
  function LineEnd(s: string, j: nat): (e: nat)
    requires j <= |s|
    ensures j <= e <= |s|
    ensures forall m :: j <= m < e ==> !IsLineTerminator(s[m])
    ensures e == |s| || IsLineTerminator(s[e])
  {
    j + Run(s, j, NotLineTerminator)
  }

  /**
   * `/document\.getElementById.*\.innerHTML/g` (or `querySelector`) tried at `i`: the
   * greedy `.*` stretches to the last `.innerHTML` on the same line.
   */
  function DomWriteAt(s: string, i: nat, lookup: string): (r: Option<Hit>)
    ensures r.Some? ==> Fits(s, i, r.value) && StartsAt(s, i, lookup)
    ensures r.Some? ==> i + |lookup| + 10 <= r.value.end <= LineEnd(s, i + |lookup|)
    ensures r.Some? ==> StartsAt(s, r.value.end - 10, ".innerHTML")
    ensures r.Some? ==> forall k: nat :: r.value.end - 10 < k && k + 10 <= LineEnd(s, i + |lookup|)
                          ==> !StartsAt(s, k, ".innerHTML")
  {
    if !StartsAt(s, i, lookup) then None
    else
      var j := i + |lookup|;
      var p := LastIndexOf(s[j..LineEnd(s, j)], ".innerHTML");
      if p < 0 then None
      else
        LastOnLine(s, j, LineEnd(s, j), p);
        Some(Hit(i, j + p + 10))
  }

  /** The last occurrence in the line's text is the last occurrence in that stretch of `s`. */
  lemma LastOnLine(s: string, j: nat, e: nat, p: nat)
    requires j <= e <= |s|
    requires p == LastIndexOf(s[j..e], ".innerHTML")
    ensures j + p + 10 <= e && StartsAt(s, j + p, ".innerHTML")
    ensures forall k: nat :: j + p < k && k + 10 <= e ==> !StartsAt(s, k, ".innerHTML")
  {
    StartsAtSlice(s, j, e, j + p, ".innerHTML");
    forall k: nat | j + p < k && k + 10 <= e
      ensures !StartsAt(s, k, ".innerHTML")
    {
      StartsAtSlice(s, j, e, k, ".innerHTML");
    }
  }

  /** The DOM-write pattern for one lookup call. */
  function DomWrite(lookup: string): Matcher {
    (s: string, i: nat) => DomWriteAt(s, i, lookup)
  }

  // The individual patterns, by the name the checks give them.

  predicate PasswordAt(s: string, i: nat) { CredentialAt(s, i, "password") }
  predicate SecretAt(s: string, i: nat) { CredentialAt(s, i, "secret") }
  predicate TokenAt(s: string, i: nat) { CredentialAt(s, i, "token") }

  predicate LongIfAt(s: string, i: nat) { LongConditionAt(s, i, "if", 50) }
  predicate LongForAt(s: string, i: nat) { LongConditionAt(s, i, "for", 30) }
  predicate LongWhileAt(s: string, i: nat) { LongConditionAt(s, i, "while", 30) }

  predicate ForLengthAt(s: string, i: nat) { LengthInConditionAt(s, i, "for") }
  predicate WhileLengthAt(s: string, i: nat) { LengthInConditionAt(s, i, "while") }

  /** The credential patterns, in the order they are tested. */
  const CredentialPatterns: seq<Probe> := [PasswordAt, ApiKeyAt, SecretAt, TokenAt]
  /** The complex-logic patterns. */
  const ComplexPatterns: seq<Probe> := [LongIfAt, LongForAt, LongWhileAt]
  /** The DOM-write patterns. */
  const DomPatterns: seq<Matcher> := [DomWrite("document.getElementById"), DomWrite("document.querySelector")]
  /** The uncached-length loop patterns. */
  const LoopPatterns: seq<Probe> := [ForLengthAt, WhileLengthAt]
}
