/**
 * The development standards checker: five checks over one file's text (structure,
 * naming, documentation, security, performance), the per-file score built from them,
 * and the report's average over files. Each check is its list of issues; the record
 * a check returns is `Outcome` of that list.
 */
module Standards {
  import opened Wrappers
  import opened Text
  import opened Matching
  import opened Scoring
  import opened StandardsHelpers
  import opened StandardsPatterns
  import opened Selection

  datatype Standard = Structure | Naming | Documentation | Security | Performance

  /** The issue messages, each as its template and the values filled into it. */
  datatype Finding =
    | FileTooLong(file: string, lines: nat)
    | InconsistentIndentation(file: string)
    | TrailingWhitespace(file: string)
    | VariableCase(name: string)
    | FunctionCase(name: string)
    | ClassCase(name: string)
    | MissingJSDoc(name: string)
    | ComplexLogic(file: string)
    | HardcodedCredentials(file: string)
    | SqlInjection(file: string)
    | CrossSiteScripting(file: string)
    | DomBatching(file: string)
    | UncachedLength(file: string)

  /** What every check returns; `passed` is `issues.length === 0`. */
  datatype CheckResult = CheckResult(standard: Standard, issues: seq<Finding>, passed: bool)

  function Outcome(standard: Standard, issues: seq<Finding>): CheckResult {
    CheckResult(standard, issues, issues == [])
  }

  // ---------------------------------------------------------------- structure

  /** Width of a line's leading whitespace, the length of `line.match(/^(\s*)/)[1]`. */
  function Indent(line: string): nat {
    Run(line, 0, IsSpace)
  }

  /** The positive indentation widths, line by line (`indentationPatterns`). */
  function IndentWidths(lines: seq<string>): (ws: seq<nat>)
    ensures forall k :: 0 <= k < |ws| ==> ws[k] > 0
  {
    if lines == [] then []
    else (if Indent(lines[0]) > 0 then [Indent(lines[0])] else []) + IndentWidths(lines[1..])
  }

  /** The widths are exactly the positive indentations of the lines. */
  lemma {:induction false} IndentWidthsMembers(lines: seq<string>)
    ensures forall w :: w in IndentWidths(lines) <==>
      exists k :: 0 <= k < |lines| && Indent(lines[k]) == w && w > 0
  {
    if lines != [] {
      IndentWidthsMembers(lines[1..]);
      assert forall k :: 1 <= k < |lines| ==> lines[k] == lines[1..][k - 1];
    }
  }

  /**
   * The widths kept by the `inconsistent` filter: different from the most common width
   * and no multiple of it. The first condition follows from the second.
   */
  function Misfits(ws: seq<nat>, common: nat): (r: seq<nat>)
    requires common > 0
    ensures forall w :: w in r <==> w in ws && w % common != 0
  {
    if ws == [] then []
    else (if ws[0] != common && ws[0] % common != 0 then [ws[0]] else []) + Misfits(ws[1..], common)
  }

  /** `line.match(/\s+$/)`: the line ends in whitespace. */
  predicate EndsInSpace(line: string) {
    |line| > 0 && IsSpace(line[|line| - 1])
  }

  /** The `inconsistent` filter keeps some width. */
  predicate InconsistentIndent(lines: seq<string>) {
    var widths := IndentWidths(lines);
    |widths| > 0 && |Misfits(widths, MostCommon(widths))| > 0
  }

  /** The `trailingWhitespace` filter keeps some line. */
  predicate AnyTrailingSpace(lines: seq<string>) {
    exists k :: 0 <= k < |lines| && EndsInSpace(lines[k])
  }

  /** `checkStructure`: file length, indentation against the most common width, trailing whitespace. */
  function StructureIssues(code: string, filename: string): (r: seq<Finding>)
    ensures |r| <= 3
    ensures var lines := Split(code, '\n');
            forall n :: FileTooLong(filename, n) in r <==> |lines| > 500 && n == |lines|
    ensures InconsistentIndentation(filename) in r <==> InconsistentIndent(Split(code, '\n'))
    ensures TrailingWhitespace(filename) in r <==> AnyTrailingSpace(Split(code, '\n'))
  {
    var lines := Split(code, '\n');
    var length := if |lines| > 500 then [FileTooLong(filename, |lines|)] else [];
    var indentation := if InconsistentIndent(lines) then [InconsistentIndentation(filename)] else [];
    var trailing := if AnyTrailingSpace(lines) then [TrailingWhitespace(filename)] else [];
    var r := length + indentation + trailing;
    assert && (forall n :: FileTooLong(filename, n) in r <==> |lines| > 500 && n == |lines|)
           && (InconsistentIndentation(filename) in r <==> InconsistentIndent(lines))
           && (TrailingWhitespace(filename) in r <==> AnyTrailingSpace(lines)) by {
      PushThree(|lines| > 500, InconsistentIndent(lines), AnyTrailingSpace(lines),
                FileTooLong(filename, |lines|), InconsistentIndentation(filename), TrailingWhitespace(filename));
    }
    r
  }

  /**
   * Nothing else is reported and nothing twice: each of the three issues stands at most
   * once, so the check passes exactly when none of the three conditions holds.
   */
  lemma StructureIssuesExact(code: string, filename: string)
    ensures var lines := Split(code, '\n');
            var r := StructureIssues(code, filename);
            && (forall f :: f in r ==> f == FileTooLong(filename, |lines|) || f == InconsistentIndentation(filename)
                                       || f == TrailingWhitespace(filename))
            && (forall i, j :: 0 <= i < j < |r| ==> r[i] != r[j])
            && (r == [] <==> |lines| <= 500 && !InconsistentIndent(lines) && !AnyTrailingSpace(lines))
  {
    var lines := Split(code, '\n');
    PushThree(|lines| > 500, InconsistentIndent(lines), AnyTrailingSpace(lines),
              FileTooLong(filename, |lines|), InconsistentIndentation(filename), TrailingWhitespace(filename));
  }

  /**
   * Three conditional pushes of three different entries: only those entries, none twice,
   * and nothing at all exactly when no condition holds.
   */
  lemma PushThree<T>(p: bool, q: bool, t: bool, x: T, y: T, z: T)
    requires x != y && y != z && x != z
    ensures var r := (if p then [x] else []) + (if q then [y] else []) + (if t then [z] else []);
            && (forall f :: f in r ==> f == x || f == y || f == z)
            && (x in r <==> p) && (y in r <==> q) && (z in r <==> t)
            && (forall i, j :: 0 <= i < j < |r| ==> r[i] != r[j])
            && (r == [] <==> !p && !q && !t)
  {
  }

  /** A file is too long exactly when it has 500 newlines or more; the message gives the line count. */
  lemma StructureFileLength(code: string, filename: string)
    ensures FileTooLong(filename, multiset(code)['\n'] + 1) in StructureIssues(code, filename)
            <==> multiset(code)['\n'] >= 500
    ensures forall n :: (FileTooLong(filename, n) in StructureIssues(code, filename)
                         ==> n == multiset(code)['\n'] + 1)
  {
    SplitCount(code, '\n');
  }

  /** Some indented line's width is not a multiple of the most common width. */
  predicate MisfitLine(lines: seq<string>) {
    var widths := IndentWidths(lines);
    exists k :: 0 <= k < |lines| && Indent(lines[k]) > 0 && widths != []
                && Indent(lines[k]) % MostCommon(widths) != 0
  }

  /** Indentation is reported exactly when some line misfits. */
  lemma StructureIndentation(code: string, filename: string)
    ensures InconsistentIndentation(filename) in StructureIssues(code, filename) <==> MisfitLine(Split(code, '\n'))
  {
    IndentMisfits(Split(code, '\n'));
  }

  /** Some width misfits exactly when some indented line's width is not a multiple of the most common one. */
  lemma IndentMisfits(lines: seq<string>)
    ensures InconsistentIndent(lines) <==> MisfitLine(lines)
  {
    var widths := IndentWidths(lines);
    IndentWidthsMembers(lines);
    if widths != [] {
      var common := MostCommon(widths);
      if |Misfits(widths, common)| > 0 {
        var w := Misfits(widths, common)[0];
        assert w in Misfits(widths, common);
      }
      if exists k :: 0 <= k < |lines| && Indent(lines[k]) > 0 && Indent(lines[k]) % common != 0 {
        var k :| 0 <= k < |lines| && Indent(lines[k]) > 0 && Indent(lines[k]) % common != 0;
        assert Indent(lines[k]) in Misfits(widths, common);
      }
    }
  }

  /**
   * The indentation verdict depends on which width is most common: lines indented by 4,
   * 4 and 2 are inconsistent, while 2, 2 and 4 are not.
   */
  lemma MajorityOfFour()
    ensures |Misfits([4, 4, 2], MostCommon([4, 4, 2]))| > 0
  {
    var a: seq<nat> := [4, 4, 2];
    assert multiset(a)[4] == 2 && multiset(a)[2] == 1;
    assert 4 in a;
    MostCommonUnique(a, 4);
    assert 2 in Misfits(a, 4);
  }

  lemma MajorityOfTwo()
    ensures Misfits([2, 2, 4], MostCommon([2, 2, 4])) == []
  {
    var b: seq<nat> := [2, 2, 4];
    assert multiset(b)[2] == 2 && multiset(b)[4] == 1;
    assert 2 in b;
    MostCommonUnique(b, 2);
  }

  /** A whitespace character other than `sep` ends `s` or stands right before a `sep`. */
  predicate SpaceBeforeBreak(s: string, sep: char) {
    exists i :: 0 <= i < |s| && IsSpace(s[i]) && s[i] != sep && (i + 1 == |s| || s[i + 1] == sep)
  }

  lemma TrailingSpaceCons(x: string, rest: seq<string>)
    ensures AnyTrailingSpace([x] + rest) <==> EndsInSpace(x) || AnyTrailingSpace(rest)
  {
    var lines := [x] + rest;
    assert forall k :: 1 <= k < |lines| ==> lines[k] == rest[k - 1];
    if AnyTrailingSpace(rest) {
      var k :| 0 <= k < |rest| && EndsInSpace(rest[k]);
      assert lines[k + 1] == rest[k];
    }
    if EndsInSpace(x) {
      assert EndsInSpace(lines[0]);
    }
  }

  /** Cutting `s` at its first separator splits the search for whitespace before a break. */
  lemma SpaceBeforeBreakCut(s: string, sep: char, k: nat)
    requires k < |s| && s[k] == sep && sep !in s[..k]
    ensures SpaceBeforeBreak(s, sep) <==> EndsInSpace(s[..k]) || SpaceBeforeBreak(s[k + 1..], sep)
  {
    var t := s[k + 1..];
    assert forall j :: 0 <= j < k ==> s[j] == s[..k][j];
    if SpaceBeforeBreak(s, sep) {
      var i :| 0 <= i < |s| && IsSpace(s[i]) && s[i] != sep && (i + 1 == |s| || s[i + 1] == sep);
      if i < k {
        assert i + 1 == k;
        assert EndsInSpace(s[..k]);
      } else {
        assert t[i - k - 1] == s[i];
        assert i + 1 < |s| ==> t[i - k] == s[i + 1];
        assert SpaceBeforeBreak(t, sep);
      }
    }
    if EndsInSpace(s[..k]) {
      assert IsSpace(s[k - 1]) && s[k - 1] != sep;
    }
    if SpaceBeforeBreak(t, sep) {
      var i :| 0 <= i < |t| && IsSpace(t[i]) && t[i] != sep && (i + 1 == |t| || t[i + 1] == sep);
      assert s[k + 1 + i] == t[i];
      assert i + 1 < |t| ==> s[k + 2 + i] == t[i + 1];
    }
  }

  /**
   * Some piece of `s.split(sep)` ends in whitespace exactly when a whitespace character
   * other than the separator ends `s` or stands right before a separator.
   */
  lemma {:induction false} SplitLineEnds(s: string, sep: char)
    ensures AnyTrailingSpace(Split(s, sep)) <==> SpaceBeforeBreak(s, sep)
    decreases |s|
  {
    var parts := Split(s, sep);
    var k := Find(s, sep);
    if k < 0 {
      assert parts == [s];
      TrailingSpaceCons(s, []);
      if EndsInSpace(s) {
        assert IsSpace(s[|s| - 1]) && s[|s| - 1] != sep;
      }
    } else {
      var t := s[k + 1..];
      SplitLineEnds(t, sep);
      assert parts == [s[..k]] + Split(t, sep);
      TrailingSpaceCons(s[..k], Split(t, sep));
      SpaceBeforeBreakCut(s, sep, k);
    }
  }

  /**
   * Trailing whitespace is reported exactly when a whitespace character other than a
   * newline ends the file or stands right before a newline; in particular every CRLF
   * line ending counts.
   */
  lemma StructureTrailing(code: string, filename: string)
    ensures TrailingWhitespace(filename) in StructureIssues(code, filename)
            <==> SpaceBeforeBreak(code, '\n')
    ensures Contains(code, "\r\n") ==> TrailingWhitespace(filename) in StructureIssues(code, filename)
  {
    SplitLineEnds(code, '\n');
    if Contains(code, "\r\n") {
      var i :| 0 <= i <= |code| && StartsAt(code, i, "\r\n");
      StartsAtChars(code, i, "\r\n");
      assert IsSpace(code[i]) && code[i] != '\n' && code[i + 1] == '\n';
    }
  }

  // ------------------------------------------------------------------- naming

  /** The issues for the captured names a convention rejects, in text order. */
  function Flagged(s: string, spans: seq<Span>, accept: string -> bool, flag: string -> Finding): (r: seq<Finding>)
    ensures |r| <= |spans|
  {
    if spans == [] then []
    else
      (if accept(Group(s, spans[0])) then [] else [flag(Group(s, spans[0]))])
      + Flagged(s, spans[1..], accept, flag)
  }

  /** Flagging a scan is flagging its first match, then the rest. */
  lemma FlaggedCons(s: string, sp: Span, rest: seq<Span>, accept: string -> bool, flag: string -> Finding)
    ensures Flagged(s, [sp] + rest, accept, flag)
            == (if accept(Group(s, sp)) then [] else [flag(Group(s, sp))]) + Flagged(s, rest, accept, flag)
  {
    assert ([sp] + rest)[1..] == rest;
  }

  /** Every issue comes from a rejected capture, and every rejected capture gives its issue. */
  lemma {:induction false} FlaggedMembers(s: string, spans: seq<Span>, accept: string -> bool, flag: string -> Finding)
    ensures forall f :: f in Flagged(s, spans, accept, flag) ==>
      exists k :: 0 <= k < |spans| && !accept(Group(s, spans[k])) && f == flag(Group(s, spans[k]))
    ensures forall k :: 0 <= k < |spans| && !accept(Group(s, spans[k])) ==>
      flag(Group(s, spans[k])) in Flagged(s, spans, accept, flag)
  {
    if spans != [] {
      var rest := spans[1..];
      FlaggedMembers(s, rest, accept, flag);
      assert spans == [spans[0]] + rest;
      FlaggedCons(s, spans[0], rest, accept, flag);
      assert forall k :: 1 <= k < |spans| ==> spans[k] == rest[k - 1];
    }
  }

  /** A declared variable passes when it is camelCase or UPPER_CASE. */
  predicate IsVariableName(name: string) {
    IsCamelCase(name) || IsUpperCase(name)
  }

  function VariableIssue(name: string): Finding { VariableCase(name) }
  function FunctionIssue(name: string): Finding { FunctionCase(name) }
  function ClassIssue(name: string): Finding { ClassCase(name) }

  /** The naming issues of a file: variables, then functions, then classes. */
  function NamingIssues(code: string): seq<Finding> {
    Flagged(code, Scan(code, VarDeclAt), IsVariableName, VariableIssue)
    + Flagged(code, Scan(code, FuncDeclAt), IsCamelCase, FunctionIssue)
    + Flagged(code, Scan(code, ClassDeclAt), IsPascalCase, ClassIssue)
  }

  /** One round of a naming loop: the capture at the front is judged, then the rest. */
  lemma FlaggedStep(code: string, m: Span, rest: seq<Span>, accept: string -> bool,
                    flag: string -> Finding, out: seq<Finding>)
    requires InText(code, m)
    ensures out + Flagged(code, [m] + rest, accept, flag)
            == (if accept(code[m.group..m.end]) then out else out + [flag(code[m.group..m.end])])
               + Flagged(code, rest, accept, flag)
  {
    var head := if accept(Group(code, m)) then [] else [flag(Group(code, m))];
    FlaggedCons(code, m, rest, accept, flag);
    assert Group(code, m) == code[m.group..m.end];
    assert out + (head + Flagged(code, rest, accept, flag)) == (out + head) + Flagged(code, rest, accept, flag);
  }

  /** One `while ((match = pattern.exec(code)) !== null)` loop of `checkNaming`. */
  method FlagDeclarations(code: string, at: Matcher, accept: string -> bool, flag: string -> Finding,
                          issues: seq<Finding>) returns (out: seq<Finding>)
    ensures out == issues + Flagged(code, Scan(code, at), accept, flag)
  {
    out := issues;
    var lastIndex := 0;
    while true
      invariant out + Flagged(code, ScanFrom(code, at, lastIndex), accept, flag)
                == issues + Flagged(code, Scan(code, at), accept, flag)
      decreases |code| + 1 - lastIndex
    {
      var m := Exec(code, at, lastIndex);
      if m.None? {
        break;
      }
      var name := code[m.value.group..m.value.end];
      FlaggedStep(code, m.value, ScanFrom(code, at, m.value.end), accept, flag, out);
      if !accept(name) {
        out := out + [flag(name)];
      }
      lastIndex := m.value.end;
    }
  }

  /** `checkNaming` */
  method CheckNaming(code: string, filename: string) returns (r: CheckResult)
    ensures r == Outcome(Naming, NamingIssues(code))
  {
    ghost var variables := Flagged(code, Scan(code, VarDeclAt), IsVariableName, VariableIssue);
    ghost var functions := Flagged(code, Scan(code, FuncDeclAt), IsCamelCase, FunctionIssue);
    var issues := FlagDeclarations(code, VarDeclAt, IsVariableName, VariableIssue, []);
    assert issues == variables;
    issues := FlagDeclarations(code, FuncDeclAt, IsCamelCase, FunctionIssue, issues);
    assert issues == variables + functions;
    issues := FlagDeclarations(code, ClassDeclAt, IsPascalCase, ClassIssue, issues);
    assert issues == NamingIssues(code);
    r := CheckResult(Naming, issues, |issues| == 0);
  }

  /** `let My_Var` at the very start of a file is matched with `My_Var` as its capture. */
  lemma LeadingDeclaration(code: string)
    requires StartsAt(code, 0, "let My_Var")
    requires |code| == 10 || !IsWordChar(code[10])
    ensures VarDeclAt(code, 0) == Some(Hit(4, 10))
    ensures code[4..10] == "My_Var"
  {
    StartsAtChars(code, 0, "let My_Var");
    StartsAtPrefix(code, 0, "let My_Var", 3);
    RunLength(code, 3, IsSpace, 1);
    RunLength(code, 4, IsWordChar, 6);
  }

  /** A file that opens with `let My_Var` gets a finding for `My_Var`. */
  lemma NamingFlagsMixedCase(code: string)
    requires StartsAt(code, 0, "let My_Var")
    requires |code| == 10 || !IsWordChar(code[10])
    ensures VariableCase("My_Var") in NamingIssues(code)
  {
    LeadingDeclaration(code);
    var spans := Scan(code, VarDeclAt);
    assert MatchesAt(code, VarDeclAt, 0);
    assert spans[0] == Span(0, 4, 10);
    MixedNameRejected();
    FlaggedMembers(code, spans, IsVariableName, VariableIssue);
    assert VariableIssue(Group(code, spans[0])) in Flagged(code, spans, IsVariableName, VariableIssue);
  }

  // ------------------------------------------------------------ documentation

  // A JSDoc marker (`/**` or `* @`) occurs in the text before a declaration.
  predicate HasDocComment(before: string) {
    Contains(before, "/**") || Contains(before, "* @")
  }

  /** Some JSDoc marker precedes the match. */
  predicate Documented(s: string, sp: Span) {
    HasDocComment(Preceding(s, sp))
  }

  /** The declarations not preceded by any JSDoc marker, in text order. */
  function Undocumented(s: string, spans: seq<Span>): (r: seq<Finding>)
    ensures |r| <= |spans|
  {
    if spans == [] then []
    else
      (if Documented(s, spans[0]) then [] else [MissingJSDoc(Group(s, spans[0]))])
      + Undocumented(s, spans[1..])
  }

  lemma UndocumentedCons(s: string, sp: Span, rest: seq<Span>)
    ensures Undocumented(s, [sp] + rest)
            == (if Documented(s, sp) then [] else [MissingJSDoc(Group(s, sp))]) + Undocumented(s, rest)
  {
    assert ([sp] + rest)[1..] == rest;
  }

  /** Every issue names an undocumented declaration, and every undocumented declaration is named. */
  lemma {:induction false} UndocumentedMembers(s: string, spans: seq<Span>)
    ensures forall f :: f in Undocumented(s, spans) ==>
      exists k :: 0 <= k < |spans| && !Documented(s, spans[k]) && f == MissingJSDoc(Group(s, spans[k]))
    ensures forall k :: 0 <= k < |spans| && !Documented(s, spans[k]) ==>
      MissingJSDoc(Group(s, spans[k])) in Undocumented(s, spans)
  {
    if spans != [] {
      var rest := spans[1..];
      UndocumentedMembers(s, rest);
      assert spans == [spans[0]] + rest;
      UndocumentedCons(s, spans[0], rest);
      assert forall k :: 1 <= k < |spans| ==> spans[k] == rest[k - 1];
    }
  }

  /** `checkDocumentation`'s issues: undocumented functions, then one per complex-logic pattern found. */
  function DocumentationIssues(code: string, filename: string): seq<Finding> {
    Undocumented(code, Scan(code, FuncDeclAt)) + ForEachFound(code, ComplexPatterns, ComplexLogic(filename))
  }

  /**
   * An `if` whose condition is twenty-five emoji is reported as complex logic: the
   * pattern counts the fifty UTF-16 code units, not the characters.
   */
  lemma EmojiConditionReported(run: string, filename: string)
    requires |run| == 25
    requires forall k :: 0 <= k < |run| ==> run[k] == '\U{1F600}'
    ensures ComplexLogic(filename) in DocumentationIssues("if (" + run + ")", filename)
  {
    var code := "if (" + run + ")";
    EmojiConditionIsLong(run);
    assert ComplexPatterns[0] == LongIfAt;
    assert Found(code, ComplexPatterns[0]);
  }

  /** One round of the documentation loop: the match at the front is judged, then the rest. */
  lemma UndocumentedStep(code: string, m: Span, rest: seq<Span>, issues: seq<Finding>)
    ensures issues + Undocumented(code, [m] + rest)
            == (if Documented(code, m) then issues else issues + [MissingJSDoc(Group(code, m))])
               + Undocumented(code, rest)
  {
    var head := if Documented(code, m) then [] else [MissingJSDoc(Group(code, m))];
    UndocumentedCons(code, m, rest);
    assert issues + (head + Undocumented(code, rest)) == (issues + head) + Undocumented(code, rest);
  }

  /**
   * The `exec` loop of `checkDocumentation`: each declaration with no JSDoc marker in
   * the text before it is reported by name.
   */
  method FindUndocumented(code: string, at: Matcher) returns (issues: seq<Finding>)
    ensures issues == Undocumented(code, Scan(code, at))
  {
    issues := [];
    var lastIndex := 0;
    while true
      invariant issues + Undocumented(code, ScanFrom(code, at, lastIndex)) == Undocumented(code, Scan(code, at))
      decreases |code| + 1 - lastIndex
    {
      var m := Exec(code, at, lastIndex);
      if m.None? {
        break;
      }
      var functionName := code[m.value.group..m.value.end];
      var beforeFunction := code[..m.value.start];
      UndocumentedStep(code, m.value, ScanFrom(code, at, m.value.end), issues);
      assert beforeFunction == Preceding(code, m.value) && functionName == Group(code, m.value);
      if !HasDocComment(beforeFunction) {
        issues := issues + [MissingJSDoc(functionName)];
      }
      lastIndex := m.value.end;
    }
  }

  /** `checkDocumentation` */
  method CheckDocumentation(code: string, filename: string) returns (r: CheckResult)
    ensures r == Outcome(Documentation, DocumentationIssues(code, filename))
  {
    ghost var complex := ForEachFound(code, ComplexPatterns, ComplexLogic(filename));
    var issues := FindUndocumented(code, FuncDeclAt);
    issues := issues + ForEachFound(code, ComplexPatterns, ComplexLogic(filename));
    assert issues == DocumentationIssues(code, filename);
    r := CheckResult(Documentation, issues, |issues| == 0);
  }

  /**
   * Once a declaration sees a JSDoc marker before it, so does every later one: only
   * the declarations ahead of the first marker can be reported.
   */
  lemma DocCommentCarriesForward(code: string)
    ensures var spans := Scan(code, FuncDeclAt);
            forall j, k :: 0 <= j < k < |spans| && Documented(code, spans[j]) ==> Documented(code, spans[k])
  {
    var spans := Scan(code, FuncDeclAt);
    ScanOrder(code, FuncDeclAt, 0);
    forall j, k | 0 <= j < k < |spans| && Documented(code, spans[j])
      ensures Documented(code, spans[k])
    {
      if Contains(code[..spans[j].start], "/**") {
        ContainsPrefixMono(code, "/**", spans[j].start, spans[k].start);
      } else {
        ContainsPrefixMono(code, "* @", spans[j].start, spans[k].start);
      }
    }
  }

  // No declaration pattern matches inside an opening `/**`.
  lemma NoDeclarationInOpening(code: string, st: nat)
    requires StartsAt(code, 0, "/**") && st < 3
    ensures FuncDeclAt(code, st).None?
  {
    StartsAtChars(code, 0, "/**");
    assert code[st] == '/' || code[st] == '*';
    if StartsAt(code, st, "function") {
      StartsAtChars(code, st, "function");
    } else if StartsAt(code, st, "async") {
      StartsAtChars(code, st, "async");
    }
  }

  // An opening `/**` lies before every position past it.
  lemma OpeningDocCovers(code: string, st: nat)
    requires StartsAt(code, 0, "/**") && 3 <= st <= |code|
    ensures HasDocComment(code[..st])
  {
    assert code[..st][0..3] == code[0..3];
    assert StartsAt(code[..st], 0, "/**");
  }

  /** A file that opens with a JSDoc comment gets no missing-JSDoc finding. */
  lemma LeadingDocComment(code: string, filename: string)
    requires StartsAt(code, 0, "/**")
    ensures forall f :: f in DocumentationIssues(code, filename) ==> f == ComplexLogic(filename)
  {
    var spans := Scan(code, FuncDeclAt);
    ScanOrder(code, FuncDeclAt, 0);
    forall k | 0 <= k < |spans|
      ensures Documented(code, spans[k])
    {
      var st := spans[k].start;
      if st < 3 {
        NoDeclarationInOpening(code, st);
      } else {
        OpeningDocCovers(code, st);
      }
    }
    UndocumentedMembers(code, spans);
  }

  // ----------------------------------------------------------------- security

  /** `checkSecurity`'s issues: one per credential pattern found, SQL concatenation, HTML concatenation. */
  function SecurityIssues(code: string, filename: string): (r: seq<Finding>)
    ensures |r| <= 6
    ensures HardcodedCredentials(filename) in r <==>
      exists k :: 0 <= k < |CredentialPatterns| && Found(code, CredentialPatterns[k])
    ensures SqlInjection(filename) in r <==> Found(code, SqlConcatAt)
    ensures CrossSiteScripting(filename) in r <==> Found(code, InnerHtmlConcatAt)
  {
    var credentials := ForEachFound(code, CredentialPatterns, HardcodedCredentials(filename));
    PushTwoAfter(credentials, HardcodedCredentials(filename), Found(code, SqlConcatAt), SqlInjection(filename),
                 Found(code, InnerHtmlConcatAt), CrossSiteScripting(filename));
    credentials
    + (if Found(code, SqlConcatAt) then [SqlInjection(filename)] else [])
    + (if Found(code, InnerHtmlConcatAt) then [CrossSiteScripting(filename)] else [])
  }

  /**
   * Nothing else is reported: the credential issue stands once for every credential
   * pattern that matches, and the other two at most once.
   */
  lemma SecurityIssuesExact(code: string, filename: string)
    ensures var r := SecurityIssues(code, filename);
            && (forall f :: f in r ==> f == HardcodedCredentials(filename) || f == SqlInjection(filename)
                                       || f == CrossSiteScripting(filename))
            && multiset(r)[HardcodedCredentials(filename)] == |FoundIndices(code, CredentialPatterns)|
            && multiset(r)[SqlInjection(filename)] == (if Found(code, SqlConcatAt) then 1 else 0)
            && multiset(r)[CrossSiteScripting(filename)] == (if Found(code, InnerHtmlConcatAt) then 1 else 0)
  {
    var a := ForEachFound(code, CredentialPatterns, HardcodedCredentials(filename));
    ForEachFoundCount(code, CredentialPatterns, HardcodedCredentials(filename));
    PushTwoAfter(a, HardcodedCredentials(filename), Found(code, SqlConcatAt), SqlInjection(filename),
                 Found(code, InnerHtmlConcatAt), CrossSiteScripting(filename));
    assert SecurityIssues(code, filename) == a + (if Found(code, SqlConcatAt) then [SqlInjection(filename)] else [])
      + (if Found(code, InnerHtmlConcatAt) then [CrossSiteScripting(filename)] else []);
  }

  /**
   * Two conditional pushes after a list holding one entry only: the list's count of that
   * entry is kept, and each pushed entry stands once if its condition holds.
   */
  lemma PushTwoAfter<T>(a: seq<T>, x: T, p: bool, y: T, q: bool, z: T)
    requires forall f :: f in a ==> f == x
    requires x != y && y != z && x != z
    ensures var r := a + (if p then [y] else []) + (if q then [z] else []);
            && (forall f :: f in r ==> f == x || f == y || f == z)
            && multiset(r)[x] == multiset(a)[x]
            && multiset(r)[y] == (if p then 1 else 0)
            && multiset(r)[z] == (if q then 1 else 0)
  {
    var b := if p then [y] else [];
    var c := if q then [z] else [];
    assert multiset(a + b + c) == multiset(a) + multiset(b) + multiset(c);
    assert multiset(a)[y] == 0 && multiset(a)[z] == 0 by {
      assert y !in a && z !in a;
    }
    assert forall f :: f in a + b + c ==> f in a || f in b || f in c;
  }

  // The two halves of the password pattern on `password = "abc123"`.

  lemma PasswordName(code: string, i: nat)
    requires StartsAt(code, i, "password = \"abc123\"")
    ensures StartsAtIgnoringCase(code, i, "password")
  {
    StartsAtSplit(code, i, "password", " = \"abc123\"");
    ExactIsIgnoringCase(code, i, "password");
  }

  lemma PasswordValue(code: string, i: nat)
    requires StartsAt(code, i, "password = \"abc123\"")
    ensures QuotedAssignmentAt(code, i + 8)
  {
    StartsAtSplit(code, i, "password", " = \"abc123\"");
    StartsAtChars(code, i + 8, " = \"abc123\"");
    SpacedQuotedAssignment(code, i + 8, 6);
  }

  /** `password = "abc123"` matches the password pattern where it stands. */
  lemma PasswordLiteralMatches(code: string, i: nat)
    requires StartsAt(code, i, "password = \"abc123\"")
    ensures PasswordAt(code, i)
  {
    PasswordName(code, i);
    PasswordValue(code, i);
  }

  /** `password = "abc123"` anywhere in a file is reported as a hardcoded credential. */
  lemma PasswordLiteralFlagged(code: string, filename: string, i: nat)
    requires StartsAt(code, i, "password = \"abc123\"")
    ensures HardcodedCredentials(filename) in SecurityIssues(code, filename)
  {
    PasswordLiteralMatches(code, i);
    assert CredentialPatterns[0] == PasswordAt;
    assert Found(code, CredentialPatterns[0]);
  }

  // -------------------------------------------------------------- performance

  /** `checkPerformance`'s issues: more than three writes per DOM pattern, loop conditions that read `.length`. */
  function PerformanceIssues(code: string, filename: string): (r: seq<Finding>)
    ensures |r| <= 4
    ensures DomBatching(filename) in r <==>
      exists k :: 0 <= k < |DomPatterns| && |Scan(code, DomPatterns[k])| > 3
    ensures UncachedLength(filename) in r <==>
      exists k :: 0 <= k < |LoopPatterns| && Found(code, LoopPatterns[k])
  {
    ForEachFrequent(code, DomPatterns, 3, DomBatching(filename))
    + ForEachFound(code, LoopPatterns, UncachedLength(filename))
  }

  /**
   * Nothing else is reported: the batching issue stands once for every DOM pattern
   * with more than three matches, the length issue once for every loop pattern found.
   */
  lemma PerformanceIssuesExact(code: string, filename: string)
    ensures var r := PerformanceIssues(code, filename);
            && (forall f :: f in r ==> f == DomBatching(filename) || f == UncachedLength(filename))
            && multiset(r)[DomBatching(filename)] == |FrequentIndices(code, DomPatterns, 3)|
            && multiset(r)[UncachedLength(filename)] == |FoundIndices(code, LoopPatterns)|
  {
    var a := ForEachFrequent(code, DomPatterns, 3, DomBatching(filename));
    var b := ForEachFound(code, LoopPatterns, UncachedLength(filename));
    ForEachFrequentCount(code, DomPatterns, 3, DomBatching(filename));
    ForEachFoundCount(code, LoopPatterns, UncachedLength(filename));
    assert PerformanceIssues(code, filename) == a + b;
    assert multiset(a + b) == multiset(a) + multiset(b);
    assert UncachedLength(filename) !in a && DomBatching(filename) !in b;
  }

  /**
   * The greedy `.*` makes one match swallow every write on its line: in a text without
   * line breaks a DOM pattern matches at most once.
   */
  lemma SingleLineMatchesOnce(code: string, lookup: string)
    requires forall m :: 0 <= m < |code| ==> !IsLineTerminator(code[m])
    ensures |Scan(code, DomWrite(lookup))| <= 1
  {
    var spans := Scan(code, DomWrite(lookup));
    ScanOrder(code, DomWrite(lookup), 0);
    if |spans| > 1 {
      assert DomWrite(lookup)(code, spans[0].start) == DomWriteAt(code, spans[0].start, lookup);
      NothingAfterWrite(code, lookup, spans[0].start, spans[1].start);
      assert false;
    }
  }

  /** On a single line, once a DOM write has matched, no later position matches again. */
  lemma NothingAfterWrite(code: string, lookup: string, i: nat, j: nat)
    requires forall m :: 0 <= m < |code| ==> !IsLineTerminator(code[m])
    requires DomWriteAt(code, i, lookup).Some? && DomWriteAt(code, i, lookup).value.end <= j
    ensures DomWrite(lookup)(code, j).None?
  {
    assert LineEnd(code, i + |lookup|) == |code|;
    if DomWriteAt(code, j, lookup).Some? {
      assert false;
    }
  }

  /** So a file written on one line is never told to batch its DOM writes. */
  lemma SingleLineNeverBatched(code: string, filename: string)
    requires forall m :: 0 <= m < |code| ==> !IsLineTerminator(code[m])
    ensures DomBatching(filename) !in PerformanceIssues(code, filename)
  {
    SingleLineMatchesOnce(code, "document.getElementById");
    SingleLineMatchesOnce(code, "document.querySelector");
  }

  // --------------------------------------------------------------- all checks

  /** What `checkAllStandards` returns for one file. */
  datatype FileStandards = FileStandards(
    file: string,
    structure: CheckResult,
    naming: CheckResult,
    documentation: CheckResult,
    security: CheckResult,
    performance: CheckResult,
    overallScore: int,
    totalIssues: nat)

  function Checks(r: FileStandards): seq<CheckResult> {
    [r.structure, r.naming, r.documentation, r.security, r.performance]
  }

  /**
   * The per-file record over the five issue lists: the score `Math.round(passed / 5 * 100)`,
   * which is 20 per passed check, and the issue total.
   */
  function Tally(filename: string, issues: seq<seq<Finding>>): (r: FileStandards)
    requires |issues| == 5
    ensures r.file == filename
    ensures Checks(r) == [Outcome(Structure, issues[0]), Outcome(Naming, issues[1]),
                          Outcome(Documentation, issues[2]), Outcome(Security, issues[3]),
                          Outcome(Performance, issues[4])]
    ensures r.overallScore == 20 * CountTrue([issues[0] == [], issues[1] == [], issues[2] == [],
                                              issues[3] == [], issues[4] == []])
    ensures r.totalIssues == |issues[0]| + |issues[1]| + |issues[2]| + |issues[3]| + |issues[4]|
    ensures 0 <= r.overallScore <= 100
    ensures r.overallScore == 100 <==> r.totalIssues == 0
    ensures r.overallScore == 100 <==> forall k :: 0 <= k < 5 ==> issues[k] == []
  {
    var checks := [Outcome(Structure, issues[0]), Outcome(Naming, issues[1]),
                   Outcome(Documentation, issues[2]), Outcome(Security, issues[3]),
                   Outcome(Performance, issues[4])];
    var verdicts := [checks[0].passed, checks[1].passed, checks[2].passed, checks[3].passed, checks[4].passed];
    var counts := [|checks[0].issues|, |checks[1].issues|, |checks[2].issues|, |checks[3].issues|,
                   |checks[4].issues|];
    var passed := CountTrue(verdicts);
    PercentExact(passed, 5, 20);
    assert (forall k :: 0 <= k < 5 ==> verdicts[k]) <==>
      verdicts[0] && verdicts[1] && verdicts[2] && verdicts[3] && verdicts[4];
    SumOfFive(counts);
    assert (forall k :: 0 <= k < 5 ==> issues[k] == []) <==>
      issues[0] == [] && issues[1] == [] && issues[2] == [] && issues[3] == [] && issues[4] == [];
    var r := FileStandards(filename, checks[0], checks[1], checks[2], checks[3], checks[4],
                           Percent(passed, |checks|), Sum(counts));
    r
  }

  /** `checkAllStandards`: the five checks and their tally. */
  function CheckAllStandards(code: string, filename: string): FileStandards {
    Tally(filename, [StructureIssues(code, filename), NamingIssues(code), DocumentationIssues(code, filename),
                     SecurityIssues(code, filename), PerformanceIssues(code, filename)])
  }

  /** Three failed checks leave at most two passed ones: a score of at most 40. */
  lemma TallyOfThreeFailures(filename: string, issues: seq<seq<Finding>>)
    requires |issues| == 5 && issues[0] != [] && issues[1] != [] && issues[3] != []
    ensures Tally(filename, issues).overallScore <= 40
  {
    var f := [issues[0] == [], issues[1] == [], issues[2] == [], issues[3] == [], issues[4] == []];
    CountTrueCons(f[4], []);
    CountTrueCons(f[3], [f[4]]);
    CountTrueCons(f[2], [f[3], f[4]]);
    CountTrueCons(f[1], [f[2], f[3], f[4]]);
    CountTrueCons(f[0], [f[1], f[2], f[3], f[4]]);
    assert f == [f[0]] + [f[1], f[2], f[3], f[4]];
  }

  /**
   * A 501-line file that opens with `let My_Var` and holds `password = "abc123"` is
   * told about its length, the variable's name and the credential, and scores at most 40.
   */
  lemma ProblemFile(code: string, filename: string, i: nat)
    requires multiset(code)['\n'] == 500
    requires StartsAt(code, 0, "let My_Var") && !IsWordChar(code[10])
    requires StartsAt(code, i, "password = \"abc123\"")
    ensures var r := CheckAllStandards(code, filename);
            && FileTooLong(filename, 501) in r.structure.issues
            && VariableCase("My_Var") in r.naming.issues
            && HardcodedCredentials(filename) in r.security.issues
            && r.overallScore <= 40
  {
    StructureFileLength(code, filename);
    NamingFlagsMixedCase(code);
    PasswordLiteralFlagged(code, filename, i);
    var r := CheckAllStandards(code, filename);
    assert !r.structure.passed && !r.naming.passed && !r.security.passed;
    TallyOfThreeFailures(filename, [StructureIssues(code, filename), NamingIssues(code),
                                    DocumentationIssues(code, filename), SecurityIssues(code, filename),
                                    PerformanceIssues(code, filename)]);
  }

  function Scores(results: seq<FileStandards>): (scores: seq<int>)
    ensures |scores| == |results|
    ensures forall k :: 0 <= k < |results| ==> scores[k] == results[k].overallScore
  {
    seq(|results|, k requires 0 <= k < |results| => results[k].overallScore)
  }

  /**
   * `generateStandardsReport`: the rounded mean of the files' scores and its tier; with
   * no file the mean is NaN and the tier POOR.
   */
  function StandardsReport(results: seq<FileStandards>): (r: Summary)
    ensures results == [] ==> r == Summary(None, Poor)
    ensures results != [] ==> r.average.Some?
  {
    Summarize(Scores(results))
  }

  /** Over files that `checkAllStandards` scored, the report's mean lies in [0, 100]. */
  lemma StandardsReportInRange(results: seq<FileStandards>)
    requires results != []
    requires forall k :: 0 <= k < |results| ==> 0 <= results[k].overallScore <= 100
    ensures 0 <= StandardsReport(results).average.value <= 100
  {
    AverageInRange(Scores(results));
  }
}
