/**
 * The application rules validator: four checks over one file's text (array handling,
 * error handling, role-based access, user experience), the per-file score and issue
 * total, the report's average over files, and `validateApplication`.
 *
 * The first two checks judge every match of a pattern by the text before the FIRST
 * occurrence of the match's text (`code.indexOf(match)`), not by the text before the
 * match itself: all matches of one pattern with the same text share one verdict.
 */
module Rules {
  import opened Wrappers
  import opened Text
  import opened Matching
  import opened Scoring
  import opened Selection

  datatype Rule = ArrayHandling | ErrorHandling | RoleBasedAccess | UserExperience

  /** The issue messages, each as its template and the match text filled into it. */
  datatype Issue =
    | UnvalidatedArrayMethod(call: string)
    | UnwrappedApiCall(call: string)
    | UncheckedAdminFeature
    | AsyncWithoutLoading
    | ErrorWithoutFeedback

  function ArrayMethodIssue(call: string): Issue { UnvalidatedArrayMethod(call) }
  function ApiCallIssue(call: string): Issue { UnwrappedApiCall(call) }

  /** What every check returns; `passed` is `issues.length === 0`. */
  datatype Validation = Validation(rule: Rule, issues: seq<Issue>, passed: bool)

  function Verdict(rule: Rule, issues: seq<Issue>): Validation {
    Validation(rule, issues, issues == [])
  }

  // ------------------------------------------- matches judged by the first occurrence

  /** `code.match(pattern)` with the `g` flag: the text of every match, in order. */
  function MatchTexts(code: string, at: Matcher): (texts: seq<string>)
    ensures |texts| == |Scan(code, at)|
    ensures forall k :: 0 <= k < |texts| ==> texts[k] == Matched(code, Scan(code, at)[k])
  {
    var spans := Scan(code, at);
    seq(|spans|, k requires 0 <= k < |spans| => Matched(code, spans[k]))
  }

  /**
   * `code.substring(0, code.indexOf(text))`: the text before the first occurrence of
   * `text`. A text that does not occur has index -1, which `substring` clamps to 0.
   */
  function Before(code: string, text: string): string {
    var i := IndexOf(code, text);
    if i < 0 then "" else code[..i]
  }

  /** `before.includes(first) || before.includes(second)` */
  predicate Guarded(before: string, first: string, second: string) {
    Contains(before, first) || Contains(before, second)
  }

  /** The inner `forEach`: an issue for each match text whose first occurrence no guard precedes. */
  function Judged(code: string, texts: seq<string>, first: string, second: string,
                  issue: string -> Issue): (r: seq<Issue>)
    ensures |r| <= |texts|
  {
    if texts == [] then []
    else
      var last := texts[|texts| - 1];
      Judged(code, texts[..|texts| - 1], first, second, issue)
      + (if Guarded(Before(code, last), first, second) then [] else [issue(last)])
  }

  /** The issues one pattern contributes. */
  function PatternJudged(code: string, at: Matcher, first: string, second: string, issue: string -> Issue): seq<Issue> {
    Judged(code, MatchTexts(code, at), first, second, issue)
  }

  /** What each pattern contributes, pattern by pattern. */
  function Contributions(code: string, patterns: seq<Matcher>, first: string, second: string,
                         issue: string -> Issue): (parts: seq<seq<Issue>>)
    ensures |parts| == |patterns|
    ensures forall k :: 0 <= k < |patterns| ==> parts[k] == PatternJudged(code, patterns[k], first, second, issue)
  {
    seq(|patterns|, k requires 0 <= k < |patterns| => PatternJudged(code, patterns[k], first, second, issue))
  }

  /** The outer `forEach`: the judged matches of every pattern, pattern after pattern. */
  function PatternIssues(code: string, patterns: seq<Matcher>, first: string, second: string,
                         issue: string -> Issue): seq<Issue>
  {
    Concat(Contributions(code, patterns, first, second, issue))
  }

  /** The lists one after the other. */
  function Concat(parts: seq<seq<Issue>>): (r: seq<Issue>) {
    if parts == [] then [] else Concat(parts[..|parts| - 1]) + parts[|parts| - 1]
  }

  /** A concatenation is empty exactly when every part is. */
  lemma {:induction false} ConcatEmpty(parts: seq<seq<Issue>>)
    ensures Concat(parts) == [] <==> forall k :: 0 <= k < |parts| ==> parts[k] == []
  {
    if parts != [] {
      var n := |parts| - 1;
      ConcatEmpty(parts[..n]);
      assert forall k :: 0 <= k < n ==> parts[k] == parts[..n][k];
    }
  }

  /** An element of a concatenation is an element of some part, and conversely. */
  lemma {:induction false} ConcatMembers(parts: seq<seq<Issue>>)
    ensures forall x :: x in Concat(parts) <==> exists k :: 0 <= k < |parts| && x in parts[k]
  {
    if parts != [] {
      var n := |parts| - 1;
      ConcatMembers(parts[..n]);
      assert forall k :: 0 <= k < n ==> parts[k] == parts[..n][k];
    }
  }

  /** Every issue comes from an unguarded match text, and every unguarded match text gives its issue. */
  lemma {:induction false} JudgedMembers(code: string, texts: seq<string>, first: string, second: string,
                                         issue: string -> Issue)
    ensures forall x :: x in Judged(code, texts, first, second, issue) ==>
      exists k :: 0 <= k < |texts| && x == issue(texts[k]) && !Guarded(Before(code, texts[k]), first, second)
    ensures forall k :: 0 <= k < |texts| && !Guarded(Before(code, texts[k]), first, second) ==>
      issue(texts[k]) in Judged(code, texts, first, second, issue)
  {
    if texts != [] {
      var n := |texts| - 1;
      var init := texts[..n];
      JudgedMembers(code, init, first, second, issue);
      assert forall k :: 0 <= k < n ==> texts[k] == init[k];
    }
  }

  /**
   * The quirk: when all match texts are the same text `t`, either none of them is
   * reported or every one is, according to what precedes the first `t`.
   */
  lemma {:induction false} JudgedUniform(code: string, texts: seq<string>, first: string, second: string,
                                         issue: string -> Issue, t: string)
    requires forall k :: 0 <= k < |texts| ==> texts[k] == t
    ensures Judged(code, texts, first, second, issue)
            == if Guarded(Before(code, t), first, second) then [] else seq(|texts|, _ => issue(t))
  {
    if texts != [] {
      var n := |texts| - 1;
      JudgedUniform(code, texts[..n], first, second, issue, t);
      if !Guarded(Before(code, t), first, second) {
        assert seq(n, _ => issue(t)) + [issue(t)] == seq(n + 1, _ => issue(t));
      }
    }
  }

  /**
   * A literal pattern such as `/\.map\(/g` contributes no issue, or one issue for each
   * of its occurrences, according to what precedes its first occurrence.
   */
  lemma LiteralJudgedByFirst(code: string, lit: string, first: string, second: string, issue: string -> Issue)
    requires |lit| > 0
    ensures PatternJudged(code, Literal(lit), first, second, issue)
            == if Guarded(Before(code, lit), first, second) then []
               else seq(|Scan(code, Literal(lit))|, _ => issue(lit))
  {
    LiteralMatches(code, lit);
    JudgedUniform(code, MatchTexts(code, Literal(lit)), first, second, issue, lit);
  }

  /** A literal pattern contributes nothing exactly when it does not occur or a guard precedes its first occurrence. */
  lemma LiteralSilent(code: string, lit: string, first: string, second: string, issue: string -> Issue)
    requires |lit| > 0
    ensures PatternJudged(code, Literal(lit), first, second, issue) == []
            <==> !Contains(code, lit) || Guarded(Before(code, lit), first, second)
  {
    LiteralJudgedByFirst(code, lit, first, second, issue);
    LiteralNone(code, lit);
  }

  /**
   * The inner `matches.forEach` of `validateArrayHandling` and `validateErrorHandling`:
   * for every match text, look up its first occurrence and test the text before it.
   */
  method JudgeTexts(code: string, texts: seq<string>, first: string, second: string,
                    issue: string -> Issue, earlier: seq<Issue>) returns (issues: seq<Issue>)
    ensures issues == earlier + Judged(code, texts, first, second, issue)
  {
    issues := earlier;
    for j := 0 to |texts|
      invariant issues == earlier + Judged(code, texts[..j], first, second, issue)
    {
      var found := texts[j];
      var lineIndex := IndexOf(code, found);
      var beforeLine := if lineIndex < 0 then "" else code[..lineIndex];
      assert texts[..j + 1][..j] == texts[..j];
      if !Contains(beforeLine, first) && !Contains(beforeLine, second) {
        issues := issues + [issue(found)];
      }
    }
    assert texts[..|texts|] == texts;
  }

  /** The outer `patterns.forEach`: each pattern's match texts, judged in turn. */
  method JudgeMatches(code: string, patterns: seq<Matcher>, first: string, second: string,
                      issue: string -> Issue) returns (issues: seq<Issue>)
    ensures issues == PatternIssues(code, patterns, first, second, issue)
  {
    issues := [];
    ghost var parts := Contributions(code, patterns, first, second, issue);
    for p := 0 to |patterns|
      invariant issues == Concat(parts[..p])
    {
      var matches := MatchTexts(code, patterns[p]);
      issues := JudgeTexts(code, matches, first, second, issue, issues);
      assert parts[..p + 1][..p] == parts[..p];
    }
    assert parts[..|patterns|] == parts;
  }

  // ---------------------------------------------------------------- array handling

  /** The array methods the check looks for, as `/\.find\(/g` and so on match them. */
  const ArrayMethods: seq<string> := [".find(", ".filter(", ".map(", ".reduce(", ".forEach("]

  const ArrayMethodPatterns: seq<Matcher> := Literals(ArrayMethods)

  function ArrayIssues(code: string): seq<Issue> {
    PatternIssues(code, ArrayMethodPatterns, "Array.isArray", "response.results", ArrayMethodIssue)
  }

  /** `validateArrayHandling` */
  method ValidateArrayHandling(code: string) returns (r: Validation)
    ensures r == Verdict(ArrayHandling, ArrayIssues(code))
  {
    var issues := JudgeMatches(code, ArrayMethodPatterns, "Array.isArray", "response.results", ArrayMethodIssue);
    r := Validation(ArrayHandling, issues, |issues| == 0);
  }

  /**
   * The array check passes exactly when every array method that occurs has
   * `Array.isArray` or `response.results` somewhere before its first occurrence.
   */
  lemma ArrayHandlingPasses(code: string)
    ensures ArrayIssues(code) == [] <==>
      forall k :: 0 <= k < |ArrayMethods| && Contains(code, ArrayMethods[k]) ==>
        Guarded(Before(code, ArrayMethods[k]), "Array.isArray", "response.results")
  {
    LiteralsSilent(code, ArrayMethods, "Array.isArray", "response.results", ArrayMethodIssue);
  }

  /** A list of literal patterns yields no issue exactly when each literal is absent or guarded. */
  lemma LiteralsSilent(code: string, lits: seq<string>, first: string, second: string, issue: string -> Issue)
    requires forall k :: 0 <= k < |lits| ==> |lits[k]| > 0
    ensures PatternIssues(code, Literals(lits), first, second, issue) == [] <==>
      forall k :: 0 <= k < |lits| && Contains(code, lits[k]) ==> Guarded(Before(code, lits[k]), first, second)
  {
    var parts := Contributions(code, Literals(lits), first, second, issue);
    ConcatEmpty(parts);
    forall k | 0 <= k < |lits|
      ensures parts[k] == [] <==> (!Contains(code, lits[k]) || Guarded(Before(code, lits[k]), first, second))
    {
      LiteralSilent(code, lits[k], first, second, issue);
    }
  }

  // ---------------------------------------------------------------- error handling

  /**
   * `/await\s+\w+\.\w+\(/g` tried at `i`. Neither `\s` nor `\w` matches the character
   * that has to follow its run, so the greedy runs are the only ones that can succeed.
   */
  function ApiCallAt(s: string, i: nat): (r: Option<Hit>)
    ensures r.Some? ==> Fits(s, i, r.value) && r.value.group == i && StartsAt(s, i, "await")
  {
    if !StartsAt(s, i, "await") then None
    else
      var a := i + 5;
      var spaces := Run(s, a, IsSpace);
      var b := a + spaces;
      var receiver := Run(s, b, IsWordChar);
      if spaces == 0 || receiver == 0 || b + receiver == |s| || s[b + receiver] != '.' then None
      else
        var c := b + receiver + 1;
        var name := Run(s, c, IsWordChar);
        if name == 0 || c + name == |s| || s[c + name] != '(' then None
        else Some(Hit(i, c + name + 1))
  }

  const ApiCallPatterns: seq<Matcher> := [ApiCallAt, Literal("fetch("), Literal("axios.")]

  function ErrorIssues(code: string): seq<Issue> {
    PatternIssues(code, ApiCallPatterns, "try", "catch", ApiCallIssue)
  }

  /** `validateErrorHandling` */
  method ValidateErrorHandling(code: string) returns (r: Validation)
    ensures r == Verdict(ErrorHandling, ErrorIssues(code))
  {
    var issues := JudgeMatches(code, ApiCallPatterns, "try", "catch", ApiCallIssue);
    r := Validation(ErrorHandling, issues, |issues| == 0);
  }

  /** The guards are substring tests: a preceding word such as `entry` counts as `try`. */
  lemma EntryCountsAsTry(before: string)
    requires Contains(before, "entry")
    ensures Guarded(before, "try", "catch")
  {
    var i :| 0 <= i <= |before| && StartsAt(before, i, "entry");
    StartsAtSplit(before, i, "en", "try");
  }

  /**
   * The error check reports an API call text exactly when some pattern matched that
   * text and neither `try` nor `catch` occurs before the text's first occurrence.
   */
  lemma ErrorHandlingReports(code: string, t: string)
    ensures UnwrappedApiCall(t) in ErrorIssues(code) <==>
      (exists k :: 0 <= k < |ApiCallPatterns| && t in MatchTexts(code, ApiCallPatterns[k]))
      && !Guarded(Before(code, t), "try", "catch")
  {
    var parts := Contributions(code, ApiCallPatterns, "try", "catch", ApiCallIssue);
    ConcatMembers(parts);
    forall k | 0 <= k < |parts|
      ensures UnwrappedApiCall(t) in parts[k] <==>
        t in MatchTexts(code, ApiCallPatterns[k]) && !Guarded(Before(code, t), "try", "catch")
    {
      var texts := MatchTexts(code, ApiCallPatterns[k]);
      JudgedMembers(code, texts, "try", "catch", ApiCallIssue);
      if t in texts && !Guarded(Before(code, t), "try", "catch") {
        var j :| 0 <= j < |texts| && texts[j] == t;
        assert ApiCallIssue(texts[j]) in parts[k];
      }
    }
  }

  /** So a `fetch(` call whose first occurrence follows the word `entry` is never reported. */
  lemma FetchAfterEntryNotReported(code: string)
    requires Contains(Before(code, "fetch("), "entry")
    ensures UnwrappedApiCall("fetch(") !in ErrorIssues(code)
  {
    EntryCountsAsTry(Before(code, "fetch("));
    ErrorHandlingReports(code, "fetch(");
  }

  // ---------------------------------------------------------- role-based access

  /** `/admin/i` */
  predicate AdminAt(s: string, i: nat) { StartsAtIgnoringCase(s, i, "admin") }

  /** `/can_view_all/i` */
  predicate CanViewAllAt(s: string, i: nat) { StartsAtIgnoringCase(s, i, "can_view_all") }

  /** `/role.*admin/i`: `role`, then anything but line terminators, then `admin`. */
  predicate RoleAdminAt(s: string, i: nat) {
    && StartsAtIgnoringCase(s, i, "role")
    && exists j :: i + 4 <= j <= |s| && AdminAt(s, j)
                   && forall m :: i + 4 <= m < j ==> !IsLineTerminator(s[m])
  }

  const AdminPatterns: seq<Probe> := [AdminAt, CanViewAllAt, RoleAdminAt]

  /** The permission check the role check looks for, tested case-sensitively. */
  predicate PermissionChecked(code: string) {
    Contains(code, "checkUserRole") || Contains(code, "can_view_all")
  }

  /** `validateRoleBasedAccess`'s issues: one per admin pattern found, unless permissions are checked. */
  function RoleIssues(code: string): (r: seq<Issue>)
    ensures |r| <= 3
    ensures forall x :: x in r ==> x == UncheckedAdminFeature
    ensures UncheckedAdminFeature in r <==>
      !PermissionChecked(code) && exists k :: 0 <= k < |AdminPatterns| && Found(code, AdminPatterns[k])
  {
    if PermissionChecked(code) then [] else ForEachFound(code, AdminPatterns, UncheckedAdminFeature)
  }

  /** `validateRoleBasedAccess` */
  function ValidateRoleBasedAccess(code: string): Validation {
    Verdict(RoleBasedAccess, RoleIssues(code))
  }

  /** Wherever `role…admin` matches, `admin` alone matches too. */
  lemma RoleAdminFindsAdmin(code: string)
    requires Found(code, RoleAdminAt)
    ensures Found(code, AdminAt)
  {
    var i :| 0 <= i <= |code| && RoleAdminAt(code, i);
    var j :| i + 4 <= j <= |code| && AdminAt(code, j)
             && forall m :: i + 4 <= m < j ==> !IsLineTerminator(code[m]);
    assert 0 <= j <= |code| && AdminAt(code, j);
  }

  /**
   * The role check passes exactly when permissions are checked or neither `admin` nor
   * `can_view_all` occurs in any letter case; the third pattern never decides alone.
   */
  lemma RoleAccessPasses(code: string)
    ensures ValidateRoleBasedAccess(code).passed <==>
      PermissionChecked(code) || (!Found(code, AdminAt) && !Found(code, CanViewAllAt))
  {
    if Found(code, RoleAdminAt) {
      RoleAdminFindsAdmin(code);
    }
    assert AdminPatterns[0] == AdminAt && AdminPatterns[1] == CanViewAllAt && AdminPatterns[2] == RoleAdminAt;
    var r := RoleIssues(code);
    if r != [] {
      assert r[0] in r;
    }
  }

  /** Without a permission check, each admin pattern that matches adds one issue. */
  lemma RoleIssuesCount(code: string)
    requires !PermissionChecked(code)
    ensures |RoleIssues(code)| == (if Found(code, AdminAt) then 1 else 0) + (if Found(code, CanViewAllAt) then 1 else 0)
                                  + (if Found(code, RoleAdminAt) then 1 else 0)
  {
    ForEachFoundOfThree(code, AdminAt, CanViewAllAt, RoleAdminAt, UncheckedAdminFeature);
  }

  /**
   * The permission test is case-sensitive while the pattern is not: a file whose only
   * mention is `CAN_VIEW_ALL` is reported.
   */
  lemma UpperCaseCanViewAllReported(code: string, i: nat)
    requires StartsAt(code, i, "CAN_VIEW_ALL")
    requires !PermissionChecked(code)
    ensures UncheckedAdminFeature in RoleIssues(code)
  {
    var w := code[i..i + 12];
    assert w == "CAN_VIEW_ALL";
    LowerByChars(w, "can_view_all");
    assert CanViewAllAt(code, i);
    assert AdminPatterns[1] == CanViewAllAt;
    assert Found(code, AdminPatterns[1]);
  }

  // ------------------------------------------------------------- user experience

  /** `validateUserExperience`'s issues. */
  function UxIssues(code: string): (r: seq<Issue>)
    ensures |r| <= 2
    ensures AsyncWithoutLoading in r <==>
      Contains(code, "await") && !Contains(code, "loading") && !Contains(code, "spinner")
    ensures ErrorWithoutFeedback in r <==>
      Contains(code, "catch") && !Contains(code, "showAlert") && !Contains(code, "error")
    ensures forall x :: x in r ==> x == AsyncWithoutLoading || x == ErrorWithoutFeedback
  {
    (if Contains(code, "await") && !Contains(code, "loading") && !Contains(code, "spinner")
     then [AsyncWithoutLoading] else [])
    + (if Contains(code, "catch") && !Contains(code, "showAlert") && !Contains(code, "error")
       then [ErrorWithoutFeedback] else [])
  }

  /** `validateUserExperience` */
  function ValidateUserExperience(code: string): Validation {
    Verdict(UserExperience, UxIssues(code))
  }

  /** The usual `catch (error)` mentions `error`, which already counts as user feedback. */
  lemma CatchErrorCountsAsFeedback(code: string, i: nat)
    requires StartsAt(code, i, "catch (error)")
    ensures ErrorWithoutFeedback !in UxIssues(code)
  {
    StartsAtSplit(code, i, "catch (", "error)");
    StartsAtSplit(code, i + 7, "error", ")");
  }

  // ------------------------------------------------------------------ one file

  /** What `validateFile` returns for one file. */
  datatype FileValidation = FileValidation(
    file: string,
    arrayHandling: Validation,
    errorHandling: Validation,
    roleBasedAccess: Validation,
    userExperience: Validation,
    overallScore: int,
    totalIssues: nat)

  function Validations(r: FileValidation): seq<Validation> {
    [r.arrayHandling, r.errorHandling, r.roleBasedAccess, r.userExperience]
  }

  /** The four issue lists of a file, in the order of `validations`. */
  function RuleIssues(code: string): seq<seq<Issue>> {
    [ArrayIssues(code), ErrorIssues(code), RoleIssues(code), UxIssues(code)]
  }

  /**
   * The per-file record over the four issue lists: the score `Math.round(passed / 4 * 100)`,
   * which is 25 per passed validation, and the issue total.
   */
  function Tally(filePath: string, issues: seq<seq<Issue>>): (r: FileValidation)
    requires |issues| == 4
    ensures r.file == filePath
    ensures Validations(r) == [Verdict(ArrayHandling, issues[0]), Verdict(ErrorHandling, issues[1]),
                               Verdict(RoleBasedAccess, issues[2]), Verdict(UserExperience, issues[3])]
    ensures r.overallScore == 25 * CountTrue([issues[0] == [], issues[1] == [], issues[2] == [], issues[3] == []])
    ensures r.totalIssues == |issues[0]| + |issues[1]| + |issues[2]| + |issues[3]|
    ensures 0 <= r.overallScore <= 100
    ensures r.overallScore == 100 <==> r.totalIssues == 0
    ensures r.overallScore == 100 <==> forall k :: 0 <= k < 4 ==> issues[k] == []
  {
    var vs := [Verdict(ArrayHandling, issues[0]), Verdict(ErrorHandling, issues[1]),
               Verdict(RoleBasedAccess, issues[2]), Verdict(UserExperience, issues[3])];
    var verdicts := [vs[0].passed, vs[1].passed, vs[2].passed, vs[3].passed];
    var counts := [|vs[0].issues|, |vs[1].issues|, |vs[2].issues|, |vs[3].issues|];
    var passed := CountTrue(verdicts);
    PercentExact(passed, 4, 25);
    assert (forall k :: 0 <= k < 4 ==> verdicts[k]) <==> verdicts[0] && verdicts[1] && verdicts[2] && verdicts[3];
    SumOfFour(counts);
    FileValidation(filePath, vs[0], vs[1], vs[2], vs[3], Percent(passed, |vs|), Sum(counts))
  }

  /**
   * `validateFile`: builds the record with a zero score and total, then assigns the
   * score (the share of passed validations) and the total (the sum of the issue counts).
   */
  method ValidateFile(filePath: string, code: string) returns (results: FileValidation)
    ensures results == Tally(filePath, RuleIssues(code))
  {
    var arrayHandling := ValidateArrayHandling(code);
    var errorHandling := ValidateErrorHandling(code);
    results := FileValidation(filePath, arrayHandling, errorHandling, ValidateRoleBasedAccess(code),
                              ValidateUserExperience(code), 0, 0);
    var v := Validations(results);
    var passed := CountTrue([v[0].passed, v[1].passed, v[2].passed, v[3].passed]);
    results := results.(overallScore := Percent(passed, |v|));
    var counts := [|v[0].issues|, |v[1].issues|, |v[2].issues|, |v[3].issues|];
    SumOfFour(counts);
    results := results.(totalIssues := Sum(counts));
  }

  // -------------------------------------------------------------------- report

  function Scores(results: seq<FileValidation>): (scores: seq<int>)
    ensures |scores| == |results|
    ensures forall k :: 0 <= k < |results| ==> scores[k] == results[k].overallScore
  {
    seq(|results|, k requires 0 <= k < |results| => results[k].overallScore)
  }

  /** `generateReport`: the rounded mean of the files' scores and its tier. */
  function RulesReport(results: seq<FileValidation>): (r: Summary)
    ensures results == [] ==> r == Summary(None, Poor)
    ensures results != [] ==> r.average.Some?
  {
    Summarize(Scores(results))
  }

  /** Over files that `validateFile` scored, the report's mean lies in [0, 100]. */
  lemma RulesReportInRange(results: seq<FileValidation>)
    requires results != []
    requires forall k :: 0 <= k < |results| ==> 0 <= results[k].overallScore <= 100
    ensures 0 <= RulesReport(results).average.value <= 100
  {
    AverageInRange(Scores(results));
  }

  /** `validateApplication` reads no file yet and returns an empty list of results. */
  function ValidateApplication(): seq<FileValidation> {
    []
  }

  /** Reporting what `validateApplication` returns averages over no file: NaN, hence POOR. */
  lemma ApplicationReportIsPoor()
    ensures RulesReport(ValidateApplication()) == Summary(None, Poor)
  {
  }
}
