# Bookkeeping quality tools and front-end helpers, in Dafny

This project models the deterministic core of a family bookkeeping application and of the
code-quality scripts that ship with it.

- **Development standards checker** (`check_standards.js`). It has five checks over a
  file's text: structure, naming, documentation, security and performance. Each check
  yields a list of issues. A file scores `round(100 · passed / 5)`, and the report tiers
  the average over files.
- **Application rules validator** (`validate_rules.js`). It has four checks built from
  substring tests and pattern matches, a `round(100 · passed / 4)` score and the same
  tiers. Each match of an array-method or API-call pattern is judged by the text before
  the *first* occurrence of that match's text.
- **Code quality enforcer** (`enforce_quality.js`). It builds a four-entry quality report,
  a score and ordered recommendations. It also has a rewrite that puts a permission check
  in front of code mentioning admin features.
- **Master quality control** (`quality_control.js`). Three checks update a shared results
  record in place. The overall score is weighted 40/30/30. The module also covers the
  recommendation groups, the improvement plan, the monitoring configuration and the
  master tiers (95/85/75).
- **Helpers of the bookkeeping front end** (`js/django-app.js`, `js/app.js`):
  - the e-mail, description, amount and import-data validators;
  - the naive CSV parser and the CSV export, with a proof that export followed by
    parsing gives the rows back for plain data;
  - the import loop that tallies the backend's answers;
  - the search filters;
  - the bounded retry loop with growing waits.

Modules follow the source files:

| module | file | source |
|---|---|---|
| `Standards` | `standards.dfy` | `check_standards.js` |
| `StandardsHelpers` | `standards_helpers.dfy` | the name tests and `getMostCommon` |
| `StandardsPatterns` | `standards_patterns.dfy` | its regular expressions |
| `Rules` | `rules.dfy` | `validate_rules.js` |
| `Enforcer` | `enforcer.dfy` | `enforce_quality.js` |
| `Master` | `master.dfy` | `quality_control.js` |
| `Csv` | `csv.dfy` | `parseCSV`, `exportToCSV` |
| `Bookkeeping` | `bookkeeping.dfy` | the remaining helpers of `js/django-app.js` |
| `Retry` | `retry.dfy` | `retryOperation` of `js/app.js` |

Shared modules:
- `Text` models JavaScript string operations.
- `Matching` (`scan.dfy`) models a global regular expression's `exec` loop and `test`.
- `Scoring` holds `Math.round` on ratios, averages and the 90/75/60 tiers.
- `Selection` holds conditional pushes.
- `Wrappers` holds `Option` and `Result`.

How the model represents the source:
- **Regular expressions.** Each one becomes a deterministic matcher at a position. The
  matcher follows the greedy, backtracking choice the JavaScript engine makes for that
  pattern. `Matching.ScanFrom` is the leftmost, non-overlapping sequence of matches that a
  `while (re.exec(s))` loop or `s.match(re)` yields.
- **`Math.round`.** Non-negative ratios are rounded half up in exact integer arithmetic
  (`Scoring.RoundDiv`).
- **Averages.** The average of an empty list is JavaScript's `NaN`. It is represented as
  `None`, and every tier comparison on it fails, so it lands in POOR.
- **Reports over no files.** `generateStandardsReport` and `generateReport` divide the
  total score by `results.length` without a guard. With no files the average is `NaN` and
  the tier is POOR. `Scoring.Summarize`, `Standards.StandardsReport` and
  `Rules.RulesReport` do the same.
- **Strings.** Strings are sequences of Unicode characters. JavaScript's `length` counts
  UTF-16 code units, so a character above U+FFFF counts twice (`Text.Utf16Length`). The
  description length and the `{50,}`/`{30,}` bounds of the complex-logic patterns, whose
  regular expressions have no `u` flag, are counted that way.
- **Outside inputs.** I/O, clocks and backends become parameters:
  - the results record's time stamp;
  - the outcome of each attempt in `retryOperation`;
  - the failure, if any, of the backend call for each imported row.

  The retry loop returns its waits instead of sleeping.
- **Objects updated in place.** The results record of `runQualityControl` is a class,
  `Master.QualityResults`, whose check methods change its fields.

## Model

| member | source | states |
|---|---|---|
| StandardsHelpers.IsCamelCase | check_standards.js:342-344 | true exactly for a non-empty name whose first character is a lower-case ASCII letter and whose others are ASCII letters or digits |
| StandardsHelpers.IsPascalCase | check_standards.js:346-348 | true exactly for a non-empty name with an upper-case first letter followed by ASCII letters or digits |
| StandardsHelpers.IsUpperCase | check_standards.js:350-352 | true exactly for a non-empty name starting with an upper-case letter or `_` and continuing with upper-case letters, digits or `_` |
| StandardsHelpers.EmptyNameRejected | check_standards.js:342-352 | the empty name passes none of the three conventions |
| StandardsHelpers.MixedNameRejected | check_standards.js:342-352 | `My_Var` passes none of the three conventions |
| StandardsHelpers.ConstantNamesAccepted | check_standards.js:350-352 | `_` and `MAX_SIZE` are UPPER_CASE |
| StandardsHelpers.ConventionsOverlap | check_standards.js:342-352 | a camelCase name is neither PascalCase nor UPPER_CASE; a name is both PascalCase and UPPER_CASE exactly when it is an upper-case letter followed by upper-case letters and digits |
| StandardsHelpers.BestOf | check_standards.js:359-361 | the reduce over the frequency table's keys returns a key that no other key outranks (strictly more frequent, or as frequent and larger) |
| StandardsHelpers.MostCommon | check_standards.js:354-362 | the result occurs in the list, no element is more frequent, and it is the largest of the equally frequent ones |
| StandardsHelpers.MostCommonUnique | check_standards.js:354-362 | exactly one value meets that description, so `getMostCommon` is determined by it |
| StandardsHelpers.MostCommonTie | check_standards.js:359-361 | on a tie the larger width wins: `[2, 4]` gives 4 |
| StandardsHelpers.GetMostCommon | check_standards.js:354-362 | the counting loop and the reduce return the most common width as defined above |
| Standards.IndentWidthsMembers | check_standards.js:83-86 | the widths collected are exactly the positive leading-whitespace widths of the lines |
| Standards.Misfits | check_standards.js:90-92 | the `inconsistent` filter keeps exactly the widths that are not multiples of the most common width (the `!== mostCommon` test adds nothing) |
| Standards.StructureIssues | check_standards.js:73-110 | at most three issues; the too-long issue, carrying the line count, iff there are more than 500 lines; the indentation issue iff some width misfits; the trailing-whitespace issue iff some line ends in whitespace |
| Standards.StructureIssuesExact | check_standards.js:73-110 | no other finding and none twice: every issue is one of the three for this file, no two entries are equal, and the list is empty (the check passes) iff none of the three conditions holds |
| Standards.StructureFileLength | check_standards.js:75-80 | a file is too long exactly when it has at least 500 newlines, and the reported count is the number of newlines plus one |
| Standards.StructureIndentation | check_standards.js:83-97 | the indentation issue appears iff some indented line's width is not a multiple of the most common positive width (`Standards.MisfitLine`); without indented lines it never appears |
| Standards.IndentMisfits | check_standards.js:83-97 | the list of misfit widths is non-empty iff some indented line's width is not a multiple of the most common width |
| Standards.MajorityOfFour | check_standards.js:88-97 | widths 4, 4, 2 are inconsistent |
| Standards.MajorityOfTwo | check_standards.js:88-97 | widths 2, 2, 4 are consistent |
| Standards.SplitLineEnds | check_standards.js:99-103 | some line of `code.split('\n')` ends in whitespace iff whitespace stands right before a line break or at the end of the text |
| Standards.StructureTrailing | check_standards.js:99-103 | the trailing-whitespace issue is that condition, and any CRLF line ending triggers it |
| Standards.FlaggedMembers | check_standards.js:121-126 | a naming loop reports exactly the captured names its convention rejects, and nothing else |
| Standards.FlagDeclarations | check_standards.js:119-144 | the `exec` loop pushes, in match order, the issue of each rejected capture onto the issues so far |
| Standards.NamingIssues | check_standards.js:115-151 | the variable, function and class loops' issues in that order, each loop reporting exactly its rejected captures (`Standards.FlaggedMembers`) |
| Standards.CheckNaming | check_standards.js:115-151 | the naming result is the variable, then function, then class issues, and passes iff there are none |
| Standards.LeadingDeclaration | check_standards.js:119 | a file opening with `let My_Var` matches the variable pattern at 0 with capture `My_Var` |
| Standards.NamingFlagsMixedCase | check_standards.js:119-125 | such a file gets the issue for variable `My_Var` |
| Standards.UndocumentedMembers | check_standards.js:162-171 | a function declaration is reported iff the text before it contains neither `/**` nor `* @` |
| Standards.FindUndocumented | check_standards.js:160-171 | the `exec` loop's issues are the undocumented declarations, in order |
| Standards.DocumentationIssues | check_standards.js:156-191 | the undocumented declarations (`Standards.UndocumentedMembers`) followed by the complex-logic issue once per complex pattern found (`Matching.ForEachFound`) |
| Standards.EmojiConditionReported | check_standards.js:174-183 | an `if` whose condition is twenty-five emoji gets the complex-logic issue, as the code-unit count gives |
| Standards.CheckDocumentation | check_standards.js:156-191 | the documentation result is the undocumented declarations followed by one complex-logic issue per matching complex pattern |
| Standards.DocCommentCarriesForward | check_standards.js:164-168 | once one declaration counts as documented, every later declaration does too |
| Standards.LeadingDocComment | check_standards.js:156-184 | a file opening with `/**` only ever gets complex-logic issues |
| Standards.SecurityIssues | check_standards.js:196-230 | at most six issues; the credential issue iff one of the four credential patterns matches; the SQL issue iff the SQL pattern matches; the XSS issue iff the `innerHTML` pattern matches |
| Standards.SecurityIssuesExact | check_standards.js:196-230 | no other finding: the credential issue appears exactly once per credential pattern that matches, and the SQL and XSS issues once each when their pattern matches and never otherwise |
| Standards.PasswordLiteralFlagged | check_standards.js:201-211 | `password = "abc123"` anywhere in a file yields the hard-coded credential issue |
| Standards.PerformanceIssues | check_standards.js:235-268 | at most four issues; the batching issue iff one DOM pattern matches more than three times; the loop issue iff a length-in-loop pattern matches |
| Standards.PerformanceIssuesExact | check_standards.js:235-268 | no other finding: the batching issue appears exactly once per DOM pattern with more than three matches, and the length issue once per loop pattern that matches |
| Standards.SingleLineNeverBatched | check_standards.js:239-248 | a text without line breaks never gets the batching issue, because each DOM pattern matches at most once per line |
| Standards.Tally | check_standards.js:273-297 | the five results are the checks' outcomes; the score is 20 per check with no issue and lies in 0..100; the total is the sum of the five issue counts; the score is 100 iff the total is 0 iff every list is empty |
| Standards.CheckAllStandards | check_standards.js:273-297 | the five checks of the file, tallied as above |
| Standards.ProblemFile | check_standards.js:273-297 | a 501-line file opening with `let My_Var` and holding `password = "abc123"` gets the length, naming and credential issues and scores at most 40 |
| Standards.StandardsReport | check_standards.js:323-338 | with no files the average is NaN and the tier POOR; otherwise there is a numeric average |
| Standards.StandardsReportInRange | check_standards.js:324-326 | with file scores in 0..100 the rounded average lies in 0..100 |
| StandardsPatterns.SpacedName | check_standards.js:119 | `\s+([a-zA-Z_][a-zA-Z0-9_]*)` at a position: a whitespace run, then an identifier taken greedily to its last word character; no match exactly when the run or the identifier start is missing |
| StandardsPatterns.VarDeclAt | check_standards.js:119 | a variable declaration match starts with `let`, `const` or `var` and lies in the text |
| StandardsPatterns.FuncDeclAt | check_standards.js:129 | a function declaration match starts with `function` or `async` and lies in the text |
| StandardsPatterns.ClassDeclAt | check_standards.js:138 | a class declaration match starts with `class` and lies in the text |
| StandardsPatterns.SpacedQuotedAssignment | check_standards.js:201 | ` = "…"` with a non-empty quote-free value satisfies the credential pattern's tail |
| StandardsPatterns.LineEnd | check_standards.js:240 | `.*` runs to the first line terminator or the end of the text |
| StandardsPatterns.ConditionAt | check_standards.js:175-177 | a condition pattern matches only after its keyword, and the captured condition contains no `)` |
| StandardsPatterns.EmojiConditionIsLong | check_standards.js:175 | `if (` with twenty-five U+1F600 characters and `)` matches the long-`if` pattern: the run is fifty UTF-16 code units |
| StandardsPatterns.PlainConditionLength | check_standards.js:175-177 | for a condition of characters below U+10000 the `{50,}`/`{30,}` bound is a bound on the number of characters |
| StandardsPatterns.DomWriteAt | check_standards.js:240-241 | a DOM pattern match starts at the lookup and ends after the last `.innerHTML` on that line, as greedy `.*` backtracking gives |
| Matching.ScanOrder | check_standards.js:119-144 | the matches of a global pattern lie in the text, are each a match of the pattern at their start, are ordered and non-overlapping, none is skipped before the first, and there are none iff no position matches |
| Matching.Exec | check_standards.js:121 | one `exec` call returns the next match from `lastIndex`, and the rest of the scan continues at its end |
| Matching.ForEachFound | check_standards.js:207-211 | every entry is the issue, there are no more entries than patterns, and the issue appears iff some pattern in the list matches somewhere |
| Matching.ForEachFoundCount | check_standards.js:207-211 | the issue occurs exactly as many times as there are patterns in the list that match somewhere |
| Matching.ForEachFrequent | check_standards.js:244-249 | every entry is the issue, there are no more entries than patterns, and the issue appears iff some pattern has more than the given number of matches |
| Matching.ForEachFrequentCount | check_standards.js:244-249 | the issue occurs exactly as many times as there are patterns with more than the given number of matches |
| Matching.LiteralMatches | validate_rules.js:65-74 | every match of a literal pattern has the literal's text |
| Matching.LiteralNone | validate_rules.js:73-75 | a literal pattern has no match iff the text does not contain the literal |
| Scoring.RoundDiv | check_standards.js:290 | `Math.round(num / den)`: the result is within one half of the ratio, halves rounding up |
| Scoring.RoundDivUnique | check_standards.js:290 | only one integer is within one half of the ratio in that sense |
| Scoring.RoundDivMonotone | check_standards.js:290 | rounding preserves order |
| Scoring.PercentExact | check_standards.js:288-290 | when `total · step == 100`, `round(100 · passed / total)` is exactly `step · passed` |
| Scoring.SumBounds | check_standards.js:325 | scores in `[lo, hi]` sum to between `n·lo` and `n·hi` |
| Scoring.AverageScore | check_standards.js:324-326 | the average is NaN exactly when there are no scores |
| Scoring.AverageInRange | check_standards.js:324-326 | scores in 0..100 have their rounded average in 0..100 |
| Scoring.ComplianceTier | check_standards.js:330-338 | EXCELLENT iff there is an average of at least 90; GOOD iff it is in 75..89; FAIR iff it is in 60..74; POOR iff the average is NaN or below 60 |
| Scoring.ComplianceTierMonotone | check_standards.js:330-338 | a higher average never gets a worse tier |
| Scoring.Summarize | validate_rules.js:234-249 | the summary's average is the rounded mean, and no scores give POOR |
| Scoring.SummarizeExample | check_standards.js:323-338 | scores 100 and 60 average to 80, which is GOOD |
| Selection.CountTrue | check_standards.js:289 | counting the passed checks gives at most their number, and exactly their number iff every check passed |
| Selection.PushIf | enforce_quality.js:188-190 | a conditional push keeps the list and adds the entry at the end exactly when the condition holds |
| Selection.PushIfMembers | enforce_quality.js:188-190 | after the push an entry is present iff it was before or it is the pushed one |
| Rules.MatchTexts | validate_rules.js:74 | `code.match(p)` gives one text per match, each the matched text |
| Rules.JudgedMembers | validate_rules.js:78-84 | an issue is pushed for exactly the matches whose text's first occurrence is preceded by neither guard |
| Rules.JudgedUniform | validate_rules.js:78-84 | matches with one and the same text all get the issue or none does |
| Rules.LiteralJudgedByFirst | validate_rules.js:73-86 | a literal pattern contributes no issue or one issue per occurrence, as decided by the prefix before its first occurrence |
| Rules.LiteralSilent | validate_rules.js:73-86 | a literal pattern is silent iff the literal is absent or a guard precedes its first occurrence |
| Rules.JudgeTexts | validate_rules.js:78-84 | the inner `forEach` appends the judged matches to the issues so far |
| Rules.JudgeMatches | validate_rules.js:73-86 | the outer `forEach` yields every pattern's contribution, in pattern order |
| Rules.ValidateArrayHandling | validate_rules.js:61-93 | the array-handling result is the issues of the five array-method patterns, and passes iff there are none |
| Rules.ArrayHandlingPasses | validate_rules.js:61-93 | array handling passes iff each array method that occurs has `Array.isArray` or `response.results` before its first occurrence |
| Rules.ApiCallAt | validate_rules.js:103 | an `await x.y(` match starts at the `await` and lies in the text |
| Rules.ValidateErrorHandling | validate_rules.js:98-126 | the error-handling result is the issues of the three API-call patterns, and passes iff there are none |
| Rules.ErrorHandlingReports | validate_rules.js:108-119 | an API call text is reported iff some pattern matches it and the text before its first occurrence contains neither `try` nor `catch` |
| Rules.EntryCountsAsTry | validate_rules.js:114 | the guard is a substring test, so text containing `entry` counts as guarded |
| Rules.FetchAfterEntryNotReported | validate_rules.js:104-116 | a `fetch(` preceded by the word `entry` is not reported |
| Rules.RoleIssues | validate_rules.js:131-155 | at most three issues, all the same message; present iff neither `checkUserRole` nor `can_view_all` occurs and some admin pattern matches |
| Rules.ValidateRoleBasedAccess | validate_rules.js:131-155 | the role-based access result over `Rules.RoleIssues`, passing iff there is no issue (`Rules.RoleAccessPasses`) |
| Rules.RoleAccessPasses | validate_rules.js:131-155 | role access passes iff a permission check occurs or neither `admin` nor `can_view_all` matches, ignoring case |
| Rules.RoleIssuesCount | validate_rules.js:141-148 | without a permission check the issue count is the number of the three patterns that match |
| Rules.RoleAdminFindsAdmin | validate_rules.js:136-138 | whenever `role.*admin` matches, `admin` matches too |
| Rules.UpperCaseCanViewAllReported | validate_rules.js:137-146 | `CAN_VIEW_ALL` matches the case-insensitive pattern but not the case-sensitive permission test, so it is reported |
| Rules.UxIssues | validate_rules.js:160-178 | at most two issues: the loading issue iff `await` occurs without `loading` and `spinner`; the feedback issue iff `catch` occurs without `showAlert` and `error` |
| Rules.ValidateUserExperience | validate_rules.js:160-178 | the user-experience result over `Rules.UxIssues`, passing iff there is no issue |
| Rules.CatchErrorCountsAsFeedback | validate_rules.js:169 | `catch (error)` itself contains `error`, so the feedback issue never appears with it |
| Rules.Tally | validate_rules.js:183-208 | the four validations in order; the score is 25 per validation with no issue and lies in 0..100; the total is the sum of the four issue counts; the score is 100 iff the total is 0 iff every list is empty |
| Rules.ValidateFile | validate_rules.js:183-208 | `validateFile` fills the record with the four checks and then its score and issue total |
| Rules.RulesReport | validate_rules.js:234-249 | no files give a NaN average and POOR; otherwise there is a numeric average |
| Rules.RulesReportInRange | validate_rules.js:235-237 | file scores in 0..100 average to 0..100 |
| Rules.ValidateApplication | validate_rules.js:255-272 | reads no file and returns an empty list of results |
| Rules.ApplicationReportIsPoor | validate_rules.js:255-271 | `validateApplication` returns no results, so their report is NaN and POOR |
| Enforcer.ArrayHandlingRule | enforce_quality.js:15-17 | the array-handling validation: the code mentions both `Array.isArray` and `response.results` |
| Enforcer.ErrorHandlingRule | enforce_quality.js:32-34 | the error-handling validation: the code mentions both `try` and `catch` |
| Enforcer.UserExperienceRule | enforce_quality.js:43-45 | the user-experience validation: the code mentions both `console.log` and `Loading` |
| Enforcer.RoleBasedAccessRule | enforce_quality.js:168 | the report's role entry: the code mentions `checkUserRole` or `can_view_all` |
| Enforcer.ReportOf | enforce_quality.js:164-169 | the report's four entries, in key order, are the four tests (`Enforcer.RecommendationsMatchReport` relates them to the recommendations) |
| Enforcer.GenerateRecommendations | enforce_quality.js:185-205 | the recommendations are the failed entries' messages, in entry order |
| Enforcer.RecommendationCount | enforce_quality.js:171-205 | there are four recommendations less the number of passed rules |
| Enforcer.RecommendationsMatchReport | enforce_quality.js:185-205 | each recommendation is present iff its entry failed |
| Enforcer.GenerateQualityReport | enforce_quality.js:163-180 | the report's entries are the four rules, the score is 25 per passed rule in 0..100, and the recommendations are empty iff the score is 100 |
| Enforcer.EnforceRoleBasedAccess | enforce_quality.js:122-139 | the permission header goes in front of code that mentions admin features and lacks both checks (`Enforcer.EnforceCases`, `Enforcer.EnforceIdempotent`) |
| Enforcer.HeaderChecksRole | enforce_quality.js:129-134 | the inserted header calls `checkUserRole` |
| Enforcer.EnforceCases | enforce_quality.js:122-139 | the code gets the header iff it mentions `admin`, `Admin` or `ADMIN` and lacks both permission checks; otherwise it is unchanged |
| Enforcer.EnforceKeepsCode | enforce_quality.js:129-138 | the original code is always a suffix of the result |
| Enforcer.EnforceGrantsRoleAccess | enforce_quality.js:122-139 | after the rewrite, code that mentions admin passes the report's role-based access entry |
| Enforcer.EnforceIdempotent | enforce_quality.js:122-139 | rewriting twice gives the same as rewriting once |
| Master.QualityResults.constructor | quality_control.js:34-43 | a new record holds the time stamp, the application's name, zero scores and empty lists |
| Master.CheckApplicationRules | quality_control.js:62-85 | sets the rule compliance to 85 and pushes its warning below 90, changing nothing else |
| Master.CheckDevelopmentStandards | quality_control.js:90-113 | sets the standards compliance to 80 and pushes its warning below 85, changing nothing else |
| Master.CheckCodeQuality | quality_control.js:118-143 | sets the quality score to 88 and pushes its warning below 90, changing nothing else |
| Master.OverallScore | quality_control.js:148-162 | the weighted score is `0.4·rule + 0.3·standards + 0.3·quality` rounded half up |
| Master.CalculateOverallScore | quality_control.js:148-162 | the weighted score of the record's three fields (`Master.OverallScore`) |
| Master.OverallScoreInRange | quality_control.js:148-162 | inputs in 0..100 give a score in 0..100 |
| Master.OverallScoreMonotone | quality_control.js:148-162 | the score never drops when an input rises |
| Master.OverallScoreOfEqualScores | quality_control.js:149-153 | the weights sum to one: equal inputs give that input |
| Master.GenerateRecommendations | quality_control.js:167-213 | the groups pushed for the record's scores |
| Master.GroupPresent | quality_control.js:167-213 | a group is present iff it is the rules group and rules are below 90, the standards group and standards are below 85, or the quality group and quality is below 90 |
| Master.RecommendationsMatchScores | quality_control.js:167-213 | each group appears iff its threshold is missed, and every group has five items |
| Master.RecommendationsInOrder | quality_control.js:167-213 | the groups come in the fixed order rules, standards, quality |
| Master.MasterTier | quality_control.js:227-236 | EXCELLENT iff the score is at least 95, GOOD iff it is in 85..94, FAIR iff it is in 75..84, POOR iff below 75 |
| Master.MasterTierMonotone | quality_control.js:227-236 | a higher score never gets a worse master tier |
| Master.MasterTierStricter | quality_control.js:227-236 | the master tiers are never better than the 90/75/60 tiers of the other reports |
| Master.GenerateMasterReport | quality_control.js:218-271 | the report's tier is the master tier of the quality score, and its groups are the recommendations for the scores |
| Master.RunQualityControl | quality_control.js:31-57 | a run ends with compliance 85 and 80, the three warnings in order, and an overall score of 84, which is FAIR |
| Master.OverallScoreFixedRun | quality_control.js:50-51 | 0.4·85 + 0.3·80 + 0.3·88 rounds to 84 |
| Master.FixedRunReport | quality_control.js:218-240 | the run's report is FAIR with all three groups, and its plan has only immediate steps |
| Master.SetupQualityMonitoring | quality_control.js:276-309 | five categories, all enabled and alerting, with thresholds 90, 85, 80, 90 and 85 |
| Master.ImprovementPlanShape | quality_control.js:314-340 | each list has three items under its condition (quality below 90, rules below 85, standards below 80) and is empty otherwise |
| Master.GenerateImprovementPlan | quality_control.js:314-340 | the plan built by the pushes for the record's scores |
| Bookkeeping.IsValidEmail | js/django-app.js:1079-1082 | a valid address has at least five characters (`a@b.c`); its exact language is `Bookkeeping.ValidEmailIffShape` |
| Bookkeeping.InnerDot | js/django-app.js:1080 | the domain part has a dot with a character on each side |
| Bookkeeping.ValidEmailIffShape | js/django-app.js:1079-1082 | an address is valid iff it is a non-empty local part, `@`, and a domain, both without whitespace or `@`, where the domain has a dot with characters on both sides |
| Bookkeeping.EmailAccepted | js/django-app.js:1080 | `a@b.co` is accepted |
| Bookkeeping.EmailTwoAts | js/django-app.js:1080 | `a@b@c.co` is refused |
| Bookkeeping.EmailNoDot | js/django-app.js:1080 | `a@b` and `a@.co` are refused |
| Bookkeeping.ValidateDescription | js/django-app.js:2254-2256 | only a present description can pass, and then it has at least two characters (three UTF-16 code units) |
| Bookkeeping.DescriptionLength | js/django-app.js:2255 | for a trimmed description of characters below U+10000 the verdict is 3..200 characters; of characters above U+FFFF it is 2..100 characters, as each counts two code units |
| Bookkeeping.TwoEmojiDescription | js/app.js:217 | two emoji (U+1F600) pass: their `length` is 4 |
| Bookkeeping.DescriptionOfTrimmed | js/django-app.js:2254-2256 | surrounding whitespace does not change the verdict |
| Bookkeeping.BlankDescription | js/app.js:216-218 | a whitespace-only description is refused |
| Bookkeeping.ValidateAmount | js/django-app.js:2249-2252 | only a parsed, positive amount can pass |
| Bookkeeping.AmountInterval | js/django-app.js:2249-2252 | the accepted amounts form an interval |
| Bookkeeping.AmountEnds | js/app.js:211-214 | 1000000 is accepted; 1000000.01, 0 and NaN are refused |
| Bookkeeping.RequiredFields | js/django-app.js:1331-1338 | the required fields exist exactly for `expenses`, `miles` and `hours`, and always include `description` |
| Bookkeeping.ValidateImportData | js/django-app.js:1326-1343 | accepted data is a non-empty array of a known type whose first row has `description` |
| Bookkeeping.ImportChecksFirstRow | js/django-app.js:1340-1342 | rows after the first never change the verdict |
| Bookkeeping.ImportChecksKeys | js/django-app.js:1337-1342 | for a known type the verdict is whether every required field is a key of the first row |
| Bookkeeping.ImportOfParsedCsv | js/django-app.js:1326-1343 | parsed CSV data is accepted iff every required field is the lower-cased, cleaned form of some header |
| Bookkeeping.Tally | js/django-app.js:1345-1389 | after n rows the successes and errors add up to n and there are n details |
| Bookkeeping.TallyDetail | js/django-app.js:1379-1385 | row i's detail is `Row i+1: Success` or `Row i+1: ` with the error message |
| Bookkeeping.UnknownTypeSucceeds | js/django-app.js:1357-1380 | with an unknown type no call is made and every row counts as a success |
| Bookkeeping.TallyErrors | js/django-app.js:1382-1384 | the error count is the number of rows whose call threw |
| Bookkeeping.ImportDataToBackend | js/django-app.js:1345-1389 | the loop's results are the tally of all rows |
| Bookkeeping.Filter | js/django-app.js:387-409 | a filter keeps no more entries than it is given |
| Bookkeeping.FilterMembers | js/django-app.js:387-409 | an entry is kept iff it is listed and its lower-cased description contains the lower-cased term or its figure contains the term |
| Bookkeeping.FilterConcat | js/django-app.js:388-391 | filtering keeps the order: it distributes over concatenation |
| Bookkeeping.FilterEmptyTerm | js/django-app.js:388-391 | the empty term keeps every entry |
| Bookkeeping.FilterIdempotent | js/django-app.js:388-391 | filtering twice with one term is filtering once |
| Csv.Put | js/django-app.js:1305 | setting a property keeps the record's length or adds one; `Csv.PutKeys` and `Csv.GetAfterPut` state where and what |
| Csv.GetAfterPut | js/django-app.js:1305 | reading after setting gives the new value for that key and the old value for every other key |
| Csv.PutKeys | js/django-app.js:1305 | setting keeps a known key in place and appends a new key at the end |
| Csv.PutAppends | js/django-app.js:1305 | setting a new key appends the property |
| Csv.GetOwnKey | js/django-app.js:747 | with distinct keys each property reads back as its own value |
| Csv.CellEmpty | js/django-app.js:747 | a cell is empty iff its value is falsy (empty string, 0 or undefined) |
| Csv.ExportCsv | js/django-app.js:738-748 | nothing is built exactly when there is no data |
| Csv.CsvLines | js/django-app.js:744-748 | the file has one line more than there are rows |
| Csv.UnquoteNoQuotes | js/django-app.js:1298 | deleting quotes leaves quote-free text unchanged |
| Csv.CleanQuoted | js/django-app.js:1302 | a quoted, quote-free cell cleans back to its value |
| Csv.NonBlankMembers | js/django-app.js:1297 | a line is kept iff it has content once trimmed |
| Csv.ParseCsv | js/django-app.js:1296-1312 | a failed parse carries the `split` of undefined message; `Csv.ParseCsvOutcome` says when it fails |
| Csv.ParseCsvOutcome | js/django-app.js:1296-1312 | parsing fails, with the `split` of undefined message, iff no line has content; otherwise there is a row for each non-blank line after the header |
| Csv.HeaderKeysExact | js/django-app.js:1304-1306 | the header keys are exactly the lower-cased headers, each once |
| Csv.RowKeys | js/django-app.js:1304-1306 | a row's keys depend on the headers alone, not on the line's cells |
| Csv.ParsedRowKeys | js/django-app.js:1298-1307 | every parsed row has exactly the header keys |
| Csv.RowValues | js/django-app.js:1304-1306 | with distinct headers each header's key holds its own cell, or `''` when the line is short; extra cells are dropped |
| Csv.RowFields | js/django-app.js:1304-1306 | with distinct headers a row is the header fields in header order |
| Csv.FillRow | js/django-app.js:1303-1306 | the `forEach` builds the row the headers define for the line's cells |
| Csv.ParseDataLines | js/django-app.js:1301-1308 | the loop pushes one row per data line, in line order |
| Csv.ParseCsvText | js/django-app.js:1296-1312 | the `onload` body computes the parse result |
| Csv.ExportedLines | js/django-app.js:748 | for plain data, splitting the exported text at line breaks and dropping blank lines gives the exported lines |
| Csv.HeaderLineCells | js/django-app.js:746 | the header line parses back to the keys |
| Csv.DataLineCells | js/django-app.js:747 | each data line parses back to the row's values |
| Csv.ExportedRows | js/django-app.js:1301-1308 | the data lines of exported plain data parse back to the rows |
| Csv.ExportThenParse | js/django-app.js:738-748 | exporting plain data and parsing the text gives back exactly the rows |
| Retry.TotalWait | js/app.js:587-590 | n failures wait 1000 + 2000 + … + 1000·n = 500·n·(n+1) milliseconds |
| Retry.Retried | js/app.js:580-594 | the outcome of the loop for a given bound; `Retry.RetryFromFirstSuccess` characterises it |
| Retry.RetriedByDefault | js/app.js:580 | without a bound, `maxRetries` is 3 |
| Retry.DefaultRetries | js/app.js:580-594 | with the default bound the result is the value of the first of three attempts that resolves, else the third attempt's error is thrown |
| Retry.RetryFromFirstSuccess | js/app.js:580-594 | the loop returns iff some attempt below the bound resolves, and then returns the first one's value; otherwise it throws the last attempt's error |
| Retry.NoAttempts | js/app.js:581-593 | with a bound of zero or less nothing is attempted and `undefined` is thrown |
| Retry.RetryOperation | js/app.js:580-594 | the loop stops at the first success, makes at most `maxRetries` attempts, all failed but the last returned one, uses every attempt when it throws, and waits after each failure |
| Text.SplitCount | check_standards.js:75 | `split('\n')` gives one more part than there are newlines |
| Text.SplitJoin | js/django-app.js:746-748 | splitting a join of separator-free parts gives the parts back |
| Text.JoinSplit | js/django-app.js:1297 | joining the parts of a split gives the text back |
| Text.TrimEmpty | js/django-app.js:1297 | a trimmed line is empty iff the line is all whitespace |
| Text.IndexOf | validate_rules.js:79 | `indexOf` is the first occurrence, or -1 exactly when there is none |

## Left out

- User interface, DOM updates, alerts, console output and report printing are not
  modelled. The report generators are reduced to their average and tier decisions.
- `FileReader`, `downloadCSV`, the REST and Supabase calls, and authentication are I/O.
- The time stamp of `runQualityControl` is a parameter.
- The sleeps of `retryOperation` are returned as values, and its `console.error` is not
  modelled.
- The rewriters `enforceArrayHandling`, `enforceErrorHandling`, `enforceUserExperience`
  and `improveCode` are not modelled. They depend on the full semantics of `String.replace`
  (backtracking over `[^}]*`, `$n` substitution), and their output is not JavaScript.
- The TTL cache of `js/app.js` is driven by `setTimeout`.
- The copies of the validators and of `retryOperation` under `public/` are identical
  text to the modelled copies. They are modelled once.
- `MasterQualityControl` keeps a `validators` and a `qualityMetrics` field, and the check
  methods keep their lists of check names. None of these is ever read, so they are not
  modelled.
- Master.OverallScore: rounds the exact value `(4·rule + 3·standards + 3·quality) / 10`,
  while the source rounds a binary floating-point sum. The two can differ where that sum
  lands just below or above a half.
- Bookkeeping.ValidateAmount: the amount's parsing is left out. The argument is the value
  `parseFloat` yields, and `None` stands for `NaN`. `Infinity` and the prefix rules of
  `parseFloat` are not modelled.
- Bookkeeping.ValidateDescription: the source returns the description or a falsy value.
  The model keeps only the truthiness.
- Text.Utf16Length: strings are sequences of Unicode scalar values, so a lone surrogate
  cannot occur in the model's strings.
- Bookkeeping.RequiredFields: type names inherited from `Object.prototype` (such as
  `constructor`) count as unknown. In JavaScript they reach `fields.every` and throw.
- Bookkeeping.ImportDataToBackend: the backend call is an oracle, `backend(i)`, giving the
  failure message of row i, if any. This covers `createExpense`, `createMile` and
  `createHour`, the `parseFloat` of the fields, and `currentFamilyMember`.
- Csv.Put: a header named `__proto__` sets the prototype in JavaScript and creates no own
  property. The model adds it as an ordinary key.
- Csv.Keys: properties keep insertion order. JavaScript lists integer-like keys such as
  `"1"` first, in numeric order, and that ordering is not modelled.
- Csv.Cell: numbers are integers only (`Whole`). Fractional numbers, `null` and nested
  objects as cell values are not modelled.
- Csv.ExportThenParse: the round trip is proved only for plain data:
  - lower-case keys and string values;
  - no comma, double quote or newline;
  - keys without surrounding whitespace.

  Other data does not come back, because the parser deletes quotes and splits at every
  comma.
- Text.Lower: `toLowerCase` is modelled for ASCII letters only.
- Matching.Group: spans outside the text read as the empty string. Scan results never
  fall outside the text (`Matching.ScanOrder`).
