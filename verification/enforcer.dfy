/**
 * The code quality enforcer: the rule checks that make up its quality report, the
 * score and the recommendations drawn from the report, and the rewrite that puts a
 * permission check in front of code that mentions admin features.
 */
module Enforcer {
  import opened Text
  import opened Scoring
  import opened Selection

  // ------------------------------------------------------------------ the rules

  /** The array-handling rule's `validation`. */
  predicate ArrayHandlingRule(code: string) {
    Contains(code, "Array.isArray") && Contains(code, "response.results")
  }

  /** The error-handling rule's `validation`. */
  predicate ErrorHandlingRule(code: string) {
    Contains(code, "try") && Contains(code, "catch")
  }

  /** The user-experience rule's `validation`. */
  predicate UserExperienceRule(code: string) {
    Contains(code, "console.log") && Contains(code, "Loading")
  }

  /** The report's role-based access entry, which no rule object defines. */
  predicate RoleBasedAccessRule(code: string) {
    Contains(code, "checkUserRole") || Contains(code, "can_view_all")
  }

  /** The four entries of a quality report. */
  datatype QualityReport = QualityReport(
    arrayHandling: bool,
    errorHandling: bool,
    userExperience: bool,
    roleBasedAccess: bool)

  function ReportOf(code: string): QualityReport {
    QualityReport(ArrayHandlingRule(code), ErrorHandlingRule(code), UserExperienceRule(code),
                  RoleBasedAccessRule(code))
  }

  /** The report's values in the order of its keys (`Object.values(report)`). */
  function Entries(report: QualityReport): seq<bool> {
    [report.arrayHandling, report.errorHandling, report.userExperience, report.roleBasedAccess]
  }

  /** `passedRules` */
  function PassedRules(report: QualityReport): nat {
    CountTrue(Entries(report))
  }

  // ------------------------------------------------------------ recommendations

  datatype Recommendation =
    | AddArrayValidation
    | WrapInTryCatch
    | AddLoadingIndicators
    | ImplementRoleBasedAccess

  /** The recommendations of the failed entries, in entry order. */
  function Recommendations(report: QualityReport): seq<Recommendation> {
    var r1 := PushIf([], !report.arrayHandling, AddArrayValidation);
    var r2 := PushIf(r1, !report.errorHandling, WrapInTryCatch);
    var r3 := PushIf(r2, !report.userExperience, AddLoadingIndicators);
    PushIf(r3, !report.roleBasedAccess, ImplementRoleBasedAccess)
  }

  /** `generateRecommendations`: one push per failed entry, in entry order. */
  method GenerateRecommendations(report: QualityReport) returns (recommendations: seq<Recommendation>)
    ensures recommendations == Recommendations(report)
  {
    recommendations := [];
    if !report.arrayHandling {
      recommendations := recommendations + [AddArrayValidation];
    }
    if !report.errorHandling {
      recommendations := recommendations + [WrapInTryCatch];
    }
    if !report.userExperience {
      recommendations := recommendations + [AddLoadingIndicators];
    }
    if !report.roleBasedAccess {
      recommendations := recommendations + [ImplementRoleBasedAccess];
    }
  }

  /** There is one recommendation per failed entry: four less the passed rules. */
  lemma RecommendationCount(report: QualityReport)
    ensures |Recommendations(report)| == 4 - PassedRules(report)
  {
    var a, e, u, r := report.arrayHandling, report.errorHandling, report.userExperience,
                      report.roleBasedAccess;
    assert CountTrue([r]) == (if r then 1 else 0) by { assert [r][1..] == []; }
    assert CountTrue([u, r]) == (if u then 1 else 0) + CountTrue([r]) by { assert [u, r][1..] == [r]; }
    assert CountTrue([e, u, r]) == (if e then 1 else 0) + CountTrue([u, r]) by { assert [e, u, r][1..] == [u, r]; }
    assert Entries(report)[1..] == [e, u, r];
  }

  /** Whether one recommendation is present, given the four pushes. */
  lemma RecommendationPresent(report: QualityReport, x: Recommendation)
    ensures x in Recommendations(report) <==>
      (x == AddArrayValidation && !report.arrayHandling) || (x == WrapInTryCatch && !report.errorHandling)
      || (x == AddLoadingIndicators && !report.userExperience)
      || (x == ImplementRoleBasedAccess && !report.roleBasedAccess)
  {
    var r1 := PushIf([], !report.arrayHandling, AddArrayValidation);
    var r2 := PushIf(r1, !report.errorHandling, WrapInTryCatch);
    var r3 := PushIf(r2, !report.userExperience, AddLoadingIndicators);
    PushIfMembers([], !report.arrayHandling, AddArrayValidation, x);
    PushIfMembers(r1, !report.errorHandling, WrapInTryCatch, x);
    PushIfMembers(r2, !report.userExperience, AddLoadingIndicators, x);
    PushIfMembers(r3, !report.roleBasedAccess, ImplementRoleBasedAccess, x);
  }

  /** Each recommendation is present exactly when its entry of the report fails. */
  lemma RecommendationsMatchReport(report: QualityReport)
    ensures AddArrayValidation in Recommendations(report) <==> !report.arrayHandling
    ensures WrapInTryCatch in Recommendations(report) <==> !report.errorHandling
    ensures AddLoadingIndicators in Recommendations(report) <==> !report.userExperience
    ensures ImplementRoleBasedAccess in Recommendations(report) <==> !report.roleBasedAccess
  {
    RecommendationPresent(report, AddArrayValidation);
    RecommendationPresent(report, WrapInTryCatch);
    RecommendationPresent(report, AddLoadingIndicators);
    RecommendationPresent(report, ImplementRoleBasedAccess);
  }

  /** What `generateQualityReport` returns. */
  datatype QualityOutcome = QualityOutcome(report: QualityReport, qualityScore: int,
                                           recommendations: seq<Recommendation>)

  /**
   * `generateQualityReport`: the four entries, the score `Math.round(passed / 4 * 100)`,
   * which is 25 per entry that holds, and one recommendation per entry that fails.
   */
  method GenerateQualityReport(code: string) returns (r: QualityOutcome)
    ensures r.report == ReportOf(code)
    ensures r.qualityScore == 25 * PassedRules(r.report)
    ensures 0 <= r.qualityScore <= 100
    ensures r.recommendations == Recommendations(r.report)
    ensures |r.recommendations| == 4 - PassedRules(r.report)
    ensures r.recommendations == [] <==> r.qualityScore == 100
  {
    var report := ReportOf(code);
    var values := Entries(report);
    var passedRules := CountTrue(values);
    PercentExact(passedRules, |values|, 25);
    var qualityScore := Percent(passedRules, |values|);
    var recommendations := GenerateRecommendations(report);
    RecommendationCount(report);
    r := QualityOutcome(report, qualityScore, recommendations);
  }

  // ---------------------------------------------------------- role-based access

  /** `/(admin|Admin|ADMIN)/g.test(code)`: the text mentions admin in one of three spellings. */
  predicate MentionsAdmin(code: string) {
    Contains(code, "admin") || Contains(code, "Admin") || Contains(code, "ADMIN")
  }

  /** The header put in front of the code: it calls `checkUserRole` and reads `can_view_all`. */
  const PermissionHeader: string := HeaderOpening + "checkUserRole" + HeaderRest

  const HeaderOpening: string :=
    "// Check user permissions before showing admin features\n        const userRole = await "

  const HeaderRest: string :=
    "();\n        if (!userRole || (!userRole.can_view_all && userRole.role !== 'admin')) {\n"
    + "            console.log('Access denied: Admin privileges required');\n"
    + "            return;\n        }\n\n"

  /** `enforceRoleBasedAccess` */
  function EnforceRoleBasedAccess(code: string): string {
    if MentionsAdmin(code) && !RoleBasedAccessRule(code) then PermissionHeader + code else code
  }

  /** The header itself passes the role check. */
  lemma HeaderChecksRole()
    ensures Contains(PermissionHeader, "checkUserRole")
  {
    ContainsMiddle(HeaderOpening, "checkUserRole", HeaderRest);
  }

  /**
   * The code comes back unchanged, or behind the header exactly when it mentions admin
   * and neither `checkUserRole` nor `can_view_all` occurs in it.
   */
  lemma EnforceCases(code: string)
    ensures EnforceRoleBasedAccess(code) == PermissionHeader + code <==>
      MentionsAdmin(code) && !RoleBasedAccessRule(code)
    ensures EnforceRoleBasedAccess(code) == code <==>
      !(MentionsAdmin(code) && !RoleBasedAccessRule(code))
  {
    HeaderChecksRole();
    assert |PermissionHeader| > 0;
    assert |PermissionHeader + code| != |code|;
  }

  /** The original code is always a suffix of the result. */
  lemma EnforceKeepsCode(code: string)
    ensures var r := EnforceRoleBasedAccess(code);
            |code| <= |r| && r[|r| - |code|..] == code
  {
    var r := EnforceRoleBasedAccess(code);
    if r != code {
      assert r == PermissionHeader + code;
      assert r[|PermissionHeader|..] == code;
    }
  }

  /** After the rewrite the quality report's role entry holds whenever admin is mentioned. */
  lemma EnforceGrantsRoleAccess(code: string)
    requires MentionsAdmin(code)
    ensures ReportOf(EnforceRoleBasedAccess(code)).roleBasedAccess
  {
    if !RoleBasedAccessRule(code) {
      HeaderChecksRole();
      ContainsConcat(PermissionHeader, code, "checkUserRole");
    }
  }

  /** Rewriting twice is rewriting once: the header already passes the check. */
  lemma EnforceIdempotent(code: string)
    ensures EnforceRoleBasedAccess(EnforceRoleBasedAccess(code)) == EnforceRoleBasedAccess(code)
  {
    if MentionsAdmin(code) && !RoleBasedAccessRule(code) {
      HeaderChecksRole();
      ContainsConcat(PermissionHeader, code, "checkUserRole");
    }
  }
}
