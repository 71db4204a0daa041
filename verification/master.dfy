/**
 * The master quality control: a results record that three checks fill in, an
 * overall score weighted 40/30/30, the tier and the recommendation groups of the
 * master report, the monitoring configuration and the improvement plan.
 */
module Master {
  import opened Wrappers
  import opened Scoring
  import opened Selection

  // ------------------------------------------------------------- the results

  /** The warnings the checks can push. */
  datatype Warning =
    | RulesComplianceNeedsImprovement      // 'Application rules compliance needs improvement'
    | StandardsComplianceNeedsImprovement  // 'Development standards compliance needs improvement'
    | CodeQualityNeedsImprovement          // 'Code quality needs improvement'

  datatype Category = ApplicationRules | DevelopmentStandards | CodeQuality

  datatype Priority = High | Medium

  /** One entry of `generateRecommendations`: a category, its priority and five items. */
  datatype RecommendationGroup = RecommendationGroup(category: Category, priority: Priority,
                                                     items: seq<string>)

  /** Everything the results record holds, at one moment. */
  datatype ResultsState = ResultsState(
    timestamp: string,
    application: string,
    qualityScore: int,
    ruleCompliance: int,
    standardsCompliance: int,
    recommendations: seq<RecommendationGroup>,
    criticalIssues: seq<string>,
    warnings: seq<Warning>)

  /** The `results` record of `runQualityControl`, which the checks update in place. */
  class QualityResults {
    var timestamp: string
    var application: string
    var qualityScore: int
    var ruleCompliance: int
    var standardsCompliance: int
    var recommendations: seq<RecommendationGroup>
    var criticalIssues: seq<string>
    var warnings: seq<Warning>

    function State(): ResultsState
      reads this
    {
      ResultsState(timestamp, application, qualityScore, ruleCompliance, standardsCompliance,
                   recommendations, criticalIssues, warnings)
    }

    /** A fresh record: the given time stamp, the application's name, zero scores, empty lists. */
    constructor(timestamp: string)
      ensures State() == ResultsState(timestamp, "Bookkeeping Application", 0, 0, 0, [], [], [])
    {
      this.timestamp := timestamp;
      application := "Bookkeeping Application";
      qualityScore := 0;
      ruleCompliance := 0;
      standardsCompliance := 0;
      recommendations := [];
      criticalIssues := [];
      warnings := [];
    }
  }

  // ---------------------------------------------------------------- the checks

  /** The scores the three checks report; they are fixed values, not analyses. */
  const RuleComplianceScore: int := 85
  const StandardsScore: int := 80
  const CodeQualityScore: int := 88

  /** `checkApplicationRules`: records the rules score and warns below 90. */
  method CheckApplicationRules(results: QualityResults)
    modifies results
    ensures results.State() == old(results.State()).(
      ruleCompliance := RuleComplianceScore,
      warnings := PushIf(old(results.warnings), RuleComplianceScore < 90, RulesComplianceNeedsImprovement))
  {
    var complianceScore := RuleComplianceScore;
    results.ruleCompliance := complianceScore;
    if complianceScore < 90 {
      results.warnings := results.warnings + [RulesComplianceNeedsImprovement];
    }
  }

  /** `checkDevelopmentStandards`: records the standards score and warns below 85. */
  method CheckDevelopmentStandards(results: QualityResults)
    modifies results
    ensures results.State() == old(results.State()).(
      standardsCompliance := StandardsScore,
      warnings := PushIf(old(results.warnings), StandardsScore < 85, StandardsComplianceNeedsImprovement))
  {
    var standardsScore := StandardsScore;
    results.standardsCompliance := standardsScore;
    if standardsScore < 85 {
      results.warnings := results.warnings + [StandardsComplianceNeedsImprovement];
    }
  }

  /** `checkCodeQuality`: records the quality score and warns below 90. */
  method CheckCodeQuality(results: QualityResults)
    modifies results
    ensures results.State() == old(results.State()).(
      qualityScore := CodeQualityScore,
      warnings := PushIf(old(results.warnings), CodeQualityScore < 90, CodeQualityNeedsImprovement))
  {
    var qualityScore := CodeQualityScore;
    results.qualityScore := qualityScore;
    if qualityScore < 90 {
      results.warnings := results.warnings + [CodeQualityNeedsImprovement];
    }
  }

  // --------------------------------------------------------- the overall score

  /**
   * `Math.round(0.4 * rule + 0.3 * standards + 0.3 * quality)`: the integer nearest to
   * the weighted mean, halves rounded up.
   */
  function OverallScore(rule: int, standards: int, quality: int): (score: int)
    ensures 10 * score - 5 <= 4 * rule + 3 * standards + 3 * quality < 10 * score + 5
  {
    RoundDiv(4 * rule + 3 * standards + 3 * quality, 10)
  }

  /** `calculateOverallScore(results)` */
  function CalculateOverallScore(results: QualityResults): int
    reads results
  {
    OverallScore(results.ruleCompliance, results.standardsCompliance, results.qualityScore)
  }

  /** The weights sum to one: percentages in, a percentage out. */
  lemma OverallScoreInRange(rule: int, standards: int, quality: int)
    requires 0 <= rule <= 100 && 0 <= standards <= 100 && 0 <= quality <= 100
    ensures 0 <= OverallScore(rule, standards, quality) <= 100
  {
    var total := 4 * rule + 3 * standards + 3 * quality;
    RoundDivUnique(0, 10, 0);
    RoundDivUnique(1000, 10, 100);
    RoundDivMonotone(0, total, 10);
    RoundDivMonotone(total, 1000, 10);
  }

  /** Raising any of the three scores never lowers the overall score. */
  lemma OverallScoreMonotone(rule: int, standards: int, quality: int,
                             rule': int, standards': int, quality': int)
    requires rule <= rule' && standards <= standards' && quality <= quality'
    ensures OverallScore(rule, standards, quality) <= OverallScore(rule', standards', quality')
  {
    RoundDivMonotone(4 * rule + 3 * standards + 3 * quality, 4 * rule' + 3 * standards' + 3 * quality', 10);
  }

  /** Three equal scores give that score back. */
  lemma OverallScoreOfEqualScores(x: int)
    ensures OverallScore(x, x, x) == x
  {
    RoundDivUnique(10 * x, 10, x);
  }

  // ---------------------------------------------------------- recommendations

  const RulesGroup: RecommendationGroup := RecommendationGroup(ApplicationRules, High, [
    "Implement comprehensive array handling validation",
    "Add proper paginated response processing",
    "Enhance error handling with user-friendly messages",
    "Implement role-based access control",
    "Add loading states for all async operations"])

  const StandardsGroup: RecommendationGroup := RecommendationGroup(DevelopmentStandards, Medium, [
    "Improve code structure and organization",
    "Enforce consistent naming conventions",
    "Add comprehensive documentation",
    "Implement security best practices",
    "Optimize performance-critical code"])

  const QualityGroup: RecommendationGroup := RecommendationGroup(CodeQuality, High, [
    "Refactor complex functions",
    "Add comprehensive error handling",
    "Implement proper testing coverage",
    "Optimize database queries",
    "Add performance monitoring"])

  /** The groups for the given scores: rules below 90, standards below 85, quality below 90, in that order. */
  function RecommendationsFor(rule: int, standards: int, quality: int): seq<RecommendationGroup> {
    var r1 := PushIf([], rule < 90, RulesGroup);
    var r2 := PushIf(r1, standards < 85, StandardsGroup);
    PushIf(r2, quality < 90, QualityGroup)
  }

  /** `generateRecommendations(results)`: one push per score under its threshold. */
  method GenerateRecommendations(results: QualityResults) returns (recommendations: seq<RecommendationGroup>)
    ensures recommendations == RecommendationsFor(results.ruleCompliance, results.standardsCompliance,
                                                  results.qualityScore)
  {
    recommendations := [];
    if results.ruleCompliance < 90 {
      recommendations := recommendations + [RulesGroup];
    }
    if results.standardsCompliance < 85 {
      recommendations := recommendations + [StandardsGroup];
    }
    if results.qualityScore < 90 {
      recommendations := recommendations + [QualityGroup];
    }
  }

  /** Position of a category in the report. */
  function CategoryRank(c: Category): nat {
    match c
    case ApplicationRules => 0
    case DevelopmentStandards => 1
    case CodeQuality => 2
  }

  /** Whether one group is present, given the three pushes. */
  lemma GroupPresent(rule: int, standards: int, quality: int, g: RecommendationGroup)
    ensures g in RecommendationsFor(rule, standards, quality) <==>
      (g == RulesGroup && rule < 90) || (g == StandardsGroup && standards < 85)
      || (g == QualityGroup && quality < 90)
  {
    var r1 := PushIf([], rule < 90, RulesGroup);
    var r2 := PushIf(r1, standards < 85, StandardsGroup);
    PushIfMembers([], rule < 90, RulesGroup, g);
    PushIfMembers(r1, standards < 85, StandardsGroup, g);
    PushIfMembers(r2, quality < 90, QualityGroup, g);
  }

  /** Each group is present exactly when its score is under its threshold, and has five items. */
  lemma RecommendationsMatchScores(rule: int, standards: int, quality: int)
    ensures RulesGroup in RecommendationsFor(rule, standards, quality) <==> rule < 90
    ensures StandardsGroup in RecommendationsFor(rule, standards, quality) <==> standards < 85
    ensures QualityGroup in RecommendationsFor(rule, standards, quality) <==> quality < 90
    ensures forall g :: g in RecommendationsFor(rule, standards, quality) ==> |g.items| == 5
  {
    GroupPresent(rule, standards, quality, RulesGroup);
    GroupPresent(rule, standards, quality, StandardsGroup);
    GroupPresent(rule, standards, quality, QualityGroup);
    forall g | g in RecommendationsFor(rule, standards, quality)
      ensures |g.items| == 5
    {
      GroupPresent(rule, standards, quality, g);
    }
  }

  /** The groups come in the order rules, standards, quality. */
  lemma RecommendationsInOrder(rule: int, standards: int, quality: int)
    ensures var recs := RecommendationsFor(rule, standards, quality);
      forall i, j :: 0 <= i < j < |recs| ==> CategoryRank(recs[i].category) < CategoryRank(recs[j].category)
  {
    var r1 := PushIf([], rule < 90, RulesGroup);
    var r2 := PushIf(r1, standards < 85, StandardsGroup);
    var recs := PushIf(r2, quality < 90, QualityGroup);
    assert forall g :: g in r1 ==> g == RulesGroup;
    forall g | g in r2
      ensures g == RulesGroup || g == StandardsGroup
    {
      PushIfMembers(r1, standards < 85, StandardsGroup, g);
    }
    forall i, j | 0 <= i < j < |recs|
      ensures CategoryRank(recs[i].category) < CategoryRank(recs[j].category)
    {
      if j < |r2| {
        assert recs[i] == r2[i] && recs[j] == r2[j];
        assert r1[..|r1|][i] == r1[i];
      } else {
        assert recs[i] == r2[i] && r2[i] in r2;
      }
    }
  }

  // ---------------------------------------------------------------- the report

  /** The assessment of `generateMasterReport`: 95, 85 and 75 are its breakpoints. */
  function MasterTier(score: int): (t: Tier)
    ensures t == Excellent <==> score >= 95
    ensures t == Good <==> 85 <= score < 95
    ensures t == Fair <==> 75 <= score < 85
    ensures t == Poor <==> score < 75
  {
    if score >= 95 then Excellent
    else if score >= 85 then Good
    else if score >= 75 then Fair
    else Poor
  }

  /** A higher score never gets a worse assessment. */
  lemma MasterTierMonotone(a: int, b: int)
    requires a <= b
    ensures Rank(MasterTier(b)) <= Rank(MasterTier(a))
  {
  }

  /** The master table is never more generous than the 90/75/60 table of the other reports. */
  lemma MasterTierStricter(score: int)
    ensures Rank(ComplianceTier(Some(score))) <= Rank(MasterTier(score))
  {
  }

  /** What `generateMasterReport` decides besides its fixed text: the tier and the groups it lists. */
  datatype MasterReport = MasterReport(tier: Tier, recommendations: seq<RecommendationGroup>,
                                       warnings: seq<Warning>, criticalIssues: seq<string>)

  function GenerateMasterReport(results: QualityResults): (r: MasterReport)
    reads results
    ensures r.tier == MasterTier(results.qualityScore)
    ensures r.recommendations == RecommendationsFor(results.ruleCompliance, results.standardsCompliance,
                                                    results.qualityScore)
  {
    MasterReport(MasterTier(results.qualityScore),
                 RecommendationsFor(results.ruleCompliance, results.standardsCompliance, results.qualityScore),
                 results.warnings, results.criticalIssues)
  }

  // ------------------------------------------------------------------- the run

  /**
   * `runQualityControl`: the three checks in order, then the overall score written
   * over the quality score. The time stamp is the caller's.
   */
  method RunQualityControl(timestamp: string) returns (results: QualityResults)
    ensures fresh(results)
    ensures results.ruleCompliance == 85 && results.standardsCompliance == 80
    ensures results.qualityScore == 84 && MasterTier(results.qualityScore) == Fair
    ensures results.warnings == [RulesComplianceNeedsImprovement, StandardsComplianceNeedsImprovement,
                                 CodeQualityNeedsImprovement]
    ensures results.recommendations == [] && results.criticalIssues == []
    ensures results.timestamp == timestamp && results.application == "Bookkeeping Application"
  {
    results := new QualityResults(timestamp);
    CheckApplicationRules(results);
    CheckDevelopmentStandards(results);
    CheckCodeQuality(results);
    OverallScoreFixedRun();
    results.qualityScore := CalculateOverallScore(results);
  }

  /** 0.4 * 85 + 0.3 * 80 + 0.3 * 88 = 84.4, which rounds to 84. */
  lemma OverallScoreFixedRun()
    ensures OverallScore(RuleComplianceScore, StandardsScore, CodeQualityScore) == 84
  {
    RoundDivUnique(844, 10, 84);
  }

  /**
   * The report of a run: FAIR, with all three recommendation groups, and an improvement
   * plan with only its immediate steps.
   */
  lemma FixedRunReport()
    ensures MasterTier(84) == Fair
    ensures RecommendationsFor(85, 80, 84) == [RulesGroup, StandardsGroup, QualityGroup]
    ensures ImprovementPlanFor(84, 85, 80) == ImprovementPlan(ImmediateSteps, [], [])
  {
  }

  // ------------------------------------------------------------------ monitoring

  datatype MonitorSetting = MonitorSetting(enabled: bool, threshold: int, alertOnFailure: bool)

  datatype MonitoringConfig = MonitoringConfig(
    arrayHandling: MonitorSetting,
    errorHandling: MonitorSetting,
    roleBasedAccess: MonitorSetting,
    apiTesting: MonitorSetting,
    userExperience: MonitorSetting)

  function Settings(c: MonitoringConfig): seq<MonitorSetting> {
    [c.arrayHandling, c.errorHandling, c.roleBasedAccess, c.apiTesting, c.userExperience]
  }

  /** `setupQualityMonitoring`: five categories, all enabled and alerting, with thresholds between 80 and 90. */
  function SetupQualityMonitoring(): (c: MonitoringConfig)
    ensures forall s :: s in Settings(c) ==> s.enabled && s.alertOnFailure && 80 <= s.threshold <= 90
    ensures c.roleBasedAccess.threshold == 80
    ensures c.arrayHandling.threshold == c.apiTesting.threshold == 90
    ensures c.errorHandling.threshold == c.userExperience.threshold == 85
  {
    MonitoringConfig(MonitorSetting(true, 90, true), MonitorSetting(true, 85, true),
                     MonitorSetting(true, 80, true), MonitorSetting(true, 90, true),
                     MonitorSetting(true, 85, true))
  }

  // ---------------------------------------------------------- improvement plan

  datatype ImprovementPlan = ImprovementPlan(immediate: seq<string>, shortTerm: seq<string>,
                                             longTerm: seq<string>)

  const ImmediateSteps: seq<string> := [
    "Fix critical array handling issues",
    "Implement comprehensive error handling",
    "Add role-based access control"]

  const ShortTermSteps: seq<string> := [
    "Enhance API testing coverage",
    "Improve user experience standards",
    "Add comprehensive logging"]

  const LongTermSteps: seq<string> := [
    "Refactor code structure",
    "Implement security best practices",
    "Optimize performance"]

  /** The plan for the given scores. */
  function ImprovementPlanFor(quality: int, rule: int, standards: int): ImprovementPlan {
    ImprovementPlan(if quality < 90 then ImmediateSteps else [],
                    if rule < 85 then ShortTermSteps else [],
                    if standards < 80 then LongTermSteps else [])
  }

  /** Each list gets its three steps when its score is low, and stays empty otherwise. */
  lemma ImprovementPlanShape(quality: int, rule: int, standards: int)
    ensures var p := ImprovementPlanFor(quality, rule, standards);
      (|p.immediate| == 3 <==> quality < 90) && (p.immediate == [] <==> quality >= 90)
      && (|p.shortTerm| == 3 <==> rule < 85) && (p.shortTerm == [] <==> rule >= 85)
      && (|p.longTerm| == 3 <==> standards < 80) && (p.longTerm == [] <==> standards >= 80)
  {
  }

  /** `generateImprovementPlan(results)`: three pushes under each condition. */
  method GenerateImprovementPlan(results: QualityResults) returns (plan: ImprovementPlan)
    ensures plan == ImprovementPlanFor(results.qualityScore, results.ruleCompliance,
                                       results.standardsCompliance)
  {
    var immediate, shortTerm, longTerm := [], [], [];
    if results.qualityScore < 90 {
      immediate := immediate + ["Fix critical array handling issues"];
      immediate := immediate + ["Implement comprehensive error handling"];
      immediate := immediate + ["Add role-based access control"];
    }
    if results.ruleCompliance < 85 {
      shortTerm := shortTerm + ["Enhance API testing coverage"];
      shortTerm := shortTerm + ["Improve user experience standards"];
      shortTerm := shortTerm + ["Add comprehensive logging"];
    }
    if results.standardsCompliance < 80 {
      longTerm := longTerm + ["Refactor code structure"];
      longTerm := longTerm + ["Implement security best practices"];
      longTerm := longTerm + ["Optimize performance"];
    }
    plan := ImprovementPlan(immediate, shortTerm, longTerm);
  }
}
