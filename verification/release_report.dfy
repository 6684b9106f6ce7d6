/** The release report of the release monitor (scripts/monitor-releases.js):
    a fixed rule table turns the analysis into recommendations and
    integration tasks. */
module ReleaseReport {
  import opened Text
  import opened ReleaseAnalysis

  /** The release fields copied into the report. */
  datatype ReleaseSummary = ReleaseSummary(
    tag: string, name: string, published: string, url: string, prerelease: bool)

  datatype Report = Report(
    timestamp: string,
    release: ReleaseSummary,
    analysis: Analysis,
    recommendations: seq<string>,
    integrationTasks: seq<string>)

  /** The four analysis lists the report reacts to. */
  datatype Trigger = OnCommands | OnFlags | OnFeatures | OnBreakingChanges

  function Items(a: Analysis, t: Trigger): seq<string> {
    match t
    case OnCommands => a.commands
    case OnFlags => a.flags
    case OnFeatures => a.features
    case OnBreakingChanges => a.breakingChanges
  }

  /** One rule: when its list is non-empty, it adds one recommendation and one
      integration task. */
  datatype Rule = Rule(trigger: Trigger, recommendation: string, task: string)

  const UrgentPrefix: string := "URGENT:"

  // Two of the recommendations are written as two literals joined: the
  // verifier reads the characters of a short literal but not of a long one,
  // and OnlyBreakingRuleIsUrgent needs their first characters.
  const CommandsRule: Rule := Rule(OnCommands,
    "Update CLI command mappings" + " in containerUtils.js",
    "Add new command support to Tauri backend")
  const FlagsRule: Rule := Rule(OnFlags,
    "Add new flags to UI forms" + " and command builders",
    "Update form validation and option handling")
  const FeaturesRule: Rule := Rule(OnFeatures,
    "Review features for potential UI integration",
    "Plan new UI components for enhanced features")
  const BreakingRule: Rule := Rule(OnBreakingChanges,
    UrgentPrefix + " Review breaking changes for compatibility",
    "Update command syntax and error handling")

  /** The rules, in the order they are tried. */
  const Rules: seq<Rule> := [CommandsRule, FlagsRule, FeaturesRule, BreakingRule]

  /** The rules whose list is non-empty, in table order. */
  function Fired(rules: seq<Rule>, a: Analysis): seq<Rule>
    decreases |rules|
  {
    if |rules| == 0 then []
    else
      Fired(rules[..|rules| - 1], a)
      + (if Items(a, rules[|rules| - 1].trigger) != [] then [rules[|rules| - 1]] else [])
  }

  /** A rule fires exactly when it is in the table and its list is non-empty. */
  lemma {:induction false} FiredMembers(rules: seq<Rule>, a: Analysis)
    ensures forall x :: x in Fired(rules, a) <==> x in rules && Items(a, x.trigger) != []
    decreases |rules|
  {
    if |rules| > 0 {
      FiredMembers(rules[..|rules| - 1], a);
      assert rules == rules[..|rules| - 1] + [rules[|rules| - 1]];
    }
  }

  function Recommendations(rules: seq<Rule>): (r: seq<string>)
    ensures |r| == |rules|
    ensures forall k :: 0 <= k < |r| ==> r[k] == rules[k].recommendation
  {
    seq(|rules|, k requires 0 <= k < |rules| => rules[k].recommendation)
  }

  function Tasks(rules: seq<Rule>): (r: seq<string>)
    ensures |r| == |rules|
    ensures forall k :: 0 <= k < |r| ==> r[k] == rules[k].task
  {
    seq(|rules|, k requires 0 <= k < |rules| => rules[k].task)
  }

  function Summarize(r: Release): ReleaseSummary {
    ReleaseSummary(r.tagName, r.name, r.publishedAt, r.htmlUrl, r.prerelease)
  }

  /** `generateReleaseReport(release, analysis)`, with the clock reading as a
      parameter. */
  function GenerateReleaseReport(r: Release, a: Analysis, now: string): (rep: Report)
    ensures rep.timestamp == now && rep.release == Summarize(r) && rep.analysis == a
    ensures |rep.recommendations| == |rep.integrationTasks| <= 4
    ensures (a.commands == [] && a.flags == [] && a.features == [] && a.breakingChanges == [])
            <==> rep.recommendations == []
  {
    var recs :=
      (if |a.commands| > 0 then [CommandsRule.recommendation] else [])
      + (if |a.flags| > 0 then [FlagsRule.recommendation] else [])
      + (if |a.features| > 0 then [FeaturesRule.recommendation] else [])
      + (if |a.breakingChanges| > 0 then [BreakingRule.recommendation] else []);
    var tasks :=
      (if |a.commands| > 0 then [CommandsRule.task] else [])
      + (if |a.flags| > 0 then [FlagsRule.task] else [])
      + (if |a.features| > 0 then [FeaturesRule.task] else [])
      + (if |a.breakingChanges| > 0 then [BreakingRule.task] else []);
    Report(now, Summarize(r), a, recs, tasks)
  }

  /** Firing a table one rule longer adds that rule's line when it fires. */
  lemma FiredSnoc(rules: seq<Rule>, x: Rule, a: Analysis)
    ensures Fired(rules + [x], a) == Fired(rules, a) + (if Items(a, x.trigger) != [] then [x] else [])
  {
    assert (rules + [x])[..|rules|] == rules;
  }

  /** The table fires its rules in order, each exactly when its list is
      non-empty. */
  lemma FiredRules(a: Analysis)
    ensures Fired(Rules, a) ==
      (if a.commands != [] then [CommandsRule] else [])
      + (if a.flags != [] then [FlagsRule] else [])
      + (if a.features != [] then [FeaturesRule] else [])
      + (if a.breakingChanges != [] then [BreakingRule] else [])
  {
    FiredSnoc([], CommandsRule, a);
    FiredSnoc([CommandsRule], FlagsRule, a);
    FiredSnoc([CommandsRule, FlagsRule], FeaturesRule, a);
    FiredSnoc([CommandsRule, FlagsRule, FeaturesRule], BreakingRule, a);
    assert [CommandsRule] == [] + [CommandsRule];
    assert [CommandsRule, FlagsRule] == [CommandsRule] + [FlagsRule];
    assert [CommandsRule, FlagsRule, FeaturesRule] == [CommandsRule, FlagsRule] + [FeaturesRule];
    assert Rules == [CommandsRule, FlagsRule, FeaturesRule] + [BreakingRule];
  }

  /** Reading off the lines of a table is compatible with concatenation. */
  lemma LinesAppend(x: seq<Rule>, y: seq<Rule>)
    ensures Recommendations(x + y) == Recommendations(x) + Recommendations(y)
    ensures Tasks(x + y) == Tasks(x) + Tasks(y)
  {
  }

  /** The report is the rule table run against the analysis: one
      recommendation and one task for each rule that fires, in table order. */
  lemma ReportFollowsRules(r: Release, a: Analysis, now: string)
    ensures var rep := GenerateReleaseReport(r, a, now);
      rep.recommendations == Recommendations(Fired(Rules, a))
      && rep.integrationTasks == Tasks(Fired(Rules, a))
  {
    var f0 := if a.commands != [] then [CommandsRule] else [];
    var f1 := if a.flags != [] then [FlagsRule] else [];
    var f2 := if a.features != [] then [FeaturesRule] else [];
    var f3 := if a.breakingChanges != [] then [BreakingRule] else [];
    FiredRules(a);
    var rep := GenerateReleaseReport(r, a, now);
    assert Recommendations(f0) == (if |a.commands| > 0 then [CommandsRule.recommendation] else []);
    assert Recommendations(f1) == (if |a.flags| > 0 then [FlagsRule.recommendation] else []);
    assert Recommendations(f2) == (if |a.features| > 0 then [FeaturesRule.recommendation] else []);
    assert Recommendations(f3) == (if |a.breakingChanges| > 0 then [BreakingRule.recommendation] else []);
    assert Tasks(f0) == (if |a.commands| > 0 then [CommandsRule.task] else []);
    assert Tasks(f1) == (if |a.flags| > 0 then [FlagsRule.task] else []);
    assert Tasks(f2) == (if |a.features| > 0 then [FeaturesRule.task] else []);
    assert Tasks(f3) == (if |a.breakingChanges| > 0 then [BreakingRule.task] else []);
    LinesAppend(f0, f1);
    LinesAppend(f0 + f1, f2);
    LinesAppend(f0 + f1 + f2, f3);
  }

  /** Only the breaking-change rule's recommendation is marked urgent. */
  lemma OnlyBreakingRuleIsUrgent(x: Rule)
    requires x in Rules
    ensures StartsWith(x.recommendation, UrgentPrefix) <==> x == BreakingRule
  {
    assert CommandsRule.recommendation[1] == 'p';
    assert FlagsRule.recommendation[0] == 'A';
    assert FeaturesRule.recommendation[0] == 'R';
    assert BreakingRule.recommendation[..7] == UrgentPrefix;
  }

  /** Some recommendation is marked urgent. */
  predicate HasUrgent(recs: seq<string>) {
    exists k :: 0 <= k < |recs| && StartsWith(recs[k], UrgentPrefix)
  }

  /** An urgent recommendation is present exactly when the analysis found
      breaking changes. */
  lemma UrgentIffBreaking(r: Release, a: Analysis, now: string)
    ensures HasUrgent(GenerateReleaseReport(r, a, now).recommendations) <==> a.breakingChanges != []
  {
    ReportFollowsRules(r, a, now);
    UrgentIffBreakingRule(a);
  }

  /** The same for the rule table itself. */
  lemma UrgentIffBreakingRule(a: Analysis)
    ensures HasUrgent(Recommendations(Fired(Rules, a))) <==> a.breakingChanges != []
  {
    var fired := Fired(Rules, a);
    var recs := Recommendations(fired);
    FiredMembers(Rules, a);
    if a.breakingChanges != [] {
      assert BreakingRule in fired;
      var k :| 0 <= k < |fired| && fired[k] == BreakingRule;
      OnlyBreakingRuleIsUrgent(BreakingRule);
      assert recs[k] == BreakingRule.recommendation;
      assert 0 <= k < |recs| && StartsWith(recs[k], UrgentPrefix);
    } else {
      forall k | 0 <= k < |recs|
        ensures !StartsWith(recs[k], UrgentPrefix)
      {
        var x := fired[k];
        assert x in fired;
        assert recs[k] == x.recommendation;
        OnlyBreakingRuleIsUrgent(x);
      }
    }
  }
}
