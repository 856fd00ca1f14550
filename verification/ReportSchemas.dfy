// The schemas of the release evidence, and that the validators accept exactly what fits them.

module ReportSchemas {
  import opened Basics
  import opened Json
  import opened Evidence
  import opened Schema
  import opened ShadowCoverage
  import opened OperatingRun

  /** Both ends are instants, the first before the second. */
  predicate Spans(w: World, j: Json) {
    var start, end := Get(j, "started_at"), Get(j, "ended_at");
    && Meets(w, Instant, start) && Meets(w, Instant, end)
    && w.instant(start.s).value < w.instant(end.s).value
  }

  // ---- Runs ----

  predicate RunHeader(w: World, c: RunContext, run: Json) {
    && HasFields(run, {"schema_version", "run_id", "workload_id", "cohort_membership_sha256",
                       "artifact_tuple_sha256", "started_at", "ended_at", "truncated",
                       "safety_degraded", "scenarios", "summary", "unavailable_metrics"})
    && Is(run, "schema_version", JInt(1)) && Has(w, run, "run_id", Name)
    && Agrees(run, "workload_id", c.workloadId)
    && Agrees(run, "cohort_membership_sha256", c.membershipSha256)
    && Agrees(run, "artifact_tuple_sha256", c.artifactDigest)
    && Is(run, "truncated", JBool(false)) && Is(run, "safety_degraded", JBool(false))
    && Spans(w, run)
  }

  const SCENARIOS := {"no_change_cycles", "bursts", "hot_case_conflicts", "stale_token_churn",
                      "deadline_bursts", "backlog_drain", "restart", "populated_restore"}

  /** What a scenario counts: its writes, its duration when it drains, its recovery when it recovers. */
  predicate Counts(scenario: string, counter: string) {
    || counter in {"database_writes", "wal_bytes", "storage_bytes"}
    || (scenario == "backlog_drain" && counter == "drain_duration_seconds")
    || (scenario in {"restart", "populated_restore"} && counter == "recovery_rto_seconds")
  }

  ghost predicate Scenario(w: World, name: string, scenario: Json) {
    && scenario.JObject? && (forall key :: key in scenario.fields <==> key == "conditions" || Counts(name, key))
    && Has(w, scenario, "conditions", Name)
    && forall counter :: Counts(name, counter) ==> Has(w, scenario, counter, AtLeast(0))
  }

  ghost predicate AllScenarios(w: World, scenarios: Json) {
    && HasFields(scenarios, SCENARIOS)
    && forall name :: name in SCENARIOS ==> Scenario(w, name, Get(scenarios, name))
  }

  /** The recovery is the longer of the two that were measured. */
  predicate Recovery(scenarios: Json, recovery: Json) {
    var restart, restore := Get(Get(scenarios, "restart"), "recovery_rto_seconds"),
                            Get(Get(scenarios, "populated_restore"), "recovery_rto_seconds");
    && restart.JInt? && restore.JInt?
    && recovery == if restart.n < restore.n then restore else restart
  }

  predicate Summary(w: World, c: RunContext, scenarios: Json, summary: Json) {
    && HasFields(summary, {"case_count", "churn_per_hour", "queue_backlog", "latency_p95_ms",
                           "retention_horizon_seconds", "recovery_rto_seconds"})
    && Has(w, summary, "case_count", AtLeast(0)) && Agrees(summary, "case_count", c.memberCount)
    && Has(w, summary, "churn_per_hour", Quantity) && Has(w, summary, "queue_backlog", AtLeast(0))
    && Has(w, summary, "latency_p95_ms", Quantity) && Has(w, summary, "retention_horizon_seconds", AtLeast(1))
    && Recovery(scenarios, Get(summary, "recovery_rto_seconds"))
  }

  /** A run always states these. */
  predicate Measured(name: string) {
    || Counts("backlog_drain", name) || Counts("restart", name)
    || name in {"case_count", "churn_per_hour", "latency_p95_ms", "queue_backlog", "retention_horizon_seconds"}
  }

  predicate Unavailable(w: World, metric: Json) {
    && HasFields(metric, {"name", "reason"}) && Has(w, metric, "name", Name) && Has(w, metric, "reason", Name)
    && !Measured(Get(metric, "name").s)
  }

  /** Metrics that nothing measures, each named once. */
  ghost predicate AllUnavailable(w: World, metrics: Json) {
    && metrics.JArray?
    && (forall i :: 0 <= i < |metrics.items| ==> Unavailable(w, metrics.items[i]))
    && forall i, j :: 0 <= i < |metrics.items| && 0 <= j < |metrics.items| && i != j ==>
         Get(metrics.items[i], "name") != Get(metrics.items[j], "name")
  }

  /** A whole run: neither truncated nor degraded, with all scenarios, counters and limits. */
  ghost predicate WholeRun(w: World, c: RunContext, run: Json) {
    && RunHeader(w, c, run) && AllScenarios(w, Get(run, "scenarios"))
    && Summary(w, c, Get(run, "scenarios"), Get(run, "summary"))
    && AllUnavailable(w, Get(run, "unavailable_metrics"))
  }

  lemma SpansExact(w: World, j: Json)
    ensures Spans(w, j) <==> Timed(w, j)
  {
  }

  lemma RunHeaderExact(w: World, c: RunContext, run: Json)
    ensures RunHeader(w, c, run) <==> ValidRunHeader(w, c, run)
  {
    SpansExact(w, run);
  }

  lemma ScenarioExact(w: World, name: string, scenario: Json)
    ensures Scenario(w, name, scenario) <==> ValidScenario(w, name, scenario)
  {
    assert forall key :: key in ScenarioFields(name) <==> key == "conditions" || Counts(name, key);
    if Scenario(w, name, scenario) {
      assert scenario.fields.Keys == ScenarioFields(name);
      forall key | key in ScenarioFields(name) - {"conditions"} ensures IsInt(Get(scenario, key), 0) {
        assert Has(w, scenario, key, AtLeast(0));
      }
    }
    if ValidScenario(w, name, scenario) {
      forall key | Counts(name, key) ensures Has(w, scenario, key, AtLeast(0)) {
        assert key in ScenarioFields(name) - {"conditions"};
      }
    }
  }

  lemma ScenarioNames(name: string)
    ensures name in SCENARIOS <==> exists i :: 0 <= i < |OPERATING_SCENARIOS| && OPERATING_SCENARIOS[i] == name
  {
    var s := OPERATING_SCENARIOS;
    assert s[0] == "no_change_cycles" && s[1] == "bursts" && s[2] == "hot_case_conflicts"
        && s[3] == "stale_token_churn" && s[4] == "deadline_bursts" && s[5] == "backlog_drain" && s[6] == "restart"
        && s[7] == "populated_restore";
  }

  lemma ScenariosExact(w: World, scenarios: Json)
    ensures AllScenarios(w, scenarios) <==> ValidScenarios(w, scenarios)
  {
    if AllScenarios(w, scenarios) {
      forall i | 0 <= i < |OPERATING_SCENARIOS|
        ensures ValidScenario(w, OPERATING_SCENARIOS[i], Get(scenarios, OPERATING_SCENARIOS[i]))
      {
        ScenarioNames(OPERATING_SCENARIOS[i]);
        ScenarioExact(w, OPERATING_SCENARIOS[i], Get(scenarios, OPERATING_SCENARIOS[i]));
      }
    }
    if ValidScenarios(w, scenarios) {
      forall name | name in SCENARIOS ensures Scenario(w, name, Get(scenarios, name)) {
        ScenarioNames(name);
        var i :| 0 <= i < |OPERATING_SCENARIOS| && OPERATING_SCENARIOS[i] == name;
        ScenarioExact(w, name, Get(scenarios, name));
      }
    }
  }

  lemma SummaryExact(w: World, c: RunContext, scenarios: Json, summary: Json)
    requires ValidScenarios(w, scenarios)
    ensures Summary(w, c, scenarios, summary)
       <==> ValidSummary(c, summary, Largest(RecoveryTimes(scenarios, OPERATING_SCENARIOS)))
  {
    BothRecover(scenarios);
    RecoveriesAreWhole(w, scenarios);
    LongerOfTwo(Get(Get(scenarios, "restart"), "recovery_rto_seconds"),
                Get(Get(scenarios, "populated_restore"), "recovery_rto_seconds"));
    QuantityExact(w, Get(summary, "churn_per_hour"));
    QuantityExact(w, Get(summary, "latency_p95_ms"));
  }

  lemma RecoveriesAreWhole(w: World, scenarios: Json)
    requires ValidScenarios(w, scenarios)
    ensures IsInt(Get(Get(scenarios, "restart"), "recovery_rto_seconds"), 0)
    ensures IsInt(Get(Get(scenarios, "populated_restore"), "recovery_rto_seconds"), 0)
  {
    assert OPERATING_SCENARIOS[6] == "restart" && OPERATING_SCENARIOS[7] == "populated_restore";
    assert ValidScenario(w, OPERATING_SCENARIOS[6], Get(scenarios, OPERATING_SCENARIOS[6]));
    assert ValidScenario(w, OPERATING_SCENARIOS[7], Get(scenarios, OPERATING_SCENARIOS[7]));
  }

  lemma LongerOfTwo(a: Json, b: Json)
    requires IsInt(a, 0) && IsInt(b, 0)
    ensures Largest([a, b]) == if a.n < b.n then b.n else a.n
  {
    var one, two := [a], [a, b];
    assert one[..0] == [] && Largest(one) == a.n;
    assert two[..1] == one && two[1] == b;
  }

  lemma MetricExact(w: World, metric: Json)
    ensures Unavailable(w, metric) <==> ValidMetric(w, metric)
  {
  }

  lemma UnavailableExact(w: World, metrics: Json)
    ensures AllUnavailable(w, metrics) <==> ValidUnavailable(w, metrics)
  {
    forall metric ensures Unavailable(w, metric) <==> ValidMetric(w, metric) {
      MetricExact(w, metric);
    }
  }

  /** The validator accepts exactly the whole runs. */
  lemma RunExact(w: World, c: RunContext, run: Json)
    ensures ValidRun(w, c, run) <==> WholeRun(w, c, run)
  {
    RunHeaderExact(w, c, run);
    ScenariosExact(w, Get(run, "scenarios"));
    if ValidScenarios(w, Get(run, "scenarios")) {
      SummaryExact(w, c, Get(run, "scenarios"), Get(run, "summary"));
    }
    UnavailableExact(w, Get(run, "unavailable_metrics"));
  }

  // ---- Retained files ----

  /** The reference states the path and the digest of a file that is there. */
  predicate Retained(w: World, reference: Json) {
    && HasFields(reference, {"path", "sha256"})
    && Has(w, reference, "path", Text) && Has(w, reference, "sha256", Digits(64))
    && var path := Get(reference, "path").s;
    && path != "" && w.allowedPath(path) && w.files.Some? && path in w.files.value
    && w.sha256(w.files.value[path]) == Get(reference, "sha256").s
  }

  lemma RetainedExact(w: World, reference: Json)
    ensures Retained(w, reference) <==> Verified(w, reference)
  {
    DigitsExact(w, Get(reference, "sha256"), 64);
  }

  predicate RetainedAll(w: World, evidence: Json) {
    && evidence.JArray? && |evidence.items| > 0
    && forall i :: 0 <= i < |evidence.items| ==> Retained(w, evidence.items[i])
  }

  /** The report behind a reference. */
  predicate Holds(w: World, reference: Json, report: Json) {
    Retained(w, reference) && w.parse(w.files.value[Get(reference, "path").s]) == Some(report)
  }

  lemma HoldsExact(w: World, reference: Json, report: Json)
    ensures Holds(w, reference, report) <==> ReadJson(w, reference) == Some(report)
  {
    RetainedExact(w, reference);
  }

  // ---- Staged enablement ----

  predicate Strings(j: Json) {
    j.JArray? && |j.items| > 0 && forall item :: item in j.items ==> item.JString? && |item.s| > 0
  }

  lemma StringsExact(j: Json)
    ensures Strings(j) <==> NonemptyStrings(j)
  {
  }

  predicate StagesHeader(w: World, c: StageContext, report: Json) {
    && HasFields(report, {"schema_version", "workload_id", "cohort_membership_sha256",
                          "cohort_package_sha256", "policy_revisions", "artifact_tuple_sha256", "stages"})
    && Is(report, "schema_version", JInt(1))
    && Has(w, report, "workload_id", Name) && Agrees(report, "workload_id", c.workloadId)
    && Has(w, report, "cohort_membership_sha256", Digits(64))
    && Agrees(report, "cohort_membership_sha256", c.membershipSha256)
    && Has(w, report, "cohort_package_sha256", Digits(64))
    && Agrees(report, "cohort_package_sha256", c.packageDigest)
    && Strings(Get(report, "policy_revisions")) && Agrees(report, "policy_revisions", c.policyRevisions)
    && Agrees(report, "artifact_tuple_sha256", c.artifactDigest)
    && |Items(Get(report, "stages"))| == 5
  }

  /** What the record must state for any stage report to count. */
  predicate StagesContext(w: World, c: StageContext) {
    && c.coverage.JObject? && Has(w, c.coverage, "sha256", Digits(64))
    && Get(c.ownerApproval, "evidence").JObject? && Has(w, Get(c.ownerApproval, "evidence"), "sha256", Digits(64))
    && Meets(w, Instant, c.observationStart) && Meets(w, Instant, c.observationEnd)
  }

  lemma StagesContextExact(w: World, c: StageContext)
    ensures StagesContext(w, c)
       <==> && c.coverage.JObject? && Get(c.ownerApproval, "evidence").JObject?
            && HexString(Get(c.coverage, "sha256"), 64)
            && HexString(Get(Get(c.ownerApproval, "evidence"), "sha256"), 64)
            && Time(w, c.observationStart).Some? && Time(w, c.observationEnd).Some?
  {
    DigitsExact(w, Get(c.coverage, "sha256"), 64);
    DigitsExact(w, Get(Get(c.ownerApproval, "evidence"), "sha256"), 64);
  }

  lemma StagesHeaderExact(w: World, c: StageContext, report: Json)
    ensures StagesHeader(w, c, report) && StagesContext(w, c) <==> ValidStagesHeader(w, c, report)
  {
    StagesContextExact(w, c);
    StringsExact(Get(report, "policy_revisions"));
    DigitsExact(w, Get(report, "cohort_membership_sha256"), 64);
    DigitsExact(w, Get(report, "cohort_package_sha256"), 64);
  }

  /** A stage passed, on retained evidence, and has these members besides. */
  predicate Stage(w: World, stage: Json, id: string, names: set<string>) {
    && HasFields(stage, {"id", "status", "started_at", "ended_at", "evidence"} + names)
    && Is(stage, "id", JString(id)) && Is(stage, "status", JString("passed"))
    && Spans(w, stage) && RetainedAll(w, Get(stage, "evidence"))
  }

  lemma StageExact(w: World, stage: Json, id: string, names: set<string>)
    ensures Stage(w, stage, id, names) <==> ValidStageFrame(w, stage, id, names)
  {
    SpansExact(w, stage);
    forall reference ensures Retained(w, reference) <==> Verified(w, reference) {
      RetainedExact(w, reference);
    }
  }

  predicate Installed(w: World, stage: Json) {
    && Stage(w, stage, "installed_effects_disabled",
             {"effects_enabled", "admission_verified", "grants_verified", "contract_verified",
              "core_no_effect_verified"})
    && Is(stage, "effects_enabled", JBool(false)) && Is(stage, "admission_verified", JBool(true))
    && Is(stage, "grants_verified", JBool(true)) && Is(stage, "contract_verified", JBool(true))
    && Is(stage, "core_no_effect_verified", JBool(true))
  }

  /** The owner has signed by the end of the review. */
  predicate Reviewed(w: World, c: StageContext, stage: Json) {
    && Stage(w, stage, "shadow_review",
             {"coverage_manifest_sha256", "owner_approval_sha256", "complete_population", "owner_reviewed"})
    && Agrees(stage, "coverage_manifest_sha256", Get(c.coverage, "sha256"))
    && Agrees(stage, "owner_approval_sha256", Get(Get(c.ownerApproval, "evidence"), "sha256"))
    && Is(stage, "complete_population", JBool(true)) && Is(stage, "owner_reviewed", JBool(true))
    && Has(w, c.ownerApproval, "signed_at", Instant)
    && w.instant(Get(c.ownerApproval, "signed_at").s).value <= w.instant(Get(stage, "ended_at").s).value
  }

  predicate Routed(w: World, stage: Json) {
    && Stage(w, stage, "cohort_routing_deadlines",
             {"enabled_actions", "applied_queue_controls", "applied_due_at_controls",
              "unauthorized_control_count", "out_of_cohort_control_count",
              "manual_protection_violation_count"})
    && Is(stage, "enabled_actions", JArray([JString("ASSIGN_QUEUE"), JString("SET_DUE_AT")]))
    && Has(w, stage, "applied_queue_controls", AtLeast(1)) && Has(w, stage, "applied_due_at_controls", AtLeast(1))
    && Is(stage, "unauthorized_control_count", JInt(0)) && Is(stage, "out_of_cohort_control_count", JInt(0))
    && Is(stage, "manual_protection_violation_count", JInt(0))
  }

  predicate Escalated(w: World, stage: Json) {
    && Stage(w, stage, "bounded_escalation",
             {"enabled_action", "enabled_after", "maximum_level", "applied_escalation_control_count",
              "routing_deadline_tests_healthy", "real_time_tests_healthy", "applied_above_maximum_count",
              "duplicate_applied_control_count", "stale_binding_acceptance_count",
              "manual_protection_violation_count"})
    && Is(stage, "enabled_action", JString("ESCALATE"))
    && Is(stage, "enabled_after", JString("cohort_routing_deadlines"))
    && Has(w, stage, "maximum_level", AtLeast(1)) && Has(w, stage, "applied_escalation_control_count", AtLeast(1))
    && Is(stage, "routing_deadline_tests_healthy", JBool(true)) && Is(stage, "real_time_tests_healthy", JBool(true))
    && Is(stage, "applied_above_maximum_count", JInt(0)) && Is(stage, "duplicate_applied_control_count", JInt(0))
    && Is(stage, "stale_binding_acceptance_count", JInt(0))
    && Is(stage, "manual_protection_violation_count", JInt(0))
  }

  /** The supported profile ran for the observation window. */
  predicate Supported(w: World, c: StageContext, stage: Json) {
    && Stage(w, stage, "supported_profile", {"thresholds_met", "truncated", "safety_degraded"})
    && Is(stage, "thresholds_met", JBool(true))
    && Is(stage, "truncated", JBool(false)) && Is(stage, "safety_degraded", JBool(false))
    && Meets(w, Instant, c.observationStart) && Meets(w, Instant, c.observationEnd)
    && w.instant(Get(stage, "started_at").s) == w.instant(c.observationStart.s)
    && w.instant(Get(stage, "ended_at").s) == w.instant(c.observationEnd.s)
  }

  /** Each stage ends before any later one starts, or as it starts. */
  ghost predicate InTurn(w: World, stages: seq<Json>) {
    && (forall i :: 0 <= i < |stages| ==> Spans(w, stages[i]))
    && forall i, j :: 0 <= i < j < |stages| ==>
         w.instant(Get(stages[i], "ended_at").s).value <= w.instant(Get(stages[j], "started_at").s).value
  }

  ghost predicate Enabled(w: World, c: StageContext, report: Json) {
    && StagesHeader(w, c, report) && StagesContext(w, c)
    && var stages := Items(Get(report, "stages"));
    && |stages| == 5 && Installed(w, stages[0]) && Reviewed(w, c, stages[1]) && Routed(w, stages[2])
    && Escalated(w, stages[3]) && Supported(w, c, stages[4])
    && InTurn(w, stages)
  }

  lemma InstalledExact(w: World, stage: Json)
    ensures Installed(w, stage) <==> ValidInstalled(w, stage)
  {
    StageExact(w, stage, "installed_effects_disabled",
               {"effects_enabled", "admission_verified", "grants_verified", "contract_verified",
                "core_no_effect_verified"});
  }

  lemma ReviewedExact(w: World, c: StageContext, stage: Json)
    ensures Reviewed(w, c, stage) <==> ValidShadowReview(w, c, stage)
  {
    StageExact(w, stage, "shadow_review",
               {"coverage_manifest_sha256", "owner_approval_sha256", "complete_population", "owner_reviewed"});
  }

  lemma RoutedExact(w: World, stage: Json)
    ensures Routed(w, stage) <==> ValidRouting(w, stage)
  {
    StageExact(w, stage, "cohort_routing_deadlines",
               {"enabled_actions", "applied_queue_controls", "applied_due_at_controls",
                "unauthorized_control_count", "out_of_cohort_control_count",
                "manual_protection_violation_count"});
  }

  lemma EscalatedExact(w: World, stage: Json)
    ensures Escalated(w, stage) <==> ValidEscalation(w, stage)
  {
    StageExact(w, stage, "bounded_escalation",
               {"enabled_action", "enabled_after", "maximum_level", "applied_escalation_control_count",
                "routing_deadline_tests_healthy", "real_time_tests_healthy", "applied_above_maximum_count",
                "duplicate_applied_control_count", "stale_binding_acceptance_count",
                "manual_protection_violation_count"});
  }

  lemma SupportedExact(w: World, c: StageContext, stage: Json)
    requires StagesContext(w, c)
    ensures Supported(w, c, stage) <==> ValidSupported(w, c, stage)
  {
    StageExact(w, stage, "supported_profile", {"thresholds_met", "truncated", "safety_degraded"});
  }

  lemma InTurnExact(w: World, stages: seq<Json>)
    ensures InTurn(w, stages) <==> InOrder(w, stages)
  {
    forall stage ensures Spans(w, stage) <==> Timed(w, stage) {
      SpansExact(w, stage);
    }
    if InTurn(w, stages) {
      forall i, j | 0 <= i < j < |stages| ensures Ended(w, stages[i]) <= Started(w, stages[j]) {
        assert Spans(w, stages[i]) && Spans(w, stages[j]);
      }
    }
    if InOrder(w, stages) {
      forall i, j | 0 <= i < j < |stages|
        ensures w.instant(Get(stages[i], "ended_at").s).value <= w.instant(Get(stages[j], "started_at").s).value
      {
        assert Timed(w, stages[i]) && Timed(w, stages[j]);
        assert Ended(w, stages[i]) <= Started(w, stages[j]);
      }
    }
  }

  /** The validator accepts exactly the reports with the five stages, each passed, in turn. */
  lemma EnabledExact(w: World, c: StageContext, report: Json)
    ensures ValidStages(w, c, report) <==> Enabled(w, c, report)
  {
    StagesHeaderExact(w, c, report);
    if ValidStagesHeader(w, c, report) {
      var stages := Items(Get(report, "stages"));
      InstalledExact(w, stages[0]);
      ReviewedExact(w, c, stages[1]);
      RoutedExact(w, stages[2]);
      EscalatedExact(w, stages[3]);
      SupportedExact(w, c, stages[4]);
      InTurnExact(w, stages);
      StagesByNumber(w, c, stages);
    }
  }

  lemma StagesByNumber(w: World, c: StageContext, stages: seq<Json>)
    requires |stages| == 5
    ensures (forall i :: 0 <= i < 5 ==> ValidStage(w, c, i, stages[i]))
       <==> && ValidInstalled(w, stages[0]) && ValidShadowReview(w, c, stages[1]) && ValidRouting(w, stages[2])
            && ValidEscalation(w, stages[3]) && ValidSupported(w, c, stages[4])
  {
    assert ValidStage(w, c, 0, stages[0]) <==> ValidInstalled(w, stages[0]);
    assert ValidStage(w, c, 1, stages[1]) <==> ValidShadowReview(w, c, stages[1]);
    assert ValidStage(w, c, 2, stages[2]) <==> ValidRouting(w, stages[2]);
    assert ValidStage(w, c, 3, stages[3]) <==> ValidEscalation(w, stages[3]);
    assert ValidStage(w, c, 4, stages[4]) <==> ValidSupported(w, c, stages[4]);
  }
}
