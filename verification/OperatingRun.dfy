// Operating-envelope runs and staged enablement
// (tests/integrations/pg-mdm/derive_v050_qualification.py:95-147, 346-350, 463-546, 573-701).

module OperatingRun {
  import opened Basics
  import opened Json
  import opened Evidence

  // ---- Operating runs ----

  /** What a run must agree with: release-record values and the artifact tuple's digest. */
  datatype RunContext = RunContext(workloadId: Json, membershipSha256: Json, memberCount: Json, artifactDigest: Json)

  const OPERATING_SCENARIOS: seq<string> := [
    "no_change_cycles", "bursts", "hot_case_conflicts", "stale_token_churn",
    "deadline_bursts", "backlog_drain", "restart", "populated_restore"]

  predicate Recovers(name: string) {
    name == "restart" || name == "populated_restore"
  }

  function ScenarioFields(name: string): set<string> {
    {"conditions", "database_writes", "wal_bytes", "storage_bytes"}
    + (if Recovers(name) then {"recovery_rto_seconds"} else {})
    + (if name == "backlog_drain" then {"drain_duration_seconds"} else {})
  }

  predicate ValidScenario(w: World, name: string, scenario: Json) {
    && HasFields(scenario, ScenarioFields(name))
    && Named(w, Get(scenario, "conditions"))
    && forall field :: field in ScenarioFields(name) - {"conditions"} ==> IsInt(Get(scenario, field), 0)
  }

  predicate ValidRunHeader(w: World, c: RunContext, run: Json) {
    && HasFields(run, {"schema_version", "run_id", "workload_id", "cohort_membership_sha256",
                       "artifact_tuple_sha256", "started_at", "ended_at", "truncated",
                       "safety_degraded", "scenarios", "summary", "unavailable_metrics"})
    && Get(run, "schema_version") == JInt(1)
    && Named(w, Get(run, "run_id"))
    && PyEqual(Get(run, "workload_id"), c.workloadId)
    && PyEqual(Get(run, "cohort_membership_sha256"), c.membershipSha256)
    && PyEqual(Get(run, "artifact_tuple_sha256"), c.artifactDigest)
    && Timed(w, run)
    && Get(run, "truncated") == JBool(false) && Get(run, "safety_degraded") == JBool(false)
  }

  /** A start and an end with a timezone, in this order and apart. */
  predicate Timed(w: World, j: Json) {
    && Time(w, Get(j, "started_at")).Some? && Time(w, Get(j, "ended_at")).Some?
    && Time(w, Get(j, "started_at")).value < Time(w, Get(j, "ended_at")).value
  }

  function Started(w: World, j: Json): int
    requires Timed(w, j)
  {
    Time(w, Get(j, "started_at")).value
  }

  function Ended(w: World, j: Json): int
    requires Timed(w, j)
  {
    Time(w, Get(j, "ended_at")).value
  }

  ghost predicate ValidScenarios(w: World, scenarios: Json) {
    && HasFields(scenarios, {"no_change_cycles", "bursts", "hot_case_conflicts", "stale_token_churn",
                             "deadline_bursts", "backlog_drain", "restart", "populated_restore"})
    && forall i :: 0 <= i < |OPERATING_SCENARIOS| ==>
         ValidScenario(w, OPERATING_SCENARIOS[i], Get(scenarios, OPERATING_SCENARIOS[i]))
  }

  /** The recovery times of the scenarios among names. */
  function RecoveryTimes(scenarios: Json, names: seq<string>): seq<Json> {
    if names == [] then []
    else
      var name := names[|names| - 1];
      RecoveryTimes(scenarios, names[..|names| - 1])
      + if Recovers(name) then [Get(Get(scenarios, name), "recovery_rto_seconds")] else []
  }

  function Largest(times: seq<Json>): int {
    if times == [] then 0
    else
      var rest, last := Largest(times[..|times| - 1]), times[|times| - 1];
      if last.JInt? && last.n > rest then last.n else rest
  }

  /** The scenarios that recover, in the order of the list. */
  lemma BothRecover(scenarios: Json)
    ensures RecoveryTimes(scenarios, OPERATING_SCENARIOS)
         == [Get(Get(scenarios, "restart"), "recovery_rto_seconds"),
             Get(Get(scenarios, "populated_restore"), "recovery_rto_seconds")]
  {
    var names := OPERATING_SCENARIOS;
    assert names[..7][..6] == names[..6];
    NoRecovery(scenarios, names[..6]);
  }

  lemma {:induction false} NoRecovery(scenarios: Json, names: seq<string>)
    requires forall i :: 0 <= i < |names| ==> !Recovers(names[i])
    ensures RecoveryTimes(scenarios, names) == []
  {
    if names != [] {
      NoRecovery(scenarios, names[..|names| - 1]);
    }
  }

  predicate ValidSummary(c: RunContext, summary: Json, recovery: int) {
    && HasFields(summary, {"case_count", "churn_per_hour", "queue_backlog", "latency_p95_ms",
                           "retention_horizon_seconds", "recovery_rto_seconds"})
    && IsInt(Get(summary, "case_count"), 0) && IsInt(Get(summary, "queue_backlog"), 0)
    && IsInt(Get(summary, "retention_horizon_seconds"), 1) && IsInt(Get(summary, "recovery_rto_seconds"), 0)
    && PyEqual(Get(summary, "case_count"), c.memberCount)
    && FiniteNonnegative(Get(summary, "churn_per_hour")) && FiniteNonnegative(Get(summary, "latency_p95_ms"))
    && Get(summary, "recovery_rto_seconds").n == recovery
  }

  predicate ValidMetric(w: World, metric: Json) {
    && HasFields(metric, {"name", "reason"}) && Named(w, Get(metric, "name")) && Named(w, Get(metric, "reason"))
    && Get(metric, "name").s !in {
         "case_count", "churn_per_hour", "queue_backlog", "latency_p95_ms", "retention_horizon_seconds",
         "recovery_rto_seconds", "database_writes", "wal_bytes", "storage_bytes", "drain_duration_seconds"}
  }

  predicate ValidUnavailable(w: World, metrics: Json) {
    && metrics.JArray?
    && (forall i :: 0 <= i < |metrics.items| ==> ValidMetric(w, metrics.items[i]))
    && (forall i, j :: 0 <= i < j < |metrics.items| ==> Get(metrics.items[i], "name") != Get(metrics.items[j], "name"))
  }

  ghost predicate ValidRun(w: World, c: RunContext, run: Json) {
    && ValidRunHeader(w, c, run)
    && ValidScenarios(w, Get(run, "scenarios"))
    && ValidSummary(c, Get(run, "summary"), Largest(RecoveryTimes(Get(run, "scenarios"), OPERATING_SCENARIOS)))
    && ValidUnavailable(w, Get(run, "unavailable_metrics"))
  }

  /** Reads the scenarios of these names; valid is the check on one scenario. */
  method ReadEach(valid: (string, Json) -> bool, scenarios: Json, names: seq<string>)
    returns (recovery: Option<seq<Json>>)
    ensures recovery.Some? <==> forall i :: 0 <= i < |names| ==> valid(names[i], Get(scenarios, names[i]))
    ensures recovery.Some? ==> recovery.value == RecoveryTimes(scenarios, names)
  {
    var times := [];
    for i := 0 to |names|
      invariant forall k :: 0 <= k < i ==> valid(names[k], Get(scenarios, names[k]))
      invariant times == RecoveryTimes(scenarios, names[..i])
    {
      var scenario := Get(scenarios, names[i]);
      assert names[..i + 1][..i] == names[..i];
      if Recovers(names[i]) {
        times := times + [Get(scenario, "recovery_rto_seconds")];
      }
      if !valid(names[i], scenario) {
        return None;
      }
    }
    assert names[..|names|] == names;
    recovery := Some(times);
  }

  method ReadScenarios(w: World, scenarios: Json) returns (recovery: Option<seq<Json>>)
    ensures recovery.Some? <==> ValidScenarios(w, scenarios)
    ensures recovery.Some? ==> recovery.value == RecoveryTimes(scenarios, OPERATING_SCENARIOS)
  {
    if !HasFields(scenarios, {"no_change_cycles", "bursts", "hot_case_conflicts", "stale_token_churn",
                              "deadline_bursts", "backlog_drain", "restart", "populated_restore"}) {
      return None;
    }
    recovery := ReadEach((name, scenario) => ValidScenario(w, name, scenario), scenarios, OPERATING_SCENARIOS);
  }

  method ValidOperatingRun(w: World, c: RunContext, run: Json) returns (r: bool)
    ensures r <==> ValidRun(w, c, run)
  {
    if !ValidRunHeader(w, c, run) {
      return false;
    }
    var recovery := ReadScenarios(w, Get(run, "scenarios"));
    if recovery.None? || !ValidSummary(c, Get(run, "summary"), Largest(recovery.value)) {
      return false;
    }
    r := ValidUnavailable(w, Get(run, "unavailable_metrics"));
  }

  // ---- Staged enablement ----

  datatype StageContext = StageContext(
    workloadId: Json, membershipSha256: Json, packageDigest: Json, policyRevisions: Json, artifactDigest: Json,
    coverage: Json, ownerApproval: Json, observationStart: Json, observationEnd: Json)

  predicate NonemptyStrings(j: Json) {
    j.JArray? && j.items != [] && forall i :: 0 <= i < |j.items| ==> j.items[i].JString? && j.items[i].s != ""
  }

  predicate ValidStagesHeader(w: World, c: StageContext, report: Json) {
    && HasFields(report, {"schema_version", "workload_id", "cohort_membership_sha256",
                          "cohort_package_sha256", "policy_revisions", "artifact_tuple_sha256", "stages"})
    && Get(report, "schema_version") == JInt(1)
    && Named(w, Get(report, "workload_id")) && PyEqual(Get(report, "workload_id"), c.workloadId)
    && HexString(Get(report, "cohort_membership_sha256"), 64)
    && PyEqual(Get(report, "cohort_membership_sha256"), c.membershipSha256)
    && HexString(Get(report, "cohort_package_sha256"), 64)
    && PyEqual(Get(report, "cohort_package_sha256"), c.packageDigest)
    && NonemptyStrings(Get(report, "policy_revisions"))
    && PyEqual(Get(report, "policy_revisions"), c.policyRevisions)
    && PyEqual(Get(report, "artifact_tuple_sha256"), c.artifactDigest)
    && Get(report, "stages").JArray? && |Get(report, "stages").items| == 5
    && c.coverage.JObject? && Get(c.ownerApproval, "evidence").JObject?
    && HexString(Get(c.coverage, "sha256"), 64)
    && HexString(Get(Get(c.ownerApproval, "evidence"), "sha256"), 64)
    && Time(w, c.observationStart).Some? && Time(w, c.observationEnd).Some?
  }

  predicate ValidStageFrame(w: World, stage: Json, id: string, fields: set<string>) {
    && HasFields(stage, {"id", "status", "started_at", "ended_at", "evidence"} + fields)
    && Get(stage, "id") == JString(id) && Get(stage, "status") == JString("passed")
    && Timed(w, stage)
    && Get(stage, "evidence").JArray? && Get(stage, "evidence").items != []
    && forall i :: 0 <= i < |Get(stage, "evidence").items| ==> Verified(w, Get(stage, "evidence").items[i])
  }

  predicate IsTrue(j: Json) {
    j == JBool(true)
  }

  predicate ValidInstalled(w: World, stage: Json) {
    && ValidStageFrame(w, stage, "installed_effects_disabled",
                       {"effects_enabled", "admission_verified", "grants_verified", "contract_verified",
                        "core_no_effect_verified"})
    && Get(stage, "effects_enabled") == JBool(false)
    && IsTrue(Get(stage, "admission_verified")) && IsTrue(Get(stage, "grants_verified"))
    && IsTrue(Get(stage, "contract_verified")) && IsTrue(Get(stage, "core_no_effect_verified"))
  }

  predicate ValidShadowReview(w: World, c: StageContext, stage: Json) {
    && ValidStageFrame(w, stage, "shadow_review",
                       {"coverage_manifest_sha256", "owner_approval_sha256", "complete_population", "owner_reviewed"})
    && PyEqual(Get(stage, "coverage_manifest_sha256"), Get(c.coverage, "sha256"))
    && PyEqual(Get(stage, "owner_approval_sha256"), Get(Get(c.ownerApproval, "evidence"), "sha256"))
    && IsTrue(Get(stage, "complete_population")) && IsTrue(Get(stage, "owner_reviewed"))
    && Time(w, Get(c.ownerApproval, "signed_at")).Some?
    && Time(w, Get(c.ownerApproval, "signed_at")).value <= Ended(w, stage)
  }

  predicate ValidRouting(w: World, stage: Json) {
    && ValidStageFrame(w, stage, "cohort_routing_deadlines",
                       {"enabled_actions", "applied_queue_controls", "applied_due_at_controls",
                        "unauthorized_control_count", "out_of_cohort_control_count",
                        "manual_protection_violation_count"})
    && Get(stage, "enabled_actions") == JArray([JString("ASSIGN_QUEUE"), JString("SET_DUE_AT")])
    && IsInt(Get(stage, "applied_queue_controls"), 1) && IsInt(Get(stage, "applied_due_at_controls"), 1)
    && Get(stage, "unauthorized_control_count") == JInt(0) && Get(stage, "out_of_cohort_control_count") == JInt(0)
    && Get(stage, "manual_protection_violation_count") == JInt(0)
  }

  predicate ValidEscalation(w: World, stage: Json) {
    && ValidStageFrame(w, stage, "bounded_escalation",
                       {"enabled_action", "enabled_after", "maximum_level", "applied_escalation_control_count",
                        "routing_deadline_tests_healthy", "real_time_tests_healthy", "applied_above_maximum_count",
                        "duplicate_applied_control_count", "stale_binding_acceptance_count",
                        "manual_protection_violation_count"})
    && Get(stage, "enabled_action") == JString("ESCALATE")
    && Get(stage, "enabled_after") == JString("cohort_routing_deadlines")
    && IsInt(Get(stage, "maximum_level"), 1) && IsInt(Get(stage, "applied_escalation_control_count"), 1)
    && IsTrue(Get(stage, "routing_deadline_tests_healthy")) && IsTrue(Get(stage, "real_time_tests_healthy"))
    && Get(stage, "applied_above_maximum_count") == JInt(0) && Get(stage, "duplicate_applied_control_count") == JInt(0)
    && Get(stage, "stale_binding_acceptance_count") == JInt(0)
    && Get(stage, "manual_protection_violation_count") == JInt(0)
  }

  predicate ValidSupported(w: World, c: StageContext, stage: Json) {
    && ValidStageFrame(w, stage, "supported_profile", {"thresholds_met", "truncated", "safety_degraded"})
    && Time(w, c.observationStart) == Some(Started(w, stage)) && Time(w, c.observationEnd) == Some(Ended(w, stage))
    && IsTrue(Get(stage, "thresholds_met"))
    && Get(stage, "truncated") == JBool(false) && Get(stage, "safety_degraded") == JBool(false)
  }

  /** The i-th of the five stages passes its own checks. */
  predicate ValidStage(w: World, c: StageContext, i: nat, stage: Json) {
    match i
    case 0 => ValidInstalled(w, stage)
    case 1 => ValidShadowReview(w, c, stage)
    case 2 => ValidRouting(w, stage)
    case 3 => ValidEscalation(w, stage)
    case 4 => ValidSupported(w, c, stage)
    case _ => false
  }

  /** All stages pass and none starts before an earlier one has ended. */
  ghost predicate ValidStages(w: World, c: StageContext, report: Json) {
    && ValidStagesHeader(w, c, report)
    && (forall i :: 0 <= i < 5 ==> ValidStage(w, c, i, Get(report, "stages").items[i]))
    && InOrder(w, Get(report, "stages").items)
  }

  ghost predicate InOrder(w: World, stages: seq<Json>) {
    && (forall i :: 0 <= i < |stages| ==> Timed(w, stages[i]))
    && forall i, j :: 0 <= i < j < |stages| ==> Ended(w, stages[i]) <= Started(w, stages[j])
  }

  lemma StageIsTimed(w: World, c: StageContext, i: nat, stage: Json)
    requires ValidStage(w, c, i, stage)
    ensures Timed(w, stage)
  {
  }

  lemma OrderStep(w: World, stages: seq<Json>, stage: Json)
    requires InOrder(w, stages) && Timed(w, stage)
    ensures InOrder(w, stages + [stage]) <==> stages == [] || Ended(w, stages[|stages| - 1]) <= Started(w, stage)
  {
    var all := stages + [stage];
    if stages != [] {
      assert all[|stages| - 1] == stages[|stages| - 1] && all[|stages|] == stage;
      if Ended(w, stages[|stages| - 1]) <= Started(w, stage) {
        forall i | 0 <= i < |stages| ensures Ended(w, stages[i]) <= Started(w, stage) {
          assert i < |stages| - 1 ==> Ended(w, stages[i]) <= Started(w, stages[|stages| - 1]);
        }
      }
    }
  }

  /** The comparison with the stage before decides about the next one, and failing it about the whole. */
  lemma OrderAt(w: World, stages: seq<Json>, i: nat)
    requires i < |stages| && InOrder(w, stages[..i]) && Timed(w, stages[i])
    ensures InOrder(w, stages[..i + 1]) <==> i == 0 || Ended(w, stages[i - 1]) <= Started(w, stages[i])
    ensures InOrder(w, stages) ==> InOrder(w, stages[..i + 1])
  {
    assert stages[..i + 1] == stages[..i] + [stages[i]];
    OrderStep(w, stages[..i], stages[i]);
  }

  /** Walks the stages with the end of the previous one. */
  method StagesInOrder(w: World, valid: (nat, Json) -> bool, stages: seq<Json>) returns (r: bool)
    requires forall i, stage :: valid(i, stage) ==> Timed(w, stage)
    ensures r <==> (forall i :: 0 <= i < |stages| ==> valid(i, stages[i])) && InOrder(w, stages)
  {
    var previousEnd: Option<int> := None;
    for i := 0 to |stages|
      invariant forall k :: 0 <= k < i ==> valid(k, stages[k])
      invariant InOrder(w, stages[..i])
      invariant previousEnd == if i == 0 then None else Some(Ended(w, stages[i - 1]))
    {
      if !valid(i, stages[i]) {
        return false;
      }
      OrderAt(w, stages, i);
      if previousEnd.Some? && Started(w, stages[i]) < previousEnd.value {
        return false;
      }
      previousEnd := Some(Ended(w, stages[i]));
    }
    assert stages[..|stages|] == stages;
    r := true;
  }

  method ValidStagedEnablement(w: World, c: StageContext, report: Json) returns (r: bool)
    ensures r <==> ValidStages(w, c, report)
  {
    if !ValidStagesHeader(w, c, report) {
      return false;
    }
    forall i: nat, stage | ValidStage(w, c, i, stage) ensures Timed(w, stage) {
      StageIsTimed(w, c, i, stage);
    }
    r := StagesInOrder(w, (i: nat, stage: Json) => ValidStage(w, c, i, stage), Get(report, "stages").items);
  }
}
