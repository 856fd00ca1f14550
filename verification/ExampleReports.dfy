// The release record of a manifest that qualifies, and the reports behind it. The record's thresholds hold
// an extra note, which no check reads.
//
// The reports come first, each with a lemma that lists its values. The validity of each report follows from
// its values alone, so that no proof looks into more than one of them. The conditions on the record then follow
// group by group from what the record and the reports hold, which the predicates on `Shown` keep folded
// elsewhere.

module ExampleReports {
  import opened Basics
  import opened Complaints
  import opened Json
  import opened Evidence
  import opened ShadowCoverage
  import opened OperatingRun
  import opened ReleaseRecord

  // ---- The evidence files: one letter names each, and is its content ----

  function Zeros(length: nat): (s: string)
    ensures Hex(s, length)
  {
    seq(length, i => '0')
  }

  function Ones(): (s: string)
    ensures Hex(s, 64)
  {
    seq(64, i => '1')
  }

  const DIGEST: Json := JString(Zeros(64))

  function Reference(path: string): Json {
    JObject(map["path" := JString(path), "sha256" := DIGEST])
  }

  function Approval(name: string, signedAt: string, path: string): Json {
    JObject(map["name" := JString(name), "signed_at" := JString(signedAt), "evidence" := Reference(path)])
  }

  // ---- The record ----

  function Thresholds(note: Json): Json {
    JObject(map[
      "case_count_max" := JInt(1), "churn_per_hour_max" := JInt(1), "queue_backlog_max" := JInt(1),
      "latency_p95_ms_max" := JInt(1), "retention_horizon_seconds" := JInt(1), "recovery_rto_seconds_max" := JInt(1),
      "note" := note])
  }

  const REVISIONS: Json := JArray([JString("p")])

  function Workload(): Json {
    JObject(map["id" := JString("i"), "owner" := JString("w"), "administrative_domain" := JString("a")])
  }

  function Cohort(): Json {
    JObject(map[
      "membership_definition" := JString("d"), "membership_manifest" := Reference("M"), "membership_sha256" := DIGEST,
      "member_count" := JInt(1), "policy_revisions" := REVISIONS, "expected_exceptions" := Reference("X"),
      "package_manifest" := Reference("K"), "package_digest" := DIGEST])
  }

  function Shadow(): Json {
    JObject(map[
      "reference_population_sha256" := DIGEST, "coverage_manifest" := Reference("C"), "expected_case_count" := JInt(1),
      "observed_case_count" := JInt(1), "partial" := JBool(false), "duplicate_case_count" := JInt(0),
      "owner_approval" := Approval("w", "g", "W")])
  }

  function Observation(): Json {
    JObject(map["started_at" := JString("n"), "ended_at" := JString("o")])
  }

  function Envelope(note: Json): Json {
    JObject(map[
      "baseline_evidence" := Reference("B"), "thresholds" := Thresholds(note),
      "observation" := Observation(),
      "operator_threshold_approval" := Approval("x", "c", "O"),
      "release_owner_threshold_approval" := Approval("y", "d", "R")])
  }

  function Documents(): Json {
    JObject(map[
      "release_notes" := JString("docs/n"), "support_matrix" := JString("docs/s"),
      "operator_guide" := JString("docs/g")])
  }

  function Signoffs(): Json {
    JObject(map[
      "operator" := Approval("x", "p", "1"), "release_owner" := Approval("y", "q", "2"),
      "independent_reviewer" := Approval("z", "r", "3")])
  }

  function RecordOf(workload: Json, cohort: Json, shadow: Json, envelope: Json, documents: Json, signoffs: Json): Json {
    JObject(map[
      "workload" := workload, "cohort" := cohort, "shadow" := shadow, "operating_envelope" := envelope,
      "support_documents" := documents, "final_signoffs" := signoffs])
  }

  function ExampleRecord(note: Json): Json {
    RecordOf(Workload(), Cohort(), Shadow(), Envelope(note), Documents(), Signoffs())
  }

  // What the validation extracts from the record, section by section.

  ghost predicate ExampleWorkload(v: Fields) {
    forall k :: Unfolded(k) ==>
      v.workloadId == JString("i") && v.workloadOwner == JString("w") && v.administrativeDomain == JString("a")
  }

  ghost predicate ExampleCohort(v: Fields) {
    forall k :: Unfolded(k) ==>
      && v.membershipDefinition == JString("d") && v.membershipManifest == Reference("M")
      && v.membershipSha256 == DIGEST
      && v.memberCount == JInt(1) && v.policyRevisions == REVISIONS && v.expectedExceptions == Reference("X")
      && v.packageManifest == Reference("K") && v.packageDigest == DIGEST
  }

  ghost predicate ExampleShadow(v: Fields) {
    forall k :: Unfolded(k) ==>
      && v.referencePopulationSha256 == DIGEST && v.coverageManifest == Reference("C") && v.expectedCaseCount == JInt(1)
      && v.observedCaseCount == JInt(1) && v.partiality == JBool(false) && v.duplicateCaseCount == JInt(0)
      && v.ownerApproval == Approval("w", "g", "W")
  }

  ghost predicate ExampleEnvelope(v: Fields, note: Json) {
    forall k :: Unfolded(k) ==>
      && v.baselineEvidence == Reference("B") && v.thresholds == Thresholds(note)
      && v.observationStart == JString("n") && v.observationEnd == JString("o")
      && v.operatorThresholdApproval == Approval("x", "c", "O")
      && v.releaseOwnerThresholdApproval == Approval("y", "d", "R")
  }

  ghost predicate ExampleDocuments(v: Fields) {
    forall k :: Unfolded(k) ==>
      v.releaseNotes == JString("docs/n") && v.supportMatrix == JString("docs/s")
        && v.operatorGuide == JString("docs/g")
  }

  ghost predicate ExampleSignoffs(v: Fields) {
    forall k :: Unfolded(k) ==>
      && v.operatorSignoff == Approval("x", "p", "1") && v.releaseOwnerSignoff == Approval("y", "q", "2")
      && v.reviewerSignoff == Approval("z", "r", "3")
  }

  // ---- The reports ----

  function MembershipReport(): Json {
    JObject(map["schema_version" := JInt(1), "population_id" := JString("u"), "case_keys" := JArray([JInt(1)])])
  }

  function ExampleRoute(): Json {
    JObject(map[
      "decision" := JString("NO_OP"), "current_queue" := JNull, "selected_queue" := JNull, "action" := JNull,
      "priority" := JNull, "reason_code" := JNull, "competitors" := JArray([]), "reason" := JString(""),
      "applicable" := JBool(false), "manual_assignment_protected" := JBool(false),
      "pending_stewardship" := JBool(false), "due_at" := JNull, "deadline_due" := JBool(false),
      "current_escalation_level" := JNull, "requested_escalation_level" := JNull])
  }

  function ExampleDeadline(): Json {
    JObject(map[
      "decision" := JString("PRESERVED"), "existing_due_at" := JNull, "proposed_due_at" := JNull,
      "reason" := JString("")])
  }

  function Side(): Json {
    JObject(map["route" := ExampleRoute(), "deadline" := ExampleDeadline()])
  }

  function ExampleRow(): Json {
    JObject(map["case_key" := JInt(1), "current" := Side(), "proposed" := Side(), "changed" := JBool(false)])
  }

  function ExampleResult(): Json {
    JObject(map[
      "state" := JString("complete"), "read_only" := JBool(true), "captured_at" := JString("f"),
      "policy_revisions" := ExamplePair(), "coverage" := ExampleCounts(),
      "rows" := JArray([ExampleRow()])])
  }

  function ScenarioValue(field: string): Json {
    if field == "conditions" then JString("c") else JInt(1)
  }

  function Scenario(name: string): Json {
    JObject(map field | field in ScenarioFields(name) :: ScenarioValue(field))
  }

  function ScenarioNames(): set<string> {
    {"no_change_cycles", "bursts", "hot_case_conflicts", "stale_token_churn",
     "deadline_bursts", "backlog_drain", "restart", "populated_restore"}
  }

  function Scenarios(): Json {
    JObject(map name | name in ScenarioNames() :: Scenario(name))
  }

  function RunReport(startedAt: string, endedAt: string): Json {
    JObject(map[
      "schema_version" := JInt(1), "run_id" := JString("r"), "workload_id" := JString("i"),
      "cohort_membership_sha256" := DIGEST, "artifact_tuple_sha256" := DIGEST,
      "started_at" := JString(startedAt), "ended_at" := JString(endedAt),
      "truncated" := JBool(false), "safety_degraded" := JBool(false), "scenarios" := Scenarios(),
      "summary" := RunSummary(),
      "unavailable_metrics" := JArray([])])
  }

  function Sections(): Json {
    JArray([
    JString("assignments"), JString("due_dates"), JString("no_ops"), JString("protected_cases"),
    JString("escalation_plans"), JString("ambiguities"), JString("expected_manual_exceptions")])
  }

  function OwnerReport(): Json {
    JObject(map[
      "schema_version" := JInt(1), "workload_id" := JString("i"), "owner" := JString("w"), "signed_at" := JString("g"),
      "cohort_membership_sha256" := DIGEST, "package_sha256" := DIGEST, "coverage_manifest_sha256" := DIGEST,
      "policy_revisions" := REVISIONS, "expected_exceptions_sha256" := DIGEST, "reviewed_sections" := Sections()])
  }

  function ThresholdReport(role: string, name: string, signedAt: string, note: Json): Json {
    JObject(map[
      "schema_version" := JInt(1), "role" := JString(role), "approver" := JString(name),
      "signed_at" := JString(signedAt),
      "baseline_sha256" := DIGEST, "thresholds" := Thresholds(note)])
  }

  function SignoffReport(role: string, name: string, signedAt: string, seal: Json): Json {
    JObject(map[
      "schema_version" := JInt(1), "role" := JString(role), "approver" := JString(name),
      "signed_at" := JString(signedAt),
      "decision" := JString("go"), "artifact_tuple_sha256" := DIGEST, "workload_id" := JString("i"),
      "cohort_membership_sha256" := DIGEST, "package_sha256" := DIGEST, "qualification_evidence_sha256" := seal])
  }

  function InstalledStage(): Json {
    JObject(map[
      "id" := JString("installed_effects_disabled"), "status" := JString("passed"),
      "started_at" := JString("d"), "ended_at" := JString("e"), "evidence" := JArray([Reference("E")]),
      "effects_enabled" := JBool(false), "admission_verified" := JBool(true), "grants_verified" := JBool(true),
      "contract_verified" := JBool(true),
      "core_no_effect_verified" := JBool(true)])
  }

  function ReviewStage(): Json {
    JObject(map[
      "id" := JString("shadow_review"), "status" := JString("passed"),
      "started_at" := JString("f"), "ended_at" := JString("h"), "evidence" := JArray([Reference("E")]),
      "coverage_manifest_sha256" := DIGEST, "owner_approval_sha256" := DIGEST, "complete_population" := JBool(true),
      "owner_reviewed" := JBool(true)])
  }

  function RoutingStage(): Json {
    JObject(map[
      "id" := JString("cohort_routing_deadlines"), "status" := JString("passed"),
      "started_at" := JString("i"), "ended_at" := JString("j"), "evidence" := JArray([Reference("E")]),
      "enabled_actions" := JArray([JString("ASSIGN_QUEUE"), JString("SET_DUE_AT")]),
      "applied_queue_controls" := JInt(1), "applied_due_at_controls" := JInt(1),
      "unauthorized_control_count" := JInt(0), "out_of_cohort_control_count" := JInt(0),
      "manual_protection_violation_count" := JInt(0)])
  }

  function EscalationStage(): Json {
    JObject(map[
      "id" := JString("bounded_escalation"), "status" := JString("passed"),
      "started_at" := JString("k"), "ended_at" := JString("l"), "evidence" := JArray([Reference("E")]),
      "enabled_action" := JString("ESCALATE"), "enabled_after" := JString("cohort_routing_deadlines"),
      "maximum_level" := JInt(1), "applied_escalation_control_count" := JInt(1),
      "routing_deadline_tests_healthy" := JBool(true), "real_time_tests_healthy" := JBool(true),
      "applied_above_maximum_count" := JInt(0), "duplicate_applied_control_count" := JInt(0),
      "stale_binding_acceptance_count" := JInt(0), "manual_protection_violation_count" := JInt(0)])
  }

  function SupportedStage(): Json {
    JObject(map[
      "id" := JString("supported_profile"), "status" := JString("passed"),
      "started_at" := JString("n"), "ended_at" := JString("o"), "evidence" := JArray([Reference("E")]),
      "thresholds_met" := JBool(true), "truncated" := JBool(false), "safety_degraded" := JBool(false)])
  }

  function ExampleStages(): seq<Json> {
    [InstalledStage(), ReviewStage(), RoutingStage(), EscalationStage(), SupportedStage()]
  }

  function StagesReport(): Json {
    JObject(map[
      "schema_version" := JInt(1), "workload_id" := JString("i"), "cohort_membership_sha256" := DIGEST,
      "cohort_package_sha256" := DIGEST, "policy_revisions" := REVISIONS, "artifact_tuple_sha256" := DIGEST,
      "stages" := JArray(ExampleStages())])
  }

  datatype Reports = Reports(
    membership: Json, coverage: Json, owner: Json, operatorThresholds: Json, releaseOwnerThresholds: Json,
    baseline: Json, final: Json, operator: Json, releaseOwner: Json, reviewer: Json, stages: Json)

  function ExampleFiles(note: Json, seal: Json): Reports {
    Reports(
      MembershipReport(), JArray([ExampleResult()]), OwnerReport(),
      ThresholdReport("operator", "x", "c", note), ThresholdReport("release_owner", "y", "d", note),
      RunReport("a", "b"), RunReport("n", "o"),
      SignoffReport("operator", "x", "p", seal), SignoffReport("release_owner", "y", "q", seal),
      SignoffReport("independent_reviewer", "z", "r", seal), StagesReport())
  }

  /** The reports by content; the other evidence files hold no JSON. */
  function ReportMap(r: Reports): map<nat, Json> {
    map[
      'M' as nat := r.membership, 'C' as nat := r.coverage, 'B' as nat := r.baseline,
      'F' as nat := r.final, 'W' as nat := r.owner, 'O' as nat := r.operatorThresholds,
      'R' as nat := r.releaseOwnerThresholds, 'G' as nat := r.stages, '1' as nat := r.operator,
      '2' as nat := r.releaseOwner, '3' as nat := r.reviewer]
  }

  function Stored(reports: map<nat, Json>, letter: nat): Option<Json> {
    if letter in reports then Some(reports[letter]) else None
  }

  // ---- It qualifies ----

  /** The world's library functions, on the strings of the example. */
  ghost predicate Library(w: World) {
    && (forall s: string {:trigger w.instant(s)} :: |s| == 1 ==> w.instant(s) == Some(s[0] as int))
    && (forall s: string :: w.blank(s) == (s == ""))
    && (forall s: string :: w.normalName(s) == s)
    && (forall s: string :: w.supportDocument(s))
  }

  /** The file with this name is retained and holds this report. */
  ghost predicate Holds(w: World, path: string, report: Option<Json>) {
    forall k :: Unfolded(k) ==> Verified(w, Reference(path)) && ReadJson(w, Reference(path)) == report
  }

  // The objects of the record, value by value.

  predicate CohortValues(j: Json) {
    && Get(j, "membership_definition") == JString("d") && Get(j, "membership_manifest") == Reference("M")
    && Get(j, "membership_sha256") == DIGEST && Get(j, "member_count") == JInt(1)
    && Get(j, "policy_revisions") == REVISIONS && Get(j, "expected_exceptions") == Reference("X")
    && Get(j, "package_manifest") == Reference("K") && Get(j, "package_digest") == DIGEST
  }

  lemma CohortHas()
    ensures CohortValues(Cohort())
  {
  }

  predicate ShadowValues(j: Json) {
    && Get(j, "reference_population_sha256") == DIGEST && Get(j, "coverage_manifest") == Reference("C")
    && Get(j, "expected_case_count") == JInt(1) && Get(j, "observed_case_count") == JInt(1)
    && Get(j, "partial") == JBool(false) && Get(j, "duplicate_case_count") == JInt(0)
    && Get(j, "owner_approval") == Approval("w", "g", "W")
  }

  lemma ShadowHas()
    ensures ShadowValues(Shadow())
  {
  }

  predicate EnvelopeValues(j: Json, note: Json) {
    && Get(j, "baseline_evidence") == Reference("B") && Get(j, "thresholds") == Thresholds(note)
    && Get(Get(j, "observation"), "started_at") == JString("n")
    && Get(Get(j, "observation"), "ended_at") == JString("o")
    && Get(j, "operator_threshold_approval") == Approval("x", "c", "O")
    && Get(j, "release_owner_threshold_approval") == Approval("y", "d", "R")
  }

  lemma EnvelopeHas(note: Json)
    ensures EnvelopeValues(Envelope(note), note)
  {
  }

  predicate ThresholdValues(j: Json) {
    && Get(j, "case_count_max") == JInt(1) && Get(j, "churn_per_hour_max") == JInt(1)
    && Get(j, "queue_backlog_max") == JInt(1)
    && Get(j, "latency_p95_ms_max") == JInt(1) && Get(j, "retention_horizon_seconds") == JInt(1)
    && Get(j, "recovery_rto_seconds_max") == JInt(1)
  }

  lemma ThresholdsHas(note: Json)
    ensures ThresholdValues(Thresholds(note))
  {
  }

  lemma SmallSectionsHave()
    ensures Get(Workload(), "id") == JString("i") && Get(Workload(), "owner") == JString("w")
    ensures Get(Workload(), "administrative_domain") == JString("a")
    ensures Get(Documents(), "release_notes") == JString("docs/n")
    ensures Get(Documents(), "support_matrix") == JString("docs/s")
    ensures Get(Documents(), "operator_guide") == JString("docs/g")
    ensures Get(Signoffs(), "operator") == Approval("x", "p", "1")
    ensures Get(Signoffs(), "release_owner") == Approval("y", "q", "2")
    ensures Get(Signoffs(), "independent_reviewer") == Approval("z", "r", "3")
  {
  }

  lemma SectionsOf(a: Json, b: Json, c: Json, d: Json, e: Json, f: Json)
    ensures var r := RecordOf(a, b, c, d, e, f);
            && HasFields(r, {"workload", "cohort", "shadow", "operating_envelope", "support_documents",
                             "final_signoffs"})
            && Get(r, "workload") == a && Get(r, "cohort") == b && Get(r, "shadow") == c
            && Get(r, "operating_envelope") == d
            && Get(r, "support_documents") == e && Get(r, "final_signoffs") == f
  {
  }

  lemma RecordSections(note: Json)
    ensures var r := ExampleRecord(note);
            && HasFields(r, {"workload", "cohort", "shadow", "operating_envelope", "support_documents",
                             "final_signoffs"})
            && Get(r, "workload") == Workload() && Get(r, "cohort") == Cohort() && Get(r, "shadow") == Shadow()
            && Get(r, "operating_envelope") == Envelope(note)
            && Get(r, "support_documents") == Documents() && Get(r, "final_signoffs") == Signoffs()
  {
    SectionsOf(Workload(), Cohort(), Shadow(), Envelope(note), Documents(), Signoffs());
  }

  lemma CohortExtracted(r: Json)
    requires CohortValues(Get(r, "cohort"))
    ensures ExampleCohort(Extract(r))
  {
  }

  lemma ShadowExtracted(r: Json)
    requires ShadowValues(Get(r, "shadow"))
    ensures ExampleShadow(Extract(r))
  {
  }

  lemma EnvelopeExtracted(r: Json, note: Json)
    requires EnvelopeValues(Get(r, "operating_envelope"), note)
    ensures ExampleEnvelope(Extract(r), note)
  {
  }

  lemma SmallSectionsExtracted(r: Json)
    requires Get(r, "workload") == Workload() && Get(r, "support_documents") == Documents()
    requires Get(r, "final_signoffs") == Signoffs()
    ensures var v := Extract(r); ExampleWorkload(v) && ExampleDocuments(v) && ExampleSignoffs(v)
  {
    SmallSectionsHave();
  }

  /** Every value equals itself, but for a lone NaN. */
  lemma {:induction false} Reflexive(j: Json)
    ensures SameElement(j, j)
    ensures j != JFloat(NaN) ==> PyEqual(j, j)
  {
    match j
    case JArray(items) =>
      forall i | 0 <= i < |items| ensures SameElement(items[i], items[i]) {
        Reflexive(items[i]);
      }
    case JObject(fields) =>
      forall k | k in fields ensures SameElement(fields[k], fields[k]) {
        Reflexive(fields[k]);
      }
    case _ =>
  }

  // Missing fields.

  lemma ApprovalPresent(name: string, signedAt: string, path: string)
    ensures Present(Approval(name, signedAt, path)) && Present(Reference(path))
  {
    assert "name" in Approval(name, signedAt, path).fields && "path" in Reference(path).fields;
  }

  lemma WorkloadComplete(v: Fields)
    requires ExampleWorkload(v)
    ensures AllHold(MissingGroup(v, 0))
  {
    assert Unfolded(0);
    AllHoldShort(MissingGroup(v, 0));
  }

  lemma CohortPresent(v: Fields)
    requires ExampleCohort(v)
    ensures Present(v.membershipDefinition) && Present(v.membershipManifest) && Present(v.membershipSha256)
    ensures Present(v.memberCount) && Present(v.policyRevisions) && Present(v.expectedExceptions)
    ensures Present(v.packageManifest) && Present(v.packageDigest)
  {
    assert Unfolded(0);
    ApprovalPresent("", "", "M");
    ApprovalPresent("", "", "X");
    ApprovalPresent("", "", "K");
  }

  lemma CohortComplete(v: Fields)
    requires ExampleCohort(v)
    ensures AllHold(MissingGroup(v, 1))
  {
    CohortPresent(v);
    AllHoldShort(MissingGroup(v, 1));
  }

  lemma ShadowComplete(v: Fields)
    requires ExampleShadow(v)
    ensures AllHold(MissingGroup(v, 2))
  {
    assert Unfolded(0);
    ApprovalPresent("w", "g", "W");
    ApprovalPresent("", "", "C");
    AllHoldShort(MissingGroup(v, 2));
  }

  lemma ThresholdsComplete(v: Fields)
    requires ThresholdValues(v.thresholds) && Present(v.baselineEvidence)
    ensures AllHold(MissingGroup(v, 3))
  {
    AllHoldShort(MissingGroup(v, 3));
  }

  lemma EnvelopePresent(v: Fields, note: Json)
    requires ExampleEnvelope(v, note) && ExampleDocuments(v)
    ensures Present(v.observationStart) && Present(v.observationEnd)
    ensures Present(v.operatorThresholdApproval) && Present(v.releaseOwnerThresholdApproval)
    ensures Present(v.releaseNotes) && Present(v.supportMatrix) && Present(v.operatorGuide)
  {
    assert Unfolded(0);
    ApprovalPresent("x", "c", "O");
    ApprovalPresent("y", "d", "R");
  }

  lemma EnvelopeComplete(v: Fields, note: Json)
    requires ExampleEnvelope(v, note) && ExampleDocuments(v)
    ensures AllHold(MissingGroup(v, 4))
  {
    EnvelopePresent(v, note);
    AllHoldShort(MissingGroup(v, 4));
  }

  lemma SignoffsComplete(v: Fields)
    requires ExampleSignoffs(v)
    ensures AllHold(MissingGroup(v, 5))
  {
    assert Unfolded(0);
    ApprovalPresent("x", "p", "1");
    ApprovalPresent("y", "q", "2");
    ApprovalPresent("z", "r", "3");
    AllHoldShort(MissingGroup(v, 5));
  }

  lemma ExampleComplete(v: Fields, note: Json)
    requires ExampleWorkload(v) && ExampleCohort(v) && ExampleShadow(v) && ExampleEnvelope(v, note)
    requires ExampleDocuments(v) && ExampleSignoffs(v) && ThresholdValues(v.thresholds)
    ensures NothingMissing(v)
  {
    WorkloadComplete(v);
    CohortComplete(v);
    ShadowComplete(v);
    BaselinePresent(v, note);
    ThresholdsComplete(v);
    EnvelopeComplete(v, note);
    SignoffsComplete(v);
    AllGroupsComplete(v);
  }

  lemma AllGroupsComplete(v: Fields)
    requires AllHold(MissingGroup(v, 0)) && AllHold(MissingGroup(v, 1)) && AllHold(MissingGroup(v, 2))
    requires AllHold(MissingGroup(v, 3)) && AllHold(MissingGroup(v, 4)) && AllHold(MissingGroup(v, 5))
    ensures NothingMissing(v)
  {
    NothingMissingByGroup(v);
  }

  lemma BaselinePresent(v: Fields, note: Json)
    requires ExampleEnvelope(v, note)
    ensures Present(v.baselineEvidence)
  {
    assert Unfolded(0);
    ApprovalPresent("", "", "B");
  }

  // Formats, membership, coverage.

  lemma ExampleFormats(w: World, v: Fields)
    requires Library(w) && ExampleWorkload(v) && ExampleCohort(v) && v.referencePopulationSha256 == DIGEST
    ensures AllHold(FormatConditions(w, v))
  {
    assert Unfolded(0);
    AllHoldShort(FormatConditions(w, v));
  }

  lemma ExampleCountFormats(v: Fields)
    requires ExampleCohort(v) && ExampleShadow(v)
    ensures AllHold(CountConditions(v))
  {
    assert Unfolded(0);
    AllHoldShort(CountConditions(v));
  }

  lemma ExampleMembershipShape(w: World)
    requires Library(w)
    ensures MembershipShape(w, MembershipReport())
  {
  }

  lemma OneKey()
    ensures KeysAmong([JInt(1)]) == [1]
  {
    assert [JInt(1)][..0] == [];
  }

  lemma MembershipIsFrozen(w: World, v: Fields, report: Json)
    requires ReadJson(w, v.membershipManifest) == Some(report) && Present(v.membershipManifest)
    requires MembershipShape(w, report)
    requires Get(report, "population_id") == JString("u") && Get(report, "case_keys") == JArray([JInt(1)])
    requires v.memberCount == JInt(1) && v.referencePopulationSha256 == v.membershipSha256 == DIGEST
    ensures FrozenMembership(w, v) == Some(Membership(JString("u"), [1]))
    ensures AllHold(MembershipConditions(w, v))
  {
    OneKey();
    AllHoldShort(MembershipConditions(w, v));
  }

  lemma ExampleMembership(w: World, v: Fields, report: Json)
    requires Library(w) && Holds(w, "M", Some(report)) && report == MembershipReport()
    requires ExampleCohort(v) && v.referencePopulationSha256 == DIGEST
    ensures FrozenMembership(w, v) == Some(Membership(JString("u"), [1]))
    ensures AllHold(MembershipConditions(w, v))
  {
    assert Unfolded(0);
    ExampleMembershipShape(w);
    ApprovalPresent("", "", "M");
    MembershipIsFrozen(w, v, report);
  }

  lemma RouteFields()
    ensures HasFields(ExampleRoute(),
                      {"decision", "current_queue", "selected_queue", "action", "priority", "reason_code",
                                       "competitors", "reason", "applicable", "manual_assignment_protected",
                                       "pending_stewardship", "due_at", "deadline_due", "current_escalation_level",
                                       "requested_escalation_level"})
  {
  }

  lemma RouteStrings()
    ensures var j := ExampleRoute();
            && Get(j, "decision") == JString("NO_OP") && Get(j, "current_queue") == JNull
            && Get(j, "selected_queue") == JNull
            && Get(j, "action") == JNull && Get(j, "reason_code") == JNull && Get(j, "reason") == JString("")
  {
  }

  lemma RouteOthers()
    ensures var j := ExampleRoute();
            && Get(j, "priority") == JNull && Get(j, "competitors") == JArray([]) && Get(j, "due_at") == JNull
            && Get(j, "applicable") == JBool(false) && Get(j, "manual_assignment_protected") == JBool(false)
            && Get(j, "pending_stewardship") == JBool(false) && Get(j, "deadline_due") == JBool(false)
            && Get(j, "current_escalation_level") == JNull && Get(j, "requested_escalation_level") == JNull
  {
  }

  lemma RouteIsValid(w: World)
    ensures ValidRoute(w, ExampleRoute())
  {
    RouteFields();
    RouteStrings();
    RouteOthers();
  }

  lemma SideIsValid(w: World)
    ensures ValidSide(w, Side())
  {
    RouteIsValid(w);
    assert ValidDeadline(w, ExampleDeadline());
    assert Get(Side(), "route") == ExampleRoute() && Get(Side(), "deadline") == ExampleDeadline();
  }

  lemma RowHas()
    ensures var row := ExampleRow();
            && HasFields(row, {"case_key", "current", "proposed", "changed"}) && Get(row, "case_key") == JInt(1)
            && Get(row, "current") == Side() && Get(row, "proposed") == Side() && Get(row, "changed") == JBool(false)
  {
  }

  lemma RowHolds(w: World, row: Json, side: Json)
    requires HasFields(row, {"case_key", "current", "proposed", "changed"}) && Get(row, "case_key") == JInt(1)
    requires Get(row, "current") == Get(row, "proposed") == side && Get(row, "changed") == JBool(false)
    requires side.JObject? && ValidSide(w, side)
    ensures ValidRow(w, row)
  {
    Reflexive(side);
  }

  lemma RowIsValid(w: World)
    ensures ValidRow(w, ExampleRow())
  {
    SideIsValid(w);
    RowHas();
    RowHolds(w, ExampleRow(), Side());
  }

  function ExampleCounts(): Json {
    JObject(map[
      "population_id" := JString("u"), "membership" := JArray([JInt(1)]), "expected_count" := JInt(1),
      "observed_count" := JInt(1), "partial" := JBool(false),
      "snapshot" := JString("one READ COMMITTED statement per read")])
  }

  lemma CountsHave()
    ensures HasFields(ExampleCounts(),
                      {"population_id", "membership", "expected_count", "observed_count", "partial", "snapshot"})
    ensures Get(ExampleCounts(), "population_id") == JString("u")
    ensures Get(ExampleCounts(), "membership") == JArray([JInt(1)])
  {
  }

  function ExamplePair(): Json {
    JObject(map["current" := JString("p"), "proposed" := JString("p")])
  }

  lemma ResultHas()
    ensures var result := ExampleResult();
            && HasFields(result, {"state", "read_only", "captured_at", "policy_revisions", "coverage", "rows"})
            && Get(result, "state") == JString("complete") && Get(result, "read_only") == JBool(true)
            && Get(result, "captured_at") == JString("f") && Get(result, "policy_revisions") == ExamplePair()
            && Get(result, "coverage") == ExampleCounts() && Get(result, "rows") == JArray([ExampleRow()])
  {
  }

  lemma PairIsValid()
    ensures HasFields(ExamplePair(), {"current", "proposed"})
    ensures InRevisions(Items(REVISIONS), Get(ExamplePair(), "current"))
    ensures InRevisions(Items(REVISIONS), Get(ExamplePair(), "proposed"))
  {
    assert PyEqual(Get(ExamplePair(), "current"), Items(REVISIONS)[0])
      && PyEqual(Get(ExamplePair(), "proposed"), Items(REVISIONS)[0]);
  }

  lemma HeaderIsValid(w: World, m: Membership, result: Json)
    requires Library(w) && m.populationId == JString("u") && result == ExampleResult()
    ensures ValidHeader(w, m, Items(REVISIONS), result)
  {
    ResultHas();
    PairIsValid();
    CountsHave();
    assert ValidCaseKeys(JArray([JInt(1)]));
  }

  lemma ResultKeys()
    ensures Members(ExampleResult()) == [1] && RowKeys(ExampleResult()) == [1]
    ensures Tallies(ExampleResult(), [1], [1])
  {
    OneKey();
    var rows := Items(Get(ExampleResult(), "rows"));
    assert rows == [ExampleRow()] && CaseKeys(rows) == [JInt(1)];
    assert Elements([1]) == {1};
  }

  lemma ResultIsValid(w: World, m: Membership)
    requires Library(w) && m.populationId == JString("u")
    ensures ValidResult(PreviewChecks(w, m, Items(REVISIONS)), ExampleResult())
  {
    HeaderIsValid(w, m, ExampleResult());
    RowIsValid(w);
    ResultKeys();
    ResultHas();
    AllChecksPass(w, m, ExampleResult(), ExampleRow());
  }

  lemma AllChecksPass(w: World, m: Membership, result: Json, row: Json)
    requires ValidHeader(w, m, Items(REVISIONS), result) && ValidRow(w, row) && Items(Get(result, "rows")) == [row]
    requires Tallies(result, Members(result), RowKeys(result))
    ensures ValidResult(PreviewChecks(w, m, Items(REVISIONS)), result)
  {
  }

  lemma OneResultPartitions(w: World, c: Checks, result: Json)
    requires TalliesMatchKeys(c) && ValidResult(c, result) && Members(result) == [1] && RowKeys(result) == [1]
    ensures ExactPartition(w, c, [1], JArray([result])) && CountedRows(w, c, JArray([result])) == [1]
  {
    var results := [result];
    assert Unfolded(0) && results[..0] == [] && results[0] == result;
    CountedAll(w, c, JArray(results));
    assert AllRowKeys([]) == [] && [] + RowKeys(result) == [1];
    assert Covered([]) == {} && Covered(results) == Elements([1]);
  }

  lemma ExamplePartition(w: World, m: Membership)
    requires Library(w) && m == Membership(JString("u"), [1])
    ensures ExactPartition(w, PreviewChecks(w, m, Items(REVISIONS)), m.caseKeys, JArray([ExampleResult()]))
    ensures CountedRows(w, PreviewChecks(w, m, Items(REVISIONS)), JArray([ExampleResult()])) == [1]
  {
    ResultIsValid(w, m);
    ResultKeys();
    PreviewChecksRead(w, m, Items(REVISIONS));
    OneResultPartitions(w, PreviewChecks(w, m, Items(REVISIONS)), ExampleResult());
  }

  lemma CoverageHolds(w: World, v: Fields, f: Findings)
    requires FrozenMembership(w, v) == Some(Membership(JString("u"), [1])) && Coverage(w, v).Some?
    requires v.expectedCaseCount == v.observedCaseCount == JInt(1) && v.partiality == JBool(false)
    requires v.duplicateCaseCount == JInt(0)
    requires f.partitioned && f.rowCount == 1 && f.duplicates == 0
    ensures AllHold(CoverageConditions(w, v, f)) && AllHold(TotalConditions(v))
  {
    AllHoldShort(CoverageConditions(w, v, f));
    AllHoldShort(TotalConditions(v));
  }

  lemma CoverageRead(w: World, v: Fields, report: Json)
    requires ExampleShadow(v) && Holds(w, "C", Some(report)) && report != JNull
    ensures Coverage(w, v) == Some(report)
  {
    assert Unfolded(0);
    ApprovalPresent("", "", "C");
  }

  lemma ExampleCoverage(w: World, v: Fields, f: Findings, report: Json)
    requires FrozenMembership(w, v) == Some(Membership(JString("u"), [1])) && ExampleShadow(v)
    requires Holds(w, "C", Some(report)) && report != JNull
    requires f.partitioned && f.rowCount == 1 && f.duplicates == 0
    ensures AllHold(CoverageConditions(w, v, f)) && AllHold(TotalConditions(v))
  {
    CoverageRead(w, v, report);
    assert Unfolded(0);
    CoverageHolds(w, v, f);
  }

  // Limits, window, retained files, documents.

  lemma ExampleLimits(v: Fields)
    requires ThresholdValues(v.thresholds)
    ensures AllHold(LimitConditions(v))
  {
    AllHoldShort(LimitConditions(v));
  }

  lemma ExampleWindow(w: World, v: Fields, note: Json)
    requires Library(w) && ExampleEnvelope(v, note)
    ensures AllHold(WindowConditions(w, v))
  {
    assert Unfolded(0);
    AllHoldShort(WindowConditions(w, v));
  }

  lemma ExampleRetention(w: World, v: Fields, membership: Json, coverage: Json)
    requires ExampleCohort(v) && ExampleShadow(v)
    requires Holds(w, "M", Some(membership)) && Holds(w, "C", Some(coverage)) && Holds(w, "X", None)
    requires Holds(w, "K", None)
    ensures AllHold(RetentionConditions(w, v))
  {
    assert Unfolded(0);
    AllHoldShort(RetentionConditions(w, v));
  }

  lemma ExampleSupport(w: World, v: Fields)
    requires Library(w) && ExampleDocuments(v)
    ensures AllHold(DocumentConditions(w, v))
  {
    assert Unfolded(0);
    AllHoldShort(DocumentConditions(w, v));
  }

  // Approvals.

  lemma ApprovalIsFormed(w: World, name: string, signedAt: string, path: string, report: Option<Json>)
    requires Library(w) && Holds(w, path, report) && name != "" && |signedAt| == 1
    ensures ApprovalFormed(w, Approval(name, signedAt, path))
  {
    assert Unfolded(0);
  }

  predicate OwnerReportValues(report: Json) {
    && HasFields(report, {"schema_version", "workload_id", "owner", "signed_at",
                          "cohort_membership_sha256", "package_sha256", "coverage_manifest_sha256",
                          "policy_revisions", "expected_exceptions_sha256", "reviewed_sections"})
    && Get(report, "schema_version") == JInt(1) && Get(report, "workload_id") == JString("i")
    && Get(report, "owner") == JString("w") && Get(report, "signed_at") == JString("g")
    && Get(report, "cohort_membership_sha256") == DIGEST && Get(report, "package_sha256") == DIGEST
    && Get(report, "coverage_manifest_sha256") == DIGEST && Get(report, "policy_revisions") == REVISIONS
    && Get(report, "expected_exceptions_sha256") == DIGEST && Get(report, "reviewed_sections") == Sections()
  }

  lemma OwnerReportHas()
    ensures OwnerReportValues(OwnerReport())
  {
  }

  lemma ApprovalParts(name: string, signedAt: string, path: string)
    ensures var value := Approval(name, signedAt, path);
            && Get(value, "name") == JString(name) && Get(value, "signed_at") == JString(signedAt)
            && Get(value, "evidence") == Reference(path) && Get(Get(value, "evidence"), "sha256") == DIGEST
  {
  }

  lemma OwnerApproves(w: World, v: Fields, report: Json)
    requires Library(w) && ReadJson(w, Get(v.ownerApproval, "evidence")) == Some(report) && OwnerReportValues(report)
    requires v.workloadId == JString("i") && v.workloadOwner == JString("w") && v.membershipSha256 == DIGEST
    requires v.packageDigest == DIGEST && v.policyRevisions == REVISIONS && v.ownerApproval.JObject?
    requires Get(v.ownerApproval, "name") == JString("w") && Get(v.ownerApproval, "signed_at") == JString("g")
    requires v.coverageManifest.JObject? && Get(v.coverageManifest, "sha256") == DIGEST
    requires v.expectedExceptions.JObject? && Get(v.expectedExceptions, "sha256") == DIGEST
    ensures OwnerApprovalValid(w, v)
  {
    Reflexive(REVISIONS);
    Reflexive(Sections());
  }

  lemma ExampleOwner(w: World, v: Fields, report: Json)
    requires Library(w) && Holds(w, "W", Some(report)) && OwnerReportValues(report)
    requires ExampleWorkload(v) && ExampleCohort(v) && ExampleShadow(v)
    ensures OwnerApprovalValid(w, v)
  {
    assert Unfolded(0);
    ApprovalParts("w", "g", "W");
    OwnerApproves(w, v, report);
  }

  predicate ThresholdReportValues(report: Json, role: string, name: string, signedAt: string, thresholds: Json) {
    && HasFields(report, {"schema_version", "role", "approver", "signed_at", "baseline_sha256", "thresholds"})
    && Get(report, "schema_version") == JInt(1) && Get(report, "role") == JString(role)
    && Get(report, "approver") == JString(name) && Get(report, "signed_at") == JString(signedAt)
    && Get(report, "baseline_sha256") == DIGEST && Get(report, "thresholds") == thresholds
  }

  lemma ThresholdReportHas(role: string, name: string, signedAt: string, note: Json)
    ensures ThresholdReportValues(ThresholdReport(role, name, signedAt, note), role, name, signedAt, Thresholds(note))
  {
  }

  lemma ThresholdsApproved(w: World, v: Fields, value: Json, report: Json, role: string, name: string, signedAt: string)
    requires Library(w) && |signedAt| == 1 && value.JObject? && ReadJson(w, Get(value, "evidence")) == Some(report)
    requires Get(value, "name") == JString(name) && Get(value, "signed_at") == JString(signedAt)
    requires ThresholdReportValues(report, role, name, signedAt, v.thresholds) && v.thresholds.JObject?
    requires v.baselineEvidence.JObject? && Get(v.baselineEvidence, "sha256") == DIGEST
    ensures ThresholdApprovalValid(w, v, value, role)
  {
    Reflexive(v.thresholds);
  }

  lemma ExampleThresholds(w: World, v: Fields, note: Json, report: Json, role: string, name: string, signedAt: string,
                          path: string)
    requires Library(w) && Holds(w, path, Some(report)) && |signedAt| == 1
    requires ThresholdReportValues(report, role, name, signedAt, Thresholds(note)) && ExampleEnvelope(v, note)
    ensures ThresholdApprovalValid(w, v, Approval(name, signedAt, path), role)
  {
    assert Unfolded(0);
    ApprovalParts(name, signedAt, path);
    ThresholdsApproved(w, v, Approval(name, signedAt, path), report, role, name, signedAt);
  }

  // Runs.

  lemma ScenarioIsValid(w: World, name: string)
    requires Library(w)
    ensures ValidScenario(w, name, Scenario(name))
  {
  }

  lemma ScenarioAt(w: World, name: string)
    requires Library(w) && name in ScenarioNames()
    ensures ValidScenario(w, name, Get(Scenarios(), name))
    ensures Recovers(name) ==> Get(Get(Scenarios(), name), "recovery_rto_seconds") == JInt(1)
  {
    ScenarioIsValid(w, name);
    assert Get(Scenarios(), name) == Scenario(name);
  }

  lemma ScenarioNamesAreListed(i: nat)
    requires i < |OPERATING_SCENARIOS|
    ensures OPERATING_SCENARIOS[i] in ScenarioNames()
  {
  }

  lemma ScenariosAreValid(w: World)
    requires Library(w)
    ensures ValidScenarios(w, Scenarios())
  {
    forall i | 0 <= i < |OPERATING_SCENARIOS|
      ensures ValidScenario(w, OPERATING_SCENARIOS[i], Get(Scenarios(), OPERATING_SCENARIOS[i]))
    {
      ScenarioNamesAreListed(i);
      ScenarioAt(w, OPERATING_SCENARIOS[i]);
    }
    assert HasFields(Scenarios(), ScenarioNames());
  }

  lemma {:induction false} OneSecond(scenarios: Json, names: seq<string>)
    requires forall i :: 0 <= i < |names| && Recovers(names[i]) ==>
      Get(Get(scenarios, names[i]), "recovery_rto_seconds") == JInt(1)
    ensures Largest(RecoveryTimes(scenarios, names)) == if RecoveryTimes(scenarios, names) == [] then 0 else 1
  {
    if names != [] {
      var times, last := RecoveryTimes(scenarios, names[..|names| - 1]), names[|names| - 1];
      OneSecond(scenarios, names[..|names| - 1]);
      if Recovers(last) {
        assert (times + [JInt(1)])[..|times|] == times;
      } else {
        assert times + [] == times;
      }
    }
  }

  lemma LongestRecovery(w: World)
    requires Library(w)
    ensures Largest(RecoveryTimes(Scenarios(), OPERATING_SCENARIOS)) == 1
  {
    forall i | 0 <= i < |OPERATING_SCENARIOS| && Recovers(OPERATING_SCENARIOS[i])
      ensures Get(Get(Scenarios(), OPERATING_SCENARIOS[i]), "recovery_rto_seconds") == JInt(1)
    {
      ScenarioNamesAreListed(i);
      ScenarioAt(w, OPERATING_SCENARIOS[i]);
    }
    OneSecond(Scenarios(), OPERATING_SCENARIOS);
    assert OPERATING_SCENARIOS[|OPERATING_SCENARIOS| - 1] == "populated_restore";
  }

  function RunSummary(): Json {
    JObject(map[
      "case_count" := JInt(1), "churn_per_hour" := JInt(1), "queue_backlog" := JInt(1), "latency_p95_ms" := JInt(1),
      "retention_horizon_seconds" := JInt(1), "recovery_rto_seconds" := JInt(1)])
  }

  lemma SummaryIsValid(c: RunContext)
    requires c.memberCount == JInt(1)
    ensures ValidSummary(c, RunSummary(), 1)
  {
  }

  predicate RunValues(report: Json, startedAt: string, endedAt: string) {
    && HasFields(report, {"schema_version", "run_id", "workload_id", "cohort_membership_sha256",
                          "artifact_tuple_sha256", "started_at", "ended_at", "truncated",
                          "safety_degraded", "scenarios", "summary", "unavailable_metrics"})
    && Get(report, "schema_version") == JInt(1) && Get(report, "run_id") == JString("r")
    && Get(report, "workload_id") == JString("i") && Get(report, "cohort_membership_sha256") == DIGEST
    && Get(report, "artifact_tuple_sha256") == DIGEST
    && Get(report, "started_at") == JString(startedAt) && Get(report, "ended_at") == JString(endedAt)
    && Get(report, "truncated") == JBool(false) && Get(report, "safety_degraded") == JBool(false)
    && Get(report, "scenarios") == Scenarios() && Get(report, "summary") == RunSummary()
    && Get(report, "unavailable_metrics") == JArray([])
  }

  lemma RunReportFields(startedAt: string, endedAt: string)
    ensures HasFields(RunReport(startedAt, endedAt),
                      {"schema_version", "run_id", "workload_id", "cohort_membership_sha256",
                       "artifact_tuple_sha256", "started_at", "ended_at", "truncated",
                       "safety_degraded", "scenarios", "summary", "unavailable_metrics"})
    ensures var report := RunReport(startedAt, endedAt);
            && Get(report, "started_at") == JString(startedAt) && Get(report, "ended_at") == JString(endedAt)
            && Get(report, "truncated") == JBool(false) && Get(report, "safety_degraded") == JBool(false)
            && Get(report, "scenarios") == Scenarios() && Get(report, "summary") == RunSummary()
            && Get(report, "unavailable_metrics") == JArray([])
  {
  }

  lemma RunReportSubject(startedAt: string, endedAt: string)
    ensures var report := RunReport(startedAt, endedAt);
            && Get(report, "schema_version") == JInt(1) && Get(report, "run_id") == JString("r")
            && Get(report, "workload_id") == JString("i")
  {
  }

  lemma RunReportDigests(startedAt: string, endedAt: string)
    ensures var report := RunReport(startedAt, endedAt);
            Get(report, "cohort_membership_sha256") == DIGEST && Get(report, "artifact_tuple_sha256") == DIGEST
  {
  }

  lemma RunReportHas(startedAt: string, endedAt: string)
    ensures RunValues(RunReport(startedAt, endedAt), startedAt, endedAt)
  {
    RunReportFields(startedAt, endedAt);
    RunReportSubject(startedAt, endedAt);
    RunReportDigests(startedAt, endedAt);
  }

  predicate ExampleContext(c: RunContext) {
    c.workloadId == JString("i") && c.membershipSha256 == DIGEST && c.memberCount == JInt(1)
      && c.artifactDigest == DIGEST
  }

  lemma RunHeader(w: World, c: RunContext, report: Json, startedAt: string, endedAt: string)
    requires Library(w) && ExampleContext(c) && RunValues(report, startedAt, endedAt)
    requires |startedAt| == |endedAt| == 1 && startedAt[0] < endedAt[0]
    ensures ValidRunHeader(w, c, report)
  {
  }

  lemma RunTogether(w: World, c: RunContext, report: Json)
    requires ValidRunHeader(w, c, report) && ValidScenarios(w, Get(report, "scenarios"))
    requires Largest(RecoveryTimes(Get(report, "scenarios"), OPERATING_SCENARIOS)) == 1
    requires ValidSummary(c, Get(report, "summary"), 1) && Get(report, "unavailable_metrics") == JArray([])
    ensures ValidRun(w, c, report)
  {
  }

  lemma RunIsValid(w: World, c: RunContext, report: Json, startedAt: string, endedAt: string)
    requires Library(w) && ExampleContext(c) && RunValues(report, startedAt, endedAt)
    requires |startedAt| == |endedAt| == 1 && startedAt[0] < endedAt[0]
    ensures ValidRun(w, c, report)
  {
    RunHeader(w, c, report, startedAt, endedAt);
    ScenariosAreValid(w);
    LongestRecovery(w);
    SummaryIsValid(c);
    RunTogether(w, c, report);
  }

  // Sign-offs.

  predicate SignoffReportValues(report: Json, role: string, name: string, signedAt: string, seal: Json) {
    && HasFields(report, {"schema_version", "role", "approver", "signed_at", "decision",
                          "artifact_tuple_sha256", "workload_id", "cohort_membership_sha256",
                          "package_sha256", "qualification_evidence_sha256"})
    && Get(report, "schema_version") == JInt(1) && Get(report, "role") == JString(role)
    && Get(report, "approver") == JString(name) && Get(report, "signed_at") == JString(signedAt)
    && Get(report, "decision") == JString("go") && Get(report, "artifact_tuple_sha256") == DIGEST
    && Get(report, "workload_id") == JString("i") && Get(report, "cohort_membership_sha256") == DIGEST
    && Get(report, "package_sha256") == DIGEST && Get(report, "qualification_evidence_sha256") == seal
  }

  lemma SignoffReportHas(role: string, name: string, signedAt: string, seal: Json)
    ensures SignoffReportValues(SignoffReport(role, name, signedAt, seal), role, name, signedAt, seal)
  {
  }

  lemma SignoffIsValid(w: World, v: Fields, b: Binding, value: Json, report: Json, role: string, name: string,
                       signedAt: string)
    requires Library(w) && |signedAt| == 1 && value.JObject? && ReadJson(w, Get(value, "evidence")) == Some(report)
    requires Get(value, "name") == JString(name) && Get(value, "signed_at") == JString(signedAt)
    requires SignoffReportValues(report, role, name, signedAt, b.sealDigest)
    requires (b.sealDigest.JString? || b.sealDigest.JNull?)
    requires b.artifactDigest == DIGEST && b.prerequisitesPassed
    requires v.workloadId == JString("i") && v.membershipSha256 == DIGEST && v.packageDigest == DIGEST
    ensures FinalSignoffValid(w, v, b, value, role)
  {
  }

  lemma ExampleSignoff(w: World, v: Fields, b: Binding, report: Json, role: string, name: string, signedAt: string,
                       path: string, field: RecordField)
    requires Library(w) && Holds(w, path, Some(report))
    requires SignoffReportValues(report, role, name, signedAt, b.sealDigest)
    requires name != "" && |signedAt| == 1 && 'o' < signedAt[0] && (b.sealDigest.JString? || b.sealDigest.JNull?)
    requires b.artifactDigest == DIGEST && b.prerequisitesPassed && v.observationEnd == JString("o")
    requires v.workloadId == JString("i") && v.membershipSha256 == DIGEST && v.packageDigest == DIGEST
    ensures AllHold(SignoffConditions(w, v, b, Approval(name, signedAt, path), role, field))
  {
    var value := Approval(name, signedAt, path);
    ApprovalIsFormed(w, name, signedAt, path, Some(report));
    ApprovalParts(name, signedAt, path);
    ReportBehind(w, path, Some(report));
    SignoffIsValid(w, v, b, value, report, role, name, signedAt);
    SignoffHolds(w, v, b, value, role, field);
  }

  lemma ReportBehind(w: World, path: string, report: Option<Json>)
    requires Holds(w, path, report)
    ensures Verified(w, Reference(path)) && ReadJson(w, Reference(path)) == report
  {
    assert Unfolded(0);
  }

  lemma SignoffHolds(w: World, v: Fields, b: Binding, value: Json, role: string, field: RecordField)
    requires Present(value) ==> ApprovalFormed(w, value) && FinalSignoffValid(w, v, b, value, role)
    requires Time(w, v.observationEnd).Some? && Time(w, Get(value, "signed_at")).Some?
    requires Time(w, v.observationEnd).value < Time(w, Get(value, "signed_at")).value
    ensures AllHold(SignoffConditions(w, v, b, value, role, field))
  {
    AllHoldShort(SignoffConditions(w, v, b, value, role, field));
  }

  lemma SignerIs(w: World, name: string, signedAt: string, path: string)
    requires Library(w)
    ensures SignerNames(w, Approval(name, signedAt, path)) == [name]
    ensures Get(Approval(name, signedAt, path), "evidence") == Reference(path)
  {
    ApprovalParts(name, signedAt, path);
    ApprovalPresent(name, signedAt, path);
  }

  lemma ThreeSigners(w: World, v: Fields, b: Binding)
    requires Library(w) && ExampleSignoffs(v)
    requires GateField(b.gates, "R8", "evidence") == JArray([Reference("1"), Reference("2"), Reference("3")])
    ensures AllHold(SignersConditions(w, v, b))
  {
    SignoffsAre(v);
    SignerIs(w, "x", "p", "1");
    SignerIs(w, "y", "q", "2");
    SignerIs(w, "z", "r", "3");
    Reflexive(SignoffReferences(v));
    SignersAreDistinct(w, v, b);
  }

  lemma SignersAreDistinct(w: World, v: Fields, b: Binding)
    requires SignerNames(w, v.operatorSignoff) == ["x"] && SignerNames(w, v.releaseOwnerSignoff) == ["y"]
    requires SignerNames(w, v.reviewerSignoff) == ["z"]
    requires PyEqual(GateField(b.gates, "R8", "evidence"), SignoffReferences(v))
    ensures AllHold(SignersConditions(w, v, b))
  {
    assert AllSignerNames(w, v) == ["x", "y", "z"];
    AllHoldShort(SignersConditions(w, v, b));
  }

  // Stages.

  lemma StageFrame(w: World, stage: Json, id: string, fields: set<string>, startedAt: string, endedAt: string)
    requires Library(w) && Holds(w, "E", None)
    requires HasFields(stage, {"id", "status", "started_at", "ended_at", "evidence"} + fields)
    requires Get(stage, "id") == JString(id) && Get(stage, "status") == JString("passed")
    requires Get(stage, "started_at") == JString(startedAt) && Get(stage, "ended_at") == JString(endedAt)
    requires |startedAt| == |endedAt| == 1 && startedAt[0] < endedAt[0]
    requires Get(stage, "evidence") == JArray([Reference("E")])
    ensures ValidStageFrame(w, stage, id, fields)
    ensures Timed(w, stage) && Started(w, stage) == startedAt[0] as int && Ended(w, stage) == endedAt[0] as int
  {
    ReportBehind(w, "E", None);
  }

  predicate ExampleStageContext(c: StageContext) {
    && c.workloadId == JString("i") && c.membershipSha256 == DIGEST && c.packageDigest == DIGEST
    && c.policyRevisions == REVISIONS && c.artifactDigest == DIGEST
    && c.coverage.JObject? && Get(c.coverage, "sha256") == DIGEST
    && Get(c.ownerApproval, "evidence").JObject? && Get(Get(c.ownerApproval, "evidence"), "sha256") == DIGEST
    && Get(c.ownerApproval, "signed_at") == JString("g")
    && c.observationStart == JString("n") && c.observationEnd == JString("o")
  }

  /** The stage passes its checks and runs from one letter to the other. */
  ghost predicate StageDone(w: World, c: StageContext, i: nat, stage: Json, startedAt: char, endedAt: char) {
    forall k :: Unfolded(k) ==>
      ValidStage(w, c, i, stage) && Timed(w, stage) && Started(w, stage) == startedAt as int
        && Ended(w, stage) == endedAt as int
  }

  function InstalledOwnFields(): set<string> {
    {"effects_enabled", "admission_verified", "grants_verified", "contract_verified", "core_no_effect_verified"}
  }

  lemma InstalledFrame(w: World)
    requires Library(w) && Holds(w, "E", None)
    ensures ValidStageFrame(w, InstalledStage(), "installed_effects_disabled", InstalledOwnFields())
    ensures Timed(w, InstalledStage()) && Started(w, InstalledStage()) == 'd' as int
    ensures Ended(w, InstalledStage()) == 'e' as int
  {
    StageFrame(w, InstalledStage(), "installed_effects_disabled", InstalledOwnFields(), "d", "e");
  }

  lemma InstalledCounts()
    ensures var stage := InstalledStage();
            && Get(stage, "effects_enabled") == JBool(false)
            && IsTrue(Get(stage, "admission_verified")) && IsTrue(Get(stage, "grants_verified"))
            && IsTrue(Get(stage, "contract_verified")) && IsTrue(Get(stage, "core_no_effect_verified"))
  {
  }

  lemma InstalledHolds(w: World, stage: Json)
    requires ValidStageFrame(w, stage, "installed_effects_disabled", InstalledOwnFields())
    requires Get(stage, "effects_enabled") == JBool(false)
    requires IsTrue(Get(stage, "admission_verified")) && IsTrue(Get(stage, "grants_verified"))
    requires IsTrue(Get(stage, "contract_verified")) && IsTrue(Get(stage, "core_no_effect_verified"))
    ensures ValidInstalled(w, stage)
  {
  }

  lemma InstalledIsValid(w: World, c: StageContext)
    requires Library(w) && Holds(w, "E", None) && ExampleStageContext(c)
    ensures StageDone(w, c, 0, InstalledStage(), 'd', 'e')
  {
    InstalledFrame(w);
    InstalledCounts();
    InstalledHolds(w, InstalledStage());
  }

  function ReviewOwnFields(): set<string> {
    {"coverage_manifest_sha256", "owner_approval_sha256", "complete_population", "owner_reviewed"}
  }

  lemma ReviewHas()
    ensures var stage := ReviewStage();
            && Get(stage, "id") == JString("shadow_review") && Get(stage, "status") == JString("passed")
            && Get(stage, "started_at") == JString("f") && Get(stage, "ended_at") == JString("h")
            && Get(stage, "evidence") == JArray([Reference("E")])
    ensures HasFields(ReviewStage(), {"id", "status", "started_at", "ended_at", "evidence"} + ReviewOwnFields())
    ensures var stage := ReviewStage();
            && Get(stage, "coverage_manifest_sha256") == DIGEST && Get(stage, "owner_approval_sha256") == DIGEST
            && IsTrue(Get(stage, "complete_population")) && IsTrue(Get(stage, "owner_reviewed"))
  {
  }

  lemma ReviewHolds(w: World, c: StageContext, stage: Json)
    requires Library(w) && ExampleStageContext(c) && ValidStageFrame(w, stage, "shadow_review", ReviewOwnFields())
    requires Get(stage, "coverage_manifest_sha256") == DIGEST && Get(stage, "owner_approval_sha256") == DIGEST
    requires IsTrue(Get(stage, "complete_population")) && IsTrue(Get(stage, "owner_reviewed"))
    requires Get(stage, "ended_at") == JString("h")
    ensures ValidShadowReview(w, c, stage)
  {
  }

  lemma ReviewIsValid(w: World, c: StageContext)
    requires Library(w) && Holds(w, "E", None) && ExampleStageContext(c)
    ensures StageDone(w, c, 1, ReviewStage(), 'f', 'h')
  {
    ReviewHas();
    StageFrame(w, ReviewStage(), "shadow_review", ReviewOwnFields(), "f", "h");
    ReviewHolds(w, c, ReviewStage());
  }

  function RoutingOwnFields(): set<string> {
    {"enabled_actions", "applied_queue_controls", "applied_due_at_controls",
     "unauthorized_control_count", "out_of_cohort_control_count", "manual_protection_violation_count"}
  }

  lemma RoutingHas()
    ensures var stage := RoutingStage();
            && Get(stage, "id") == JString("cohort_routing_deadlines") && Get(stage, "status") == JString("passed")
            && Get(stage, "started_at") == JString("i") && Get(stage, "ended_at") == JString("j")
            && Get(stage, "evidence") == JArray([Reference("E")])
    ensures HasFields(RoutingStage(), {"id", "status", "started_at", "ended_at", "evidence"} + RoutingOwnFields())
    ensures var stage := RoutingStage();
            && Get(stage, "enabled_actions") == JArray([JString("ASSIGN_QUEUE"), JString("SET_DUE_AT")])
            && Get(stage, "applied_queue_controls") == JInt(1) && Get(stage, "applied_due_at_controls") == JInt(1)
            && Get(stage, "unauthorized_control_count") == JInt(0)
            && Get(stage, "out_of_cohort_control_count") == JInt(0)
            && Get(stage, "manual_protection_violation_count") == JInt(0)
  {
  }

  lemma RoutingHolds(w: World, stage: Json)
    requires ValidStageFrame(w, stage, "cohort_routing_deadlines", RoutingOwnFields())
    requires Get(stage, "enabled_actions") == JArray([JString("ASSIGN_QUEUE"), JString("SET_DUE_AT")])
    requires Get(stage, "applied_queue_controls") == JInt(1) && Get(stage, "applied_due_at_controls") == JInt(1)
    requires Get(stage, "unauthorized_control_count") == JInt(0) && Get(stage, "out_of_cohort_control_count") == JInt(0)
    requires Get(stage, "manual_protection_violation_count") == JInt(0)
    ensures ValidRouting(w, stage)
  {
  }

  lemma RoutingIsValid(w: World, c: StageContext)
    requires Library(w) && Holds(w, "E", None) && ExampleStageContext(c)
    ensures StageDone(w, c, 2, RoutingStage(), 'i', 'j')
  {
    RoutingHas();
    StageFrame(w, RoutingStage(), "cohort_routing_deadlines", RoutingOwnFields(), "i", "j");
    RoutingHolds(w, RoutingStage());
  }

  lemma EscalationHas()
    ensures var stage := EscalationStage();
            && Get(stage, "id") == JString("bounded_escalation") && Get(stage, "status") == JString("passed")
            && Get(stage, "started_at") == JString("k") && Get(stage, "ended_at") == JString("l")
            && Get(stage, "evidence") == JArray([Reference("E")])
    ensures HasFields(EscalationStage(), {"id", "status", "started_at", "ended_at", "evidence"}
                                         + EscalationOwnFields())
  {
  }

  lemma EscalationCounts()
    ensures var stage := EscalationStage();
            && Get(stage, "enabled_action") == JString("ESCALATE")
            && Get(stage, "enabled_after") == JString("cohort_routing_deadlines")
            && Get(stage, "maximum_level") == JInt(1) && Get(stage, "applied_escalation_control_count") == JInt(1)
            && IsTrue(Get(stage, "routing_deadline_tests_healthy")) && IsTrue(Get(stage, "real_time_tests_healthy"))
            && Get(stage, "applied_above_maximum_count") == JInt(0)
            && Get(stage, "duplicate_applied_control_count") == JInt(0)
            && Get(stage, "stale_binding_acceptance_count") == JInt(0)
            && Get(stage, "manual_protection_violation_count") == JInt(0)
  {
  }

  function EscalationOwnFields(): set<string> {
    {"enabled_action", "enabled_after", "maximum_level", "applied_escalation_control_count",
     "routing_deadline_tests_healthy", "real_time_tests_healthy", "applied_above_maximum_count",
     "duplicate_applied_control_count", "stale_binding_acceptance_count",
     "manual_protection_violation_count"}
  }

  lemma EscalationHolds(w: World, stage: Json)
    requires ValidStageFrame(w, stage, "bounded_escalation", EscalationOwnFields())
    requires Get(stage, "enabled_action") == JString("ESCALATE")
    requires Get(stage, "enabled_after") == JString("cohort_routing_deadlines")
    requires Get(stage, "maximum_level") == JInt(1) && Get(stage, "applied_escalation_control_count") == JInt(1)
    requires IsTrue(Get(stage, "routing_deadline_tests_healthy")) && IsTrue(Get(stage, "real_time_tests_healthy"))
    requires Get(stage, "applied_above_maximum_count") == JInt(0)
    requires Get(stage, "duplicate_applied_control_count") == JInt(0)
    requires Get(stage, "stale_binding_acceptance_count") == JInt(0)
    requires Get(stage, "manual_protection_violation_count") == JInt(0)
    ensures ValidEscalation(w, stage)
  {
  }

  lemma EscalationIsValid(w: World, c: StageContext)
    requires Library(w) && Holds(w, "E", None) && ExampleStageContext(c)
    ensures StageDone(w, c, 3, EscalationStage(), 'k', 'l')
  {
    EscalationHas();
    EscalationCounts();
    StageFrame(w, EscalationStage(), "bounded_escalation", EscalationOwnFields(), "k", "l");
    EscalationHolds(w, EscalationStage());
  }

  lemma SupportedFrame(w: World)
    requires Library(w) && Holds(w, "E", None)
    ensures ValidStageFrame(w, SupportedStage(), "supported_profile",
                            {"thresholds_met", "truncated", "safety_degraded"})
    ensures Timed(w, SupportedStage()) && Started(w, SupportedStage()) == 'n' as int
    ensures Ended(w, SupportedStage()) == 'o' as int
  {
    StageFrame(w, SupportedStage(), "supported_profile", {"thresholds_met", "truncated", "safety_degraded"}, "n", "o");
  }

  lemma SupportedIsValid(w: World, c: StageContext)
    requires Library(w) && Holds(w, "E", None) && ExampleStageContext(c)
    ensures StageDone(w, c, 4, SupportedStage(), 'n', 'o')
  {
    SupportedFrame(w);
  }

  predicate StagesReportValues(report: Json) {
    && HasFields(report, {"schema_version", "workload_id", "cohort_membership_sha256",
                          "cohort_package_sha256", "policy_revisions", "artifact_tuple_sha256", "stages"})
    && Get(report, "schema_version") == JInt(1) && Get(report, "workload_id") == JString("i")
    && Get(report, "cohort_membership_sha256") == DIGEST && Get(report, "cohort_package_sha256") == DIGEST
    && Get(report, "policy_revisions") == REVISIONS && Get(report, "artifact_tuple_sha256") == DIGEST
    && Get(report, "stages") == JArray(ExampleStages())
  }

  lemma StagesReportHas()
    ensures StagesReportValues(StagesReport())
  {
  }

  lemma StagesHeader(w: World, c: StageContext, report: Json)
    requires Library(w) && ExampleStageContext(c) && StagesReportValues(report)
    ensures ValidStagesHeader(w, c, report)
  {
    Reflexive(REVISIONS);
  }

  lemma StagesTogether(w: World, c: StageContext, report: Json, stages: seq<Json>, starts: string, ends: string)
    requires |stages| == |starts| == |ends| == 5 && Get(report, "stages") == JArray(stages)
    requires ValidStagesHeader(w, c, report)
    requires forall i :: 0 <= i < 5 ==> StageDone(w, c, i, stages[i], starts[i], ends[i])
    requires forall i, j :: 0 <= i < j < 5 ==> ends[i] <= starts[j]
    ensures ValidStages(w, c, report)
  {
    assert Unfolded(0);
    forall i | 0 <= i < 5 ensures ValidStage(w, c, i, stages[i]) && Timed(w, stages[i]) {
      assert StageDone(w, c, i, stages[i], starts[i], ends[i]);
    }
    forall i, j | 0 <= i < j < 5 ensures Ended(w, stages[i]) <= Started(w, stages[j]) {
      assert StageDone(w, c, i, stages[i], starts[i], ends[i]) && StageDone(w, c, j, stages[j], starts[j], ends[j]);
    }
  }

  lemma StagesByIndex(w: World, c: StageContext, stages: seq<Json>, starts: string, ends: string)
    requires |stages| == |starts| == |ends| == 5
    requires StageDone(w, c, 0, stages[0], starts[0], ends[0]) && StageDone(w, c, 1, stages[1], starts[1], ends[1])
    requires StageDone(w, c, 2, stages[2], starts[2], ends[2]) && StageDone(w, c, 3, stages[3], starts[3], ends[3])
    requires StageDone(w, c, 4, stages[4], starts[4], ends[4])
    ensures forall i :: 0 <= i < 5 ==> StageDone(w, c, i, stages[i], starts[i], ends[i])
  {
    forall i | 0 <= i < 5 ensures StageDone(w, c, i, stages[i], starts[i], ends[i]) {
      if i == 0 {
      } else if i == 1 {
      } else if i == 2 {
      } else if i == 3 {
      } else {
        assert i == 4;
      }
    }
  }

  lemma FiveStages(w: World, c: StageContext, report: Json, stages: seq<Json>, starts: string, ends: string)
    requires |stages| == |starts| == |ends| == 5 && Get(report, "stages") == JArray(stages)
    requires ValidStagesHeader(w, c, report)
    requires StageDone(w, c, 0, stages[0], starts[0], ends[0]) && StageDone(w, c, 1, stages[1], starts[1], ends[1])
    requires StageDone(w, c, 2, stages[2], starts[2], ends[2]) && StageDone(w, c, 3, stages[3], starts[3], ends[3])
    requires StageDone(w, c, 4, stages[4], starts[4], ends[4])
    requires forall i, j :: 0 <= i < j < 5 ==> ends[i] <= starts[j]
    ensures ValidStages(w, c, report)
  {
    StagesByIndex(w, c, stages, starts, ends);
    StagesTogether(w, c, report, stages, starts, ends);
  }

  lemma StageLetters(stages: seq<Json>)
    requires stages == ExampleStages()
    ensures |stages| == 5 && stages[0] == InstalledStage() && stages[1] == ReviewStage() && stages[2] == RoutingStage()
    ensures stages[3] == EscalationStage() && stages[4] == SupportedStage()
    ensures forall i, j :: 0 <= i < j < 5 ==> "ehjlo"[i] <= "dfikn"[j]
  {
  }

  lemma ExampleStagesDone(w: World, c: StageContext, report: Json, stages: seq<Json>)
    requires Library(w) && Holds(w, "E", None) && ExampleStageContext(c) && ValidStagesHeader(w, c, report)
    requires stages == ExampleStages() && Get(report, "stages") == JArray(stages)
    ensures ValidStages(w, c, report)
  {
    InstalledIsValid(w, c);
    ReviewIsValid(w, c);
    RoutingIsValid(w, c);
    EscalationIsValid(w, c);
    SupportedIsValid(w, c);
    StageLetters(stages);
    FiveStages(w, c, report, stages, "dfikn", "ehjlo");
  }

  lemma ExampleStagesValid(w: World, c: StageContext, report: Json)
    requires Library(w) && Holds(w, "E", None) && ExampleStageContext(c) && StagesReportValues(report)
    ensures ValidStages(w, c, report)
  {
    StagesHeader(w, c, report);
    ExampleStagesDone(w, c, report, Get(report, "stages").items);
  }

  // All groups together.

  /** Like Unfolded, for one definition at a time. */
  predicate Shown(definition: nat, k: nat) {
    true
  }

  const FILES: nat := 1
  const BINDING: nat := 3
  const SETTING: nat := 4
  const POPULATION_REPORTS: nat := 11
  const OWNER_REPORT: nat := 12
  const THRESHOLD_REPORTS: nat := 13
  const RUN_REPORTS: nat := 14
  const SIGNOFF_REPORTS: nat := 15
  const STAGES_REPORT: nat := 16

  ghost predicate Right(r: Reports, note: Json, seal: Json) {
    && (forall k :: Shown(POPULATION_REPORTS, k) ==>
          r.membership == MembershipReport() && r.coverage == JArray([ExampleResult()]))
    && (forall k :: Shown(OWNER_REPORT, k) ==> r.owner == OwnerReport())
    && (forall k :: Shown(THRESHOLD_REPORTS, k) ==>
          && r.operatorThresholds == ThresholdReport("operator", "x", "c", note)
          && r.releaseOwnerThresholds == ThresholdReport("release_owner", "y", "d", note))
    && (forall k :: Shown(RUN_REPORTS, k) ==> r.baseline == RunReport("a", "b") && r.final == RunReport("n", "o"))
    && (forall k :: Shown(SIGNOFF_REPORTS, k) ==>
          && r.operator == SignoffReport("operator", "x", "p", seal)
          && r.releaseOwner == SignoffReport("release_owner", "y", "q", seal)
          && r.reviewer == SignoffReport("independent_reviewer", "z", "r", seal))
    && (forall k :: Shown(STAGES_REPORT, k) ==> r.stages == StagesReport())
  }

  ghost predicate Files(w: World, r: Reports) {
    forall k :: Shown(FILES, k) ==>
      && Holds(w, "M", Some(r.membership)) && Holds(w, "C", Some(r.coverage)) && Holds(w, "W", Some(r.owner))
      && Holds(w, "O", Some(r.operatorThresholds)) && Holds(w, "R", Some(r.releaseOwnerThresholds))
      && Holds(w, "B", Some(r.baseline)) && Holds(w, "F", Some(r.final)) && Holds(w, "G", Some(r.stages))
      && Holds(w, "1", Some(r.operator)) && Holds(w, "2", Some(r.releaseOwner)) && Holds(w, "3", Some(r.reviewer))
      && Holds(w, "X", None) && Holds(w, "K", None) && Holds(w, "E", None)
  }

  ghost predicate ExampleBinding(b: Binding) {
    forall k :: Shown(BINDING, k) ==>
      && b.artifactDigest == DIGEST && b.prerequisitesPassed && (b.sealDigest.JString? || b.sealDigest.JNull?)
      && Passed(b.gates, "R6")
      && GateField(b.gates, "R4", "evidence") == JArray([Reference("G")])
      && GateField(b.gates, "R6", "evidence") == JArray([Reference("F")])
      && GateField(b.gates, "R8", "evidence") == JArray([Reference("1"), Reference("2"), Reference("3")])
  }

  ghost predicate Setting(w: World, v: Fields, b: Binding, note: Json, f: Findings, r: Reports) {
    forall k :: Shown(SETTING, k) ==>
      && Library(w) && Files(w, r) && Right(r, note, b.sealDigest) && ExampleBinding(b)
      && ExampleWorkload(v) && ExampleCohort(v) && ExampleShadow(v) && ExampleEnvelope(v, note)
      && ExampleDocuments(v) && ExampleSignoffs(v)
      && f.partitioned && f.rowCount == 1 && f.duplicates == 0 && f.stagesValid
      && f.baseline == Some(r.baseline) && f.final == Some(r.final)
  }

  // The reports, one by one.

  lemma PopulationReportsAre(r: Reports, note: Json, seal: Json)
    requires Right(r, note, seal)
    ensures r.membership == MembershipReport()
    ensures r.coverage == JArray([ExampleResult()])
  {
    assert Shown(POPULATION_REPORTS, 0);
  }

  lemma OwnerIs(r: Reports, note: Json, seal: Json)
    requires Right(r, note, seal)
    ensures OwnerReportValues(r.owner)
  {
    assert Shown(OWNER_REPORT, 0);
    OwnerReportHas();
  }

  lemma ThresholdReportsAre(r: Reports, note: Json, seal: Json)
    requires Right(r, note, seal)
    ensures ThresholdReportValues(r.operatorThresholds, "operator", "x", "c", Thresholds(note))
    ensures ThresholdReportValues(r.releaseOwnerThresholds, "release_owner", "y", "d", Thresholds(note))
  {
    assert Shown(THRESHOLD_REPORTS, 0);
    ThresholdReportHas("operator", "x", "c", note);
    ThresholdReportHas("release_owner", "y", "d", note);
  }

  lemma RunsAre(r: Reports, note: Json, seal: Json)
    requires Right(r, note, seal)
    ensures RunValues(r.baseline, "a", "b") && RunValues(r.final, "n", "o")
  {
    assert Shown(RUN_REPORTS, 0);
    RunReportHas("a", "b");
    RunReportHas("n", "o");
  }

  lemma RunTimesAre(r: Reports, note: Json, seal: Json)
    requires Right(r, note, seal)
    ensures Get(r.baseline, "started_at") == JString("a") && Get(r.baseline, "ended_at") == JString("b")
    ensures Get(r.final, "started_at") == JString("n") && Get(r.final, "ended_at") == JString("o")
  {
    RunsAre(r, note, seal);
  }

  lemma SignoffReportsAre(r: Reports, note: Json, seal: Json)
    requires Right(r, note, seal)
    ensures SignoffReportValues(r.operator, "operator", "x", "p", seal)
    ensures SignoffReportValues(r.releaseOwner, "release_owner", "y", "q", seal)
    ensures SignoffReportValues(r.reviewer, "independent_reviewer", "z", "r", seal)
  {
    assert Shown(SIGNOFF_REPORTS, 0);
    SignoffReportHas("operator", "x", "p", seal);
    SignoffReportHas("release_owner", "y", "q", seal);
    SignoffReportHas("independent_reviewer", "z", "r", seal);
  }

  lemma StagesAre(r: Reports, note: Json, seal: Json)
    requires Right(r, note, seal)
    ensures StagesReportValues(r.stages)
  {
    assert Shown(STAGES_REPORT, 0);
    StagesReportHas();
  }

  // The record's values, where several groups need them.

  lemma PopulationIs(v: Fields)
    requires ExampleShadow(v)
    ensures v.referencePopulationSha256 == DIGEST && v.ownerApproval == Approval("w", "g", "W")
  {
    assert Unfolded(0);
  }

  lemma EnvelopeIs(v: Fields, note: Json)
    requires ExampleEnvelope(v, note)
    ensures v.thresholds == Thresholds(note) && v.observationStart == JString("n") && v.observationEnd == JString("o")
    ensures v.operatorThresholdApproval == Approval("x", "c", "O")
    ensures v.releaseOwnerThresholdApproval == Approval("y", "d", "R")
  {
    assert Unfolded(0);
  }

  lemma SignoffsAre(v: Fields)
    requires ExampleSignoffs(v)
    ensures v.operatorSignoff == Approval("x", "p", "1") && v.releaseOwnerSignoff == Approval("y", "q", "2")
    ensures v.reviewerSignoff == Approval("z", "r", "3")
  {
    assert Unfolded(0);
  }

  lemma SubjectIs(v: Fields)
    requires ExampleWorkload(v) && ExampleCohort(v)
    ensures v.workloadId == JString("i") && v.membershipSha256 == DIGEST && v.packageDigest == DIGEST
  {
    assert Unfolded(0);
  }

  lemma ExampleBetween(w: World, name: string, signedAt: string, path: string, f: Findings, field: RecordField)
    requires Library(w) && |signedAt| == 1 && 'b' < signedAt[0] < 'n' && f.baseline.Some? && f.final.Some?
    requires Get(f.baseline.value, "started_at") == JString("a") && Get(f.baseline.value, "ended_at") == JString("b")
    requires Get(f.final.value, "started_at") == JString("n") && Get(f.final.value, "ended_at") == JString("o")
    ensures AllHold(BetweenConditions(w, Approval(name, signedAt, path), f, field))
  {
    ApprovalParts(name, signedAt, path);
    AllHoldShort(BetweenConditions(w, Approval(name, signedAt, path), f, field));
  }

  lemma SummaryHas()
    ensures var j := RunSummary();
            && Get(j, "case_count") == JInt(1) && Get(j, "churn_per_hour") == JInt(1)
            && Get(j, "queue_backlog") == JInt(1)
            && Get(j, "latency_p95_ms") == JInt(1) && Get(j, "retention_horizon_seconds") == JInt(1)
            && Get(j, "recovery_rto_seconds") == JInt(1)
  {
  }

  lemma EnvelopeHolds(w: World, v: Fields, f: Findings, summary: Json)
    requires f.final.Some? && Get(f.final.value, "summary") == summary && ThresholdValues(v.thresholds)
    requires Get(f.final.value, "started_at") == v.observationStart
    requires Get(f.final.value, "ended_at") == v.observationEnd
    requires Get(summary, "case_count") == Get(summary, "churn_per_hour") == Get(summary, "queue_backlog") == JInt(1)
    requires Get(summary, "latency_p95_ms") == Get(summary, "retention_horizon_seconds")
      == Get(summary, "recovery_rto_seconds") == JInt(1)
    ensures AllHold(EnvelopeConditions(w, v, f))
  {
    AllHoldShort(EnvelopeConditions(w, v, f));
  }

  // Group by group.

  lemma MembershipOf(w: World, v: Fields, b: Binding, note: Json, f: Findings, r: Reports)
    requires Setting(w, v, b, note, f, r)
    ensures AllHold(MembershipConditions(w, v))
  {
    assert Shown(SETTING, 0);
    MembershipFound(w, v, r, note, b.sealDigest);
  }

  lemma MembershipFound(w: World, v: Fields, r: Reports, note: Json, seal: Json)
    requires Library(w) && Files(w, r) && Right(r, note, seal) && ExampleCohort(v) && ExampleShadow(v)
    ensures FrozenMembership(w, v) == Some(Membership(JString("u"), [1])) && AllHold(MembershipConditions(w, v))
  {
    PopulationIsRetained(w, r);
    PopulationIs(v);
    PopulationReportsAre(r, note, seal);
    ExampleMembership(w, v, r.membership);
  }

  lemma CoverageOf(w: World, v: Fields, b: Binding, note: Json, f: Findings, r: Reports)
    requires Setting(w, v, b, note, f, r)
    ensures AllHold(CoverageConditions(w, v, f)) && AllHold(TotalConditions(v))
  {
    assert Shown(SETTING, 0);
    PopulationIsRetained(w, r);
    PopulationReportsAre(r, note, b.sealDigest);
    MembershipFound(w, v, r, note, b.sealDigest);
    ExampleCoverage(w, v, f, r.coverage);
  }

  lemma OwnerSigns(w: World, v: Fields, b: Binding, note: Json, f: Findings, r: Reports)
    requires Setting(w, v, b, note, f, r)
    ensures OwnerApprovalValid(w, v)
  {
    assert Shown(SETTING, 0) && Shown(FILES, 0);
    OwnerIs(r, note, b.sealDigest);
    ExampleOwner(w, v, r.owner);
  }

  lemma ThresholdsSigned(w: World, v: Fields, b: Binding, note: Json, f: Findings, r: Reports)
    requires Setting(w, v, b, note, f, r)
    ensures ThresholdApprovalValid(w, v, v.operatorThresholdApproval, "operator")
    ensures ThresholdApprovalValid(w, v, v.releaseOwnerThresholdApproval, "release_owner")
  {
    assert Shown(SETTING, 0) && Shown(FILES, 0);
    EnvelopeIs(v, note);
    ThresholdReportsAre(r, note, b.sealDigest);
    ExampleThresholds(w, v, note, r.operatorThresholds, "operator", "x", "c", "O");
    ExampleThresholds(w, v, note, r.releaseOwnerThresholds, "release_owner", "y", "d", "R");
  }

  lemma ReportsSigned(w: World, v: Fields)
    requires OwnerApprovalValid(w, v)
    requires ThresholdApprovalValid(w, v, v.operatorThresholdApproval, "operator")
    requires ThresholdApprovalValid(w, v, v.releaseOwnerThresholdApproval, "release_owner")
    ensures AllHold(ApprovalReportConditions(w, v))
  {
    AllHoldShort(ApprovalReportConditions(w, v));
  }

  lemma FinalIs(w: World, v: Fields, b: Binding, note: Json, f: Findings, r: Reports)
    requires Setting(w, v, b, note, f, r)
    ensures f.final == Some(r.final) && Right(r, note, b.sealDigest) && ExampleEnvelope(v, note)
  {
    assert Shown(SETTING, 0);
  }

  lemma InEnvelope(w: World, v: Fields, b: Binding, note: Json, f: Findings, r: Reports)
    requires Setting(w, v, b, note, f, r)
    ensures AllHold(EnvelopeConditions(w, v, f))
  {
    FinalIs(w, v, b, note, f, r);
    EnvelopeIs(v, note);
    ThresholdsHas(note);
    RunsAre(r, note, b.sealDigest);
    SummaryHas();
    EnvelopeHolds(w, v, f, RunSummary());
  }

  lemma OperatorSigns(w: World, v: Fields, b: Binding, note: Json, f: Findings, r: Reports)
    requires Setting(w, v, b, note, f, r)
    ensures AllHold(SignoffConditions(w, v, b, v.operatorSignoff, "operator", OperatorSignoff))
  {
    assert Shown(SETTING, 0) && Shown(FILES, 0) && Shown(BINDING, 0);
    SignoffsAre(v);
    SubjectIs(v);
    EnvelopeIs(v, note);
    SignoffReportsAre(r, note, b.sealDigest);
    ExampleSignoff(w, v, b, r.operator, "operator", "x", "p", "1", OperatorSignoff);
  }

  lemma ReleaseOwnerSigns(w: World, v: Fields, b: Binding, note: Json, f: Findings, r: Reports)
    requires Setting(w, v, b, note, f, r)
    ensures AllHold(SignoffConditions(w, v, b, v.releaseOwnerSignoff, "release_owner", ReleaseOwnerSignoff))
  {
    assert Shown(SETTING, 0) && Shown(FILES, 0) && Shown(BINDING, 0);
    SignoffsAre(v);
    SubjectIs(v);
    EnvelopeIs(v, note);
    SignoffReportsAre(r, note, b.sealDigest);
    ExampleSignoff(w, v, b, r.releaseOwner, "release_owner", "y", "q", "2", ReleaseOwnerSignoff);
  }

  lemma ReviewerSigns(w: World, v: Fields, b: Binding, note: Json, f: Findings, r: Reports)
    requires Setting(w, v, b, note, f, r)
    ensures AllHold(SignoffConditions(w, v, b, v.reviewerSignoff, "independent_reviewer", ReviewerSignoff))
  {
    assert Shown(SETTING, 0) && Shown(FILES, 0) && Shown(BINDING, 0);
    SignoffsAre(v);
    SubjectIs(v);
    EnvelopeIs(v, note);
    SignoffReportsAre(r, note, b.sealDigest);
    ExampleSignoff(w, v, b, r.reviewer, "independent_reviewer", "z", "r", "3", ReviewerSignoff);
  }

  lemma RetentionOf(w: World, v: Fields, b: Binding, note: Json, f: Findings, r: Reports)
    requires Setting(w, v, b, note, f, r)
    ensures AllHold(RetentionConditions(w, v))
  {
    assert Shown(SETTING, 0) && Shown(FILES, 0);
    ExampleRetention(w, v, r.membership, r.coverage);
  }

  lemma OwnerFormed(w: World, v: Fields, b: Binding, note: Json, f: Findings, r: Reports)
    requires Setting(w, v, b, note, f, r)
    ensures AllHold(FormConditions(w, v.ownerApproval, OwnerApproval))
  {
    assert Shown(SETTING, 0) && Shown(FILES, 0);
    PopulationIs(v);
    ApprovalIsFormed(w, "w", "g", "W", Some(r.owner));
  }

  lemma ThresholdsFormed(w: World, v: Fields, b: Binding, note: Json, f: Findings, r: Reports)
    requires Setting(w, v, b, note, f, r)
    ensures AllHold(FormConditions(w, v.operatorThresholdApproval, OperatorThresholds))
    ensures AllHold(FormConditions(w, v.releaseOwnerThresholdApproval, ReleaseOwnerThresholds))
  {
    assert Shown(SETTING, 0) && Shown(FILES, 0);
    EnvelopeIs(v, note);
    ApprovalIsFormed(w, "x", "c", "O", Some(r.operatorThresholds));
    ApprovalIsFormed(w, "y", "d", "R", Some(r.releaseOwnerThresholds));
  }

  lemma AllSigned(w: World, v: Fields, b: Binding, note: Json, f: Findings, r: Reports)
    requires Setting(w, v, b, note, f, r)
    ensures AllHold(ApprovalReportConditions(w, v))
  {
    OwnerSigns(w, v, b, note, f, r);
    ThresholdsSigned(w, v, b, note, f, r);
    ReportsSigned(w, v);
  }

  lemma OperatorBetween(w: World, v: Fields, b: Binding, note: Json, f: Findings, r: Reports)
    requires Setting(w, v, b, note, f, r)
    ensures AllHold(BetweenConditions(w, v.operatorThresholdApproval, f, OperatorThresholds))
  {
    assert Shown(SETTING, 0);
    EnvelopeIs(v, note);
    RunTimesAre(r, note, b.sealDigest);
    ExampleBetween(w, "x", "c", "O", f, OperatorThresholds);
  }

  lemma ReleaseOwnerBetween(w: World, v: Fields, b: Binding, note: Json, f: Findings, r: Reports)
    requires Setting(w, v, b, note, f, r)
    ensures AllHold(BetweenConditions(w, v.releaseOwnerThresholdApproval, f, ReleaseOwnerThresholds))
  {
    assert Shown(SETTING, 0);
    EnvelopeIs(v, note);
    RunTimesAre(r, note, b.sealDigest);
    ExampleBetween(w, "y", "d", "R", f, ReleaseOwnerThresholds);
  }

  lemma SignersHold(w: World, v: Fields, b: Binding, note: Json, f: Findings, r: Reports)
    requires Setting(w, v, b, note, f, r)
    ensures AllHold(SignersConditions(w, v, b))
  {
    assert Shown(SETTING, 0) && Shown(BINDING, 0);
    ThreeSigners(w, v, b);
  }

  /** The conditions on the record alone. */
  lemma RecordHolds(w: World, v: Fields, b: Binding, note: Json, f: Findings, r: Reports)
    requires Setting(w, v, b, note, f, r)
    ensures AllHold(FormatConditions(w, v)) && AllHold(CountConditions(v)) && AllHold(LimitConditions(v))
    ensures AllHold(WindowConditions(w, v)) && AllHold(DocumentConditions(w, v))
  {
    assert Shown(SETTING, 0);
    PopulationIs(v);
    ExampleFormats(w, v);
    ExampleCountFormats(v);
    EnvelopeIs(v, note);
    ThresholdsHas(note);
    ExampleLimits(v);
    ExampleWindow(w, v, note);
    ExampleSupport(w, v);
  }

  lemma RunsHold(w: World, v: Fields, b: Binding, note: Json, f: Findings, r: Reports)
    requires Setting(w, v, b, note, f, r)
    ensures f.baseline.Some? && f.final.Some? && f.stagesValid
  {
    assert Shown(SETTING, 0);
  }

  lemma ExampleValid(w: World, v: Fields, b: Binding, note: Json, f: Findings, r: Reports)
    requires Setting(w, v, b, note, f, r) && Found(w, v, b, f)
    ensures NothingInvalid(w, v, b)
  {
    RecordHolds(w, v, b, note, f, r);
    MembershipOf(w, v, b, note, f, r);
    CoverageOf(w, v, b, note, f, r);
    RetentionOf(w, v, b, note, f, r);
    OwnerFormed(w, v, b, note, f, r);
    ThresholdsFormed(w, v, b, note, f, r);
    AllSigned(w, v, b, note, f, r);
    RunsHold(w, v, b, note, f, r);
    OperatorBetween(w, v, b, note, f, r);
    ReleaseOwnerBetween(w, v, b, note, f, r);
    InEnvelope(w, v, b, note, f, r);
    OperatorSigns(w, v, b, note, f, r);
    ReleaseOwnerSigns(w, v, b, note, f, r);
    ReviewerSigns(w, v, b, note, f, r);
    SignersHold(w, v, b, note, f, r);
    NothingInvalidFrom(w, v, b, f);
  }

  // What the evidence files hold.

  lemma PartitionHolds(w: World, v: Fields, r: Reports, note: Json, seal: Json)
    requires Library(w) && Files(w, r) && Right(r, note, seal) && ExampleCohort(v) && ExampleShadow(v)
    ensures PartitionFound(w, v) && RowsFound(w, v) == [1]
  {
    PopulationIsRetained(w, r);
    PopulationReportsAre(r, note, seal);
    MembershipFound(w, v, r, note, seal);
    CoverageRead(w, v, r.coverage);
    RevisionsAre(v);
    PartitionOf(w, v, Membership(JString("u"), [1]));
  }

  lemma PopulationIsRetained(w: World, r: Reports)
    requires Files(w, r)
    ensures Holds(w, "M", Some(r.membership)) && Holds(w, "C", Some(r.coverage))
  {
    assert Shown(FILES, 0);
  }

  lemma RevisionsAre(v: Fields)
    requires ExampleCohort(v)
    ensures v.policyRevisions == REVISIONS
  {
    assert Unfolded(0);
  }

  lemma PartitionOf(w: World, v: Fields, m: Membership)
    requires Library(w) && m == Membership(JString("u"), [1]) && v.policyRevisions == REVISIONS
    ensures Partitions(w, v, m, JArray([ExampleResult()])) && Counted(w, v, m, JArray([ExampleResult()])) == [1]
  {
    ExamplePartition(w, m);
  }

  lemma RunFound(w: World, v: Fields, b: Binding, reference: Json, report: Json, startedAt: string, endedAt: string)
    requires Library(w) && ReadJson(w, reference) == Some(report) && report == RunReport(startedAt, endedAt)
    requires |startedAt| == |endedAt| == 1 && startedAt[0] < endedAt[0] && ExampleContext(Runs(v, b))
    ensures RunBehind(w, v, b, reference) == Some(report)
  {
    RunReportHas(startedAt, endedAt);
    RunIsValid(w, Runs(v, b), report, startedAt, endedAt);
  }

  lemma ContextIs(v: Fields, b: Binding)
    requires ExampleWorkload(v) && ExampleCohort(v) && b.artifactDigest == DIGEST
    ensures ExampleContext(Runs(v, b))
  {
    assert Unfolded(0);
  }

  lemma StageContextIs(v: Fields, b: Binding, note: Json)
    requires ExampleWorkload(v) && ExampleCohort(v) && ExampleShadow(v) && ExampleEnvelope(v, note)
    requires b.artifactDigest == DIGEST
    ensures ExampleStageContext(Stages(v, b))
  {
    assert Unfolded(0);
    ApprovalParts("w", "g", "W");
  }

  lemma BaselineIs(v: Fields, note: Json)
    requires ExampleEnvelope(v, note)
    ensures v.baselineEvidence == Reference("B") && Present(v.baselineEvidence)
  {
    assert Unfolded(0);
    ApprovalPresent("", "", "B");
  }

  lemma TheRunsAre(r: Reports, note: Json, seal: Json)
    requires Right(r, note, seal)
    ensures r.baseline == RunReport("a", "b") && r.final == RunReport("n", "o")
  {
    assert Shown(RUN_REPORTS, 0);
  }

  lemma RunsAreRetained(w: World, r: Reports)
    requires Files(w, r)
    ensures ReadJson(w, Reference("B")) == Some(r.baseline) && ReadJson(w, Reference("F")) == Some(r.final)
  {
    assert Shown(FILES, 0);
    ReportBehind(w, "B", Some(r.baseline));
    ReportBehind(w, "F", Some(r.final));
  }

  lemma BoundReferences(b: Binding)
    requires ExampleBinding(b)
    ensures b.artifactDigest == DIGEST && Passed(b.gates, "R6") && FinalReference(b) == Reference("F")
  {
    assert Shown(BINDING, 0);
  }

  lemma BaselineHolds(w: World, v: Fields, b: Binding, r: Reports, note: Json, seal: Json)
    requires Library(w) && Files(w, r) && Right(r, note, seal) && ExampleBinding(b)
    requires ExampleWorkload(v) && ExampleCohort(v) && ExampleEnvelope(v, note)
    ensures BaselineRun(w, v, b) == Some(r.baseline)
  {
    TheRunsAre(r, note, seal);
    RunsAreRetained(w, r);
    BoundReferences(b);
    ContextIs(v, b);
    BaselineIs(v, note);
    RunFound(w, v, b, Reference("B"), r.baseline, "a", "b");
  }

  lemma FinalHolds(w: World, v: Fields, b: Binding, r: Reports, note: Json, seal: Json)
    requires Library(w) && Files(w, r) && Right(r, note, seal) && ExampleBinding(b)
    requires ExampleWorkload(v) && ExampleCohort(v)
    ensures FinalRun(w, v, b) == Some(r.final)
  {
    TheRunsAre(r, note, seal);
    RunsAreRetained(w, r);
    BoundReferences(b);
    ContextIs(v, b);
    RunFound(w, v, b, Reference("F"), r.final, "n", "o");
  }

  lemma StagesHold(w: World, v: Fields, b: Binding, r: Reports, note: Json, seal: Json)
    requires Library(w) && Files(w, r) && Right(r, note, seal) && ExampleBinding(b)
    requires ExampleWorkload(v) && ExampleCohort(v) && ExampleShadow(v) && ExampleEnvelope(v, note)
    ensures StagesFound(w, v, b)
  {
    StagesAreRetained(w, r);
    BoundReferences(b);
    StagesAre(r, note, seal);
    StageContextIs(v, b, note);
    ExampleStagesValid(w, Stages(v, b), r.stages);
    StagesBehind(w, v, b, r.stages);
  }

  lemma StagesAreRetained(w: World, r: Reports)
    requires Files(w, r)
    ensures ReadJson(w, Reference("G")) == Some(r.stages) && Holds(w, "E", None)
  {
    assert Shown(FILES, 0);
    ReportBehind(w, "G", Some(r.stages));
  }

  lemma StagesBehind(w: World, v: Fields, b: Binding, report: Json)
    requires ReadJson(w, Reference("G")) == Some(report) && ExampleBinding(b) && ValidStages(w, Stages(v, b), report)
    ensures StagesFound(w, v, b)
  {
    assert Shown(BINDING, 0);
  }

  lemma FindingsAre(w: World, v: Fields, b: Binding, note: Json, f: Findings, r: Reports)
    requires Library(w) && Files(w, r) && Right(r, note, b.sealDigest) && ExampleBinding(b) && Found(w, v, b, f)
    requires ExampleWorkload(v) && ExampleCohort(v) && ExampleShadow(v) && ExampleEnvelope(v, note)
    ensures f.partitioned && f.rowCount == 1 && f.duplicates == 0 && f.stagesValid
    ensures f.baseline == Some(r.baseline) && f.final == Some(r.final)
  {
    PartitionIsOne(w, v, b, note, f, r);
    RunsAreThese(w, v, b, f);
    BaselineHolds(w, v, b, r, note, b.sealDigest);
    FinalHolds(w, v, b, r, note, b.sealDigest);
    StagesHold(w, v, b, r, note, b.sealDigest);
    StagesAreFound(w, v, b, f);
  }

  lemma PartitionIsOne(w: World, v: Fields, b: Binding, note: Json, f: Findings, r: Reports)
    requires Library(w) && Files(w, r) && Right(r, note, b.sealDigest) && Found(w, v, b, f)
    requires ExampleCohort(v) && ExampleShadow(v)
    ensures f.partitioned && f.rowCount == 1 && f.duplicates == 0
  {
    PartitionHolds(w, v, r, note, b.sealDigest);
    PartitionIsFound(w, v, b, f);
    OneElement();
  }

  lemma OneElement()
    ensures Elements([1]) == {1} && |Elements([1])| == 1
  {
  }

  lemma ExampleSetting(w: World, v: Fields, b: Binding, note: Json, f: Findings, r: Reports)
    requires Library(w) && Files(w, r) && Right(r, note, b.sealDigest) && ExampleBinding(b) && Found(w, v, b, f)
    requires ExampleWorkload(v) && ExampleCohort(v) && ExampleShadow(v) && ExampleEnvelope(v, note)
    requires ExampleDocuments(v) && ExampleSignoffs(v)
    ensures Setting(w, v, b, note, f, r)
  {
    FindingsAre(w, v, b, note, f, r);
  }
}
