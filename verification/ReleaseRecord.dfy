// Validation of the release record
// (tests/integrations/pg-mdm/derive_v050_qualification.py:50-94, 121-125, 353-460, 549-570, 704-1019).

module ReleaseRecord {
  import opened Basics
  import opened Complaints
  import opened Json
  import opened Evidence
  import opened ShadowCoverage
  import opened OperatingRun

  /** Every value that the validation reads from the release record. */
  datatype Fields = Fields(
    workloadId: Json, workloadOwner: Json, administrativeDomain: Json,
    membershipDefinition: Json, membershipManifest: Json, membershipSha256: Json, memberCount: Json,
    policyRevisions: Json, expectedExceptions: Json, packageManifest: Json, packageDigest: Json,
    referencePopulationSha256: Json, coverageManifest: Json, expectedCaseCount: Json, observedCaseCount: Json,
    partiality: Json, duplicateCaseCount: Json, ownerApproval: Json,
    baselineEvidence: Json, thresholds: Json, observationStart: Json, observationEnd: Json,
    operatorThresholdApproval: Json, releaseOwnerThresholdApproval: Json,
    releaseNotes: Json, supportMatrix: Json, operatorGuide: Json,
    operatorSignoff: Json, releaseOwnerSignoff: Json, reviewerSignoff: Json)

  function Extract(record: Json): Fields {
    var workload, cohort, shadow := Get(record, "workload"), Get(record, "cohort"), Get(record, "shadow");
    var envelope, documents, signoffs := Get(record, "operating_envelope"), Get(record, "support_documents"),
    Get(record, "final_signoffs");
    Fields(
      Get(workload, "id"), Get(workload, "owner"), Get(workload, "administrative_domain"),
      Get(cohort, "membership_definition"), Get(cohort, "membership_manifest"), Get(cohort, "membership_sha256"),
      Get(cohort, "member_count"), Get(cohort, "policy_revisions"), Get(cohort, "expected_exceptions"),
      Get(cohort, "package_manifest"), Get(cohort, "package_digest"),
      Get(shadow, "reference_population_sha256"), Get(shadow, "coverage_manifest"), Get(shadow, "expected_case_count"),
      Get(shadow, "observed_case_count"), Get(shadow, "partial"), Get(shadow, "duplicate_case_count"),
      Get(shadow, "owner_approval"),
      Get(envelope, "baseline_evidence"), Get(envelope, "thresholds"),
      Get(Get(envelope, "observation"), "started_at"), Get(Get(envelope, "observation"), "ended_at"),
      Get(envelope, "operator_threshold_approval"), Get(envelope, "release_owner_threshold_approval"),
      Get(documents, "release_notes"), Get(documents, "support_matrix"), Get(documents, "operator_guide"),
      Get(signoffs, "operator"), Get(signoffs, "release_owner"), Get(signoffs, "independent_reviewer"))
  }

  /** The gates by id, and the digests that bind reports to this manifest. */
  datatype Binding = Binding(gates: map<string, Json>, artifactDigest: Json, sealDigest: Json,
                             prerequisitesPassed: bool)

  function GateField(gates: map<string, Json>, id: string, field: string): Json {
    if id in gates then Get(gates[id], field) else JNull
  }

  predicate Passed(gates: map<string, Json>, id: string) {
    GateField(gates, id, "status") == JString("passed")
  }

  // ---- Missing fields ----

  function Threshold(v: Fields, name: string): Json {
    Get(v.thresholds, name)
  }

  /** The fields of the release record, and the things that several of them make up. */
  datatype RecordField =
    | WorkloadId | WorkloadOwner | AdministrativeDomain
    | MembershipDefinition | MembershipManifest | MembershipSha256 | MemberCount | PolicyRevisions | ExpectedExceptions
    | PackageManifest | PackageDigest
    | ReferencePopulation | CoverageManifest | ExpectedCount | ObservedCount | Partiality | DuplicateCount
    | OwnerApproval
    | BaselineEvidence | CaseCountMax | ChurnMax | BacklogMax | LatencyMax | RetentionHorizon | RecoveryMax
    | ObservationStart | ObservationEnd | OperatorThresholds | ReleaseOwnerThresholds
    | ReleaseNotes | SupportMatrix | OperatorGuide
    | OperatorSignoff | ReleaseOwnerSignoff | ReviewerSignoff
    | ObservationWindow | FinalEvidence | ThreeReviewers | SignoffEvidence | StageEvidence

  /** A complaint is the field's name alone, or a message that begins with it. */
  datatype Complaint = About(field: RecordField) | Malformed(field: RecordField) | Unretained(field: RecordField)

  /** The required fields, section by section. */
  function MissingGroup(v: Fields, group: nat): seq<Condition<RecordField>> {
    match group
    case 0 =>
      [Condition(Present(v.workloadId), WorkloadId),
       Condition(Present(v.workloadOwner), WorkloadOwner),
       Condition(Present(v.administrativeDomain), AdministrativeDomain)]
    case 1 =>
      [Condition(Present(v.membershipDefinition), MembershipDefinition),
       Condition(Present(v.membershipManifest), MembershipManifest),
       Condition(Present(v.membershipSha256), MembershipSha256),
       Condition(Present(v.memberCount), MemberCount),
       Condition(Present(v.policyRevisions), PolicyRevisions),
       Condition(Present(v.expectedExceptions), ExpectedExceptions),
       Condition(Present(v.packageManifest), PackageManifest),
       Condition(Present(v.packageDigest), PackageDigest)]
    case 2 =>
      [Condition(Present(v.referencePopulationSha256), ReferencePopulation),
       Condition(Present(v.coverageManifest), CoverageManifest),
       Condition(Present(v.expectedCaseCount), ExpectedCount),
       Condition(Present(v.observedCaseCount), ObservedCount),
       Condition(Present(v.partiality), Partiality),
       Condition(Present(v.duplicateCaseCount), DuplicateCount),
       Condition(Present(v.ownerApproval), OwnerApproval)]
    case 3 =>
      [Condition(Present(v.baselineEvidence), BaselineEvidence),
       Condition(Present(Threshold(v, "case_count_max")), CaseCountMax),
       Condition(Present(Threshold(v, "churn_per_hour_max")), ChurnMax),
       Condition(Present(Threshold(v, "queue_backlog_max")), BacklogMax),
       Condition(Present(Threshold(v, "latency_p95_ms_max")), LatencyMax),
       Condition(Present(Threshold(v, "retention_horizon_seconds")), RetentionHorizon),
       Condition(Present(Threshold(v, "recovery_rto_seconds_max")), RecoveryMax)]
    case 4 =>
      [Condition(Present(v.observationStart), ObservationStart),
       Condition(Present(v.observationEnd), ObservationEnd),
       Condition(Present(v.operatorThresholdApproval), OperatorThresholds),
       Condition(Present(v.releaseOwnerThresholdApproval), ReleaseOwnerThresholds),
       Condition(Present(v.releaseNotes), ReleaseNotes),
       Condition(Present(v.supportMatrix), SupportMatrix),
       Condition(Present(v.operatorGuide), OperatorGuide)]
    case _ =>
      [Condition(Present(v.operatorSignoff), OperatorSignoff),
       Condition(Present(v.releaseOwnerSignoff), ReleaseOwnerSignoff),
       Condition(Present(v.reviewerSignoff), ReviewerSignoff)]
  }

  const MISSING_GROUPS: nat := 6

  function MissingGroups(v: Fields): seq<seq<Condition<RecordField>>> {
    seq(MISSING_GROUPS, group requires 0 <= group < MISSING_GROUPS => MissingGroup(v, group))
  }

  // ---- Formats ----

  /** An object's digest agrees with the digest stated beside it. */
  predicate SameDigest(manifest: Json, digest: Json) {
    manifest.JObject? && digest.JString? ==> PyEqual(Get(manifest, "sha256"), digest)
  }

  function FormatConditions(w: World, v: Fields): seq<Condition<Complaint>> {
    [Condition(Present(v.membershipSha256) ==> HexString(v.membershipSha256, 64), About(MembershipSha256)),
     Condition(Present(v.packageDigest) ==> HexString(v.packageDigest, 64), About(PackageDigest)),
     Condition(Present(v.referencePopulationSha256) ==>
                 HexString(v.referencePopulationSha256, 64), About(ReferencePopulation)),
     Condition(Present(v.workloadId) ==> Named(w, v.workloadId), About(WorkloadId)),
     Condition(Present(v.workloadOwner) ==> Named(w, v.workloadOwner), About(WorkloadOwner)),
     Condition(Present(v.administrativeDomain) ==> Named(w, v.administrativeDomain), About(AdministrativeDomain)),
     Condition(Present(v.membershipDefinition) ==> Named(w, v.membershipDefinition), About(MembershipDefinition))]
  }

  function CountConditions(v: Fields): seq<Condition<Complaint>> {
    [Condition(Present(v.memberCount) ==> IsInt(v.memberCount, 1), About(MemberCount)),
     Condition(Present(v.expectedCaseCount) ==> IsInt(v.expectedCaseCount, 1), About(ExpectedCount)),
     Condition(Present(v.observedCaseCount) ==> IsInt(v.observedCaseCount, 0), About(ObservedCount)),
     Condition(Present(v.duplicateCaseCount) ==> IsInt(v.duplicateCaseCount, 0), About(DuplicateCount)),
     Condition(Present(v.policyRevisions) ==> NonemptyStrings(v.policyRevisions), About(PolicyRevisions)),
     Condition(SameDigest(v.membershipManifest, v.membershipSha256), About(MembershipSha256)),
     Condition(SameDigest(v.packageManifest, v.packageDigest), About(PackageDigest))]
  }

  // ---- The frozen membership and its coverage ----

  predicate Ascending(items: seq<Json>) {
    forall i, j :: 0 <= i < j < |items| && items[i].JInt? && items[j].JInt? ==> items[i].n <= items[j].n
  }

  predicate MembershipShape(w: World, data: Json) {
    && HasFields(data, {"schema_version", "population_id", "case_keys"})
    && Get(data, "schema_version") == JInt(1) && Named(w, Get(data, "population_id"))
    && ValidCaseKeys(Get(data, "case_keys")) && Ascending(Items(Get(data, "case_keys")))
  }

  function FrozenMembership(w: World, v: Fields): Option<Membership> {
    var data := ReadJson(w, v.membershipManifest);
    if Present(v.membershipManifest) && data.Some? && MembershipShape(w, data.value)
    then Some(Membership(Get(data.value, "population_id"), KeysAmong(Items(Get(data.value, "case_keys")))))
    else None
  }

  function RetainedCondition(w: World, reference: Json, field: RecordField): Condition<Complaint> {
    Condition(Present(reference) ==> Verified(w, reference), Unretained(field))
  }

  /** A retained file that is no JSON text. */
  function ParsedCondition(w: World, reference: Json, field: RecordField): Condition<Complaint> {
    Condition(Present(reference) && Verified(w, reference) ==> ReadJson(w, reference).Some?, Malformed(field))
  }

  predicate Reads(w: World, reference: Json) {
    Present(reference) && ReadJson(w, reference).Some?
  }

  function MembershipConditions(w: World, v: Fields): seq<Condition<Complaint>> {
    var m := FrozenMembership(w, v);
    [RetainedCondition(w, v.membershipManifest, MembershipManifest),
     ParsedCondition(w, v.membershipManifest, MembershipManifest),
     Condition(Reads(w, v.membershipManifest) ==> m.Some?, About(MembershipManifest)),
     Condition(m.Some? && Present(v.memberCount) ==>
                 PyEqual(v.memberCount, JInt(|m.value.caseKeys|)), About(MemberCount)),
     Condition(m.Some? ==> PyEqual(v.referencePopulationSha256, v.membershipSha256), About(ReferencePopulation))]
  }

  /** The coverage manifest, unless it is absent, unreadable or null. */
  function Coverage(w: World, v: Fields): Option<Json> {
    var data := ReadJson(w, v.coverageManifest);
    if Present(v.coverageManifest) && data.Some? && data.value != JNull then data else None
  }

  /** What the loops over evidence files find out. */
  datatype Findings = Findings(
    partitioned: bool, rowCount: nat, duplicates: int,
    baseline: Option<Json>, final: Option<Json>, stagesValid: bool)

  function CoverageConditions(w: World, v: Fields, f: Findings): seq<Condition<Complaint>> {
    var m, coverage := FrozenMembership(w, v), Coverage(w, v);
    var compared := m.Some? && coverage.Some?;
    [RetainedCondition(w, v.coverageManifest, CoverageManifest),
     ParsedCondition(w, v.coverageManifest, CoverageManifest),
     Condition(Reads(w, v.coverageManifest) ==> coverage.Some?, About(CoverageManifest)),
     Condition(compared ==> f.partitioned, About(CoverageManifest)),
     Condition(compared && Present(v.expectedCaseCount) ==>
                 PyEqual(v.expectedCaseCount, JInt(|m.value.caseKeys|)), About(ExpectedCount)),
     Condition(compared && Present(v.observedCaseCount) ==>
                 PyEqual(v.observedCaseCount, JInt(f.rowCount)), About(ObservedCount)),
     Condition(compared && Present(v.duplicateCaseCount) ==>
                 PyEqual(v.duplicateCaseCount, JInt(f.duplicates)), About(DuplicateCount))]
  }

  function TotalConditions(v: Fields): seq<Condition<Complaint>> {
    [Condition(Present(v.expectedCaseCount) && Present(v.observedCaseCount) ==>
                 PyEqual(v.expectedCaseCount, v.observedCaseCount),
               About(ObservedCount)),
     Condition(Present(v.partiality) ==> v.partiality == JBool(false), About(Partiality)),
     Condition(Present(v.duplicateCaseCount) ==> PyEqual(v.duplicateCaseCount, JInt(0)), About(DuplicateCount))]
  }

  // ---- Limits, observation window, retained files ----

  function LimitCondition(v: Fields, name: string, field: RecordField): Condition<Complaint> {
    Condition(Present(Threshold(v, name)) ==> FiniteNonnegative(Threshold(v, name)), About(field))
  }

  function LimitConditions(v: Fields): seq<Condition<Complaint>> {
    [LimitCondition(v, "case_count_max", CaseCountMax), LimitCondition(v, "churn_per_hour_max", ChurnMax),
     LimitCondition(v, "queue_backlog_max", BacklogMax),
     LimitCondition(v, "latency_p95_ms_max", LatencyMax),
     LimitCondition(v, "retention_horizon_seconds", RetentionHorizon),
     LimitCondition(v, "recovery_rto_seconds_max", RecoveryMax),
     Condition(Present(Threshold(v, "case_count_max")) ==> Threshold(v, "case_count_max").JInt?,
               About(CaseCountMax)),
     Condition(Present(Threshold(v, "queue_backlog_max")) ==> Threshold(v, "queue_backlog_max").JInt?,
               About(BacklogMax))]
  }

  function WindowConditions(w: World, v: Fields): seq<Condition<Complaint>> {
    var start, end := Time(w, v.observationStart), Time(w, v.observationEnd);
    [Condition(Present(v.observationStart) ==> start.Some?, About(ObservationStart)),
     Condition(Present(v.observationEnd) ==> end.Some?, About(ObservationEnd)),
     Condition(start.Some? && end.Some? ==> start.value < end.value, About(ObservationWindow))]
  }

  function RetentionConditions(w: World, v: Fields): seq<Condition<Complaint>> {
    [RetainedCondition(w, v.membershipManifest, MembershipManifest),
     RetainedCondition(w, v.packageManifest, PackageManifest),
     RetainedCondition(w, v.expectedExceptions, ExpectedExceptions),
     RetainedCondition(w, v.coverageManifest, CoverageManifest)]
  }

  // ---- Approvals ----

  predicate OwnerReportValid(w: World, v: Fields, report: Json) {
    && HasFields(report, {"schema_version", "workload_id", "owner", "signed_at",
                          "cohort_membership_sha256", "package_sha256", "coverage_manifest_sha256",
                          "policy_revisions", "expected_exceptions_sha256", "reviewed_sections"})
    && Get(report, "schema_version") == JInt(1)
    && PyEqual(Get(report, "workload_id"), v.workloadId)
    && PyEqual(Get(report, "owner"), v.workloadOwner) && PyEqual(v.workloadOwner, Get(v.ownerApproval, "name"))
    && PyEqual(Get(report, "signed_at"), Get(v.ownerApproval, "signed_at"))
    && Time(w, Get(report, "signed_at")).Some?
    && PyEqual(Get(report, "cohort_membership_sha256"), v.membershipSha256)
    && PyEqual(Get(report, "package_sha256"), v.packageDigest)
    && v.coverageManifest.JObject?
    && PyEqual(Get(report, "coverage_manifest_sha256"), Get(v.coverageManifest, "sha256"))
    && PyEqual(Get(report, "policy_revisions"), v.policyRevisions)
    && v.expectedExceptions.JObject?
    && PyEqual(Get(report, "expected_exceptions_sha256"), Get(v.expectedExceptions, "sha256"))
    && PyEqual(Get(report, "reviewed_sections"),
               JArray([JString("assignments"), JString("due_dates"), JString("no_ops"), JString("protected_cases"),
                       JString("escalation_plans"), JString("ambiguities"), JString("expected_manual_exceptions")]))
  }

  predicate OwnerApprovalValid(w: World, v: Fields) {
    var report := ReadJson(w, Get(v.ownerApproval, "evidence"));
    v.ownerApproval.JObject? && report.Some? && OwnerReportValid(w, v, report.value)
  }

  predicate ThresholdReportValid(w: World, v: Fields, value: Json, role: string, report: Json) {
    && HasFields(report, {"schema_version", "role", "approver", "signed_at", "baseline_sha256", "thresholds"})
    && Get(report, "schema_version") == JInt(1)
    && PyEqual(Get(report, "role"), JString(role))
    && PyEqual(Get(report, "approver"), Get(value, "name"))
    && PyEqual(Get(report, "signed_at"), Get(value, "signed_at"))
    && Time(w, Get(value, "signed_at")).Some?
    && PyEqual(Get(report, "baseline_sha256"), Get(v.baselineEvidence, "sha256"))
    && PyEqual(Get(report, "thresholds"), v.thresholds)
  }

  predicate ThresholdApprovalValid(w: World, v: Fields, value: Json, role: string) {
    var report := ReadJson(w, Get(value, "evidence"));
    && value.JObject? && v.baselineEvidence.JObject? && report.Some?
    && ThresholdReportValid(w, v, value, role, report.value)
  }

  /** The form of an approval that is present. */
  function FormConditions(w: World, value: Json, field: RecordField): seq<Condition<Complaint>> {
    [Condition(Present(value) ==> ApprovalFormed(w, value), Malformed(field))]
  }

  function ApprovalReportConditions(w: World, v: Fields): seq<Condition<Complaint>> {
    [Condition(Present(v.ownerApproval) ==> OwnerApprovalValid(w, v), About(OwnerApproval)),
     Condition(Present(v.operatorThresholdApproval) ==>
                 ThresholdApprovalValid(w, v, v.operatorThresholdApproval, "operator"),
               About(OperatorThresholds)),
     Condition(Present(v.releaseOwnerThresholdApproval) ==>
                 ThresholdApprovalValid(w, v, v.releaseOwnerThresholdApproval, "release_owner"),
               About(ReleaseOwnerThresholds))]
  }

  // ---- Runs ----

  function Runs(v: Fields, b: Binding): RunContext {
    RunContext(v.workloadId, v.membershipSha256, v.memberCount, b.artifactDigest)
  }

  /** The run report behind a reference, when it is a valid run. */
  ghost function RunBehind(w: World, v: Fields, b: Binding, reference: Json): Option<Json> {
    var data := ReadJson(w, reference);
    if data.Some? && ValidRun(w, Runs(v, b), data.value) then data else None
  }

  /** A run counts only when its report is retained, parses and is valid. */
  method ReadRun(w: World, v: Fields, b: Binding, reference: Json) returns (run: Option<Json>)
    ensures run == RunBehind(w, v, b, reference)
  {
    var data := ReadJson(w, reference);
    if data.None? {
      return None;
    }
    var valid := ValidOperatingRun(w, Runs(v, b), data.value);
    run := if valid then data else None;
  }

  /** The reference to the final run: the first evidence of gate R6. */
  function FinalReference(b: Binding): Json {
    var evidence := Items(GateField(b.gates, "R6", "evidence"));
    if evidence == [] then JNull else evidence[0]
  }

  /** Strictly between the end of the baseline run and the start of the final run, as far as they exist. */
  function BetweenConditions(w: World, value: Json, f: Findings, field: RecordField): seq<Condition<Complaint>> {
    var signedAt := Time(w, Get(value, "signed_at"));
    [Condition(f.baseline.Some? && signedAt.Some? && Timed(w, f.baseline.value) ==>
                 Ended(w, f.baseline.value) < signedAt.value, About(field)),
     Condition(f.final.Some? && signedAt.Some? && Timed(w, f.final.value) ==>
                 signedAt.value < Started(w, f.final.value), About(field))]
  }

  predicate AtMost(measured: Json, limit: Json) {
    Present(limit) && FiniteNonnegative(limit) && FiniteNonnegative(measured) ==>
      NotAbove(Number(measured).value, Number(limit).value)
  }

  function EnvelopeCondition(v: Fields, f: Findings, measured: string, limit: string,
                             field: RecordField): Condition<Complaint> {
    Condition(f.final.Some? ==> AtMost(Get(Get(f.final.value, "summary"), measured), Threshold(v, limit)), About(field))
  }

  /** The final run against the window and the thresholds. */
  function EnvelopeConditions(w: World, v: Fields, f: Findings): seq<Condition<Complaint>> {
    [Condition(f.final.Some? ==>
                 Time(w, v.observationStart) == Time(w, Get(f.final.value, "started_at"))
                 && Time(w, v.observationEnd) == Time(w, Get(f.final.value, "ended_at")), About(ObservationWindow)),
     EnvelopeCondition(v, f, "case_count", "case_count_max", CaseCountMax),
     EnvelopeCondition(v, f, "churn_per_hour", "churn_per_hour_max", ChurnMax),
     EnvelopeCondition(v, f, "queue_backlog", "queue_backlog_max", BacklogMax),
     EnvelopeCondition(v, f, "latency_p95_ms", "latency_p95_ms_max", LatencyMax),
     Condition(f.final.Some? ==>
                 AtMost(Threshold(v, "retention_horizon_seconds"),
                        Get(Get(f.final.value, "summary"), "retention_horizon_seconds")), About(RetentionHorizon)),
     EnvelopeCondition(v, f, "recovery_rto_seconds", "recovery_rto_seconds_max", RecoveryMax)]
  }

  // ---- Support documents and final sign-offs ----

  function DocumentCondition(w: World, value: Json, field: RecordField): Condition<Complaint> {
    Condition(Present(value) ==> value.JString? && w.supportDocument(value.s), About(field))
  }

  function DocumentConditions(w: World, v: Fields): seq<Condition<Complaint>> {
    [DocumentCondition(w, v.releaseNotes, ReleaseNotes),
     DocumentCondition(w, v.supportMatrix, SupportMatrix),
     DocumentCondition(w, v.operatorGuide, OperatorGuide)]
  }

  predicate SignoffReportValid(w: World, v: Fields, b: Binding, value: Json, role: string, report: Json) {
    && HasFields(report, {"schema_version", "role", "approver", "signed_at", "decision",
                          "artifact_tuple_sha256", "workload_id", "cohort_membership_sha256",
                          "package_sha256", "qualification_evidence_sha256"})
    && Get(report, "schema_version") == JInt(1)
    && PyEqual(Get(report, "role"), JString(role))
    && PyEqual(Get(report, "approver"), Get(value, "name"))
    && PyEqual(Get(report, "signed_at"), Get(value, "signed_at"))
    && Time(w, Get(report, "signed_at")).Some?
    && PyEqual(Get(report, "decision"), JString("go"))
    && PyEqual(Get(report, "artifact_tuple_sha256"), b.artifactDigest)
    && PyEqual(Get(report, "workload_id"), v.workloadId)
    && PyEqual(Get(report, "cohort_membership_sha256"), v.membershipSha256)
    && PyEqual(Get(report, "package_sha256"), v.packageDigest)
    && PyEqual(Get(report, "qualification_evidence_sha256"), b.sealDigest)
  }

  predicate FinalSignoffValid(w: World, v: Fields, b: Binding, value: Json, role: string) {
    var report := ReadJson(w, Get(value, "evidence"));
    && value.JObject? && report.Some? && SignoffReportValid(w, v, b, value, role, report.value)
    && b.prerequisitesPassed
  }

  /** One sign-off: its form, its report, and its place after the observation window. */
  function SignoffConditions(w: World, v: Fields, b: Binding, value: Json, role: string,
                             field: RecordField): seq<Condition<Complaint>> {
    var end, signedAt := Time(w, v.observationEnd), Time(w, Get(value, "signed_at"));
    [Condition(Present(value) ==> ApprovalFormed(w, value), Malformed(field)),
     Condition(Present(value) && ApprovalFormed(w, value) ==> FinalSignoffValid(w, v, b, value, role), About(field)),
     Condition(Present(value) && end.Some? && signedAt.Some? ==> end.value < signedAt.value, About(field))]
  }

  function SignerNames(w: World, value: Json): seq<string> {
    if Present(value) && value.JObject? && Get(value, "name").JString? then [w.normalName(Get(value, "name").s)] else []
  }

  function AllSignerNames(w: World, v: Fields): seq<string> {
    SignerNames(w, v.operatorSignoff) + SignerNames(w, v.releaseOwnerSignoff) + SignerNames(w, v.reviewerSignoff)
  }

  function SignoffReferences(v: Fields): Json {
    JArray([Get(v.operatorSignoff, "evidence"), Get(v.releaseOwnerSignoff, "evidence"),
            Get(v.reviewerSignoff, "evidence")])
  }

  /** Three different people, whose sign-offs are the evidence of gate R8. */
  function SignersConditions(w: World, v: Fields, b: Binding): seq<Condition<Complaint>> {
    [Condition(|AllSignerNames(w, v)| == 3 ==> Distinct(AllSignerNames(w, v)), About(ThreeReviewers)),
     Condition(Present(v.operatorSignoff) && Present(v.releaseOwnerSignoff) && Present(v.reviewerSignoff) ==>
                 PyEqual(GateField(b.gates, "R8", "evidence"), SignoffReferences(v)), About(SignoffEvidence))]
  }

  // ---- Staged enablement ----

  function Stages(v: Fields, b: Binding): StageContext {
    StageContext(v.workloadId, v.membershipSha256, v.packageDigest, v.policyRevisions, b.artifactDigest,
                 v.coverageManifest, v.ownerApproval, v.observationStart, v.observationEnd)
  }

  /** The one report behind gate R4. */
  function StageReport(w: World, b: Binding): Option<Json> {
    var references := Items(GateField(b.gates, "R4", "evidence"));
    if |references| == 1 then ReadJson(w, references[0]) else None
  }

  predicate StagesDue(b: Binding) {
    Passed(b.gates, "R4") || Present(GateField(b.gates, "R4", "evidence"))
  }

  // ---- The record ----

  /** The conditions on the values that are present, group by group, in the order of the checks. */
  function InvalidGroup(w: World, v: Fields, b: Binding, f: Findings, group: nat): seq<Condition<Complaint>> {
    match group
    case 0 => FormatConditions(w, v)
    case 1 => CountConditions(v)
    case 2 => MembershipConditions(w, v)
    case 3 => CoverageConditions(w, v, f)
    case 4 => TotalConditions(v)
    case 5 => LimitConditions(v)
    case 6 => WindowConditions(w, v)
    case 7 => RetentionConditions(w, v)
    case 8 => [Condition(Present(v.baselineEvidence) ==> f.baseline.Some?, About(BaselineEvidence))]
    case 9 => FormConditions(w, v.ownerApproval, OwnerApproval)
    case 10 => FormConditions(w, v.operatorThresholdApproval, OperatorThresholds)
    case 11 => FormConditions(w, v.releaseOwnerThresholdApproval, ReleaseOwnerThresholds)
    case 12 => ApprovalReportConditions(w, v)
    case 13 => [Condition(Passed(b.gates, "R6") ==> f.final.Some?, About(FinalEvidence))]
    case 14 => BetweenConditions(w, v.operatorThresholdApproval, f, OperatorThresholds)
    case 15 => BetweenConditions(w, v.releaseOwnerThresholdApproval, f, ReleaseOwnerThresholds)
    case 16 => EnvelopeConditions(w, v, f)
    case 17 => DocumentConditions(w, v)
    case 18 => SignoffConditions(w, v, b, v.operatorSignoff, "operator", OperatorSignoff)
    case 19 => SignoffConditions(w, v, b, v.releaseOwnerSignoff, "release_owner", ReleaseOwnerSignoff)
    case 20 => SignoffConditions(w, v, b, v.reviewerSignoff, "independent_reviewer", ReviewerSignoff)
    case 21 => SignersConditions(w, v, b)
    case _ => [Condition(StagesDue(b) ==> f.stagesValid, About(StageEvidence))]
  }

  const INVALID_GROUPS: nat := 23

  function InvalidGroups(w: World, v: Fields, b: Binding, f: Findings): seq<seq<Condition<Complaint>>> {
    seq(INVALID_GROUPS, group requires 0 <= group < INVALID_GROUPS => InvalidGroup(w, v, b, f, group))
  }

  /** The coverage manifest partitions the frozen membership. */
  ghost predicate Partitions(w: World, v: Fields, m: Membership, coverage: Json) {
    forall k :: Unfolded(k) ==> ExactPartition(w, PreviewChecks(w, m, Items(v.policyRevisions)), m.caseKeys, coverage)
  }

  ghost function Counted(w: World, v: Fields, m: Membership, coverage: Json): seq<CaseKey> {
    CountedRows(w, PreviewChecks(w, m, Items(v.policyRevisions)), coverage)
  }

  // ---- What the evidence files hold ----

  ghost predicate PartitionFound(w: World, v: Fields) {
    var m, coverage := FrozenMembership(w, v), Coverage(w, v);
    m.Some? && coverage.Some? && Partitions(w, v, m.value, coverage.value)
  }

  ghost function RowsFound(w: World, v: Fields): seq<CaseKey> {
    var m, coverage := FrozenMembership(w, v), Coverage(w, v);
    if m.Some? && coverage.Some? then Counted(w, v, m.value, coverage.value) else []
  }

  method CountCoverage(w: World, v: Fields) returns (partitioned: bool, rowCount: nat, duplicates: int)
    ensures partitioned <==> PartitionFound(w, v)
    ensures rowCount == |RowsFound(w, v)| && duplicates == |RowsFound(w, v)| - |Elements(RowsFound(w, v))|
  {
    var m, coverage := FrozenMembership(w, v), Coverage(w, v);
    partitioned, rowCount, duplicates := false, 0, 0;
    if m.Some? && coverage.Some? {
      partitioned, rowCount, duplicates := ComparePopulation(w, v, m.value, coverage.value);
    } else {
      assert Elements([]) == {};
    }
  }

  method ComparePopulation(w: World, v: Fields, m: Membership, coverage: Json)
    returns (partitioned: bool, rowCount: nat, duplicates: int)
    ensures partitioned <==> Partitions(w, v, m, coverage)
    ensures rowCount == |Counted(w, v, m, coverage)|
    ensures duplicates == |Counted(w, v, m, coverage)| - |Elements(Counted(w, v, m, coverage))|
  {
    partitioned, rowCount, duplicates := ValidShadowCoverage(w, m, Items(v.policyRevisions), coverage);
    assert Unfolded(0);
  }

  ghost function BaselineRun(w: World, v: Fields, b: Binding): Option<Json> {
    if Present(v.baselineEvidence) then RunBehind(w, v, b, v.baselineEvidence) else None
  }

  method ReadBaseline(w: World, v: Fields, b: Binding) returns (run: Option<Json>)
    ensures run == BaselineRun(w, v, b)
  {
    run := None;
    if Present(v.baselineEvidence) {
      run := ReadRun(w, v, b, v.baselineEvidence);
    }
  }

  ghost function FinalRun(w: World, v: Fields, b: Binding): Option<Json> {
    if Passed(b.gates, "R6") then RunBehind(w, v, b, FinalReference(b)) else None
  }

  method ReadFinal(w: World, v: Fields, b: Binding) returns (run: Option<Json>)
    ensures run == FinalRun(w, v, b)
  {
    run := None;
    if Passed(b.gates, "R6") {
      run := ReadRun(w, v, b, FinalReference(b));
    }
  }

  ghost predicate StagesAccepted(w: World, c: StageContext, report: Json) {
    forall k :: Unfolded(k) ==> ValidStages(w, c, report)
  }

  ghost predicate StagesFound(w: World, v: Fields, b: Binding) {
    StageReport(w, b).Some? && StagesAccepted(w, Stages(v, b), StageReport(w, b).value)
  }

  method ReadStages(w: World, v: Fields, b: Binding) returns (valid: bool)
    ensures valid <==> StagesFound(w, v, b)
  {
    assert Unfolded(0);
    valid := false;
    if StageReport(w, b).Some? {
      valid := ValidStagedEnablement(w, Stages(v, b), StageReport(w, b).value);
    }
  }

  ghost function FindingsOf(w: World, v: Fields, b: Binding): Findings {
    var rows := RowsFound(w, v);
    Findings(PartitionFound(w, v), |rows|, |rows| - |Elements(rows)|, BaselineRun(w, v, b), FinalRun(w, v, b),
             StagesFound(w, v, b))
  }

  method Inspect(w: World, v: Fields, b: Binding) returns (f: Findings)
    ensures f == FindingsOf(w, v, b)
  {
    var partitioned, rowCount, duplicates := CountCoverage(w, v);
    var baseline := ReadBaseline(w, v, b);
    var final := ReadFinal(w, v, b);
    var stagesValid := ReadStages(w, v, b);
    f := Findings(partitioned, rowCount, duplicates, baseline, final, stagesValid);
  }

  function MissingConditions(v: Fields): seq<Condition<RecordField>> {
    Flatten(MissingGroups(v))
  }

  function InvalidGiven(w: World, v: Fields, b: Binding, f: Findings): seq<Condition<Complaint>> {
    Flatten(InvalidGroups(w, v, b, f))
  }

  ghost function InvalidConditions(w: World, v: Fields, b: Binding): seq<Condition<Complaint>> {
    InvalidGiven(w, v, b, FindingsOf(w, v, b))
  }

  ghost predicate NothingMissing(v: Fields) {
    forall k :: Unfolded(k) ==> AllHold(MissingConditions(v))
  }

  ghost predicate NothingInvalid(w: World, v: Fields, b: Binding) {
    forall k :: Unfolded(k) ==> AllHold(InvalidConditions(w, v, b))
  }

  /** The fields are those with a failing condition. */
  ghost predicate MissingAre(missing: seq<RecordField>, v: Fields) {
    forall k :: Unfolded(k) ==> NamesFailing(missing, MissingConditions(v))
  }

  ghost predicate InvalidAre(invalid: seq<Complaint>, w: World, v: Fields, b: Binding) {
    forall k :: Unfolded(k) ==> NamesFailing(invalid, InvalidConditions(w, v, b))
  }

  method ListMissing(v: Fields) returns (missing: seq<RecordField>)
    ensures MissingAre(missing, v) && (missing == [] <==> NothingMissing(v))
  {
    missing := Complain(MissingConditions(v));
    assert Unfolded(0);
  }

  method ListInvalid(w: World, v: Fields, b: Binding) returns (invalid: seq<Complaint>)
    ensures InvalidAre(invalid, w, v, b) && (invalid == [] <==> NothingInvalid(w, v, b))
  {
    var f := Inspect(w, v, b);
    invalid := Complain(InvalidGiven(w, v, b, f));
    assert Unfolded(0);
  }

  /** Complains about exactly the fields with a failing condition. */
  method ValidateReleaseRecord(w: World, v: Fields, b: Binding)
    returns (missing: seq<RecordField>, invalid: seq<Complaint>)
    ensures MissingAre(missing, v) && (missing == [] <==> NothingMissing(v))
    ensures InvalidAre(invalid, w, v, b) && (invalid == [] <==> NothingInvalid(w, v, b))
  {
    missing := ListMissing(v);
    invalid := ListInvalid(w, v, b);
  }

  // ---- Taking the conditions apart ----

  lemma NothingMissingByGroup(v: Fields)
    ensures NothingMissing(v) <==> forall g: nat :: g < MISSING_GROUPS ==> AllHold(MissingGroup(v, g))
  {
    var groups := MissingGroups(v);
    assert Unfolded(0);
    AllHoldFlatten(groups);
    assert forall g: nat :: g < MISSING_GROUPS ==> groups[g] == MissingGroup(v, g);
  }

  /** f is what the evidence files hold. */
  ghost predicate Found(w: World, v: Fields, b: Binding, f: Findings) {
    forall k :: Unfolded(k) ==> f == FindingsOf(w, v, b)
  }

  lemma SomeFindings(w: World, v: Fields, b: Binding) returns (f: Findings)
    ensures Found(w, v, b, f)
  {
    f := FindingsOf(w, v, b);
  }

  /** The conditions on the population and the record's own values. */
  ghost predicate PopulationHolds(w: World, v: Fields, f: Findings) {
    && AllHold(FormatConditions(w, v)) && AllHold(CountConditions(v)) && AllHold(MembershipConditions(w, v))
    && AllHold(CoverageConditions(w, v, f)) && AllHold(TotalConditions(v)) && AllHold(LimitConditions(v))
    && AllHold(WindowConditions(w, v)) && AllHold(RetentionConditions(w, v)) && f.baseline.Some?
  }

  ghost predicate ApprovalsHold(w: World, v: Fields) {
    && AllHold(FormConditions(w, v.ownerApproval, OwnerApproval))
    && AllHold(FormConditions(w, v.operatorThresholdApproval, OperatorThresholds))
    && AllHold(FormConditions(w, v.releaseOwnerThresholdApproval, ReleaseOwnerThresholds))
    && AllHold(ApprovalReportConditions(w, v))
  }

  ghost predicate EnvelopeIsKept(w: World, v: Fields, f: Findings) {
    && f.final.Some? && AllHold(EnvelopeConditions(w, v, f)) && AllHold(DocumentConditions(w, v))
    && AllHold(BetweenConditions(w, v.operatorThresholdApproval, f, OperatorThresholds))
    && AllHold(BetweenConditions(w, v.releaseOwnerThresholdApproval, f, ReleaseOwnerThresholds))
  }

  ghost predicate SignoffsHold(w: World, v: Fields, b: Binding, f: Findings) {
    && AllHold(SignoffConditions(w, v, b, v.operatorSignoff, "operator", OperatorSignoff))
    && AllHold(SignoffConditions(w, v, b, v.releaseOwnerSignoff, "release_owner", ReleaseOwnerSignoff))
    && AllHold(SignoffConditions(w, v, b, v.reviewerSignoff, "independent_reviewer", ReviewerSignoff))
    && AllHold(SignersConditions(w, v, b)) && f.stagesValid
  }

  lemma PopulationGroup(w: World, v: Fields, b: Binding, f: Findings, g: nat)
    requires PopulationHolds(w, v, f) && g < 9
    ensures AllHold(InvalidGroup(w, v, b, f, g))
  {
  }

  lemma ApprovalGroup(w: World, v: Fields, b: Binding, f: Findings, g: nat)
    requires ApprovalsHold(w, v) && 9 <= g < 13
    ensures AllHold(InvalidGroup(w, v, b, f, g))
  {
  }

  lemma EnvelopeGroup(w: World, v: Fields, b: Binding, f: Findings, g: nat)
    requires EnvelopeIsKept(w, v, f) && 13 <= g < 18
    ensures AllHold(InvalidGroup(w, v, b, f, g))
  {
    match g
    case 13 =>
    case 14 =>
    case 15 =>
    case 16 =>
    case 17 =>
  }

  lemma SignoffGroup(w: World, v: Fields, b: Binding, f: Findings, g: nat)
    requires SignoffsHold(w, v, b, f) && 18 <= g < INVALID_GROUPS
    ensures AllHold(InvalidGroup(w, v, b, f, g))
  {
  }

  /** The record is valid if all conditions hold, whether they are due or not. */
  lemma NothingInvalidFrom(w: World, v: Fields, b: Binding, f: Findings)
    requires Found(w, v, b, f)
    requires PopulationHolds(w, v, f) && ApprovalsHold(w, v) && EnvelopeIsKept(w, v, f) && SignoffsHold(w, v, b, f)
    ensures NothingInvalid(w, v, b)
  {
    forall g: nat | g < INVALID_GROUPS ensures AllHold(InvalidGroup(w, v, b, f, g)) {
      if g < 9 {
        PopulationGroup(w, v, b, f, g);
      } else if g < 13 {
        ApprovalGroup(w, v, b, f, g);
      } else if g < 18 {
        EnvelopeGroup(w, v, b, f, g);
      } else {
        SignoffGroup(w, v, b, f, g);
      }
    }
    NothingInvalidByGroup(w, v, b, f);
  }

  lemma NothingInvalidByGroup(w: World, v: Fields, b: Binding, f: Findings)
    requires Found(w, v, b, f)
    ensures NothingInvalid(w, v, b) <==> forall g: nat :: g < INVALID_GROUPS ==> AllHold(InvalidGroup(w, v, b, f, g))
  {
    assert Unfolded(0);
    InvalidByGroup(w, v, b, f);
  }

  lemma GroupHolds(w: World, v: Fields, b: Binding, f: Findings, group: nat)
    requires NothingInvalid(w, v, b) && Found(w, v, b, f) && group < INVALID_GROUPS
    ensures AllHold(InvalidGroup(w, v, b, f, group))
  {
    NothingInvalidByGroup(w, v, b, f);
  }

  lemma MissingGroupHolds(v: Fields, group: nat)
    requires NothingMissing(v) && group < MISSING_GROUPS
    ensures AllHold(MissingGroup(v, group))
  {
    NothingMissingByGroup(v);
  }

  /** The runs found are timed, and are the reports behind their references. */
  lemma RunsFound(w: World, v: Fields, b: Binding, f: Findings)
    requires Found(w, v, b, f)
    ensures f.baseline.Some? ==> Timed(w, f.baseline.value) && ReadJson(w, v.baselineEvidence) == f.baseline
    ensures f.final.Some? ==> Timed(w, f.final.value) && ReadJson(w, FinalReference(b)) == f.final
  {
    assert Unfolded(0);
    RunBehindIsTimed(w, v, b, v.baselineEvidence);
    RunBehindIsTimed(w, v, b, FinalReference(b));
  }

  lemma RunsAreThese(w: World, v: Fields, b: Binding, f: Findings)
    requires Found(w, v, b, f)
    ensures f.baseline == BaselineRun(w, v, b) && f.final == FinalRun(w, v, b)
  {
    assert Unfolded(0);
  }

  lemma RunBehindIsTimed(w: World, v: Fields, b: Binding, reference: Json)
    ensures var run := RunBehind(w, v, b, reference);
            run.Some? ==> Timed(w, run.value) && ReadJson(w, reference) == run
  {
  }

  lemma StagesAreFound(w: World, v: Fields, b: Binding, f: Findings)
    requires Found(w, v, b, f)
    ensures f.stagesValid <==> StagesFound(w, v, b)
  {
    assert Unfolded(0);
  }

  lemma PartitionIsFound(w: World, v: Fields, b: Binding, f: Findings)
    requires Found(w, v, b, f)
    ensures (f.partitioned <==> PartitionFound(w, v)) && f.rowCount == |RowsFound(w, v)|
    ensures f.duplicates == |RowsFound(w, v)| - |Elements(RowsFound(w, v))|
  {
    assert Unfolded(0);
  }

  lemma InvalidByGroup(w: World, v: Fields, b: Binding, f: Findings)
    ensures AllHold(InvalidGiven(w, v, b, f)) <==>
      forall g: nat :: g < INVALID_GROUPS ==> AllHold(InvalidGroup(w, v, b, f, g))
  {
    var groups := InvalidGroups(w, v, b, f);
    AllHoldFlatten(groups);
    assert forall g: nat :: g < INVALID_GROUPS ==> groups[g] == InvalidGroup(w, v, b, f, g);
  }
}
