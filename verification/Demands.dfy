// What is asked of a release record, in terms of what its evidence files hold.
//
// Each check of tests/integrations/pg-mdm/derive_v050_qualification.py:704-1019 is a list of demands, stated by the
// schemas of the reports and without the findings that the validator hands from one check to the next. The validator
// complains of exactly the demands that are not met.

module Demands {
  import opened Basics
  import opened Complaints
  import opened Json
  import opened Evidence
  import opened Schema
  import opened ReportSchemas
  import opened ShadowCoverage
  import opened ShadowSchemas
  import opened OperatingRun
  import opened ReleaseRecord
  import opened ApprovalSchemas

  // ---- What the files hold ----

  predicate Given(j: Json) {
    !Empty(j)
  }

  /** The reference is to the report of a whole run of this record's workload. */
  ghost predicate RunAt(w: World, v: Fields, b: Binding, reference: Json, run: Json) {
    forall k :: Unfolded(k) ==>
      && Holds(w, reference, run)
      && WholeRun(w, RunContext(v.workloadId, v.membershipSha256, v.memberCount, b.artifactDigest), run)
  }

  ghost predicate Baseline(w: World, v: Fields, b: Binding, run: Json) {
    forall k :: Unfolded(k) ==> Given(v.baselineEvidence) && RunAt(w, v, b, v.baselineEvidence, run)
  }

  predicate GateStates(b: Binding, id: string, field: string, value: Json) {
    id in b.gates && b.gates[id].JObject? && field in b.gates[id].fields && b.gates[id].fields[field] == value
  }

  /** The final run is the first evidence of gate R6, once this has passed. */
  ghost predicate Final(w: World, v: Fields, b: Binding, run: Json) {
    forall k :: Unfolded(k) ==>
      && GateStates(b, "R6", "status", JString("passed"))
      && exists evidence :: && GateStates(b, "R6", "evidence", JArray(evidence)) && |evidence| > 0
                            && RunAt(w, v, b, evidence[0], run)
  }

  /** The coverage manifest beside the frozen membership. */
  ghost predicate Compared(w: World, v: Fields, m: Membership, coverage: Json) {
    && Frozen(w, v, m) && Given(v.coverageManifest) && Holds(w, v.coverageManifest, coverage) && coverage != JNull
  }

  /** The single evidence of gate R4 is a report of the five stages. */
  ghost predicate StagesReported(w: World, v: Fields, b: Binding) {
    exists reference, report ::
      && GateStates(b, "R4", "evidence", JArray([reference]))
      && StagesAt(w, StageContext(v.workloadId, v.membershipSha256, v.packageDigest, v.policyRevisions,
                                  b.artifactDigest, v.coverageManifest, v.ownerApproval, v.observationStart,
                                  v.observationEnd),
                  reference, report)
  }

  ghost predicate StagesAt(w: World, c: StageContext, reference: Json, report: Json) {
    forall k :: Unfolded(k) ==> Holds(w, reference, report) && Enabled(w, c, report)
  }

  lemma RunAtExact(w: World, v: Fields, b: Binding, reference: Json, run: Json)
    ensures RunAt(w, v, b, reference, run) <==> RunBehind(w, v, b, reference) == Some(run)
  {
    assert Unfolded(0);
    HoldsExact(w, reference, run);
    RunExact(w, Runs(v, b), run);
  }

  lemma BaselineExact(w: World, v: Fields, b: Binding, f: Findings, run: Json)
    requires Found(w, v, b, f)
    ensures Baseline(w, v, b, run) <==> f.baseline == Some(run)
  {
    assert Unfolded(0);
    RunsAreThese(w, v, b, f);
    PresentExact(v.baselineEvidence);
    RunAtExact(w, v, b, v.baselineEvidence, run);
  }

  lemma GateStatesExact(b: Binding, id: string, field: string, value: Json)
    ensures GateStates(b, id, field, value) ==> GateField(b.gates, id, field) == value
    ensures value != JNull && GateField(b.gates, id, field) == value ==> GateStates(b, id, field, value)
  {
  }

  lemma FinalParts(w: World, v: Fields, b: Binding, run: Json)
    ensures Final(w, v, b, run)
       <==> && GateStates(b, "R6", "status", JString("passed"))
            && exists evidence :: && GateStates(b, "R6", "evidence", JArray(evidence)) && |evidence| > 0
                                  && RunAt(w, v, b, evidence[0], run)
  {
    assert Unfolded(0);
  }

  lemma FirstEvidence(w: World, v: Fields, b: Binding, run: Json)
    ensures (exists evidence :: && GateStates(b, "R6", "evidence", JArray(evidence)) && |evidence| > 0
                                && RunAt(w, v, b, evidence[0], run))
       <==> RunBehind(w, v, b, FinalReference(b)) == Some(run)
  {
    var evidence := GateField(b.gates, "R6", "evidence");
    GateStatesExact(b, "R6", "evidence", evidence);
    RunAtExact(w, v, b, FinalReference(b), run);
    forall items ensures GateStates(b, "R6", "evidence", JArray(items)) ==> evidence == JArray(items) {
      GateStatesExact(b, "R6", "evidence", JArray(items));
    }
    if RunBehind(w, v, b, FinalReference(b)) == Some(run) {
      assert evidence == JArray(Items(evidence)) && |Items(evidence)| > 0;
    }
  }

  lemma FinalExact(w: World, v: Fields, b: Binding, f: Findings, run: Json)
    requires Found(w, v, b, f)
    ensures Final(w, v, b, run) <==> f.final == Some(run)
  {
    RunsAreThese(w, v, b, f);
    GateStatesExact(b, "R6", "status", JString("passed"));
    FinalParts(w, v, b, run);
    FirstEvidence(w, v, b, run);
  }

  lemma ComparedExact(w: World, v: Fields, m: Membership, coverage: Json)
    ensures Compared(w, v, m, coverage) <==> FrozenMembership(w, v) == Some(m) && Coverage(w, v) == Some(coverage)
  {
    FrozenExact(w, v, m);
    PresentExact(v.coverageManifest);
    HoldsExact(w, v.coverageManifest, coverage);
  }

  lemma StagesAtExact(w: World, c: StageContext, reference: Json, report: Json)
    ensures StagesAt(w, c, reference, report)
       <==> ReadJson(w, reference) == Some(report) && StagesAccepted(w, c, report)
  {
    assert Unfolded(0);
    HoldsExact(w, reference, report);
    EnabledExact(w, c, report);
  }

  lemma StagesReportedExact(w: World, v: Fields, b: Binding)
    ensures StagesReported(w, v, b) <==> StagesFound(w, v, b)
  {
    var evidence := GateField(b.gates, "R4", "evidence");
    GateStatesExact(b, "R4", "evidence", evidence);
    if StagesReported(w, v, b) {
      var c := StageContext(v.workloadId, v.membershipSha256, v.packageDigest, v.policyRevisions, b.artifactDigest,
                            v.coverageManifest, v.ownerApproval, v.observationStart, v.observationEnd);
      var reference, report :| GateStates(b, "R4", "evidence", JArray([reference]))
                               && StagesAt(w, c, reference, report);
      GateStatesExact(b, "R4", "evidence", JArray([reference]));
      StagesAtExact(w, Stages(v, b), reference, report);
    }
    if StagesFound(w, v, b) {
      var reference, report := Items(evidence)[0], StageReport(w, b).value;
      assert Items(evidence) == [reference] && evidence == JArray([reference]);
      StagesAtExact(w, Stages(v, b), reference, report);
    }
  }

  // ---- The demands, check by check ----

  ghost function FormatDemands(w: World, v: Fields): seq<Condition<Complaint>> {
    [Condition(Given(v.membershipSha256) ==> Meets(w, Digits(64), v.membershipSha256), About(MembershipSha256)),
     Condition(Given(v.packageDigest) ==> Meets(w, Digits(64), v.packageDigest), About(PackageDigest)),
     Condition(Given(v.referencePopulationSha256) ==> Meets(w, Digits(64), v.referencePopulationSha256),
               About(ReferencePopulation)),
     Condition(Given(v.workloadId) ==> Meets(w, Name, v.workloadId), About(WorkloadId)),
     Condition(Given(v.workloadOwner) ==> Meets(w, Name, v.workloadOwner), About(WorkloadOwner)),
     Condition(Given(v.administrativeDomain) ==> Meets(w, Name, v.administrativeDomain),
               About(AdministrativeDomain)),
     Condition(Given(v.membershipDefinition) ==> Meets(w, Name, v.membershipDefinition), About(MembershipDefinition))]
  }

  /** An object that states another digest than the one beside it. */
  predicate Contradicts(manifest: Json, digest: Json) {
    manifest.JObject? && digest.JString? && Get(manifest, "sha256") != digest
  }

  ghost function CountDemands(w: World, v: Fields): seq<Condition<Complaint>> {
    [Condition(Given(v.memberCount) ==> Meets(w, AtLeast(1), v.memberCount), About(MemberCount)),
     Condition(Given(v.expectedCaseCount) ==> Meets(w, AtLeast(1), v.expectedCaseCount), About(ExpectedCount)),
     Condition(Given(v.observedCaseCount) ==> Meets(w, AtLeast(0), v.observedCaseCount), About(ObservedCount)),
     Condition(Given(v.duplicateCaseCount) ==> Meets(w, AtLeast(0), v.duplicateCaseCount), About(DuplicateCount)),
     Condition(Given(v.policyRevisions) ==> Strings(v.policyRevisions), About(PolicyRevisions)),
     Condition(!Contradicts(v.membershipManifest, v.membershipSha256), About(MembershipSha256)),
     Condition(!Contradicts(v.packageManifest, v.packageDigest), About(PackageDigest))]
  }

  /** A file that is given is retained. */
  predicate Kept(w: World, reference: Json) {
    Given(reference) ==> Retained(w, reference)
  }

  /** A retained file is a JSON text. */
  ghost predicate Parses(w: World, reference: Json) {
    Given(reference) && Retained(w, reference) ==> exists data :: Holds(w, reference, data)
  }

  ghost predicate CountsMembers(w: World, v: Fields, count: Json) {
    forall m :: Frozen(w, v, m) && Given(count) ==> PyEqual(count, JInt(|m.caseKeys|))
  }

  ghost function MembershipDemands(w: World, v: Fields): seq<Condition<Complaint>> {
    [Condition(Kept(w, v.membershipManifest), Unretained(MembershipManifest)),
     Condition(Parses(w, v.membershipManifest), Malformed(MembershipManifest)),
     Condition(forall data :: Given(v.membershipManifest) && Holds(w, v.membershipManifest, data) ==>
                 MembershipFile(w, data), About(MembershipManifest)),
     Condition(CountsMembers(w, v, v.memberCount), About(MemberCount)),
     Condition(forall m :: Frozen(w, v, m) ==> PyEqual(v.referencePopulationSha256, v.membershipSha256),
               About(ReferencePopulation))]
  }

  ghost predicate CoversAll(w: World, v: Fields) {
    forall m, coverage :: Compared(w, v, m, coverage) ==> Covered(w, v, m, coverage)
  }

  ghost predicate CountsExpected(w: World, v: Fields, count: Json) {
    forall m, coverage :: Compared(w, v, m, coverage) && Given(count) ==> PyEqual(count, JInt(|m.caseKeys|))
  }

  ghost predicate CountsRows(w: World, v: Fields, count: Json) {
    forall m, coverage :: Compared(w, v, m, coverage) && Given(count) ==>
      PyEqual(count, JInt(|Counted(w, v, m, coverage)|))
  }

  ghost predicate CountsRepeated(w: World, v: Fields, count: Json) {
    forall m, coverage :: Compared(w, v, m, coverage) && Given(count) ==>
      PyEqual(count, JInt(Repeated(Counted(w, v, m, coverage))))
  }

  ghost function CoverageDemands(w: World, v: Fields): seq<Condition<Complaint>> {
    [Condition(Kept(w, v.coverageManifest), Unretained(CoverageManifest)),
     Condition(Parses(w, v.coverageManifest), Malformed(CoverageManifest)),
     Condition(Given(v.coverageManifest) ==> !Holds(w, v.coverageManifest, JNull), About(CoverageManifest)),
     Condition(CoversAll(w, v), About(CoverageManifest)),
     Condition(CountsExpected(w, v, v.expectedCaseCount), About(ExpectedCount)),
     Condition(CountsRows(w, v, v.observedCaseCount), About(ObservedCount)),
     Condition(CountsRepeated(w, v, v.duplicateCaseCount), About(DuplicateCount))]
  }

  /** The coverage is that of the whole population. */
  ghost predicate Covered(w: World, v: Fields, m: Membership, coverage: Json) {
    forall k :: Unfolded(k) ==> WholePopulation(w, m, Items(v.policyRevisions), coverage)
  }

  /** How many of the keys come again. */
  ghost function Repeated(keys: seq<CaseKey>): int {
    |keys| - |Elements(keys)|
  }

  ghost function TotalDemands(v: Fields): seq<Condition<Complaint>> {
    [Condition(Given(v.expectedCaseCount) && Given(v.observedCaseCount) ==>
                 PyEqual(v.expectedCaseCount, v.observedCaseCount), About(ObservedCount)),
     Condition(Given(v.partiality) ==> v.partiality == JBool(false), About(Partiality)),
     Condition(Given(v.duplicateCaseCount) ==> PyEqual(v.duplicateCaseCount, JInt(0)), About(DuplicateCount))]
  }

  /** The limit of this name is of this kind, if it is given. */
  predicate Limited(w: World, v: Fields, name: string, kind: Kind) {
    Given(Get(v.thresholds, name)) ==> Has(w, v.thresholds, name, kind)
  }

  ghost function LimitDemands(w: World, v: Fields): seq<Condition<Complaint>> {
    [Condition(Limited(w, v, "case_count_max", Quantity), About(CaseCountMax)),
     Condition(Limited(w, v, "churn_per_hour_max", Quantity), About(ChurnMax)),
     Condition(Limited(w, v, "queue_backlog_max", Quantity), About(BacklogMax)),
     Condition(Limited(w, v, "latency_p95_ms_max", Quantity), About(LatencyMax)),
     Condition(Limited(w, v, "retention_horizon_seconds", Quantity), About(RetentionHorizon)),
     Condition(Limited(w, v, "recovery_rto_seconds_max", Quantity), About(RecoveryMax)),
     Condition(Limited(w, v, "case_count_max", Whole), About(CaseCountMax)),
     Condition(Limited(w, v, "queue_backlog_max", Whole), About(BacklogMax))]
  }

  ghost function WindowDemands(w: World, v: Fields): seq<Condition<Complaint>> {
    [Condition(Given(v.observationStart) ==> Meets(w, Instant, v.observationStart), About(ObservationStart)),
     Condition(Given(v.observationEnd) ==> Meets(w, Instant, v.observationEnd), About(ObservationEnd)),
     Condition(Meets(w, Instant, v.observationStart) && Meets(w, Instant, v.observationEnd) ==>
                 w.instant(v.observationStart.s).value < w.instant(v.observationEnd.s).value, About(ObservationWindow))]
  }

  ghost function RetentionDemands(w: World, v: Fields): seq<Condition<Complaint>> {
    [Condition(Kept(w, v.membershipManifest), Unretained(MembershipManifest)),
     Condition(Kept(w, v.packageManifest), Unretained(PackageManifest)),
     Condition(Kept(w, v.expectedExceptions), Unretained(ExpectedExceptions)),
     Condition(Kept(w, v.coverageManifest), Unretained(CoverageManifest))]
  }

  ghost function BaselineDemands(w: World, v: Fields, b: Binding): seq<Condition<Complaint>> {
    [Condition(Given(v.baselineEvidence) ==> exists run :: Baseline(w, v, b, run), About(BaselineEvidence))]
  }

  ghost function ApprovalDemands(w: World, value: Json, field: RecordField): seq<Condition<Complaint>> {
    [Condition(Given(value) ==> Approval(w, value), Malformed(field))]
  }

  ghost function ReportDemands(w: World, v: Fields): seq<Condition<Complaint>> {
    [Condition(Given(v.ownerApproval) ==> OwnerReviewed(w, v), About(OwnerApproval)),
     Condition(Given(v.operatorThresholdApproval) ==>
                 ThresholdsApproved(w, v, v.operatorThresholdApproval, "operator"), About(OperatorThresholds)),
     Condition(Given(v.releaseOwnerThresholdApproval) ==>
                 ThresholdsApproved(w, v, v.releaseOwnerThresholdApproval, "release_owner"),
               About(ReleaseOwnerThresholds))]
  }

  ghost function FinalDemands(w: World, v: Fields, b: Binding): seq<Condition<Complaint>> {
    [Condition(GateStates(b, "R6", "status", JString("passed")) ==> exists run :: Final(w, v, b, run),
               About(FinalEvidence))]
  }

  /** The first instant is before the second, as far as both are instants. */
  predicate Before(w: World, earlier: Json, later: Json) {
    Meets(w, Instant, earlier) && Meets(w, Instant, later) ==> w.instant(earlier.s).value < w.instant(later.s).value
  }

  ghost function BetweenDemands(w: World, v: Fields, b: Binding, value: Json,
                                field: RecordField): seq<Condition<Complaint>> {
    [Condition(forall run :: Baseline(w, v, b, run) ==> Before(w, Get(run, "ended_at"), Get(value, "signed_at")),
               About(field)),
     Condition(forall run :: Final(w, v, b, run) ==> Before(w, Get(value, "signed_at"), Get(run, "started_at")),
               About(field))]
  }

  /** Both are instants, and the same, or neither is one. */
  predicate SameInstant(w: World, a: Json, b: Json) {
    Time(w, a) == Time(w, b)
  }

  /** Both are quantities, and the first is above the second. */
  predicate Above(w: World, a: Json, b: Json) {
    && Meets(w, Quantity, a) && Meets(w, Quantity, b)
    && !NotAbove(Number(a).value, Number(b).value)
  }

  /** No final run measures more than the limit. */
  ghost predicate Within(w: World, v: Fields, b: Binding, measured: string, limit: string) {
    forall run :: Final(w, v, b, run) ==> !Above(w, Get(Get(run, "summary"), measured), Get(v.thresholds, limit))
  }

  /** Every final run keeps what it has at least as long as the limit asks. */
  ghost predicate Retains(w: World, v: Fields, b: Binding) {
    forall run :: Final(w, v, b, run) ==>
      !Above(w, Get(v.thresholds, "retention_horizon_seconds"), Get(Get(run, "summary"), "retention_horizon_seconds"))
  }

  ghost function EnvelopeDemands(w: World, v: Fields, b: Binding): seq<Condition<Complaint>> {
    [Condition(forall run :: Final(w, v, b, run) ==>
                 SameInstant(w, v.observationStart, Get(run, "started_at"))
                 && SameInstant(w, v.observationEnd, Get(run, "ended_at")), About(ObservationWindow)),
     Condition(Within(w, v, b, "case_count", "case_count_max"), About(CaseCountMax)),
     Condition(Within(w, v, b, "churn_per_hour", "churn_per_hour_max"), About(ChurnMax)),
     Condition(Within(w, v, b, "queue_backlog", "queue_backlog_max"), About(BacklogMax)),
     Condition(Within(w, v, b, "latency_p95_ms", "latency_p95_ms_max"), About(LatencyMax)),
     Condition(Retains(w, v, b), About(RetentionHorizon)),
     Condition(Within(w, v, b, "recovery_rto_seconds", "recovery_rto_seconds_max"), About(RecoveryMax))]
  }

  predicate Document(w: World, j: Json) {
    Given(j) ==> j.JString? && w.supportDocument(j.s)
  }

  ghost function DocumentDemands(w: World, v: Fields): seq<Condition<Complaint>> {
    [Condition(Document(w, v.releaseNotes), About(ReleaseNotes)),
     Condition(Document(w, v.supportMatrix), About(SupportMatrix)),
     Condition(Document(w, v.operatorGuide), About(OperatorGuide))]
  }

  ghost function SignoffDemands(w: World, v: Fields, b: Binding, value: Json, role: string,
                                field: RecordField): seq<Condition<Complaint>> {
    [Condition(Given(value) ==> Approval(w, value), Malformed(field)),
     Condition(Given(value) && Approval(w, value) ==> SignedOff(w, v, b, value, role), About(field)),
     Condition(Given(value) ==> Before(w, v.observationEnd, Get(value, "signed_at")), About(field))]
  }

  predicate Signer(value: Json) {
    value.JObject? && Get(value, "name").JString?
  }

  /** The two sign-offs name one person. */
  predicate SamePerson(w: World, a: Json, b: Json)
    requires Signer(a) && Signer(b)
  {
    w.normalName(Get(a, "name").s) == w.normalName(Get(b, "name").s)
  }

  ghost function SignersDemands(w: World, v: Fields, b: Binding): seq<Condition<Complaint>> {
    var (x, y, z) := (v.operatorSignoff, v.releaseOwnerSignoff, v.reviewerSignoff);
    [Condition(Signer(x) && Signer(y) && Signer(z) ==>
                 !SamePerson(w, x, y) && !SamePerson(w, x, z) && !SamePerson(w, y, z), About(ThreeReviewers)),
     Condition(Given(x) && Given(y) && Given(z) ==>
                 PyEqual(GateField(b.gates, "R8", "evidence"),
                         JArray([Get(x, "evidence"), Get(y, "evidence"), Get(z, "evidence")])), About(SignoffEvidence))]
  }

  ghost function StageDemands(w: World, v: Fields, b: Binding): seq<Condition<Complaint>> {
    [Condition(GateStates(b, "R4", "status", JString("passed")) || Given(GateField(b.gates, "R4", "evidence")) ==>
                 StagesReported(w, v, b), About(StageEvidence))]
  }

  lemma FormatsDemanded(w: World, v: Fields)
    ensures FormatConditions(w, v) == FormatDemands(w, v)
  {
    DigitsExact(w, v.membershipSha256, 64);
    DigitsExact(w, v.packageDigest, 64);
    DigitsExact(w, v.referencePopulationSha256, 64);
    GivenExact();
  }

  lemma GivenExact()
    ensures forall j :: Given(j) <==> Present(j)
  {
    forall j ensures Given(j) <==> Present(j) {
      PresentExact(j);
    }
  }

  lemma CountsDemanded(w: World, v: Fields)
    ensures CountConditions(v) == CountDemands(w, v)
  {
    GivenExact();
    StringsExact(v.policyRevisions);
    if v.membershipSha256.JString? {
      TextIs(Get(v.membershipManifest, "sha256"), v.membershipSha256);
    }
    if v.packageDigest.JString? {
      TextIs(Get(v.packageManifest, "sha256"), v.packageDigest);
    }
  }

  lemma MembershipDemanded(w: World, v: Fields)
    ensures MembershipConditions(w, v) == MembershipDemands(w, v)
  {
    GivenExact();
    RetainedExact(w, v.membershipManifest);
    ReportBehind(w, v.membershipManifest);
    forall m ensures Frozen(w, v, m) <==> FrozenMembership(w, v) == Some(m) {
      FrozenExact(w, v, m);
    }
    forall data ensures MembershipFile(w, data) <==> MembershipShape(w, data) {
      MembershipFileExact(w, data);
    }
  }

  lemma CoverageDemanded(w: World, v: Fields, b: Binding, f: Findings)
    requires Found(w, v, b, f)
    ensures CoverageConditions(w, v, f) == CoverageDemands(w, v)
  {
    GivenExact();
    RetainedExact(w, v.coverageManifest);
    ReportBehind(w, v.coverageManifest);
    CoversDemanded(w, v, b, f);
    ExpectedDemanded(w, v);
    RowsDemanded(w, v, b, f);
    RepeatedDemanded(w, v, b, f);
  }

  predicate Comparable(w: World, v: Fields) {
    FrozenMembership(w, v).Some? && Coverage(w, v).Some?
  }

  /** There is one comparison at most. */
  lemma OneComparison(w: World, v: Fields)
    ensures forall m, coverage :: Compared(w, v, m, coverage) <==>
      FrozenMembership(w, v) == Some(m) && Coverage(w, v) == Some(coverage)
    ensures Comparable(w, v) ==> Compared(w, v, FrozenMembership(w, v).value, Coverage(w, v).value)
  {
    forall m, coverage
      ensures Compared(w, v, m, coverage) <==> FrozenMembership(w, v) == Some(m) && Coverage(w, v) == Some(coverage)
    {
      ComparedExact(w, v, m, coverage);
    }
  }

  lemma CoversDemanded(w: World, v: Fields, b: Binding, f: Findings)
    requires Found(w, v, b, f)
    ensures CoversAll(w, v) <==> (Comparable(w, v) ==> f.partitioned)
  {
    OneComparison(w, v);
    PartitionIsFound(w, v, b, f);
    if Comparable(w, v) {
      CoveredExact(w, v, FrozenMembership(w, v).value, Coverage(w, v).value);
    }
  }

  lemma ExpectedDemanded(w: World, v: Fields)
    ensures CountsExpected(w, v, v.expectedCaseCount)
       <==> (Comparable(w, v) && Given(v.expectedCaseCount) ==>
               PyEqual(v.expectedCaseCount, JInt(|FrozenMembership(w, v).value.caseKeys|)))
  {
    OneComparison(w, v);
  }

  lemma RowsDemanded(w: World, v: Fields, b: Binding, f: Findings)
    requires Found(w, v, b, f)
    ensures CountsRows(w, v, v.observedCaseCount)
       <==> (Comparable(w, v) && Given(v.observedCaseCount) ==> PyEqual(v.observedCaseCount, JInt(f.rowCount)))
  {
    OneComparison(w, v);
    PartitionIsFound(w, v, b, f);
  }

  lemma RepeatedDemanded(w: World, v: Fields, b: Binding, f: Findings)
    requires Found(w, v, b, f)
    ensures CountsRepeated(w, v, v.duplicateCaseCount)
       <==> (Comparable(w, v) && Given(v.duplicateCaseCount) ==> PyEqual(v.duplicateCaseCount, JInt(f.duplicates)))
  {
    OneComparison(w, v);
    if Comparable(w, v) {
      RepeatedFound(w, v, b, f, FrozenMembership(w, v).value, Coverage(w, v).value);
    }
  }

  lemma RepeatedFound(w: World, v: Fields, b: Binding, f: Findings, m: Membership, coverage: Json)
    requires Found(w, v, b, f) && FrozenMembership(w, v) == Some(m) && Coverage(w, v) == Some(coverage)
    ensures Repeated(Counted(w, v, m, coverage)) == f.duplicates
  {
    PartitionIsFound(w, v, b, f);
    assert RowsFound(w, v) == Counted(w, v, m, coverage);
  }

  lemma CoveredExact(w: World, v: Fields, m: Membership, coverage: Json)
    ensures Covered(w, v, m, coverage) <==> Partitions(w, v, m, coverage)
  {
    assert Unfolded(0);
    PopulationExact(w, m, Items(v.policyRevisions), coverage);
  }

  lemma TotalsDemanded(v: Fields)
    ensures TotalConditions(v) == TotalDemands(v)
  {
    GivenExact();
  }

  lemma LimitsDemanded(w: World, v: Fields)
    ensures LimitConditions(v) == LimitDemands(w, v)
  {
    GivenExact();
    forall name ensures FiniteNonnegative(Get(v.thresholds, name)) <==> Has(w, v.thresholds, name, Quantity) {
      QuantityExact(w, Get(v.thresholds, name));
    }
  }

  lemma WindowDemanded(w: World, v: Fields)
    ensures WindowConditions(w, v) == WindowDemands(w, v)
  {
    GivenExact();
  }

  lemma RetentionDemanded(w: World, v: Fields)
    ensures RetentionConditions(w, v) == RetentionDemands(w, v)
  {
    GivenExact();
    forall reference ensures Retained(w, reference) <==> Verified(w, reference) {
      RetainedExact(w, reference);
    }
  }

  lemma ApprovalDemanded(w: World, value: Json, field: RecordField)
    ensures ApprovalDemands(w, value, field) == FormConditions(w, value, field)
  {
    GivenExact();
    ApprovalExact(w, value);
  }

  lemma ReportsDemanded(w: World, v: Fields)
    ensures ApprovalReportConditions(w, v) == ReportDemands(w, v)
  {
    GivenExact();
    OwnerReviewedExact(w, v);
    ThresholdsApprovedExact(w, v, v.operatorThresholdApproval, "operator");
    ThresholdsApprovedExact(w, v, v.releaseOwnerThresholdApproval, "release_owner");
  }

  lemma DocumentsDemanded(w: World, v: Fields)
    ensures DocumentConditions(w, v) == DocumentDemands(w, v)
  {
    GivenExact();
  }

  lemma SignoffDemanded(w: World, v: Fields, b: Binding, value: Json, role: string, field: RecordField)
    ensures SignoffDemands(w, v, b, value, role, field) == SignoffConditions(w, v, b, value, role, field)
  {
    GivenExact();
    ApprovalExact(w, value);
    SignedOffExact(w, v, b, value, role);
  }

  lemma SignerIsGiven(w: World, value: Json)
    ensures Signer(value) ==> SignerNames(w, value) == [w.normalName(Get(value, "name").s)]
    ensures !Signer(value) ==> SignerNames(w, value) == []
  {
  }

  lemma SignersDemanded(w: World, v: Fields, b: Binding)
    ensures SignersConditions(w, v, b) == SignersDemands(w, v, b)
  {
    GivenExact();
    var (x, y, z) := (v.operatorSignoff, v.releaseOwnerSignoff, v.reviewerSignoff);
    SignerIsGiven(w, x);
    SignerIsGiven(w, y);
    SignerIsGiven(w, z);
    var names := AllSignerNames(w, v);
    if Signer(x) && Signer(y) && Signer(z) {
      assert names[0] == w.normalName(Get(x, "name").s) && names[1] == w.normalName(Get(y, "name").s)
          && names[2] == w.normalName(Get(z, "name").s);
      assert Distinct(names) <==> names[0] != names[1] && names[0] != names[2] && names[1] != names[2];
    }
  }

  lemma StagesDemanded(w: World, v: Fields, b: Binding, f: Findings)
    requires Found(w, v, b, f)
    ensures StageDemands(w, v, b) == [Condition(StagesDue(b) ==> f.stagesValid, About(StageEvidence))]
  {
    GivenExact();
    StagesAreFound(w, v, b, f);
    StagesReportedExact(w, v, b);
    GateStatesExact(b, "R4", "status", JString("passed"));
  }

  lemma RunsDemanded(w: World, v: Fields, b: Binding, f: Findings)
    requires Found(w, v, b, f)
    ensures forall run :: Baseline(w, v, b, run) <==> f.baseline == Some(run)
    ensures forall run :: Final(w, v, b, run) <==> f.final == Some(run)
    ensures (exists run :: Baseline(w, v, b, run)) <==> f.baseline.Some?
    ensures (exists run :: Final(w, v, b, run)) <==> f.final.Some?
  {
    forall run
      ensures Baseline(w, v, b, run) <==> f.baseline == Some(run)
      ensures Final(w, v, b, run) <==> f.final == Some(run)
    {
      BaselineExact(w, v, b, f, run);
      FinalExact(w, v, b, f, run);
    }
    if f.baseline.Some? {
      assert Baseline(w, v, b, f.baseline.value);
    }
    if f.final.Some? {
      assert Final(w, v, b, f.final.value);
    }
  }

  lemma BaselineDemanded(w: World, v: Fields, b: Binding, f: Findings)
    requires Found(w, v, b, f)
    ensures BaselineDemands(w, v, b)
         == [Condition(Present(v.baselineEvidence) ==> f.baseline.Some?, About(BaselineEvidence))]
  {
    GivenExact();
    RunsDemanded(w, v, b, f);
  }

  lemma FinalDemanded(w: World, v: Fields, b: Binding, f: Findings)
    requires Found(w, v, b, f)
    ensures FinalDemands(w, v, b)
         == [Condition(Passed(b.gates, "R6") ==> f.final.Some?, About(FinalEvidence))]
  {
    RunsDemanded(w, v, b, f);
    GateStatesExact(b, "R6", "status", JString("passed"));
  }

  lemma AfterBaseline(w: World, v: Fields, b: Binding, f: Findings, value: Json)
    requires forall run :: Baseline(w, v, b, run) <==> f.baseline == Some(run)
    requires f.baseline.Some? ==> Timed(w, f.baseline.value)
    ensures (forall run :: Baseline(w, v, b, run) ==> Before(w, Get(run, "ended_at"), Get(value, "signed_at")))
       <==> (f.baseline.Some? && Time(w, Get(value, "signed_at")).Some? ==>
               Ended(w, f.baseline.value) < Time(w, Get(value, "signed_at")).value)
  {
  }

  lemma BeforeFinal(w: World, v: Fields, b: Binding, f: Findings, value: Json)
    requires forall run :: Final(w, v, b, run) <==> f.final == Some(run)
    requires f.final.Some? ==> Timed(w, f.final.value)
    ensures (forall run :: Final(w, v, b, run) ==> Before(w, Get(value, "signed_at"), Get(run, "started_at")))
       <==> (f.final.Some? && Time(w, Get(value, "signed_at")).Some? ==>
               Time(w, Get(value, "signed_at")).value < Started(w, f.final.value))
  {
  }

  lemma BetweenDemanded(w: World, v: Fields, b: Binding, f: Findings, value: Json, field: RecordField)
    requires Found(w, v, b, f)
    ensures BetweenDemands(w, v, b, value, field) == BetweenConditions(w, value, f, field)
  {
    RunsDemanded(w, v, b, f);
    RunsFound(w, v, b, f);
    AfterBaseline(w, v, b, f, value);
    BeforeFinal(w, v, b, f, value);
  }

  lemma AboveExact(w: World, a: Json, b: Json)
    ensures !Above(w, a, b) <==> AtMost(a, b)
  {
    QuantityExact(w, a);
    QuantityExact(w, b);
  }

  lemma WithinExact(w: World, v: Fields, b: Binding, f: Findings, measured: string, limit: string, field: RecordField)
    requires forall run :: Final(w, v, b, run) <==> f.final == Some(run)
    ensures Condition(Within(w, v, b, measured, limit), About(field)) == EnvelopeCondition(v, f, measured, limit, field)
  {
    if f.final.Some? {
      AboveExact(w, Get(Get(f.final.value, "summary"), measured), Get(v.thresholds, limit));
    }
  }

  lemma RetainsExact(w: World, v: Fields, b: Binding, f: Findings)
    requires forall run :: Final(w, v, b, run) <==> f.final == Some(run)
    ensures Retains(w, v, b)
       <==> (f.final.Some? ==> AtMost(Get(v.thresholds, "retention_horizon_seconds"),
                                      Get(Get(f.final.value, "summary"), "retention_horizon_seconds")))
  {
    if f.final.Some? {
      AboveExact(w, Get(v.thresholds, "retention_horizon_seconds"),
                 Get(Get(f.final.value, "summary"), "retention_horizon_seconds"));
    }
  }

  lemma LimitsKept(w: World, v: Fields, b: Binding, f: Findings)
    requires forall run :: Final(w, v, b, run) <==> f.final == Some(run)
    ensures EnvelopeDemands(w, v, b) == EnvelopeConditions(w, v, f)
  {
    WithinExact(w, v, b, f, "case_count", "case_count_max", CaseCountMax);
    WithinExact(w, v, b, f, "churn_per_hour", "churn_per_hour_max", ChurnMax);
    WithinExact(w, v, b, f, "queue_backlog", "queue_backlog_max", BacklogMax);
    WithinExact(w, v, b, f, "latency_p95_ms", "latency_p95_ms_max", LatencyMax);
    RetainsExact(w, v, b, f);
    WithinExact(w, v, b, f, "recovery_rto_seconds", "recovery_rto_seconds_max", RecoveryMax);
  }

  lemma EnvelopeDemanded(w: World, v: Fields, b: Binding, f: Findings)
    requires Found(w, v, b, f)
    ensures EnvelopeDemands(w, v, b) == EnvelopeConditions(w, v, f)
  {
    RunsDemanded(w, v, b, f);
    LimitsKept(w, v, b, f);
  }

  // ---- All of them ----

  /** What is asked, in the order of the checks. */
  ghost function DemandGroup(w: World, v: Fields, b: Binding, group: nat): seq<Condition<Complaint>> {
    match group
    case 0 => FormatDemands(w, v)
    case 1 => CountDemands(w, v)
    case 2 => MembershipDemands(w, v)
    case 3 => CoverageDemands(w, v)
    case 4 => TotalDemands(v)
    case 5 => LimitDemands(w, v)
    case 6 => WindowDemands(w, v)
    case 7 => RetentionDemands(w, v)
    case 8 => BaselineDemands(w, v, b)
    case 9 => ApprovalDemands(w, v.ownerApproval, OwnerApproval)
    case 10 => ApprovalDemands(w, v.operatorThresholdApproval, OperatorThresholds)
    case 11 => ApprovalDemands(w, v.releaseOwnerThresholdApproval, ReleaseOwnerThresholds)
    case 12 => ReportDemands(w, v)
    case 13 => FinalDemands(w, v, b)
    case 14 => BetweenDemands(w, v, b, v.operatorThresholdApproval, OperatorThresholds)
    case 15 => BetweenDemands(w, v, b, v.releaseOwnerThresholdApproval, ReleaseOwnerThresholds)
    case 16 => EnvelopeDemands(w, v, b)
    case 17 => DocumentDemands(w, v)
    case 18 => SignoffDemands(w, v, b, v.operatorSignoff, "operator", OperatorSignoff)
    case 19 => SignoffDemands(w, v, b, v.releaseOwnerSignoff, "release_owner", ReleaseOwnerSignoff)
    case 20 => SignoffDemands(w, v, b, v.reviewerSignoff, "independent_reviewer", ReviewerSignoff)
    case 21 => SignersDemands(w, v, b)
    case _ => StageDemands(w, v, b)
  }

  lemma CohortDemanded(w: World, v: Fields, b: Binding, f: Findings, group: nat)
    requires Found(w, v, b, f) && group < 3
    ensures DemandGroup(w, v, b, group) == InvalidGroup(w, v, b, f, group)
  {
    match group
    case 0 => FormatsDemanded(w, v);
    case 1 => CountsDemanded(w, v);
    case 2 => MembershipDemanded(w, v);
  }

  lemma ShadowDemanded(w: World, v: Fields, b: Binding, f: Findings, group: nat)
    requires Found(w, v, b, f) && 3 <= group < 8
    ensures DemandGroup(w, v, b, group) == InvalidGroup(w, v, b, f, group)
  {
    match group
    case 3 => CoverageDemanded(w, v, b, f);
    case 4 => TotalsDemanded(v);
    case 5 => LimitsDemanded(w, v);
    case 6 => WindowDemanded(w, v);
    case 7 => RetentionDemanded(w, v);
  }

  lemma FormsDemanded(w: World, v: Fields, b: Binding, f: Findings, group: nat)
    requires Found(w, v, b, f) && 8 <= group < 11
    ensures DemandGroup(w, v, b, group) == InvalidGroup(w, v, b, f, group)
  {
    match group
    case 8 => BaselineDemanded(w, v, b, f);
    case 9 => ApprovalDemanded(w, v.ownerApproval, OwnerApproval);
    case 10 => ApprovalDemanded(w, v.operatorThresholdApproval, OperatorThresholds);
  }

  lemma ApprovalsDemanded(w: World, v: Fields, b: Binding, f: Findings, group: nat)
    requires Found(w, v, b, f) && 11 <= group < 14
    ensures DemandGroup(w, v, b, group) == InvalidGroup(w, v, b, f, group)
  {
    match group
    case 11 => ApprovalDemanded(w, v.releaseOwnerThresholdApproval, ReleaseOwnerThresholds);
    case 12 => ReportsDemanded(w, v);
    case 13 => FinalDemanded(w, v, b, f);
  }

  lemma OperatorTimesDemanded(w: World, v: Fields, b: Binding, f: Findings, group: nat)
    requires Found(w, v, b, f) && group == 14
    ensures DemandGroup(w, v, b, group) == InvalidGroup(w, v, b, f, group)
  {
    BetweenDemanded(w, v, b, f, v.operatorThresholdApproval, OperatorThresholds);
  }

  lemma OwnerTimesDemanded(w: World, v: Fields, b: Binding, f: Findings, group: nat)
    requires Found(w, v, b, f) && group == 15
    ensures DemandGroup(w, v, b, group) == InvalidGroup(w, v, b, f, group)
  {
    BetweenDemanded(w, v, b, f, v.releaseOwnerThresholdApproval, ReleaseOwnerThresholds);
  }

  lemma FinalRunDemanded(w: World, v: Fields, b: Binding, f: Findings, group: nat)
    requires Found(w, v, b, f) && 16 <= group < 18
    ensures DemandGroup(w, v, b, group) == InvalidGroup(w, v, b, f, group)
  {
    match group
    case 16 => EnvelopeDemanded(w, v, b, f);
    case 17 => DocumentsDemanded(w, v);
  }

  lemma SignoffsDemanded(w: World, v: Fields, b: Binding, f: Findings, group: nat)
    requires Found(w, v, b, f) && 18 <= group < 21
    ensures DemandGroup(w, v, b, group) == InvalidGroup(w, v, b, f, group)
  {
    match group
    case 18 => SignoffDemanded(w, v, b, v.operatorSignoff, "operator", OperatorSignoff);
    case 19 => SignoffDemanded(w, v, b, v.releaseOwnerSignoff, "release_owner", ReleaseOwnerSignoff);
    case 20 => SignoffDemanded(w, v, b, v.reviewerSignoff, "independent_reviewer", ReviewerSignoff);
  }

  lemma StagesGroupDemanded(w: World, v: Fields, b: Binding, f: Findings, group: nat)
    requires Found(w, v, b, f) && group == 22
    ensures DemandGroup(w, v, b, group) == InvalidGroup(w, v, b, f, group)
  {
    StagesDemanded(w, v, b, f);
  }

  lemma SignersGroupDemanded(w: World, v: Fields, b: Binding, f: Findings, group: nat)
    requires Found(w, v, b, f) && group == 21
    ensures DemandGroup(w, v, b, group) == InvalidGroup(w, v, b, f, group)
  {
    SignersDemanded(w, v, b);
  }

  lemma GroupDemanded(w: World, v: Fields, b: Binding, f: Findings, group: nat)
    requires Found(w, v, b, f) && group < INVALID_GROUPS
    ensures DemandGroup(w, v, b, group) == InvalidGroup(w, v, b, f, group)
  {
    if group < 3 {
      CohortDemanded(w, v, b, f, group);
    } else if group < 8 {
      ShadowDemanded(w, v, b, f, group);
    } else if group < 11 {
      FormsDemanded(w, v, b, f, group);
    } else if group < 14 {
      ApprovalsDemanded(w, v, b, f, group);
    } else if group == 14 {
      OperatorTimesDemanded(w, v, b, f, group);
    } else if group == 15 {
      OwnerTimesDemanded(w, v, b, f, group);
    } else if group < 18 {
      FinalRunDemanded(w, v, b, f, group);
    } else if group < 21 {
      SignoffsDemanded(w, v, b, f, group);
    } else if group == 21 {
      SignersGroupDemanded(w, v, b, f, group);
    } else {
      StagesGroupDemanded(w, v, b, f, group);
    }
  }

  ghost function DemandGroups(w: World, v: Fields, b: Binding): seq<seq<Condition<Complaint>>> {
    seq(INVALID_GROUPS, group requires 0 <= group < INVALID_GROUPS => DemandGroup(w, v, b, group))
  }

  ghost function AllDemands(w: World, v: Fields, b: Binding): seq<Condition<Complaint>> {
    Flatten(DemandGroups(w, v, b))
  }

  lemma DemandsExact(w: World, v: Fields, b: Binding)
    ensures AllDemands(w, v, b) == InvalidConditions(w, v, b)
  {
    var f := SomeFindings(w, v, b);
    var d, c := DemandGroups(w, v, b), InvalidGroups(w, v, b, f);
    forall group: nat | group < INVALID_GROUPS ensures d[group] == c[group] {
      GroupDemanded(w, v, b, f, group);
    }
    assert d == c;
    FindingsFound(w, v, b, f);
  }

  lemma FindingsFound(w: World, v: Fields, b: Binding, f: Findings)
    requires Found(w, v, b, f)
    ensures InvalidConditions(w, v, b) == InvalidGiven(w, v, b, f)
  {
    assert Unfolded(0);
  }

  lemma ConditionsMean(w: World, v: Fields, b: Binding, invalid: seq<Complaint>)
    ensures InvalidAre(invalid, w, v, b) <==> NamesFailing(invalid, InvalidConditions(w, v, b))
    ensures NothingInvalid(w, v, b) <==> AllHold(InvalidConditions(w, v, b))
  {
    assert Unfolded(0);
  }

  ghost predicate DemandsMet(w: World, v: Fields, b: Binding) {
    forall k :: Unfolded(k) ==> AllHold(AllDemands(w, v, b))
  }

  /** The complaints are the subjects of the demands that are not met. */
  ghost predicate NamesUnmet(invalid: seq<Complaint>, w: World, v: Fields, b: Binding) {
    forall k :: Unfolded(k) ==> NamesFailing(invalid, AllDemands(w, v, b))
  }

  lemma UnmetMean(w: World, v: Fields, b: Binding, invalid: seq<Complaint>)
    ensures NamesUnmet(invalid, w, v, b) <==> NamesFailing(invalid, AllDemands(w, v, b))
    ensures DemandsMet(w, v, b) <==> AllHold(AllDemands(w, v, b))
  {
    assert Unfolded(0);
  }

  /** The validator complains of exactly the unmet demands, and of none when they are all met. */
  lemma ComplaintsAreUnmet(w: World, v: Fields, b: Binding, invalid: seq<Complaint>)
    ensures InvalidAre(invalid, w, v, b) <==> NamesUnmet(invalid, w, v, b)
    ensures NothingInvalid(w, v, b) <==> DemandsMet(w, v, b)
  {
    DemandsExact(w, v, b);
    ConditionsMean(w, v, b, invalid);
    UnmetMean(w, v, b, invalid);
  }
}
