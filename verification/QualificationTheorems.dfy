// What a qualified release implies across the whole decision
// (tests/integrations/pg-mdm/derive_v050_qualification.py:401-1145).
//
// One order of time from the baseline run to the last sign-off, one subject of all reports, the complete list of
// gates, the partitioned population, the approved limits, and what the final sign-offs bind.

module QualificationTheorems {
  import opened Basics
  import opened Complaints
  import opened Json
  import opened Evidence
  import opened ShadowCoverage
  import opened OperatingRun
  import opened ReleaseRecord
  import opened Qualification

  // ---- One global time order ----

  /** An instant of a signed value, when it has one. */
  function SignedAt(w: World, value: Json): Option<int> {
    Time(w, Get(value, "signed_at"))
  }

  /** a happens before b. */
  predicate Earlier(a: Option<int>, b: Option<int>) {
    a.Some? && b.Some? && a.value < b.value
  }

  predicate NotLater(a: Option<int>, b: Option<int>) {
    a.Some? && b.Some? && a.value <= b.value
  }

  function Start(w: World, j: Json): Option<int> {
    Time(w, Get(j, "started_at"))
  }

  function End(w: World, j: Json): Option<int> {
    Time(w, Get(j, "ended_at"))
  }

  /** Baseline run, then both threshold approvals, then the final run, which is the observation window. */
  predicate RunsInOrder(w: World, v: Fields, baseline: Json, final: Json) {
    && Earlier(Start(w, baseline), End(w, baseline)) && Earlier(Start(w, final), End(w, final))
    && Earlier(End(w, baseline), SignedAt(w, v.operatorThresholdApproval))
    && Earlier(End(w, baseline), SignedAt(w, v.releaseOwnerThresholdApproval))
    && Earlier(SignedAt(w, v.operatorThresholdApproval), Start(w, final))
    && Earlier(SignedAt(w, v.releaseOwnerThresholdApproval), Start(w, final))
    && Time(w, v.observationStart) == Start(w, final) && Time(w, v.observationEnd) == End(w, final)
  }

  /** The owner's approval, the review, routing, escalation and the supported profile, which is the observation window.
      */
  predicate StagesFollow(w: World, v: Fields, stages: seq<Json>) {
    && |stages| == 5
    && NotLater(SignedAt(w, v.ownerApproval), End(w, stages[1]))
    && (forall i :: 0 <= i < 5 ==> Earlier(Start(w, stages[i]), End(w, stages[i])))
    && NotLater(End(w, stages[0]), Start(w, stages[1])) && NotLater(End(w, stages[1]), Start(w, stages[2]))
    && NotLater(End(w, stages[2]), Start(w, stages[3])) && NotLater(End(w, stages[3]), Start(w, stages[4]))
    && Time(w, v.observationStart) == Start(w, stages[4]) && Time(w, v.observationEnd) == End(w, stages[4])
  }

  /** All three sign-offs come after the observation window, from three different people. */
  predicate SignoffsLast(w: World, v: Fields) {
    && Earlier(Time(w, v.observationEnd), SignedAt(w, v.operatorSignoff))
    && Earlier(Time(w, v.observationEnd), SignedAt(w, v.releaseOwnerSignoff))
    && Earlier(Time(w, v.observationEnd), SignedAt(w, v.reviewerSignoff))
    && var (x, y, z) := (Get(v.operatorSignoff, "name"), Get(v.releaseOwnerSignoff, "name"),
                         Get(v.reviewerSignoff, "name"));
    && x.JString? && y.JString? && z.JString?
    && w.normalName(x.s) != w.normalName(y.s) && w.normalName(x.s) != w.normalName(z.s)
    && w.normalName(y.s) != w.normalName(z.s)
  }

  /** What an accepted record must hold. */
  lemma NothingIsMissing(v: Fields)
    requires NothingMissing(v)
    ensures Present(v.membershipManifest) && Present(v.membershipSha256) && Present(v.memberCount)
    ensures Present(v.coverageManifest)
    ensures Present(v.expectedCaseCount) && Present(v.observedCaseCount) && Present(v.duplicateCaseCount)
    ensures Present(v.partiality)
    ensures Present(v.ownerApproval) && Present(v.baselineEvidence)
    ensures Present(v.operatorThresholdApproval) && Present(v.releaseOwnerThresholdApproval)
    ensures Present(v.operatorSignoff) && Present(v.releaseOwnerSignoff) && Present(v.reviewerSignoff)
  {
    MissingGroupHolds(v, 1);
    MissingGroupHolds(v, 2);
    MissingGroupHolds(v, 3);
    MissingGroupHolds(v, 4);
    MissingGroupHolds(v, 5);
    var cohort, shadow := MissingGroup(v, 1), MissingGroup(v, 2);
    assert cohort[1].holds && cohort[2].holds && cohort[3].holds;
    assert shadow[1].holds && shadow[2].holds && shadow[3].holds && shadow[4].holds && shadow[5].holds
      && shadow[6].holds;
    assert MissingGroup(v, 3)[0].holds;
    assert MissingGroup(v, 4)[2].holds && MissingGroup(v, 4)[3].holds;
    assert MissingGroup(v, 5)[0].holds && MissingGroup(v, 5)[1].holds && MissingGroup(v, 5)[2].holds;
  }

  lemma LimitsArePresent(v: Fields)
    requires NothingMissing(v)
    ensures Present(Threshold(v, "case_count_max")) && Present(Threshold(v, "churn_per_hour_max"))
    ensures Present(Threshold(v, "queue_backlog_max")) && Present(Threshold(v, "latency_p95_ms_max"))
    ensures Present(Threshold(v, "retention_horizon_seconds")) && Present(Threshold(v, "recovery_rto_seconds_max"))
  {
    MissingGroupHolds(v, 3);
    var limits := MissingGroup(v, 3);
    assert limits[1].holds && limits[2].holds && limits[3].holds && limits[4].holds && limits[5].holds
      && limits[6].holds;
  }

  // The conditions of an accepted record, group by group.

  lemma BaselineConditionHolds(w: World, v: Fields, b: Binding, f: Findings)
    requires NothingInvalid(w, v, b) && Found(w, v, b, f)
    ensures Present(v.baselineEvidence) ==> f.baseline.Some?
  {
    GroupHolds(w, v, b, f, 8);
    assert InvalidGroup(w, v, b, f, 8)[0].holds;
  }

  lemma FinalConditionHolds(w: World, v: Fields, b: Binding, f: Findings)
    requires NothingInvalid(w, v, b) && Found(w, v, b, f)
    ensures Passed(b.gates, "R6") ==> f.final.Some?
  {
    GroupHolds(w, v, b, f, 13);
    assert InvalidGroup(w, v, b, f, 13)[0].holds;
  }

  lemma OperatorBetweenHolds(w: World, v: Fields, b: Binding, f: Findings)
    requires NothingInvalid(w, v, b) && Found(w, v, b, f)
    ensures AllHold(BetweenConditions(w, v.operatorThresholdApproval, f, OperatorThresholds))
  {
    GroupHolds(w, v, b, f, 14);
  }

  lemma ReleaseOwnerBetweenHolds(w: World, v: Fields, b: Binding, f: Findings)
    requires NothingInvalid(w, v, b) && Found(w, v, b, f)
    ensures AllHold(BetweenConditions(w, v.releaseOwnerThresholdApproval, f, ReleaseOwnerThresholds))
  {
    GroupHolds(w, v, b, f, 15);
  }

  lemma EnvelopeConditionsHold(w: World, v: Fields, b: Binding, f: Findings)
    requires NothingInvalid(w, v, b) && Found(w, v, b, f)
    ensures AllHold(EnvelopeConditions(w, v, f))
  {
    GroupHolds(w, v, b, f, 16);
  }

  lemma OperatorFormHolds(w: World, v: Fields, b: Binding, f: Findings)
    requires NothingInvalid(w, v, b) && Found(w, v, b, f)
    ensures AllHold(FormConditions(w, v.operatorThresholdApproval, OperatorThresholds))
  {
    GroupHolds(w, v, b, f, 10);
  }

  lemma ReleaseOwnerFormHolds(w: World, v: Fields, b: Binding, f: Findings)
    requires NothingInvalid(w, v, b) && Found(w, v, b, f)
    ensures AllHold(FormConditions(w, v.releaseOwnerThresholdApproval, ReleaseOwnerThresholds))
  {
    GroupHolds(w, v, b, f, 11);
  }

  lemma ApprovalReportsHold(w: World, v: Fields, b: Binding, f: Findings)
    requires NothingInvalid(w, v, b) && Found(w, v, b, f)
    ensures AllHold(ApprovalReportConditions(w, v))
  {
    GroupHolds(w, v, b, f, 12);
  }

  lemma SignoffConditionsHold(w: World, v: Fields, b: Binding, f: Findings)
    requires NothingInvalid(w, v, b) && Found(w, v, b, f)
    ensures AllHold(SignoffConditions(w, v, b, v.operatorSignoff, "operator", OperatorSignoff))
    ensures AllHold(SignoffConditions(w, v, b, v.releaseOwnerSignoff, "release_owner", ReleaseOwnerSignoff))
    ensures AllHold(SignoffConditions(w, v, b, v.reviewerSignoff, "independent_reviewer", ReviewerSignoff))
    ensures AllHold(SignersConditions(w, v, b))
  {
    OperatorConditionsHold(w, v, b, f);
    ReleaseOwnerConditionsHold(w, v, b, f);
    ReviewerConditionsHold(w, v, b, f);
    SignersConditionsHold(w, v, b, f);
  }

  lemma OperatorConditionsHold(w: World, v: Fields, b: Binding, f: Findings)
    requires NothingInvalid(w, v, b) && Found(w, v, b, f)
    ensures AllHold(SignoffConditions(w, v, b, v.operatorSignoff, "operator", OperatorSignoff))
  {
    GroupHolds(w, v, b, f, 18);
  }

  lemma ReleaseOwnerConditionsHold(w: World, v: Fields, b: Binding, f: Findings)
    requires NothingInvalid(w, v, b) && Found(w, v, b, f)
    ensures AllHold(SignoffConditions(w, v, b, v.releaseOwnerSignoff, "release_owner", ReleaseOwnerSignoff))
  {
    GroupHolds(w, v, b, f, 19);
  }

  lemma ReviewerConditionsHold(w: World, v: Fields, b: Binding, f: Findings)
    requires NothingInvalid(w, v, b) && Found(w, v, b, f)
    ensures AllHold(SignoffConditions(w, v, b, v.reviewerSignoff, "independent_reviewer", ReviewerSignoff))
  {
    GroupHolds(w, v, b, f, 20);
  }

  lemma SignersConditionsHold(w: World, v: Fields, b: Binding, f: Findings)
    requires NothingInvalid(w, v, b) && Found(w, v, b, f)
    ensures AllHold(SignersConditions(w, v, b))
  {
    GroupHolds(w, v, b, f, 21);
  }

  lemma StageConditionHolds(w: World, v: Fields, b: Binding, f: Findings)
    requires NothingInvalid(w, v, b) && Found(w, v, b, f)
    ensures StagesDue(b) ==> f.stagesValid
  {
    GroupHolds(w, v, b, f, 22);
    assert InvalidGroup(w, v, b, f, 22)[0].holds;
  }

  lemma PopulationConditionsHold(w: World, v: Fields, b: Binding, f: Findings)
    requires NothingInvalid(w, v, b) && Found(w, v, b, f)
    ensures AllHold(MembershipConditions(w, v)) && AllHold(CoverageConditions(w, v, f)) && AllHold(TotalConditions(v))
  {
    GroupHolds(w, v, b, f, 2);
    GroupHolds(w, v, b, f, 3);
    GroupHolds(w, v, b, f, 4);
  }

  lemma ApprovalsAreTimed(w: World, v: Fields)
    requires AllHold(FormConditions(w, v.operatorThresholdApproval, OperatorThresholds))
    requires AllHold(FormConditions(w, v.releaseOwnerThresholdApproval, ReleaseOwnerThresholds))
    requires Present(v.operatorThresholdApproval) && Present(v.releaseOwnerThresholdApproval)
    ensures SignedAt(w, v.operatorThresholdApproval).Some? && SignedAt(w, v.releaseOwnerThresholdApproval).Some?
  {
    assert FormConditions(w, v.operatorThresholdApproval, OperatorThresholds)[0].holds;
    assert FormConditions(w, v.releaseOwnerThresholdApproval, ReleaseOwnerThresholds)[0].holds;
  }

  lemma SignedBetween(w: World, value: Json, f: Findings, field: RecordField)
    requires AllHold(BetweenConditions(w, value, f, field)) && SignedAt(w, value).Some?
    requires f.baseline.Some? && f.final.Some? && Timed(w, f.baseline.value) && Timed(w, f.final.value)
    ensures Earlier(End(w, f.baseline.value), SignedAt(w, value))
    ensures Earlier(SignedAt(w, value), Start(w, f.final.value))
  {
    var c := BetweenConditions(w, value, f, field);
    assert c[0].holds && c[1].holds;
  }

  lemma RunsFollow(w: World, v: Fields, f: Findings)
    requires f.baseline.Some? && f.final.Some? && Timed(w, f.baseline.value) && Timed(w, f.final.value)
    requires AllHold(BetweenConditions(w, v.operatorThresholdApproval, f, OperatorThresholds))
    requires AllHold(BetweenConditions(w, v.releaseOwnerThresholdApproval, f, ReleaseOwnerThresholds))
    requires SignedAt(w, v.operatorThresholdApproval).Some? && SignedAt(w, v.releaseOwnerThresholdApproval).Some?
    requires AllHold(EnvelopeConditions(w, v, f))
    ensures RunsInOrder(w, v, f.baseline.value, f.final.value)
  {
    SignedBetween(w, v.operatorThresholdApproval, f, OperatorThresholds);
    SignedBetween(w, v.releaseOwnerThresholdApproval, f, ReleaseOwnerThresholds);
    assert EnvelopeConditions(w, v, f)[0].holds;
  }

  lemma StagesInSequence(w: World, v: Fields, c: StageContext, report: Json)
    requires ValidStages(w, c, report)
    requires c.ownerApproval == v.ownerApproval && c.observationStart == v.observationStart
    requires c.observationEnd == v.observationEnd
    ensures StagesFollow(w, v, Items(Get(report, "stages")))
  {
    var stages := Items(Get(report, "stages"));
    ReviewAndWindow(w, c, stages);
    OrderIsSequence(w, stages);
  }

  lemma ReviewAndWindow(w: World, c: StageContext, stages: seq<Json>)
    requires |stages| == 5 && ValidStage(w, c, 1, stages[1]) && ValidStage(w, c, 4, stages[4])
    ensures NotLater(SignedAt(w, c.ownerApproval), End(w, stages[1]))
    ensures Time(w, c.observationStart) == Start(w, stages[4]) && Time(w, c.observationEnd) == End(w, stages[4])
  {
  }

  lemma OrderIsSequence(w: World, stages: seq<Json>)
    requires |stages| == 5 && InOrder(w, stages)
    ensures forall i :: 0 <= i < 5 ==> Earlier(Start(w, stages[i]), End(w, stages[i]))
    ensures NotLater(End(w, stages[0]), Start(w, stages[1])) && NotLater(End(w, stages[1]), Start(w, stages[2]))
    ensures NotLater(End(w, stages[2]), Start(w, stages[3])) && NotLater(End(w, stages[3]), Start(w, stages[4]))
  {
    forall i | 0 <= i < 5 ensures Earlier(Start(w, stages[i]), End(w, stages[i])) {
      assert Timed(w, stages[i]);
    }
  }

  lemma SignoffHolds(w: World, v: Fields, b: Binding, value: Json, role: string, field: RecordField)
    requires AllHold(SignoffConditions(w, v, b, value, role, field)) && Present(value)
    ensures ApprovalFormed(w, value) && FinalSignoffValid(w, v, b, value, role)
    ensures var end, signedAt := Time(w, v.observationEnd), SignedAt(w, value);
            end.Some? && signedAt.Some? ==> end.value < signedAt.value
  {
    var c := SignoffConditions(w, v, b, value, role, field);
    assert c[0].holds && c[1].holds && c[2].holds;
  }

  lemma SignoffIsLast(w: World, v: Fields, b: Binding, value: Json, role: string, field: RecordField)
    requires AllHold(SignoffConditions(w, v, b, value, role, field)) && Present(value)
    requires Time(w, v.observationEnd).Some?
    ensures Earlier(Time(w, v.observationEnd), SignedAt(w, value))
    ensures Get(value, "name").JString? && SignerNames(w, value) == [w.normalName(Get(value, "name").s)]
  {
    SignoffHolds(w, v, b, value, role, field);
  }

  lemma SignoffsFollow(w: World, v: Fields, b: Binding)
    requires AllHold(SignoffConditions(w, v, b, v.operatorSignoff, "operator", OperatorSignoff))
    requires AllHold(SignoffConditions(w, v, b, v.releaseOwnerSignoff, "release_owner", ReleaseOwnerSignoff))
    requires AllHold(SignoffConditions(w, v, b, v.reviewerSignoff, "independent_reviewer", ReviewerSignoff))
    requires AllHold(SignersConditions(w, v, b)) && Time(w, v.observationEnd).Some?
    requires Present(v.operatorSignoff) && Present(v.releaseOwnerSignoff) && Present(v.reviewerSignoff)
    ensures SignoffsLast(w, v)
  {
    SignoffIsLast(w, v, b, v.operatorSignoff, "operator", OperatorSignoff);
    SignoffIsLast(w, v, b, v.releaseOwnerSignoff, "release_owner", ReleaseOwnerSignoff);
    SignoffIsLast(w, v, b, v.reviewerSignoff, "independent_reviewer", ReviewerSignoff);
    assert SignersConditions(w, v, b)[0].holds;
    var names := AllSignerNames(w, v);
    assert |names| == 3 && names[0] != names[1] && names[0] != names[2] && names[1] != names[2];
  }

  /** The whole course of a qualified release, in one order. */
  ghost predicate TimeOrdered(w: World, v: Fields, baseline: Json, final: Json, stages: seq<Json>) {
    RunsInOrder(w, v, baseline, final) && StagesFollow(w, v, stages) && SignoffsLast(w, v)
  }

  lemma RecordRunsFollow(w: World, v: Fields, b: Binding, f: Findings)
    requires RecordAccepted(w, v, b) && Found(w, v, b, f) && Passed(b.gates, "R6")
    ensures f.baseline.Some? && f.final.Some? && RunsInOrder(w, v, f.baseline.value, f.final.value)
  {
    NothingIsMissing(v);
    BaselineConditionHolds(w, v, b, f);
    FinalConditionHolds(w, v, b, f);
    OperatorBetweenHolds(w, v, b, f);
    ReleaseOwnerBetweenHolds(w, v, b, f);
    EnvelopeConditionsHold(w, v, b, f);
    OperatorFormHolds(w, v, b, f);
    ReleaseOwnerFormHolds(w, v, b, f);
    ApprovalsAreTimed(w, v);
    RunsFound(w, v, b, f);
    RunsFollow(w, v, f);
  }

  lemma RecordStagesFollow(w: World, v: Fields, b: Binding, f: Findings)
    requires NothingInvalid(w, v, b) && Found(w, v, b, f) && Passed(b.gates, "R4")
    ensures StageReport(w, b).Some? && StagesFollow(w, v, Items(Get(StageReport(w, b).value, "stages")))
  {
    StageConditionHolds(w, v, b, f);
    StagesAreFound(w, v, b, f);
    assert Unfolded(0);
    StagesInSequence(w, v, Stages(v, b), StageReport(w, b).value);
  }

  lemma RecordSignoffsFollow(w: World, v: Fields, b: Binding, f: Findings)
    requires RecordAccepted(w, v, b) && Found(w, v, b, f) && Time(w, v.observationEnd).Some?
    ensures SignoffsLast(w, v)
  {
    NothingIsMissing(v);
    SignoffConditionsHold(w, v, b, f);
    SignoffsFollow(w, v, b);
  }

  lemma RecordIsTimeOrdered(w: World, v: Fields, b: Binding) returns (baseline: Json, final: Json, stages: seq<Json>)
    requires RecordAccepted(w, v, b) && Passed(b.gates, "R4") && Passed(b.gates, "R6")
    ensures TimeOrdered(w, v, baseline, final, stages)
    ensures ReadJson(w, v.baselineEvidence) == Some(baseline) && ReadJson(w, FinalReference(b)) == Some(final)
    ensures StageReport(w, b).Some? && stages == Items(Get(StageReport(w, b).value, "stages"))
  {
    var f := SomeFindings(w, v, b);
    RecordRunsFollow(w, v, b, f);
    RunsFound(w, v, b, f);
    RecordStagesFollow(w, v, b, f);
    RecordSignoffsFollow(w, v, b, f);
    baseline, final, stages := f.baseline.value, f.final.value, Items(Get(StageReport(w, b).value, "stages"));
  }

  lemma GatesAreOpen(w: World, manifest: Json)
    requires ManifestAccepted(w, manifest)
    ensures GateListValid(Gates(manifest)) && GatesOpen(w, GateMap(Gates(manifest)))
  {
    assert Unfolded(0);
  }

  lemma PassedInside(w: World, gates: map<string, Json>)
    requires GatesOpen(w, gates)
    ensures Passed(gates, "R4") && Passed(gates, "R6")
  {
    assert GateOpen(w, gates, GATE_IDS[3]) && GateOpen(w, gates, GATE_IDS[5]);
  }

  /** A qualified release implies one global time order. */
  lemma GlobalTimeOrder(w: World, manifest: Json) returns (baseline: Json, final: Json, stages: seq<Json>)
    requires Qualified(w, manifest)
    ensures TimeOrdered(w, Extract(Record(manifest)), baseline, final, stages)
    ensures ReadJson(w, Extract(Record(manifest)).baselineEvidence) == Some(baseline)
    ensures ReadJson(w, FinalReference(BindingOf(w, manifest))) == Some(final)
    ensures StageReport(w, BindingOf(w, manifest)).Some?
    ensures stages == Items(Get(StageReport(w, BindingOf(w, manifest)).value, "stages"))
  {
    GatesAreOpen(w, manifest);
    PassedInside(w, GateMap(Gates(manifest)));
    baseline, final, stages := RecordIsTimeOrdered(w, Extract(Record(manifest)), BindingOf(w, manifest));
  }

  // ---- The gate list and the population ----

  ghost predicate Listed(gates: seq<Json>, id: string) {
    exists i :: 0 <= i < |gates| && Get(gates[i], "id") == JString(id)
  }

  lemma ListedGateIsOpen(w: World, gates: seq<Json>, i: nat)
    requires GateListValid(gates) && GatesOpen(w, GateMap(gates)) && i < |gates|
    ensures Get(gates[i], "status") == JString("passed") && EvidenceRetained(w, Get(gates[i], "evidence"))
    ensures Get(gates[i], "id").JString? && Get(gates[i], "id").s in GATE_IDS
  {
    assert GateWellFormed(gates[i]);
    var id := Get(gates[i], "id").s;
    GateMapHolds(gates, id);
    var j :| 0 <= j < |gates| && gates[j] == GateMap(gates)[id];
    SameIdSameGate(gates, i, j);
    var k :| 0 <= k < |GATE_IDS| && GATE_IDS[k] == id;
    assert GateOpen(w, GateMap(gates), GATE_IDS[k]);
  }

  lemma SameIdSameGate(gates: seq<Json>, i: nat, j: nat)
    requires DistinctIds(gates) && i < |gates| && j < |gates| && Get(gates[i], "id") == Get(gates[j], "id")
    ensures i == j
  {
  }

  lemma RequiredGateIsListed(w: World, gates: seq<Json>, k: nat)
    requires GatesOpen(w, GateMap(gates)) && k < |GATE_IDS|
    ensures Listed(gates, GATE_IDS[k])
  {
    assert GateOpen(w, GateMap(gates), GATE_IDS[k]);
    GateMapHolds(gates, GATE_IDS[k]);
    var i :| 0 <= i < |gates| && Identified(gates[i]) && Get(gates[i], "id").s == GATE_IDS[k];
    assert Get(gates[i], "id") == JString(GATE_IDS[k]);
  }

  /** The gate list is the required gates, each once, all passed on retained evidence. */
  lemma GateListIsComplete(w: World, manifest: Json)
    requires Qualified(w, manifest)
    ensures DistinctIds(Gates(manifest))
    ensures forall k :: 0 <= k < |GATE_IDS| ==> Listed(Gates(manifest), GATE_IDS[k])
    ensures forall i :: 0 <= i < |Gates(manifest)| ==>
      && Get(Gates(manifest)[i], "id").JString? && Get(Gates(manifest)[i], "id").s in GATE_IDS
      && Get(Gates(manifest)[i], "status") == JString("passed")
      && EvidenceRetained(w, Get(Gates(manifest)[i], "evidence"))
  {
    GatesAreOpen(w, manifest);
    var gates := Gates(manifest);
    forall i | 0 <= i < |gates|
      ensures && Get(gates[i], "id").JString? && Get(gates[i], "id").s in GATE_IDS
              && Get(gates[i], "status") == JString("passed") && EvidenceRetained(w, Get(gates[i], "evidence"))
    {
      ListedGateIsOpen(w, gates, i);
    }
    forall k | 0 <= k < |GATE_IDS| ensures Listed(gates, GATE_IDS[k]) {
      RequiredGateIsListed(w, gates, k);
    }
  }

  /** The coverage of an accepted record partitions the frozen membership, and the record counts it right. */
  lemma PopulationIsPartitioned(w: World, v: Fields, b: Binding) returns (m: Membership, coverage: Json)
    requires RecordAccepted(w, v, b)
    ensures FrozenMembership(w, v) == Some(m) && ReadJson(w, v.coverageManifest) == Some(coverage)
    ensures Partitions(w, v, m, coverage)
    ensures PyEqual(v.observedCaseCount, JInt(|Elements(m.caseKeys)|))
    ensures PyEqual(v.expectedCaseCount, JInt(|m.caseKeys|))
    ensures PyEqual(v.memberCount, JInt(|m.caseKeys|)) && PyEqual(v.duplicateCaseCount, JInt(0))
    ensures v.partiality == JBool(false)
  {
    NothingIsMissing(v);
    var f := SomeFindings(w, v, b);
    PopulationConditionsHold(w, v, b, f);
    PartitionIsFound(w, v, b, f);
    MembershipFacts(w, v);
    CoverageFacts(w, v, f);
    m, coverage := FrozenMembership(w, v).value, Coverage(w, v).value;
    PartitionCounts(w, v, m, coverage);
  }

  lemma MembershipFacts(w: World, v: Fields)
    requires AllHold(MembershipConditions(w, v)) && Present(v.membershipManifest) && Present(v.memberCount)
    ensures FrozenMembership(w, v).Some?
    ensures PyEqual(v.memberCount, JInt(|FrozenMembership(w, v).value.caseKeys|))
  {
    var c := MembershipConditions(w, v);
    assert c[0].holds && c[1].holds && c[2].holds && c[3].holds;
  }

  lemma CoverageFacts(w: World, v: Fields, f: Findings)
    requires AllHold(CoverageConditions(w, v, f)) && AllHold(TotalConditions(v)) && FrozenMembership(w, v).Some?
    requires Present(v.coverageManifest) && Present(v.expectedCaseCount) && Present(v.observedCaseCount)
    requires Present(v.duplicateCaseCount) && Present(v.partiality)
    ensures Coverage(w, v).Some? && f.partitioned && v.partiality == JBool(false)
    ensures PyEqual(v.duplicateCaseCount, JInt(0))
    ensures PyEqual(v.expectedCaseCount, JInt(|FrozenMembership(w, v).value.caseKeys|))
    ensures PyEqual(v.observedCaseCount, JInt(f.rowCount))
  {
    var c, totals := CoverageConditions(w, v, f), TotalConditions(v);
    assert c[0].holds && c[1].holds && c[2].holds && c[3].holds && c[4].holds && c[5].holds;
    assert totals[1].holds && totals[2].holds;
  }

  lemma PartitionCounts(w: World, v: Fields, m: Membership, coverage: Json)
    requires Partitions(w, v, m, coverage)
    ensures |Counted(w, v, m, coverage)| == |Elements(m.caseKeys)|
  {
    assert Unfolded(0);
    PreviewChecksRead(w, m, Items(v.policyRevisions));
    AcceptedCounts(w, PreviewChecks(w, m, Items(v.policyRevisions)), m.caseKeys, coverage);
  }

  // ---- One subject ----

  /** The report names the record's workload, its frozen membership and the manifest's artifact tuple. */
  predicate NamesSubject(report: Json, v: Fields, b: Binding) {
    && PyEqual(Get(report, "workload_id"), v.workloadId)
    && PyEqual(Get(report, "cohort_membership_sha256"), v.membershipSha256)
    && PyEqual(Get(report, "artifact_tuple_sha256"), b.artifactDigest)
  }

  lemma RunsNameSubject(w: World, v: Fields, b: Binding, f: Findings)
    requires Found(w, v, b, f)
    ensures f.baseline.Some? ==> NamesSubject(f.baseline.value, v, b)
    ensures f.final.Some? ==> NamesSubject(f.final.value, v, b)
  {
    RunsAreThese(w, v, b, f);
    RunNamesSubject(w, v, b, v.baselineEvidence);
    RunNamesSubject(w, v, b, FinalReference(b));
  }

  lemma RunNamesSubject(w: World, v: Fields, b: Binding, reference: Json)
    ensures RunBehind(w, v, b, reference).Some? ==> NamesSubject(RunBehind(w, v, b, reference).value, v, b)
  {
  }

  lemma StagesNameSubject(w: World, v: Fields, b: Binding)
    requires StagesFound(w, v, b)
    ensures NamesSubject(StageReport(w, b).value, v, b)
  {
    assert Unfolded(0);
  }

  /** The report behind a sign-off. */
  function SignedReport(w: World, value: Json): Json {
    var report := ReadJson(w, Get(value, "evidence"));
    if report.Some? then report.value else JNull
  }

  lemma SignoffNamesSubject(w: World, v: Fields, b: Binding, value: Json, role: string)
    requires FinalSignoffValid(w, v, b, value, role)
    ensures NamesSubject(SignedReport(w, value), v, b)
  {
  }

  lemma SignoffsNameSubject(w: World, v: Fields, b: Binding, f: Findings)
    requires RecordAccepted(w, v, b) && Found(w, v, b, f)
    ensures NamesSubject(SignedReport(w, v.operatorSignoff), v, b)
    ensures NamesSubject(SignedReport(w, v.releaseOwnerSignoff), v, b)
    ensures NamesSubject(SignedReport(w, v.reviewerSignoff), v, b)
  {
    NothingIsMissing(v);
    SignoffConditionsHold(w, v, b, f);
    SignoffHolds(w, v, b, v.operatorSignoff, "operator", OperatorSignoff);
    SignoffHolds(w, v, b, v.releaseOwnerSignoff, "release_owner", ReleaseOwnerSignoff);
    SignoffHolds(w, v, b, v.reviewerSignoff, "independent_reviewer", ReviewerSignoff);
    SignoffNamesSubject(w, v, b, v.operatorSignoff, "operator");
    SignoffNamesSubject(w, v, b, v.releaseOwnerSignoff, "release_owner");
    SignoffNamesSubject(w, v, b, v.reviewerSignoff, "independent_reviewer");
  }

  /** The stated membership digest is that of the file whose keys the coverage partitions. */
  predicate MembershipIsRetained(w: World, v: Fields) {
    && Verified(w, v.membershipManifest) && v.membershipSha256.JString?
    && var content := w.files.value[Get(v.membershipManifest, "path").s];
    w.sha256(content) == v.membershipSha256.s
    && w.parse(content).Some? && MembershipShape(w, w.parse(content).value)
  }

  lemma MembershipDigest(w: World, v: Fields)
    requires Present(v.membershipManifest) && Present(v.membershipSha256)
    requires AllHold(FormatConditions(w, v)) && AllHold(CountConditions(v)) && AllHold(MembershipConditions(w, v))
    ensures MembershipIsRetained(w, v)
  {
    assert FormatConditions(w, v)[0].holds && CountConditions(v)[5].holds;
    var c := MembershipConditions(w, v);
    assert c[0].holds && c[1].holds && c[2].holds;
  }

  /** Both runs, the stages and all sign-offs are about one workload, one retained membership and one artifact tuple. */
  lemma OneSubject(w: World, v: Fields, b: Binding) returns (baseline: Json, final: Json)
    requires RecordAccepted(w, v, b) && Passed(b.gates, "R4") && Passed(b.gates, "R6")
    ensures ReadJson(w, v.baselineEvidence) == Some(baseline) && NamesSubject(baseline, v, b)
    ensures ReadJson(w, FinalReference(b)) == Some(final) && NamesSubject(final, v, b)
    ensures StageReport(w, b).Some? && NamesSubject(StageReport(w, b).value, v, b)
    ensures NamesSubject(SignedReport(w, v.operatorSignoff), v, b)
    ensures NamesSubject(SignedReport(w, v.releaseOwnerSignoff), v, b)
    ensures NamesSubject(SignedReport(w, v.reviewerSignoff), v, b)
    ensures MembershipIsRetained(w, v)
  {
    NothingIsMissing(v);
    var f := SomeFindings(w, v, b);
    BaselineConditionHolds(w, v, b, f);
    FinalConditionHolds(w, v, b, f);
    RunsFound(w, v, b, f);
    RunsNameSubject(w, v, b, f);
    baseline, final := f.baseline.value, f.final.value;
    StageConditionHolds(w, v, b, f);
    StagesAreFound(w, v, b, f);
    StagesNameSubject(w, v, b);
    SignoffsNameSubject(w, v, b, f);
    FormatsHold(w, v, b, f);
    PopulationConditionsHold(w, v, b, f);
    MembershipDigest(w, v);
  }

  lemma FormatsHold(w: World, v: Fields, b: Binding, f: Findings)
    requires NothingInvalid(w, v, b) && Found(w, v, b, f)
    ensures AllHold(FormatConditions(w, v)) && AllHold(CountConditions(v))
  {
    GroupHolds(w, v, b, f, 0);
    GroupHolds(w, v, b, f, 1);
  }

  // ---- The approved envelope ----

  /** The approval's report: it states these thresholds, and the digest of the baseline run. */
  predicate Approves(w: World, v: Fields, value: Json, report: Json) {
    && ReadJson(w, Get(value, "evidence")) == Some(report)
    && PyEqual(Get(report, "thresholds"), v.thresholds)
    && PyEqual(Get(report, "approver"), Get(value, "name"))
    && PyEqual(Get(report, "baseline_sha256"), Get(v.baselineEvidence, "sha256"))
  }

  /** The measured value and the limit are numbers, and the first is not above the second. */
  predicate Within(measured: Json, limit: Json) {
    FiniteNumber(measured) && FiniteNumber(limit) && NotAbove(Number(measured).value, Number(limit).value)
  }

  /** The run's summary, and each of its recoveries, keep these limits. */
  predicate KeepsLimits(limits: Json, run: Json) {
    var summary, scenarios := Get(run, "summary"), Get(run, "scenarios");
    && Within(Get(summary, "case_count"), Get(limits, "case_count_max"))
    && Within(Get(summary, "churn_per_hour"), Get(limits, "churn_per_hour_max"))
    && Within(Get(summary, "queue_backlog"), Get(limits, "queue_backlog_max"))
    && Within(Get(summary, "latency_p95_ms"), Get(limits, "latency_p95_ms_max"))
    && Within(Get(limits, "retention_horizon_seconds"), Get(summary, "retention_horizon_seconds"))
    && Within(Get(Get(scenarios, "restart"), "recovery_rto_seconds"), Get(limits, "recovery_rto_seconds_max"))
    && Within(Get(Get(scenarios, "populated_restore"), "recovery_rto_seconds"), Get(limits, "recovery_rto_seconds_max"))
  }

  /** All six limits are finite numbers and not negative. */
  predicate LimitsAreNumbers(limits: Json) {
    && FiniteNonnegative(Get(limits, "case_count_max")) && FiniteNonnegative(Get(limits, "churn_per_hour_max"))
    && FiniteNonnegative(Get(limits, "queue_backlog_max")) && FiniteNonnegative(Get(limits, "latency_p95_ms_max"))
    && FiniteNonnegative(Get(limits, "retention_horizon_seconds"))
    && FiniteNonnegative(Get(limits, "recovery_rto_seconds_max"))
  }

  lemma LimitsHold(w: World, v: Fields, b: Binding, f: Findings)
    requires RecordAccepted(w, v, b) && Found(w, v, b, f)
    ensures LimitsAreNumbers(v.thresholds)
  {
    LimitsArePresent(v);
    GroupHolds(w, v, b, f, 5);
    var c := LimitConditions(v);
    assert c[0].holds && c[1].holds && c[2].holds && c[3].holds && c[4].holds && c[5].holds;
  }

  lemma ReportsApprove(w: World, v: Fields) returns (operator: Json, releaseOwner: Json)
    requires AllHold(ApprovalReportConditions(w, v))
    requires Present(v.operatorThresholdApproval) && Present(v.releaseOwnerThresholdApproval)
    ensures Approves(w, v, v.operatorThresholdApproval, operator)
    ensures Approves(w, v, v.releaseOwnerThresholdApproval, releaseOwner)
  {
    var c := ApprovalReportConditions(w, v);
    assert c[1].holds && c[2].holds;
    operator := ReadJson(w, Get(v.operatorThresholdApproval, "evidence")).value;
    releaseOwner := ReadJson(w, Get(v.releaseOwnerThresholdApproval, "evidence")).value;
  }

  /** The longest recovery time is not below any that was measured. */
  lemma {:induction false} NoneIsLonger(times: seq<Json>, i: nat)
    requires i < |times| && times[i].JInt?
    ensures times[i].n <= Largest(times)
  {
    if i < |times| - 1 {
      NoneIsLonger(times[..|times| - 1], i);
    }
  }

  lemma RecoveriesKept(run: Json, limit: Json)
    requires var times := RecoveryTimes(Get(run, "scenarios"), OPERATING_SCENARIOS);
             && (forall time :: time in times ==> IsInt(time, 0))
             && Within(JInt(Largest(times)), limit)
    ensures Within(Get(Get(Get(run, "scenarios"), "restart"), "recovery_rto_seconds"), limit)
    ensures Within(Get(Get(Get(run, "scenarios"), "populated_restore"), "recovery_rto_seconds"), limit)
  {
    var times := RecoveryTimes(Get(run, "scenarios"), OPERATING_SCENARIOS);
    BothRecover(Get(run, "scenarios"));
    assert times[0] in times && times[1] in times;
    NoneIsLonger(times, 0);
    NoneIsLonger(times, 1);
    BelowWithin(times[0].n, Largest(times), limit);
    BelowWithin(times[1].n, Largest(times), limit);
  }

  lemma BelowWithin(n: int, m: int, limit: Json)
    requires n <= m && Within(JInt(m), limit)
    ensures Within(JInt(n), limit)
  {
    var scale := Power2(Number(limit).value.scale);
    assert (m - n) * scale >= 0;
  }

  /** The same limits, as stated in a report that is equal to them in Python's sense. */
  lemma StatedLimitsKept(stated: Json, limits: Json, run: Json)
    requires PyEqual(stated, limits) && LimitsAreNumbers(limits) && KeepsLimits(limits, run)
    ensures KeepsLimits(stated, run)
  {
    StatedLimit(stated, limits, "case_count_max");
    StatedLimit(stated, limits, "churn_per_hour_max");
    StatedLimit(stated, limits, "queue_backlog_max");
    StatedLimit(stated, limits, "latency_p95_ms_max");
    StatedLimit(stated, limits, "retention_horizon_seconds");
    StatedLimit(stated, limits, "recovery_rto_seconds_max");
  }

  lemma StatedLimit(stated: Json, limits: Json, name: string)
    requires PyEqual(stated, limits) && FiniteNonnegative(Get(limits, name))
    ensures FiniteNumber(Get(stated, name)) && Number(Get(stated, name)) == Number(Get(limits, name))
  {
    assert limits.JObject? && name in limits.fields;
    assert SameElement(stated.fields[name], limits.fields[name]);
    assert PyEqual(stated.fields[name], limits.fields[name]);
  }

  lemma RecoveriesAreInts(w: World, c: RunContext, run: Json)
    requires ValidRun(w, c, run)
    ensures forall time :: time in RecoveryTimes(Get(run, "scenarios"), OPERATING_SCENARIOS) ==> IsInt(time, 0)
  {
    BothRecover(Get(run, "scenarios"));
    var scenarios := Get(run, "scenarios");
    assert ValidScenario(w, OPERATING_SCENARIOS[6], Get(scenarios, OPERATING_SCENARIOS[6]));
    assert ValidScenario(w, OPERATING_SCENARIOS[7], Get(scenarios, OPERATING_SCENARIOS[7]));
  }

  lemma SummaryIsMeasured(w: World, c: RunContext, run: Json)
    requires ValidRun(w, c, run)
    ensures var summary := Get(run, "summary");
            && FiniteNonnegative(Get(summary, "case_count")) && FiniteNonnegative(Get(summary, "churn_per_hour"))
            && FiniteNonnegative(Get(summary, "queue_backlog")) && FiniteNonnegative(Get(summary, "latency_p95_ms"))
            && FiniteNonnegative(Get(summary, "retention_horizon_seconds"))
            && Get(summary, "recovery_rto_seconds")
              == JInt(Largest(RecoveryTimes(Get(run, "scenarios"), OPERATING_SCENARIOS)))
            && Get(summary, "recovery_rto_seconds").n >= 0
  {
  }

  lemma FinalKeepsLimits(w: World, v: Fields, b: Binding, f: Findings)
    requires AllHold(EnvelopeConditions(w, v, f)) && f.final.Some? && ValidRun(w, Runs(v, b), f.final.value)
    requires NothingMissing(v) && LimitsAreNumbers(v.thresholds)
    ensures KeepsLimits(v.thresholds, f.final.value)
  {
    var c, run := EnvelopeConditions(w, v, f), f.final.value;
    LimitsArePresent(v);
    SummaryIsMeasured(w, Runs(v, b), run);
    assert c[1].holds && c[2].holds && c[3].holds && c[4].holds && c[5].holds && c[6].holds;
    RecoveriesAreKept(w, v, b, f);
  }

  lemma RecoveriesAreKept(w: World, v: Fields, b: Binding, f: Findings)
    requires AllHold(EnvelopeConditions(w, v, f)) && f.final.Some? && ValidRun(w, Runs(v, b), f.final.value)
    requires NothingMissing(v) && LimitsAreNumbers(v.thresholds)
    ensures var scenarios, limit := Get(f.final.value, "scenarios"), Get(v.thresholds, "recovery_rto_seconds_max");
            && Within(Get(Get(scenarios, "restart"), "recovery_rto_seconds"), limit)
            && Within(Get(Get(scenarios, "populated_restore"), "recovery_rto_seconds"), limit)
  {
    var run := f.final.value;
    LimitsArePresent(v);
    SummaryIsMeasured(w, Runs(v, b), run);
    assert EnvelopeConditions(w, v, f)[6].holds;
    RecoveriesAreInts(w, Runs(v, b), run);
    RecoveriesKept(run, Get(v.thresholds, "recovery_rto_seconds_max"));
  }

  lemma FinalIsValid(w: World, v: Fields, b: Binding, f: Findings)
    requires Found(w, v, b, f) && f.final.Some?
    ensures ValidRun(w, Runs(v, b), f.final.value)
  {
    RunsAreThese(w, v, b, f);
  }

  /** The final run, its recoveries included, keeps the limits of the record, which are numbers, and keeps them as the
      two retained approval reports state them. */
  lemma EnvelopeIsApproved(w: World, v: Fields, b: Binding) returns (final: Json, operator: Json, releaseOwner: Json)
    requires RecordAccepted(w, v, b) && Passed(b.gates, "R6")
    ensures ReadJson(w, FinalReference(b)) == Some(final)
    ensures LimitsAreNumbers(v.thresholds) && KeepsLimits(v.thresholds, final)
    ensures Approves(w, v, v.operatorThresholdApproval, operator) && KeepsLimits(Get(operator, "thresholds"), final)
    ensures Approves(w, v, v.releaseOwnerThresholdApproval, releaseOwner)
    ensures KeepsLimits(Get(releaseOwner, "thresholds"), final)
  {
    NothingIsMissing(v);
    var f := SomeFindings(w, v, b);
    FinalConditionHolds(w, v, b, f);
    RunsFound(w, v, b, f);
    final := f.final.value;
    LimitsHold(w, v, b, f);
    EnvelopeConditionsHold(w, v, b, f);
    FinalIsValid(w, v, b, f);
    FinalKeepsLimits(w, v, b, f);
    ApprovalReportsHold(w, v, b, f);
    operator, releaseOwner := ReportsApprove(w, v);
    StatedLimitsKept(Get(operator, "thresholds"), v.thresholds, final);
    StatedLimitsKept(Get(releaseOwner, "thresholds"), v.thresholds, final);
  }

  // ---- What the final sign-offs bind ----

  /** No other value has the digest of this one. */
  ghost predicate NoCollision(w: World, x: Json) {
    forall y :: AllFinite(y) && JsonSha256(w, y) == JsonSha256(w, x) ==> y == x
  }

  /** The same approvals with the same references to sign-off reports. */
  predicate SameSignoffs(a: Json, b: Json) {
    Get(Record(a), "final_signoffs") == Get(Record(b), "final_signoffs")
  }

  /** The digest that the operator's sign-off report states. */
  function StatedSeal(w: World, v: Fields): Json {
    var report := ReadJson(w, Get(v.operatorSignoff, "evidence"));
    if report.Some? then Get(report.value, "qualification_evidence_sha256") else JNull
  }

  lemma OperatorStatesSeal(w: World, v: Fields, b: Binding)
    requires RecordAccepted(w, v, b)
    ensures PyEqual(StatedSeal(w, v), b.sealDigest)
  {
    NothingIsMissing(v);
    var f := SomeFindings(w, v, b);
    SignoffConditionsHold(w, v, b, f);
    SignoffStatesSeal(w, v, b);
  }

  lemma SignoffStatesSeal(w: World, v: Fields, b: Binding)
    requires AllHold(SignoffConditions(w, v, b, v.operatorSignoff, "operator", OperatorSignoff))
    requires Present(v.operatorSignoff)
    ensures PyEqual(StatedSeal(w, v), b.sealDigest)
  {
    SignoffHolds(w, v, b, v.operatorSignoff, "operator", OperatorSignoff);
  }

  lemma SameSignoffsSameReport(w: World, a: Json, b: Json)
    requires SameSignoffs(a, b)
    ensures Extract(Record(a)).operatorSignoff == Extract(Record(b)).operatorSignoff
    ensures StatedSeal(w, Extract(Record(a))) == StatedSeal(w, Extract(Record(b)))
  {
    assert Extract(Record(a)).operatorSignoff == Extract(Record(b)).operatorSignoff;
  }

  lemma EqualDigests(w: World, stated: Json, x: Json, y: Json)
    requires NoCollision(w, x) && AllFinite(x) && PyEqual(stated, JsonSha256(w, x)) && PyEqual(stated, JsonSha256(w, y))
    ensures x == y
  {
    assert JsonSha256(w, x).JString? && stated == JsonSha256(w, x);
    assert JsonSha256(w, y) == stated && AllFinite(y);
  }

  /** Two qualified manifests with the same sign-offs agree on everything sealed, if it is finite and its digest
      unique. */
  lemma SealBinds(w: World, a: Json, b: Json)
    requires Qualified(w, a) && Qualified(w, b) && SameSignoffs(a, b)
    requires AllFinite(Sealed(a)) && NoCollision(w, Sealed(a))
    ensures Sealed(a) == Sealed(b)
  {
    OperatorStatesSeal(w, Extract(Record(a)), BindingOf(w, a));
    OperatorStatesSeal(w, Extract(Record(b)), BindingOf(w, b));
    SameSignoffsSameReport(w, a, b);
    EqualDigests(w, StatedSeal(w, Extract(Record(a))), Sealed(a), Sealed(b));
  }

  /** Two worlds with the same library functions; their evidence files may differ. */
  ghost predicate SameLibrary(u: World, w: World) {
    && (forall content :: u.sha256(content) == w.sha256(content))
    && (forall content :: u.parse(content) == w.parse(content))
    && (forall j :: u.dumps(j) == w.dumps(j))
  }

  /** No other content has the digest of the file behind the reference. */
  ghost predicate UniqueContent(w: World, reference: Json) {
    Verified(w, reference) ==>
      var content := w.files.value[Get(reference, "path").s];
      forall other :: w.sha256(other) == w.sha256(content) ==> other == content
  }

  /** A reference is to the same report in both worlds. */
  lemma SameReference(u: World, w: World, reference: Json)
    requires SameLibrary(u, w) && Verified(u, reference) && Verified(w, reference) && UniqueContent(u, reference)
    ensures ReadJson(u, reference) == ReadJson(w, reference)
  {
  }

  lemma OperatorReportIsRetained(w: World, v: Fields, b: Binding)
    requires RecordAccepted(w, v, b)
    ensures Verified(w, Get(v.operatorSignoff, "evidence"))
  {
    NothingIsMissing(v);
    var f := SomeFindings(w, v, b);
    SignoffConditionsHold(w, v, b, f);
    SignoffHolds(w, v, b, v.operatorSignoff, "operator", OperatorSignoff);
  }

  /** The same when the files were changed between the two decisions: then the files that both references verify
      hold the same reports as well, as far as their digests are unique. */
  lemma SealBindsFiles(u: World, w: World, a: Json, b: Json)
    requires Qualified(u, a) && Qualified(w, b) && SameSignoffs(a, b) && SameLibrary(u, w)
    requires AllFinite(Sealed(a)) && NoCollision(u, Sealed(a))
    requires UniqueContent(u, Get(Extract(Record(a)).operatorSignoff, "evidence"))
    ensures Sealed(a) == Sealed(b)
    ensures forall reference :: Verified(u, reference) && Verified(w, reference) && UniqueContent(u, reference) ==>
      ReadJson(u, reference) == ReadJson(w, reference)
  {
    var x, y := Extract(Record(a)), Extract(Record(b));
    OperatorStatesSeal(u, x, BindingOf(u, a));
    OperatorStatesSeal(w, y, BindingOf(w, b));
    OperatorReportIsRetained(u, x, BindingOf(u, a));
    OperatorReportIsRetained(w, y, BindingOf(w, b));
    SameSignoffsSameReport(w, a, b);
    SameStatedSeal(u, w, a, b);
    SameDigest(u, w, Sealed(b));
    EqualDigests(u, StatedSeal(u, x), Sealed(a), Sealed(b));
    forall reference | Verified(u, reference) && Verified(w, reference) && UniqueContent(u, reference)
      ensures ReadJson(u, reference) == ReadJson(w, reference)
    {
      SameReference(u, w, reference);
    }
  }

  lemma SameDigest(u: World, w: World, x: Json)
    requires SameLibrary(u, w)
    ensures JsonSha256(u, x) == JsonSha256(w, x)
  {
  }

  lemma SameStatedSeal(u: World, w: World, a: Json, b: Json)
    requires var reference := Get(Extract(Record(a)).operatorSignoff, "evidence");
             Verified(u, reference) && Verified(w, reference) && UniqueContent(u, reference)
    requires SameSignoffs(a, b) && SameLibrary(u, w)
    ensures StatedSeal(u, Extract(Record(a))) == StatedSeal(w, Extract(Record(b)))
  {
    SameReference(u, w, Get(Extract(Record(a)).operatorSignoff, "evidence"));
    SameSignoffsSameReport(w, a, b);
  }

  /** What it means to agree on everything sealed. */
  lemma SealedAgree(a: Json, b: Json)
    requires Sealed(a) == Sealed(b)
    ensures Artifact(a) == Artifact(b)
    ensures forall field :: field != "final_signoffs" ==> Get(Record(a), field) == Get(Record(b), field)
    ensures forall i, field :: 0 <= i < |SEALED_GATE_IDS| && field in {"status", "evidence"} ==>
      GateField(GateMap(Gates(a)), SEALED_GATE_IDS[i], field) == GateField(GateMap(Gates(b)), SEALED_GATE_IDS[i], field)
  {
    var x, y := Sealed(a).items, Sealed(b).items;
    assert x[0] == y[0] && x[1] == y[1] && x[2] == y[2];
    forall field | field != "final_signoffs" ensures Get(Record(a), field) == Get(Record(b), field) {
      assert field in Record(a).fields <==> field in WithoutSignoffs(Record(a));
      assert field in Record(b).fields <==> field in WithoutSignoffs(Record(b));
    }
    forall i | 0 <= i < |SEALED_GATE_IDS|
      ensures SealedGate(GateMap(Gates(a)), SEALED_GATE_IDS[i]) == SealedGate(GateMap(Gates(b)), SEALED_GATE_IDS[i])
    {
      assert x[2].items[i] == y[2].items[i];
    }
    forall i, field | 0 <= i < |SEALED_GATE_IDS| && field in {"status", "evidence"}
      ensures GateField(GateMap(Gates(a)), SEALED_GATE_IDS[i], field)
        == GateField(GateMap(Gates(b)), SEALED_GATE_IDS[i], field)
    {
      SealedGateFields(GateMap(Gates(a)), GateMap(Gates(b)), SEALED_GATE_IDS[i]);
    }
  }

  lemma SealedGateFields(a: map<string, Json>, b: map<string, Json>, id: string)
    requires SealedGate(a, id) == SealedGate(b, id)
    ensures GateField(a, id, "status") == GateField(b, id, "status")
    ensures GateField(a, id, "evidence") == GateField(b, id, "evidence")
  {
    assert SealedGate(a, id).fields["status"] == SealedGate(b, id).fields["status"];
    assert SealedGate(a, id).fields["evidence"] == SealedGate(b, id).fields["evidence"];
  }

  // ---- Where the binding ends ----

  const NOTE: string := "note"

  /** The manifest with its record's field note wrapped in an array: a change that no check looks at. */
  function Annotated(manifest: Json): Json
    requires manifest.JObject?
  {
    var fields := if Record(manifest).JObject? then Record(manifest).fields else map[];
    var record := JObject(fields[NOTE := JArray([Get(Record(manifest), NOTE)])]);
    JObject(manifest.fields["release_record" := record])
  }

  lemma AnnotatedRecord(manifest: Json)
    requires manifest.JObject?
    ensures var m := Annotated(manifest);
            && m.JObject? && Record(m).JObject?
            && Get(Record(m), NOTE) == JArray([Get(Record(manifest), NOTE)])
            && forall field :: field != NOTE ==> Get(Record(m), field) == Get(Record(manifest), field)
  {
  }

  lemma AnnotatedExtract(manifest: Json)
    requires manifest.JObject?
    ensures Extract(Record(Annotated(manifest))) == Extract(Record(manifest))
    ensures SameSignoffs(manifest, Annotated(manifest))
  {
    AnnotatedRecord(manifest);
  }

  lemma AnnotatedRest(manifest: Json)
    requires manifest.JObject?
    ensures forall field :: field != "release_record" ==> Get(Annotated(manifest), field) == Get(manifest, field)
    ensures Artifact(Annotated(manifest)) == Artifact(manifest) && Gates(Annotated(manifest)) == Gates(manifest)
  {
    var m := Annotated(manifest);
    forall field | field != "release_record" ensures Get(m, field) == Get(manifest, field) {
    }
    assert Get(m, "artifact_tuple") == Get(manifest, "artifact_tuple") && Get(m, "gates") == Get(manifest, "gates");
  }

  /** The annotation hides no non-finite number. */
  lemma AnnotatedStaysUnsealable(manifest: Json)
    requires manifest.JObject? && AllFinite(Sealed(Annotated(manifest)))
    ensures AllFinite(Sealed(manifest))
  {
    var m := Annotated(manifest);
    AnnotatedRest(manifest);
    FiniteParts(Sealed(m).items[0], Sealed(m).items[1], Sealed(m).items[2]);
    AnnotatedRecordFinite(manifest);
    FiniteParts(Sealed(manifest).items[0], Sealed(manifest).items[1], Sealed(manifest).items[2]);
  }

  lemma FiniteParts(x: Json, y: Json, z: Json)
    ensures AllFinite(JArray([x, y, z])) <==> AllFinite(x) && AllFinite(y) && AllFinite(z)
  {
    var items := [x, y, z];
    assert items[0] == x && items[1] == y && items[2] == z;
  }

  lemma AnnotatedRecordFinite(manifest: Json)
    requires manifest.JObject? && AllFinite(JObject(WithoutSignoffs(Record(Annotated(manifest)))))
    ensures AllFinite(JObject(WithoutSignoffs(Record(manifest))))
  {
    var before, after := WithoutSignoffs(Record(manifest)), WithoutSignoffs(Record(Annotated(manifest)));
    AnnotatedRecord(manifest);
    assert AllFinite(JObject(after)) && JObject(after).fields == after;
    forall field | field in before ensures AllFinite(before[field]) {
      assert field in after && AllFinite(after[field]);
      if field == NOTE {
        assert after[field] == JArray([before[field]]);
        assert after[field].items[0] == before[field];
      }
    }
    assert JObject(before).fields == before;
  }

  lemma NestedDiffers(j: Json)
    ensures j != JArray([j])
  {
    var nested := JArray([j]);
    assert nested.items[0] == j;
    assert |nested.items| == 1 && nested.items[0] < nested;
  }

  /** A non-finite number among the sealed values makes the digest None, and the sign-offs then bind nothing. */
  lemma UnsealableAcceptsChange(w: World, manifest: Json)
    requires Qualified(w, manifest) && !AllFinite(Sealed(manifest))
    ensures var m := Annotated(manifest); Qualified(w, m) && SameSignoffs(manifest, m) && Sealed(m) != Sealed(manifest)
  {
    AnnotatedExtract(manifest);
    AnnotatedBinding(w, manifest);
    AnnotatedManifest(w, manifest);
    AnnotatedDiffers(manifest);
  }

  lemma AnnotatedBinding(w: World, manifest: Json)
    requires manifest.JObject? && !AllFinite(Sealed(manifest))
    ensures BindingOf(w, Annotated(manifest)) == BindingOf(w, manifest)
  {
    AnnotatedRest(manifest);
    if AllFinite(Sealed(Annotated(manifest))) {
      AnnotatedStaysUnsealable(manifest);
    }
  }

  lemma AnnotatedManifest(w: World, manifest: Json)
    requires manifest.JObject? && ManifestAccepted(w, manifest)
    ensures ManifestAccepted(w, Annotated(manifest))
  {
    assert Unfolded(0);
    AnnotatedRest(manifest);
  }

  lemma AnnotatedDiffers(manifest: Json)
    requires manifest.JObject?
    ensures Sealed(Annotated(manifest)) != Sealed(manifest)
  {
    AnnotatedRecord(manifest);
    NestedDiffers(Get(Record(manifest), NOTE));
    if Sealed(Annotated(manifest)) == Sealed(manifest) {
      SealedAgree(Annotated(manifest), manifest);
    }
  }

  /** The sign-offs of a qualified manifest bind its sealed values exactly when these contain no NaN and no infinity. */
  lemma SealBindsExactly(w: World, manifest: Json)
    requires Qualified(w, manifest) && (AllFinite(Sealed(manifest)) ==> NoCollision(w, Sealed(manifest)))
    ensures AllFinite(Sealed(manifest))
       <==> forall m :: Qualified(w, m) && SameSignoffs(manifest, m) ==> Sealed(m) == Sealed(manifest)
  {
    if AllFinite(Sealed(manifest)) {
      forall m | Qualified(w, m) && SameSignoffs(manifest, m) ensures Sealed(m) == Sealed(manifest) {
        SealBinds(w, manifest, m);
      }
    } else {
      UnsealableAcceptsChange(w, manifest);
    }
  }
}
