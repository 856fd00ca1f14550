// The schemas of approvals, sign-offs and the frozen membership.

module ApprovalSchemas {
  import opened Basics
  import opened Complaints
  import opened Json
  import opened Evidence
  import opened Schema
  import opened ReportSchemas
  import opened ShadowCoverage
  import opened ShadowSchemas
  import opened OperatingRun
  import opened ReleaseRecord

  /** A name, a time and a retained report. */
  predicate Approval(w: World, value: Json) {
    && HasFields(value, {"name", "signed_at", "evidence"})
    && Has(w, value, "name", Name) && Has(w, value, "signed_at", Instant) && Retained(w, Get(value, "evidence"))
  }

  /** What the owner's report must say. */
  predicate OwnerReport(w: World, v: Fields, report: Json) {
    && HasFields(report, {"schema_version", "workload_id", "owner", "signed_at",
                          "cohort_membership_sha256", "package_sha256", "coverage_manifest_sha256",
                          "policy_revisions", "expected_exceptions_sha256", "reviewed_sections"})
    && Is(report, "schema_version", JInt(1)) && Agrees(report, "workload_id", v.workloadId)
    && Agrees(report, "owner", v.workloadOwner) && PyEqual(v.workloadOwner, Get(v.ownerApproval, "name"))
    && Agrees(report, "signed_at", Get(v.ownerApproval, "signed_at")) && Has(w, report, "signed_at", Instant)
    && Agrees(report, "cohort_membership_sha256", v.membershipSha256)
    && Agrees(report, "package_sha256", v.packageDigest)
    && v.coverageManifest.JObject? && Agrees(report, "coverage_manifest_sha256", Get(v.coverageManifest, "sha256"))
    && Agrees(report, "policy_revisions", v.policyRevisions)
    && v.expectedExceptions.JObject?
    && Agrees(report, "expected_exceptions_sha256", Get(v.expectedExceptions, "sha256"))
    && Is(report, "reviewed_sections",
          JArray([JString("assignments"), JString("due_dates"), JString("no_ops"), JString("protected_cases"),
                  JString("escalation_plans"), JString("ambiguities"), JString("expected_manual_exceptions")]))
  }

  ghost predicate OwnerReviewed(w: World, v: Fields) {
    v.ownerApproval.JObject? && exists report :: Holds(w, Get(v.ownerApproval, "evidence"), report)
                                                 && OwnerReport(w, v, report)
  }

  /** What a report on the thresholds must say. */
  predicate ThresholdReport(w: World, v: Fields, value: Json, role: string, report: Json) {
    && HasFields(report, {"schema_version", "role", "approver", "signed_at", "baseline_sha256", "thresholds"})
    && Is(report, "schema_version", JInt(1)) && Is(report, "role", JString(role))
    && Agrees(report, "approver", Get(value, "name")) && Agrees(report, "signed_at", Get(value, "signed_at"))
    && Has(w, value, "signed_at", Instant)
    && Agrees(report, "baseline_sha256", Get(v.baselineEvidence, "sha256"))
    && Agrees(report, "thresholds", v.thresholds)
  }

  ghost predicate ThresholdsApproved(w: World, v: Fields, value: Json, role: string) {
    && value.JObject? && v.baselineEvidence.JObject?
    && exists report :: Holds(w, Get(value, "evidence"), report) && ThresholdReport(w, v, value, role, report)
  }

  /** What a final sign-off's report must say. */
  predicate SignoffReport(w: World, v: Fields, b: Binding, value: Json, role: string, report: Json) {
    && HasFields(report, {"schema_version", "role", "approver", "signed_at", "decision",
                          "artifact_tuple_sha256", "workload_id", "cohort_membership_sha256",
                          "package_sha256", "qualification_evidence_sha256"})
    && Is(report, "schema_version", JInt(1)) && Is(report, "role", JString(role))
    && Agrees(report, "approver", Get(value, "name")) && Agrees(report, "signed_at", Get(value, "signed_at"))
    && Has(w, report, "signed_at", Instant) && Is(report, "decision", JString("go"))
    && Agrees(report, "artifact_tuple_sha256", b.artifactDigest) && Agrees(report, "workload_id", v.workloadId)
    && Agrees(report, "cohort_membership_sha256", v.membershipSha256)
    && Agrees(report, "package_sha256", v.packageDigest)
    && Agrees(report, "qualification_evidence_sha256", b.sealDigest)
  }

  ghost predicate SignedOff(w: World, v: Fields, b: Binding, value: Json, role: string) {
    && value.JObject? && b.prerequisitesPassed
    && exists report :: Holds(w, Get(value, "evidence"), report) && SignoffReport(w, v, b, value, role, report)
  }

  /** The file of the frozen membership: case keys in ascending order. */
  predicate MembershipFile(w: World, data: Json) {
    && HasFields(data, {"schema_version", "population_id", "case_keys"})
    && Is(data, "schema_version", JInt(1)) && Has(w, data, "population_id", Name)
    && KeyList(w, Get(data, "case_keys"))
    && forall i, k :: 0 <= i < k < |Items(Get(data, "case_keys"))| ==>
         Items(Get(data, "case_keys"))[i].JInt? && Items(Get(data, "case_keys"))[k].JInt?
         && Items(Get(data, "case_keys"))[i].n < Items(Get(data, "case_keys"))[k].n
  }

  ghost predicate Frozen(w: World, v: Fields, m: Membership) {
    && !Empty(v.membershipManifest)
    && exists data :: && Holds(w, v.membershipManifest, data) && MembershipFile(w, data)
                      && m.populationId == Get(data, "population_id")
                      && SameKeys(Items(Get(data, "case_keys")), m.caseKeys)
  }

  lemma ApprovalExact(w: World, value: Json)
    ensures Approval(w, value) <==> ApprovalFormed(w, value)
  {
    RetainedExact(w, Get(value, "evidence"));
  }

  lemma TextIs(a: Json, b: Json)
    requires b.JString?
    ensures PyEqual(a, b) <==> a == b
  {
  }

  lemma TextsAre(a: Json, b: Json)
    requires b.JArray? && forall i :: 0 <= i < |b.items| ==> b.items[i].JString?
    ensures PyEqual(a, b) <==> a == b
  {
    forall x, i | 0 <= i < |b.items| ensures SameElement(x, b.items[i]) <==> x == b.items[i] {
      TextIs(x, b.items[i]);
    }
    if PyEqual(a, b) {
      assert forall i :: 0 <= i < |b.items| ==> SameElement(a.items[i], b.items[i]);
      assert a.items == b.items;
    }
  }

  lemma OwnerReportExact(w: World, v: Fields, report: Json)
    ensures OwnerReport(w, v, report) <==> OwnerReportValid(w, v, report)
  {
    TextsAre(Get(report, "reviewed_sections"),
             JArray([JString("assignments"), JString("due_dates"), JString("no_ops"), JString("protected_cases"),
                     JString("escalation_plans"), JString("ambiguities"), JString("expected_manual_exceptions")]));
  }

  lemma OwnerReviewedExact(w: World, v: Fields)
    ensures OwnerReviewed(w, v) <==> OwnerApprovalValid(w, v)
  {
    forall report ensures OwnerReport(w, v, report) <==> OwnerReportValid(w, v, report) {
      OwnerReportExact(w, v, report);
    }
    ReportBehind(w, Get(v.ownerApproval, "evidence"));
  }

  lemma ReportBehind(w: World, reference: Json)
    ensures forall report :: Holds(w, reference, report) <==> ReadJson(w, reference) == Some(report)
  {
    forall report ensures Holds(w, reference, report) <==> ReadJson(w, reference) == Some(report) {
      HoldsExact(w, reference, report);
    }
  }

  lemma ThresholdReportExact(w: World, v: Fields, value: Json, role: string, report: Json)
    ensures ThresholdReport(w, v, value, role, report) <==> ThresholdReportValid(w, v, value, role, report)
  {
    TextIs(Get(report, "role"), JString(role));
  }

  lemma ThresholdsApprovedExact(w: World, v: Fields, value: Json, role: string)
    ensures ThresholdsApproved(w, v, value, role) <==> ThresholdApprovalValid(w, v, value, role)
  {
    forall report
      ensures ThresholdReport(w, v, value, role, report) <==> ThresholdReportValid(w, v, value, role, report)
    {
      ThresholdReportExact(w, v, value, role, report);
    }
    ReportBehind(w, Get(value, "evidence"));
  }

  lemma SignoffReportExact(w: World, v: Fields, b: Binding, value: Json, role: string, report: Json)
    ensures SignoffReport(w, v, b, value, role, report) <==> SignoffReportValid(w, v, b, value, role, report)
  {
    TextIs(Get(report, "role"), JString(role));
    TextIs(Get(report, "decision"), JString("go"));
  }

  lemma SignedOffExact(w: World, v: Fields, b: Binding, value: Json, role: string)
    ensures SignedOff(w, v, b, value, role) <==> FinalSignoffValid(w, v, b, value, role)
  {
    forall report
      ensures SignoffReport(w, v, b, value, role, report) <==> SignoffReportValid(w, v, b, value, role, report)
    {
      SignoffReportExact(w, v, b, value, role, report);
    }
    ReportBehind(w, Get(value, "evidence"));
  }

  lemma MembershipFileExact(w: World, data: Json)
    ensures MembershipFile(w, data) <==> MembershipShape(w, data)
  {
    KeyListExact(w, Get(data, "case_keys"));
    var items := Items(Get(data, "case_keys"));
    if MembershipShape(w, data) {
      forall i, k | 0 <= i < k < |items| ensures items[i].JInt? && items[k].JInt? && items[i].n < items[k].n {
        assert IsCaseKey(items[i]) && IsCaseKey(items[k]) && items[i] != items[k];
      }
    }
  }

  /** Case keys are read in one way. */
  lemma SameKeysOnce(items: seq<Json>, a: seq<CaseKey>, b: seq<CaseKey>)
    requires SameKeys(items, a) && SameKeys(items, b)
    ensures a == b
  {
  }

  lemma FrozenExact(w: World, v: Fields, m: Membership)
    ensures Frozen(w, v, m) <==> FrozenMembership(w, v) == Some(m)
  {
    PresentExact(v.membershipManifest);
    ReportBehind(w, v.membershipManifest);
    forall data ensures MembershipFile(w, data) <==> MembershipShape(w, data) {
      MembershipFileExact(w, data);
    }
    forall data | MembershipFile(w, data)
      ensures SameKeys(Items(Get(data, "case_keys")), m.caseKeys)
         <==> m.caseKeys == KeysAmong(Items(Get(data, "case_keys")))
    {
      var items := Items(Get(data, "case_keys"));
      MembersAreKeys(w, items);
      if SameKeys(items, m.caseKeys) {
        SameKeysOnce(items, m.caseKeys, KeysAmong(items));
      }
    }
  }
}
