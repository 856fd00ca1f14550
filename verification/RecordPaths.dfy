// Where the fields of a release record stand, and which are missing.

module RecordPaths {
  import opened Basics
  import opened Complaints
  import opened Json
  import opened ReleaseRecord

  // ---- Where the fields stand ----

  /** A dotted path of two or three names. */
  datatype Spot = Path(section: string, name: string) | Deeper(section: string, part: string, name: string)

  function Places(spot: Spot): seq<Place> {
    match spot
    case Path(section, name) => [Under(section), Under(name)]
    case Deeper(section, part, name) => [Under(section), Under(part), Under(name)]
  }

  datatype Requirement = Requirement(field: RecordField, spot: Spot)

  /** The required fields and their paths, section by section. */
  function Requirements(group: nat): seq<Requirement> {
    match group
    case 0 =>
      [Requirement(WorkloadId, Path("workload", "id")),
       Requirement(WorkloadOwner, Path("workload", "owner")),
       Requirement(AdministrativeDomain, Path("workload", "administrative_domain"))]
    case 1 =>
      [Requirement(MembershipDefinition, Path("cohort", "membership_definition")),
       Requirement(MembershipManifest, Path("cohort", "membership_manifest")),
       Requirement(MembershipSha256, Path("cohort", "membership_sha256")),
       Requirement(MemberCount, Path("cohort", "member_count")),
       Requirement(PolicyRevisions, Path("cohort", "policy_revisions")),
       Requirement(ExpectedExceptions, Path("cohort", "expected_exceptions")),
       Requirement(PackageManifest, Path("cohort", "package_manifest")),
       Requirement(PackageDigest, Path("cohort", "package_digest"))]
    case 2 =>
      [Requirement(ReferencePopulation, Path("shadow", "reference_population_sha256")),
       Requirement(CoverageManifest, Path("shadow", "coverage_manifest")),
       Requirement(ExpectedCount, Path("shadow", "expected_case_count")),
       Requirement(ObservedCount, Path("shadow", "observed_case_count")),
       Requirement(Partiality, Path("shadow", "partial")),
       Requirement(DuplicateCount, Path("shadow", "duplicate_case_count")),
       Requirement(OwnerApproval, Path("shadow", "owner_approval"))]
    case 3 =>
      [Requirement(BaselineEvidence, Path("operating_envelope", "baseline_evidence")),
       Requirement(CaseCountMax, Deeper("operating_envelope", "thresholds", "case_count_max")),
       Requirement(ChurnMax, Deeper("operating_envelope", "thresholds", "churn_per_hour_max")),
       Requirement(BacklogMax, Deeper("operating_envelope", "thresholds", "queue_backlog_max")),
       Requirement(LatencyMax, Deeper("operating_envelope", "thresholds", "latency_p95_ms_max")),
       Requirement(RetentionHorizon, Deeper("operating_envelope", "thresholds", "retention_horizon_seconds")),
       Requirement(RecoveryMax, Deeper("operating_envelope", "thresholds", "recovery_rto_seconds_max"))]
    case 4 =>
      [Requirement(ObservationStart, Deeper("operating_envelope", "observation", "started_at")),
       Requirement(ObservationEnd, Deeper("operating_envelope", "observation", "ended_at")),
       Requirement(OperatorThresholds, Path("operating_envelope", "operator_threshold_approval")),
       Requirement(ReleaseOwnerThresholds, Path("operating_envelope", "release_owner_threshold_approval")),
       Requirement(ReleaseNotes, Path("support_documents", "release_notes")),
       Requirement(SupportMatrix, Path("support_documents", "support_matrix")),
       Requirement(OperatorGuide, Path("support_documents", "operator_guide"))]
    case _ =>
      [Requirement(OperatorSignoff, Path("final_signoffs", "operator")),
       Requirement(ReleaseOwnerSignoff, Path("final_signoffs", "release_owner")),
       Requirement(ReviewerSignoff, Path("final_signoffs", "independent_reviewer"))]
  }

  function Standing(record: Json, spot: Spot): Json {
    match spot
    case Path(section, name) => Get(Get(record, section), name)
    case Deeper(section, part, name) => Get(Get(Get(record, section), part), name)
  }

  lemma StepInside(j: Json, key: string, rest: seq<Place>)
    ensures Inside(j, [Under(key)] + rest)
         == if Inside(j, [Under(key)]).Some? then Inside(Get(j, key), rest) else None
  {
    GetIsInside(j, key);
    assert ([Under(key)] + rest)[1..] == rest;
  }

  /** What stands at the path, or null where it leads nowhere. */
  lemma StandingExact(record: Json, spot: Spot)
    ensures var found := Inside(record, Places(spot));
            Standing(record, spot) == if found.Some? then found.value else JNull
  {
    GetIsInside(record, spot.section);
    match spot
    case Path(section, name) =>
      assert Places(spot) == [Under(section)] + [Under(name)];
      StepInside(record, section, [Under(name)]);
      GetIsInside(Get(record, section), name);
    case Deeper(section, part, name) =>
      assert Places(spot) == [Under(section)] + ([Under(part)] + [Under(name)]);
      StepInside(record, section, [Under(part)] + [Under(name)]);
      StepInside(Get(record, section), part, [Under(name)]);
      GetIsInside(Get(record, section), part);
      GetIsInside(Get(Get(record, section), part), name);
  }

  /** The field is required, and its path leads to nothing or to something empty. */
  ghost predicate Missing(record: Json, field: RecordField) {
    exists g: nat :: g < MISSING_GROUPS && Lacks(record, Requirements(g), field)
  }

  ghost predicate Lacks(record: Json, requirements: seq<Requirement>, field: RecordField) {
    exists i :: 0 <= i < |requirements| && requirements[i].field == field
                && Empty(Standing(record, requirements[i].spot))
  }

  // ---- Missing fields ----

  predicate AsksAt(record: Json, condition: Condition<RecordField>, r: Requirement) {
    condition == Condition(Present(Standing(record, r.spot)), r.field)
  }

  /** The conditions ask for the requirements. */
  predicate AsksFor(record: Json, c: seq<Condition<RecordField>>, r: seq<Requirement>) {
    |c| == |r| && forall i :: 0 <= i < |r| ==> AsksAt(record, c[i], r[i])
  }

  lemma AsksShort(record: Json, c: seq<Condition<RecordField>>, r: seq<Requirement>)
    requires |c| == |r| <= 8
    requires (0 < |r| ==> AsksAt(record, c[0], r[0])) && (1 < |r| ==> AsksAt(record, c[1], r[1]))
    requires (2 < |r| ==> AsksAt(record, c[2], r[2])) && (3 < |r| ==> AsksAt(record, c[3], r[3]))
    requires (4 < |r| ==> AsksAt(record, c[4], r[4])) && (5 < |r| ==> AsksAt(record, c[5], r[5]))
    requires (6 < |r| ==> AsksAt(record, c[6], r[6])) && (7 < |r| ==> AsksAt(record, c[7], r[7]))
    ensures AsksFor(record, c, r)
  {
  }

  lemma WorkloadAsks(record: Json)
    ensures AsksFor(record, MissingGroup(Extract(record), 0), Requirements(0))
  {
    AsksShort(record, MissingGroup(Extract(record), 0), Requirements(0));
  }

  lemma CohortAsks(record: Json)
    ensures AsksFor(record, MissingGroup(Extract(record), 1), Requirements(1))
  {
    AsksShort(record, MissingGroup(Extract(record), 1), Requirements(1));
  }

  lemma ShadowAsks(record: Json)
    ensures AsksFor(record, MissingGroup(Extract(record), 2), Requirements(2))
  {
    AsksShort(record, MissingGroup(Extract(record), 2), Requirements(2));
  }

  lemma LimitsAsks(record: Json)
    ensures AsksFor(record, MissingGroup(Extract(record), 3), Requirements(3))
  {
    AsksShort(record, MissingGroup(Extract(record), 3), Requirements(3));
  }

  lemma WindowAsks(record: Json)
    ensures AsksFor(record, MissingGroup(Extract(record), 4), Requirements(4))
  {
    AsksShort(record, MissingGroup(Extract(record), 4), Requirements(4));
  }

  lemma SignoffsAsks(record: Json)
    ensures AsksFor(record, MissingGroup(Extract(record), 5), Requirements(5))
  {
    AsksShort(record, MissingGroup(Extract(record), 5), Requirements(5));
  }

  lemma GroupAsks(record: Json, group: nat)
    requires group < MISSING_GROUPS
    ensures AsksFor(record, MissingGroup(Extract(record), group), Requirements(group))
  {
    match group
    case 0 => WorkloadAsks(record);
    case 1 => CohortAsks(record);
    case 2 => ShadowAsks(record);
    case 3 => LimitsAsks(record);
    case 4 => WindowAsks(record);
    case 5 => SignoffsAsks(record);
  }

  lemma FailsToAsk(record: Json, c: seq<Condition<RecordField>>, r: seq<Requirement>, field: RecordField)
    requires AsksFor(record, c, r)
    ensures Fails(c, field) <==> Lacks(record, r, field)
  {
    forall i | 0 <= i < |r| ensures c[i] == Condition(!Empty(Standing(record, r[i].spot)), r[i].field) {
      assert AsksAt(record, c[i], r[i]);
      PresentExact(Standing(record, r[i].spot));
    }
  }

  /** The missing fields are exactly the required ones whose path leads to nothing. */
  lemma MissingExact(missing: seq<RecordField>, record: Json)
    requires MissingAre(missing, Extract(record))
    ensures forall field :: field in missing <==> Missing(record, field)
  {
    var v := Extract(record);
    assert Unfolded(0);
    forall field ensures field in missing <==> Missing(record, field) {
      FailsFlatten(MissingGroups(v), field);
      forall g: nat | g < MISSING_GROUPS
        ensures MissingGroups(v)[g] == MissingGroup(v, g)
        ensures Fails(MissingGroup(v, g), field) <==> Lacks(record, Requirements(g), field)
      {
        GroupAsks(record, g);
        FailsToAsk(record, MissingGroup(v, g), Requirements(g), field);
      }
    }
  }
}
