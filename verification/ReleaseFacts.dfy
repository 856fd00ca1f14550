// What a release decision rests on, without the validator's own predicates.

module ReleaseFacts {
  import opened Basics
  import opened Complaints
  import opened Json
  import opened Evidence
  import opened Schema
  import opened ReportSchemas
  import opened ShadowCoverage
  import opened ShadowSchemas
  import opened OperatingRun
  import opened ReleaseRecord
  import opened ApprovalSchemas
  import opened RecordPaths
  import opened Demands
  import opened Qualification
  import opened QualificationTheorems

  // ---- The artifact tuple ----

  /** A digest, with or without the name of its algorithm. */
  predicate DigestText(w: World, j: Json) {
    || Meets(w, Digits(64), j)
    || (j.JString? && |j.s| == 71 && j.s[..7] == "sha256:" && forall i :: 7 <= i < 71 ==> j.s[i] in "0123456789abcdef")
  }

  /** What the artifact tuple states under the name, which is one of the 21. */
  predicate States(w: World, name: string, j: Json) {
    if name == "coordinator_owner" then j == JString("pg-react")
    else if name == "temporal_configuration" || name == "capability_response" then j.JObject? && |j.fields| > 0
    else if name in {"pg_react_source_commit", "pg_trickle_source_commit", "pg_mdm_source_commit"}
    then Meets(w, Digits(40), j)
    else if name in {"runtime_image_digest", "pg_react_shared_library_sha256", "pg_trickle_shared_library_sha256",
                     "pg_mdm_source_archive_sha256", "pg_mdm_shared_library_sha256", "mdm_contract_digest",
                     "public_projection_digest", "adapter_package_digest"}
    then DigestText(w, j)
    else j.JString? && |j.s| > 0
  }

  const ARTIFACT_NAMES := {
    "postgresql_version", "runtime_image_digest", "pg_react_version", "pg_react_source_commit",
    "pg_react_shared_library_sha256", "pg_trickle_version", "pg_trickle_source_commit",
    "pg_trickle_shared_library_sha256", "pg_mdm_version", "pg_mdm_source_commit", "pg_mdm_source_archive_sha256",
    "pg_mdm_shared_library_sha256", "mdm_contract_digest", "public_projection_digest", "adapter_package_digest",
    "platform", "isolation", "cdc", "coordinator_owner", "temporal_configuration", "capability_response"}

  ghost predicate WholeTuple(w: World, artifact: Json) {
    forall name :: name in ARTIFACT_NAMES ==> States(w, name, Get(artifact, name))
  }

  lemma DigestTextExact(w: World, artifact: Json, field: string)
    ensures Present(Get(artifact, field)) && DigestValid(artifact, field) <==> DigestText(w, Get(artifact, field))
  {
    var j := Get(artifact, field);
    DigitsExact(w, j, 64);
    if j.JString? {
      if "sha256:" <= j.s {
        DigitsExact(w, JString(j.s[7..]), 64);
      }
    }
  }

  /** The field is there, and of the form that its list asks for. */
  predicate FieldFits(artifact: Json, field: string) {
    && Present(Get(artifact, field))
    && !Malformatted(artifact, TEXT_FIELDS, DIGEST_FIELDS, COMMIT_FIELDS, OBJECT_FIELDS, field)
  }

  lemma DigestFieldExact(w: World, artifact: Json, field: string)
    requires field in {"runtime_image_digest", "pg_react_shared_library_sha256", "pg_trickle_shared_library_sha256",
                       "pg_mdm_source_archive_sha256", "pg_mdm_shared_library_sha256", "mdm_contract_digest",
                       "public_projection_digest", "adapter_package_digest"}
    ensures FieldFits(artifact, field) <==> States(w, field, Get(artifact, field))
  {
    DigestTextExact(w, artifact, field);
  }

  lemma CommitFieldExact(w: World, artifact: Json, field: string)
    requires field in {"pg_react_source_commit", "pg_trickle_source_commit", "pg_mdm_source_commit"}
    ensures FieldFits(artifact, field) <==> States(w, field, Get(artifact, field))
  {
    DigitsExact(w, Get(artifact, field), 40);
  }

  lemma ObjectFieldExact(w: World, artifact: Json, field: string)
    requires field in {"temporal_configuration", "capability_response"}
    ensures FieldFits(artifact, field) <==> States(w, field, Get(artifact, field))
  {
  }

  lemma VersionFieldExact(w: World, artifact: Json, field: string)
    requires field in {"postgresql_version", "pg_react_version", "pg_trickle_version", "pg_mdm_version"}
    ensures FieldFits(artifact, field) <==> States(w, field, Get(artifact, field))
  {
  }

  lemma TextFieldExact(w: World, artifact: Json, field: string)
    requires field in {"platform", "isolation", "cdc"}
    ensures FieldFits(artifact, field) <==> States(w, field, Get(artifact, field))
  {
  }

  lemma OwnerFieldExact(w: World, artifact: Json)
    ensures FieldFits(artifact, "coordinator_owner") <==> Get(artifact, "coordinator_owner") == JString("pg-react")
  {
    assert TEXT_FIELDS[7] == "coordinator_owner";
  }

  lemma FieldExact(w: World, artifact: Json, field: string)
    requires field in ARTIFACT_NAMES
    ensures FieldFits(artifact, field) <==> States(w, field, Get(artifact, field))
  {
    if field in {"runtime_image_digest", "pg_react_shared_library_sha256", "pg_trickle_shared_library_sha256",
                 "pg_mdm_source_archive_sha256", "pg_mdm_shared_library_sha256", "mdm_contract_digest",
                 "public_projection_digest", "adapter_package_digest"} {
      DigestFieldExact(w, artifact, field);
    } else if field in {"pg_react_source_commit", "pg_trickle_source_commit", "pg_mdm_source_commit"} {
      CommitFieldExact(w, artifact, field);
    } else if field in {"temporal_configuration", "capability_response"} {
      ObjectFieldExact(w, artifact, field);
    } else if field == "coordinator_owner" {
      OwnerFieldExact(w, artifact);
    } else if field in {"platform", "isolation", "cdc"} {
      TextFieldExact(w, artifact, field);
    } else {
      VersionFieldExact(w, artifact, field);
    }
  }

  lemma NamesAreFields(field: string)
    ensures field in ARTIFACT_NAMES <==> field in ARTIFACT_FIELDS
    ensures field in TEXT_FIELDS || field in DIGEST_FIELDS || field in COMMIT_FIELDS || field in OBJECT_FIELDS ==>
      field in ARTIFACT_NAMES
  {
  }

  lemma TupleByField(artifact: Json, all: seq<string>, texts: seq<string>, digests: seq<string>, commits: seq<string>,
                     objects: seq<string>)
    ensures && AllFields(all, field => Present(Get(artifact, field)))
            && AllFields(texts, field => TextValid(artifact, field))
            && AllFields(digests, field => DigestValid(artifact, field))
            && AllFields(commits, field => CommitValid(artifact, field))
            && AllFields(objects, field => ObjectValid(artifact, field))
       <==> && (forall field :: field in all ==> Present(Get(artifact, field)))
            && (forall field :: !Malformatted(artifact, texts, digests, commits, objects, field))
  {
    if && (forall field :: field in all ==> Present(Get(artifact, field)))
       && (forall field :: !Malformatted(artifact, texts, digests, commits, objects, field)) {
      forall i | 0 <= i < |all| ensures Present(Get(artifact, all[i])) {
        assert all[i] in all;
      }
      forall i | 0 <= i < |texts| ensures TextValid(artifact, texts[i]) {
        assert !Malformatted(artifact, texts, digests, commits, objects, texts[i]);
      }
      forall i | 0 <= i < |digests| ensures DigestValid(artifact, digests[i]) {
        assert !Malformatted(artifact, texts, digests, commits, objects, digests[i]);
      }
      forall i | 0 <= i < |commits| ensures CommitValid(artifact, commits[i]) {
        assert !Malformatted(artifact, texts, digests, commits, objects, commits[i]);
      }
      forall i | 0 <= i < |objects| ensures ObjectValid(artifact, objects[i]) {
        assert !Malformatted(artifact, texts, digests, commits, objects, objects[i]);
      }
    }
  }

  /** The checks of the artifact tuple accept exactly the whole tuples. */
  lemma TupleExact(w: World, artifact: Json)
    ensures ArtifactComplete(artifact) && ArtifactValid(artifact) <==> WholeTuple(w, artifact)
  {
    TupleByField(artifact, ARTIFACT_FIELDS, TEXT_FIELDS, DIGEST_FIELDS, COMMIT_FIELDS, OBJECT_FIELDS);
    forall field
      ensures field in ARTIFACT_NAMES <==> field in ARTIFACT_FIELDS
      ensures field in ARTIFACT_NAMES ==> (FieldFits(artifact, field) <==> States(w, field, Get(artifact, field)))
      ensures field !in ARTIFACT_NAMES ==>
        !Malformatted(artifact, TEXT_FIELDS, DIGEST_FIELDS, COMMIT_FIELDS, OBJECT_FIELDS, field)
    {
      NamesAreFields(field);
      if field in ARTIFACT_NAMES {
        FieldExact(w, artifact, field);
      }
    }
  }

  // ---- The gates ----

  /** R1 to R8 and C01 to C12. */
  predicate GateId(id: string) {
    || (|id| == 2 && id[0] == 'R' && '1' <= id[1] <= '8')
    || (|id| == 3 && id[0] == 'C' && id[1] == '0' && '1' <= id[2] <= '9')
    || (|id| == 3 && id[0] == 'C' && id[1] == '1' && '0' <= id[2] <= '2')
  }

  lemma GateIdExact(id: string)
    ensures id in GATE_IDS <==> GateId(id)
    ensures id in SEALED_GATE_IDS <==> GateId(id) && id != "R8"
  {
    SealedIdExact(id);
    OneMore(SEALED_GATE_IDS, 7, "R8", id);
  }

  lemma SealedIdExact(id: string)
    ensures id in SEALED_GATE_IDS <==> GateId(id) && id != "R8"
  {
    if GateId(id) && |id| == 2 {
      assert id == [id[0], id[1]];
      assert id == SEALED_GATE_IDS[id[1] as int - '1' as int] || id == "R8";
    } else if GateId(id) {
      assert id == [id[0], id[1], id[2]];
      assert id == SEALED_GATE_IDS[6 + 10 * (id[1] as int - '0' as int) + (id[2] as int - '0' as int)];
    }
  }

  lemma OneMore(ids: seq<string>, k: nat, extra: string, id: string)
    requires k <= |ids|
    ensures id in ids[..k] + [extra] + ids[k..] <==> id == extra || id in ids
  {
    assert ids == ids[..k] + ids[k..];
  }

  /** The gate is required and passed on retained evidence. */
  predicate PassedGate(w: World, gate: Json) {
    && gate.JObject? && Get(gate, "id").JString? && GateId(Get(gate, "id").s)
    && Is(gate, "status", JString("passed")) && Is(gate, "required", JBool(true))
    && RetainedAll(w, Get(gate, "evidence"))
  }

  ghost predicate Lists(gates: seq<Json>, id: string) {
    exists i :: 0 <= i < |gates| && Is(gates[i], "id", JString(id))
  }

  /** All twenty gates passed, each listed once, and no other gate. */
  ghost predicate AllGatesPassed(w: World, gates: seq<Json>) {
    && (forall i :: 0 <= i < |gates| ==> PassedGate(w, gates[i]))
    && (forall id :: GateId(id) ==> Lists(gates, id))
    && forall i, k :: 0 <= i < |gates| && 0 <= k < |gates| && i != k ==> Get(gates[i], "id") != Get(gates[k], "id")
  }

  lemma PassedGateParts(w: World, gate: Json)
    ensures PassedGate(w, gate)
       <==> && GateWellFormed(gate) && Get(gate, "status") == JString("passed")
            && EvidenceRetained(w, Get(gate, "evidence"))
  {
    if gate.JObject? && Get(gate, "id").JString? {
      GateIdExact(Get(gate, "id").s);
    }
    forall reference ensures Retained(w, reference) <==> Verified(w, reference) {
      RetainedExact(w, reference);
    }
  }

  lemma ListedIsMapped(gates: seq<Json>, id: string)
    requires forall i :: 0 <= i < |gates| ==> Identified(gates[i])
    ensures Lists(gates, id) <==> id in GateMap(gates)
  {
    GateMapHolds(gates, id);
    if i :| 0 <= i < |gates| && Is(gates[i], "id", JString(id)) {
      assert Identified(gates[i]) && Get(gates[i], "id").s == id;
    }
    if i :| 0 <= i < |gates| && Identified(gates[i]) && Get(gates[i], "id").s == id {
      assert Is(gates[i], "id", JString(id));
    }
  }

  lemma GateOpens(w: World, gates: seq<Json>, id: string)
    requires AllGatesPassed(w, gates) && GateId(id)
    ensures GateOpen(w, GateMap(gates), id)
  {
    forall i | 0 <= i < |gates| ensures Identified(gates[i]) {
      assert PassedGate(w, gates[i]);
    }
    ListedIsMapped(gates, id);
    GateMapHolds(gates, id);
    var i :| 0 <= i < |gates| && gates[i] == GateMap(gates)[id];
    assert PassedGate(w, gates[i]);
    PassedGateParts(w, gates[i]);
  }

  lemma PassedGatesAreValid(w: World, gates: seq<Json>)
    requires AllGatesPassed(w, gates)
    ensures GateListValid(gates) && GatesOpen(w, GateMap(gates))
  {
    forall i | 0 <= i < |gates| ensures GateWellFormed(gates[i]) {
      assert PassedGate(w, gates[i]);
      PassedGateParts(w, gates[i]);
    }
    forall k | 0 <= k < |GATE_IDS| ensures GateOpen(w, GateMap(gates), GATE_IDS[k]) {
      assert GATE_IDS[k] in GATE_IDS;
      GateIdExact(GATE_IDS[k]);
      GateOpens(w, gates, GATE_IDS[k]);
    }
  }

  lemma ValidGatesPassed(w: World, gates: seq<Json>)
    requires GateListValid(gates) && GatesOpen(w, GateMap(gates))
    ensures AllGatesPassed(w, gates)
  {
    forall i | 0 <= i < |gates| ensures PassedGate(w, gates[i]) {
      ListedGateIsOpen(w, gates, i);
      PassedGateParts(w, gates[i]);
    }
    forall id | GateId(id) ensures Lists(gates, id) {
      GateIdExact(id);
      var k :| 0 <= k < |GATE_IDS| && GATE_IDS[k] == id;
      RequiredGateIsListed(w, gates, k);
      var i :| 0 <= i < |gates| && Get(gates[i], "id") == JString(GATE_IDS[k]);
      assert Is(gates[i], "id", JString(id));
    }
    forall i, k | 0 <= i < |gates| && 0 <= k < |gates| && i != k ensures Get(gates[i], "id") != Get(gates[k], "id") {
      if Get(gates[i], "id") == Get(gates[k], "id") {
        SameIdSameGate(gates, i, k);
      }
    }
  }

  // ---- The decision ----

  /** The header of this release, the whole artifact tuple, and all gates passed. */
  ghost predicate CompleteManifest(w: World, manifest: Json) {
    && Agrees(manifest, "schema_version", JInt(1)) && Is(manifest, "release", JString("pg-react MDM adapter 0.50.0"))
    && Get(manifest, "artifact_tuple").JObject? && WholeTuple(w, Get(manifest, "artifact_tuple"))
    && Get(manifest, "gates").JArray? && AllGatesPassed(w, Get(manifest, "gates").items)
  }

  /** The manifest without its record is accepted exactly when it is complete. */
  lemma ManifestExact(w: World, manifest: Json)
    ensures ManifestAccepted(w, manifest) <==> CompleteManifest(w, manifest)
  {
    ManifestByParts(w, manifest);
    TupleExact(w, Artifact(manifest));
    if AllGatesPassed(w, Gates(manifest)) {
      PassedGatesAreValid(w, Gates(manifest));
    }
    if GateListValid(Gates(manifest)) && GatesOpen(w, GateMap(Gates(manifest))) {
      ValidGatesPassed(w, Gates(manifest));
    }
  }

  lemma NothingMissingExact(record: Json)
    ensures NothingMissing(Extract(record)) <==> forall field :: !Missing(record, field)
  {
    var missing := MissingOf(Extract(record));
    MissingExact(missing, record);
    if missing != [] {
      assert missing[0] in missing;
    }
  }

  lemma MissingOf(v: Fields) returns (missing: seq<RecordField>)
    ensures MissingAre(missing, v) && (missing == [] <==> NothingMissing(v))
  {
    missing := Complain(MissingConditions(v));
    assert Unfolded(0);
  }

  /** Every required field, and every demand met. */
  ghost predicate CompleteRecord(w: World, record: Json, b: Binding) {
    (forall field :: !Missing(record, field)) && DemandsMet(w, Extract(record), b)
  }

  /** The record is accepted exactly when it is complete. */
  lemma RecordExact(w: World, record: Json, b: Binding)
    ensures RecordAccepted(w, Extract(record), b) <==> CompleteRecord(w, record, b)
  {
    NothingMissingExact(record);
    ComplaintsAreUnmet(w, Extract(record), b, []);
  }

  // ---- The runs of a qualified release ----

  /** Neither cut short nor degraded. */
  predicate Undisturbed(run: Json) {
    Get(run, "truncated") == JBool(false) && Get(run, "safety_degraded") == JBool(false)
  }

  /** The report of a whole and undisturbed run, on this artifact tuple, workload and membership. */
  ghost predicate GoodRun(w: World, v: Fields, artifactDigest: Json, run: Json) {
    && WholeRun(w, RunContext(v.workloadId, v.membershipSha256, v.memberCount, artifactDigest), run)
    && Undisturbed(run)
  }

  lemma RunsAreWhole(w: World, v: Fields, b: Binding) returns (baseline: Json, final: Json)
    requires RecordAccepted(w, v, b) && Passed(b.gates, "R6")
    ensures ReadJson(w, v.baselineEvidence) == Some(baseline) && GoodRun(w, v, b.artifactDigest, baseline)
    ensures ReadJson(w, FinalReference(b)) == Some(final) && GoodRun(w, v, b.artifactDigest, final)
  {
    var f := SomeFindings(w, v, b);
    NothingIsMissing(v);
    BaselineConditionHolds(w, v, b, f);
    FinalConditionHolds(w, v, b, f);
    RunsAreThese(w, v, b, f);
    baseline, final := f.baseline.value, f.final.value;
    RunExact(w, Runs(v, b), baseline);
    RunExact(w, Runs(v, b), final);
  }

  /** Both runs of a qualified release are whole and undisturbed, and state the digest of its artifact tuple. */
  lemma QualifiedRuns(w: World, manifest: Json) returns (baseline: Json, final: Json)
    requires Qualified(w, manifest)
    ensures var v, digest := Extract(Record(manifest)), JsonSha256(w, Get(manifest, "artifact_tuple"));
            && ReadJson(w, v.baselineEvidence) == Some(baseline) && GoodRun(w, v, digest, baseline)
            && ReadJson(w, FinalReference(BindingOf(w, manifest))) == Some(final) && GoodRun(w, v, digest, final)
  {
    ManifestExact(w, manifest);
    GatesAreOpen(w, manifest);
    PassedInside(w, GateMap(Gates(manifest)));
    baseline, final := RunsAreWhole(w, Extract(Record(manifest)), BindingOf(w, manifest));
  }

  // ---- What is sealed ----

  /** The same members with the same values, but for the sign-offs. */
  ghost predicate SameRecord(a: Json, b: Json) {
    forall field :: field != "final_signoffs" ==> Inside(a, [Under(field)]) == Inside(b, [Under(field)])
  }

  ghost predicate SameGates(a: map<string, Json>, b: map<string, Json>) {
    forall id :: GateId(id) && id != "R8" ==>
      GateField(a, id, "status") == GateField(b, id, "status")
      && GateField(a, id, "evidence") == GateField(b, id, "evidence")
  }

  lemma RecordSealed(a: Json, b: Json)
    requires a.JObject? && b.JObject?
    ensures WithoutSignoffs(a) == WithoutSignoffs(b) <==> SameRecord(a, b)
  {
    var x, y := WithoutSignoffs(a), WithoutSignoffs(b);
    forall field ensures field != "final_signoffs" ==>
      (Inside(a, [Under(field)]) == Inside(b, [Under(field)])
       <==> (field in x <==> field in y) && (field in x ==> x[field] == y[field]))
    {
      GetIsInside(a, field);
      GetIsInside(b, field);
    }
    if SameRecord(a, b) {
      assert forall field :: field in x <==> field in y;
      assert x == y;
    }
  }

  lemma GatesSealed(a: map<string, Json>, b: map<string, Json>)
    ensures SealedGates(a) == SealedGates(b) <==> SameGates(a, b)
  {
    if SameGates(a, b) {
      forall i | 0 <= i < |SEALED_GATE_IDS| ensures SealedGates(a)[i] == SealedGates(b)[i] {
        assert SEALED_GATE_IDS[i] in SEALED_GATE_IDS;
        SealedIdExact(SEALED_GATE_IDS[i]);
      }
      assert SealedGates(a) == SealedGates(b);
    }
    if SealedGates(a) == SealedGates(b) {
      forall id | GateId(id) && id != "R8"
        ensures GateField(a, id, "status") == GateField(b, id, "status")
        ensures GateField(a, id, "evidence") == GateField(b, id, "evidence")
      {
        SealedIdExact(id);
        var i :| 0 <= i < |SEALED_GATE_IDS| && SEALED_GATE_IDS[i] == id;
        assert SealedGates(a)[i] == SealedGates(b)[i];
        SealedGateFields(a, b, id);
      }
    }
  }

  /** Two manifests seal the same exactly when they agree on the artifact tuple, on the record but for the sign-offs,
      and on status and evidence of every gate but R8. */
  lemma SealedExact(a: Json, b: Json)
    ensures Sealed(a) == Sealed(b) <==> && Artifact(a) == Artifact(b) && SameRecord(Record(a), Record(b))
                                        && SameGates(GateMap(Gates(a)), GateMap(Gates(b)))
  {
    RecordSealed(Record(a), Record(b));
    GatesSealed(GateMap(Gates(a)), GateMap(Gates(b)));
    var x, y := Sealed(a).items, Sealed(b).items;
    assert x == y <==> x[0] == y[0] && x[1] == y[1] && x[2] == y[2];
  }

  lemma PrerequisitesExact(gates: map<string, Json>)
    ensures PrerequisitesPassed(gates)
       <==> forall id :: GateId(id) && id != "R8" ==> GateField(gates, id, "status") == JString("passed")
  {
    if PrerequisitesPassed(gates) {
      forall id | GateId(id) && id != "R8" ensures GateField(gates, id, "status") == JString("passed") {
        SealedIdExact(id);
        var i :| 0 <= i < |SEALED_GATE_IDS| && SEALED_GATE_IDS[i] == id;
        assert Passed(gates, SEALED_GATE_IDS[i]);
      }
    }
    if forall id :: GateId(id) && id != "R8" ==> GateField(gates, id, "status") == JString("passed") {
      forall i | 0 <= i < |SEALED_GATE_IDS| ensures Passed(gates, SEALED_GATE_IDS[i]) {
        assert SEALED_GATE_IDS[i] in SEALED_GATE_IDS;
        SealedIdExact(SEALED_GATE_IDS[i]);
      }
    }
  }

  // ---- Which gates a complaint blocks ----

  /** A required field blocks R6 when it stands in the operating envelope, and R8 among the final sign-offs. */
  lemma EnvelopeBlocks(group: nat, i: nat)
    requires group < MISSING_GROUPS && i < |Requirements(group)|
    ensures OfEnvelope(Requirements(group)[i].field) <==> Requirements(group)[i].spot.section == "operating_envelope"
  {
  }

  lemma SignoffsBlock(group: nat, i: nat)
    requires group < MISSING_GROUPS && i < |Requirements(group)|
    ensures OfSignoffs(Requirements(group)[i].field) <==> Requirements(group)[i].spot.section == "final_signoffs"
  {
  }

  /** The fields that make up others block the gates of these. */
  lemma OthersBlock()
    ensures OfEnvelope(ObservationWindow) && OfEnvelope(FinalEvidence)
    ensures OfSignoffs(ThreeReviewers) && OfSignoffs(SignoffEvidence)
    ensures !OfEnvelope(StageEvidence) && !OfSignoffs(StageEvidence)
  {
  }
}
