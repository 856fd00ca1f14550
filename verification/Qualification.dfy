// The release decision (tests/integrations/pg-mdm/derive_v050_qualification.py:13-49, 148-151,
// 401-423, 1022-1145) and what a positive decision implies.

module Qualification {
  import opened Basics
  import opened Complaints
  import opened Json
  import opened Evidence
  import opened ShadowCoverage
  import opened OperatingRun
  import opened ReleaseRecord

  const TEXT_FIELDS: seq<string> := [
    "postgresql_version", "pg_react_version", "pg_trickle_version", "pg_mdm_version",
    "platform", "isolation", "cdc", "coordinator_owner"]
  const DIGEST_FIELDS: seq<string> := [
    "runtime_image_digest", "pg_react_shared_library_sha256", "pg_trickle_shared_library_sha256",
    "pg_mdm_source_archive_sha256", "pg_mdm_shared_library_sha256", "mdm_contract_digest",
    "public_projection_digest", "adapter_package_digest"]
  const COMMIT_FIELDS: seq<string> := ["pg_react_source_commit", "pg_trickle_source_commit", "pg_mdm_source_commit"]
  const OBJECT_FIELDS: seq<string> := ["temporal_configuration", "capability_response"]
  const ARTIFACT_FIELDS: seq<string> := [
    "postgresql_version", "runtime_image_digest", "pg_react_version", "pg_react_source_commit",
    "pg_react_shared_library_sha256", "pg_trickle_version", "pg_trickle_source_commit",
    "pg_trickle_shared_library_sha256", "pg_mdm_version", "pg_mdm_source_commit", "pg_mdm_source_archive_sha256",
    "pg_mdm_shared_library_sha256", "mdm_contract_digest", "public_projection_digest", "adapter_package_digest",
    "platform", "isolation", "cdc", "coordinator_owner", "temporal_configuration", "capability_response"]

  /** All gates but R8, whose own evidence is the sign-offs. */
  const SEALED_GATE_IDS: seq<string> := [
    "R1", "R2", "R3", "R4", "R5", "R6", "R7",
    "C01", "C02", "C03", "C04", "C05", "C06", "C07", "C08", "C09", "C10", "C11", "C12"]
  const GATE_IDS: seq<string> := SEALED_GATE_IDS[..7] + ["R8"] + SEALED_GATE_IDS[7..]

  // ---- The artifact tuple ----

  predicate TextValid(artifact: Json, field: string) {
    Present(Get(artifact, field)) ==>
      Get(artifact, field).JString? && (field == "coordinator_owner" ==> Get(artifact, field).s == "pg-react")
  }

  predicate DigestValid(artifact: Json, field: string) {
    var value := Get(artifact, field);
    Present(value) ==>
      value.JString? && (Hex(value.s, 64) || ("sha256:" <= value.s && Hex(value.s[7..], 64)))
  }

  predicate CommitValid(artifact: Json, field: string) {
    Present(Get(artifact, field)) ==> HexString(Get(artifact, field), 40)
  }

  predicate ObjectValid(artifact: Json, field: string) {
    Present(Get(artifact, field)) ==> Get(artifact, field).JObject?
  }

  ghost predicate AllFields(fields: seq<string>, ok: string -> bool) {
    forall i :: 0 <= i < |fields| ==> ok(fields[i])
  }

  /** The fields that fail a test, in order. */
  method FailingFields(fields: seq<string>, ok: string -> bool) returns (failing: seq<string>)
    ensures forall field :: field in failing <==> field in fields && !ok(field)
    ensures failing == [] <==> AllFields(fields, ok)
  {
    failing := [];
    for i := 0 to |fields|
      invariant forall field :: field in failing <==> field in fields[..i] && !ok(field)
      invariant failing == [] <==> forall k :: 0 <= k < i ==> ok(fields[k])
    {
      assert fields[..i + 1] == fields[..i] + [fields[i]];
      if !ok(fields[i]) {
        failing := failing + [fields[i]];
      }
    }
    assert fields[..|fields|] == fields;
  }

  ghost predicate ArtifactComplete(artifact: Json) {
    AllFields(ARTIFACT_FIELDS, field => Present(Get(artifact, field)))
  }

  ghost predicate ArtifactValid(artifact: Json) {
    && AllFields(TEXT_FIELDS, field => TextValid(artifact, field))
    && AllFields(DIGEST_FIELDS, field => DigestValid(artifact, field))
    && AllFields(COMMIT_FIELDS, field => CommitValid(artifact, field))
    && AllFields(OBJECT_FIELDS, field => ObjectValid(artifact, field))
  }

  /** Among fields of these four kinds, the value is there but not of its kind. */
  predicate Malformatted(artifact: Json, texts: seq<string>, digests: seq<string>, commits: seq<string>,
                         objects: seq<string>, field: string) {
    || (field in texts && !TextValid(artifact, field)) || (field in digests && !DigestValid(artifact, field))
    || (field in commits && !CommitValid(artifact, field)) || (field in objects && !ObjectValid(artifact, field))
  }

  method FindInvalid(artifact: Json, texts: seq<string>, digests: seq<string>, commits: seq<string>,
                     objects: seq<string>) returns (invalid: seq<string>)
    ensures forall field :: field in invalid <==> Malformatted(artifact, texts, digests, commits, objects, field)
    ensures invalid == [] <==> && AllFields(texts, field => TextValid(artifact, field))
                               && AllFields(digests, field => DigestValid(artifact, field))
                               && AllFields(commits, field => CommitValid(artifact, field))
                               && AllFields(objects, field => ObjectValid(artifact, field))
  {
    var badTexts := FailingFields(texts, field => TextValid(artifact, field));
    var badDigests := FailingFields(digests, field => DigestValid(artifact, field));
    var badCommits := FailingFields(commits, field => CommitValid(artifact, field));
    var badObjects := FailingFields(objects, field => ObjectValid(artifact, field));
    invalid := badTexts + badDigests + badCommits + badObjects;
  }

  /** The lists name exactly the absent and the malformed fields. */
  ghost predicate ArtifactFindings(artifact: Json, missing: seq<string>, invalid: seq<string>) {
    && (forall field :: field in missing <==> field in ARTIFACT_FIELDS && !Present(Get(artifact, field)))
    && forall field ::
         field in invalid <==> Malformatted(artifact, TEXT_FIELDS, DIGEST_FIELDS, COMMIT_FIELDS, OBJECT_FIELDS, field)
  }

  method CheckArtifact(artifact: Json) returns (missing: seq<string>, invalid: seq<string>)
    ensures ArtifactFindings(artifact, missing, invalid)
    ensures missing == [] <==> ArtifactComplete(artifact)
    ensures invalid == [] <==> ArtifactValid(artifact)
  {
    missing := FailingFields(ARTIFACT_FIELDS, field => Present(Get(artifact, field)));
    invalid := FindInvalid(artifact, TEXT_FIELDS, DIGEST_FIELDS, COMMIT_FIELDS, OBJECT_FIELDS);
  }

  // ---- The gate list ----

  datatype ManifestError =
    | NotAnObject | ArtifactNotAnObject | GatesNotAnArray | WrongSchemaVersion | WrongRelease
    | GateWithoutId | InvalidStatus(id: string) | NotRequired(id: string) | DuplicateGates | UnknownGates
    | EvidenceNotRetained(id: string)

  predicate Identified(gate: Json) {
    gate.JObject? && Get(gate, "id").JString?
  }

  predicate StatusKnown(status: Json) {
    status.JString? && status.s in {"passed", "failed", "blocked", "not_run", "skipped"}
  }

  /** Testing such a status for membership in a Python set raises TypeError. */
  predicate Unhashable(status: Json) {
    status.JArray? || status.JObject?
  }

  /** The gates by id; a later gate replaces an earlier one of the same id. */
  function GateMap(gates: seq<Json>): map<string, Json> {
    if gates == [] then map[]
    else
      var front, gate := GateMap(gates[..|gates| - 1]), gates[|gates| - 1];
      if Identified(gate) then front[Get(gate, "id").s := gate] else front
  }

  predicate GateWellFormed(gate: Json) {
    && Identified(gate) && StatusKnown(Get(gate, "status")) && Get(gate, "required") == JBool(true)
    && Get(gate, "id").s in GATE_IDS
  }

  ghost predicate DistinctIds(gates: seq<Json>) {
    forall i, j :: 0 <= i < j < |gates| ==> Get(gates[i], "id") != Get(gates[j], "id")
  }

  ghost predicate GateListValid(gates: seq<Json>) {
    (forall i :: 0 <= i < |gates| ==> GateWellFormed(gates[i])) && DistinctIds(gates)
  }

  ghost predicate HasUnhashable(gates: seq<Json>) {
    exists i :: 0 <= i < |gates| && Identified(gates[i]) && Unhashable(Get(gates[i], "status"))
  }

  /** A key of the map is the id of a gate in the list. */
  lemma {:induction false} GateMapHolds(gates: seq<Json>, id: string)
    ensures id in GateMap(gates) <==>
      exists i :: 0 <= i < |gates| && Identified(gates[i]) && Get(gates[i], "id").s == id
    ensures id in GateMap(gates) ==> GateMap(gates)[id] in gates && Identified(GateMap(gates)[id])
                                     && Get(GateMap(gates)[id], "id").s == id
  {
    if gates != [] {
      var front, last := gates[..|gates| - 1], gates[|gates| - 1];
      GateMapHolds(front, id);
      assert gates == front + [last];
      if id in GateMap(gates) && id !in GateMap(front) {
        assert Identified(gates[|gates| - 1]) && Get(gates[|gates| - 1], "id").s == id;
      }
      if i :| 0 <= i < |gates| && Identified(gates[i]) && Get(gates[i], "id").s == id {
        if i < |front| { assert front[i] == gates[i]; }
      }
    }
  }

  /** errors is empty exactly when the list is valid; r is None when a status cannot be tested. */
  method ReadGates(gates: seq<Json>) returns (r: Option<map<string, Json>>, errors: seq<ManifestError>)
    ensures r.None? <==> HasUnhashable(gates)
    ensures r.Some? ==> r.value == GateMap(gates) && (errors == [] <==> GateListValid(gates))
  {
    errors := [];
    var gateMap: map<string, Json> := map[];
    var duplicate, unknown := false, false;
    for index := 0 to |gates|
      invariant gateMap == GateMap(gates[..index])
      invariant !HasUnhashable(gates[..index])
      invariant errors == [] && !duplicate && !unknown <==> GateListValid(gates[..index])
    {
      var gate := gates[index];
      assert gates[..index + 1] == gates[..index] + [gate];
      GateListStep(gates[..index], gate);
      if !Identified(gate) {
        errors := errors + [GateWithoutId];
        continue;
      }
      var id := Get(gate, "id").s;
      duplicate := duplicate || id in gateMap;
      gateMap := gateMap[id := gate];
      if Unhashable(Get(gate, "status")) {
        return None, errors;
      }
      if !StatusKnown(Get(gate, "status")) {
        errors := errors + [InvalidStatus(id)];
      }
      if Get(gate, "required") != JBool(true) {
        errors := errors + [NotRequired(id)];
      }
      unknown := unknown || id !in GATE_IDS;
    }
    assert gates[..|gates|] == gates;
    if duplicate {
      errors := errors + [DuplicateGates];
    }
    if unknown {
      errors := errors + [UnknownGates];
    }
    r := Some(gateMap);
  }

  lemma GateListStep(gates: seq<Json>, gate: Json)
    ensures GateMap(gates + [gate]) == if Identified(gate) then GateMap(gates)[Get(gate, "id").s := gate]
      else GateMap(gates)
    ensures HasUnhashable(gates + [gate]) <==>
      HasUnhashable(gates) || (Identified(gate) && Unhashable(Get(gate, "status")))
    ensures GateListValid(gates + [gate])
       <==> GateListValid(gates) && GateWellFormed(gate) && Get(gate, "id").s !in GateMap(gates)
  {
    var all := gates + [gate];
    assert all[..|all| - 1] == gates;
    if HasUnhashable(gates) {
      var i :| 0 <= i < |gates| && Identified(gates[i]) && Unhashable(Get(gates[i], "status"));
      assert all[i] == gates[i];
    }
    if Identified(gate) && Unhashable(Get(gate, "status")) {
      assert all[|gates|] == gate;
    }
    if Identified(gate) {
      GateMapHolds(gates, Get(gate, "id").s);
    }
    if GateListValid(all) {
      assert GateWellFormed(all[|gates|]);
      forall i | 0 <= i < |gates| ensures GateWellFormed(gates[i]) && Get(gates[i], "id") != Get(gate, "id") {
        assert GateWellFormed(all[i]) && Get(all[i], "id") != Get(all[|gates|], "id");
      }
      forall i, j | 0 <= i < j < |gates| ensures Get(gates[i], "id") != Get(gates[j], "id") {
        assert Get(all[i], "id") != Get(all[j], "id");
      }
    }
    if GateListValid(gates) && GateWellFormed(gate) && Get(gate, "id").s !in GateMap(gates) {
      forall i | 0 <= i < |all| ensures GateWellFormed(all[i]) {
        if i < |gates| { assert GateWellFormed(gates[i]); }
      }
      forall i, j | 0 <= i < j < |all| ensures Get(all[i], "id") != Get(all[j], "id") {
        assert GateWellFormed(gates[i]);
      }
    }
  }

  predicate EvidenceRetained(w: World, evidence: Json) {
    evidence.JArray? && evidence.items != [] && forall i :: 0 <= i < |evidence.items| ==> Verified(w, evidence.items[i])
  }

  predicate GateOpen(w: World, gates: map<string, Json>, id: string) {
    id in gates && Passed(gates, id) && EvidenceRetained(w, GateField(gates, id, "evidence"))
  }

  // ---- The decision ----

  datatype Decision = Decision(
    releaseQualified: bool, missingArtifactFields: seq<string>, invalidArtifactFields: seq<string>,
    blockingGates: seq<string>, manifestErrors: seq<ManifestError>,
    missingReleaseFields: seq<RecordField>, invalidReleaseFields: seq<Complaint>)

  function Artifact(manifest: Json): Json {
    if Get(manifest, "artifact_tuple").JObject? then Get(manifest, "artifact_tuple") else JObject(map[])
  }

  function Gates(manifest: Json): seq<Json> {
    Items(Get(manifest, "gates"))
  }

  function Record(manifest: Json): Json {
    if Get(manifest, "release_record").JObject? then Get(manifest, "release_record") else JObject(map[])
  }

  function SealedGate(gates: map<string, Json>, id: string): Json {
    JObject(map["id" := JString(id), "status" := GateField(gates, id, "status"),
                "evidence" := GateField(gates, id, "evidence")])
  }

  function SealedGates(gates: map<string, Json>): seq<Json> {
    seq(|SEALED_GATE_IDS|, i requires 0 <= i < |SEALED_GATE_IDS| => SealedGate(gates, SEALED_GATE_IDS[i]))
  }

  function WithoutSignoffs(record: Json): map<string, Json> {
    if record.JObject? then record.fields - {"final_signoffs"} else map[]
  }

  /** What the final sign-offs are about: the artifact tuple, the record without the sign-offs, the other gates. */
  function Sealed(manifest: Json): Json {
    JArray([Artifact(manifest), JObject(WithoutSignoffs(Record(manifest))),
            JArray(SealedGates(GateMap(Gates(manifest))))])
  }

  predicate PrerequisitesPassed(gates: map<string, Json>) {
    forall i :: 0 <= i < |SEALED_GATE_IDS| ==> Passed(gates, SEALED_GATE_IDS[i])
  }

  function BindingOf(w: World, manifest: Json): Binding {
    var gates := GateMap(Gates(manifest));
    Binding(gates, JsonSha256(w, Artifact(manifest)), JsonSha256(w, Sealed(manifest)), PrerequisitesPassed(gates))
  }

  ghost predicate GatesOpen(w: World, gates: map<string, Json>) {
    forall i :: 0 <= i < |GATE_IDS| ==> GateOpen(w, gates, GATE_IDS[i])
  }

  /** The artifact tuple, the gates and the manifest header. */
  ghost predicate ManifestAccepted(w: World, manifest: Json) {
    forall k :: Unfolded(k) ==> ManifestParts(w, manifest)
  }

  ghost predicate ManifestParts(w: World, manifest: Json) {
    && Get(manifest, "artifact_tuple").JObject?
    && ArtifactComplete(Artifact(manifest)) && ArtifactValid(Artifact(manifest))
    && Get(manifest, "gates").JArray? && GateListValid(Gates(manifest))
    && GatesOpen(w, GateMap(Gates(manifest)))
    && ThisRelease(manifest)
  }

  ghost predicate RecordAccepted(w: World, v: Fields, b: Binding) {
    NothingMissing(v) && NothingInvalid(w, v, b)
  }

  ghost predicate Qualified(w: World, manifest: Json) {
    manifest.JObject? && ManifestAccepted(w, manifest)
    && RecordAccepted(w, Extract(Record(manifest)), BindingOf(w, manifest))
  }

  method CheckGateEvidence(w: World, id: string, evidence: Json) returns (retained: bool, errors: seq<ManifestError>)
    ensures retained <==> EvidenceRetained(w, evidence)
    ensures errors != [] ==> !retained
  {
    retained, errors := evidence.JArray? && evidence.items != [], [];
    if retained {
      for index := 0 to |evidence.items|
        invariant retained <==> forall k :: 0 <= k < index ==> Verified(w, evidence.items[k])
        invariant errors != [] ==> !retained
      {
        if !Verified(w, evidence.items[index]) {
          errors := errors + [EvidenceNotRetained(id)];
          retained := false;
        }
      }
    }
  }

  /** Every required gate that is not open, in order; a complaint about evidence comes only with such a gate. */
  method FindBlocking(w: World, gates: map<string, Json>) returns (blocking: seq<string>, errors: seq<ManifestError>)
    ensures forall id :: id in blocking <==> id in GATE_IDS && !GateOpen(w, gates, id)
    ensures errors != [] ==> blocking != []
  {
    blocking, errors := [], [];
    for i := 0 to |GATE_IDS|
      invariant forall id :: id in blocking <==> id in GATE_IDS[..i] && !GateOpen(w, gates, id)
      invariant errors != [] ==> blocking != []
    {
      var id := GATE_IDS[i];
      var retained, complaints := CheckGateEvidence(w, id, GateField(gates, id, "evidence"));
      errors := errors + complaints;
      assert GATE_IDS[..i + 1] == GATE_IDS[..i] + [id];
      if id !in gates || !Passed(gates, id) || !retained {
        blocking := blocking + [id];
      }
    }
    assert GATE_IDS[..|GATE_IDS|] == GATE_IDS;
  }

  lemma NothingBlocks(w: World, gates: map<string, Json>, blocking: seq<string>)
    requires forall id :: id in blocking <==> id in GATE_IDS && !GateOpen(w, gates, id)
    ensures blocking == [] <==> GatesOpen(w, gates)
  {
    if blocking != [] {
      assert blocking[0] in blocking;
    }
    if !GatesOpen(w, gates) {
      var i :| 0 <= i < |GATE_IDS| && !GateOpen(w, gates, GATE_IDS[i]);
      assert GATE_IDS[i] in blocking;
    }
  }

  /** The blocking gates together with some more, in gate order. */
  function Block(blocking: seq<string>, more: set<string>, ids: seq<string>): (r: seq<string>)
    ensures forall id :: id in r <==> id in ids && (id in blocking || id in more)
  {
    if ids == [] then []
    else
      var last := ids[|ids| - 1];
      Block(blocking, more, ids[..|ids| - 1]) + if last in blocking || last in more then [last] else []
  }

  function BlockWhen(concerned: bool, blocking: seq<string>, more: set<string>): (r: seq<string>)
    requires forall id :: id in blocking ==> id in GATE_IDS
    ensures forall id :: id in r <==> id in GATE_IDS && (id in blocking || (concerned && id in more))
  {
    if concerned then Block(blocking, more, GATE_IDS) else blocking
  }

  /** The fields whose names begin with operating_envelope. */
  predicate OfEnvelope(field: RecordField) {
    || field.BaselineEvidence? || field.CaseCountMax? || field.ChurnMax? || field.BacklogMax? || field.LatencyMax?
    || field.RetentionHorizon? || field.RecoveryMax? || field.ObservationStart? || field.ObservationEnd?
    || field.OperatorThresholds? || field.ReleaseOwnerThresholds? || field.ObservationWindow? || field.FinalEvidence?
  }

  /** The fields whose names begin with final_signoffs, and R8.final_signoffs. */
  predicate OfSignoffs(field: RecordField) {
    || field.OperatorSignoff? || field.ReleaseOwnerSignoff? || field.ReviewerSignoff?
    || field.ThreeReviewers? || field.SignoffEvidence?
  }

  /** The record's complaints touch the gate. */
  predicate RecordBlocks(missing: seq<RecordField>, invalid: seq<Complaint>, id: string) {
    || (id == "R6" && EnvelopeConcerned(missing, invalid))
    || (id == "R4" && About(StageEvidence) in invalid)
    || (id in {"R3", "R4"} && About(OwnerApproval) in invalid)
    || (id == "R8" && SignoffsConcerned(invalid))
  }

  predicate EnvelopeConcerned(missing: seq<RecordField>, invalid: seq<Complaint>) {
    || (exists i :: 0 <= i < |missing| && OfEnvelope(missing[i]))
    || (exists i :: 0 <= i < |invalid| && OfEnvelope(invalid[i].field))
  }

  predicate SignoffsConcerned(invalid: seq<Complaint>) {
    exists i :: 0 <= i < |invalid| && OfSignoffs(invalid[i].field)
  }

  /** More gates block when the record's complaints touch them. */
  method BlockForRecord(blocking: seq<string>, missing: seq<RecordField>, invalid: seq<Complaint>)
    returns (r: seq<string>)
    requires forall id :: id in blocking ==> id in GATE_IDS
    ensures forall id :: id in r <==> id in GATE_IDS && (id in blocking || RecordBlocks(missing, invalid, id))
  {
    r := BlockWhen(EnvelopeConcerned(missing, invalid), blocking, {"R6"});
    r := BlockWhen(About(StageEvidence) in invalid, r, {"R4"});
    r := BlockWhen(About(OwnerApproval) in invalid, r, {"R3", "R4"});
    r := BlockWhen(SignoffsConcerned(invalid), r, {"R8"});
  }

  /** Complaints about the two parts that must be there at all. */
  method CheckShape(manifest: Json) returns (errors: seq<ManifestError>)
    ensures errors == [] <==> Get(manifest, "artifact_tuple").JObject? && Get(manifest, "gates").JArray?
  {
    var c := [Condition(Get(manifest, "artifact_tuple").JObject?, ArtifactNotAnObject),
              Condition(Get(manifest, "gates").JArray?, GatesNotAnArray)];
    errors := Complain(c);
    assert AllHold(c) <==> c[0].holds && c[1].holds;
  }

  predicate ThisRelease(manifest: Json) {
    PyEqual(Get(manifest, "schema_version"), JInt(1))
      && Get(manifest, "release") == JString("pg-react MDM adapter 0.50.0")
  }

  method CheckRelease(manifest: Json) returns (errors: seq<ManifestError>)
    ensures errors == [] <==> ThisRelease(manifest)
  {
    var c := [Condition(PyEqual(Get(manifest, "schema_version"), JInt(1)), WrongSchemaVersion),
              Condition(Get(manifest, "release") == JString("pg-react MDM adapter 0.50.0"), WrongRelease)];
    errors := Complain(c);
    assert AllHold(c) <==> c[0].holds && c[1].holds;
  }

  /** The gate list and the gates that block; None is the TypeError of an unhashable status. */
  method CheckGates(w: World, gates: seq<Json>) returns (blocking: Option<seq<string>>, errors: seq<ManifestError>)
    ensures blocking.None? <==> HasUnhashable(gates)
    ensures blocking.Some? ==>
      (blocking.value == [] && errors == [] <==> GateListValid(gates) && GatesOpen(w, GateMap(gates)))
    ensures blocking.Some? ==> forall id :: id in blocking.value <==> id in GATE_IDS && !GateOpen(w, GateMap(gates), id)
  {
    var gateMap, gateErrors := ReadGates(gates);
    if gateMap.None? {
      return None, gateErrors;
    }
    var closed, evidenceErrors := FindBlocking(w, gateMap.value);
    NothingBlocks(w, gateMap.value, closed);
    blocking, errors := Some(closed), gateErrors + evidenceErrors;
  }

  lemma ManifestByParts(w: World, manifest: Json)
    ensures ManifestAccepted(w, manifest) <==>
      && Get(manifest, "artifact_tuple").JObject? && Get(manifest, "gates").JArray? && ThisRelease(manifest)
      && ArtifactComplete(Artifact(manifest)) && ArtifactValid(Artifact(manifest))
      && GateListValid(Gates(manifest)) && GatesOpen(w, GateMap(Gates(manifest)))
  {
    assert Unfolded(0);
  }

  /** The findings before the release record is read. */
  method CheckManifest(w: World, manifest: Json) returns (r: Option<Decision>)
    ensures r.None? <==> HasUnhashable(Gates(manifest))
    ensures r.Some? ==> (&& r.value.missingArtifactFields == [] && r.value.invalidArtifactFields == []
                         && r.value.blockingGates == [] && r.value.manifestErrors == []
                         <==> ManifestAccepted(w, manifest))
    ensures r.Some? ==>
      ArtifactFindings(Artifact(manifest), r.value.missingArtifactFields, r.value.invalidArtifactFields)
    ensures r.Some? ==>
      forall id :: id in r.value.blockingGates <==> id in GATE_IDS && !GateOpen(w, GateMap(Gates(manifest)), id)
  {
    ManifestByParts(w, manifest);
    var shapeErrors := CheckShape(manifest);
    var missingArtifact, invalidArtifact := CheckArtifact(Artifact(manifest));
    var blocking, gateErrors := CheckGates(w, Gates(manifest));
    if blocking.None? {
      return None;
    }
    var releaseErrors := CheckRelease(manifest);
    r := Some(Decision(false, missingArtifact, invalidArtifact, blocking.value,
                       shapeErrors + gateErrors + releaseErrors, [], []));
  }

  method CheckRecord(w: World, v: Fields, b: Binding) returns (missing: seq<RecordField>, invalid: seq<Complaint>)
    ensures MissingAre(missing, v) && InvalidAre(invalid, w, v, b)
    ensures missing == [] && invalid == [] <==> RecordAccepted(w, v, b)
  {
    missing, invalid := ValidateReleaseRecord(w, v, b);
  }

  /** None is the uncaught TypeError for a gate status that is an array or an object. */
  method Derive(w: World, manifest: Json) returns (r: Option<Decision>)
    ensures r.None? <==> manifest.JObject? && HasUnhashable(Gates(manifest))
    ensures r.Some? ==> (r.value.releaseQualified <==> Qualified(w, manifest))
    ensures r.Some? && manifest.JObject? ==>
      ArtifactFindings(Artifact(manifest), r.value.missingArtifactFields, r.value.invalidArtifactFields)
    ensures r.Some? ==> MissingAre(r.value.missingReleaseFields, Extract(Record(manifest)))
    ensures r.Some? && manifest.JObject? ==>
      InvalidAre(r.value.invalidReleaseFields, w, Extract(Record(manifest)), BindingOf(w, manifest))
    ensures r.Some? && manifest.JObject? ==> forall id :: id in r.value.blockingGates <==>
      id in GATE_IDS && (|| !GateOpen(w, GateMap(Gates(manifest)), id)
                         || RecordBlocks(r.value.missingReleaseFields, r.value.invalidReleaseFields, id))
  {
    if !manifest.JObject? {
      var all := ListMissing(Extract(Record(manifest)));
      return Some(Decision(false, ARTIFACT_FIELDS, [], GATE_IDS, [NotAnObject], all, []));
    }
    var findings := CheckManifest(w, manifest);
    if findings.None? {
      return None;
    }
    var f := findings.value;
    var missing, invalid := CheckRecord(w, Extract(Record(manifest)), BindingOf(w, manifest));
    var blocking := BlockForRecord(f.blockingGates, missing, invalid);
    NothingMoreBlocks(f.blockingGates, blocking, missing, invalid);
    var qualified := && f.missingArtifactFields == [] && f.invalidArtifactFields == [] && blocking == []
                     && f.manifestErrors == [] && missing == [] && invalid == [];
    r := Some(Decision(qualified, f.missingArtifactFields, f.invalidArtifactFields, blocking, f.manifestErrors,
                       missing, invalid));
  }

  lemma NothingMoreBlocks(before: seq<string>, after: seq<string>, missing: seq<RecordField>, invalid: seq<Complaint>)
    requires forall id :: id in before ==> id in GATE_IDS
    requires forall id :: id in after <==> id in GATE_IDS && (id in before || RecordBlocks(missing, invalid, id))
    ensures after == [] ==> before == []
    ensures missing == [] && invalid == [] ==> (after == [] <==> before == [])
  {
    if before != [] {
      assert before[0] in after;
    }
    if after != [] {
      assert after[0] in after;
    }
  }
}
