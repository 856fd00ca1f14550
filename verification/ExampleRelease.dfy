// A manifest that qualifies, in a concrete world: with a finite note among its thresholds the sign-offs
// bind it, with a NaN they do not.
//
// The world reads one-letter timestamps as their letters. Each evidence file is named by a letter and holds the
// report of that letter. All files have the digest of 64 zeros, and the sealed value alone that of 64 ones.

module ExampleRelease {
  import opened Basics
  import opened Complaints
  import opened Json
  import opened Evidence
  import opened ShadowCoverage
  import opened OperatingRun
  import opened ReleaseRecord
  import opened Qualification
  import opened QualificationTheorems
  import opened ExampleReports

  // ---- The manifest ----

  function ArtifactValue(field: string): Json {
    if field in OBJECT_FIELDS then JObject(map["on" := JBool(true)])
    else if field in DIGEST_FIELDS then DIGEST
    else if field in COMMIT_FIELDS then JString(Zeros(40))
    else JString("pg-react")
  }

  function ExampleArtifact(): Json {
    JObject(map field | field in ARTIFACT_FIELDS :: ArtifactValue(field))
  }

  function GateEvidence(id: string): Json {
    JArray(if id == "R4" then [Reference("G")]
           else if id == "R6" then [Reference("F")]
           else if id == "R8" then [Reference("1"), Reference("2"), Reference("3")]
           else [Reference("E")])
  }

  function ExampleGate(id: string): Json {
    JObject(map["id" := JString(id), "status" := JString("passed"), "required" := JBool(true),
                "evidence" := GateEvidence(id)])
  }

  function ExampleGates(): (gates: seq<Json>)
    ensures |gates| == |GATE_IDS|
  {
    seq(|GATE_IDS|, i requires 0 <= i < |GATE_IDS| => ExampleGate(GATE_IDS[i]))
  }

  function ExampleManifest(note: Json): Json {
    JObject(map[
      "schema_version" := JInt(1), "release" := JString("pg-react MDM adapter 0.50.0"),
      "artifact_tuple" := ExampleArtifact(), "gates" := JArray(ExampleGates()),
      "release_record" := ExampleRecord(note)])
  }

  // ---- The world ----

  function Letters(): set<string> {
    {"M", "C", "X", "K", "B", "F", "W", "O", "R", "G", "E", "1", "2", "3"}
  }

  const SEALED_TEXT: Content := [1000]

  /** The digest that the sign-offs state. */
  function Seal(note: Json): Json {
    if AllFinite(Sealed(ExampleManifest(note))) then JString(Ones()) else JNull
  }

  function FileMap(): map<string, Content> {
    map path | path in Letters() && |path| == 1 :: [path[0] as nat]
  }

  function Digest(content: Content): string {
    if content == SEALED_TEXT then Ones() else Zeros(64)
  }

  function Text(j: Json, sealedValue: Json): Content {
    if j == sealedValue then SEALED_TEXT else []
  }

  /** The world whose evidence files hold these reports, and where one value has a digest of its own. */
  function WorldOf(reports: map<nat, Json>, sealedValue: Json): World {
    World(
      Some(FileMap()),
      path => true,
      content => Digest(content),
      content => if |content| == 1 then Stored(reports, content[0]) else None,
      j => Text(j, sealedValue),
      s => if |s| == 1 then Some(s[0] as int) else None,
      s => s == "",
      s => s,
      s => true)
  }

  function ExampleWorld(note: Json): World {
    WorldOf(ReportMap(ExampleFiles(note, Seal(note))), Sealed(ExampleManifest(note)))
  }

  // ---- The manifest is accepted ----

  lemma TextFieldsAreText(i: nat)
    requires i < |TEXT_FIELDS|
    ensures ArtifactValue(TEXT_FIELDS[i]) == JString("pg-react")
  {
  }

  lemma ArtifactFieldsDiffer(i: nat)
    ensures i < |DIGEST_FIELDS| ==> ArtifactValue(DIGEST_FIELDS[i]) == DIGEST
    ensures i < |COMMIT_FIELDS| ==> ArtifactValue(COMMIT_FIELDS[i]) == JString(Zeros(40))
    ensures i < |OBJECT_FIELDS| ==> ArtifactValue(OBJECT_FIELDS[i]) == JObject(map["on" := JBool(true)])
  {
  }

  lemma ArtifactGet(field: string)
    requires field in ARTIFACT_FIELDS
    ensures Get(ExampleArtifact(), field) == ArtifactValue(field) && Present(ArtifactValue(field))
  {
    assert "on" in JObject(map["on" := JBool(true)]).fields;
  }

  lemma ArtifactIsValid()
    ensures ArtifactComplete(ExampleArtifact()) && ArtifactValid(ExampleArtifact())
  {
    var artifact := ExampleArtifact();
    forall i | 0 <= i < |ARTIFACT_FIELDS| ensures Present(Get(artifact, ARTIFACT_FIELDS[i])) {
      ArtifactGet(ARTIFACT_FIELDS[i]);
    }
    forall i | 0 <= i < |TEXT_FIELDS| ensures TextValid(artifact, TEXT_FIELDS[i]) {
      assert TEXT_FIELDS[i] in ARTIFACT_FIELDS;
      ArtifactGet(TEXT_FIELDS[i]);
      TextFieldsAreText(i);
    }
    forall i | 0 <= i < |DIGEST_FIELDS| ensures DigestValid(artifact, DIGEST_FIELDS[i]) {
      assert DIGEST_FIELDS[i] in ARTIFACT_FIELDS;
      ArtifactGet(DIGEST_FIELDS[i]);
      ArtifactFieldsDiffer(i);
    }
    forall i | 0 <= i < |COMMIT_FIELDS| ensures CommitValid(artifact, COMMIT_FIELDS[i]) {
      assert COMMIT_FIELDS[i] in ARTIFACT_FIELDS;
      ArtifactGet(COMMIT_FIELDS[i]);
      ArtifactFieldsDiffer(i);
    }
    forall i | 0 <= i < |OBJECT_FIELDS| ensures ObjectValid(artifact, OBJECT_FIELDS[i]) {
      assert OBJECT_FIELDS[i] in ARTIFACT_FIELDS;
      ArtifactGet(OBJECT_FIELDS[i]);
      ArtifactFieldsDiffer(i);
    }
  }

  /** R1 to R8 as 1 to 8, C01 to C12 as 9 to 20. */
  function GateNumber(id: string): int {
    if |id| == 2 then id[1] as int - '0' as int
    else if |id| == 3 then 8 + 10 * (id[1] as int - '0' as int) + (id[2] as int - '0' as int)
    else 0
  }

  lemma GateNumbers(i: nat)
    requires i < |GATE_IDS|
    ensures GateNumber(GATE_IDS[i]) == i + 1
  {
  }

  lemma GateHas(id: string)
    ensures var gate := ExampleGate(id);
            && gate.JObject? && Get(gate, "id") == JString(id) && Get(gate, "status") == JString("passed")
            && Get(gate, "required") == JBool(true) && Get(gate, "evidence") == GateEvidence(id)
  {
  }

  lemma GatesAreValid()
    ensures GateListValid(ExampleGates())
  {
    forall i | 0 <= i < |GATE_IDS| ensures GateWellFormed(ExampleGates()[i]) {
      GateHas(GATE_IDS[i]);
    }
    forall i, j | 0 <= i < j < |GATE_IDS| ensures Get(ExampleGates()[i], "id") != Get(ExampleGates()[j], "id") {
      GateHas(GATE_IDS[i]);
      GateHas(GATE_IDS[j]);
      GateNumbers(i);
      GateNumbers(j);
    }
  }

  lemma GateIsMapped(i: nat)
    requires i < |GATE_IDS|
    ensures GATE_IDS[i] in GateMap(ExampleGates()) && GateMap(ExampleGates())[GATE_IDS[i]] == ExampleGate(GATE_IDS[i])
  {
    var gates, id := ExampleGates(), GATE_IDS[i];
    GateHas(id);
    assert Identified(gates[i]) && Get(gates[i], "id").s == id;
    GateMapHolds(gates, id);
    var j :| 0 <= j < |gates| && gates[j] == GateMap(gates)[id];
    GateHas(GATE_IDS[j]);
    GateNumbers(i);
    GateNumbers(j);
  }

  // ---- The evidence is there ----

  const WORLD: nat := 6

  /** The world whose files hold these reports, and where x has a digest of its own. */
  ghost predicate InWorld(w: World, r: Reports, x: Json) {
    forall k :: Shown(WORLD, k) ==> w == WorldOf(ReportMap(r), x)
  }

  ghost predicate IsWorld(w: World, note: Json) {
    InWorld(w, ExampleFiles(note, Seal(note)), Sealed(ExampleManifest(note)))
  }

  /** The world gives one value a digest of its own, and all others another. */
  ghost predicate Singles(w: World, x: Json) {
    && (forall content :: w.sha256(content) == Digest(content))
    && (forall j :: w.dumps(j) == Text(j, x))
  }

  lemma WorldHas(reports: map<nat, Json>, sealedValue: Json)
    ensures var w := WorldOf(reports, sealedValue);
            && Library(w) && Singles(w, sealedValue) && w.files == Some(FileMap())
            && (forall path :: w.allowedPath(path))
            && forall letter: nat :: w.parse([letter]) == Stored(reports, letter)
  {
  }

  lemma EnterWorld(w: World, note: Json) returns (r: Reports)
    requires IsWorld(w, note)
    ensures InWorld(w, r, Sealed(ExampleManifest(note))) && Right(r, note, Seal(note))
  {
    r := ExampleFiles(note, Seal(note));
    FilesAreRight(note, Seal(note));
  }

  lemma FilesAreRight(note: Json, seal: Json)
    ensures Right(ExampleFiles(note, seal), note, seal)
  {
  }

  lemma WorldIs(w: World, r: Reports, x: Json)
    requires InWorld(w, r, x)
    ensures Library(w) && Singles(w, x) && w.files == Some(FileMap()) && (forall path :: w.allowedPath(path))
    ensures forall letter: nat :: w.parse([letter]) == Stored(ReportMap(r), letter)
  {
    assert Shown(WORLD, 0);
    WorldHas(ReportMap(r), x);
  }

  lemma FileDigest(path: string)
    requires path in Letters() && |path| == 1 && path[0] as int < 1000
    ensures path in FileMap() && FileMap()[path] == [path[0] as nat] && Digest([path[0] as nat]) == Zeros(64)
  {
    assert [path[0] as nat][0] != SEALED_TEXT[0];
  }

  lemma FileHolds(w: World, path: string, content: Content)
    requires path != "" && w.allowedPath(path) && w.files.Some? && path in w.files.value
    requires w.files.value[path] == content
    requires w.sha256(content) == Zeros(64)
    ensures Holds(w, path, w.parse(content))
  {
    assert Reference(path).fields.Keys == {"path", "sha256"};
  }

  lemma Retained(w: World, r: Reports, x: Json, path: string, report: Option<Json>)
    requires InWorld(w, r, x) && path in Letters() && |path| == 1 && path[0] as int < 1000
    requires Stored(ReportMap(r), path[0] as nat) == report
    ensures Holds(w, path, report)
  {
    WorldIs(w, r, x);
    FileDigest(path);
    FileHolds(w, path, [path[0] as nat]);
  }

  /** The letters name the reports. */
  lemma Letter(r: Reports)
    ensures Stored(ReportMap(r), 'M' as nat) == Some(r.membership)
    ensures Stored(ReportMap(r), 'C' as nat) == Some(r.coverage)
    ensures Stored(ReportMap(r), 'W' as nat) == Some(r.owner)
    ensures Stored(ReportMap(r), 'O' as nat) == Some(r.operatorThresholds)
    ensures Stored(ReportMap(r), 'R' as nat) == Some(r.releaseOwnerThresholds)
    ensures Stored(ReportMap(r), 'B' as nat) == Some(r.baseline)
    ensures Stored(ReportMap(r), 'F' as nat) == Some(r.final) && Stored(ReportMap(r), 'G' as nat) == Some(r.stages)
    ensures Stored(ReportMap(r), '1' as nat) == Some(r.operator)
    ensures Stored(ReportMap(r), '2' as nat) == Some(r.releaseOwner)
    ensures Stored(ReportMap(r), '3' as nat) == Some(r.reviewer) && Stored(ReportMap(r), 'X' as nat) == None
    ensures Stored(ReportMap(r), 'K' as nat) == None && Stored(ReportMap(r), 'E' as nat) == None
  {
  }

  lemma AllRetained(w: World, r: Reports, x: Json)
    requires InWorld(w, r, x)
    ensures Files(w, r)
  {
    Letter(r);
    Retained(w, r, x, "M", Some(r.membership));
    Retained(w, r, x, "C", Some(r.coverage));
    Retained(w, r, x, "W", Some(r.owner));
    Retained(w, r, x, "O", Some(r.operatorThresholds));
    Retained(w, r, x, "R", Some(r.releaseOwnerThresholds));
    Retained(w, r, x, "B", Some(r.baseline));
    Retained(w, r, x, "F", Some(r.final));
    Retained(w, r, x, "G", Some(r.stages));
    Retained(w, r, x, "1", Some(r.operator));
    Retained(w, r, x, "2", Some(r.releaseOwner));
    Retained(w, r, x, "3", Some(r.reviewer));
    Retained(w, r, x, "X", None);
    Retained(w, r, x, "K", None);
    Retained(w, r, x, "E", None);
  }

  lemma EvidenceIsVerified(w: World, r: Reports)
    requires Files(w, r)
    ensures Verified(w, Reference("G")) && Verified(w, Reference("F")) && Verified(w, Reference("E"))
    ensures Verified(w, Reference("1")) && Verified(w, Reference("2")) && Verified(w, Reference("3"))
  {
    assert Shown(FILES, 0);
    ReportBehind(w, "G", Some(r.stages));
    ReportBehind(w, "F", Some(r.final));
    ReportBehind(w, "E", None);
    ReportBehind(w, "1", Some(r.operator));
    ReportBehind(w, "2", Some(r.releaseOwner));
    ReportBehind(w, "3", Some(r.reviewer));
  }

  lemma EvidenceIsRetained(w: World, r: Reports, id: string)
    requires Files(w, r)
    ensures EvidenceRetained(w, GateEvidence(id))
  {
    EvidenceIsVerified(w, r);
    var items := GateEvidence(id).items;
    forall i | 0 <= i < |items| ensures Verified(w, items[i]) {
    }
  }

  lemma GatesAreOpenHere(w: World, r: Reports)
    requires Files(w, r)
    ensures GatesOpen(w, GateMap(ExampleGates()))
  {
    forall i | 0 <= i < |GATE_IDS| ensures GateOpen(w, GateMap(ExampleGates()), GATE_IDS[i]) {
      GateIsMapped(i);
      GateHas(GATE_IDS[i]);
      EvidenceIsRetained(w, r, GATE_IDS[i]);
    }
  }

  // ---- It qualifies ----

  const MANIFEST: nat := 7

  ghost predicate IsManifest(m: Json, note: Json) {
    forall k :: Shown(MANIFEST, k) ==> m == ExampleManifest(note)
  }

  lemma ManifestHas(note: Json)
    ensures var m := ExampleManifest(note);
            && Artifact(m) == ExampleArtifact() && Gates(m) == ExampleGates() && Record(m) == ExampleRecord(note)
            && Get(m, "artifact_tuple").JObject? && Get(m, "gates").JArray?
            && Get(m, "schema_version") == JInt(1) && Get(m, "release") == JString("pg-react MDM adapter 0.50.0")
  {
  }

  lemma ExampleManifestAccepted(w: World, m: Json, note: Json, r: Reports)
    requires IsManifest(m, note) && Files(w, r)
    ensures ManifestAccepted(w, m)
  {
    assert Shown(MANIFEST, 0);
    ManifestHas(note);
    ArtifactIsValid();
    GatesAreValid();
    GatesAreOpenHere(w, r);
  }

  lemma SectionsExtracted(m: Json, note: Json)
    requires IsManifest(m, note)
    ensures m.JObject?
    ensures var v := Extract(Record(m));
            && ExampleWorkload(v) && ExampleCohort(v) && ExampleShadow(v) && ExampleEnvelope(v, note)
            && ExampleDocuments(v) && ExampleSignoffs(v)
  {
    var r := Record(m);
    assert Shown(MANIFEST, 0);
    ManifestHas(note);
    RecordSections(note);
    CohortHas();
    CohortExtracted(r);
    ShadowHas();
    ShadowExtracted(r);
    EnvelopeHas(note);
    EnvelopeExtracted(r, note);
    SmallSectionsExtracted(r);
  }

  lemma ArtifactIsFinite()
    ensures AllFinite(ExampleArtifact())
  {
    forall field | field in ExampleArtifact().fields ensures AllFinite(ExampleArtifact().fields[field]) {
      assert AllFinite(JBool(true));
    }
  }

  lemma SingleDigest(w: World, x: Json, j: Json)
    requires Singles(w, x) && AllFinite(j)
    ensures JsonSha256(w, j) == JString(if j == x then Ones() else Zeros(64))
  {
    assert |SEALED_TEXT| == 1;
  }

  lemma SingleIsUnique(w: World, x: Json)
    requires Singles(w, x) && AllFinite(x)
    ensures NoCollision(w, x)
  {
    assert Ones()[0] != Zeros(64)[0];
    forall y | AllFinite(y) && JsonSha256(w, y) == JsonSha256(w, x) ensures y == x {
      SingleDigest(w, x, x);
      SingleDigest(w, x, y);
    }
  }

  lemma SealIs(note: Json, x: Json)
    requires x == Sealed(ExampleManifest(note))
    ensures Seal(note) == if AllFinite(x) then JString(Ones()) else JNull
    ensures x != ExampleArtifact()
  {
  }

  lemma DigestsAre(w: World, note: Json, x: Json)
    requires Singles(w, x) && x == Sealed(ExampleManifest(note))
    ensures JsonSha256(w, ExampleArtifact()) == DIGEST && JsonSha256(w, x) == Seal(note)
  {
    ArtifactIsFinite();
    SealIs(note, x);
    SingleDigest(w, x, ExampleArtifact());
    if AllFinite(x) {
      SingleDigest(w, x, x);
    }
  }

  lemma GateValues(id: string)
    requires id in GATE_IDS
    ensures var gates := GateMap(ExampleGates());
            Passed(gates, id) && GateField(gates, id, "evidence") == GateEvidence(id)
  {
    var i :| 0 <= i < |GATE_IDS| && GATE_IDS[i] == id;
    GateIsMapped(i);
    GateHas(id);
  }

  lemma PrerequisitesHold()
    ensures PrerequisitesPassed(GateMap(ExampleGates()))
  {
    forall i | 0 <= i < |SEALED_GATE_IDS| ensures Passed(GateMap(ExampleGates()), SEALED_GATE_IDS[i]) {
      assert GATE_IDS[if i < 7 then i else i + 1] == SEALED_GATE_IDS[i];
      GateValues(SEALED_GATE_IDS[i]);
    }
  }

  lemma ReviewGates()
    ensures GATE_IDS[3] == "R4" && GATE_IDS[5] == "R6" && GATE_IDS[7] == "R8"
  {
  }

  lemma GatesBound(b: Binding)
    requires b.gates == GateMap(ExampleGates()) && b.prerequisitesPassed && b.artifactDigest == DIGEST
    requires b.sealDigest.JString? || b.sealDigest.JNull?
    ensures ExampleBinding(b)
  {
    ReviewGates();
    GateValues(GATE_IDS[3]);
    GateValues(GATE_IDS[5]);
    GateValues(GATE_IDS[7]);
  }

  lemma BindingHas(m: Json, note: Json)
    requires IsManifest(m, note)
    ensures Artifact(m) == ExampleArtifact() && Gates(m) == ExampleGates() && Sealed(m) == Sealed(ExampleManifest(note))
  {
    assert Shown(MANIFEST, 0);
    ManifestHas(note);
  }

  lemma SealsAre(w: World, r: Reports, note: Json)
    requires InWorld(w, r, Sealed(ExampleManifest(note)))
    ensures JsonSha256(w, ExampleArtifact()) == DIGEST && JsonSha256(w, Sealed(ExampleManifest(note))) == Seal(note)
  {
    WorldIs(w, r, Sealed(ExampleManifest(note)));
    DigestsAre(w, note, Sealed(ExampleManifest(note)));
  }

  lemma BindingIs(w: World, r: Reports, m: Json, note: Json)
    requires InWorld(w, r, Sealed(ExampleManifest(note))) && IsManifest(m, note)
    ensures var b := BindingOf(w, m); ExampleBinding(b) && b.sealDigest == Seal(note)
  {
    BindingHas(m, note);
    SealsAre(w, r, note);
    BindingFrom(w, m, Seal(note));
  }

  lemma BindingFrom(w: World, m: Json, seal: Json)
    requires Artifact(m) == ExampleArtifact() && Gates(m) == ExampleGates() && JsonSha256(w, Sealed(m)) == seal
    requires JsonSha256(w, ExampleArtifact()) == DIGEST && (seal.JString? || seal.JNull?)
    ensures var b := BindingOf(w, m); ExampleBinding(b) && b.sealDigest == seal
  {
    PrerequisitesHold();
    GatesBound(BindingOf(w, m));
  }

  lemma AllIsThere(w: World, m: Json, note: Json) returns (r: Reports)
    requires IsWorld(w, note) && IsManifest(m, note)
    ensures Library(w) && Files(w, r) && Right(r, note, BindingOf(w, m).sealDigest) && ExampleBinding(BindingOf(w, m))
  {
    r := EnterWorld(w, note);
    WorldIs(w, r, Sealed(ExampleManifest(note)));
    AllRetained(w, r, Sealed(ExampleManifest(note)));
    BindingIs(w, r, m, note);
  }

  lemma QualifiesIn(w: World, m: Json, note: Json, r: Reports)
    requires Library(w) && Files(w, r) && Right(r, note, BindingOf(w, m).sealDigest) && ExampleBinding(BindingOf(w, m))
    requires IsManifest(m, note)
    ensures Qualified(w, m)
  {
    SectionsExtracted(m, note);
    Accepted(w, note, r, BindingOf(w, m), Extract(Record(m)));
    ExampleManifestAccepted(w, m, note, r);
  }

  lemma Accepted(w: World, note: Json, r: Reports, b: Binding, v: Fields)
    requires Library(w) && Files(w, r) && Right(r, note, b.sealDigest) && ExampleBinding(b)
    requires ExampleWorkload(v) && ExampleCohort(v) && ExampleShadow(v) && ExampleEnvelope(v, note)
    requires ExampleDocuments(v) && ExampleSignoffs(v)
    ensures RecordAccepted(w, v, b)
  {
    EnvelopeIs(v, note);
    ThresholdsHas(note);
    ExampleComplete(v, note);
    var f := SomeFindings(w, v, b);
    ExampleSetting(w, v, b, note, f, r);
    ExampleValid(w, v, b, note, f, r);
  }

  /** The manifest qualifies, whatever the note. */
  lemma ExampleQualifies(note: Json) returns (w: World, m: Json)
    ensures IsWorld(w, note) && IsManifest(m, note) && Qualified(w, m)
  {
    w, m := Here(note);
    var r := AllIsThere(w, m, note);
    QualifiesIn(w, m, note, r);
  }

  lemma Here(note: Json) returns (w: World, m: Json)
    ensures IsWorld(w, note) && IsManifest(m, note)
  {
    w, m := ExampleWorld(note), ExampleManifest(note);
  }

  // ---- Both kinds occur ----

  lemma DigestIsUnique(note: Json)
    requires AllFinite(Sealed(ExampleManifest(note)))
    ensures NoCollision(ExampleWorld(note), Sealed(ExampleManifest(note)))
  {
    var sealedValue := Sealed(ExampleManifest(note));
    WorldHas(ReportMap(ExampleFiles(note, Seal(note))), sealedValue);
    SingleIsUnique(ExampleWorld(note), Sealed(ExampleManifest(note)));
  }

  lemma FiniteArray(items: seq<Json>)
    ensures AllFinite(JArray(items)) <==> forall i :: 0 <= i < |items| ==> AllFinite(items[i])
  {
  }

  lemma FiniteObject(fields: map<string, Json>)
    ensures AllFinite(JObject(fields)) <==> forall k :: k in fields ==> AllFinite(fields[k])
  {
  }

  lemma ReferenceIsFinite(path: string)
    ensures AllFinite(Reference(path))
  {
    FiniteObject(Reference(path).fields);
  }

  lemma ApprovalIsFinite(name: string, signedAt: string, path: string)
    ensures AllFinite(Approval(name, signedAt, path))
  {
    ReferenceIsFinite(path);
    FiniteObject(Approval(name, signedAt, path).fields);
  }

  lemma EvidenceIsFinite(id: string)
    ensures AllFinite(GateEvidence(id))
  {
    var items := GateEvidence(id).items;
    forall i | 0 <= i < |items| ensures AllFinite(items[i]) {
      ReferenceIsFinite("G");
      ReferenceIsFinite("F");
      ReferenceIsFinite("E");
      ReferenceIsFinite("1");
      ReferenceIsFinite("2");
      ReferenceIsFinite("3");
    }
    FiniteArray(items);
  }

  lemma SealedGateFinite(gates: map<string, Json>, id: string)
    requires Passed(gates, id) && AllFinite(GateField(gates, id, "evidence"))
    ensures AllFinite(SealedGate(gates, id))
  {
    FiniteObject(SealedGate(gates, id).fields);
  }

  lemma SealedGateIsFinite(i: nat)
    requires i < |SEALED_GATE_IDS|
    ensures AllFinite(SealedGate(GateMap(ExampleGates()), SEALED_GATE_IDS[i]))
  {
    assert GATE_IDS[if i < 7 then i else i + 1] == SEALED_GATE_IDS[i];
    GateValues(SEALED_GATE_IDS[i]);
    EvidenceIsFinite(SEALED_GATE_IDS[i]);
    SealedGateFinite(GateMap(ExampleGates()), SEALED_GATE_IDS[i]);
  }

  lemma SealedGatesAreFinite()
    ensures AllFinite(JArray(SealedGates(GateMap(ExampleGates()))))
  {
    var items := SealedGates(GateMap(ExampleGates()));
    forall i | 0 <= i < |items| ensures AllFinite(items[i]) {
      SealedGateIsFinite(i);
    }
    FiniteArray(items);
  }

  lemma CohortIsFinite()
    ensures AllFinite(Cohort())
  {
    ReferenceIsFinite("M");
    ReferenceIsFinite("X");
    ReferenceIsFinite("K");
    FiniteArray(REVISIONS.items);
    FiniteObject(Cohort().fields);
  }

  lemma ShadowIsFinite()
    ensures AllFinite(Shadow())
  {
    ReferenceIsFinite("C");
    ApprovalIsFinite("w", "g", "W");
    FiniteObject(Shadow().fields);
  }

  lemma ThresholdsFinite(note: Json)
    ensures AllFinite(Thresholds(note)) <==> AllFinite(note)
  {
    var fields := Thresholds(note).fields;
    FiniteObject(fields);
    assert fields["note"] == note;
  }

  lemma ObservationIsFinite()
    ensures AllFinite(Observation())
  {
    FiniteObject(Observation().fields);
  }

  lemma EnvelopeKeys(note: Json)
    ensures HasFields(Envelope(note), {"baseline_evidence", "thresholds", "observation", "operator_threshold_approval",
                                       "release_owner_threshold_approval"})
    ensures Get(Envelope(note), "observation") == Observation()
  {
  }

  lemma EnvelopeIsFinite(j: Json, note: Json)
    requires HasFields(j, {"baseline_evidence", "thresholds", "observation", "operator_threshold_approval",
                           "release_owner_threshold_approval"})
    requires AllFinite(Get(j, "baseline_evidence")) && AllFinite(Get(j, "observation"))
    requires AllFinite(Get(j, "operator_threshold_approval")) && AllFinite(Get(j, "release_owner_threshold_approval"))
    requires AllFinite(Get(j, "thresholds")) <==> AllFinite(note)
    ensures AllFinite(j) <==> AllFinite(note)
  {
    FiniteObject(j.fields);
    assert j.fields["thresholds"] == Get(j, "thresholds");
  }

  lemma EnvelopeFinite(note: Json)
    ensures AllFinite(Envelope(note)) <==> AllFinite(note)
  {
    EnvelopeKeys(note);
    EnvelopeHas(note);
    ReferenceIsFinite("B");
    ObservationIsFinite();
    ApprovalIsFinite("x", "c", "O");
    ApprovalIsFinite("y", "d", "R");
    ThresholdsFinite(note);
    EnvelopeIsFinite(Envelope(note), note);
  }

  /** A record of the six sections is finite but for its sign-offs exactly when the envelope's note is. */
  lemma RecordFinite(r: Json, note: Json)
    requires HasFields(r, {"workload", "cohort", "shadow", "operating_envelope", "support_documents", "final_signoffs"})
    requires AllFinite(Get(r, "workload")) && AllFinite(Get(r, "cohort")) && AllFinite(Get(r, "shadow"))
    requires (AllFinite(Get(r, "operating_envelope")) <==> AllFinite(note)) && AllFinite(Get(r, "support_documents"))
    ensures AllFinite(JObject(WithoutSignoffs(r))) <==> AllFinite(note)
  {
    var fields := WithoutSignoffs(r);
    FiniteObject(fields);
    assert fields.Keys == {"workload", "cohort", "shadow", "operating_envelope", "support_documents"};
    assert fields["operating_envelope"] == Get(r, "operating_envelope");
  }

  lemma SmallSectionsFinite()
    ensures AllFinite(Workload()) && AllFinite(Documents())
  {
    FiniteObject(Workload().fields);
    FiniteObject(Documents().fields);
  }

  lemma ExampleRecordFinite(r: Json, note: Json)
    requires r == ExampleRecord(note)
    ensures AllFinite(JObject(WithoutSignoffs(r))) <==> AllFinite(note)
  {
    CohortIsFinite();
    ShadowIsFinite();
    EnvelopeFinite(note);
    SmallSectionsFinite();
    RecordSections(note);
    RecordFinite(r, note);
  }

  lemma SealedFinite(note: Json)
    ensures AllFinite(Sealed(ExampleManifest(note))) <==> AllFinite(note)
  {
    ManifestHas(note);
    ArtifactIsFinite();
    ExampleRecordFinite(ExampleRecord(note), note);
    SealedGatesAreFinite();
    FiniteParts(ExampleArtifact(), JObject(WithoutSignoffs(ExampleRecord(note))),
                JArray(SealedGates(GateMap(ExampleGates()))));
  }

  /** The sign-offs of the example with a finite note bind it; with a NaN for its note they do not. */
  lemma ExampleIsSealable(note: Json)
    ensures AllFinite(Sealed(ExampleManifest(note))) <==> AllFinite(note)
    ensures AllFinite(note) ==> NoCollision(ExampleWorld(note), Sealed(ExampleManifest(note)))
    ensures !AllFinite(JFloat(NaN)) && AllFinite(JNull)
  {
    SealedFinite(note);
    if AllFinite(note) {
      DigestIsUnique(note);
    }
  }
}
