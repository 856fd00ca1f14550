// The schema of a shadow coverage manifest, down to its rows.

module ShadowSchemas {
  import opened Basics
  import opened Json
  import opened Evidence
  import opened Schema
  import opened ShadowCoverage

  const KEY := Within(1, 0x7FFF_FFFF_FFFF_FFFF)

  // ---- Rows ----

  /** A competitor with a level exactly when it would escalate. */
  predicate Competitor(w: World, j: Json) {
    && HasFields(j, {"reason_code", "entity_name", "queue", "priority", "action"}
                    + if Get(j, "action") == JString("ESCALATE") then {"level"} else {})
    && Has(w, j, "reason_code", Text) && HasOrNull(w, j, "entity_name", Text) && HasOrNull(w, j, "queue", Text)
    && Has(w, j, "priority", Whole)
    && (Is(j, "action", JString("ASSIGN_QUEUE"))
        || (Is(j, "action", JString("ESCALATE")) && Has(w, j, "level", AtLeast(1))))
  }

  predicate Route(w: World, j: Json) {
    && HasFields(j, {"decision", "current_queue", "selected_queue", "action", "priority", "reason_code",
                     "competitors", "reason", "applicable", "manual_assignment_protected",
                     "pending_stewardship", "due_at", "deadline_due", "current_escalation_level",
                     "requested_escalation_level"})
    && Choice(w, j) && Situation(w, j)
    && Get(j, "competitors").JArray?
    && forall competitor :: competitor in Items(Get(j, "competitors")) ==> Competitor(w, competitor)
  }

  predicate Choice(w: World, j: Json) {
    && Has(w, j, "decision", Word({"WINNER", "AMBIGUOUS", "NO_CANDIDATE", "NO_OP", "PROTECTED", "INELIGIBLE"}))
    && HasOrNull(w, j, "current_queue", Text) && HasOrNull(w, j, "selected_queue", Text)
    && HasOrNull(w, j, "action", Word({"ASSIGN_QUEUE", "ESCALATE"})) && HasOrNull(w, j, "reason_code", Text)
    && HasOrNull(w, j, "priority", Whole) && Has(w, j, "reason", Text)
  }

  predicate Situation(w: World, j: Json) {
    && Has(w, j, "applicable", Flag) && Has(w, j, "manual_assignment_protected", Flag)
    && Has(w, j, "pending_stewardship", Flag) && Has(w, j, "deadline_due", Flag)
    && HasOrNull(w, j, "current_escalation_level", Whole) && HasOrNull(w, j, "requested_escalation_level", Whole)
    && HasOrNull(w, j, "due_at", Instant)
  }

  predicate Deadline(w: World, j: Json) {
    && HasFields(j, {"decision", "existing_due_at", "proposed_due_at", "reason"})
    && Has(w, j, "decision", Word({"INELIGIBLE", "OPENED_AT_UNKNOWN", "PRESERVED", "PROPOSED", "REPLACEMENT"}))
    && HasOrNull(w, j, "existing_due_at", Instant) && HasOrNull(w, j, "proposed_due_at", Instant)
    && Has(w, j, "reason", Text)
  }

  predicate Side(w: World, j: Json) {
    HasFields(j, {"route", "deadline"}) && Route(w, Get(j, "route")) && Deadline(w, Get(j, "deadline"))
  }

  /** The row states both sides of its case, and rightly whether they differ. */
  predicate Row(w: World, j: Json) {
    && HasFields(j, {"case_key", "current", "proposed", "changed"})
    && Has(w, j, "case_key", KEY)
    && Side(w, Get(j, "current")) && Side(w, Get(j, "proposed"))
    && Is(j, "changed", JBool(Canonical(Get(j, "current")) != Canonical(Get(j, "proposed"))))
  }

  lemma CompetitorExact(w: World, j: Json)
    ensures Competitor(w, j) <==> ValidCompetitor(j)
  {
    var fields := {"reason_code", "entity_name", "queue", "priority", "action"};
    assert fields + {} == fields;
    assert fields + {"level"} == {"reason_code", "entity_name", "queue", "priority", "action", "level"};
  }

  lemma ChoiceExact(w: World, j: Json)
    ensures Choice(w, j) <==> ValidChoice(j)
  {
  }

  lemma SituationExact(w: World, j: Json)
    ensures Situation(w, j) <==> ValidSituation(w, j)
  {
  }

  lemma RouteExact(w: World, j: Json)
    ensures Route(w, j) <==> ValidRoute(w, j)
  {
    ChoiceExact(w, j);
    SituationExact(w, j);
    forall competitor ensures Competitor(w, competitor) <==> ValidCompetitor(competitor) {
      CompetitorExact(w, competitor);
    }
  }

  lemma DeadlineExact(w: World, j: Json)
    ensures Deadline(w, j) <==> ValidDeadline(w, j)
  {
  }

  lemma SideExact(w: World, j: Json)
    ensures Side(w, j) <==> ValidSide(w, j)
  {
    RouteExact(w, Get(j, "route"));
    DeadlineExact(w, Get(j, "deadline"));
  }

  lemma RowExact(w: World, j: Json)
    ensures Row(w, j) <==> ValidRow(w, j)
  {
    SideExact(w, Get(j, "current"));
    SideExact(w, Get(j, "proposed"));
    PyEqualExact(Get(j, "current"), Get(j, "proposed"));
  }

  // ---- Results ----

  /** Case keys without repetition. */
  predicate KeyList(w: World, j: Json) {
    && j.JArray? && (forall item :: item in j.items ==> Meets(w, KEY, item))
    && forall i, k :: 0 <= i < |j.items| && 0 <= k < |j.items| && i != k ==> j.items[i] != j.items[k]
  }

  /** A policy revision of the record. */
  predicate Revision(w: World, revisions: seq<Json>, j: Json) {
    Meets(w, Text, j) && j in revisions
  }

  predicate Header(w: World, m: Membership, revisions: seq<Json>, result: Json) {
    && HasFields(result, {"state", "read_only", "captured_at", "policy_revisions", "coverage", "rows"})
    && Is(result, "state", JString("complete")) && Is(result, "read_only", JBool(true))
    && Has(w, result, "captured_at", Instant) && Get(result, "rows").JArray?
    && HasFields(Get(result, "policy_revisions"), {"current", "proposed"})
    && Revision(w, revisions, Get(Get(result, "policy_revisions"), "current"))
    && Revision(w, revisions, Get(Get(result, "policy_revisions"), "proposed"))
    && HasFields(Get(result, "coverage"),
                 {"population_id", "membership", "expected_count", "observed_count", "partial", "snapshot"})
    && Agrees(Get(result, "coverage"), "population_id", m.populationId)
    && KeyList(w, Get(Get(result, "coverage"), "membership"))
  }

  /** The members that a result states, and its rows. */
  function MemberList(result: Json): seq<Json> {
    Items(Get(Get(result, "coverage"), "membership"))
  }

  function RowList(result: Json): seq<Json> {
    Items(Get(result, "rows"))
  }

  ghost predicate HasRow(rows: seq<Json>, key: Json) {
    exists i :: 0 <= i < |rows| && Is(rows[i], "case_key", key)
  }

  /** One row for each member and no other rows, rightly counted. */
  ghost predicate Tallied(result: Json) {
    var coverage, members, rows := Get(result, "coverage"), MemberList(result), RowList(result);
    && Is(coverage, "expected_count", JInt(|members|)) && Is(coverage, "observed_count", JInt(|rows|))
    && Is(coverage, "partial", JBool(false))
    && Is(coverage, "snapshot", JString("one READ COMMITTED statement per read"))
    && (forall key :: key in members <==> HasRow(rows, key))
    && forall i, k :: 0 <= i < k < |rows| ==> Get(rows[i], "case_key") != Get(rows[k], "case_key")
  }

  /** A complete preview of its members. */
  ghost predicate Preview(w: World, m: Membership, revisions: seq<Json>, result: Json) {
    && Header(w, m, revisions, result)
    && (forall row :: row in RowList(result) ==> Row(w, row))
    && Tallied(result)
  }

  lemma KeyListExact(w: World, j: Json)
    ensures KeyList(w, j) <==> ValidCaseKeys(j)
  {
    if KeyList(w, j) {
      forall i | 0 <= i < |j.items| ensures IsCaseKey(j.items[i]) {
        assert Meets(w, KEY, j.items[i]);
      }
    }
    if ValidCaseKeys(j) {
      forall i, k | 0 <= i < |j.items| && 0 <= k < |j.items| && i != k ensures j.items[i] != j.items[k] {
        var lo, hi := if i < k then i else k, if i < k then k else i;
        assert j.items[lo] != j.items[hi];
      }
    }
  }

  lemma RevisionExact(w: World, revisions: seq<Json>, j: Json)
    ensures Revision(w, revisions, j) <==> InRevisions(revisions, j)
  {
    if InRevisions(revisions, j) {
      var i :| 0 <= i < |revisions| && PyEqual(j, revisions[i]);
      TextEqual(j, revisions[i]);
    }
    if Revision(w, revisions, j) {
      var i :| 0 <= i < |revisions| && revisions[i] == j;
      TextEqual(j, revisions[i]);
      assert InRevisions(revisions, j);
    }
  }

  lemma TextEqual(a: Json, b: Json)
    requires a.JString?
    ensures PyEqual(a, b) <==> a == b
  {
  }

  lemma HeaderExact(w: World, m: Membership, revisions: seq<Json>, result: Json)
    ensures Header(w, m, revisions, result) <==> ValidHeader(w, m, revisions, result)
  {
    KeyListExact(w, Get(Get(result, "coverage"), "membership"));
    RevisionExact(w, revisions, Get(Get(result, "policy_revisions"), "current"));
    RevisionExact(w, revisions, Get(Get(result, "policy_revisions"), "proposed"));
  }

  /** Reading case keys loses none. */
  lemma {:induction false} KeysOf(items: seq<Json>)
    requires forall i :: 0 <= i < |items| ==> IsCaseKey(items[i])
    ensures |KeysAmong(items)| == |items|
    ensures forall i :: 0 <= i < |items| ==> items[i] == JInt(KeysAmong(items)[i])
  {
    if items != [] {
      KeysOf(items[..|items| - 1]);
      assert forall i :: 0 <= i < |items| - 1 ==> items[..|items| - 1][i] == items[i];
    }
  }

  lemma {:induction false} DistinctCount(s: seq<CaseKey>)
    requires Distinct(s)
    ensures |Elements(s)| == |s|
  {
    if s != [] {
      var front, last := s[..|s| - 1], s[|s| - 1];
      DistinctCount(front);
      assert s == front + [last];
      ElementsConcat(front, [last]);
      assert Elements([last]) == {last} && last !in Elements(front);
    }
  }

  lemma SameElements(a: seq<CaseKey>, b: seq<CaseKey>)
    ensures Elements(a) == Elements(b) <==> (forall x :: x in a ==> x in b) && (forall x :: x in b ==> x in a)
  {
    if Elements(a) == Elements(b) {
      forall x | x in a ensures x in b {
        assert x in Elements(a);
      }
      forall x | x in b ensures x in a {
        assert x in Elements(b);
      }
    }
  }

  /** JSON case keys and the numbers they are. */
  predicate SameKeys(items: seq<Json>, keys: seq<CaseKey>) {
    |items| == |keys| && forall i :: 0 <= i < |items| ==> items[i] == JInt(keys[i])
  }

  lemma SameKeysHold(items: seq<Json>, keys: seq<CaseKey>)
    requires SameKeys(items, keys)
    ensures forall key :: key in items ==> key.JInt? && 0 < key.n <= MAX_CASE_KEY && key.n in keys
    ensures forall x :: x in keys ==> JInt(x) in items
    ensures Distinct(items) <==> Distinct(keys)
  {
    forall x | x in keys ensures JInt(x) in items {
      var i :| 0 <= i < |keys| && keys[i] == x;
      assert items[i] == JInt(x);
    }
  }

  /** Two lists have the same keys exactly when they have the same numbers. */
  lemma SameKeySets(a: seq<Json>, x: seq<CaseKey>, b: seq<Json>, y: seq<CaseKey>)
    requires SameKeys(a, x) && SameKeys(b, y)
    ensures (forall key :: key in a <==> key in b) <==> Elements(x) == Elements(y)
  {
    SameKeysHold(a, x);
    SameKeysHold(b, y);
    SameElements(x, y);
    if forall key :: key in a <==> key in b {
      forall k | k in x ensures k in y {
        assert JInt(k) in b;
      }
      forall k | k in y ensures k in x {
        assert JInt(k) in a;
      }
    }
  }

  lemma KeysOfRows(w: World, rows: seq<Json>)
    requires forall row :: row in rows ==> Row(w, row)
    ensures SameKeys(CaseKeys(rows), KeysAmong(CaseKeys(rows)))
    ensures forall key :: HasRow(rows, key) <==> key in CaseKeys(rows)
    ensures Distinct(CaseKeys(rows))
       <==> forall i, k :: 0 <= i < k < |rows| ==> Get(rows[i], "case_key") != Get(rows[k], "case_key")
  {
    var keys := CaseKeys(rows);
    forall i | 0 <= i < |rows| ensures keys[i] == Get(rows[i], "case_key") && IsCaseKey(keys[i]) {
      assert rows[i] in rows;
      assert Has(w, rows[i], "case_key", KEY);
    }
    KeysOf(keys);
    forall key | key in keys ensures HasRow(rows, key) {
      var i :| 0 <= i < |keys| && keys[i] == key;
      assert Is(rows[i], "case_key", key);
    }
    forall key | HasRow(rows, key) ensures key in keys {
      var i :| 0 <= i < |rows| && Is(rows[i], "case_key", key);
      assert keys[i] == key;
    }
  }

  lemma MembersAreKeys(w: World, items: seq<Json>)
    requires KeyList(w, JArray(items))
    ensures SameKeys(items, KeysAmong(items))
  {
    forall i | 0 <= i < |items| ensures IsCaseKey(items[i]) {
      assert items[i] in JArray(items).items;
    }
    KeysOf(items);
  }

  lemma TallyExact(w: World, result: Json)
    requires KeyList(w, Get(Get(result, "coverage"), "membership"))
    requires forall row :: row in RowList(result) ==> Row(w, row)
    ensures Tallied(result) <==> Tallies(result, Members(result), RowKeys(result))
  {
    var members, rows := MemberList(result), RowList(result);
    var memberKeys, rowKeys := Members(result), RowKeys(result);
    MembersAreKeys(w, members);
    KeysOfRows(w, rows);
    SameKeySets(members, memberKeys, CaseKeys(rows), rowKeys);
    SameKeysHold(CaseKeys(rows), rowKeys);
    DistinctByCount(rowKeys);
  }

  lemma DistinctByCount(s: seq<CaseKey>)
    ensures Distinct(s) <==> |s| == |Elements(s)|
  {
    CountDistinct(s);
    if Distinct(s) {
      DistinctCount(s);
    }
  }

  lemma RowsExact(w: World, m: Membership, revisions: seq<Json>, rows: seq<Json>)
    ensures AllRows(PreviewChecks(w, m, revisions), rows) <==> forall row :: row in rows ==> Row(w, row)
  {
    var c := PreviewChecks(w, m, revisions);
    forall row ensures Row(w, row) <==> c.row(row) {
      RowExact(w, row);
    }
  }

  /** The checks accept exactly the complete previews. */
  lemma PreviewExact(w: World, m: Membership, revisions: seq<Json>, result: Json)
    ensures Preview(w, m, revisions, result) <==> ValidResult(PreviewChecks(w, m, revisions), result)
  {
    HeaderExact(w, m, revisions, result);
    RowsExact(w, m, revisions, RowList(result));
    if Header(w, m, revisions, result) && forall row :: row in RowList(result) ==> Row(w, row) {
      TallyExact(w, result);
    }
  }

  // ---- The whole manifest ----

  /** The key is a member of the result. */
  predicate Covers(result: Json, key: CaseKey) {
    JInt(key) in MemberList(result)
  }

  ghost predicate CoveredBy(results: seq<Json>, key: CaseKey) {
    exists i :: 0 <= i < |results| && Covers(results[i], key)
  }

  ghost predicate Previews(w: World, m: Membership, revisions: seq<Json>, results: seq<Json>) {
    forall result :: result in results ==> Preview(w, m, revisions, result)
  }

  /** No key is a member of two results. */
  ghost predicate CoveredOnce(results: seq<Json>) {
    forall key, i, k :: 0 <= i < |results| && 0 <= k < |results| && Covers(results[i], key) && Covers(results[k], key)
      ==> i == k
  }

  ghost predicate OneCapture(w: World, results: seq<Json>) {
    exists instant :: CapturedThen(w, results, instant)
  }

  ghost predicate CapturedThen(w: World, results: seq<Json>, instant: int) {
    forall result :: result in results ==> Time(w, Get(result, "captured_at")) == Some(instant)
  }

  /** Complete previews of one instant, with every frozen key in exactly one of them, and no other key. */
  ghost predicate WholePopulation(w: World, m: Membership, revisions: seq<Json>, coverage: Json) {
    && coverage.JArray? && |coverage.items| > 0
    && Previews(w, m, revisions, coverage.items) && OneCapture(w, coverage.items)
    && CoversFrozen(m, coverage.items) && CoveredOnce(coverage.items)
  }

  ghost predicate CoversFrozen(m: Membership, results: seq<Json>) {
    forall key: CaseKey :: key in m.caseKeys <==> CoveredBy(results, key)
  }

  lemma PreviewCovers(w: World, m: Membership, revisions: seq<Json>, result: Json)
    requires Preview(w, m, revisions, result)
    ensures forall key: CaseKey :: Covers(result, key) <==> key in Elements(Members(result))
    ensures CapturedAt(w, result).Some?
  {
    MembersAreKeys(w, MemberList(result));
    SameKeysHold(MemberList(result), Members(result));
  }

  lemma PreviewsExact(w: World, m: Membership, revisions: seq<Json>, results: seq<Json>)
    ensures Previews(w, m, revisions, results) <==> AllValid(PreviewChecks(w, m, revisions), results)
  {
    forall result ensures Preview(w, m, revisions, result) <==> ValidResult(PreviewChecks(w, m, revisions), result) {
      PreviewExact(w, m, revisions, result);
    }
  }

  lemma InstantExact(w: World, results: seq<Json>)
    requires results != [] && forall result :: result in results ==> CapturedAt(w, result).Some?
    ensures OneInstant(w, results) <==> OneCapture(w, results)
  {
    var first := CapturedAt(w, results[0]).value;
    if OneInstant(w, results) {
      forall result | result in results ensures Time(w, Get(result, "captured_at")) == Some(first) {
        var i :| 0 <= i < |results| && results[i] == result;
        assert i > 0 ==> CapturedAt(w, results[0]) == CapturedAt(w, results[i]);
      }
      assert CapturedThen(w, results, first);
    }
  }

  lemma OnceExact(w: World, m: Membership, revisions: seq<Json>, results: seq<Json>)
    requires Previews(w, m, revisions, results)
    ensures CoveredOnce(results) <==> PairwiseDisjoint(results)
  {
    forall i: nat, key: CaseKey | i < |results|
      ensures Covers(results[i], key) <==> key in Elements(Members(results[i]))
    {
      PreviewCovers(w, m, revisions, results[i]);
    }
    if PairwiseDisjoint(results) {
      forall key, i, k | 0 <= i < |results| && 0 <= k < |results| && Covers(results[i], key) && Covers(results[k], key)
        ensures i == k
      {
        assert key in Elements(Members(results[i])) && key in Elements(Members(results[k]));
        NotDisjoint(results, i, k, key);
        NotDisjoint(results, k, i, key);
      }
    }
  }

  lemma NotDisjoint(results: seq<Json>, i: nat, k: nat, key: CaseKey)
    requires i < |results| && k < |results| && PairwiseDisjoint(results)
    requires key in Elements(Members(results[i])) && key in Elements(Members(results[k]))
    ensures i >= k
  {
  }

  lemma CoveredExact(w: World, m: Membership, revisions: seq<Json>, results: seq<Json>, key: CaseKey)
    requires Previews(w, m, revisions, results)
    ensures CoveredBy(results, key) <==> key in Covered(results)
  {
    if CoveredBy(results, key) {
      var i :| 0 <= i < |results| && Covers(results[i], key);
      PreviewCovers(w, m, revisions, results[i]);
      CoveredHolds(results, i);
    }
    if key in Covered(results) {
      var i := CoveredOnly(results, key);
      PreviewCovers(w, m, revisions, results[i]);
      assert Covers(results[i], key);
    }
  }

  /** The validator accepts exactly the whole populations. */
  lemma PopulationExact(w: World, m: Membership, revisions: seq<Json>, coverage: Json)
    ensures ExactPartition(w, PreviewChecks(w, m, revisions), m.caseKeys, coverage)
       <==> WholePopulation(w, m, revisions, coverage)
  {
    if coverage.JArray? && coverage.items != [] {
      PopulationOfExact(w, m, revisions, coverage.items, PreviewChecks(w, m, revisions));
    }
  }

  lemma PopulationOfExact(w: World, m: Membership, revisions: seq<Json>, results: seq<Json>, c: Checks)
    requires results != [] && c == PreviewChecks(w, m, revisions)
    ensures Acceptable(w, c, results) && Covered(results) == Elements(m.caseKeys)
       <==> && Previews(w, m, revisions, results) && OneCapture(w, results)
            && CoversFrozen(m, results) && CoveredOnce(results)
  {
    PreviewsExact(w, m, revisions, results);
    AcceptableParts(w, c, results);
    if Previews(w, m, revisions, results) {
      PopulationParts(w, m, revisions, results);
    }
  }

  lemma AcceptableParts(w: World, c: Checks, results: seq<Json>)
    ensures Acceptable(w, c, results) <==> AllValid(c, results) && OneInstant(w, results) && PairwiseDisjoint(results)
  {
    assert Unfolded(0);
  }

  lemma PopulationParts(w: World, m: Membership, revisions: seq<Json>, results: seq<Json>)
    requires results != [] && Previews(w, m, revisions, results)
    ensures OneInstant(w, results) <==> OneCapture(w, results)
    ensures CoveredOnce(results) <==> PairwiseDisjoint(results)
    ensures Covered(results) == Elements(m.caseKeys) <==> CoversFrozen(m, results)
  {
    forall result | result in results ensures CapturedAt(w, result).Some? {
      PreviewCovers(w, m, revisions, result);
    }
    InstantExact(w, results);
    OnceExact(w, m, revisions, results);
    KeysExact(w, m, revisions, results);
  }

  lemma KeysExact(w: World, m: Membership, revisions: seq<Json>, results: seq<Json>)
    requires Previews(w, m, revisions, results)
    ensures Covered(results) == Elements(m.caseKeys) <==> CoversFrozen(m, results)
  {
    forall key: CaseKey ensures CoveredBy(results, key) <==> key in Covered(results) {
      CoveredExact(w, m, revisions, results, key);
    }
    assert forall key :: key in m.caseKeys <==> key in Elements(m.caseKeys);
  }
}
