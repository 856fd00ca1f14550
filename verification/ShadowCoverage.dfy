// Acceptance of the shadow coverage manifest
// (tests/integrations/pg-mdm/derive_v050_qualification.py:152-160, 207-319).

module ShadowCoverage {
  import opened Basics
  import opened Json
  import opened Evidence

  const MAX_CASE_KEY := 9223372036854775807

  type CaseKey = k: int | 0 < k <= MAX_CASE_KEY witness 1

  // ---- Shapes ----

  predicate IsCaseKey(j: Json) {
    j.JInt? && 0 < j.n <= MAX_CASE_KEY
  }

  predicate ValidCaseKeys(j: Json) {
    && j.JArray?
    && (forall i :: 0 <= i < |j.items| ==> IsCaseKey(j.items[i]))
    && Distinct(j.items)
  }

  /** The case keys among the elements. */
  function KeysAmong(items: seq<Json>): seq<CaseKey> {
    if items == [] then []
    else KeysAmong(items[..|items| - 1]) + if IsCaseKey(items[|items| - 1]) then [items[|items| - 1].n] else []
  }

  predicate NullOrString(j: Json) {
    j.JNull? || j.JString?
  }

  predicate NullOrInt(j: Json) {
    j.JNull? || j.JInt?
  }

  predicate NullOrTime(w: World, j: Json) {
    j.JNull? || Time(w, j).Some?
  }

  predicate ValidCompetitor(j: Json) {
    && (HasFields(j, {"reason_code", "entity_name", "queue", "priority", "action"})
        || HasFields(j, {"reason_code", "entity_name", "queue", "priority", "action", "level"}))
    && Get(j, "reason_code").JString? && NullOrString(Get(j, "entity_name")) && NullOrString(Get(j, "queue"))
    && Get(j, "priority").JInt?
    && (Get(j, "action") == JString("ASSIGN_QUEUE") || Get(j, "action") == JString("ESCALATE"))
    && (Get(j, "action") == JString("ESCALATE") <==> "level" in j.fields)
    && ("level" in j.fields ==> IsInt(Get(j, "level"), 1))
  }

  predicate ValidRoute(w: World, j: Json) {
    && HasFields(j, {"decision", "current_queue", "selected_queue", "action", "priority", "reason_code",
                     "competitors", "reason", "applicable", "manual_assignment_protected",
                     "pending_stewardship", "due_at", "deadline_due", "current_escalation_level",
                     "requested_escalation_level"})
    && ValidChoice(j) && ValidSituation(w, j)
    && Get(j, "competitors").JArray?
    && (forall i :: 0 <= i < |Get(j, "competitors").items| ==> ValidCompetitor(Get(j, "competitors").items[i]))
  }

  /** The decision and what it chooses. */
  predicate ValidChoice(j: Json) {
    && Get(j, "decision").JString?
    && Get(j, "decision").s in {"WINNER", "AMBIGUOUS", "NO_CANDIDATE", "NO_OP", "PROTECTED", "INELIGIBLE"}
    && NullOrString(Get(j, "current_queue")) && NullOrString(Get(j, "selected_queue"))
    && NullOrString(Get(j, "action")) && NullOrString(Get(j, "reason_code"))
    && NullOrInt(Get(j, "priority"))
    && Get(j, "reason").JString?
    && Get(j, "action") in {JNull, JString("ASSIGN_QUEUE"), JString("ESCALATE")}
  }

  /** What it found the case to be. */
  predicate ValidSituation(w: World, j: Json) {
    && Get(j, "applicable").JBool? && Get(j, "manual_assignment_protected").JBool?
    && Get(j, "pending_stewardship").JBool? && Get(j, "deadline_due").JBool?
    && NullOrInt(Get(j, "current_escalation_level")) && NullOrInt(Get(j, "requested_escalation_level"))
    && NullOrTime(w, Get(j, "due_at"))
  }

  predicate ValidDeadline(w: World, j: Json) {
    && HasFields(j, {"decision", "existing_due_at", "proposed_due_at", "reason"})
    && Get(j, "decision").JString?
    && Get(j, "decision").s in {"INELIGIBLE", "OPENED_AT_UNKNOWN", "PRESERVED", "PROPOSED", "REPLACEMENT"}
    && NullOrTime(w, Get(j, "existing_due_at")) && NullOrTime(w, Get(j, "proposed_due_at"))
    && Get(j, "reason").JString?
  }

  predicate ValidSide(w: World, j: Json) {
    HasFields(j, {"route", "deadline"}) && ValidRoute(w, Get(j, "route")) && ValidDeadline(w, Get(j, "deadline"))
  }

  predicate ValidRow(w: World, row: Json) {
    && HasFields(row, {"case_key", "current", "proposed", "changed"})
    && IsCaseKey(Get(row, "case_key"))
    && Get(row, "changed").JBool?
    && Get(row, "changed").b == !PyEqual(Get(row, "current"), Get(row, "proposed"))
    && ValidSide(w, Get(row, "current")) && ValidSide(w, Get(row, "proposed"))
  }

  /** The frozen membership that the coverage is held against. */
  datatype Membership = Membership(populationId: Json, caseKeys: seq<CaseKey>)

  predicate InRevisions(revisions: seq<Json>, j: Json) {
    j.JString? && exists i :: 0 <= i < |revisions| && PyEqual(j, revisions[i])
  }

  /** One preview result before its rows are read. */
  predicate ValidHeader(w: World, m: Membership, revisions: seq<Json>, result: Json) {
    && HasFields(result, {"state", "read_only", "captured_at", "policy_revisions", "coverage", "rows"})
    && Get(result, "state") == JString("complete") && Get(result, "read_only") == JBool(true)
    && Time(w, Get(result, "captured_at")).Some?
    && HasFields(Get(result, "policy_revisions"), {"current", "proposed"})
    && InRevisions(revisions, Get(Get(result, "policy_revisions"), "current"))
    && InRevisions(revisions, Get(Get(result, "policy_revisions"), "proposed"))
    && HasFields(Get(result, "coverage"),
                 {"population_id", "membership", "expected_count", "observed_count", "partial", "snapshot"})
    && PyEqual(Get(Get(result, "coverage"), "population_id"), m.populationId)
    && ValidCaseKeys(Get(Get(result, "coverage"), "membership"))
    && Get(result, "rows").JArray?
  }

  function Members(result: Json): seq<CaseKey> {
    KeysAmong(Items(Get(Get(result, "coverage"), "membership")))
  }

  function CaseKeys(rows: seq<Json>): (keys: seq<Json>)
    ensures |keys| == |rows|
  {
    seq(|rows|, i requires 0 <= i < |rows| => Get(rows[i], "case_key"))
  }

  function RowKeys(result: Json): seq<CaseKey> {
    KeysAmong(CaseKeys(Items(Get(result, "rows"))))
  }

  function Elements(s: seq<CaseKey>): set<CaseKey> {
    set x | x in s
  }

  /** The result's counts and keys agree: one row for every member and no other row. */
  predicate Tallies(result: Json, members: seq<CaseKey>, rowKeys: seq<CaseKey>) {
    var coverage := Get(result, "coverage");
    && Get(coverage, "expected_count") == JInt(|members|)
    && Get(coverage, "observed_count") == JInt(|rowKeys|)
    && Get(coverage, "partial") == JBool(false)
    && Get(coverage, "snapshot") == JString("one READ COMMITTED statement per read")
    && |rowKeys| == |Elements(rowKeys)|
    && Elements(rowKeys) == Elements(members)
  }

  /** The checks on a preview result, on a row, and on a result's counts against its members and row keys. */
  datatype Checks = Checks(header: Json -> bool, row: Json -> bool, tally: (Json, seq<CaseKey>, seq<CaseKey>) -> bool)

  function PreviewChecks(w: World, m: Membership, revisions: seq<Json>): Checks {
    Checks(result => ValidHeader(w, m, revisions, result), row => ValidRow(w, row),
           (result, members, rowKeys) => Tallies(result, members, rowKeys))
  }

  predicate AllRows(c: Checks, rows: seq<Json>) {
    forall i :: 0 <= i < |rows| ==> c.row(rows[i])
  }

  // ---- The reference: an exact partition ----

  predicate Disjoint(a: set<CaseKey>, b: set<CaseKey>) {
    forall x :: x in a ==> x !in b
  }

  predicate ValidResult(c: Checks, result: Json) {
    c.header(result) && AllRows(c, Items(Get(result, "rows"))) && c.tally(result, Members(result), RowKeys(result))
  }

  ghost predicate AllValid(c: Checks, results: seq<Json>) {
    forall i :: 0 <= i < |results| ==> ValidResult(c, results[i])
  }

  function CapturedAt(w: World, result: Json): Option<int> {
    Time(w, Get(result, "captured_at"))
  }

  ghost predicate OneInstant(w: World, results: seq<Json>) {
    forall i, j :: 0 <= i < j < |results| ==> CapturedAt(w, results[i]) == CapturedAt(w, results[j])
  }

  ghost predicate PairwiseDisjoint(results: seq<Json>) {
    forall i, j :: 0 <= i < j < |results| ==> Disjoint(Elements(Members(results[i])), Elements(Members(results[j])))
  }

  function Covered(results: seq<Json>): set<CaseKey> {
    if results == [] then {}
    else Covered(results[..|results| - 1]) + Elements(Members(results[|results| - 1]))
  }

  /** Valid results of one instant whose memberships do not overlap. */
  ghost predicate Acceptable(w: World, c: Checks, results: seq<Json>) {
    forall k :: Unfolded(k) ==> AllValid(c, results) && OneInstant(w, results) && PairwiseDisjoint(results)
  }

  /** The memberships partition the frozen keys, at one capture instant, with one row for every member. */
  ghost predicate ExactPartition(w: World, c: Checks, caseKeys: seq<CaseKey>, coverage: Json) {
    && coverage.JArray? && coverage.items != []
    && Acceptable(w, c, coverage.items)
    && Covered(coverage.items) == Elements(caseKeys)
  }

  // ---- The rows behind the reported counts ----

  /** The number from which ok first fails to go on, at most limit. */
  ghost function LastGood(ok: nat -> bool, n: nat, limit: nat): (stop: nat)
    requires n <= limit
    ensures n <= stop <= limit
    ensures n < stop ==> ok(stop)
    ensures stop < limit ==> !ok(stop + 1)
    decreases limit - n
  {
    if n == limit || !ok(n + 1) then n else LastGood(ok, n + 1, limit)
  }

  /** How many results are accepted before the first rejected one. */
  ghost function AcceptedCount(w: World, c: Checks, results: seq<Json>): (stop: nat)
    ensures stop <= |results|
  {
    LastGood((n: nat) => AcceptableUpTo(w, c, results, n), 0, |results|)
  }

  ghost predicate AcceptableUpTo(w: World, c: Checks, results: seq<Json>, n: nat) {
    n <= |results| && Acceptable(w, c, results[..n])
  }

  function AllRowKeys(results: seq<Json>): seq<CaseKey> {
    if results == [] then [] else AllRowKeys(results[..|results| - 1]) + RowKeys(results[|results| - 1])
  }

  /** The instant of the last result, None before the first. */
  function LastInstant(w: World, results: seq<Json>): Option<int> {
    if results == [] then None else CapturedAt(w, results[|results| - 1])
  }

  /** All rows of the result are read: only the counts, the keys or the overlap can still reject it. */
  predicate RowsRead(w: World, c: Checks, capturedAt: Option<int>, result: Json) {
    && c.header(result) && (capturedAt.Some? ==> CapturedAt(w, result) == capturedAt)
    && AllRows(c, Items(Get(result, "rows")))
  }

  /** The row keys of the accepted results, and of the rejected one when its rows are all read. */
  ghost function CountedRows(w: World, c: Checks, coverage: Json): seq<CaseKey> {
    var results := Items(coverage);
    var n := AcceptedCount(w, c, results);
    AllRowKeys(results[..n])
    + if n < |results| && RowsRead(w, c, LastInstant(w, results[..n]), results[n]) then RowKeys(results[n]) else []
  }

  /** The first rejected result determines what is counted. */
  lemma CountedUpTo(w: World, c: Checks, coverage: Json, n: nat)
    requires n < |Items(coverage)| && Acceptable(w, c, Items(coverage)[..n])
    requires !Acceptable(w, c, Items(coverage)[..n + 1])
    ensures var results := Items(coverage);
            CountedRows(w, c, coverage)
            == AllRowKeys(results[..n]) + if RowsRead(w, c, LastInstant(w, results[..n]), results[n])
              then RowKeys(results[n]) else []
  {
    StopsThere(w, c, Items(coverage), n);
  }

  lemma StopsThere(w: World, c: Checks, results: seq<Json>, n: nat)
    requires n < |results| && Acceptable(w, c, results[..n]) && !Acceptable(w, c, results[..n + 1])
    ensures AcceptedCount(w, c, results) == n
  {
    UpToStep(w, c, results, n);
  }

  /** Acceptability up to some number passes down to every smaller one. */
  lemma UpToStep(w: World, c: Checks, results: seq<Json>, n: nat)
    requires AcceptableUpTo(w, c, results, n)
    ensures forall k: nat :: k <= n ==> AcceptableUpTo(w, c, results, k)
    ensures n < |results| && !AcceptableUpTo(w, c, results, n + 1) ==>
      forall k: nat :: n < k ==> !AcceptableUpTo(w, c, results, k)
  {
    forall k: nat | k <= n ensures AcceptableUpTo(w, c, results, k) {
      AcceptablePrefix(w, c, results, n, k);
    }
    forall k: nat | n < k && AcceptableUpTo(w, c, results, k) ensures AcceptableUpTo(w, c, results, n + 1) {
      AcceptablePrefix(w, c, results, k, n + 1);
    }
  }

  /** When no result is rejected, all rows count. */
  lemma CountedAll(w: World, c: Checks, coverage: Json)
    requires Acceptable(w, c, Items(coverage))
    ensures CountedRows(w, c, coverage) == AllRowKeys(Items(coverage))
  {
    var results := Items(coverage);
    assert results[..|results|] == results;
    UpToStep(w, c, results, |results|);
    assert AllRowKeys(results) + [] == AllRowKeys(results);
  }

  lemma AcceptablePrefix(w: World, c: Checks, results: seq<Json>, m: nat, n: nat)
    requires n <= m <= |results| && Acceptable(w, c, results[..m])
    ensures Acceptable(w, c, results[..n])
  {
    assert Unfolded(0) && results[..m][..n] == results[..n];
    DisjointPrefix(results[..m], n);
  }

  lemma ElementsConcat(a: seq<CaseKey>, b: seq<CaseKey>)
    ensures Elements(a + b) == Elements(a) + Elements(b)
  {
  }

  lemma {:induction false} CoveredHolds(results: seq<Json>, i: nat)
    requires i < |results|
    ensures Elements(Members(results[i])) <= Covered(results)
  {
    if i < |results| - 1 {
      CoveredHolds(results[..|results| - 1], i);
    }
  }

  /** Every covered key is a member of some result. */
  lemma {:induction false} CoveredOnly(results: seq<Json>, key: CaseKey) returns (i: nat)
    requires key in Covered(results)
    ensures i < |results| && key in Elements(Members(results[i]))
  {
    if key in Elements(Members(results[|results| - 1])) {
      i := |results| - 1;
    } else {
      i := CoveredOnly(results[..|results| - 1], key);
    }
  }

  /** One more result keeps the memberships disjoint exactly when it misses everything covered so far. */
  lemma DisjointStep(results: seq<Json>, result: Json)
    requires PairwiseDisjoint(results)
    ensures PairwiseDisjoint(results + [result]) <==> Disjoint(Covered(results), Elements(Members(result)))
    ensures Covered(results + [result]) == Covered(results) + Elements(Members(result))
  {
    var all := results + [result];
    assert all[..|all| - 1] == results;
    if key :| key in Covered(results) && key in Elements(Members(result)) {
      var i := CoveredOnly(results, key);
      assert all[i] == results[i] && all[|results|] == result;
      assert key in Elements(Members(all[i])) && key in Elements(Members(all[|results|]));
    } else {
      forall i, j | 0 <= i < j < |all| ensures Disjoint(Elements(Members(all[i])), Elements(Members(all[j]))) {
        CoveredHolds(results, i);
        assert all[i] == results[i];
        if j < |results| {
          assert all[j] == results[j];
          assert Disjoint(Elements(Members(results[i])), Elements(Members(results[j])));
        } else {
          assert forall key :: key in Elements(Members(all[i])) ==> key in Covered(results);
        }
      }
    }
  }

  lemma DisjointPrefix(results: seq<Json>, n: nat)
    requires n <= |results| && PairwiseDisjoint(results)
    ensures PairwiseDisjoint(results[..n])
  {
  }

  // ---- The validator ----

  /** A row that passes its check has a case key. */
  ghost predicate RowsHaveKeys(c: Checks) {
    forall row :: c.row(row) ==> IsCaseKey(Get(row, "case_key"))
  }

  /** A result that passes the tally has one row for every member and no other row. */
  ghost predicate TalliesMatchKeys(c: Checks) {
    forall result, members, rowKeys :: c.tally(result, members, rowKeys) ==>
      |rowKeys| == |Elements(rowKeys)| && Elements(rowKeys) == Elements(members)
  }

  ghost predicate HeadersAreTimed(w: World, c: Checks) {
    forall result :: c.header(result) ==> CapturedAt(w, result).Some?
  }

  /** Reads the rows of one result: their keys, or None at the first malformed row. */
  method ReadRows(c: Checks, rows: seq<Json>) returns (rowKeys: Option<seq<CaseKey>>)
    requires RowsHaveKeys(c)
    ensures rowKeys.Some? <==> AllRows(c, rows)
    ensures rowKeys.Some? ==> rowKeys.value == KeysAmong(CaseKeys(rows))
  {
    var keys: seq<CaseKey> := [];
    for r := 0 to |rows|
      invariant AllRows(c, rows[..r])
      invariant keys == KeysAmong(CaseKeys(rows[..r]))
    {
      if !c.row(rows[r]) {
        return None;
      }
      assert rows[..r + 1] == rows[..r] + [rows[r]];
      assert CaseKeys(rows[..r + 1])[..r] == CaseKeys(rows[..r]);
      keys := keys + [Get(rows[r], "case_key").n];
    }
    assert rows[..|rows|] == rows;
    rowKeys := Some(keys);
  }

  /** What the loop knows of the results it has accepted. */
  ghost predicate Accepted(w: World, c: Checks, results: seq<Json>, members: set<CaseKey>, rows: seq<CaseKey>,
                           capturedAt: Option<int>) {
    forall k :: Unfolded(k) ==>
      && Acceptable(w, c, results)
      && members == Covered(results) && rows == AllRowKeys(results)
      && Elements(rows) == members && |rows| == |members|
      && capturedAt == LastInstant(w, results) && (results != [] ==> capturedAt.Some?)
  }

  /** The next result continues the partition. */
  ghost predicate Fits(w: World, c: Checks, members: set<CaseKey>, capturedAt: Option<int>, result: Json) {
    && ValidResult(c, result)
    && (capturedAt.Some? ==> CapturedAt(w, result) == capturedAt)
    && Disjoint(members, Elements(Members(result)))
  }

  lemma AcceptOne(w: World, c: Checks, results: seq<Json>, members: set<CaseKey>, rows: seq<CaseKey>,
                  capturedAt: Option<int>, result: Json)
    requires Accepted(w, c, results, members, rows, capturedAt)
    requires TalliesMatchKeys(c) && HeadersAreTimed(w, c) && Fits(w, c, members, capturedAt, result)
    ensures Accepted(w, c, results + [result], members + Elements(Members(result)), rows + RowKeys(result),
                     CapturedAt(w, result))
  {
    assert Unfolded(0);
    AcceptableStep(w, c, results, result, capturedAt);
    RowsStep(c, results, result, rows);
    AllRowKeysStep(results, result);
    DisjointStep(results, result);
  }

  lemma AllRowKeysStep(results: seq<Json>, result: Json)
    ensures AllRowKeys(results + [result]) == AllRowKeys(results) + RowKeys(result)
  {
    assert (results + [result])[..|results|] == results;
  }

  lemma AcceptableStep(w: World, c: Checks, results: seq<Json>, result: Json, capturedAt: Option<int>)
    requires Acceptable(w, c, results) && Fits(w, c, Covered(results), capturedAt, result)
    requires capturedAt == LastInstant(w, results) && (results != [] ==> capturedAt.Some?)
    ensures Acceptable(w, c, results + [result]) && PairwiseDisjoint(results + [result])
  {
    assert Unfolded(0);
    DisjointStep(results, result);
    InstantStep(w, results, result);
    ValidStep(c, results, result);
  }

  lemma ValidStep(c: Checks, results: seq<Json>, result: Json)
    requires AllValid(c, results) && ValidResult(c, result)
    ensures AllValid(c, results + [result])
  {
    var all := results + [result];
    forall i | 0 <= i < |all| ensures ValidResult(c, all[i]) {
      if i < |results| { assert all[i] == results[i]; }
    }
  }

  lemma AcceptNext(w: World, c: Checks, results: seq<Json>, index: nat, members: set<CaseKey>, rows: seq<CaseKey>,
                   capturedAt: Option<int>)
    requires index < |results| && Accepted(w, c, results[..index], members, rows, capturedAt)
    requires TalliesMatchKeys(c) && HeadersAreTimed(w, c) && Fits(w, c, members, capturedAt, results[index])
    ensures Accepted(w, c, results[..index + 1], members + Elements(Members(results[index])),
                     rows + RowKeys(results[index]),
                     CapturedAt(w, results[index]))
  {
    AcceptOne(w, c, results[..index], members, rows, capturedAt, results[index]);
    assert results[..index + 1] == results[..index] + [results[index]];
  }

  lemma DisjointCount(a: set<CaseKey>, b: set<CaseKey>)
    requires Disjoint(a, b)
    ensures |a + b| == |a| + |b|
  {
    assert a !! b;
  }

  lemma InstantStep(w: World, results: seq<Json>, result: Json)
    requires OneInstant(w, results)
    requires results != [] ==> CapturedAt(w, results[|results| - 1]) == CapturedAt(w, result)
    ensures OneInstant(w, results + [result])
  {
  }

  /** A result that fails a check, or misses the instant or the disjointness, ends the acceptable prefix. */
  lemma RejectOne(w: World, c: Checks, results: seq<Json>, members: set<CaseKey>, rows: seq<CaseKey>,
                  capturedAt: Option<int>, result: Json)
    requires Accepted(w, c, results, members, rows, capturedAt)
    requires !Fits(w, c, members, capturedAt, result)
    ensures !Acceptable(w, c, results + [result])
  {
    var all := results + [result];
    assert Unfolded(0) && all[|results|] == result;
    DisjointStep(results, result);
    if results != [] {
      assert all[|results| - 1] == results[|results| - 1];
    }
  }

  /** The verdict and the counts after rejecting result number index. */
  lemma Rejected(w: World, c: Checks, caseKeys: seq<CaseKey>, coverage: Json, index: nat, members: set<CaseKey>,
                 rows: seq<CaseKey>, capturedAt: Option<int>)
    requires coverage.JArray? && index < |coverage.items|
    requires Accepted(w, c, coverage.items[..index], members, rows, capturedAt)
    requires !Fits(w, c, members, capturedAt, coverage.items[index])
    ensures !ExactPartition(w, c, caseKeys, coverage)
    ensures CountedRows(w, c, coverage)
         == if RowsRead(w, c, capturedAt, coverage.items[index]) then rows + RowKeys(coverage.items[index]) else rows
  {
    var results := coverage.items;
    RejectNext(w, c, results, index, members, rows, capturedAt);
    AcceptedIs(w, c, results[..index], members, rows, capturedAt);
    CountedUpTo(w, c, coverage, index);
    assert rows + [] == rows;
    UnacceptablePrefix(w, c, results, index + 1);
  }

  lemma RejectNext(w: World, c: Checks, results: seq<Json>, index: nat, members: set<CaseKey>, rows: seq<CaseKey>,
                   capturedAt: Option<int>)
    requires index < |results| && Accepted(w, c, results[..index], members, rows, capturedAt)
    requires !Fits(w, c, members, capturedAt, results[index])
    ensures !Acceptable(w, c, results[..index + 1])
  {
    RejectOne(w, c, results[..index], members, rows, capturedAt, results[index]);
    assert results[..index + 1] == results[..index] + [results[index]];
  }

  /** What an accepted prefix means for the counts. */
  lemma AcceptedIs(w: World, c: Checks, results: seq<Json>, members: set<CaseKey>, rows: seq<CaseKey>,
                   capturedAt: Option<int>)
    requires Accepted(w, c, results, members, rows, capturedAt)
    ensures Acceptable(w, c, results) && rows == AllRowKeys(results) && capturedAt == LastInstant(w, results)
  {
    assert Unfolded(0);
  }

  lemma UnacceptablePrefix(w: World, c: Checks, results: seq<Json>, n: nat)
    requires n <= |results| && !Acceptable(w, c, results[..n])
    ensures !Acceptable(w, c, results)
  {
    assert results[..|results|] == results;
    if Acceptable(w, c, results) {
      AcceptablePrefix(w, c, results, |results|, n);
    }
  }

  /** When every result is accepted, only the comparison with the frozen keys is left. */
  lemma AllAccepted(w: World, c: Checks, caseKeys: seq<CaseKey>, coverage: Json, members: set<CaseKey>,
                    rows: seq<CaseKey>, capturedAt: Option<int>)
    requires coverage.JArray? && coverage.items != []
    requires Accepted(w, c, coverage.items[..|coverage.items|], members, rows, capturedAt)
    ensures ExactPartition(w, c, caseKeys, coverage) <==> members == Elements(caseKeys)
    ensures Elements(rows) == members && |rows| == |members| && CountedRows(w, c, coverage) == rows
  {
    assert Unfolded(0) && coverage.items[..|coverage.items|] == coverage.items;
    CountedAll(w, c, coverage);
  }

  lemma NothingAccepted(w: World, c: Checks)
    ensures Accepted(w, c, [], {}, [], None)
  {
  }

  /** How one result is judged: its rows are not all read, or they are and it fits or not. */
  datatype Judgement = NotRead | Misfit(rowKeys: seq<CaseKey>) | Fit(rowKeys: seq<CaseKey>)

  method CheckResult(w: World, c: Checks, members: set<CaseKey>, capturedAt: Option<int>, result: Json)
    returns (r: Judgement)
    requires RowsHaveKeys(c)
    ensures r.NotRead? <==> !RowsRead(w, c, capturedAt, result)
    ensures !r.NotRead? ==> r.rowKeys == RowKeys(result)
    ensures r.Fit? <==> Fits(w, c, members, capturedAt, result)
  {
    if !c.header(result) || (capturedAt.Some? && CapturedAt(w, result) != capturedAt) {
      return NotRead;
    }
    var rowKeys := ReadRows(c, Items(Get(result, "rows")));
    if rowKeys.None? {
      return NotRead;
    }
    var memberKeys := Members(result);
    if !c.tally(result, memberKeys, rowKeys.value) || !Disjoint(members, Elements(memberKeys)) {
      return Misfit(rowKeys.value);
    }
    r := Fit(rowKeys.value);
  }

  method CheckCoverage(w: World, c: Checks, caseKeys: seq<CaseKey>, coverage: Json)
    returns (valid: bool, count: nat, duplicates: int)
    requires RowsHaveKeys(c) && TalliesMatchKeys(c) && HeadersAreTimed(w, c)
    ensures valid <==> ExactPartition(w, c, caseKeys, coverage)
    ensures count == |CountedRows(w, c, coverage)|
    ensures duplicates == |CountedRows(w, c, coverage)| - |Elements(CountedRows(w, c, coverage))|
  {
    ghost var counted, partition := CountedRows(w, c, coverage), ExactPartition(w, c, caseKeys, coverage);
    if !coverage.JArray? || coverage.items == [] {
      return false, 0, 0;
    }
    var results := coverage.items;
    var seenMembers: set<CaseKey> := {};
    var seenRows: seq<CaseKey> := [];
    var capturedAt: Option<int> := None;
    NothingAccepted(w, c);
    assert results[..0] == [];
    for index := 0 to |results|
      invariant Accepted(w, c, results[..index], seenMembers, seenRows, capturedAt)
    {
      var result := results[index];
      var judgement := CheckResult(w, c, seenMembers, capturedAt, result);
      if !judgement.Fit? {
        Rejected(w, c, caseKeys, coverage, index, seenMembers, seenRows, capturedAt);
        var rows := if judgement.NotRead? then seenRows else seenRows + judgement.rowKeys;
        return false, |rows|, |rows| - |Elements(rows)|;
      }
      AcceptNext(w, c, results, index, seenMembers, seenRows, capturedAt);
      capturedAt := CapturedAt(w, result);
      seenMembers := seenMembers + Elements(Members(result));
      seenRows := seenRows + judgement.rowKeys;
    }
    AllAccepted(w, c, caseKeys, coverage, seenMembers, seenRows, capturedAt);
    count, duplicates := |seenRows|, |seenRows| - |Elements(seenRows)|;
    valid := seenMembers == Elements(caseKeys) && Elements(seenRows) == Elements(caseKeys);
  }

  /** Acceptance means as many rows as frozen keys, and no duplicates. */
  lemma AcceptedCounts(w: World, c: Checks, caseKeys: seq<CaseKey>, coverage: Json)
    requires TalliesMatchKeys(c) && ExactPartition(w, c, caseKeys, coverage)
    ensures |CountedRows(w, c, coverage)| == |Elements(caseKeys)|
    ensures Elements(CountedRows(w, c, coverage)) == Elements(caseKeys)
  {
    CountedAll(w, c, coverage);
    AllRowsCount(w, c, coverage.items);
  }

  lemma RowsStep(c: Checks, results: seq<Json>, result: Json, rows: seq<CaseKey>)
    requires TalliesMatchKeys(c) && ValidResult(c, result) && PairwiseDisjoint(results + [result])
    requires Elements(rows) == Covered(results) && |rows| == |Covered(results)|
    ensures Elements(rows + RowKeys(result)) == Covered(results + [result])
    ensures |rows + RowKeys(result)| == |Covered(results + [result])|
  {
    assert (results + [result])[..|results|] == results;
    DisjointPrefix(results + [result], |results|);
    DisjointStep(results, result);
    ElementsConcat(rows, RowKeys(result));
    DisjointCount(Covered(results), Elements(Members(result)));
  }

  lemma {:induction false} AllRowsCount(w: World, c: Checks, results: seq<Json>)
    requires TalliesMatchKeys(c) && Acceptable(w, c, results)
    ensures Elements(AllRowKeys(results)) == Covered(results) && |AllRowKeys(results)| == |Covered(results)|
  {
    if results != [] {
      var front, last := results[..|results| - 1], results[|results| - 1];
      assert Unfolded(0) && results[..|results|] == results;
      AcceptablePrefix(w, c, results, |results|, |results| - 1);
      AllRowsCount(w, c, front);
      RowsStep(c, front, last, AllRowKeys(front));
    }
  }

  lemma PreviewChecksRead(w: World, m: Membership, revisions: seq<Json>)
    ensures RowsHaveKeys(PreviewChecks(w, m, revisions))
    ensures TalliesMatchKeys(PreviewChecks(w, m, revisions))
    ensures HeadersAreTimed(w, PreviewChecks(w, m, revisions))
  {
  }

  method ValidShadowCoverage(w: World, m: Membership, revisions: seq<Json>, coverage: Json)
    returns (valid: bool, count: nat, duplicates: int)
    ensures valid <==> ExactPartition(w, PreviewChecks(w, m, revisions), m.caseKeys, coverage)
    ensures count == |CountedRows(w, PreviewChecks(w, m, revisions), coverage)|
    ensures duplicates == count - |Elements(CountedRows(w, PreviewChecks(w, m, revisions), coverage))|
  {
    PreviewChecksRead(w, m, revisions);
    valid, count, duplicates := CheckCoverage(w, PreviewChecks(w, m, revisions), m.caseKeys, coverage);
  }

  /** Acceptance, spelled out: every frozen key lies in exactly one result and has exactly one row there. */
  lemma AcceptedKeyIsCoveredOnce(w: World, c: Checks, caseKeys: seq<CaseKey>, coverage: Json, key: CaseKey)
    returns (i: nat)
    requires TalliesMatchKeys(c) && ExactPartition(w, c, caseKeys, coverage) && key in caseKeys
    ensures i < |coverage.items| && key in Members(coverage.items[i])
    ensures forall j :: 0 <= j < |coverage.items| && j != i ==> key !in Members(coverage.items[j])
    ensures key in RowKeys(coverage.items[i]) && Distinct(RowKeys(coverage.items[i]))
  {
    i := CoveredOnly(coverage.items, key);
    var result := coverage.items[i];
    assert Unfolded(0);
    assert ValidResult(c, coverage.items[i]);
    forall j | 0 <= j < |coverage.items| && j != i ensures key !in Members(coverage.items[j]) {
      var lo, hi := if i < j then i else j, if i < j then j else i;
      assert Disjoint(Elements(Members(coverage.items[lo])), Elements(Members(coverage.items[hi])));
      assert key in Elements(Members(result));
    }
    assert key in Elements(RowKeys(result));
    CountDistinct(RowKeys(result));
  }

  /** As many elements as places means no repetition. */
  lemma {:induction false} CountDistinct(s: seq<CaseKey>)
    ensures |Elements(s)| <= |s|
    ensures |Elements(s)| == |s| ==> Distinct(s)
  {
    if s != [] {
      var front, last := s[..|s| - 1], s[|s| - 1];
      CountDistinct(front);
      assert s == front + [last];
      ElementsConcat(front, [last]);
      assert Elements([last]) == {last};
      if last in Elements(front) {
        assert Elements(s) == Elements(front);
      }
    }
  }
}
