// What it means that the required view does not occur: the query's rows do not depend on it.

module Independence {
  import opened Basics
  import opened ParseTree
  import opened Equalities
  import opened Lineage
  import opened LineageSemantics
  import opened Occurrences

  /** The entries that the join tree uses are in FROM, and no two CTEs share a name, at every level. */
  ghost predicate Tidy(q: Query)
    decreases q
  {
    && (forall i :: 0 <= i < |q.rtable| && InTree(q.jointree, i + 1) ==> q.rtable[i].inFromCl)
    && (forall i, j :: 0 <= i < j < |q.ctes| ==> q.ctes[i].name != q.ctes[j].name)
    && (forall i :: 0 <= i < |q.rtable| && q.rtable[i].Subquery? ==> Tidy(q.rtable[i].subquery))
    && (forall i :: 0 <= i < |q.ctes| && q.ctes[i].query.Some? ==> Tidy(q.ctes[i].query.value))
  }

  /** Two databases that differ in the required view only. */
  ghost predicate SameElsewhere(db: Database, db': Database, required: Oid) {
    forall oid :: oid != required ==> db(oid) == db'(oid)
  }

  lemma {:induction false} NoneAtEntry(catalog: Catalog, required: Oid, q: Query, n: nat, path: seq<Oid>, i: nat)
    requires |path| <= MAX_VIEW_DEPTH && i < n <= |q.rtable| && UnfoldEntries(catalog, required, q, n, path) == NONE
    ensures UnfoldEntry(catalog, required, q, i, path) == NONE
    decreases n
  {
    NoneOfSum(UnfoldEntries(catalog, required, q, n - 1, path), UnfoldEntry(catalog, required, q, n - 1, path));
    if i < n - 1 {
      NoneAtEntry(catalog, required, q, n - 1, path, i);
    }
  }

  lemma NoneOfSum(a: Leaves, b: Leaves)
    requires a + b == NONE
    ensures a == NONE && b == NONE
  {
    forall leaf: Leaf ensures a[leaf] == 0 && b[leaf] == 0 {
      assert (a + b)[leaf] == 0;
    }
  }

  lemma QueryNone(catalog: Catalog, required: Oid, q: Query, path: seq<Oid>)
    requires |path| <= MAX_VIEW_DEPTH && UnfoldQuery(catalog, required, q, path) == NONE
    ensures UnfoldEntries(catalog, required, q, |q.rtable|, path) == NONE
  {
    var entries := UnfoldEntries(catalog, required, q, |q.rtable|, path);
    var targets := UnfoldTargets(catalog, required, q.targets, |q.targets|, path);
    var joins := UnfoldFrom(catalog, required, q.jointree, path);
    NoneOfSum(entries + targets + joins, UnfoldExprs(catalog, required, q.others, |q.others|, path));
    NoneOfSum(entries + targets, joins);
    NoneOfSum(entries, targets);
  }

  /** A query without an occurrence, and without a cut, gives the same rows whatever the required view holds. */
  lemma {:induction false} NoOccurrenceNoInfluence(
      I: Interpretation, db: Database, db': Database, catalog: Catalog, required: Oid, q: Query, path: seq<Oid>,
      row: Row, outer: seq<Env>)
    requires SameElsewhere(db, db', required) && Tidy(q)
    requires |path| <= MAX_VIEW_DEPTH && UnfoldQuery(catalog, required, q, path) == NONE
    ensures Produces(I, db, q, row, outer) <==> Produces(I, db', q, row, outer)
    decreases q, 2
  {
    QueryNone(catalog, required, q, path);
    forall env | |env| == |q.rtable|
      ensures Joined(I, db, q, q.jointree, env, outer) <==> Joined(I, db', q, q.jointree, env, outer)
    {
      SameJoined(I, db, db', catalog, required, q, path, q.jointree, env, outer);
    }
    forall env ensures Derives(I, db, q, row, env, outer) <==> Derives(I, db', q, row, env, outer) {
    }
  }

  lemma {:induction false} SameJoined(
      I: Interpretation, db: Database, db': Database, catalog: Catalog, required: Oid, q: Query, path: seq<Oid>,
      node: FromNode, env: Env, outer: seq<Env>)
    requires SameElsewhere(db, db', required) && Tidy(q) && |env| == |q.rtable| && |path| <= MAX_VIEW_DEPTH
    requires UnfoldEntries(catalog, required, q, |q.rtable|, path) == NONE
    requires forall i :: InTree(node, i) ==> InTree(q.jointree, i)
    ensures Joined(I, db, q, node, env, outer) <==> Joined(I, db', q, node, env, outer)
    decreases q, 1, node
  {
    match node
    case FromExpr(fromlist, _) =>
      forall i | 0 <= i < |fromlist|
        ensures Joined(I, db, q, fromlist[i], env, outer) <==> Joined(I, db', q, fromlist[i], env, outer)
      {
        SameJoined(I, db, db', catalog, required, q, path, fromlist[i], env, outer);
      }
    case JoinExpr(_, larg, rarg, _, _) =>
      forall env' | |env'| == |q.rtable|
        ensures Joined(I, db, q, larg, env', outer) <==> Joined(I, db', q, larg, env', outer)
        ensures Joined(I, db, q, rarg, env', outer) <==> Joined(I, db', q, rarg, env', outer)
      {
        SameJoined(I, db, db', catalog, required, q, path, larg, env', outer);
        SameJoined(I, db, db', catalog, required, q, path, rarg, env', outer);
      }
    case RangeTblRef(rtindex) =>
      assert InTree(node, rtindex);
      if InRange(q, rtindex) {
        NoneAtEntry(catalog, required, q, |q.rtable|, path, rtindex - 1);
        SameEntry(I, db, db', catalog, required, q, path, rtindex - 1, env, outer);
      }
  }

  lemma {:induction false} SameEntry(
      I: Interpretation, db: Database, db': Database, catalog: Catalog, required: Oid, q: Query, path: seq<Oid>, i: nat,
      env: Env, outer: seq<Env>)
    requires SameElsewhere(db, db', required) && Tidy(q) && |env| == |q.rtable| && |path| <= MAX_VIEW_DEPTH
    requires i < |q.rtable| && q.rtable[i].inFromCl && UnfoldEntry(catalog, required, q, i, path) == NONE
    ensures EntryDelivers(I, db, q, i, env, outer) <==> EntryDelivers(I, db', q, i, env, outer)
    decreases q, 0
  {
    match q.rtable[i]
    case Relation(_, relid, _) =>
    case Subquery(_, subquery) =>
      NoOccurrenceNoInfluence(I, db, db', catalog, required, subquery, path, env[i], [env] + outer);
    case CteRef(_, name, level) =>
      if level == 0 {
        forall j | 0 <= j < |q.ctes| && q.ctes[j].name == name
          ensures q.ctes[j].query.Some? && UnfoldQuery(catalog, required, q.ctes[j].query.value, path) == NONE
          ensures Produces(I, db, q.ctes[j].query.value, env[i], [env] + outer)
             <==> Produces(I, db', q.ctes[j].query.value, env[i], [env] + outer)
        {
          assert FirstCte(q.ctes, name, 0) == Some(j);
          NoOccurrenceNoInfluence(I, db, db', catalog, required, q.ctes[j].query.value, path, env[i], [env] + outer);
        }
      }
    case _ =>
  }
}
