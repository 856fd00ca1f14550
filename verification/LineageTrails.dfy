// What the recursive definitions of the lineage analysis amount to, as trails that can be followed step by step:
// alias by alias, conjunct by conjunct, subquery by subquery.

module LineageTrails {
  import opened Basics
  import opened ParseTree
  import opened Equalities
  import opened Lineage

  // ---- Variables and join aliases (src/rewrite.rs:392-410) ----

  /** A variable of the query itself, within its range table. */
  predicate OwnVariable(q: Query, e: Expr) {
    e.Var? && e.levelsup == 0 && 0 < e.varno <= |q.rtable| && 0 < e.varattno
  }

  /** Every variable but the last names a column of a join, and the next one is that column's alias. */
  ghost predicate AliasTrail(q: Query, trail: seq<Expr>, e: Expr, k: VarKey) {
    && |trail| > 0 && trail[0] == e
    && (forall i :: 0 <= i < |trail| ==> OwnVariable(q, trail[i]))
    && (forall i :: 0 <= i < |trail| - 1 ==> AliasStep(q, trail[i], trail[i + 1]))
    && var last := trail[|trail| - 1];
    !q.rtable[last.varno - 1].Join? && k == VarKey(last.varno, last.varattno)
  }

  predicate AliasStep(q: Query, e: Expr, next: Expr)
    requires OwnVariable(q, e)
  {
    var entry := q.rtable[e.varno - 1];
    entry.Join? && e.varattno <= |entry.aliases| && entry.aliases[e.varattno - 1] == next
  }

  /** An expression resolves to the column at the end of its alias trail, and to nothing without one. */
  lemma {:induction false} ResolveKeyFollowsAliases(q: Query, e: Expr, k: VarKey)
    requires AliasesDescend(q)
    ensures ResolveKey(q, e) == Some(k) <==> exists trail :: AliasTrail(q, trail, e, k)
  {
    if ResolveKey(q, e) == Some(k) {
      var trail := AliasTrailOf(q, e, k);
    }
    if trail :| AliasTrail(q, trail, e, k) {
      AliasTrailResolves(q, trail, e, k);
    }
  }

  lemma {:induction false} AliasTrailOf(q: Query, e: Expr, k: VarKey) returns (trail: seq<Expr>)
    requires AliasesDescend(q) && ResolveKey(q, e) == Some(k)
    ensures AliasTrail(q, trail, e, k)
    decreases if e.Var? then e.varno else 0
  {
    trail := [e];
    var entry := q.rtable[e.varno - 1];
    if entry.Join? {
      assert AliasBelow(entry.aliases[e.varattno - 1], e.varno - 1);
      var rest := AliasTrailOf(q, entry.aliases[e.varattno - 1], k);
      trail := [e] + rest;
    }
  }

  lemma {:induction false} AliasTrailResolves(q: Query, trail: seq<Expr>, e: Expr, k: VarKey)
    requires AliasesDescend(q) && AliasTrail(q, trail, e, k)
    ensures ResolveKey(q, e) == Some(k)
    decreases |trail|
  {
    if |trail| > 1 {
      assert AliasStep(q, trail[0], trail[1]);
      forall i | 0 <= i < |trail[1..]| - 1 ensures AliasStep(q, trail[1..][i], trail[1..][i + 1]) {
        assert AliasStep(q, trail[i + 1], trail[i + 2]);
      }
      AliasTrailResolves(q, trail[1..], trail[1], k);
    }
  }

  // ---- Equality quals (src/rewrite.rs:412-494) ----

  /** e stands in qual under conjunctions only. */
  ghost predicate Conjunct(qual: Expr, e: Expr)
    decreases qual
  {
    || e == qual
    || (qual.BoolExpr? && qual.kind == And && exists i :: 0 <= i < |qual.conds| && Conjunct(qual.conds[i], e))
  }

  /** qual is the condition of a join, or of a list of joined nodes, somewhere in the tree. */
  ghost predicate ConditionIn(node: FromNode, qual: Expr)
    decreases node
  {
    match node
    case FromExpr(fromlist, quals) =>
      quals == Some(qual) || exists i :: 0 <= i < |fromlist| && ConditionIn(fromlist[i], qual)
    case JoinExpr(_, larg, rarg, quals, _) =>
      quals == Some(qual) || ConditionIn(larg, qual) || ConditionIn(rarg, qual)
    case RangeTblRef(_) => false
  }

  /** A hash-joinable operator between two columns. */
  ghost predicate Equates(q: Query, e: Expr, left: VarKey, right: VarKey) {
    && e.OpExpr? && e.hashJoinable && |e.args| == 2
    && (exists trail :: AliasTrail(q, trail, e.args[0], left))
    && (exists trail :: AliasTrail(q, trail, e.args[1], right))
  }

  ghost predicate EquatedBy(q: Query, qual: Expr, left: VarKey, right: VarKey) {
    exists e :: Conjunct(qual, e) && Equates(q, e, left, right)
  }

  lemma {:induction false} QualEqualitiesExact(q: Query, qual: Expr, left: VarKey, right: VarKey)
    requires AliasesDescend(q)
    ensures (left, right) in QualEqualities(q, qual) <==> EquatedBy(q, qual, left, right)
    decreases qual, 0
  {
    match qual
    case BoolExpr(kind, conds) =>
      if kind == And {
        QualListExact(q, conds, |conds|, left, right);
        ConjunctsOf(q, qual, left, right);
      }
    case OpExpr(_, hashJoinable, args) =>
      if |args| == 2 {
        ResolveKeyFollowsAliases(q, args[0], left);
        ResolveKeyFollowsAliases(q, args[1], right);
      }
      if (left, right) in QualEqualities(q, qual) {
        assert Conjunct(qual, qual) && Equates(q, qual, left, right);
      }
    case _ =>
  }

  lemma ConjunctsOf(q: Query, qual: Expr, left: VarKey, right: VarKey)
    requires qual.BoolExpr? && qual.kind == And
    ensures EquatedBy(q, qual, left, right)
       <==> exists i :: 0 <= i < |qual.conds| && EquatedBy(q, qual.conds[i], left, right)
  {
    if EquatedBy(q, qual, left, right) {
      var e :| Conjunct(qual, e) && Equates(q, e, left, right);
      var i :| 0 <= i < |qual.conds| && Conjunct(qual.conds[i], e);
      assert EquatedBy(q, qual.conds[i], left, right);
    }
    if i :| 0 <= i < |qual.conds| && EquatedBy(q, qual.conds[i], left, right) {
      var e :| Conjunct(qual.conds[i], e) && Equates(q, e, left, right);
      assert Conjunct(qual, e);
    }
  }

  lemma {:induction false} QualListExact(q: Query, quals: seq<Expr>, n: nat, left: VarKey, right: VarKey)
    requires AliasesDescend(q) && n <= |quals|
    ensures (left, right) in QualListEqualities(q, quals, n)
       <==> exists i :: 0 <= i < n && EquatedBy(q, quals[i], left, right)
    decreases quals, n
  {
    if n > 0 {
      QualListExact(q, quals, n - 1, left, right);
      QualEqualitiesExact(q, quals[n - 1], left, right);
    }
  }

  ghost predicate EquatedIn(q: Query, node: FromNode, left: VarKey, right: VarKey) {
    exists qual :: ConditionIn(node, qual) && EquatedBy(q, qual, left, right)
  }

  lemma {:induction false} FromEqualitiesExact(q: Query, node: FromNode, left: VarKey, right: VarKey)
    requires AliasesDescend(q)
    ensures (left, right) in FromEqualities(q, node) <==> EquatedIn(q, node, left, right)
    decreases node, 0
  {
    match node
    case FromExpr(fromlist, quals) =>
      FromListExact(q, fromlist, |fromlist|, left, right);
      if quals.Some? { QualEqualitiesExact(q, quals.value, left, right); }
      ListConditions(q, node, left, right);
    case JoinExpr(_, larg, rarg, quals, _) =>
      FromEqualitiesExact(q, larg, left, right);
      FromEqualitiesExact(q, rarg, left, right);
      if quals.Some? { QualEqualitiesExact(q, quals.value, left, right); }
      JoinConditions(q, node, left, right);
    case RangeTblRef(_) =>
  }

  lemma ListConditions(q: Query, node: FromNode, left: VarKey, right: VarKey)
    requires node.FromExpr?
    ensures EquatedIn(q, node, left, right)
       <==> || (node.quals.Some? && EquatedBy(q, node.quals.value, left, right))
            || (exists i :: 0 <= i < |node.fromlist| && EquatedIn(q, node.fromlist[i], left, right))
  {
    if qual :| ConditionIn(node, qual) && EquatedBy(q, qual, left, right) {
      if node.quals != Some(qual) {
        var i :| 0 <= i < |node.fromlist| && ConditionIn(node.fromlist[i], qual);
        assert EquatedIn(q, node.fromlist[i], left, right);
      }
    }
    if node.quals.Some? && EquatedBy(q, node.quals.value, left, right) {
      assert ConditionIn(node, node.quals.value);
    }
    if i :| 0 <= i < |node.fromlist| && EquatedIn(q, node.fromlist[i], left, right) {
      var qual :| ConditionIn(node.fromlist[i], qual) && EquatedBy(q, qual, left, right);
      assert ConditionIn(node, qual);
    }
  }

  lemma JoinConditions(q: Query, node: FromNode, left: VarKey, right: VarKey)
    requires node.JoinExpr?
    ensures EquatedIn(q, node, left, right)
       <==> || (node.quals.Some? && EquatedBy(q, node.quals.value, left, right))
            || EquatedIn(q, node.larg, left, right) || EquatedIn(q, node.rarg, left, right)
  {
    if node.quals.Some? && EquatedBy(q, node.quals.value, left, right) {
      assert ConditionIn(node, node.quals.value);
    }
    if qual :| ConditionIn(node.larg, qual) && EquatedBy(q, qual, left, right) {
      assert ConditionIn(node, qual);
    }
    if qual :| ConditionIn(node.rarg, qual) && EquatedBy(q, qual, left, right) {
      assert ConditionIn(node, qual);
    }
  }

  lemma {:induction false} FromListExact(q: Query, nodes: seq<FromNode>, n: nat, left: VarKey, right: VarKey)
    requires AliasesDescend(q) && n <= |nodes|
    ensures (left, right) in FromListEqualities(q, nodes, n)
       <==> exists i :: 0 <= i < n && EquatedIn(q, nodes[i], left, right)
    decreases nodes, n
  {
    if n > 0 {
      FromListExact(q, nodes, n - 1, left, right);
      FromEqualitiesExact(q, nodes[n - 1], left, right);
    }
  }

  /** Exactly the pairs under the conjunctions of the tree's conditions are collected, whatever the join types. */
  lemma JoinTreeEqualitiesExact(q: Query, left: VarKey, right: VarKey)
    requires AliasesDescend(q)
    ensures (left, right) in JoinTreeEqualities(q) <==> EquatedIn(q, q.jointree, left, right)
  {
    FromEqualitiesExact(q, q.jointree, left, right);
  }

  // ---- Sources of an output column (src/rewrite.rs:232-390) ----

  /** A column of the range table of a query, at some depth of nesting. */
  datatype Stand = Stand(q: Query, k: VarKey)

  /** The first output column of this number that is not junk. */
  ghost predicate Outputs(q: Query, attno: int, e: Expr) {
    exists i :: 0 <= i < |q.targets| && FirstOutput(q, attno, i) && q.targets[i].expr == e
  }

  ghost predicate FirstOutput(q: Query, attno: int, i: nat)
    requires i < |q.targets|
  {
    OutputAt(q, attno, i) && forall j :: 0 <= j < i ==> !OutputAt(q, attno, j)
  }

  predicate OutputAt(q: Query, attno: int, i: nat)
    requires i < |q.targets|
  {
    !q.targets[i].resjunk && q.targets[i].resno == attno
  }

  lemma {:induction false} TargetExprIsOutput(q: Query, attno: int, e: Expr)
    ensures TargetExpr(q, attno) == Some(e) <==> Outputs(q, attno, e)
    decreases |q.targets|
  {
    if q.targets != [] {
      var rest := q.(targets := q.targets[1..]);
      TargetExprIsOutput(rest, attno, e);
      if OutputAt(q, attno, 0) {
        assert FirstOutput(q, attno, 0);
      } else {
        OutputsOfRest(q, rest, attno, e);
      }
    }
  }

  lemma OutputsOfRest(q: Query, rest: Query, attno: int, e: Expr)
    requires q.targets != [] && rest.targets == q.targets[1..] && !OutputAt(q, attno, 0)
    ensures Outputs(rest, attno, e) <==> Outputs(q, attno, e)
  {
    if i :| 0 <= i < |rest.targets| && FirstOutput(rest, attno, i) && rest.targets[i].expr == e {
      forall j | 0 <= j < i + 1 ensures !OutputAt(q, attno, j) {
        assert j > 0 ==> !OutputAt(rest, attno, j - 1);
      }
      assert FirstOutput(q, attno, i + 1);
    }
    if i :| 0 <= i < |q.targets| && FirstOutput(q, attno, i) && q.targets[i].expr == e {
      forall j | 0 <= j < i - 1 ensures !OutputAt(rest, attno, j) {
        assert !OutputAt(q, attno, j + 1);
      }
      assert FirstOutput(rest, attno, i - 1);
    }
  }

  /** The output column copies the column that we stand on, through an equality class when closure holds. */
  ghost predicate StartsAt(q: Query, attno: int, closure: bool, at: Stand)
    requires AliasesDescend(q)
  {
    at.q == q && attno > 0
    && exists e, k :: Outputs(q, attno, e) && LeadsTo(q, e, k, closure, at.k)
  }

  ghost predicate LeadsTo(q: Query, e: Expr, k: VarKey, closure: bool, k': VarKey)
    requires AliasesDescend(q)
  {
    (exists trail :: AliasTrail(q, trail, e, k))
    && if closure then Connected(JoinTreeEqualities(q), k, k') else k' == k
  }

  /** Entry varno of q delivers the rows of the query inner: a subquery, or the body of a CTE of its name. */
  ghost predicate Delivers(q: Query, varno: int, inner: Query) {
    && 1 <= varno <= |q.rtable|
    && var entry := q.rtable[varno - 1];
    || (entry.Subquery? && entry.subquery == inner)
    || (entry.CteRef? && entry.ctelevelsup == 0
        && exists i :: 0 <= i < |q.ctes| && IsCte(q.ctes[i], entry.name, inner))
  }

  predicate IsCte(cte: Cte, name: string, inner: Query) {
    cte.name == name && !cte.recursive && cte.query == Some(inner)
  }

  /** One step into the query that delivers the column. */
  ghost predicate StepsInto(at: Stand, closure: bool, next: Stand) {
    Delivers(at.q, at.k.varno, next.q) && AliasesDescend(next.q) && StartsAt(next.q, at.k.attno, closure, next)
  }

  /** The column belongs to a view, a materialized view or a table. */
  ghost predicate EndsAt(at: Stand, s: Source) {
    && 1 <= at.k.varno <= |at.q.rtable|
    && var entry := at.q.rtable[at.k.varno - 1];
    && entry.Relation?
    && match entry.kind
       case View => s == ViewColumn(Column(entry.relid, at.k.attno))
       case MatView => s == ViewColumn(Column(entry.relid, at.k.attno))
       case OtherKind => s == BaseColumn
  }

  ghost predicate SourceTrail(q: Query, attno: int, closure: bool, s: Source, trail: seq<Stand>)
    requires AliasesDescend(q)
  {
    && |trail| > 0 && StartsAt(q, attno, closure, trail[0])
    && (forall i :: 0 <= i < |trail| - 1 ==> StepsInto(trail[i], closure, trail[i + 1]))
    && EndsAt(trail[|trail| - 1], s)
  }

  lemma StartsAtClass(q: Query, attno: int, closure: bool, at: Stand)
    requires AliasesDescend(q)
    ensures StartsAt(q, attno, closure, at)
       <==> at.q == q && attno > 0 && TargetExpr(q, attno).Some?
            && var k := ResolveKey(q, TargetExpr(q, attno).value);
               k.Some? && SameClass(q, closure, k.value, at.k)
  {
    var target := TargetExpr(q, attno);
    if target.Some? {
      TargetExprIsOutput(q, attno, target.value);
      var k := ResolveKey(q, target.value);
      if k.Some? {
        ResolveKeyFollowsAliases(q, target.value, k.value);
        assert SameClass(q, closure, k.value, at.k) ==> LeadsTo(q, target.value, k.value, closure, at.k);
      }
    }
    if e, k :| Outputs(q, attno, e) && LeadsTo(q, e, k, closure, at.k) {
      TargetExprIsOutput(q, attno, e);
      ResolveKeyFollowsAliases(q, e, k);
    }
  }

  lemma DeliveredIsWellFormed(q: Query, varno: int, inner: Query)
    requires WellFormed(q) && Delivers(q, varno, inner)
    ensures WellFormed(inner) && inner < q
  {
    var entry := q.rtable[varno - 1];
    if entry.CteRef? {
      var i :| 0 <= i < |q.ctes| && IsCte(q.ctes[i], entry.name, inner);
      assert q.ctes[i] in q.ctes;
    }
  }

  /** Every source is at the end of a trail. */
  lemma {:induction false} TrailOf(q: Query, attno: int, closure: bool, s: Source) returns (trail: seq<Stand>)
    requires WellFormed(q) && ColumnSource(q, attno, closure, s)
    ensures SourceTrail(q, attno, closure, s, trail)
    decreases q
  {
    var k := ResolveKey(q, TargetExpr(q, attno).value).value;
    var k' :| SameClass(q, closure, k, k') && KeySource(q, k', closure, s);
    var at := Stand(q, k');
    StartsAtClass(q, attno, closure, at);
    trail := [at];
    var entry := q.rtable[k'.varno - 1];
    if !entry.Relation? {
      var inner := InnerSource(q, k', closure, s);
      DeliveredIsWellFormed(q, k'.varno, inner);
      var rest := TrailOf(inner, k'.attno, closure, s);
      assert rest[0].q == inner;
      trail := [at] + rest;
    }
  }

  lemma InnerSource(q: Query, k: VarKey, closure: bool, s: Source) returns (inner: Query)
    requires WellFormed(q) && KeySource(q, k, closure, s) && !q.rtable[k.varno - 1].Relation?
    ensures Delivers(q, k.varno, inner) && WellFormed(inner) && ColumnSource(inner, k.attno, closure, s)
  {
    match q.rtable[k.varno - 1]
    case Subquery(_, subquery) => inner := subquery;
    case CteRef(_, name, _) =>
      var i :| 0 <= i < |q.ctes| && NamedCte(q.ctes[i], name)
               && ColumnSource(q.ctes[i].query.value, k.attno, closure, s);
      inner := q.ctes[i].query.value;
      assert IsCte(q.ctes[i], name, inner);
  }

  /** What is at the end of a trail is a source. */
  lemma {:induction false} TrailLeadsToSource(q: Query, attno: int, closure: bool, s: Source, trail: seq<Stand>)
    requires WellFormed(q) && SourceTrail(q, attno, closure, s, trail)
    ensures ColumnSource(q, attno, closure, s)
    decreases |trail|
  {
    var k' := trail[0].k;
    StartsAtClass(q, attno, closure, trail[0]);
    if |trail| > 1 {
      assert StepsInto(trail[0], closure, trail[1]);
      var inner := trail[1].q;
      DeliveredIsWellFormed(q, k'.varno, inner);
      forall i | 0 <= i < |trail[1..]| - 1 ensures StepsInto(trail[1..][i], closure, trail[1..][i + 1]) {
        assert StepsInto(trail[i + 1], closure, trail[i + 2]);
      }
      TrailLeadsToSource(inner, k'.attno, closure, s, trail[1..]);
      KeySourceThrough(q, k', inner, closure, s);
    }
    assert KeySource(q, k', closure, s);
  }

  lemma KeySourceThrough(q: Query, k: VarKey, inner: Query, closure: bool, s: Source)
    requires WellFormed(q) && Delivers(q, k.varno, inner) && WellFormed(inner)
    requires ColumnSource(inner, k.attno, closure, s)
    ensures KeySource(q, k, closure, s)
  {
    if q.rtable[k.varno - 1].CteRef? {
      var i :| 0 <= i < |q.ctes| && IsCte(q.ctes[i], q.rtable[k.varno - 1].name, inner);
      assert NamedCte(q.ctes[i], q.rtable[k.varno - 1].name);
    }
  }

  /** The sources of an output column are exactly what its trails lead to. */
  lemma ColumnSourceExact(q: Query, attno: int, closure: bool, s: Source)
    requires WellFormed(q)
    ensures ColumnSource(q, attno, closure, s) <==> exists trail :: SourceTrail(q, attno, closure, s, trail)
  {
    if ColumnSource(q, attno, closure, s) {
      var trail := TrailOf(q, attno, closure, s);
    }
    if trail :| SourceTrail(q, attno, closure, s, trail) {
      TrailLeadsToSource(q, attno, closure, s, trail);
    }
  }

  /** A plain select from the one CTE of a name has the sources of that CTE's column, and no others. */
  lemma SelectFromCte(q: Query, attno: int, varno: int, inner: int, c: nat, closure: bool, s: Source)
    requires WellFormed(q) && TargetExpr(q, attno) == Some(Var(varno, inner, 0)) && attno > 0 && inner > 0
    requires InRange(q, varno) && q.rtable[varno - 1].CteRef? && q.rtable[varno - 1].ctelevelsup == 0
    requires c < |q.ctes| && !q.ctes[c].recursive && q.ctes[c].query.Some?
    requires forall i :: 0 <= i < |q.ctes| ==> (q.ctes[i].name == q.rtable[varno - 1].name <==> i == c)
    requires !closure || JoinTreeEqualities(q) == []
    ensures ColumnSource(q, attno, closure, s) <==> ColumnSource(q.ctes[c].query.value, inner, closure, s)
  {
    var k, name := VarKey(varno, inner), q.rtable[varno - 1].name;
    assert NamedCte(q.ctes[c], name);
    OnlyItself(q, closure, k);
    if ColumnSource(q, attno, closure, s) {
      var k' :| SameClass(q, closure, k, k') && KeySource(q, k', closure, s);
    }
    if ColumnSource(q.ctes[c].query.value, inner, closure, s) {
      assert KeySource(q, k, closure, s);
    }
  }

  lemma OnlyItself(q: Query, closure: bool, k: VarKey)
    requires AliasesDescend(q) && (!closure || JoinTreeEqualities(q) == [])
    ensures forall k' :: SameClass(q, closure, k, k') <==> k' == k
  {
    ConnectedRefl(JoinTreeEqualities(q), k);
    forall k' | SameClass(q, closure, k, k') ensures k' == k {
      if closure {
        var walk :| WalkBetween([], walk, k, k');
        if |walk| > 1 {
          NotAdjacent(walk[0], walk[1]);
        }
      }
    }
  }

  lemma NotAdjacent(x: VarKey, y: VarKey)
    ensures !Adjacent([], x, y)
  {
  }
}
