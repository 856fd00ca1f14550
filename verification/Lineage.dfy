// The lineage search of src/rewrite.rs:210-379: is an output column of a view a plain copy of a
// required view column (or, with nothing required, of a base-table column)?

module Lineage {
  import opened Basics
  import opened ParseTree
  import opened Equalities

  const MAX_VIEW_DEPTH: nat := 64

  datatype Column = Column(oid: Oid, attno: int)

  /** Where a column of one query comes from, without expanding any view. */
  datatype Source = ViewColumn(column: Column) | BaseColumn

  // ---- The reference definition: chains of single-query steps ----

  /** The columns of q that stand for k: its equality class when closure holds, k alone otherwise. */
  ghost predicate SameClass(q: Query, closure: bool, k: VarKey, k': VarKey)
    requires AliasesDescend(q)
  {
    if closure then Connected(JoinTreeEqualities(q), k, k') else k' == k
  }

  /** Output column attno of q is a copy of s. */
  ghost predicate ColumnSource(q: Query, attno: int, closure: bool, s: Source)
    requires WellFormed(q)
    decreases q, 1
  {
    && attno > 0
    && var target := TargetExpr(q, attno);
    && target.Some?
    && var k := ResolveKey(q, target.value);
    && k.Some?
    && exists k' :: SameClass(q, closure, k.value, k') && KeySource(q, k', closure, s)
  }

  /** Range-table column k of q is a copy of s. */
  ghost predicate KeySource(q: Query, k: VarKey, closure: bool, s: Source)
    requires WellFormed(q)
    decreases q, 0
  {
    InRange(q, k.varno) &&
    match q.rtable[k.varno - 1]
    case Relation(_, relid, kind) => s == if IsViewKind(kind) then ViewColumn(Column(relid, k.attno)) else BaseColumn
    case Subquery(_, subquery) => ColumnSource(subquery, k.attno, closure, s)
    case CteRef(_, name, 0) =>
      exists i :: 0 <= i < |q.ctes| && NamedCte(q.ctes[i], name)
        && ColumnSource(q.ctes[i].query.value, k.attno, closure, s)
    case _ => false
  }

  predicate NamedCte(cte: Cte, name: string) {
    !cte.recursive && cte.name == name && cte.query.Some?
  }

  /** The search succeeds at the required column, or at any base table when nothing is required. */
  predicate IsGoal(required: Option<Column>, s: Source) {
    match s
    case ViewColumn(column) => required == Some(column)
    case BaseColumn => required == None
  }

  /** s' is read off the stored query of the view column s. */
  ghost predicate Expands(catalog: Catalog, closure: bool, s: Source, s': Source)
    requires WellFormedCatalog(catalog)
  {
    s.ViewColumn? && s.column.oid in catalog &&
    ColumnSource(catalog[s.column.oid], s.column.attno, closure, s')
  }

  /** A lineage chain from s to the goal; it expands all of its elements but the last. */
  ghost predicate Chain(catalog: Catalog, required: Option<Column>, s: Source, chain: seq<Source>)
    requires WellFormedCatalog(catalog)
  {
    && |chain| > 0 && chain[0] == s
    && IsGoal(required, chain[|chain| - 1])
    && forall i :: 0 <= i < |chain| - 1 ==> Link(catalog, required.Some?, chain, i)
  }

  ghost predicate Link(catalog: Catalog, closure: bool, chain: seq<Source>, i: nat)
    requires WellFormedCatalog(catalog) && i < |chain| - 1
  {
    Expands(catalog, closure, chain[i], chain[i + 1])
  }

  /** The expanded view columns differ from each other and from those on the path. */
  ghost predicate Simple(chain: seq<Source>, path: seq<Column>) {
    && (forall i, j :: 0 <= i < j < |chain| - 1 ==> chain[i] != chain[j])
    && (forall i :: 0 <= i < |chain| - 1 && chain[i].ViewColumn? ==> chain[i].column !in path)
  }

  ghost predicate SimpleChain(catalog: Catalog, required: Option<Column>, s: Source, chain: seq<Source>,
                              path: seq<Column>)
    requires WellFormedCatalog(catalog)
  {
    Chain(catalog, required, s, chain) && Simple(chain, path) && |path| + |chain| - 1 <= MAX_VIEW_DEPTH
  }

  ghost predicate Reaches(catalog: Catalog, required: Option<Column>, s: Source, path: seq<Column>)
    requires WellFormedCatalog(catalog)
  {
    exists chain :: SimpleChain(catalog, required, s, chain, path)
  }

  ghost predicate ColumnReaches(catalog: Catalog, required: Option<Column>, q: Query, attno: int, path: seq<Column>)
    requires WellFormedCatalog(catalog) && WellFormed(q)
  {
    exists s :: ColumnSource(q, attno, required.Some?, s) && Reaches(catalog, required, s, path)
  }

  ghost predicate KeyReaches(catalog: Catalog, required: Option<Column>, q: Query, k: VarKey, path: seq<Column>)
    requires WellFormedCatalog(catalog) && WellFormed(q)
  {
    exists s :: KeySource(q, k, required.Some?, s) && Reaches(catalog, required, s, path)
  }

  ghost predicate ExprReaches(catalog: Catalog, required: Option<Column>, q: Query, e: Expr, path: seq<Column>)
    requires WellFormedCatalog(catalog) && WellFormed(q)
  {
    var k := ResolveKey(q, e);
    k.Some? && KeyReaches(catalog, required, q, k.value, path)
  }

  // ---- Unfolding one step of a chain ----

  lemma BaseNotExpanded(catalog: Catalog, required: Option<Column>, chain: seq<Source>)
    requires WellFormedCatalog(catalog) && |chain| > 1
    ensures !Chain(catalog, required, BaseColumn, chain)
  {
    assert chain[0] == BaseColumn ==> !Link(catalog, required.Some?, chain, 0);
  }

  lemma ReachesBase(catalog: Catalog, required: Option<Column>, path: seq<Column>)
    requires WellFormedCatalog(catalog) && |path| <= MAX_VIEW_DEPTH
    ensures Reaches(catalog, required, BaseColumn, path) <==> required == None
  {
    if required == None {
      assert SimpleChain(catalog, required, BaseColumn, [BaseColumn], path);
    } else if Reaches(catalog, required, BaseColumn, path) {
      var chain :| SimpleChain(catalog, required, BaseColumn, chain, path);
      if |chain| > 1 {
        BaseNotExpanded(catalog, required, chain);
      }
    }
  }

  /** Popping the first element of a longer chain leaves a simple chain for the longer path. */
  lemma ReachesUnfold(catalog: Catalog, required: Option<Column>, c: Column, path: seq<Column>)
    requires WellFormedCatalog(catalog)
    requires required != Some(c) && Reaches(catalog, required, ViewColumn(c), path)
    ensures |path| < MAX_VIEW_DEPTH && c !in path && c.oid in catalog
    ensures ColumnReaches(catalog, required, catalog[c.oid], c.attno, path + [c])
  {
    var chain :| SimpleChain(catalog, required, ViewColumn(c), chain, path);
    assert Link(catalog, required.Some?, chain, 0);
    var rest := chain[1..];
    forall i | 0 <= i < |rest| - 1 ensures Link(catalog, required.Some?, rest, i) {
      assert Link(catalog, required.Some?, chain, i + 1);
    }
    forall i | 0 <= i < |rest| - 1 && rest[i].ViewColumn? ensures rest[i].column !in path + [c] {
      assert chain[0] != chain[i + 1];
    }
    assert SimpleChain(catalog, required, chain[1], rest, path + [c]);
  }

  lemma ReachesFold(catalog: Catalog, required: Option<Column>, c: Column, path: seq<Column>)
    requires WellFormedCatalog(catalog)
    requires |path| < MAX_VIEW_DEPTH && c !in path && c.oid in catalog
    requires ColumnReaches(catalog, required, catalog[c.oid], c.attno, path + [c])
    ensures Reaches(catalog, required, ViewColumn(c), path)
  {
    var s :| ColumnSource(catalog[c.oid], c.attno, required.Some?, s) && Reaches(catalog, required, s, path + [c]);
    var rest :| SimpleChain(catalog, required, s, rest, path + [c]);
    var chain := [ViewColumn(c)] + rest;
    forall i | 0 <= i < |chain| - 1 ensures Link(catalog, required.Some?, chain, i) {
      if i > 0 { assert Link(catalog, required.Some?, rest, i - 1); }
    }
    forall i, j | 0 <= i < j < |chain| - 1 ensures chain[i] != chain[j] {
      assert chain[j] == rest[j - 1] && Link(catalog, required.Some?, rest, j - 1);
      assert c in path + [c];
    }
    forall i | 0 <= i < |chain| - 1 && chain[i].ViewColumn? ensures chain[i].column !in path {
      if i > 0 { assert chain[i] == rest[i - 1]; }
    }
    assert SimpleChain(catalog, required, ViewColumn(c), chain, path);
  }

  // ---- Cutting repeated view columns loses nothing ----

  /** Removing the stretch between two equal elements of a chain leaves a shorter chain. */
  lemma CutLoop(catalog: Catalog, required: Option<Column>, s: Source, chain: seq<Source>, i: nat, j: nat)
    requires WellFormedCatalog(catalog) && Chain(catalog, required, s, chain)
    requires i < j < |chain| - 1 && chain[i] == chain[j]
    ensures Chain(catalog, required, s, chain[..i] + chain[j..])
  {
    var cut := chain[..i] + chain[j..];
    forall k | 0 <= k < |cut| - 1 ensures Link(catalog, required.Some?, cut, k) {
      var k' := if k < i then k else k - i + j;
      assert Link(catalog, required.Some?, chain, k');
    }
  }

  lemma {:induction false} EveryChainShortens(catalog: Catalog, required: Option<Column>, s: Source, chain: seq<Source>)
    requires WellFormedCatalog(catalog)
    requires Chain(catalog, required, s, chain) && |chain| - 1 <= MAX_VIEW_DEPTH
    ensures Reaches(catalog, required, s, [])
    decreases |chain|
  {
    if i, j :| 0 <= i < j < |chain| - 1 && chain[i] == chain[j] {
      CutLoop(catalog, required, s, chain, i, j);
      EveryChainShortens(catalog, required, s, chain[..i] + chain[j..]);
    } else {
      assert SimpleChain(catalog, required, s, chain, []);
    }
  }

  /** The path cut changes no answer: a simple chain exists exactly when any chain of at most 64 expansions does. */
  lemma PathCutIsExact(catalog: Catalog, required: Option<Column>, s: Source)
    requires WellFormedCatalog(catalog)
    ensures Reaches(catalog, required, s, [])
       <==> exists chain :: Chain(catalog, required, s, chain) && |chain| - 1 <= MAX_VIEW_DEPTH
  {
    if chain :| Chain(catalog, required, s, chain) && |chain| - 1 <= MAX_VIEW_DEPTH {
      EveryChainShortens(catalog, required, s, chain);
    }
    if Reaches(catalog, required, s, []) {
      var chain :| SimpleChain(catalog, required, s, chain, []);
    }
  }

  // ---- The search itself ----

  /** The mutable vector of view columns being expanded. */
  class LineagePath {
    var entries: seq<Column>

    constructor ()
      ensures entries == []
    {
      entries := [];
    }
  }

  method DirectViewAttribute(catalog: Catalog, c: Column, required: Option<Column>, path: LineagePath) returns (r: bool)
    requires WellFormedCatalog(catalog) && |path.entries| <= MAX_VIEW_DEPTH
    modifies path
    ensures path.entries == old(path.entries)
    ensures r <==> Reaches(catalog, required, ViewColumn(c), path.entries)
    decreases 2 * (MAX_VIEW_DEPTH - |path.entries|)
  {
    ghost var before := path.entries;
    if required == Some(c) {
      assert SimpleChain(catalog, required, ViewColumn(c), [ViewColumn(c)], path.entries);
      return true;
    }
    if Reaches(catalog, required, ViewColumn(c), before) {
      ReachesUnfold(catalog, required, c, before);
    }
    if |path.entries| >= MAX_VIEW_DEPTH || c in path.entries {
      return false;
    }
    path.entries := path.entries + [c];
    r := false;
    if c.oid in catalog {
      r := DirectQueryAttribute(catalog, catalog[c.oid], c.attno, required, path);
    }
    path.entries := path.entries[..|path.entries| - 1];
    assert path.entries == before;
    if r {
      ReachesFold(catalog, required, c, before);
    }
  }

  method DirectQueryAttribute(catalog: Catalog, q: Query, attno: int, required: Option<Column>, path: LineagePath)
    returns (r: bool)
    requires WellFormedCatalog(catalog) && WellFormed(q) && |path.entries| <= MAX_VIEW_DEPTH
    modifies path
    ensures path.entries == old(path.entries)
    ensures r <==> ColumnReaches(catalog, required, q, attno, path.entries)
    decreases 2 * (MAX_VIEW_DEPTH - |path.entries|) + 1, q, 3, 0
  {
    if attno <= 0 {
      return false;
    }
    var target := TargetExpr(q, attno);
    if target.None? {
      return false;
    }
    r := DirectExpressionMatches(catalog, q, target.value, required, path);
    MatchesIsColumn(catalog, q, attno, required, path.entries);
  }

  /** Some member of the expression's equality class reaches the goal. */
  ghost predicate ClassReaches(catalog: Catalog, required: Option<Column>, q: Query, e: Expr, path: seq<Column>)
    requires WellFormedCatalog(catalog) && WellFormed(q)
  {
    var k := ResolveKey(q, e);
    k.Some? && exists k' :: SameClass(q, required.Some?, k.value, k') && KeyReaches(catalog, required, q, k', path)
  }

  lemma MatchesIsColumn(catalog: Catalog, q: Query, attno: int, required: Option<Column>, path: seq<Column>)
    requires WellFormedCatalog(catalog) && WellFormed(q)
    requires attno > 0 && TargetExpr(q, attno).Some?
    ensures ColumnReaches(catalog, required, q, attno, path)
       <==> ClassReaches(catalog, required, q, TargetExpr(q, attno).value, path)
  {
    var e := TargetExpr(q, attno).value;
    if ClassReaches(catalog, required, q, e, path) {
      var k' :| SameClass(q, required.Some?, ResolveKey(q, e).value, k') && KeyReaches(catalog, required, q, k', path);
      var s :| KeySource(q, k', required.Some?, s) && Reaches(catalog, required, s, path);
      assert ColumnSource(q, attno, required.Some?, s);
    }
    if ColumnReaches(catalog, required, q, attno, path) {
      var s :| ColumnSource(q, attno, required.Some?, s) && Reaches(catalog, required, s, path);
      var k' :| SameClass(q, required.Some?, ResolveKey(q, e).value, k') && KeySource(q, k', required.Some?, s);
      assert KeyReaches(catalog, required, q, k', path);
    }
  }

  /** The direct expression first, then every other member of its equality class. */
  method DirectExpressionMatches(catalog: Catalog, q: Query, e: Expr, required: Option<Column>, path: LineagePath)
    returns (r: bool)
    requires WellFormedCatalog(catalog) && WellFormed(q) && |path.entries| <= MAX_VIEW_DEPTH
    modifies path
    ensures path.entries == old(path.entries)
    ensures r <==> ClassReaches(catalog, required, q, e, path.entries)
    decreases 2 * (MAX_VIEW_DEPTH - |path.entries|) + 1, q, 2, 0
  {
    ghost var entries := path.entries;
    var direct := DirectExpression(catalog, q, e, required, path);
    var start := ResolveKey(q, e);
    if direct {
      ConnectedRefl(JoinTreeEqualities(q), start.value);
      return true;
    }
    if required.None? || start.None? {
      return false;
    }
    var collector := new EqualityCollector();
    collector.CollectFrom(q, q.jointree);
    assert collector.output == JoinTreeEqualities(q);
    var equivalents := Equivalents(collector.output, start.value);
    r := false;
    for index := 1 to |equivalents|
      invariant path.entries == entries && !r
      invariant forall i :: 0 <= i < index ==> !KeyReaches(catalog, required, q, equivalents[i], entries)
    {
      assert Connected(JoinTreeEqualities(q), start.value, equivalents[index]);
      ResolvedClass(q, start.value, equivalents[index]);
      r := DirectVariable(catalog, q, equivalents[index], required, path);
      if r {
        return;
      }
    }
    assert forall k' :: SameClass(q, true, start.value, k') ==> k' in equivalents;
  }

  /** Class members are non-join columns, so following one never goes through a join alias again. */
  lemma ResolvedClass(q: Query, k: VarKey, k': VarKey)
    requires AliasesDescend(q) && Connected(JoinTreeEqualities(q), k, k')
    requires Resolved(q, k)
    ensures Resolved(q, k')
  {
    var walk :| WalkBetween(JoinTreeEqualities(q), walk, k, k');
    if |walk| > 1 {
      assert Adjacent(JoinTreeEqualities(q), walk[|walk| - 2], walk[|walk| - 1]);
      FromEqualitiesResolved(q, q.jointree);
    }
  }

  ghost predicate Resolved(q: Query, k: VarKey) {
    InRange(q, k.varno) && k.attno > 0 && !q.rtable[k.varno - 1].Join?
  }

  ghost predicate AllResolved(q: Query, equalities: seq<Equality>) {
    forall e :: e in equalities ==> Resolved(q, e.0) && Resolved(q, e.1)
  }

  lemma {:induction false} QualEqualitiesResolved(q: Query, qual: Expr)
    requires AliasesDescend(q)
    ensures AllResolved(q, QualEqualities(q, qual))
    decreases qual, 0
  {
    if qual.BoolExpr? {
      QualListEqualitiesResolved(q, qual.conds, |qual.conds|);
    }
  }

  lemma {:induction false} QualListEqualitiesResolved(q: Query, quals: seq<Expr>, n: nat)
    requires AliasesDescend(q) && n <= |quals|
    ensures AllResolved(q, QualListEqualities(q, quals, n))
    decreases quals, n
  {
    if n > 0 {
      QualListEqualitiesResolved(q, quals, n - 1);
      QualEqualitiesResolved(q, quals[n - 1]);
    }
  }

  lemma {:induction false} FromEqualitiesResolved(q: Query, node: FromNode)
    requires AliasesDescend(q)
    ensures AllResolved(q, FromEqualities(q, node))
    decreases node, 0
  {
    match node
    case FromExpr(fromlist, quals) =>
      FromListEqualitiesResolved(q, fromlist, |fromlist|);
      if quals.Some? { QualEqualitiesResolved(q, quals.value); }
    case JoinExpr(_, larg, rarg, quals, _) =>
      FromEqualitiesResolved(q, larg);
      FromEqualitiesResolved(q, rarg);
      if quals.Some? { QualEqualitiesResolved(q, quals.value); }
    case RangeTblRef(_) =>
  }

  lemma {:induction false} FromListEqualitiesResolved(q: Query, nodes: seq<FromNode>, n: nat)
    requires AliasesDescend(q) && n <= |nodes|
    ensures AllResolved(q, FromListEqualities(q, nodes, n))
    decreases nodes, n
  {
    if n > 0 {
      FromListEqualitiesResolved(q, nodes, n - 1);
      FromEqualitiesResolved(q, nodes[n - 1]);
    }
  }

  method DirectExpression(catalog: Catalog, q: Query, e: Expr, required: Option<Column>, path: LineagePath)
    returns (r: bool)
    requires WellFormedCatalog(catalog) && WellFormed(q) && |path.entries| <= MAX_VIEW_DEPTH
    modifies path
    ensures path.entries == old(path.entries)
    ensures r <==> ExprReaches(catalog, required, q, e, path.entries)
    decreases 2 * (MAX_VIEW_DEPTH - |path.entries|) + 1, q, 1, if e.Var? && e.varno > 0 then 2 * e.varno + 1 else 0
  {
    if !e.Var? || e.levelsup != 0 || e.varno <= 0 || e.varattno <= 0 {
      return false;
    }
    r := DirectVariable(catalog, q, VarKey(e.varno, e.varattno), required, path);
  }

  method DirectVariable(catalog: Catalog, q: Query, k: VarKey, required: Option<Column>, path: LineagePath)
    returns (r: bool)
    requires WellFormedCatalog(catalog) && WellFormed(q) && |path.entries| <= MAX_VIEW_DEPTH
    requires k.varno > 0 && k.attno > 0
    modifies path
    ensures path.entries == old(path.entries)
    ensures r <==> ExprReaches(catalog, required, q, Var(k.varno, k.attno, 0), path.entries)
    decreases 2 * (MAX_VIEW_DEPTH - |path.entries|) + 1, q, 1, 2 * k.varno
  {
    if !InRange(q, k.varno) {
      return false;
    }
    match q.rtable[k.varno - 1] {
      case Relation(_, relid, kind) =>
        if IsViewKind(kind) {
          r := DirectViewAttribute(catalog, Column(relid, k.attno), required, path);
        } else {
          r := required.None?;
          ReachesBase(catalog, required, path.entries);
        }
      case Subquery(_, subquery) =>
        r := DirectQueryAttribute(catalog, subquery, k.attno, required, path);
      case Join(_, aliases) =>
        if k.attno > |aliases| {
          return false;
        }
        assert AliasBelow(aliases[k.attno - 1], k.varno - 1);
        r := DirectExpression(catalog, q, aliases[k.attno - 1], required, path);
      case CteRef(_, name, ctelevelsup) =>
        if ctelevelsup != 0 {
          return false;
        }
        r := DirectCteAttribute(catalog, q, name, k, required, path);
      case OtherEntry(_) =>
        r := false;
    }
  }

  method DirectCteAttribute(catalog: Catalog, q: Query, name: string, k: VarKey, required: Option<Column>,
                            path: LineagePath)
    returns (r: bool)
    requires WellFormedCatalog(catalog) && WellFormed(q) && |path.entries| <= MAX_VIEW_DEPTH
    requires InRange(q, k.varno) && q.rtable[k.varno - 1].CteRef? && q.rtable[k.varno - 1].ctelevelsup == 0
    requires q.rtable[k.varno - 1].name == name
    modifies path
    ensures path.entries == old(path.entries)
    ensures r <==> KeyReaches(catalog, required, q, k, path.entries)
    decreases 2 * (MAX_VIEW_DEPTH - |path.entries|) + 1, q, 0, 0
  {
    ghost var entries := path.entries;
    r := false;
    for index := 0 to |q.ctes|
      invariant path.entries == entries && !r
      invariant forall i :: 0 <= i < index && NamedCte(q.ctes[i], name) ==>
        !ColumnReaches(catalog, required, q.ctes[i].query.value, k.attno, entries)
    {
      var cte := q.ctes[index];
      if cte.recursive || cte.name != name || cte.query.None? {
        continue;
      }
      r := DirectQueryAttribute(catalog, cte.query.value, k.attno, required, path);
      if r {
        return;
      }
    }
  }

  /** view_key_is_direct after its argument check, without the key-wrapper shortcut. */
  method ViewKeyIsDirect(catalog: Catalog, view: Oid, attno: int) returns (r: bool)
    requires WellFormedCatalog(catalog)
    ensures r <==>
      && attno > 0
      && exists chain ::
           && Chain(catalog, None, ViewColumn(Column(view, attno)), chain)
           && |chain| - 1 <= MAX_VIEW_DEPTH
  {
    if attno <= 0 {
      return false;
    }
    var path := new LineagePath();
    r := DirectViewAttribute(catalog, Column(view, attno), None, path);
    PathCutIsExact(catalog, None, ViewColumn(Column(view, attno)));
  }
}
