// What a lineage answer means: over inner joins, WHERE and no set operations or grouping, every
// value of the key column occurs in the required view's column.

module LineageSemantics {
  import opened Basics
  import opened ParseTree
  import opened Equalities
  import opened Lineage
  import opened Occurrences

  // ---- A denotational semantics of stored queries ----

  datatype Value = Null | Bool(b: bool) | Datum(n: int)

  /** A row gives its attributes values; an attribute it does not list is null. */
  type Row = map<int, Value>

  function Attribute(row: Row, attno: int): Value {
    if attno in row then row[attno] else Null
  }

  /** One row for every range-table entry of a query. */
  type Env = seq<Row>

  /** The rows of every relation, views and materialized views included. */
  type Database = Oid -> iset<Row>

  /** The meaning of operators and of the expressions that the analysis treats as black boxes. */
  datatype Interpretation = Interpretation(
    op: (nat, bool, seq<Value>) -> Value,
    other: (nat, seq<Value>) -> Value,
    subquery: (Query, seq<Value>, seq<Env>) -> Value)

  /** A true hash-joinable operator equates its arguments. */
  ghost predicate Lawful(I: Interpretation) {
    forall opno, x, y :: I.op(opno, true, [x, y]) == Bool(true) ==> x == y
  }

  /** envs holds the environment of the query itself, then those of the enclosing queries. */
  ghost function Eval(I: Interpretation, e: Expr, envs: seq<Env>): Value
    decreases e
  {
    match e
    case Var(varno, attno, level) =>
      if level < |envs| && 1 <= varno <= |envs[level]| then Attribute(envs[level][varno - 1], attno) else Null
    case OpExpr(opno, hashJoinable, args) => I.op(opno, hashJoinable, EvalAll(I, args, envs))
    case BoolExpr(kind, conds) =>
      var values := EvalAll(I, conds, envs);
      (match kind
       case And =>
         if forall i :: 0 <= i < |values| ==> values[i] == Bool(true) then Bool(true)
         else if Bool(false) in values then Bool(false) else Null
       case Or =>
         if Bool(true) in values then Bool(true)
         else if forall i :: 0 <= i < |values| ==> values[i] == Bool(false) then Bool(false) else Null
       case Not => if |values| == 1 && values[0].Bool? then Bool(!values[0].b) else Null)
    case SubLink(test, subselect) => I.subquery(subselect, EvalAll(I, test, envs), envs)
    case OtherExpr(id, children) => I.other(id, EvalAll(I, children, envs))
  }

  ghost function EvalAll(I: Interpretation, es: seq<Expr>, envs: seq<Env>): (values: seq<Value>)
    ensures |values| == |es|
    ensures forall i :: 0 <= i < |es| ==> values[i] == Eval(I, es[i], envs)
    decreases es
  {
    if es == [] then [] else [Eval(I, es[0], envs)] + EvalAll(I, es[1..], envs)
  }

  ghost predicate Holds(I: Interpretation, quals: Option<Expr>, envs: seq<Env>) {
    quals.Some? ==> Eval(I, quals.value, envs) == Bool(true)
  }

  /** Range-table entry i of q can deliver the row that env gives it. */
  ghost predicate EntryDelivers(I: Interpretation, db: Database, q: Query, i: int, env: Env, outer: seq<Env>)
    requires |env| == |q.rtable|
    decreases q, 0
  {
    0 <= i < |q.rtable| &&
    match q.rtable[i]
    case Relation(_, relid, _) => env[i] in db(relid)
    case Subquery(_, subquery) => Produces(I, db, subquery, env[i], [env] + outer)
    case CteRef(_, name, 0) =>
      (forall j :: 0 <= j < |q.ctes| && q.ctes[j].name == name && !q.ctes[j].recursive && q.ctes[j].query.Some? ==>
         Produces(I, db, q.ctes[j].query.value, env[i], [env] + outer))
    case _ => true
  }

  /** The range-table numbers that occur in a join tree. */
  ghost predicate InTree(node: FromNode, varno: int)
    decreases node
  {
    match node
    case FromExpr(fromlist, _) => exists i :: 0 <= i < |fromlist| && InTree(fromlist[i], varno)
    case JoinExpr(_, larg, rarg, _, _) => InTree(larg, varno) || InTree(rarg, varno)
    case RangeTblRef(rtindex) => rtindex == varno
  }

  ghost predicate NullExtended(node: FromNode, env: Env) {
    forall i :: 0 <= i < |env| && InTree(node, i + 1) ==> env[i] == map[]
  }

  /** The range-table numbers of the joins in a join tree. */
  ghost predicate JoinInTree(node: FromNode, varno: int)
    decreases node
  {
    match node
    case FromExpr(fromlist, _) => exists i :: 0 <= i < |fromlist| && JoinInTree(fromlist[i], varno)
    case JoinExpr(_, larg, rarg, _, joinindex) => joinindex == varno || JoinInTree(larg, varno)
      || JoinInTree(rarg, varno)
    case RangeTblRef(_) => false
  }

  /** env' differs from env only on the entries under node, and its join entries follow their aliases. */
  ghost predicate VariesUnder(I: Interpretation, q: Query, node: FromNode, env: Env, env': Env, outer: seq<Env>)
    requires |env| == |q.rtable|
  {
    && |env'| == |env| && AliasesHold(I, q, env', outer)
    && forall i :: 0 <= i < |env| && !InTree(node, i + 1) && !JoinInTree(node, i + 1) ==> env'[i] == env[i]
  }

  /** env is one of the combinations that the join tree lets through. */
  ghost predicate Joined(I: Interpretation, db: Database, q: Query, node: FromNode, env: Env, outer: seq<Env>)
    requires |env| == |q.rtable|
    decreases q, 1, node
  {
    match node
    case FromExpr(fromlist, quals) =>
      && (forall i :: 0 <= i < |fromlist| ==> Joined(I, db, q, fromlist[i], env, outer))
      && Holds(I, quals, [env] + outer)
    case RangeTblRef(rtindex) => EntryDelivers(I, db, q, rtindex - 1, env, outer)
    case JoinExpr(jointype, larg, rarg, quals, _) =>
      || (Joined(I, db, q, larg, env, outer) && Joined(I, db, q, rarg, env, outer) && Holds(I, quals, [env] + outer))
      || (&& (jointype == Left || jointype == Full)
          && Joined(I, db, q, larg, env, outer) && NullExtended(rarg, env)
          && forall env' :: VariesUnder(I, q, rarg, env, env', outer) && Joined(I, db, q, rarg, env', outer) ==>
                              !Holds(I, quals, [env'] + outer))
      || (&& (jointype == Right || jointype == Full)
          && Joined(I, db, q, rarg, env, outer) && NullExtended(larg, env)
          && forall env' :: VariesUnder(I, q, larg, env, env', outer) && Joined(I, db, q, larg, env', outer) ==>
                              !Holds(I, quals, [env'] + outer))
  }

  /** The row of a join entry is computed from the join's alias expressions. */
  ghost predicate AliasesHold(I: Interpretation, q: Query, env: Env, outer: seq<Env>)
    requires |env| == |q.rtable|
  {
    forall i, k :: 0 <= i < |q.rtable| && q.rtable[i].Join? && 0 <= k < |q.rtable[i].aliases| ==>
                     AliasHolds(I, q.rtable[i].aliases[k], env, i, k, outer)
  }

  ghost predicate AliasHolds(I: Interpretation, alias: Expr, env: Env, i: nat, k: nat, outer: seq<Env>)
    requires i < |env|
  {
    Attribute(env[i], k + 1) == Eval(I, alias, [env] + outer)
  }

  /** row is the target list evaluated in env. */
  ghost predicate Projects(I: Interpretation, q: Query, row: Row, env: Env, outer: seq<Env>) {
    forall attno :: attno > 0 && TargetExpr(q, attno).Some? ==>
                      Attribute(row, attno) == Eval(I, TargetExpr(q, attno).value, [env] + outer)
  }

  ghost predicate Derives(I: Interpretation, db: Database, q: Query, row: Row, env: Env, outer: seq<Env>)
    decreases q, 2
  {
    && |env| == |q.rtable|
    && Joined(I, db, q, q.jointree, env, outer)
    && AliasesHold(I, q, env, outer)
    && Projects(I, q, row, env, outer)
  }

  /** row is a result row of q; rows of set operations and groupings are left unconstrained. */
  ghost predicate Produces(I: Interpretation, db: Database, q: Query, row: Row, outer: seq<Env>)
    decreases q, 3
  {
    q.shape == SetOperationOrGrouping || exists env :: Derives(I, db, q, row, env, outer)
  }

  /** Every stored view row is a result row of the view's query (materialized views are up to date). */
  ghost predicate Models(I: Interpretation, db: Database, catalog: Catalog) {
    forall oid, row :: oid in catalog && row in db(oid) ==> Produces(I, db, catalog[oid], row, [])
  }

  // ---- What a positive answer should mean ----

  /** value occurs in column c of the database. */
  ghost predicate Occurs(db: Database, c: Column, value: Value) {
    exists row :: row in db(c.oid) && Attribute(row, c.attno) == value
  }

  /** In every database, each value of the view's column occurs in the required column. */
  ghost predicate Sound(catalog: Catalog, column: Column, required: Column) {
    forall I: Interpretation, db: Database, row: Row :: Lawful(I) && Models(I, db, catalog) && row in db(column.oid) ==>
                           Occurs(db, required, Attribute(row, column.attno))
  }

  // ---- Steps that no outer join can spoil ----

  predicate KeepsLeft(jointype: JoinType) {
    jointype == Inner || jointype == Left
  }

  predicate KeepsRight(jointype: JoinType) {
    jointype == Inner || jointype == Right
  }

  /** The entry is in the join tree, and no outer join above it can replace its row by nulls. */
  ghost predicate Preserved(node: FromNode, varno: int)
    decreases node
  {
    match node
    case FromExpr(fromlist, _) => exists i :: 0 <= i < |fromlist| && Preserved(fromlist[i], varno)
    case JoinExpr(jointype, larg, rarg, _, _) =>
      (KeepsLeft(jointype) && Preserved(larg, varno)) || (KeepsRight(jointype) && Preserved(rarg, varno))
    case RangeTblRef(rtindex) => rtindex == varno
  }

  /** The collected equalities, without those of an outer join's own condition and of its nullable sides. */
  function SureEqualities(q: Query, node: FromNode): seq<Equality>
    requires AliasesDescend(q)
    decreases node, 0
  {
    match node
    case FromExpr(fromlist, quals) =>
      SureListEqualities(q, fromlist, |fromlist|) + OptionalQualEqualities(q, quals)
    case JoinExpr(jointype, larg, rarg, quals, _) =>
      (if KeepsLeft(jointype) then SureEqualities(q, larg) else [])
      + (if KeepsRight(jointype) then SureEqualities(q, rarg) else [])
      + (if jointype == Inner then OptionalQualEqualities(q, quals) else [])
    case RangeTblRef(_) => []
  }

  function SureListEqualities(q: Query, nodes: seq<FromNode>, n: nat): seq<Equality>
    requires AliasesDescend(q) && n <= |nodes|
    decreases nodes, n
  {
    if n == 0 then [] else SureListEqualities(q, nodes, n - 1) + SureEqualities(q, nodes[n - 1])
  }

  /** ColumnSource along sure equalities and preserved entries, in select-project-join queries. */
  ghost predicate SureColumn(q: Query, attno: int, s: Source)
    requires WellFormed(q)
    decreases q, 1
  {
    && q.shape == SelectProjectJoin && attno > 0
    && var target := TargetExpr(q, attno);
    && target.Some?
    && var k := ResolveKey(q, target.value);
    && k.Some?
    && exists k' :: Connected(SureEqualities(q, q.jointree), k.value, k') && SureKey(q, k', s)
  }

  ghost predicate SureKey(q: Query, k: VarKey, s: Source)
    requires WellFormed(q)
    decreases q, 0
  {
    InRange(q, k.varno) && Preserved(q.jointree, k.varno) &&
    match q.rtable[k.varno - 1]
    case Relation(_, relid, kind) => s == if IsViewKind(kind) then ViewColumn(Column(relid, k.attno)) else BaseColumn
    case Subquery(_, subquery) => SureColumn(subquery, k.attno, s)
    case CteRef(_, name, 0) =>
      exists i :: 0 <= i < |q.ctes| && NamedCte(q.ctes[i], name) && SureColumn(q.ctes[i].query.value, k.attno, s)
    case _ => false
  }

  ghost predicate SureLink(catalog: Catalog, chain: seq<Source>, i: nat)
    requires WellFormedCatalog(catalog) && i < |chain| - 1
  {
    && chain[i].ViewColumn? && chain[i].column.oid in catalog
    && SureColumn(catalog[chain[i].column.oid], chain[i].column.attno, chain[i + 1])
  }

  /** A lineage chain from one view column to another, all of whose steps are sure. */
  ghost predicate SureChain(catalog: Catalog, column: Column, required: Column, chain: seq<Source>)
    requires WellFormedCatalog(catalog)
  {
    && |chain| > 0 && chain[0] == ViewColumn(column) && chain[|chain| - 1] == ViewColumn(required)
    && forall i :: 0 <= i < |chain| - 1 ==> SureLink(catalog, chain, i)
  }

  ghost predicate SureLineage(catalog: Catalog, column: Column, required: Column)
    requires WellFormedCatalog(catalog)
  {
    exists chain :: SureChain(catalog, column, required, chain)
  }

  // ---- Inner joins have only sure steps ----

  ghost predicate InnerOnly(node: FromNode)
    decreases node
  {
    match node
    case FromExpr(fromlist, _) => forall i :: 0 <= i < |fromlist| ==> InnerOnly(fromlist[i])
    case JoinExpr(jointype, larg, rarg, _, _) => jointype == Inner && InnerOnly(larg) && InnerOnly(rarg)
    case RangeTblRef(_) => true
  }

  /** k is read by the query: it is what a target or an equality qual stands for. */
  ghost predicate Used(q: Query, k: VarKey)
    requires AliasesDescend(q)
  {
    || (exists attno :: TargetExpr(q, attno).Some? && ResolveKey(q, TargetExpr(q, attno).value) == Some(k))
    || (exists e :: e in JoinTreeEqualities(q) && (e.0 == k || e.1 == k))
  }

  /** Select, project and inner join, over entries of the join tree, at every level. */
  ghost predicate Covered(q: Query)
    requires WellFormed(q)
    decreases q
  {
    && q.shape == SelectProjectJoin && InnerOnly(q.jointree)
    && (forall k :: Used(q, k) ==> InTree(q.jointree, k.varno))
    && (forall i :: 0 <= i < |q.rtable| && q.rtable[i].Subquery? ==> Covered(q.rtable[i].subquery))
    && (forall i :: 0 <= i < |q.ctes| && q.ctes[i].query.Some? ==> Covered(q.ctes[i].query.value))
  }

  /** Every view that a lineage chain expands is covered; other views may be anything. */
  ghost predicate ExpandedCovered(catalog: Catalog, column: Column, required: Column)
    requires WellFormedCatalog(catalog)
  {
    forall chain :: Chain(catalog, Some(required), ViewColumn(column), chain) ==> AllCovered(catalog, chain)
  }

  ghost predicate AllCovered(catalog: Catalog, chain: seq<Source>)
    requires WellFormedCatalog(catalog)
  {
    forall i :: 0 <= i < |chain| - 1 ==>
      chain[i].ViewColumn? && chain[i].column.oid in catalog && Covered(catalog[chain[i].column.oid])
  }

  lemma {:induction false} InnerEqualitiesSure(q: Query, node: FromNode)
    requires AliasesDescend(q) && InnerOnly(node)
    ensures SureEqualities(q, node) == FromEqualities(q, node)
    decreases node, 0
  {
    match node
    case FromExpr(fromlist, _) => InnerListSure(q, fromlist, |fromlist|);
    case JoinExpr(_, larg, rarg, _, _) =>
      InnerEqualitiesSure(q, larg);
      InnerEqualitiesSure(q, rarg);
    case RangeTblRef(_) =>
  }

  lemma {:induction false} InnerListSure(q: Query, nodes: seq<FromNode>, n: nat)
    requires AliasesDescend(q) && n <= |nodes| && forall i :: 0 <= i < n ==> InnerOnly(nodes[i])
    ensures SureListEqualities(q, nodes, n) == FromListEqualities(q, nodes, n)
    decreases nodes, n
  {
    if n > 0 {
      InnerListSure(q, nodes, n - 1);
      InnerEqualitiesSure(q, nodes[n - 1]);
    }
  }

  lemma {:induction false} InnerPreserves(node: FromNode, varno: int)
    requires InnerOnly(node) && InTree(node, varno)
    ensures Preserved(node, varno)
    decreases node
  {
    match node
    case FromExpr(fromlist, _) =>
      var i :| 0 <= i < |fromlist| && InTree(fromlist[i], varno);
      InnerPreserves(fromlist[i], varno);
    case JoinExpr(_, larg, rarg, _, _) =>
      InnerPreserves(if InTree(larg, varno) then larg else rarg, varno);
    case RangeTblRef(_) =>
  }

  lemma {:induction false} CoveredIsSure(q: Query, attno: int, s: Source)
    requires WellFormed(q) && Covered(q) && ColumnSource(q, attno, true, s)
    ensures SureColumn(q, attno, s)
    decreases q, 1
  {
    var k := ResolveKey(q, TargetExpr(q, attno).value).value;
    var k' :| SameClass(q, true, k, k') && KeySource(q, k', true, s);
    var walk :| WalkBetween(JoinTreeEqualities(q), walk, k, k');
    ClassUsed(q, attno, k, k', walk);
    InnerEqualitiesSure(q, q.jointree);
    InnerPreserves(q.jointree, k'.varno);
    CoveredKeyIsSure(q, k', s);
  }

  lemma {:induction false} CoveredKeyIsSure(q: Query, k: VarKey, s: Source)
    requires WellFormed(q) && Covered(q) && KeySource(q, k, true, s) && Preserved(q.jointree, k.varno)
    ensures SureKey(q, k, s)
    decreases q, 0
  {
    match q.rtable[k.varno - 1]
    case Subquery(_, subquery) => CoveredIsSure(subquery, k.attno, s);
    case CteRef(_, name, 0) =>
      var i :| 0 <= i < |q.ctes| && NamedCte(q.ctes[i], name) && ColumnSource(q.ctes[i].query.value, k.attno, true, s);
      CoveredIsSure(q.ctes[i].query.value, k.attno, s);
    case _ =>
  }

  lemma CoveredChainIsSure(catalog: Catalog, column: Column, required: Column, chain: seq<Source>)
    requires WellFormedCatalog(catalog) && ExpandedCovered(catalog, column, required)
    requires Chain(catalog, Some(required), ViewColumn(column), chain)
    ensures SureChain(catalog, column, required, chain)
  {
    forall i | 0 <= i < |chain| - 1 ensures SureLink(catalog, chain, i) {
      assert Link(catalog, true, chain, i);
      CoveredIsSure(catalog[chain[i].column.oid], chain[i].column.attno, chain[i + 1]);
    }
  }

  // ---- A sure chain is a chain that the search accepts ----

  lemma {:induction false} SureAreCollected(q: Query, node: FromNode, e: Equality)
    requires AliasesDescend(q) && e in SureEqualities(q, node)
    ensures e in FromEqualities(q, node)
    decreases node, 0
  {
    match node
    case FromExpr(fromlist, quals) =>
      if e in SureListEqualities(q, fromlist, |fromlist|) { SureListCollected(q, fromlist, |fromlist|, e); }
    case JoinExpr(jointype, larg, rarg, quals, _) =>
      if KeepsLeft(jointype) && e in SureEqualities(q, larg) { SureAreCollected(q, larg, e); }
      if KeepsRight(jointype) && e in SureEqualities(q, rarg) { SureAreCollected(q, rarg, e); }
    case RangeTblRef(_) =>
  }

  lemma {:induction false} SureListCollected(q: Query, nodes: seq<FromNode>, n: nat, e: Equality)
    requires AliasesDescend(q) && n <= |nodes| && e in SureListEqualities(q, nodes, n)
    ensures e in FromListEqualities(q, nodes, n)
    decreases nodes, n
  {
    if n > 0 {
      if e in SureListEqualities(q, nodes, n - 1) {
        SureListCollected(q, nodes, n - 1, e);
      } else {
        SureAreCollected(q, nodes[n - 1], e);
      }
    }
  }

  lemma ConnectedMore(fewer: seq<Equality>, more: seq<Equality>, x: VarKey, y: VarKey)
    requires Connected(fewer, x, y) && forall e :: e in fewer ==> e in more
    ensures Connected(more, x, y)
  {
    var walk :| WalkBetween(fewer, walk, x, y);
    forall i | 0 < i < |walk| ensures Adjacent(more, walk[i - 1], walk[i]) {
      assert Adjacent(fewer, walk[i - 1], walk[i]);
    }
    assert WalkBetween(more, walk, x, y);
  }

  lemma {:induction false} SureIsSource(q: Query, attno: int, s: Source)
    requires WellFormed(q) && SureColumn(q, attno, s)
    ensures ColumnSource(q, attno, true, s)
    decreases q, 1
  {
    var sure, k := SureEqualities(q, q.jointree), ResolveKey(q, TargetExpr(q, attno).value).value;
    var k' :| Connected(sure, k, k') && SureKey(q, k', s);
    forall e | e in sure ensures e in JoinTreeEqualities(q) {
      SureAreCollected(q, q.jointree, e);
    }
    ConnectedMore(sure, JoinTreeEqualities(q), k, k');
    SureKeyIsSource(q, k', s);
    assert SameClass(q, true, k, k');
  }

  lemma {:induction false} SureKeyIsSource(q: Query, k: VarKey, s: Source)
    requires WellFormed(q) && SureKey(q, k, s)
    ensures KeySource(q, k, true, s)
    decreases q, 0
  {
    match q.rtable[k.varno - 1]
    case Subquery(_, subquery) => SureIsSource(subquery, k.attno, s);
    case CteRef(_, name, 0) =>
      var i :| 0 <= i < |q.ctes| && NamedCte(q.ctes[i], name) && SureColumn(q.ctes[i].query.value, k.attno, s);
      SureIsSource(q.ctes[i].query.value, k.attno, s);
    case _ =>
  }

  lemma SureChainIsChain(catalog: Catalog, column: Column, required: Column, chain: seq<Source>)
    requires WellFormedCatalog(catalog) && SureChain(catalog, column, required, chain)
    ensures Chain(catalog, Some(required), ViewColumn(column), chain)
  {
    forall i | 0 <= i < |chain| - 1 ensures Link(catalog, true, chain, i) {
      assert SureLink(catalog, chain, i);
      SureIsSource(catalog[chain[i].column.oid], chain[i].column.attno, chain[i + 1]);
    }
  }

  // ---- Soundness inside one query ----

  function KeyValue(env: Env, k: VarKey): Value {
    if 1 <= k.varno <= |env| then Attribute(env[k.varno - 1], k.attno) else Null
  }

  lemma {:induction false} ResolveSound(I: Interpretation, q: Query, e: Expr, env: Env, outer: seq<Env>)
    requires AliasesDescend(q) && |env| == |q.rtable| && AliasesHold(I, q, env, outer)
    requires ResolveKey(q, e).Some?
    ensures Eval(I, e, [env] + outer) == KeyValue(env, ResolveKey(q, e).value)
    decreases if e.Var? then e.varno else 0
  {
    var i := e.varno - 1;
    if q.rtable[i].Join? {
      var alias := q.rtable[i].aliases[e.varattno - 1];
      assert AliasBelow(alias, i);
      assert AliasHolds(I, alias, env, i, e.varattno - 1, outer);
      ResolveSound(I, q, alias, env, outer);
    }
  }

  ghost predicate Agree(env: Env, equalities: seq<Equality>) {
    forall e :: e in equalities ==> KeyValue(env, e.0) == KeyValue(env, e.1)
  }

  lemma {:induction false} QualSound(I: Interpretation, q: Query, qual: Expr, env: Env, outer: seq<Env>)
    requires Lawful(I) && AliasesDescend(q) && |env| == |q.rtable| && AliasesHold(I, q, env, outer)
    requires Eval(I, qual, [env] + outer) == Bool(true)
    ensures Agree(env, QualEqualities(q, qual))
    decreases qual, 0
  {
    match qual
    case BoolExpr(And, conds) => QualListSound(I, q, conds, |conds|, env, outer);
    case OpExpr(opno, hashJoinable, args) =>
      if |args| == 2 && hashJoinable && ResolveKey(q, args[0]).Some? && ResolveKey(q, args[1]).Some? {
        ResolveSound(I, q, args[0], env, outer);
        ResolveSound(I, q, args[1], env, outer);
        var values := EvalAll(I, args, [env] + outer);
        assert values == [values[0], values[1]];
      }
    case _ =>
  }

  lemma {:induction false} QualListSound(I: Interpretation, q: Query, quals: seq<Expr>, n: nat, env: Env,
                                         outer: seq<Env>)
    requires Lawful(I) && AliasesDescend(q) && |env| == |q.rtable| && AliasesHold(I, q, env, outer)
    requires n <= |quals| && forall i :: 0 <= i < n ==> Eval(I, quals[i], [env] + outer) == Bool(true)
    ensures Agree(env, QualListEqualities(q, quals, n))
    decreases quals, n
  {
    if n > 0 {
      QualListSound(I, q, quals, n - 1, env, outer);
      QualSound(I, q, quals[n - 1], env, outer);
    }
  }

  lemma {:induction false} FromSound(I: Interpretation, db: Database, q: Query, node: FromNode, env: Env,
                                     outer: seq<Env>)
    requires Lawful(I) && AliasesDescend(q) && |env| == |q.rtable| && AliasesHold(I, q, env, outer)
    requires Joined(I, db, q, node, env, outer)
    ensures Agree(env, SureEqualities(q, node))
    decreases node, 0
  {
    match node
    case FromExpr(fromlist, quals) =>
      FromListSound(I, db, q, fromlist, |fromlist|, env, outer);
      if quals.Some? { QualSound(I, q, quals.value, env, outer); }
    case JoinExpr(jointype, larg, rarg, quals, _) =>
      if KeepsLeft(jointype) { FromSound(I, db, q, larg, env, outer); }
      if KeepsRight(jointype) { FromSound(I, db, q, rarg, env, outer); }
      if jointype == Inner && quals.Some? { QualSound(I, q, quals.value, env, outer); }
    case RangeTblRef(_) =>
  }

  lemma {:induction false} FromListSound(I: Interpretation, db: Database, q: Query, nodes: seq<FromNode>, n: nat,
                                         env: Env, outer: seq<Env>)
    requires Lawful(I) && AliasesDescend(q) && |env| == |q.rtable| && AliasesHold(I, q, env, outer)
    requires n <= |nodes| && forall i :: 0 <= i < n ==> Joined(I, db, q, nodes[i], env, outer)
    ensures Agree(env, SureListEqualities(q, nodes, n))
    decreases nodes, n
  {
    if n > 0 {
      FromListSound(I, db, q, nodes, n - 1, env, outer);
      FromSound(I, db, q, nodes[n - 1], env, outer);
    }
  }

  /** All members of an equality class have one value. */
  lemma {:induction false} WalkSound(env: Env, equalities: seq<Equality>, walk: seq<VarKey>)
    requires Agree(env, equalities) && IsWalk(equalities, walk)
    ensures KeyValue(env, walk[0]) == KeyValue(env, walk[|walk| - 1])
  {
    if |walk| > 1 {
      WalkSound(env, equalities, walk[..|walk| - 1]);
      assert Adjacent(equalities, walk[|walk| - 2], walk[|walk| - 1]);
    }
  }

  lemma {:induction false} TreeDelivers(I: Interpretation, db: Database, q: Query, node: FromNode, env: Env,
                                        outer: seq<Env>, varno: int)
    requires |env| == |q.rtable| && Joined(I, db, q, node, env, outer) && Preserved(node, varno)
    ensures EntryDelivers(I, db, q, varno - 1, env, outer)
    decreases node
  {
    match node
    case FromExpr(fromlist, _) =>
      var i :| 0 <= i < |fromlist| && Preserved(fromlist[i], varno);
      TreeDelivers(I, db, q, fromlist[i], env, outer, varno);
    case JoinExpr(jointype, larg, rarg, _, _) =>
      TreeDelivers(I, db, q, if KeepsLeft(jointype) && Preserved(larg, varno) then larg else rarg, env, outer, varno);
    case RangeTblRef(_) =>
  }

  lemma {:induction false} ColumnSound(I: Interpretation, db: Database, q: Query, attno: int, s: Source, row: Row,
                                       outer: seq<Env>)
    requires Lawful(I) && WellFormed(q) && Produces(I, db, q, row, outer)
    requires SureColumn(q, attno, s) && s.ViewColumn?
    ensures Occurs(db, s.column, Attribute(row, attno))
    decreases q, 1
  {
    var env :| Derives(I, db, q, row, env, outer);
    var k := ResolveKey(q, TargetExpr(q, attno).value).value;
    var k' :| Connected(SureEqualities(q, q.jointree), k, k') && SureKey(q, k', s);
    ClassSound(I, db, q, attno, k, k', row, env, outer);
    TreeDelivers(I, db, q, q.jointree, env, outer, k'.varno);
    KeySound(I, db, q, k', s, env, outer);
  }

  /** Every member of the target's sure equality class holds the target's value. */
  lemma ClassSound(I: Interpretation, db: Database, q: Query, attno: int, k: VarKey, k': VarKey, row: Row, env: Env,
                   outer: seq<Env>)
    requires Lawful(I) && AliasesDescend(q) && Derives(I, db, q, row, env, outer)
    requires attno > 0 && TargetExpr(q, attno).Some? && ResolveKey(q, TargetExpr(q, attno).value) == Some(k)
    requires Connected(SureEqualities(q, q.jointree), k, k')
    ensures Attribute(row, attno) == KeyValue(env, k')
  {
    ResolveSound(I, q, TargetExpr(q, attno).value, env, outer);
    FromSound(I, db, q, q.jointree, env, outer);
    var walk :| WalkBetween(SureEqualities(q, q.jointree), walk, k, k');
    WalkSound(env, SureEqualities(q, q.jointree), walk);
  }

  lemma ClassUsed(q: Query, attno: int, k: VarKey, k': VarKey, walk: seq<VarKey>)
    requires AliasesDescend(q) && TargetExpr(q, attno).Some? && ResolveKey(q, TargetExpr(q, attno).value) == Some(k)
    requires WalkBetween(JoinTreeEqualities(q), walk, k, k')
    ensures Used(q, k')
  {
    if |walk| > 1 {
      assert Adjacent(JoinTreeEqualities(q), walk[|walk| - 2], walk[|walk| - 1]);
    }
  }

  lemma {:induction false} KeySound(I: Interpretation, db: Database, q: Query, k: VarKey, s: Source, env: Env,
                                    outer: seq<Env>)
    requires Lawful(I) && WellFormed(q) && |env| == |q.rtable| && SureKey(q, k, s) && s.ViewColumn?
    requires EntryDelivers(I, db, q, k.varno - 1, env, outer)
    ensures Occurs(db, s.column, KeyValue(env, k))
    decreases q, 0
  {
    match q.rtable[k.varno - 1]
    case Relation(_, _, _) =>
    case Subquery(_, subquery) => ColumnSound(I, db, subquery, k.attno, s, env[k.varno - 1], [env] + outer);
    case CteRef(_, _, _) => CteSound(I, db, q, k, s, env, outer);
  }

  lemma {:induction false} CteSound(I: Interpretation, db: Database, q: Query, k: VarKey, s: Source, env: Env,
                                    outer: seq<Env>)
    requires Lawful(I) && WellFormed(q) && |env| == |q.rtable| && SureKey(q, k, s) && s.ViewColumn?
    requires EntryDelivers(I, db, q, k.varno - 1, env, outer) && q.rtable[k.varno - 1].CteRef?
    ensures Occurs(db, s.column, KeyValue(env, k))
    decreases q, 0, 0
  {
    var name := q.rtable[k.varno - 1].name;
    var i :| 0 <= i < |q.ctes| && NamedCte(q.ctes[i], name) && SureColumn(q.ctes[i].query.value, k.attno, s);
    ColumnSound(I, db, q.ctes[i].query.value, k.attno, s, env[k.varno - 1], [env] + outer);
  }

  // ---- Soundness across views ----

  lemma {:induction false} ChainSound(I: Interpretation, db: Database, catalog: Catalog, column: Column,
                                      required: Column, chain: seq<Source>, row: Row)
    requires Lawful(I) && WellFormedCatalog(catalog) && Models(I, db, catalog)
    requires SureChain(catalog, column, required, chain) && row in db(column.oid)
    ensures Occurs(db, required, Attribute(row, column.attno))
    decreases |chain|
  {
    if |chain| > 1 {
      assert SureLink(catalog, chain, 0);
      assert chain[1].ViewColumn? by {
        if |chain| > 2 { assert SureLink(catalog, chain, 1); }
      }
      var rest, next := chain[1..], chain[1].column;
      forall i | 0 <= i < |rest| - 1 ensures SureLink(catalog, rest, i) {
        assert SureLink(catalog, chain, i + 1);
      }
      ColumnSound(I, db, catalog[column.oid], column.attno, chain[1], row, []);
      var nextRow :| nextRow in db(next.oid) && Attribute(nextRow, next.attno) == Attribute(row, column.attno);
      ChainSound(I, db, catalog, next, required, rest, nextRow);
    }
  }

  /** Lineage along sure steps is sound, whatever else the catalog holds and the queries join. */
  lemma SureLineageSound(catalog: Catalog, column: Column, required: Column)
    requires WellFormedCatalog(catalog) && SureLineage(catalog, column, required)
    ensures Sound(catalog, column, required)
  {
    var chain :| SureChain(catalog, column, required, chain);
    forall I: Interpretation, db: Database, row: Row | Lawful(I) && Models(I, db, catalog) && row in db(column.oid)
      ensures Occurs(db, required, Attribute(row, column.attno))
    {
      ChainSound(I, db, catalog, column, required, chain, row);
    }
  }

  /** The lineage theorem: over inner joins a positive answer confines the key column to the required column. */
  lemma LineageSound(catalog: Catalog, view: Oid, attno: int, requiredView: Oid, requiredAttno: int)
    requires WellFormedCatalog(catalog) && DirectFrom(catalog, view, attno, requiredView, requiredAttno)
    requires ExpandedCovered(catalog, Column(view, attno), Column(requiredView, requiredAttno))
    ensures Sound(catalog, Column(view, attno), Column(requiredView, requiredAttno))
  {
    var column, required := Column(view, attno), Column(requiredView, requiredAttno);
    var chain :| Chain(catalog, Some(required), ViewColumn(column), chain);
    CoveredChainIsSure(catalog, column, required, chain);
    SureLineageSound(catalog, column, required);
  }

  // ---- Where an outer join breaks lineage, exactly ----

  // View 1 selects column 1 of table 10 or of view 2, which it joins on equality of their columns 1.
  const JOINING_VIEW: Oid := 1
  const REQUIRED_VIEW: Oid := 2
  const PLAIN_TABLE: Oid := 10
  const KEY: Column := Column(JOINING_VIEW, 1)
  const REQUIRED: Column := Column(REQUIRED_VIEW, 1)

  // Any operator that is not hash-joinable, on the columns 1 and 2 of the view: true of the one, false of the other.
  const TRUE_OF_FIRST: Expr := OpExpr(50, false, [Var(2, 1, 0)])
  const TRUE_OF_SECOND: Expr := OpExpr(50, false, [Var(2, 2, 0)])
  const FALSE_OF_SECOND: Expr := BoolExpr(Not, [TRUE_OF_SECOND])
  const FILTER: Expr := BoolExpr(And, [TRUE_OF_FIRST, FALSE_OF_SECOND])

  /** The join of this type, with or without that filter in its WHERE; its target is column 1 of range-table entry
      varno, the table (1) or the view (2). */
  function JoinQuery(jointype: JoinType, varno: nat, filtered: bool): Query {
    Query(
      SelectProjectJoin,
      [Target(Var(varno, 1, 0), 1, false)],
      [Relation(true, PLAIN_TABLE, OtherKind), Relation(true, REQUIRED_VIEW, View),
       Join(true, [Var(1, 1, 0), Var(2, 1, 0)])],
      [],
      FromExpr([JoinExpr(jointype, RangeTblRef(1), RangeTblRef(2),
                         Some(OpExpr(96, true, [Var(1, 1, 0), Var(2, 1, 0)])), 3)],
               if filtered then Some(FILTER) else None),
      [])
  }

  function JoinCatalog(jointype: JoinType, varno: nat, filtered: bool): Catalog {
    map[JOINING_VIEW := JoinQuery(jointype, varno, filtered)]
  }

  /** An inner join, or a right join whose target is the view's own column. */
  predicate Harmless(jointype: JoinType, varno: nat) {
    jointype == Inner || (jointype == Right && varno == 2)
  }

  lemma FilterHasNoSubqueries(catalog: Catalog)
    ensures UnfoldExpr(catalog, REQUIRED_VIEW, FILTER, [JOINING_VIEW]) == NONE
  {
    var path := [JOINING_VIEW];
    assert UnfoldExprs(catalog, REQUIRED_VIEW, [Var(2, 1, 0)], 1, path) == NONE;
    assert UnfoldExprs(catalog, REQUIRED_VIEW, [Var(2, 2, 0)], 1, path) == NONE;
    assert UnfoldExprs(catalog, REQUIRED_VIEW, [TRUE_OF_SECOND], 1, path) == NONE;
    assert UnfoldExprs(catalog, REQUIRED_VIEW, [TRUE_OF_FIRST, FALSE_OF_SECOND], 1, path) == NONE;
    assert UnfoldExprs(catalog, REQUIRED_VIEW, [TRUE_OF_FIRST, FALSE_OF_SECOND], 2, path) == NONE;
  }

  lemma FilterHasNoEqualities(q: Query)
    requires AliasesDescend(q)
    ensures QualEqualities(q, FILTER) == []
  {
    assert QualListEqualities(q, [TRUE_OF_FIRST, FALSE_OF_SECOND], 1) == [];
    assert QualListEqualities(q, [TRUE_OF_FIRST, FALSE_OF_SECOND], 2) == [];
  }

  lemma JoinNoSubqueries(catalog: Catalog, jointype: JoinType, varno: nat, filtered: bool)
    ensures var q := JoinQuery(jointype, varno, filtered);
            && UnfoldTargets(catalog, REQUIRED_VIEW, q.targets, |q.targets|, [JOINING_VIEW]) == NONE
            && UnfoldFrom(catalog, REQUIRED_VIEW, q.jointree, [JOINING_VIEW]) == NONE
  {
    var q := JoinQuery(jointype, varno, filtered);
    var join := q.jointree.fromlist[0];
    var args := join.quals.value.args;
    FilterHasNoSubqueries(catalog);
    assert UnfoldTargets(catalog, REQUIRED_VIEW, q.targets, 0, [JOINING_VIEW]) == NONE;
    assert UnfoldTarget(catalog, REQUIRED_VIEW, q.targets[0], [JOINING_VIEW]) == NONE;
    assert UnfoldExprs(catalog, REQUIRED_VIEW, args, 0, [JOINING_VIEW]) == NONE;
    assert UnfoldExprs(catalog, REQUIRED_VIEW, args, 1, [JOINING_VIEW]) == NONE;
    assert UnfoldExprs(catalog, REQUIRED_VIEW, args, 2, [JOINING_VIEW]) == NONE;
    assert UnfoldExpr(catalog, REQUIRED_VIEW, join.quals.value, [JOINING_VIEW]) == NONE;
    assert UnfoldOptional(catalog, REQUIRED_VIEW, join.quals, [JOINING_VIEW]) == NONE;
    assert UnfoldFrom(catalog, REQUIRED_VIEW, RangeTblRef(1), [JOINING_VIEW]) == NONE;
    assert UnfoldFrom(catalog, REQUIRED_VIEW, RangeTblRef(2), [JOINING_VIEW]) == NONE;
    assert UnfoldFrom(catalog, REQUIRED_VIEW, join, [JOINING_VIEW]) == NONE;
    assert UnfoldFromList(catalog, REQUIRED_VIEW, q.jointree.fromlist, 0, [JOINING_VIEW]) == NONE;
  }

  lemma JoinUnfolds(jointype: JoinType, varno: nat, filtered: bool)
    ensures UnfoldView(JoinCatalog(jointype, varno, filtered), REQUIRED_VIEW, JOINING_VIEW, []) == OCCURRENCE
  {
    var catalog, q := JoinCatalog(jointype, varno, filtered), JoinQuery(jointype, varno, filtered);
    assert |q.rtable| == 3;
    assert UnfoldEntries(catalog, REQUIRED_VIEW, q, 1, [JOINING_VIEW]) == NONE;
    assert UnfoldEntries(catalog, REQUIRED_VIEW, q, 2, [JOINING_VIEW]) == OCCURRENCE;
    assert UnfoldEntries(catalog, REQUIRED_VIEW, q, 3, [JOINING_VIEW]) == OCCURRENCE;
    JoinNoSubqueries(catalog, jointype, varno, filtered);
    assert UnfoldExprs(catalog, REQUIRED_VIEW, q.others, |q.others|, [JOINING_VIEW]) == NONE;
    assert UnfoldQuery(catalog, REQUIRED_VIEW, q, [JOINING_VIEW]) == OCCURRENCE;
    assert [] + [JOINING_VIEW] == [JOINING_VIEW];
  }

  lemma JoinEqualities(jointype: JoinType, varno: nat, filtered: bool)
    ensures WellFormed(JoinQuery(jointype, varno, filtered))
    ensures var q, pair := JoinQuery(jointype, varno, filtered), [(VarKey(1, 1), VarKey(2, 1))];
            JoinTreeEqualities(q) == pair && SureEqualities(q, q.jointree) == if jointype == Inner then pair else []
  {
    var q := JoinQuery(jointype, varno, filtered);
    var join := q.jointree.fromlist[0];
    FilterHasNoEqualities(q);
    assert ResolveKey(q, join.quals.value.args[0]) == Some(VarKey(1, 1));
    assert ResolveKey(q, join.quals.value.args[1]) == Some(VarKey(2, 1));
    assert FromEqualities(q, join) == [(VarKey(1, 1), VarKey(2, 1))];
    assert SureEqualities(q, RangeTblRef(1)) == [] && SureEqualities(q, RangeTblRef(2)) == [];
    assert SureEqualities(q, join) == if jointype == Inner then [(VarKey(1, 1), VarKey(2, 1))] else [];
    assert FromListEqualities(q, q.jointree.fromlist, 0) == [] && SureListEqualities(q, q.jointree.fromlist, 0) == [];
    assert FromListEqualities(q, q.jointree.fromlist, 1) == [(VarKey(1, 1), VarKey(2, 1))];
    assert SureListEqualities(q, q.jointree.fromlist, 1) == SureEqualities(q, join);
  }

  /** In a graph with that one edge, both its ends are connected. */
  lemma Bridge(equalities: seq<Equality>, varno: nat)
    requires 1 <= varno <= 2 && (varno == 2 || (VarKey(1, 1), VarKey(2, 1)) in equalities)
    ensures Connected(equalities, VarKey(varno, 1), VarKey(2, 1))
  {
    ConnectedRefl(equalities, VarKey(varno, 1));
    if varno == 1 {
      ConnectedStep(equalities, VarKey(1, 1), VarKey(1, 1), VarKey(2, 1));
    }
  }

  lemma JoinKey(jointype: JoinType, varno: nat, filtered: bool)
    requires 1 <= varno <= 2
    ensures WellFormed(JoinQuery(jointype, varno, filtered))
    ensures KeySource(JoinQuery(jointype, varno, filtered), VarKey(2, 1), true, ViewColumn(REQUIRED))
    ensures TargetExpr(JoinQuery(jointype, varno, filtered), 1) == Some(Var(varno, 1, 0))
    ensures ResolveKey(JoinQuery(jointype, varno, filtered), Var(varno, 1, 0)) == Some(VarKey(varno, 1))
  {
  }

  lemma SourceThrough(q: Query, k: VarKey, k': VarKey)
    requires WellFormed(q) && TargetExpr(q, 1).Some? && ResolveKey(q, TargetExpr(q, 1).value) == Some(k)
    requires Connected(JoinTreeEqualities(q), k, k') && KeySource(q, k', true, ViewColumn(REQUIRED))
    ensures ColumnSource(q, 1, true, ViewColumn(REQUIRED))
  {
    assert SameClass(q, true, k, k');
  }

  lemma JoinColumn(jointype: JoinType, varno: nat, filtered: bool)
    requires 1 <= varno <= 2
    ensures WellFormed(JoinQuery(jointype, varno, filtered))
    ensures ColumnSource(JoinQuery(jointype, varno, filtered), 1, true, ViewColumn(REQUIRED))
  {
    JoinEqualities(jointype, varno, filtered);
    JoinKey(jointype, varno, filtered);
    Bridge(JoinTreeEqualities(JoinQuery(jointype, varno, filtered)), varno);
    SourceThrough(JoinQuery(jointype, varno, filtered), VarKey(varno, 1), VarKey(2, 1));
  }

  lemma JoinChain(catalog: Catalog, q: Query)
    requires WellFormed(q) && ColumnSource(q, 1, true, ViewColumn(REQUIRED)) && catalog == map[JOINING_VIEW := q]
    ensures WellFormedCatalog(catalog)
    ensures Chain(catalog, Some(REQUIRED), ViewColumn(KEY), [ViewColumn(KEY), ViewColumn(REQUIRED)])
  {
  }

  /** Whatever the join type, the analysis answers yes. */
  lemma JoinIsDirect(jointype: JoinType, varno: nat, filtered: bool)
    requires 1 <= varno <= 2
    ensures WellFormedCatalog(JoinCatalog(jointype, varno, filtered))
    ensures DirectFrom(JoinCatalog(jointype, varno, filtered), KEY.oid, KEY.attno, REQUIRED.oid, REQUIRED.attno)
  {
    JoinColumn(jointype, varno, filtered);
    JoinUnfolds(jointype, varno, filtered);
    JoinChain(JoinCatalog(jointype, varno, filtered), JoinQuery(jointype, varno, filtered));
  }

  lemma JoinPreserves(jointype: JoinType, varno: nat, filtered: bool)
    requires KeepsRight(jointype)
    ensures Preserved(JoinQuery(jointype, varno, filtered).jointree, 2)
  {
    var fromlist := JoinQuery(jointype, varno, filtered).jointree.fromlist;
    assert Preserved(RangeTblRef(2), 2);
    assert Preserved(fromlist[0], 2);
  }

  lemma JoinSureColumn(jointype: JoinType, varno: nat, filtered: bool)
    requires 1 <= varno <= 2 && Harmless(jointype, varno)
    ensures WellFormed(JoinQuery(jointype, varno, filtered))
    ensures SureColumn(JoinQuery(jointype, varno, filtered), 1, ViewColumn(REQUIRED))
  {
    var q := JoinQuery(jointype, varno, filtered);
    JoinEqualities(jointype, varno, filtered);
    JoinPreserves(jointype, varno, filtered);
    Bridge(SureEqualities(q, q.jointree), varno);
    assert SureKey(q, VarKey(2, 1), ViewColumn(REQUIRED));
  }

  lemma HarmlessIsSure(jointype: JoinType, varno: nat, filtered: bool)
    requires 1 <= varno <= 2 && Harmless(jointype, varno)
    ensures WellFormedCatalog(JoinCatalog(jointype, varno, filtered))
    ensures SureLineage(JoinCatalog(jointype, varno, filtered), KEY, REQUIRED)
  {
    JoinSureColumn(jointype, varno, filtered);
    JoinSureChain(JoinCatalog(jointype, varno, filtered), JoinQuery(jointype, varno, filtered));
  }

  lemma JoinSureChain(catalog: Catalog, q: Query)
    requires WellFormed(q) && SureColumn(q, 1, ViewColumn(REQUIRED)) && catalog == map[JOINING_VIEW := q]
    ensures WellFormedCatalog(catalog) && SureLineage(catalog, KEY, REQUIRED)
  {
    var chain := [ViewColumn(KEY), ViewColumn(REQUIRED)];
    assert SureLink(catalog, chain, 0);
    assert SureChain(catalog, KEY, REQUIRED, chain);
  }

  // A database for every harmful join: one row on the preserved side, none on the other.

  /** The preserved row is the table's; a right join preserves the view's. */
  predicate TableSide(jointype: JoinType) {
    jointype != Right
  }

  const SEVEN: Row := map[1 := Datum(7)]

  function ResultRow(jointype: JoinType, varno: nat): Row {
    if TableSide(jointype) == (varno == 1) then SEVEN else map[]
  }

  function JoinDatabase(jointype: JoinType, varno: nat): Database {
    (oid: Oid) =>
      if oid == JOINING_VIEW then iset{ResultRow(jointype, varno)}
      else if oid == (if TableSide(jointype) then PLAIN_TABLE else REQUIRED_VIEW) then iset{SEVEN}
      else iset{}
  }

  function JoinEnv(jointype: JoinType): Env {
    if TableSide(jointype) then [SEVEN, map[], map[1 := Datum(7)]] else [map[], SEVEN, map[2 := Datum(7)]]
  }

  function Unanswering(): Interpretation {
    Interpretation((opno, hashJoinable, values) => Null, (id, values) => Null, (q, values, envs) => Null)
  }

  lemma EmptySide(I: Interpretation, jointype: JoinType, varno: nat, side: int, env: Env)
    requires 1 <= side <= 2 && (side == 1) != TableSide(jointype) && |env| == 3
    ensures !Joined(I, JoinDatabase(jointype, varno), JoinQuery(jointype, varno, false), RangeTblRef(side), env, [])
  {
    assert !EntryDelivers(I, JoinDatabase(jointype, varno), JoinQuery(jointype, varno, false), side - 1, env, []);
  }

  lemma HarmfulJoins(I: Interpretation, jointype: JoinType, varno: nat)
    requires jointype != Inner
    ensures Joined(I, JoinDatabase(jointype, varno), JoinQuery(jointype, varno, false),
                   JoinQuery(jointype, varno, false).jointree, JoinEnv(jointype), [])
  {
    var db, q, env := JoinDatabase(jointype, varno), JoinQuery(jointype, varno, false), JoinEnv(jointype);
    var join := q.jointree.fromlist[0];
    var kept, empty := if TableSide(jointype) then 1 else 2, if TableSide(jointype) then 2 else 1;
    assert Joined(I, db, q, RangeTblRef(kept), env, []);
    forall env': Env | VariesUnder(I, q, RangeTblRef(empty), env, env', [])
      ensures !Joined(I, db, q, RangeTblRef(empty), env', [])
    {
      EmptySide(I, jointype, varno, empty, env');
    }
    assert NullExtended(RangeTblRef(empty), env);
    assert Joined(I, db, q, join, env, []);
  }

  lemma JoinAliases(I: Interpretation, jointype: JoinType, varno: nat)
    ensures AliasesHold(I, JoinQuery(jointype, varno, false), JoinEnv(jointype), [])
  {
    assert [JoinEnv(jointype)] + [] == [JoinEnv(jointype)];
  }

  lemma JoinProjects(I: Interpretation, jointype: JoinType, varno: nat)
    requires 1 <= varno <= 2
    ensures Projects(I, JoinQuery(jointype, varno, false), ResultRow(jointype, varno), JoinEnv(jointype), [])
  {
    var q, env := JoinQuery(jointype, varno, false), JoinEnv(jointype);
    assert [env] + [] == [env];
    forall attno | attno > 0 && TargetExpr(q, attno).Some?
      ensures Attribute(ResultRow(jointype, varno), attno) == Eval(I, TargetExpr(q, attno).value, [env])
    {
      assert FirstTarget(q.targets[1..], attno) == None;
    }
  }

  lemma HarmfulModels(I: Interpretation, jointype: JoinType, varno: nat)
    requires 1 <= varno <= 2 && jointype != Inner
    ensures Models(I, JoinDatabase(jointype, varno), JoinCatalog(jointype, varno, false))
  {
    HarmfulJoins(I, jointype, varno);
    JoinAliases(I, jointype, varno);
    JoinProjects(I, jointype, varno);
    assert Derives(I, JoinDatabase(jointype, varno), JoinQuery(jointype, varno, false), ResultRow(jointype, varno),
                   JoinEnv(jointype), []);
  }

  lemma HarmfulIsUnsound(jointype: JoinType, varno: nat)
    requires 1 <= varno <= 2 && !Harmless(jointype, varno)
    ensures !Sound(JoinCatalog(jointype, varno, false), KEY, REQUIRED)
  {
    var I, db, row := Unanswering(), JoinDatabase(jointype, varno), ResultRow(jointype, varno);
    HarmfulModels(I, jointype, varno);
    assert Lawful(I) && row in db(KEY.oid);
    assert !Occurs(db, REQUIRED, Attribute(row, KEY.attno));
  }

  /** For a two-way join the yes is right exactly when the lineage has sure steps: the analysis never reads the type. */
  lemma JoinTypeDecides(jointype: JoinType, varno: nat)
    requires 1 <= varno <= 2
    ensures var catalog := JoinCatalog(jointype, varno, false);
            && WellFormedCatalog(catalog)
            && DirectFrom(catalog, KEY.oid, KEY.attno, REQUIRED.oid, REQUIRED.attno)
            && (Sound(catalog, KEY, REQUIRED) <==> Harmless(jointype, varno))
            && (Sound(catalog, KEY, REQUIRED) <==> SureLineage(catalog, KEY, REQUIRED))
  {
    JoinIsDirect(jointype, varno, false);
    if Harmless(jointype, varno) {
      HarmlessIsSure(jointype, varno, false);
      SureLineageSound(JoinCatalog(jointype, varno, false), KEY, REQUIRED);
    } else {
      HarmfulIsUnsound(jointype, varno);
      if SureLineage(JoinCatalog(jointype, varno, false), KEY, REQUIRED) {
        SureLineageSound(JoinCatalog(jointype, varno, false), KEY, REQUIRED);
      }
    }
  }

  // ---- Sure steps are not necessary ----

  /** The filter is true of no null-extended row: it would have to be true and false of one value. */
  lemma FilterRejectsNulls(I: Interpretation, env: Env)
    requires |env| == 3 && Holds(I, Some(FILTER), [env])
    ensures env[1] != map[]
  {
    var conds := [TRUE_OF_FIRST, FALSE_OF_SECOND];
    assert EvalAll(I, conds, [env])[0] == Bool(true) && EvalAll(I, conds, [env])[1] == Bool(true);
    assert EvalAll(I, [TRUE_OF_SECOND], [env])[0] == Bool(false);
    if env[1] == map[] {
      NullsAgree(I, env);
    }
  }

  lemma NullsAgree(I: Interpretation, env: Env)
    requires |env| == 3 && env[1] == map[]
    ensures Eval(I, TRUE_OF_FIRST, [env]) == Eval(I, TRUE_OF_SECOND, [env])
  {
    assert EvalAll(I, [Var(2, 1, 0)], [env]) == [Null] == EvalAll(I, [Var(2, 2, 0)], [env]);
  }

  /** So what passes it has a row of the view. */
  lemma FilteredRowIsReal(I: Interpretation, db: Database, jointype: JoinType, env: Env)
    requires var q := JoinQuery(jointype, 2, true); |env| == 3 && Joined(I, db, q, q.jointree, env, [])
    ensures env[1] in db(REQUIRED_VIEW)
  {
    var q := JoinQuery(jointype, 2, true);
    assert [env] + [] == [env];
    FilterRejectsNulls(I, env);
    assert Joined(I, db, q, q.jointree.fromlist[0], env, []);
    assert !NullExtended(RangeTblRef(2), env) by {
      assert InTree(RangeTblRef(2), 2);
    }
    assert Joined(I, db, q, RangeTblRef(2), env, []);
  }

  lemma FilteredIsSound(jointype: JoinType)
    ensures Sound(JoinCatalog(jointype, 2, true), KEY, REQUIRED)
  {
    var q := JoinQuery(jointype, 2, true);
    var catalog := JoinCatalog(jointype, 2, true);
    forall I: Interpretation, db: Database, row: Row | Models(I, db, catalog) && row in db(KEY.oid)
      ensures Occurs(db, REQUIRED, Attribute(row, KEY.attno))
    {
      var env :| Derives(I, db, q, row, env, []);
      FilteredRowIsReal(I, db, jointype, env);
      JoinKey(jointype, 2, true);
      assert [env] + [] == [env];
      assert Attribute(row, 1) == Eval(I, Var(2, 1, 0), [env]) == Attribute(env[1], 1);
    }
  }

  lemma AloneWithoutEqualities(x: VarKey, y: VarKey)
    requires Connected([], x, y)
    ensures x == y
  {
    var walk :| WalkBetween([], walk, x, y);
    if |walk| > 1 {
      NoEdge(walk[0], walk[1]);
    }
  }

  lemma NoEdge(x: VarKey, y: VarKey)
    ensures !Adjacent([], x, y)
  {
  }

  /** Without sure equalities only the target's own entry can be followed. */
  lemma SureAlone(q: Query, k: VarKey, s: Source)
    requires WellFormed(q) && SureEqualities(q, q.jointree) == [] && SureColumn(q, 1, s)
    requires ResolveKey(q, TargetExpr(q, 1).value) == Some(k)
    ensures Preserved(q.jointree, k.varno)
  {
    var k' :| Connected([], k, k') && SureKey(q, k', s);
    AloneWithoutEqualities(k, k');
  }

  lemma NullableIsNotSure(jointype: JoinType, s: Source)
    requires !KeepsRight(jointype)
    ensures WellFormed(JoinQuery(jointype, 2, true)) && !SureColumn(JoinQuery(jointype, 2, true), 1, s)
  {
    var q := JoinQuery(jointype, 2, true);
    JoinEqualities(jointype, 2, true);
    JoinKey(jointype, 2, true);
    NullableIsNotPreserved(jointype);
    if SureColumn(q, 1, s) {
      SureAlone(q, VarKey(2, 1), s);
    }
  }

  lemma NullableIsNotPreserved(jointype: JoinType)
    requires !KeepsRight(jointype)
    ensures !Preserved(JoinQuery(jointype, 2, true).jointree, 2)
  {
    assert !Preserved(RangeTblRef(1), 2);
    assert !Preserved(JoinQuery(jointype, 2, true).jointree.fromlist[0], 2);
  }

  lemma FirstStepIsSure(catalog: Catalog, column: Column, required: Column) returns (s: Source)
    requires WellFormedCatalog(catalog) && SureLineage(catalog, column, required) && column != required
    ensures column.oid in catalog && SureColumn(catalog[column.oid], column.attno, s)
  {
    var chain :| SureChain(catalog, column, required, chain);
    assert SureLink(catalog, chain, 0);
    s := chain[1];
  }

  /** With a WHERE that rejects null-extended rows every join type is sound, with or without sure steps. */
  lemma SureIsNotNecessary(jointype: JoinType)
    ensures var catalog := JoinCatalog(jointype, 2, true);
            && WellFormedCatalog(catalog)
            && DirectFrom(catalog, KEY.oid, KEY.attno, REQUIRED.oid, REQUIRED.attno)
            && Sound(catalog, KEY, REQUIRED)
            && (SureLineage(catalog, KEY, REQUIRED) <==> jointype == Inner || jointype == Right)
  {
    JoinIsDirect(jointype, 2, true);
    FilteredIsSound(jointype);
    var catalog := JoinCatalog(jointype, 2, true);
    if KeepsRight(jointype) {
      HarmlessIsSure(jointype, 2, true);
    } else if SureLineage(catalog, KEY, REQUIRED) {
      var s := FirstStepIsSure(catalog, KEY, REQUIRED);
      NullableIsNotSure(jointype, s);
    }
  }
}
