// The part of an analysed PostgreSQL query tree that the view-lineage analysis of src/rewrite.rs reads.

module ParseTree {
  import opened Basics

  type Oid = nat

  /** A column of the query's own range table: 1-based range-table number and attribute number. */
  datatype VarKey = VarKey(varno: int, attno: int)

  datatype BoolKind = And | Or | Not

  datatype Expr =
    | Var(varno: int, varattno: int, levelsup: nat)
      // hashJoinable is the system catalog's answer for this operator at its left argument's type
    | OpExpr(opno: nat, hashJoinable: bool, args: seq<Expr>)
    | BoolExpr(kind: BoolKind, conds: seq<Expr>)
    | SubLink(test: seq<Expr>, subselect: Query)
      // every other node: constants, function calls, casts, aggregates, CASE, ...
    | OtherExpr(id: nat, children: seq<Expr>)

  datatype RelKind = View | MatView | OtherKind

  datatype RangeTableEntry =
    | Relation(inFromCl: bool, relid: Oid, kind: RelKind)
    | Subquery(inFromCl: bool, subquery: Query)
    | Join(inFromCl: bool, aliases: seq<Expr>)
    | CteRef(inFromCl: bool, name: string, ctelevelsup: nat)
    | OtherEntry(inFromCl: bool)

  datatype JoinType = Inner | Left | Right | Full

  datatype FromNode =
    | FromExpr(fromlist: seq<FromNode>, quals: Option<Expr>)
    | JoinExpr(jointype: JoinType, larg: FromNode, rarg: FromNode, quals: Option<Expr>, joinindex: int)
    | RangeTblRef(rtindex: int)

  datatype Target = Target(expr: Expr, resno: int, resjunk: bool)

  /** query is None when the CTE body is not a plain Query node. */
  datatype Cte = Cte(name: string, recursive: bool, query: Option<Query>)

  /** The analysis never reads the shape; it only delimits what the semantics covers. */
  datatype Shape = SelectProjectJoin | SetOperationOrGrouping

  datatype Query = Query(
    shape: Shape,
    targets: seq<Target>,
    rtable: seq<RangeTableEntry>,
    ctes: seq<Cte>,
    jointree: FromNode,
    others: seq<Expr>)

  /** The stored query of each view and materialized view; an absent Oid has no stored query. */
  type Catalog = map<Oid, Query>

  predicate IsViewKind(kind: RelKind) {
    kind == View || kind == MatView
  }

  predicate InRange(q: Query, varno: int) {
    1 <= varno <= |q.rtable|
  }

  /** The expression of the first non-junk target numbered attno. */
  function TargetExpr(q: Query, attno: int): Option<Expr> {
    FirstTarget(q.targets, attno)
  }

  function FirstTarget(targets: seq<Target>, attno: int): Option<Expr> {
    if targets == [] then None
    else if !targets[0].resjunk && targets[0].resno == attno then Some(targets[0].expr)
    else FirstTarget(targets[1..], attno)
  }

  // ---- What PostgreSQL guarantees of every stored query ----

  /** A join's alias variables refer to range-table entries made before the join's own. */
  ghost predicate AliasesDescend(q: Query) {
    forall i, k :: 0 <= i < |q.rtable| && q.rtable[i].Join? && 0 <= k < |q.rtable[i].aliases| ==>
                     AliasBelow(q.rtable[i].aliases[k], i)
  }

  ghost predicate AliasBelow(alias: Expr, i: int) {
    alias.Var? ==> alias.varno <= i
  }

  /** AliasesDescend of a query and of every subquery and CTE below it. */
  ghost predicate WellFormed(q: Query)
    decreases q
  {
    && AliasesDescend(q)
    && (forall i :: 0 <= i < |q.rtable| && q.rtable[i].Subquery? ==> WellFormed(q.rtable[i].subquery))
    && (forall i :: 0 <= i < |q.ctes| && q.ctes[i].query.Some? ==> WellFormed(q.ctes[i].query.value))
  }

  ghost predicate WellFormedCatalog(catalog: Catalog) {
    forall oid :: oid in catalog ==> WellFormed(catalog[oid])
  }
}
