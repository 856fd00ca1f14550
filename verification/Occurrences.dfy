// The saturating count of the required view's occurrences (src/rewrite.rs:43-51, 62-200).

module Occurrences {
  import opened Basics
  import opened ParseTree
  import opened Lineage

  /** A place where the complete unfolding of a query stops. */
  datatype Leaf = Occurrence | Cut

  type Leaves = multiset<Leaf>

  const NONE: Leaves := multiset{}
  const OCCURRENCE: Leaves := multiset{Occurrence}
  const CUT: Leaves := multiset{Cut}

  /** A cut weighs as much as two occurrences. */
  function Weight(leaves: Leaves): nat {
    leaves[Occurrence] + 2 * leaves[Cut]
  }

  /** Weight one means: nothing was cut and the required view stands in exactly one place. */
  lemma WeightOne(leaves: Leaves)
    ensures Weight(leaves) == 1 <==> leaves == OCCURRENCE
  {
    if Weight(leaves) == 1 {
      forall leaf: Leaf ensures leaves[leaf] == OCCURRENCE[leaf] {
        match leaf
        case Occurrence =>
        case Cut =>
      }
    }
  }

  function Saturate(n: nat): nat {
    if n > 2 then 2 else n
  }

  // ---- The complete unfolding, with no early exit ----

  /** path holds the views being expanded. */
  function UnfoldView(catalog: Catalog, required: Oid, view: Oid, path: seq<Oid>): Leaves
    requires |path| <= MAX_VIEW_DEPTH
    decreases 2 * (MAX_VIEW_DEPTH - |path|)
  {
    if view == required then OCCURRENCE
    else if |path| >= MAX_VIEW_DEPTH || view in path || view !in catalog then CUT
    else UnfoldQuery(catalog, required, catalog[view], path + [view])
  }

  function UnfoldQuery(catalog: Catalog, required: Oid, q: Query, path: seq<Oid>): Leaves
    requires |path| <= MAX_VIEW_DEPTH
    decreases 2 * (MAX_VIEW_DEPTH - |path|) + 1, q, 3
  {
    UnfoldEntries(catalog, required, q, |q.rtable|, path)
    + UnfoldTargets(catalog, required, q.targets, |q.targets|, path)
    + UnfoldFrom(catalog, required, q.jointree, path)
    + UnfoldExprs(catalog, required, q.others, |q.others|, path)
  }

  function UnfoldEntries(catalog: Catalog, required: Oid, q: Query, n: nat, path: seq<Oid>): Leaves
    requires |path| <= MAX_VIEW_DEPTH && n <= |q.rtable|
    decreases 2 * (MAX_VIEW_DEPTH - |path|) + 1, q, 2, n
  {
    if n == 0 then NONE
    else UnfoldEntries(catalog, required, q, n - 1, path) + UnfoldEntry(catalog, required, q, n - 1, path)
  }

  function UnfoldEntry(catalog: Catalog, required: Oid, q: Query, i: nat, path: seq<Oid>): Leaves
    requires |path| <= MAX_VIEW_DEPTH && i < |q.rtable|
    decreases 2 * (MAX_VIEW_DEPTH - |path|) + 1, q, 1
  {
    if !q.rtable[i].inFromCl then NONE
    else
      match q.rtable[i]
      case Relation(_, relid, kind) =>
        if relid == required then OCCURRENCE
        else if IsViewKind(kind) then UnfoldView(catalog, required, relid, path)
        else NONE
      case Subquery(_, subquery) => UnfoldQuery(catalog, required, subquery, path)
      case CteRef(_, name, 0) => UnfoldCte(catalog, required, q, name, path)
      case _ => NONE
  }

  function FirstCte(ctes: seq<Cte>, name: string, from: nat): (r: Option<nat>)
    requires from <= |ctes|
    ensures r.Some? ==> from <= r.value < |ctes| && ctes[r.value].name == name
    ensures forall k :: from <= k < |ctes| && (r.None? || k < r.value) ==> ctes[k].name != name
    decreases |ctes| - from
  {
    if from == |ctes| then None
    else if ctes[from].name == name then Some(from)
    else FirstCte(ctes, name, from + 1)
  }

  function UnfoldCte(catalog: Catalog, required: Oid, q: Query, name: string, path: seq<Oid>): Leaves
    requires |path| <= MAX_VIEW_DEPTH
    decreases 2 * (MAX_VIEW_DEPTH - |path|) + 1, q, 0
  {
    var first := FirstCte(q.ctes, name, 0);
    if first.None? then CUT
    else
      var cte := q.ctes[first.value];
      if cte.recursive || cte.query.None? then CUT else UnfoldQuery(catalog, required, cte.query.value, path)
  }

  function UnfoldTarget(catalog: Catalog, required: Oid, target: Target, path: seq<Oid>): Leaves
    requires |path| <= MAX_VIEW_DEPTH
    decreases 2 * (MAX_VIEW_DEPTH - |path|) + 1, target
  {
    UnfoldExpr(catalog, required, target.expr, path)
  }

  function UnfoldTargets(catalog: Catalog, required: Oid, targets: seq<Target>, n: nat, path: seq<Oid>): Leaves
    requires |path| <= MAX_VIEW_DEPTH && n <= |targets|
    decreases 2 * (MAX_VIEW_DEPTH - |path|) + 1, targets, n
  {
    if n == 0 then NONE
    else UnfoldTargets(catalog, required, targets, n - 1, path) + UnfoldTarget(catalog, required, targets[n - 1], path)
  }

  function UnfoldOptional(catalog: Catalog, required: Oid, e: Option<Expr>, path: seq<Oid>): Leaves
    requires |path| <= MAX_VIEW_DEPTH
    decreases 2 * (MAX_VIEW_DEPTH - |path|) + 1, e
  {
    if e.None? then NONE else UnfoldExpr(catalog, required, e.value, path)
  }

  function UnfoldFrom(catalog: Catalog, required: Oid, node: FromNode, path: seq<Oid>): Leaves
    requires |path| <= MAX_VIEW_DEPTH
    decreases 2 * (MAX_VIEW_DEPTH - |path|) + 1, node
  {
    match node
    case FromExpr(fromlist, quals) =>
      UnfoldFromList(catalog, required, fromlist, |fromlist|, path) + UnfoldOptional(catalog, required, quals, path)
    case JoinExpr(_, larg, rarg, quals, _) =>
      UnfoldFrom(catalog, required, larg, path) + UnfoldFrom(catalog, required, rarg, path)
      + UnfoldOptional(catalog, required, quals, path)
    case RangeTblRef(_) => NONE
  }

  function UnfoldFromList(catalog: Catalog, required: Oid, nodes: seq<FromNode>, n: nat, path: seq<Oid>): Leaves
    requires |path| <= MAX_VIEW_DEPTH && n <= |nodes|
    decreases 2 * (MAX_VIEW_DEPTH - |path|) + 1, nodes, n
  {
    if n == 0 then NONE
    else UnfoldFromList(catalog, required, nodes, n - 1, path) + UnfoldFrom(catalog, required, nodes[n - 1], path)
  }

  /** The queries nested in one expression. */
  function UnfoldExpr(catalog: Catalog, required: Oid, e: Expr, path: seq<Oid>): Leaves
    requires |path| <= MAX_VIEW_DEPTH
    decreases 2 * (MAX_VIEW_DEPTH - |path|) + 1, e, 4
  {
    match e
    case Var(_, _, _) => NONE
    case OpExpr(_, _, args) => UnfoldExprs(catalog, required, args, |args|, path)
    case BoolExpr(_, conds) => UnfoldExprs(catalog, required, conds, |conds|, path)
    case SubLink(test, subselect) =>
      UnfoldExprs(catalog, required, test, |test|, path) + UnfoldQuery(catalog, required, subselect, path)
    case OtherExpr(_, children) => UnfoldExprs(catalog, required, children, |children|, path)
  }

  function UnfoldExprs(catalog: Catalog, required: Oid, es: seq<Expr>, n: nat, path: seq<Oid>): Leaves
    requires |path| <= MAX_VIEW_DEPTH && n <= |es|
    decreases 2 * (MAX_VIEW_DEPTH - |path|) + 1, es, n
  {
    if n == 0 then NONE
    else UnfoldExprs(catalog, required, es, n - 1, path) + UnfoldExpr(catalog, required, es[n - 1], path)
  }

  // ---- The counting traversal ----

  /** What traversing an unfolding with these leaves does to the count. */
  ghost predicate Counts(before: nat, after: nat, leaves: Leaves) {
    after == Saturate(before + Weight(leaves))
  }

  class RequiredOccurrenceContext {
    const required: Oid
    var occurrences: nat
    var path: seq<Oid>

    constructor (required: Oid)
      ensures this.required == required && occurrences == 0 && path == []
    {
      this.required := required;
      occurrences := 0;
      path := [];
    }

    ghost predicate Valid()
      reads this
    {
      occurrences <= 2 && |path| <= MAX_VIEW_DEPTH
    }

    method CountView(catalog: Catalog, view: Oid)
      requires Valid()
      modifies this
      ensures Valid() && path == old(path)
      ensures Counts(old(occurrences), occurrences, UnfoldView(catalog, required, view, old(path)))
      decreases 2 * (MAX_VIEW_DEPTH - |path|)
    {
      if occurrences > 1 {
        return;
      }
      if view == required {
        occurrences := occurrences + 1;
        return;
      }
      if |path| >= MAX_VIEW_DEPTH || view in path {
        occurrences := 2;
        return;
      }
      path := path + [view];
      if view !in catalog {
        occurrences := 2;
      } else {
        CountQuery(catalog, catalog[view]);
      }
      path := path[..|path| - 1];
    }

    method CountQuery(catalog: Catalog, q: Query)
      requires Valid()
      modifies this
      ensures Valid() && path == old(path)
      ensures Counts(old(occurrences), occurrences, UnfoldQuery(catalog, required, q, old(path)))
      decreases 2 * (MAX_VIEW_DEPTH - |path|) + 1, q, 3
    {
      if occurrences > 1 {
        return;
      }
      CountEntries(catalog, q);
      if occurrences > 1 {
        return;
      }
      var stop := CountNestedInTargets(catalog, q.targets);
      if stop {
        return;
      }
      stop := CountNestedInFrom(catalog, q.jointree);
      if stop {
        return;
      }
      stop := CountNestedInAll(catalog, q.others);
    }

    method CountEntries(catalog: Catalog, q: Query)
      requires Valid()
      modifies this
      ensures Valid() && path == old(path)
      ensures Counts(old(occurrences), occurrences, UnfoldEntries(catalog, required, q, |q.rtable|, old(path)))
      decreases 2 * (MAX_VIEW_DEPTH - |path|) + 1, q, 2
    {
      for index := 0 to |q.rtable|
        invariant Valid() && path == old(path)
        invariant Counts(old(occurrences), occurrences, UnfoldEntries(catalog, required, q, index, old(path)))
      {
        if occurrences > 1 {
          EntriesGrow(catalog, required, q, index, path);
          return;
        }
        if !q.rtable[index].inFromCl {
          continue;
        }
        match q.rtable[index] {
          case Relation(_, relid, kind) =>
            if relid == required {
              occurrences := occurrences + 1;
            } else if IsViewKind(kind) {
              CountView(catalog, relid);
            }
          case Subquery(_, subquery) =>
            CountQuery(catalog, subquery);
          case CteRef(_, name, ctelevelsup) =>
            if ctelevelsup == 0 {
              CountCte(catalog, q, name);
            }
          case _ =>
        }
      }
    }

    method CountCte(catalog: Catalog, q: Query, name: string)
      requires Valid() && occurrences <= 1
      modifies this
      ensures Valid() && path == old(path)
      ensures Counts(old(occurrences), occurrences, UnfoldCte(catalog, required, q, name, old(path)))
      decreases 2 * (MAX_VIEW_DEPTH - |path|) + 1, q, 0
    {
      var index := 0;
      while index < |q.ctes|
        invariant index <= |q.ctes|
        invariant FirstCte(q.ctes, name, 0) == FirstCte(q.ctes, name, index)
      {
        var cte := q.ctes[index];
        if cte.name == name {
          if cte.recursive || cte.query.None? {
            occurrences := 2;
          } else {
            CountQuery(catalog, cte.query.value);
          }
          return;
        }
        index := index + 1;
      }
      occurrences := 2;
    }

    // The tree walk over expressions; the result asks the caller to stop walking.

    method CountNested(catalog: Catalog, e: Expr) returns (stop: bool)
      requires Valid()
      modifies this
      ensures Valid() && path == old(path)
      ensures Counts(old(occurrences), occurrences, UnfoldExpr(catalog, required, e, old(path)))
      ensures stop <==> occurrences > 1
      decreases 2 * (MAX_VIEW_DEPTH - |path|) + 1, e, 4
    {
      if occurrences > 1 {
        return true;
      }
      match e {
        case Var(_, _, _) =>
          stop := false;
        case OpExpr(_, _, args) =>
          stop := CountNestedInAll(catalog, args);
        case BoolExpr(_, conds) =>
          stop := CountNestedInAll(catalog, conds);
        case SubLink(test, subselect) =>
          stop := CountNestedInAll(catalog, test);
          if stop {
            return;
          }
          CountQuery(catalog, subselect);
          stop := occurrences > 1;
        case OtherExpr(_, children) =>
          stop := CountNestedInAll(catalog, children);
      }
    }

    method CountNestedInAll(catalog: Catalog, es: seq<Expr>) returns (stop: bool)
      requires Valid()
      modifies this
      ensures Valid() && path == old(path)
      ensures Counts(old(occurrences), occurrences, UnfoldExprs(catalog, required, es, |es|, old(path)))
      ensures stop <==> occurrences > 1
      decreases 2 * (MAX_VIEW_DEPTH - |path|) + 1, es
    {
      stop := occurrences > 1;
      for index := 0 to |es|
        invariant Valid() && path == old(path)
        invariant Counts(old(occurrences), occurrences, UnfoldExprs(catalog, required, es, index, old(path)))
        invariant stop <==> occurrences > 1
      {
        stop := CountNested(catalog, es[index]);
        if stop {
          ExprsGrow(catalog, required, es, index + 1, path);
          return;
        }
      }
    }

    method CountNestedInTarget(catalog: Catalog, target: Target) returns (stop: bool)
      requires Valid()
      modifies this
      ensures Valid() && path == old(path)
      ensures Counts(old(occurrences), occurrences, UnfoldTarget(catalog, required, target, old(path)))
      ensures stop <==> occurrences > 1
      decreases 2 * (MAX_VIEW_DEPTH - |path|) + 1, target
    {
      stop := CountNested(catalog, target.expr);
    }

    method CountNestedInTargets(catalog: Catalog, targets: seq<Target>) returns (stop: bool)
      requires Valid()
      modifies this
      ensures Valid() && path == old(path)
      ensures Counts(old(occurrences), occurrences, UnfoldTargets(catalog, required, targets, |targets|, old(path)))
      ensures stop <==> occurrences > 1
      decreases 2 * (MAX_VIEW_DEPTH - |path|) + 1, targets
    {
      stop := occurrences > 1;
      for index := 0 to |targets|
        invariant Valid() && path == old(path)
        invariant Counts(old(occurrences), occurrences, UnfoldTargets(catalog, required, targets, index, old(path)))
        invariant stop <==> occurrences > 1
      {
        stop := CountNestedInTarget(catalog, targets[index]);
        if stop {
          TargetsGrow(catalog, required, targets, index + 1, path);
          return;
        }
      }
    }

    method CountNestedInFrom(catalog: Catalog, node: FromNode) returns (stop: bool)
      requires Valid()
      modifies this
      ensures Valid() && path == old(path)
      ensures Counts(old(occurrences), occurrences, UnfoldFrom(catalog, required, node, old(path)))
      ensures stop <==> occurrences > 1
      decreases 2 * (MAX_VIEW_DEPTH - |path|) + 1, node
    {
      match node {
        case FromExpr(fromlist, quals) =>
          stop := CountNestedInFromList(catalog, fromlist);
          if !stop {
            stop := CountNestedInQuals(catalog, quals);
          }
        case JoinExpr(_, larg, rarg, quals, _) =>
          stop := CountNestedInFrom(catalog, larg);
          if !stop {
            stop := CountNestedInFrom(catalog, rarg);
          }
          if !stop {
            stop := CountNestedInQuals(catalog, quals);
          }
        case RangeTblRef(_) =>
          stop := occurrences > 1;
      }
    }

    method CountNestedInQuals(catalog: Catalog, quals: Option<Expr>) returns (stop: bool)
      requires Valid()
      modifies this
      ensures Valid() && path == old(path)
      ensures Counts(old(occurrences), occurrences, UnfoldOptional(catalog, required, quals, old(path)))
      ensures stop <==> occurrences > 1
      decreases 2 * (MAX_VIEW_DEPTH - |path|) + 1, quals
    {
      stop := occurrences > 1;
      if quals.Some? {
        stop := CountNested(catalog, quals.value);
      }
    }

    method CountNestedInFromList(catalog: Catalog, nodes: seq<FromNode>) returns (stop: bool)
      requires Valid()
      modifies this
      ensures Valid() && path == old(path)
      ensures Counts(old(occurrences), occurrences, UnfoldFromList(catalog, required, nodes, |nodes|, old(path)))
      ensures stop <==> occurrences > 1
      decreases 2 * (MAX_VIEW_DEPTH - |path|) + 1, nodes
    {
      stop := occurrences > 1;
      for index := 0 to |nodes|
        invariant Valid() && path == old(path)
        invariant Counts(old(occurrences), occurrences, UnfoldFromList(catalog, required, nodes, index, old(path)))
        invariant stop <==> occurrences > 1
      {
        stop := CountNestedInFrom(catalog, nodes[index]);
        if stop {
          FromListGrow(catalog, required, nodes, index + 1, path);
          return;
        }
      }
    }
  }

  // ---- Later list members never lower a weight ----

  lemma {:induction false} EntriesGrow(catalog: Catalog, required: Oid, q: Query, n: nat, path: seq<Oid>)
    requires |path| <= MAX_VIEW_DEPTH && n <= |q.rtable|
    ensures Weight(UnfoldEntries(catalog, required, q, n, path))
         <= Weight(UnfoldEntries(catalog, required, q, |q.rtable|, path))
    decreases |q.rtable| - n
  {
    if n < |q.rtable| {
      EntriesGrow(catalog, required, q, n + 1, path);
    }
  }

  lemma {:induction false} ExprsGrow(catalog: Catalog, required: Oid, es: seq<Expr>, n: nat, path: seq<Oid>)
    requires |path| <= MAX_VIEW_DEPTH && n <= |es|
    ensures Weight(UnfoldExprs(catalog, required, es, n, path))
         <= Weight(UnfoldExprs(catalog, required, es, |es|, path))
    decreases |es| - n
  {
    if n < |es| {
      ExprsGrow(catalog, required, es, n + 1, path);
    }
  }

  lemma {:induction false} TargetsGrow(catalog: Catalog, required: Oid, targets: seq<Target>, n: nat, path: seq<Oid>)
    requires |path| <= MAX_VIEW_DEPTH && n <= |targets|
    ensures Weight(UnfoldTargets(catalog, required, targets, n, path))
         <= Weight(UnfoldTargets(catalog, required, targets, |targets|, path))
    decreases |targets| - n
  {
    if n < |targets| {
      TargetsGrow(catalog, required, targets, n + 1, path);
    }
  }

  lemma {:induction false} FromListGrow(catalog: Catalog, required: Oid, nodes: seq<FromNode>, n: nat, path: seq<Oid>)
    requires |path| <= MAX_VIEW_DEPTH && n <= |nodes|
    ensures Weight(UnfoldFromList(catalog, required, nodes, n, path))
         <= Weight(UnfoldFromList(catalog, required, nodes, |nodes|, path))
    decreases |nodes| - n
  {
    if n < |nodes| {
      FromListGrow(catalog, required, nodes, n + 1, path);
    }
  }

  // ---- view_key_is_direct_from ----

  /** What view_key_is_direct_from decides. */
  ghost predicate DirectFrom(catalog: Catalog, view: Oid, attno: int, requiredView: Oid, requiredAttno: int)
    requires WellFormedCatalog(catalog)
  {
    && attno > 0 && requiredView != 0 && requiredAttno > 0
    && UnfoldView(catalog, requiredView, view, []) == OCCURRENCE
    && exists chain ::
         && Chain(catalog, Some(Column(requiredView, requiredAttno)), ViewColumn(Column(view, attno)), chain)
                       && |chain| - 1 <= MAX_VIEW_DEPTH
  }

  method ViewKeyIsDirectFrom(catalog: Catalog, view: Oid, attno: int, requiredView: Oid, requiredAttno: int)
    returns (r: bool)
    requires WellFormedCatalog(catalog)
    ensures r <==> DirectFrom(catalog, view, attno, requiredView, requiredAttno)
  {
    if attno <= 0 || requiredView == 0 || requiredAttno <= 0 {
      return false;
    }
    var context := new RequiredOccurrenceContext(requiredView);
    context.CountView(catalog, view);
    WeightOne(UnfoldView(catalog, requiredView, view, []));
    if context.occurrences != 1 {
      return false;
    }
    var path := new LineagePath();
    var required := Some(Column(requiredView, requiredAttno));
    r := DirectViewAttribute(catalog, Column(view, attno), required, path);
    PathCutIsExact(catalog, required, ViewColumn(Column(view, attno)));
  }
}
