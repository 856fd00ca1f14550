// Where the required view stands in the complete unfolding of a view, as paths that lead to each place, and what the
// occurrence count says about them (src/rewrite.rs:43-51, 62-200).

module OccurrencePaths {
  import opened Basics
  import opened ParseTree
  import opened Lineage
  import opened Occurrences
  import opened LineageTrails

  // ---- Expressions of a query, by their place ----

  /** The operands of an expression; a sublink has the operands of its test. */
  function Operands(e: Expr): seq<Expr> {
    match e
    case Var(_, _, _) => []
    case OpExpr(_, _, args) => args
    case BoolExpr(_, conds) => conds
    case SubLink(test, _) => test
    case OtherExpr(_, children) => children
  }

  function ExprAt(e: Expr, place: seq<nat>): Option<Expr> {
    if place == [] then Some(e)
    else if place[0] < |Operands(e)| then ExprAt(Operands(e)[place[0]], place[1..])
    else None
  }

  function ListAt(es: seq<Expr>, place: seq<nat>): Option<Expr> {
    if place != [] && place[0] < |es| then ExprAt(es[place[0]], place[1..]) else None
  }

  function OptionalAt(e: Option<Expr>, place: seq<nat>): Option<Expr> {
    if e.Some? then ExprAt(e.value, place) else None
  }

  /** The joined nodes come before the condition. */
  function FromAt(node: FromNode, place: seq<nat>): Option<Expr>
    decreases |place|
  {
    if place == [] then None
    else
      match node
      case FromExpr(fromlist, quals) =>
        if place[0] < |fromlist| then FromAt(fromlist[place[0]], place[1..])
        else if place[0] == |fromlist| then OptionalAt(quals, place[1..])
        else None
      case JoinExpr(_, larg, rarg, quals, _) =>
        if place[0] == 0 then FromAt(larg, place[1..])
        else if place[0] == 1 then FromAt(rarg, place[1..])
        else if place[0] == 2 then OptionalAt(quals, place[1..])
        else None
      case RangeTblRef(_) => None
  }

  function OutputExprs(targets: seq<Target>): seq<Expr> {
    seq(|targets|, i requires 0 <= i < |targets| => targets[i].expr)
  }

  /** An output column, the join tree, or anything else that holds expressions. */
  function ExpressionAt(q: Query, place: seq<nat>): Option<Expr> {
    if place == [] then None
    else if place[0] == 0 then ListAt(OutputExprs(q.targets), place[1..])
    else if place[0] == 1 then FromAt(q.jointree, place[1..])
    else if place[0] == 2 then ListAt(q.others, place[1..])
    else None
  }

  // ---- Paths into the unfolding ----

  /** Into an entry of FROM, or into a query that is nested in an expression. */
  datatype Step = Entry(i: nat) | Nested(place: seq<nat>)

  /** What is looked for, and where. */
  datatype Look = Look(catalog: Catalog, required: Oid, leaf: Leaf)

  /** The steps lead from the view to the leaf; path holds the views being expanded. */
  ghost predicate FromView(l: Look, view: Oid, path: seq<Oid>, steps: seq<Step>)
    decreases |steps|, 1
  {
    if view == l.required then steps == [] && l.leaf == Occurrence
    else if |path| >= MAX_VIEW_DEPTH || view in path || view !in l.catalog then steps == [] && l.leaf == Cut
    else FromQuery(l, l.catalog[view], path + [view], steps)
  }

  ghost predicate FromQuery(l: Look, q: Query, path: seq<Oid>, steps: seq<Step>)
    decreases |steps|, 0
  {
    steps != [] &&
    match steps[0]
    case Entry(i) => i < |q.rtable| && q.rtable[i].inFromCl && FromEntry(l, q, q.rtable[i], path, steps[1..])
    case Nested(place) => FromNested(l, ExpressionAt(q, place), path, steps[1..])
  }

  ghost predicate FromNested(l: Look, e: Option<Expr>, path: seq<Oid>, steps: seq<Step>)
    decreases |steps|, 2
  {
    e.Some? && e.value.SubLink? && FromQuery(l, e.value.subselect, path, steps)
  }

  ghost predicate FromEntry(l: Look, q: Query, entry: RangeTableEntry, path: seq<Oid>, steps: seq<Step>)
    decreases |steps|, 2
  {
    match entry
    case Relation(_, relid, kind) =>
      if relid == l.required then steps == [] && l.leaf == Occurrence
      else (kind == View || kind == MatView) && FromView(l, relid, path, steps)
    case Subquery(_, subquery) => FromQuery(l, subquery, path, steps)
    case CteRef(_, name, level) =>
      level == 0 && if exists j :: FirstUsable(q, name, j) then
        exists j :: FirstUsable(q, name, j) && FromQuery(l, q.ctes[j].query.value, path, steps)
      else steps == [] && l.leaf == Cut
    case _ => false
  }

  /** The first CTE of the name, which is a query and not recursive. */
  ghost predicate FirstUsable(q: Query, name: string, j: int) {
    && 0 <= j < |q.ctes| && q.ctes[j].name == name && !q.ctes[j].recursive && q.ctes[j].query.Some?
    && forall k :: 0 <= k < j ==> q.ctes[k].name != name
  }

  // ---- Counting up to two ----

  /** S is empty, holds one element, or more, as n says. */
  ghost predicate Size<T(!new)>(S: iset<T>, n: nat) {
    && (n == 0 <==> S == iset{})
    && (n == 1 <==> exists x :: S == iset{x})
  }

  lemma SizeUnion<T(!new)>(A: iset<T>, B: iset<T>, U: iset<T>, a: nat, b: nat)
    requires Size(A, a) && Size(B, b) && A !! B && U == A + B
    ensures Size(U, a + b)
  {
    if a == 0 {
      assert U == B;
    } else if b == 0 {
      assert U == A;
    } else {
      var x :| x in A;
      var y :| y in B;
      assert x in U && y in U && x != y;
    }
  }

  lemma SizeImage<S(!new), T(!new)>(A: iset<S>, B: iset<T>, f: S -> T, g: T -> S, n: nat)
    requires Size(A, n)
    requires forall x :: x in A ==> f(x) in B && g(f(x)) == x
    requires forall y :: y in B ==> g(y) in A && f(g(y)) == y
    ensures Size(B, n)
  {
    if n == 0 {
      assert B == iset{};
    } else if n == 1 {
      SingleImage(A, B, f, g);
    } else {
      var x :| x in A;
      assert f(x) in B;
      if exists y :: B == iset{y} {
        SingleImage(B, A, g, f);
      }
    }
  }

  lemma SingleImage<S(!new), T(!new)>(A: iset<S>, B: iset<T>, f: S -> T, g: T -> S)
    requires exists x :: A == iset{x}
    requires forall x :: x in A ==> f(x) in B && g(f(x)) == x
    requires forall y :: y in B ==> g(y) in A && f(g(y)) == y
    ensures exists y :: B == iset{y}
  {
    var x :| A == iset{x};
    assert x in A;
    forall y | y in B ensures y == f(x) {
      assert g(y) in A;
    }
    assert B == iset{f(x)};
  }

  // ---- The unfolding counts the paths ----

  // A place in some expressions, with a path on from the query nested there.
  type Spot = (seq<nat>, seq<Step>)

  ghost function InExpr(l: Look, e: Expr, path: seq<Oid>): iset<Spot> {
    iset p: Spot | FromNested(l, ExprAt(e, p.0), path, p.1)
  }

  /** Spots below the first n expressions. */
  ghost function InExprs(l: Look, es: seq<Expr>, n: nat, path: seq<Oid>): iset<Spot>
    requires n <= |es|
  {
    iset p: Spot | p.0 != [] && p.0[0] < n && FromNested(l, ExprAt(es[p.0[0]], p.0[1..]), path, p.1)
  }

  ghost function InOptional(l: Look, e: Option<Expr>, path: seq<Oid>): iset<Spot> {
    iset p: Spot | FromNested(l, OptionalAt(e, p.0), path, p.1)
  }

  ghost function InFrom(l: Look, node: FromNode, path: seq<Oid>): iset<Spot> {
    iset p: Spot | FromNested(l, FromAt(node, p.0), path, p.1)
  }

  ghost function InNodes(l: Look, nodes: seq<FromNode>, n: nat, path: seq<Oid>): iset<Spot>
    requires n <= |nodes|
  {
    iset p: Spot | p.0 != [] && p.0[0] < n && FromNested(l, FromAt(nodes[p.0[0]], p.0[1..]), path, p.1)
  }

  /** The same spots seen from one level up, as number i. */
  ghost function Below(i: nat, spots: iset<Spot>): iset<Spot> {
    iset p: Spot | p.0 != [] && p.0[0] == i && (p.0[1..], p.1) in spots
  }

  lemma SizeBelow(i: nat, spots: iset<Spot>, n: nat)
    requires Size(spots, n)
    ensures Size(Below(i, spots), n)
  {
    var f := (p: Spot) => ([i] + p.0, p.1);
    var g := (p: Spot) => (if p.0 == [] then [] else p.0[1..], p.1);
    forall p | p in spots ensures f(p) in Below(i, spots) && g(f(p)) == p {
      assert ([i] + p.0)[1..] == p.0;
    }
    forall p | p in Below(i, spots) ensures g(p) in spots && f(g(p)) == p {
      assert [i] + p.0[1..] == p.0;
    }
    SizeImage(spots, Below(i, spots), f, g, n);
  }

  /** One more member of a list. */
  lemma SizeOneMore(less: iset<Spot>, more: iset<Spot>, i: nat, spots: iset<Spot>, n: nat, m: nat)
    requires Size(less, n) && Size(spots, m) && more == less + Below(i, spots)
    requires forall p :: p in less ==> p.0 != [] && p.0[0] < i
    ensures Size(more, n + m)
  {
    SizeBelow(i, spots, m);
    SizeUnion(less, Below(i, spots), more, n, m);
  }

  lemma {:induction false} ExprSize(l: Look, e: Expr, path: seq<Oid>)
    requires |path| <= MAX_VIEW_DEPTH
    ensures Size(InExpr(l, e, path), UnfoldExpr(l.catalog, l.required, e, path)[l.leaf])
    decreases 2 * (MAX_VIEW_DEPTH - |path|) + 1, e, 4
  {
    var operands := InExprs(l, Operands(e), |Operands(e)|, path);
    match e
    case Var(_, _, _) =>
      assert InExpr(l, e, path) == iset{};
    case OpExpr(_, _, args) =>
      ExprsSize(l, args, |args|, path);
      assert InExpr(l, e, path) == operands;
    case BoolExpr(_, conds) =>
      ExprsSize(l, conds, |conds|, path);
      assert InExpr(l, e, path) == operands;
    case SubLink(test, subselect) =>
      ExprsSize(l, test, |test|, path);
      QuerySize(l, subselect, path);
      SubLinkSize(l, e, path, UnfoldExprs(l.catalog, l.required, test, |test|, path)[l.leaf],
                  UnfoldQuery(l.catalog, l.required, subselect, path)[l.leaf]);
    case OtherExpr(_, children) =>
      ExprsSize(l, children, |children|, path);
      assert InExpr(l, e, path) == operands;
  }

  /** The query of the sublink itself, and what is nested in its test. */
  lemma SubLinkSize(l: Look, e: Expr, path: seq<Oid>, n: nat, m: nat)
    requires e.SubLink? && Size(InExprs(l, e.test, |e.test|, path), n) && Size(PathsFrom(l, e.subselect, path), m)
    ensures Size(InExpr(l, e, path), n + m)
  {
    var here := iset p: Spot | p.0 == [] && p.1 in PathsFrom(l, e.subselect, path);
    var f := (steps: seq<Step>) => ([], steps);
    var g := (p: Spot) => p.1;
    SizeImage(PathsFrom(l, e.subselect, path), here, f, g, m);
    assert InExpr(l, e, path) == InExprs(l, e.test, |e.test|, path) + here;
    SizeUnion(InExprs(l, e.test, |e.test|, path), here, InExpr(l, e, path), n, m);
  }

  lemma {:induction false} ExprsSize(l: Look, es: seq<Expr>, n: nat, path: seq<Oid>)
    requires |path| <= MAX_VIEW_DEPTH && n <= |es|
    ensures Size(InExprs(l, es, n, path), UnfoldExprs(l.catalog, l.required, es, n, path)[l.leaf])
    decreases 2 * (MAX_VIEW_DEPTH - |path|) + 1, es, n
  {
    if n == 0 {
      assert InExprs(l, es, n, path) == iset{};
    } else {
      ExprsSize(l, es, n - 1, path);
      ExprSize(l, es[n - 1], path);
      assert InExprs(l, es, n, path) == InExprs(l, es, n - 1, path) + Below(n - 1, InExpr(l, es[n - 1], path));
      SizeOneMore(InExprs(l, es, n - 1, path), InExprs(l, es, n, path), n - 1, InExpr(l, es[n - 1], path),
                  UnfoldExprs(l.catalog, l.required, es, n - 1, path)[l.leaf],
                  UnfoldExpr(l.catalog, l.required, es[n - 1], path)[l.leaf]);
    }
  }

  lemma {:induction false} TargetsSize(l: Look, targets: seq<Target>, n: nat, path: seq<Oid>)
    requires |path| <= MAX_VIEW_DEPTH && n <= |targets|
    ensures Size(InExprs(l, OutputExprs(targets), n, path),
                 UnfoldTargets(l.catalog, l.required, targets, n, path)[l.leaf])
    decreases 2 * (MAX_VIEW_DEPTH - |path|) + 1, targets, n
  {
    var es := OutputExprs(targets);
    if n == 0 {
      assert InExprs(l, es, n, path) == iset{};
    } else {
      TargetsSize(l, targets, n - 1, path);
      TargetSize(l, targets[n - 1], path);
      assert InExprs(l, es, n, path) == InExprs(l, es, n - 1, path) + Below(n - 1, InExpr(l, es[n - 1], path));
      SizeOneMore(InExprs(l, es, n - 1, path), InExprs(l, es, n, path), n - 1, InExpr(l, es[n - 1], path),
                  UnfoldTargets(l.catalog, l.required, targets, n - 1, path)[l.leaf],
                  UnfoldTarget(l.catalog, l.required, targets[n - 1], path)[l.leaf]);
    }
  }

  lemma {:induction false} TargetSize(l: Look, target: Target, path: seq<Oid>)
    requires |path| <= MAX_VIEW_DEPTH
    ensures Size(InExpr(l, target.expr, path), UnfoldTarget(l.catalog, l.required, target, path)[l.leaf])
    decreases 2 * (MAX_VIEW_DEPTH - |path|) + 1, target
  {
    ExprSize(l, target.expr, path);
  }

  lemma {:induction false} OptionalSize(l: Look, e: Option<Expr>, path: seq<Oid>)
    requires |path| <= MAX_VIEW_DEPTH
    ensures Size(InOptional(l, e, path), UnfoldOptional(l.catalog, l.required, e, path)[l.leaf])
    decreases 2 * (MAX_VIEW_DEPTH - |path|) + 1, e
  {
    if e.None? {
      assert InOptional(l, e, path) == iset{};
    } else {
      ExprSize(l, e.value, path);
      assert InOptional(l, e, path) == InExpr(l, e.value, path);
    }
  }

  lemma {:induction false} NodeSize(l: Look, node: FromNode, path: seq<Oid>)
    requires |path| <= MAX_VIEW_DEPTH
    ensures Size(InFrom(l, node, path), UnfoldFrom(l.catalog, l.required, node, path)[l.leaf])
    decreases 2 * (MAX_VIEW_DEPTH - |path|) + 1, node
  {
    match node
    case FromExpr(fromlist, quals) =>
      NodesSize(l, fromlist, |fromlist|, path);
      OptionalSize(l, quals, path);
      var less, spots := InNodes(l, fromlist, |fromlist|, path), InOptional(l, quals, path);
      assert InFrom(l, node, path) == less + Below(|fromlist|, spots);
      SizeOneMore(less, InFrom(l, node, path), |fromlist|, spots,
                  UnfoldFromList(l.catalog, l.required, fromlist, |fromlist|, path)[l.leaf],
                  UnfoldOptional(l.catalog, l.required, quals, path)[l.leaf]);
    case JoinExpr(_, larg, rarg, quals, _) =>
      NodeSize(l, larg, path);
      NodeSize(l, rarg, path);
      OptionalSize(l, quals, path);
      JoinSize(l, node, path, UnfoldFrom(l.catalog, l.required, larg, path)[l.leaf],
               UnfoldFrom(l.catalog, l.required, rarg, path)[l.leaf],
               UnfoldOptional(l.catalog, l.required, quals, path)[l.leaf]);
    case RangeTblRef(_) =>
      assert InFrom(l, node, path) == iset{};
  }

  lemma JoinSize(l: Look, node: FromNode, path: seq<Oid>, a: nat, b: nat, c: nat)
    requires node.JoinExpr? && Size(InFrom(l, node.larg, path), a) && Size(InFrom(l, node.rarg, path), b)
    requires Size(InOptional(l, node.quals, path), c)
    ensures Size(InFrom(l, node, path), a + b + c)
  {
    var left, right := InFrom(l, node.larg, path), InFrom(l, node.rarg, path);
    var quals := InOptional(l, node.quals, path);
    assert InFrom(l, node, path) == Below(0, left) + Below(1, right) + Below(2, quals);
    ThreeParts(left, right, quals, InFrom(l, node, path), a, b, c);
  }

  lemma {:induction false} NodesSize(l: Look, nodes: seq<FromNode>, n: nat, path: seq<Oid>)
    requires |path| <= MAX_VIEW_DEPTH && n <= |nodes|
    ensures Size(InNodes(l, nodes, n, path), UnfoldFromList(l.catalog, l.required, nodes, n, path)[l.leaf])
    decreases 2 * (MAX_VIEW_DEPTH - |path|) + 1, nodes, n
  {
    if n == 0 {
      assert InNodes(l, nodes, n, path) == iset{};
    } else {
      NodesSize(l, nodes, n - 1, path);
      NodeSize(l, nodes[n - 1], path);
      assert InNodes(l, nodes, n, path) == InNodes(l, nodes, n - 1, path) + Below(n - 1, InFrom(l, nodes[n - 1], path));
      SizeOneMore(InNodes(l, nodes, n - 1, path), InNodes(l, nodes, n, path), n - 1, InFrom(l, nodes[n - 1], path),
                  UnfoldFromList(l.catalog, l.required, nodes, n - 1, path)[l.leaf],
                  UnfoldFrom(l.catalog, l.required, nodes[n - 1], path)[l.leaf]);
    }
  }

  // ---- Whole queries ----

  ghost function PathsFrom(l: Look, q: Query, path: seq<Oid>): iset<seq<Step>> {
    iset steps: seq<Step> | FromQuery(l, q, path, steps)
  }

  ghost function PathsFromView(l: Look, view: Oid, path: seq<Oid>): iset<seq<Step>> {
    iset steps: seq<Step> | FromView(l, view, path, steps)
  }

  ghost function PathsThrough(l: Look, q: Query, i: nat, path: seq<Oid>): iset<seq<Step>>
    requires i < |q.rtable|
  {
    iset steps: seq<Step> | q.rtable[i].inFromCl && FromEntry(l, q, q.rtable[i], path, steps)
  }

  /** The paths that begin in one of the first n entries. */
  ghost function PathsInto(l: Look, q: Query, n: nat, path: seq<Oid>): iset<seq<Step>>
    requires n <= |q.rtable|
  {
    iset steps: seq<Step> | steps != [] && steps[0].Entry? && steps[0].i < n && FromQuery(l, q, path, steps)
  }

  /** The spots of a whole query. */
  ghost function InQuery(l: Look, q: Query, path: seq<Oid>): iset<Spot> {
    iset p: Spot | FromNested(l, ExpressionAt(q, p.0), path, p.1)
  }

  lemma {:induction false} ViewSize(l: Look, view: Oid, path: seq<Oid>)
    requires |path| <= MAX_VIEW_DEPTH
    ensures Size(PathsFromView(l, view, path), UnfoldView(l.catalog, l.required, view, path)[l.leaf])
    decreases 2 * (MAX_VIEW_DEPTH - |path|)
  {
    if view == l.required {
      LeafSize(PathsFromView(l, view, path), l.leaf == Occurrence);
    } else if |path| >= MAX_VIEW_DEPTH || view in path || view !in l.catalog {
      LeafSize(PathsFromView(l, view, path), l.leaf == Cut);
    } else {
      QuerySize(l, l.catalog[view], path + [view]);
      assert PathsFromView(l, view, path) == PathsFrom(l, l.catalog[view], path + [view]);
    }
  }

  /** Where the unfolding stops there is the empty path, or none. */
  lemma LeafSize(paths: iset<seq<Step>>, stops: bool)
    requires forall steps :: steps in paths <==> steps == [] && stops
    ensures Size(paths, if stops then 1 else 0)
  {
    if stops {
      assert paths == iset{[]};
      assert [] in paths;
    } else {
      assert paths == iset{};
    }
  }

  lemma {:induction false} QuerySize(l: Look, q: Query, path: seq<Oid>)
    requires |path| <= MAX_VIEW_DEPTH
    ensures Size(PathsFrom(l, q, path), UnfoldQuery(l.catalog, l.required, q, path)[l.leaf])
    decreases 2 * (MAX_VIEW_DEPTH - |path|) + 1, q, 3
  {
    EntriesSize(l, q, |q.rtable|, path);
    TargetsSize(l, q.targets, |q.targets|, path);
    NodeSize(l, q.jointree, path);
    ExprsSize(l, q.others, |q.others|, path);
    var a := UnfoldTargets(l.catalog, l.required, q.targets, |q.targets|, path)[l.leaf];
    var b := UnfoldFrom(l.catalog, l.required, q.jointree, path)[l.leaf];
    var c := UnfoldExprs(l.catalog, l.required, q.others, |q.others|, path)[l.leaf];
    SpotsSize(l, q, path, a, b, c);
    StepsSize(l, q, path, UnfoldEntries(l.catalog, l.required, q, |q.rtable|, path)[l.leaf], a + b + c);
  }

  lemma SpotsSize(l: Look, q: Query, path: seq<Oid>, a: nat, b: nat, c: nat)
    requires Size(InExprs(l, OutputExprs(q.targets), |q.targets|, path), a)
    requires Size(InFrom(l, q.jointree, path), b) && Size(InExprs(l, q.others, |q.others|, path), c)
    ensures Size(InQuery(l, q, path), a + b + c)
  {
    var targets := InExprs(l, OutputExprs(q.targets), |q.targets|, path);
    var joins, others := InFrom(l, q.jointree, path), InExprs(l, q.others, |q.others|, path);
    SpotsOf(l, q, path);
    ThreeParts(targets, joins, others, InQuery(l, q, path), a, b, c);
  }

  lemma SpotsOf(l: Look, q: Query, path: seq<Oid>)
    ensures InQuery(l, q, path)
         == Below(0, InExprs(l, OutputExprs(q.targets), |q.targets|, path))
            + Below(1, InFrom(l, q.jointree, path)) + Below(2, InExprs(l, q.others, |q.others|, path))
  {
  }

  lemma ThreeParts(x: iset<Spot>, y: iset<Spot>, z: iset<Spot>, all: iset<Spot>, a: nat, b: nat, c: nat)
    requires Size(x, a) && Size(y, b) && Size(z, c) && all == Below(0, x) + Below(1, y) + Below(2, z)
    ensures Size(all, a + b + c)
  {
    SizeBelow(0, x, a);
    SizeOneMore(Below(0, x), Below(0, x) + Below(1, y), 1, y, a, b);
    SizeOneMore(Below(0, x) + Below(1, y), all, 2, z, a + b, c);
  }

  lemma StepsSize(l: Look, q: Query, path: seq<Oid>, n: nat, m: nat)
    requires Size(PathsInto(l, q, |q.rtable|, path), n) && Size(InQuery(l, q, path), m)
    ensures Size(PathsFrom(l, q, path), n + m)
  {
    var nested := iset steps: seq<Step> | steps != [] && steps[0].Nested? && FromQuery(l, q, path, steps);
    var f := (p: Spot) => [Nested(p.0)] + p.1;
    var g := (steps: seq<Step>) => if steps != [] && steps[0].Nested? then (steps[0].place, steps[1..]) else ([], []);
    forall p | p in InQuery(l, q, path) ensures f(p) in nested && g(f(p)) == p {
      assert ([Nested(p.0)] + p.1)[1..] == p.1;
    }
    forall steps | steps in nested ensures g(steps) in InQuery(l, q, path) && f(g(steps)) == steps {
      assert [steps[0]] + steps[1..] == steps;
    }
    SizeImage(InQuery(l, q, path), nested, f, g, m);
    assert PathsFrom(l, q, path) == PathsInto(l, q, |q.rtable|, path) + nested;
    SizeUnion(PathsInto(l, q, |q.rtable|, path), nested, PathsFrom(l, q, path), n, m);
  }

  lemma {:induction false} EntriesSize(l: Look, q: Query, n: nat, path: seq<Oid>)
    requires |path| <= MAX_VIEW_DEPTH && n <= |q.rtable|
    ensures Size(PathsInto(l, q, n, path), UnfoldEntries(l.catalog, l.required, q, n, path)[l.leaf])
    decreases 2 * (MAX_VIEW_DEPTH - |path|) + 1, q, 2, n
  {
    if n == 0 {
      assert PathsInto(l, q, n, path) == iset{};
    } else {
      EntriesSize(l, q, n - 1, path);
      EntrySize(l, q, n - 1, path);
      OneMoreEntry(l, q, n - 1, path, UnfoldEntries(l.catalog, l.required, q, n - 1, path)[l.leaf],
                   UnfoldEntry(l.catalog, l.required, q, n - 1, path)[l.leaf]);
    }
  }

  lemma OneMoreEntry(l: Look, q: Query, i: nat, path: seq<Oid>, n: nat, m: nat)
    requires i < |q.rtable| && Size(PathsInto(l, q, i, path), n) && Size(PathsThrough(l, q, i, path), m)
    ensures Size(PathsInto(l, q, i + 1, path), n + m)
  {
    var here := iset steps: seq<Step> | steps != [] && steps[0] == Entry(i) && FromQuery(l, q, path, steps);
    var f := (steps: seq<Step>) => [Entry(i)] + steps;
    var g := (steps: seq<Step>) => if steps == [] then [] else steps[1..];
    forall steps | steps in PathsThrough(l, q, i, path) ensures f(steps) in here && g(f(steps)) == steps {
      assert ([Entry(i)] + steps)[1..] == steps;
    }
    forall steps | steps in here ensures g(steps) in PathsThrough(l, q, i, path) && f(g(steps)) == steps {
      assert [Entry(i)] + steps[1..] == steps;
    }
    SizeImage(PathsThrough(l, q, i, path), here, f, g, m);
    assert PathsInto(l, q, i + 1, path) == PathsInto(l, q, i, path) + here;
    SizeUnion(PathsInto(l, q, i, path), here, PathsInto(l, q, i + 1, path), n, m);
  }

  lemma {:induction false} EntrySize(l: Look, q: Query, i: nat, path: seq<Oid>)
    requires |path| <= MAX_VIEW_DEPTH && i < |q.rtable|
    ensures Size(PathsThrough(l, q, i, path), UnfoldEntry(l.catalog, l.required, q, i, path)[l.leaf])
    decreases 2 * (MAX_VIEW_DEPTH - |path|) + 1, q, 1
  {
    var paths := PathsThrough(l, q, i, path);
    if !q.rtable[i].inFromCl {
      assert paths == iset{};
    } else {
      match q.rtable[i]
      case Relation(_, relid, kind) =>
        if relid == l.required {
          LeafSize(paths, l.leaf == Occurrence);
        } else if IsViewKind(kind) {
          ViewSize(l, relid, path);
          assert paths == PathsFromView(l, relid, path);
        } else {
          assert paths == iset{};
        }
      case Subquery(_, subquery) =>
        QuerySize(l, subquery, path);
        assert paths == PathsFrom(l, subquery, path);
      case CteRef(_, name, level) =>
        if level == 0 {
          CteSize(l, q, i, path);
        } else {
          assert paths == iset{};
        }
      case _ =>
        assert paths == iset{};
    }
  }

  lemma {:induction false} CteSize(l: Look, q: Query, i: nat, path: seq<Oid>)
    requires |path| <= MAX_VIEW_DEPTH && i < |q.rtable|
    requires q.rtable[i].inFromCl && q.rtable[i].CteRef? && q.rtable[i].ctelevelsup == 0
    ensures Size(PathsThrough(l, q, i, path), UnfoldCte(l.catalog, l.required, q, q.rtable[i].name, path)[l.leaf])
    decreases 2 * (MAX_VIEW_DEPTH - |path|) + 1, q, 0
  {
    var name := q.rtable[i].name;
    var first := FirstCte(q.ctes, name, 0);
    if first.Some? && !q.ctes[first.value].recursive && q.ctes[first.value].query.Some? {
      assert FirstUsable(q, name, first.value);
      assert forall j :: FirstUsable(q, name, j) ==> j == first.value;
      QuerySize(l, q.ctes[first.value].query.value, path);
      assert PathsThrough(l, q, i, path) == PathsFrom(l, q.ctes[first.value].query.value, path);
    } else {
      assert forall j :: !FirstUsable(q, name, j);
      LeafSize(PathsThrough(l, q, i, path), l.leaf == Cut);
    }
  }

  // ---- What the answers mean ----

  ghost predicate Stands(l: Look, view: Oid, steps: seq<Step>) {
    FromView(l, view, [], steps)
  }

  /** The required view stands in exactly one place of the view's unfolding, and the unfolding is never cut. */
  ghost predicate StandsOnce(catalog: Catalog, required: Oid, view: Oid) {
    && (exists steps :: OnlyPath(Look(catalog, required, Occurrence), view, steps))
    && (forall steps :: !Stands(Look(catalog, required, Cut), view, steps))
  }

  ghost predicate OnlyPath(l: Look, view: Oid, steps: seq<Step>) {
    Stands(l, view, steps) && forall other :: Stands(l, view, other) ==> other == steps
  }

  ghost function Places(l: Look, view: Oid): iset<seq<Step>> {
    iset steps: seq<Step> | Stands(l, view, steps)
  }

  /** The count is one exactly when the required view stands in one place and nothing is cut. */
  lemma OccurrencesAreCounted(catalog: Catalog, required: Oid, view: Oid)
    ensures UnfoldView(catalog, required, view, []) == OCCURRENCE <==> StandsOnce(catalog, required, view)
  {
    var found, cut := Look(catalog, required, Occurrence), Look(catalog, required, Cut);
    var leaves := UnfoldView(catalog, required, view, []);
    LeavesOf(leaves);
    PlacesSize(found, view);
    PlacesSize(cut, view);
    OneOrNot(found, view);
    NoneOrNot(cut, view);
  }

  lemma PlacesSize(l: Look, view: Oid)
    ensures Size(Places(l, view), UnfoldView(l.catalog, l.required, view, [])[l.leaf])
  {
    ViewSize(l, view, []);
    assert Places(l, view) == PathsFromView(l, view, []);
  }

  lemma OneOrNot(l: Look, view: Oid)
    ensures (exists steps :: Places(l, view) == iset{steps}) <==> exists steps :: OnlyPath(l, view, steps)
  {
    if steps :| Places(l, view) == iset{steps} {
      assert steps in Places(l, view);
      forall other | Stands(l, view, other) ensures other == steps {
        assert other in Places(l, view);
      }
      assert OnlyPath(l, view, steps);
    }
    if steps :| OnlyPath(l, view, steps) {
      assert Places(l, view) == iset{steps};
    }
  }

  lemma NoneOrNot(l: Look, view: Oid)
    ensures Places(l, view) == iset{} <==> forall steps :: !Stands(l, view, steps)
  {
    if steps :| Stands(l, view, steps) {
      assert steps in Places(l, view);
    }
  }

  lemma LeavesOf(leaves: Leaves)
    ensures leaves == OCCURRENCE <==> leaves[Occurrence] == 1 && leaves[Cut] == 0
  {
    WeightOne(leaves);
  }

  /** Each view column is a copy of the next one, by a trail through its view's query. */
  ghost predicate ColumnChain(catalog: Catalog, closure: bool, chain: seq<Column>)
    requires WellFormedCatalog(catalog)
  {
    forall i :: 0 <= i < |chain| - 1 ==> Copies(catalog, chain[i], closure, ViewColumn(chain[i + 1]))
  }

  ghost predicate Copies(catalog: Catalog, column: Column, closure: bool, s: Source)
    requires WellFormedCatalog(catalog)
  {
    column.oid in catalog && exists trail :: SourceTrail(catalog[column.oid], column.attno, closure, s, trail)
  }

  lemma CopiesExpands(catalog: Catalog, column: Column, closure: bool, s: Source)
    requires WellFormedCatalog(catalog)
    ensures Copies(catalog, column, closure, s) <==> Expands(catalog, closure, ViewColumn(column), s)
  {
    if column.oid in catalog {
      ColumnSourceExact(catalog[column.oid], column.attno, closure, s);
    }
  }

  function Sources(chain: seq<Column>): (r: seq<Source>)
    ensures |r| == |chain| && forall i :: 0 <= i < |chain| ==> r[i] == ViewColumn(chain[i])
  {
    seq(|chain|, i requires 0 <= i < |chain| => ViewColumn(chain[i]))
  }

  lemma ChainOfColumns(catalog: Catalog, from: Column, required: Column, chain: seq<Source>)
    returns (columns: seq<Column>)
    requires WellFormedCatalog(catalog) && Chain(catalog, Some(required), ViewColumn(from), chain)
    ensures |columns| == |chain| && columns[0] == from && columns[|columns| - 1] == required
    ensures ColumnChain(catalog, true, columns)
  {
    forall i | 0 <= i < |chain| ensures chain[i].ViewColumn? {
      if i < |chain| - 1 { assert Link(catalog, true, chain, i); }
    }
    columns := seq(|chain|, i requires 0 <= i < |chain| => chain[i].column);
    forall i | 0 <= i < |columns| - 1 ensures Copies(catalog, columns[i], true, ViewColumn(columns[i + 1])) {
      assert Link(catalog, true, chain, i);
      CopiesExpands(catalog, columns[i], true, ViewColumn(columns[i + 1]));
    }
  }

  lemma ColumnsOfChain(catalog: Catalog, columns: seq<Column>)
    requires WellFormedCatalog(catalog) && |columns| > 0 && ColumnChain(catalog, true, columns)
    ensures Chain(catalog, Some(columns[|columns| - 1]), ViewColumn(columns[0]), Sources(columns))
  {
    var chain := Sources(columns);
    forall i | 0 <= i < |chain| - 1 ensures Link(catalog, true, chain, i) {
      assert Copies(catalog, columns[i], true, ViewColumn(columns[i + 1]));
      CopiesExpands(catalog, columns[i], true, ViewColumn(columns[i + 1]));
    }
  }

  /** A chain of at most 64 view columns whose last one is the required column. */
  ghost predicate LeadsFrom(catalog: Catalog, from: Column, required: Column, columns: seq<Column>)
    requires WellFormedCatalog(catalog)
  {
    && 0 < |columns| <= 65 && columns[0] == from && columns[|columns| - 1] == required
    && ColumnChain(catalog, true, columns)
  }

  /** view_key_is_direct_from, without any of the recursive definitions. */
  lemma DirectFromExact(catalog: Catalog, view: Oid, attno: int, requiredView: Oid, requiredAttno: int)
    requires WellFormedCatalog(catalog)
    ensures DirectFrom(catalog, view, attno, requiredView, requiredAttno) <==>
      && attno > 0 && requiredView != 0 && requiredAttno > 0
      && StandsOnce(catalog, requiredView, view)
      && exists columns :: LeadsFrom(catalog, Column(view, attno), Column(requiredView, requiredAttno), columns)
  {
    var from, required := Column(view, attno), Column(requiredView, requiredAttno);
    OccurrencesAreCounted(catalog, requiredView, view);
    if chain :| Chain(catalog, Some(required), ViewColumn(from), chain) && |chain| - 1 <= MAX_VIEW_DEPTH {
      var columns := ChainOfColumns(catalog, from, required, chain);
      assert LeadsFrom(catalog, from, required, columns);
    }
    if columns :| LeadsFrom(catalog, from, required, columns) {
      ColumnsOfChain(catalog, columns);
    }
  }

  /** view_key_is_direct without its shortcut: at most 64 view columns, the last a copy of a table column. */
  lemma DirectExact(catalog: Catalog, view: Oid, attno: int)
    requires WellFormedCatalog(catalog)
    ensures (exists chain ::
               && Chain(catalog, None, ViewColumn(Column(view, attno)), chain)
               && |chain| - 1 <= MAX_VIEW_DEPTH)
       <==> exists columns :: LeadsToTable(catalog, Column(view, attno), columns)
  {
    var from := Column(view, attno);
    if chain :| Chain(catalog, None, ViewColumn(from), chain) && |chain| - 1 <= MAX_VIEW_DEPTH {
      var columns := ColumnsToTable(catalog, from, chain);
    }
    if columns :| LeadsToTable(catalog, from, columns) {
      var chain := Sources(columns) + [BaseColumn];
      forall i | 0 <= i < |chain| - 1 ensures Link(catalog, false, chain, i) {
        assert Copies(catalog, columns[i], false, chain[i + 1]) by {
          if i < |columns| - 1 {
            assert Copies(catalog, columns[i], false, ViewColumn(columns[i + 1]));
          }
        }
        CopiesExpands(catalog, columns[i], false, chain[i + 1]);
      }
      assert Chain(catalog, None, ViewColumn(from), chain);
    }
  }

  ghost predicate LeadsToTable(catalog: Catalog, from: Column, columns: seq<Column>)
    requires WellFormedCatalog(catalog)
  {
    && 0 < |columns| <= 64 && columns[0] == from && ColumnChain(catalog, false, columns)
    && Copies(catalog, columns[|columns| - 1], false, BaseColumn)
  }

  lemma ColumnsToTable(catalog: Catalog, from: Column, chain: seq<Source>) returns (columns: seq<Column>)
    requires WellFormedCatalog(catalog) && Chain(catalog, None, ViewColumn(from), chain)
    requires |chain| - 1 <= MAX_VIEW_DEPTH
    ensures LeadsToTable(catalog, from, columns)
  {
    var n, required: Option<Column> := |chain| - 1, None;
    forall i | 0 <= i < n ensures chain[i].ViewColumn? {
      assert Link(catalog, required.Some?, chain, i);
    }
    columns := seq(n, i requires 0 <= i < n => chain[i].column);
    forall i | 0 <= i < n ensures Copies(catalog, columns[i], false, chain[i + 1]) {
      assert Link(catalog, required.Some?, chain, i);
      CopiesExpands(catalog, columns[i], false, chain[i + 1]);
    }
  }
}
