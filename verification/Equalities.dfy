// Resolution of variables through join aliases, collection of equality quals and the
// equivalence worklist (src/rewrite.rs:311-350, 392-494).

module Equalities {
  import opened Basics
  import opened ParseTree

  type Equality = (VarKey, VarKey)

  // ---- Variable resolution ----

  /** The non-join column that an expression copies, looking through any nesting of join aliases. */
  function ResolveKey(q: Query, e: Expr): (r: Option<VarKey>)
    requires AliasesDescend(q)
    ensures r.Some? ==> InRange(q, r.value.varno) && r.value.attno > 0 && !q.rtable[r.value.varno - 1].Join?
    decreases if e.Var? then e.varno else 0
  {
    if !e.Var? || e.levelsup != 0 || e.varno <= 0 || e.varattno <= 0 || !InRange(q, e.varno) then None
    else
      var entry := q.rtable[e.varno - 1];
      if !entry.Join? then Some(VarKey(e.varno, e.varattno))
      else if e.varattno > |entry.aliases| then None
      else
        assert AliasBelow(entry.aliases[e.varattno - 1], e.varno - 1);
        ResolveKey(q, entry.aliases[e.varattno - 1])
  }

  // ---- Equality quals ----

  /** The column pairs that one qual equates: conjunctions are searched, other connectives are not. */
  function QualEqualities(q: Query, qual: Expr): seq<Equality>
    requires AliasesDescend(q)
    decreases qual, 0
  {
    match qual
    case BoolExpr(And, conds) => QualListEqualities(q, conds, |conds|)
    case OpExpr(_, hashJoinable, args) =>
      if |args| != 2 || !hashJoinable then []
      else
        var left, right := ResolveKey(q, args[0]), ResolveKey(q, args[1]);
        if left.Some? && right.Some? then [(left.value, right.value)] else []
    case _ => []
  }

  function QualListEqualities(q: Query, quals: seq<Expr>, n: nat): seq<Equality>
    requires AliasesDescend(q) && n <= |quals|
    decreases quals, n
  {
    if n == 0 then [] else QualListEqualities(q, quals, n - 1) + QualEqualities(q, quals[n - 1])
  }

  function OptionalQualEqualities(q: Query, quals: Option<Expr>): seq<Equality>
    requires AliasesDescend(q)
  {
    if quals.Some? then QualEqualities(q, quals.value) else []
  }

  function FromEqualities(q: Query, node: FromNode): seq<Equality>
    requires AliasesDescend(q)
    decreases node, 0
  {
    match node
    case FromExpr(fromlist, quals) =>
      FromListEqualities(q, fromlist, |fromlist|) + OptionalQualEqualities(q, quals)
    case JoinExpr(_, larg, rarg, quals, _) =>
      FromEqualities(q, larg) + FromEqualities(q, rarg) + OptionalQualEqualities(q, quals)
    case RangeTblRef(_) => []
  }

  function FromListEqualities(q: Query, nodes: seq<FromNode>, n: nat): seq<Equality>
    requires AliasesDescend(q) && n <= |nodes|
    decreases nodes, n
  {
    if n == 0 then [] else FromListEqualities(q, nodes, n - 1) + FromEqualities(q, nodes[n - 1])
  }

  function JoinTreeEqualities(q: Query): seq<Equality>
    requires AliasesDescend(q)
  {
    FromEqualities(q, q.jointree)
  }

  /** The output vector that the collecting traversal pushes to. */
  class EqualityCollector {
    var output: seq<Equality>

    constructor ()
      ensures output == []
    {
      output := [];
    }

    method CollectQual(q: Query, qual: Expr)
      requires AliasesDescend(q)
      modifies this
      ensures output == old(output) + QualEqualities(q, qual)
      decreases qual
    {
      match qual {
        case BoolExpr(And, conds) =>
          for index := 0 to |conds|
            invariant output == old(output) + QualListEqualities(q, conds, index)
          {
            CollectQual(q, conds[index]);
          }
        case OpExpr(_, hashJoinable, args) =>
          if |args| != 2 || !hashJoinable {
            return;
          }
          var left, right := ResolveKey(q, args[0]), ResolveKey(q, args[1]);
          if left.Some? && right.Some? {
            output := output + [(left.value, right.value)];
          }
        case _ =>
      }
    }

    method CollectFrom(q: Query, node: FromNode)
      requires AliasesDescend(q)
      modifies this
      ensures output == old(output) + FromEqualities(q, node)
      decreases node
    {
      match node {
        case FromExpr(fromlist, quals) =>
          for index := 0 to |fromlist|
            invariant output == old(output) + FromListEqualities(q, fromlist, index)
          {
            CollectFrom(q, fromlist[index]);
          }
          if quals.Some? {
            CollectQual(q, quals.value);
          }
        case JoinExpr(_, larg, rarg, quals, _) =>
          CollectFrom(q, larg);
          CollectFrom(q, rarg);
          if quals.Some? {
            CollectQual(q, quals.value);
          }
        case RangeTblRef(_) =>
      }
    }
  }

  // ---- The equality graph and its components ----

  ghost predicate Adjacent(equalities: seq<Equality>, x: VarKey, y: VarKey) {
    (x, y) in equalities || (y, x) in equalities
  }

  ghost predicate IsWalk(equalities: seq<Equality>, walk: seq<VarKey>) {
    |walk| > 0 && forall i {:trigger walk[i]} :: 0 < i < |walk| ==> Adjacent(equalities, walk[i - 1], walk[i])
  }

  ghost predicate WalkBetween(equalities: seq<Equality>, walk: seq<VarKey>, x: VarKey, y: VarKey) {
    IsWalk(equalities, walk) && walk[0] == x && walk[|walk| - 1] == y
  }

  /** y lies in the connected component of x. */
  ghost predicate Connected(equalities: seq<Equality>, x: VarKey, y: VarKey) {
    exists walk :: WalkBetween(equalities, walk, x, y)
  }

  lemma ConnectedRefl(equalities: seq<Equality>, x: VarKey)
    ensures Connected(equalities, x, x)
  {
    assert WalkBetween(equalities, [x], x, x);
  }

  lemma ConnectedStep(equalities: seq<Equality>, x: VarKey, y: VarKey, z: VarKey)
    requires Connected(equalities, x, y) && Adjacent(equalities, y, z)
    ensures Connected(equalities, x, z)
  {
    var walk :| WalkBetween(equalities, walk, x, y);
    assert WalkBetween(equalities, walk + [z], x, z);
  }

  /** A set that holds x and is closed under adjacency holds the whole component of x. */
  lemma {:induction false} ClosedSetHoldsWalk(equalities: seq<Equality>, walk: seq<VarKey>, closed: seq<VarKey>)
    requires IsWalk(equalities, walk) && walk[0] in closed
    requires forall u, v :: u in closed && Adjacent(equalities, u, v) ==> v in closed
    ensures walk[|walk| - 1] in closed
  {
    if |walk| > 1 {
      var shorter := walk[..|walk| - 1];
      ClosedSetHoldsWalk(equalities, shorter, closed);
      assert Adjacent(equalities, walk[|walk| - 2], walk[|walk| - 1]);
    }
  }

  ghost predicate NoDuplicates<T>(s: seq<T>) {
    forall i, j :: 0 <= i < j < |s| ==> s[i] != s[j]
  }

  lemma {:induction false} NoDuplicatesBound<T>(s: seq<T>, universe: set<T>)
    requires NoDuplicates(s) && forall x :: x in s ==> x in universe
    ensures |s| <= |universe|
  {
    if s != [] {
      NoDuplicatesBound(s[1..], universe - {s[0]});
    }
  }

  /** The finite set that every component member comes from. */
  ghost function Endpoints(equalities: seq<Equality>, start: VarKey): set<VarKey> {
    {start} + (set e | e in equalities :: e.0) + (set e | e in equalities :: e.1)
  }

  /** s starts at start, repeats nothing and stays inside the component. */
  ghost predicate PartOfComponent(equalities: seq<Equality>, start: VarKey, s: seq<VarKey>) {
    && |s| > 0 && s[0] == start
    && NoDuplicates(s)
    && forall y :: y in s ==> y in Endpoints(equalities, start) && Connected(equalities, start, y)
  }

  /** Every neighbour that the first n equalities give x is in s. */
  ghost predicate ClosedAt(equalities: seq<Equality>, n: nat, x: VarKey, s: seq<VarKey>)
    requires n <= |equalities|
  {
    forall y :: Adjacent(equalities[..n], x, y) ==> y in s
  }

  ghost predicate ClosedUpTo(equalities: seq<Equality>, s: seq<VarKey>, n: nat)
    requires n <= |s|
  {
    forall i :: 0 <= i < n ==> ClosedAt(equalities, |equalities|, s[i], s)
  }

  lemma Grow(equalities: seq<Equality>, start: VarKey, s: seq<VarKey>, n: nat, e: nat, y: VarKey)
    requires PartOfComponent(equalities, start, s) && n < |s| && ClosedUpTo(equalities, s, n)
    requires e < |equalities| && (equalities[e] == (s[n], y) || equalities[e] == (y, s[n])) && y !in s
    ensures PartOfComponent(equalities, start, s + [y])
    ensures ClosedUpTo(equalities, s + [y], n)
  {
    assert equalities[e] in equalities;
    ConnectedStep(equalities, start, s[n], y);
    forall k | 0 <= k < n ensures ClosedAt(equalities, |equalities|, (s + [y])[k], s + [y]) {
      assert ClosedAt(equalities, |equalities|, s[k], s);
    }
  }

  lemma ScanStep(equalities: seq<Equality>, e: nat, x: VarKey, before: seq<VarKey>, s: seq<VarKey>)
    requires e < |equalities| && ClosedAt(equalities, e, x, before)
    requires forall y :: y in before ==> y in s
    requires equalities[e].0 == x ==> equalities[e].1 in s
    requires equalities[e].1 == x ==> equalities[e].0 in s
    ensures ClosedAt(equalities, e + 1, x, s)
  {
    assert equalities[..e + 1] == equalities[..e] + [equalities[e]];
    forall y | Adjacent(equalities[..e + 1], x, y) ensures y in s {
      if Adjacent(equalities[..e], x, y) {
      } else {
        assert equalities[e] == (x, y) || equalities[e] == (y, x);
      }
    }
  }

  lemma ClosedIsComponent(equalities: seq<Equality>, start: VarKey, s: seq<VarKey>)
    requires PartOfComponent(equalities, start, s) && ClosedUpTo(equalities, s, |s|)
    ensures forall y :: y in s <==> Connected(equalities, start, y)
  {
    assert equalities[..|equalities|] == equalities;
    forall y | Connected(equalities, start, y) ensures y in s {
      var walk :| WalkBetween(equalities, walk, start, y);
      assert forall u :: u in s ==> ClosedAt(equalities, |equalities|, u, s);
      ClosedSetHoldsWalk(equalities, walk, s);
    }
  }

  /** The worklist returns the component of start, each member once, start first. */
  method Equivalents(equalities: seq<Equality>, start: VarKey) returns (equivalents: seq<VarKey>)
    ensures |equivalents| > 0 && equivalents[0] == start
    ensures NoDuplicates(equivalents)
    ensures forall y :: y in equivalents <==> Connected(equalities, start, y)
  {
    equivalents := [start];
    ConnectedRefl(equalities, start);
    var index := 0;
    while index < |equivalents|
      invariant index <= |equivalents|
      invariant PartOfComponent(equalities, start, equivalents)
      invariant ClosedUpTo(equalities, equivalents, index)
      decreases |Endpoints(equalities, start)| - index
    {
      var current := equivalents[index];
      for e := 0 to |equalities|
        invariant index < |equivalents| && equivalents[index] == current
        invariant PartOfComponent(equalities, start, equivalents)
        invariant ClosedUpTo(equalities, equivalents, index)
        invariant ClosedAt(equalities, e, current, equivalents)
      {
        ghost var before := equivalents;
        var (left, right) := equalities[e];
        if left == current || right == current {
          var next := if left == current then right else left;
          if next !in equivalents {
            Grow(equalities, start, equivalents, index, e, next);
            equivalents := equivalents + [next];
          }
        }
        ScanStep(equalities, e, current, before, equivalents);
      }
      NoDuplicatesBound(equivalents, Endpoints(equalities, start));
      index := index + 1;
    }
    ClosedIsComponent(equalities, start, equivalents);
  }
}
