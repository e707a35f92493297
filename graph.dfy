/**
 * The schema as a value: table name to table, and the specifications of the two graph searches
 * of DatabaseMetadata — the tables reachable through reverse foreign keys, and the join path
 * from one table to another.
 */
module Graphs {
  import opened Schema

  type Graph = map<string, TableInfo>

  predicate Resolves(g: Graph, r: ColumnRef) {
    r.tableName in g && r.columnName in g[r.tableName].columns
  }

  function Lookup(g: Graph, r: ColumnRef): Column
    requires Resolves(g, r)
  {
    g[r.tableName].columns[r.columnName]
  }

  predicate RefsResolve(g: Graph, refs: seq<ColumnRef>) {
    forall k :: 0 <= k < |refs| ==> Resolves(g, refs[k])
  }

  predicate ColumnsResolve(g: Graph, cs: seq<Column>) {
    forall i :: 0 <= i < |cs| ==> RefsResolve(g, cs[i].references)
  }

  /** A column stored under its own name, in its own table, with every edge naming a present column. */
  ghost predicate ColumnWellFormed(g: Graph, t: string, n: string, c: Column) {
    c.id.tableName == t && c.id.columnName == n &&
    RefsResolve(g, c.references) && RefsResolve(g, c.referencedBy)
  }

  /** The schema the metadata loader builds: every foreign-key edge lands on a column that exists. */
  ghost predicate WellFormed(g: Graph) {
    (forall t :: t in g ==> g[t].Valid() && g[t].tableName == t) &&
    (forall t, n :: t in g && n in g[t].columns ==> ColumnWellFormed(g, t, n, g[t].columns[n]))
  }

  lemma ColumnsOfWellFormed(g: Graph, t: string)
    requires WellFormed(g) && t in g
    ensures ColumnsResolve(g, g[t].Columns())
    ensures forall i :: 0 <= i < |g[t].order| ==>
      g[t].Columns()[i].id.columnName == g[t].order[i] && g[t].Columns()[i].id.tableName == t
  {
    var cs := g[t].Columns();
    forall i | 0 <= i < |cs|
      ensures RefsResolve(g, cs[i].references)
    {
      assert ColumnWellFormed(g, t, g[t].order[i], g[t].columns[g[t].order[i]]);
    }
  }

  // ---------------------------------------------------------------------------------------------
  // Cardinality facts used as termination measures

  lemma SubsetCard<T>(a: set<T>, b: set<T>)
    requires a <= b
    ensures |a| <= |b|
    decreases b
  {
    if a != {} {
      var x :| x in a;
      SubsetCard(a - {x}, b - {x});
    }
  }

  lemma ExcludeOneCard(keys: set<string>, excl: set<string>, x: string, more: set<string>)
    requires x in keys && x !in excl && x in more
    ensures |keys - (excl + more)| < |keys - excl|
  {
    var a := keys - (excl + {x});
    assert keys - excl == a + {x};
    SubsetCard(keys - (excl + more), a);
  }

  // ---------------------------------------------------------------------------------------------
  // getAllTablesReferencedBy

  /** getTablesReferencedBy of a table of the graph. */
  ghost function Referencing(g: Graph, t: string): set<string> {
    if t in g && g[t].Valid() then ReferencingTables(g[t].Columns()) else {}
  }

  lemma ReferencingInGraph(g: Graph, t: string)
    requires WellFormed(g)
    ensures Referencing(g, t) <= g.Keys
  {
    if t in g {
      var cs := g[t].Columns();
      forall x | x in Referencing(g, t)
        ensures x in g
      {
        ReferencingTablesExactly(cs, x);
        var i, k :| 0 <= i < |cs| && 0 <= k < |cs[i].referencedBy| && cs[i].referencedBy[k].tableName == x;
        assert ColumnWellFormed(g, t, g[t].order[i], cs[i]);
      }
    }
  }

  /** A set of tables that contains every table referencing one of its members, bar the excluded ones. */
  ghost predicate Closed(g: Graph, s: set<string>, excl: set<string>) {
    forall x, y :: x in s && y in Referencing(g, x) && y !in excl ==> y in s
  }

  /**
   * The result of getAllTablesReferencedBy(t, excl): the least set that holds the tables directly
   * referencing t and is closed, with the excluded tables kept out.
   */
  ghost predicate IsReferenceClosure(g: Graph, t: string, excl: set<string>, s: set<string>) {
    s !! excl &&
    Referencing(g, t) - excl <= s &&
    Closed(g, s, excl) &&
    forall s' :: Closed(g, s', excl) && Referencing(g, t) - excl <= s' ==> s <= s'
  }

  /** The result does not depend on the order in which the search visits tables. */
  lemma ReferenceClosureUnique(g: Graph, t: string, excl: set<string>, s1: set<string>, s2: set<string>)
    requires IsReferenceClosure(g, t, excl, s1) && IsReferenceClosure(g, t, excl, s2)
    ensures s1 == s2
  {
  }

  /**
   * Progress of the search: the tables found so far avoid the exclusions, are forced by any closed
   * superset of the direct ones, and each one already expanded has its referencing tables found.
   */
  ghost predicate SearchState(g: Graph, t: string, excl: set<string>, found: set<string>, pending: set<string>) {
    pending <= found && found !! excl && Referencing(g, t) - excl <= found &&
    (forall x :: x in found && x !in pending ==> Referencing(g, x) - excl <= found) &&
    (forall s :: Closed(g, s, excl) && Referencing(g, t) - excl <= s ==> found <= s)
  }

  lemma SearchStart(g: Graph, t: string, excl: set<string>)
    ensures SearchState(g, t, excl, Referencing(g, t) - excl, Referencing(g, t) - excl)
  {
  }

  /** Expanding one pending table with a nested search that excludes everything found so far. */
  lemma SearchStep(g: Graph, t: string, excl: set<string>, found: set<string>, pending: set<string>,
                   nested: string, more: set<string>)
    requires SearchState(g, t, excl, found, pending) && nested in pending
    requires IsReferenceClosure(g, nested, excl + found, more)
    ensures SearchState(g, t, excl, found + more, pending - {nested})
  {
    forall s | Closed(g, s, excl) && Referencing(g, t) - excl <= s
      ensures more <= s
    {
      assert Closed(g, s, excl + found);
    }
  }

  lemma SearchDone(g: Graph, t: string, excl: set<string>, found: set<string>)
    requires SearchState(g, t, excl, found, {})
    ensures IsReferenceClosure(g, t, excl, found)
  {
  }

  /** A chain of tables, each referencing the one before, starting from a table that references t. */
  ghost predicate ReferencePath(g: Graph, t: string, excl: set<string>, p: seq<string>) {
    |p| > 0 && p[0] in Referencing(g, t) &&
    (forall i :: 0 <= i < |p| ==> p[i] !in excl) &&
    (forall i :: 0 <= i < |p| - 1 ==> p[i + 1] in Referencing(g, p[i]))
  }

  /** Every table at the end of a path that avoids the excluded tables is in the result. */
  lemma {:induction false} ClosureContainsPaths(g: Graph, t: string, excl: set<string>, s: set<string>, p: seq<string>)
    requires IsReferenceClosure(g, t, excl, s) && ReferencePath(g, t, excl, p)
    ensures p[|p| - 1] in s
    decreases |p|
  {
    if |p| > 1 {
      var q := p[..|p| - 1];
      assert ReferencePath(g, t, excl, q);
      ClosureContainsPaths(g, t, excl, s, q);
      assert p[|p| - 1] in Referencing(g, p[|p| - 2]);
    }
  }

  /** Every table of the result is at the end of such a path: nothing else is collected. */
  lemma ClosureOnlyPaths(g: Graph, t: string, excl: set<string>, s: set<string>, x: string)
    requires IsReferenceClosure(g, t, excl, s) && x in s
    ensures exists p :: ReferencePath(g, t, excl, p) && p[|p| - 1] == x
  {
    var reached := set y | y in s && exists p :: ReferencePath(g, t, excl, p) && p[|p| - 1] == y;
    forall y | y in Referencing(g, t) - excl
      ensures y in reached
    {
      assert ReferencePath(g, t, excl, [y]);
    }
    forall a, b | a in reached && b in Referencing(g, a) && b !in excl
      ensures b in reached
    {
      var p :| ReferencePath(g, t, excl, p) && p[|p| - 1] == a;
      assert ReferencePath(g, t, excl, p + [b]);
    }
    assert Closed(g, reached, excl);
  }

  ghost predicate Reachable(g: Graph, t: string, excl: set<string>, x: string) {
    exists p :: ReferencePath(g, t, excl, p) && p[|p| - 1] == x
  }

  /** The result of getAllTablesReferencedBy is exactly the set of tables reachable by such paths. */
  lemma ClosureIsReachable(g: Graph, t: string, excl: set<string>, s: set<string>)
    requires IsReferenceClosure(g, t, excl, s)
    ensures forall x :: x in s <==> Reachable(g, t, excl, x)
  {
    forall x | Reachable(g, t, excl, x)
      ensures x in s
    {
      var p :| ReferencePath(g, t, excl, p) && p[|p| - 1] == x;
      ClosureContainsPaths(g, t, excl, s, p);
    }
    forall x | x in s
      ensures Reachable(g, t, excl, x)
    {
      ClosureOnlyPaths(g, t, excl, s, x);
    }
  }

  // ---------------------------------------------------------------------------------------------
  // getJoins

  /**
   * The test a referenced column passes in the direct search: right table, nullability, not excluded.
   * A reference to a column that is not in the graph never passes (on a well-formed graph there is none).
   */
  ghost predicate DirectMatch(g: Graph, r: ColumnRef, to: string, nullOk: bool, excl: set<string>) {
    Resolves(g, r) && r.tableName == to && (nullOk || !Lookup(g, r).nullable) && r.tableName !in excl
  }

  /** The columns the indirect search follows: some reference, and nullable only when allowed. */
  predicate Eligible(c: Column, nullOk: bool) {
    |c.references| > 0 && (nullOk || !c.nullable)
  }

  /** Direct joins from one column, in reference order. */
  ghost function DirectOfColumn(g: Graph, c: Column, refs: seq<ColumnRef>, to: string, nullOk: bool,
                                excl: set<string>): seq<Join>
  {
    if refs == [] then []
    else
      var r := refs[|refs| - 1];
      DirectOfColumn(g, c, refs[..|refs| - 1], to, nullOk, excl)
        + (if DirectMatch(g, r, to, nullOk, excl) then [Join(c, r)] else [])
  }

  /** Direct joins from columns in order. */
  ghost function DirectJoins(g: Graph, cs: seq<Column>, to: string, nullOk: bool, excl: set<string>): seq<Join> {
    if cs == [] then []
    else
      var c := cs[|cs| - 1];
      DirectJoins(g, cs[..|cs| - 1], to, nullOk, excl) + DirectOfColumn(g, c, c.references, to, nullOk, excl)
  }

  /** The keep-first-strictly-shorter choice among candidate paths. */
  function FirstShortest(cands: seq<seq<Join>>): seq<Join> {
    if cands == [] then []
    else
      var best, x := FirstShortest(cands[..|cands| - 1]), cands[|cands| - 1];
      if best == [] || |x| < |best| then x else best
  }

  /**
   * The join path getJoins(from, to, nullOk, excl) computes. From a table not yet excluded it returns
   * all direct joins to `to`; failing those, the first shortest path through one referenced table,
   * searched with `from` added to the exclusions. (A table missing from the graph makes the source
   * fail; SearchJoins reports that, and the empty value this function gives there is never used.)
   */
  ghost function Joins(g: Graph, from: string, to: string, nullOk: bool, excl: set<string>): seq<Join>
    decreases |g.Keys - excl|, 1, 0, 0
  {
    if from in excl || from !in g || !g[from].Valid() then []
    else
      var inner := excl + {from};
      ExcludeOneCard(g.Keys, excl, from, {from});
      var cs := g[from].Columns();
      var direct := DirectJoins(g, cs, to, nullOk, inner);
      if direct != [] then direct else FirstShortest(Candidates(g, cs, to, nullOk, inner))
  }

  /** The non-empty paths through each eligible column's references, in iteration order. */
  ghost function Candidates(g: Graph, cs: seq<Column>, to: string, nullOk: bool, excl: set<string>): seq<seq<Join>>
    decreases |g.Keys - excl| + 1, 0, |cs|, 0
  {
    if cs == [] then []
    else
      var c := cs[|cs| - 1];
      Candidates(g, cs[..|cs| - 1], to, nullOk, excl)
        + (if Eligible(c, nullOk) then ColumnCandidates(g, c, c.references, to, nullOk, excl) else [])
  }

  ghost function ColumnCandidates(g: Graph, c: Column, refs: seq<ColumnRef>, to: string, nullOk: bool,
                                  excl: set<string>): seq<seq<Join>>
    decreases |g.Keys - excl| + 1, 0, 0, |refs|
  {
    if refs == [] then []
    else
      var r := refs[|refs| - 1];
      ColumnCandidates(g, c, refs[..|refs| - 1], to, nullOk, excl)
        + CandidateAt(g, c, r, to, nullOk, excl)
  }

  /** The candidate through one reference: nothing when its table is excluded or leads nowhere. */
  ghost function CandidateAt(g: Graph, c: Column, r: ColumnRef, to: string, nullOk: bool,
                             excl: set<string>): seq<seq<Join>>
    decreases |g.Keys - excl| + 1, 0, 0, 0
  {
    if r.tableName in excl then []
    else
      var sub := Joins(g, r.tableName, to, nullOk, excl);
      if sub == [] then [] else [[Join(c, r)] + sub]
  }
}
