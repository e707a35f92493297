/**
 * DatabaseMetadata: the tables of one database and the two searches over their foreign keys.
 * The searches read the tables through a snapshot of them as a value (Graph); nothing changes the
 * tables while a search runs, so the snapshot and the live tables agree throughout.
 */
module Metadata {
  import opened Wrappers
  import opened Schema
  import opened Graphs

  class DatabaseMetadata {
    var databaseName: string
    var tables: map<string, Table>

    /** Every table is stored under its own name. */
    ghost predicate Valid()
      reads this, tables.Values
    {
      forall t :: t in tables ==> tables[t].Valid() && tables[t].tableName == t
    }

    /** The tables as a value. */
    function Graph(): (g: Graph)
      reads this, tables.Values
      ensures g.Keys == tables.Keys
      ensures forall t :: t in tables ==> g[t] == tables[t].Info()
    {
      map t | t in tables :: tables[t].Info()
    }

    constructor (databaseName: string)
      ensures Valid()
      ensures this.databaseName == databaseName && tables == map[]
    {
      this.databaseName := databaseName;
      tables := map[];
    }

    method AddTable(table: Table)
      requires Valid() && table.Valid()
      modifies this
      ensures Valid()
      ensures tables == old(tables)[table.tableName := table] && databaseName == old(databaseName)
      ensures Graph() == old(Graph())[table.tableName := table.Info()]
    {
      tables := tables[table.tableName := table];
    }

    function GetTable(tableName: string): (r: Option<Table>)
      reads this
      ensures r.Some? <==> tableName in tables
      ensures r.Some? ==> r.value == tables[tableName]
    {
      if tableName in tables then Some(tables[tableName]) else None
    }

    /** The column, or null when either the table or the column is missing. */
    function GetColumn(tableName: string, columnName: string): (r: Option<Column>)
      reads this, tables.Values
      ensures r.Some? <==> tableName in tables && columnName in tables[tableName].columns
      ensures r.Some? ==> r.value == tables[tableName].columns[columnName]
    {
      match GetTable(tableName)
      case None => None
      case Some(table) => table.GetColumn(columnName)
    }

    /**
     * getAllTablesReferencedBy: the tables from which a chain of foreign keys leads to the table,
     * never passing through an excluded one. An unknown table is a NullPointerException.
     */
    method GetAllTablesReferencedBy(tableName: string, excluded: set<string>) returns (r: Result<set<string>>)
      requires WellFormed(Graph())
      ensures r.Err? <==> tableName !in tables
      ensures r.Err? ==> r.error == NullPointerException
      ensures r.Ok? ==> r.value <= tables.Keys && IsReferenceClosure(Graph(), tableName, excluded, r.value)
    {
      r := TablesReferencedBy(Graph(), tableName, excluded);
    }

    /**
     * getPatientTableNames: the tables reached from patient, together with those reached from
     * person without passing through users or provider.
     */
    method GetPatientTableNames() returns (r: Result<set<string>>)
      requires WellFormed(Graph())
      ensures r.Err? <==> "patient" !in tables || "person" !in tables
      ensures r.Ok? ==> forall x :: x in r.value <==>
        Reachable(Graph(), "patient", {}, x) || Reachable(Graph(), "person", {"users", "provider"}, x)
    {
      r := PatientTableNames(Graph());
    }

    /**
     * getJoins: the join path from one table to another (Graphs.Joins, whose properties are in
     * JoinSearch). A table neither excluded nor known is a NullPointerException.
     */
    method GetJoins(from: string, to: string, nullOk: bool, excluded: set<string>) returns (r: Result<seq<Join>>)
      requires WellFormed(Graph())
      ensures r.Err? <==> from !in excluded && from !in tables
      ensures r.Err? ==> r.error == NullPointerException
      ensures r.Ok? ==> r.value == Joins(Graph(), from, to, nullOk, excluded)
    {
      r := SearchJoins(Graph(), from, to, nullOk, excluded);
    }
  }

  // ---------------------------------------------------------------------------------------------
  // getAllTablesReferencedBy

  method TablesReferencedBy(g: Graph, tableName: string, excluded: set<string>) returns (r: Result<set<string>>)
    requires WellFormed(g)
    ensures r.Err? <==> tableName !in g
    ensures r.Err? ==> r.error == NullPointerException
    ensures r.Ok? ==> r.value <= g.Keys && IsReferenceClosure(g, tableName, excluded, r.value)
    decreases |g.Keys - excluded|, 1
  {
    if tableName !in g {
      return Err(NullPointerException);
    }
    ReferencingInGraph(g, tableName);
    var ret := ReferencingTables(g[tableName].Columns()) - excluded;
    SearchStart(g, tableName, excluded);
    ret := ExpandNested(g, tableName, excluded, ret, ret);
    SearchDone(g, tableName, excluded, ret);
    return Ok(ret);
  }

  /** The loop of getAllTablesReferencedBy: one nested search per table found directly. */
  method ExpandNested(g: Graph, ghost tableName: string, excluded: set<string>, found: set<string>,
                      nestedTables: set<string>) returns (ret: set<string>)
    requires WellFormed(g) && found <= g.Keys
    requires SearchState(g, tableName, excluded, found, nestedTables)
    ensures ret <= g.Keys && SearchState(g, tableName, excluded, ret, {})
    decreases |g.Keys - excluded|, 0
  {
    ret := found;
    var pending := nestedTables;
    while pending != {}
      invariant ret <= g.Keys
      invariant SearchState(g, tableName, excluded, ret, pending)
      decreases pending
    {
      var nested :| nested in pending;
      ExcludeOneCard(g.Keys, excluded, nested, ret);
      var more := TablesReferencedBy(g, nested, excluded + ret);
      SearchStep(g, tableName, excluded, ret, pending, nested, more.value);
      pending := pending - {nested};
      ret := ret + more.value;
    }
  }

  method PatientTableNames(g: Graph) returns (r: Result<set<string>>)
    requires WellFormed(g)
    ensures r.Err? <==> "patient" !in g || "person" !in g
    ensures r.Ok? ==> forall x :: x in r.value <==>
      Reachable(g, "patient", {}, x) || Reachable(g, "person", {"users", "provider"}, x)
  {
    var fromPatient := TablesReferencedBy(g, "patient", {});
    if fromPatient.Err? {
      return Err(fromPatient.error);
    }
    var fromPerson := TablesReferencedBy(g, "person", {"users", "provider"});
    if fromPerson.Err? {
      return Err(fromPerson.error);
    }
    ClosureIsReachable(g, "patient", {}, fromPatient.value);
    ClosureIsReachable(g, "person", {"users", "provider"}, fromPerson.value);
    return Ok(fromPatient.value + fromPerson.value);
  }

  // ---------------------------------------------------------------------------------------------
  // getJoins

  method SearchJoins(g: Graph, from: string, to: string, nullOk: bool, excluded: set<string>)
    returns (r: Result<seq<Join>>)
    requires WellFormed(g)
    ensures r.Err? <==> from !in excluded && from !in g
    ensures r.Err? ==> r.error == NullPointerException
    ensures r.Ok? ==> r.value == Joins(g, from, to, nullOk, excluded)
    decreases |g.Keys - excluded|, 1
  {
    if from in excluded {
      return Ok([]);
    }
    if from !in g {
      return Err(NullPointerException);
    }
    var exclusions := excluded + {from};
    ExcludeOneCard(g.Keys, excluded, from, {from});
    ColumnsOfWellFormed(g, from);
    var ret := DirectSearch(g, from, to, nullOk, exclusions);
    if ret == [] {
      ret := IndirectSearch(g, from, to, nullOk, exclusions);
    }
    return Ok(ret);
  }

  /** The first loop of getJoins: every reference of every column of `from` that leads straight to `to`. */
  method DirectSearch(g: Graph, from: string, to: string, nullOk: bool, exclusions: set<string>)
    returns (ret: seq<Join>)
    requires WellFormed(g) && from in g
    ensures ret == DirectJoins(g, g[from].Columns(), to, nullOk, exclusions)
  {
    ColumnsOfWellFormed(g, from);
    var fromTable := g[from];
    ghost var cs := fromTable.Columns();
    ret := [];
    var i := 0;
    while i < |fromTable.order|
      invariant 0 <= i <= |fromTable.order|
      invariant ret == DirectJoins(g, cs[..i], to, nullOk, exclusions)
    {
      var fromColumn := fromTable.columns[fromTable.order[i]];
      assert fromColumn == cs[i];
      var direct := DirectSearchColumn(g, fromColumn, to, nullOk, exclusions);
      ret := ret + direct;
      assert cs[..i + 1][..i] == cs[..i];
      i := i + 1;
    }
    assert cs[..i] == cs;
  }

  method DirectSearchColumn(g: Graph, fromColumn: Column, to: string, nullOk: bool, exclusions: set<string>)
    returns (ret: seq<Join>)
    requires RefsResolve(g, fromColumn.references)
    ensures ret == DirectOfColumn(g, fromColumn, fromColumn.references, to, nullOk, exclusions)
  {
    ret := [];
    var k := 0;
    while k < |fromColumn.references|
      invariant 0 <= k <= |fromColumn.references|
      invariant ret == DirectOfColumn(g, fromColumn, fromColumn.references[..k], to, nullOk, exclusions)
    {
      var toColumn := fromColumn.references[k];
      var target := g[toColumn.tableName].columns[toColumn.columnName];
      assert fromColumn.references[..k + 1][..k] == fromColumn.references[..k];
      if toColumn.tableName == to && (nullOk || !target.nullable) && toColumn.tableName !in exclusions {
        ret := ret + [Join(fromColumn, toColumn)];
      }
      k := k + 1;
    }
    assert fromColumn.references[..k] == fromColumn.references;
  }

  /** The second loop of getJoins: the first shortest path through a followed reference. */
  method IndirectSearch(g: Graph, from: string, to: string, nullOk: bool, exclusions: set<string>)
    returns (ret: seq<Join>)
    requires WellFormed(g) && from in g && from in exclusions
    ensures ret == FirstShortest(Candidates(g, g[from].Columns(), to, nullOk, exclusions))
    decreases |g.Keys - exclusions| + 1, 0, |g[from].order|
  {
    ColumnsOfWellFormed(g, from);
    var fromTable := g[from];
    ghost var cs := fromTable.Columns();
    ret := [];
    var i := 0;
    while i < |fromTable.order|
      invariant 0 <= i <= |fromTable.order|
      invariant ret == FirstShortest(Candidates(g, cs[..i], to, nullOk, exclusions))
    {
      var c := fromTable.columns[fromTable.order[i]];
      assert c == cs[i];
      CandidatesSnoc(g, cs, i, to, nullOk, exclusions);
      if |c.references| > 0 && (nullOk || !c.nullable) {
        ret := ColumnSearch(g, c, to, nullOk, exclusions, Candidates(g, cs[..i], to, nullOk, exclusions), ret);
      }
      i := i + 1;
    }
    assert cs[..i] == cs;
  }

  /** The references of one followed column, each searched on with the same exclusions. */
  method ColumnSearch(g: Graph, c: Column, to: string, nullOk: bool, exclusions: set<string>,
                      ghost before: seq<seq<Join>>, best: seq<Join>) returns (ret: seq<Join>)
    requires WellFormed(g) && RefsResolve(g, c.references)
    requires best == FirstShortest(before)
    ensures ret == FirstShortest(before + ColumnCandidates(g, c, c.references, to, nullOk, exclusions))
    decreases |g.Keys - exclusions| + 1, 0, 0
  {
    ret := best;
    var k := 0;
    assert c.references[..0] == [];
    assert before + ColumnCandidates(g, c, c.references[..0], to, nullOk, exclusions) == before;
    while k < |c.references|
      invariant 0 <= k <= |c.references|
      invariant ret == FirstShortest(before + ColumnCandidates(g, c, c.references[..k], to, nullOk, exclusions))
    {
      var refColumn := c.references[k];
      ghost var sofar := before + ColumnCandidates(g, c, c.references[..k], to, nullOk, exclusions);
      ColumnCandidatesSnoc(g, c, before, k, to, nullOk, exclusions);
      if refColumn.tableName !in exclusions {
        var refs := SearchJoins(g, refColumn.tableName, to, nullOk, exclusions);
        if refs.value != [] {
          var path := [Join(c, refColumn)] + refs.value;
          FirstShortestSnoc(sofar, path);
          if ret == [] || |path| < |ret| {
            ret := path;
          }
        }
      }
      k := k + 1;
    }
    assert c.references[..k] == c.references;
  }

  lemma CandidatesSnoc(g: Graph, cs: seq<Column>, i: int, to: string, nullOk: bool, excl: set<string>)
    requires 0 <= i < |cs|
    ensures Candidates(g, cs[..i + 1], to, nullOk, excl) ==
      if Eligible(cs[i], nullOk)
      then Candidates(g, cs[..i], to, nullOk, excl) + ColumnCandidates(g, cs[i], cs[i].references, to, nullOk, excl)
      else Candidates(g, cs[..i], to, nullOk, excl)
  {
    assert cs[..i + 1][..i] == cs[..i];
    assert Candidates(g, cs[..i], to, nullOk, excl) + [] == Candidates(g, cs[..i], to, nullOk, excl);
  }

  /** One more reference of a column: its candidate, if any, comes last. */
  lemma ColumnCandidatesSnoc(g: Graph, c: Column, before: seq<seq<Join>>, k: int, to: string, nullOk: bool,
                             excl: set<string>)
    requires 0 <= k < |c.references|
    ensures var sofar := before + ColumnCandidates(g, c, c.references[..k], to, nullOk, excl);
      var r := c.references[k];
      before + ColumnCandidates(g, c, c.references[..k + 1], to, nullOk, excl)
        == if r.tableName in excl || Joins(g, r.tableName, to, nullOk, excl) == [] then sofar
           else sofar + [[Join(c, r)] + Joins(g, r.tableName, to, nullOk, excl)]
  {
    assert c.references[..k + 1][..k] == c.references[..k];
    var sofar := before + ColumnCandidates(g, c, c.references[..k], to, nullOk, excl);
    var at := CandidateAt(g, c, c.references[k], to, nullOk, excl);
    assert before + ColumnCandidates(g, c, c.references[..k + 1], to, nullOk, excl) == sofar + at;
    assert sofar + [] == sofar;
  }

  lemma FirstShortestSnoc(cands: seq<seq<Join>>, x: seq<Join>)
    ensures var best := FirstShortest(cands);
      FirstShortest(cands + [x]) == if best == [] || |x| < |best| then x else best
  {
    assert (cands + [x])[..|cands|] == cands;
  }
}
