/**
 * The SQL that PatientEventConsumer builds from the schema: the per-table queries that find the
 * patient behind a row, and the statements of the initial snapshot.
 *
 * A query is first described as a value (SqlQuery) and then rendered exactly as the builder appends
 * its pieces, so that what the text refers to (the tables bound by FROM and INNER JOIN) can be
 * stated and proved.
 */
module PatientQueries {
  import opened Wrappers
  import opened Text
  import opened Schema
  import opened Graphs
  import opened JoinSearch
  import opened Metadata

  // ---------------------------------------------------------------------------------------------
  // Queries as values

  /** `table.column` in generated SQL; the alias of every table is its own name. */
  datatype Qualified = Qualified(table: string, column: string)

  function Qualify(c: ColumnRef): Qualified {
    Qualified(c.tableName, c.columnName)
  }

  function QualifiedString(q: Qualified): string {
    q.table + "." + q.column
  }

  /** ` inner join T T on L = R` */
  datatype InnerJoin = InnerJoin(table: string, left: Qualified, right: Qualified)

  datatype SqlQuery = SqlQuery(
    select: Qualified,
    from: Option<string>,
    joins: seq<InnerJoin>,
    patientJoin: Option<InnerJoin>,
    where: Qualified)

  // The fixed pieces of the generated SQL.
  const SELECT: string := "select "
  const FROM: string := " from "
  const INNER_JOIN: string := " inner join "
  const ON: string := " on "
  const EQUALS: string := " = "
  const WHERE: string := " where "
  const PARAMETER: string := " = ?"

  function InnerJoinString(j: InnerJoin): string {
    INNER_JOIN + j.table + " " + j.table + ON + j.left.table + "." + j.left.column + EQUALS +
    j.right.table + "." + j.right.column
  }

  function InnerJoinsString(js: seq<InnerJoin>): string {
    if js == [] then "" else InnerJoinsString(js[..|js| - 1]) + InnerJoinString(js[|js| - 1])
  }

  function FromString(from: Option<string>): string {
    if from.None? then "" else FROM + from.value + " " + from.value
  }

  /** The patient join of the person fallback is followed by a space. */
  function PatientJoinString(j: Option<InnerJoin>): string {
    if j.None? then "" else InnerJoinString(j.value) + " "
  }

  /** Everything before the final " = ?". */
  function SqlBody(q: SqlQuery): string {
    SELECT + QualifiedString(q.select) + FromString(q.from) + InnerJoinsString(q.joins) +
    PatientJoinString(q.patientJoin) + WHERE + QualifiedString(q.where)
  }

  function SqlString(q: SqlQuery): string {
    SqlBody(q) + PARAMETER
  }

  /** The tables in scope before the k-th inner join: the FROM table and the first k joined ones. */
  function Bound(q: SqlQuery, k: nat): set<string>
    requires k <= |q.joins|
  {
    if k == 0 then (if q.from.Some? then {q.from.value} else {})
    else Bound(q, k - 1) + {q.joins[k - 1].table}
  }

  /**
   * A query every column reference of which is in scope: it has a FROM table, each join's left
   * column belongs to a table already in scope and its right column to the joined table, and the
   * selected, filtered and patient-join columns belong to tables in scope.
   */
  predicate Scoped(q: SqlQuery) {
    var all := Bound(q, |q.joins|);
    q.from.Some? &&
    (forall k :: 0 <= k < |q.joins| ==>
      q.joins[k].left.table in Bound(q, k) && q.joins[k].right.table == q.joins[k].table) &&
    q.select.table in all && q.where.table in all &&
    (q.patientJoin.Some? ==>
      q.patientJoin.value.left.table in all && q.patientJoin.value.right.table == q.patientJoin.value.table)
  }

  // ---------------------------------------------------------------------------------------------
  // The patient-id query of a join path

  /** The inner join that follows one join of the path: the referenced table, on fk = pk. */
  function PathJoin(j: Join): InnerJoin {
    InnerJoin(j.primaryKey.tableName, Qualify(j.foreignKey.id), Qualify(j.primaryKey))
  }

  function PathJoins(js: seq<Join>): (r: seq<InnerJoin>)
    ensures |r| == |js|
  {
    if js == [] then [] else PathJoins(js[..|js| - 1]) + [PathJoin(js[|js| - 1])]
  }

  lemma {:induction false} PathJoinsIndex(js: seq<Join>)
    ensures |PathJoins(js)| == |js| && forall i :: 0 <= i < |js| ==> PathJoins(js)[i] == PathJoin(js[i])
  {
    if js != [] {
      PathJoinsIndex(js[..|js| - 1]);
    }
  }

  /**
   * The query getPatientIdQueries writes, as written: the FROM clause is emitted from inside the
   * loop over all joins but the last, so a one-join path gets none, and the person fallback always
   * joins patient on `person.person_id`, which is out of scope unless the path joins person.
   */
  function QueryAsWritten(js: seq<Join>, viaPerson: bool): SqlQuery
    requires |js| > 0
  {
    var first, last := js[0], js[|js| - 1];
    SqlQuery(
      Qualify(last.foreignKey.id),
      if |js| > 1 then Some(first.foreignKey.id.tableName) else None,
      PathJoins(js[..|js| - 1]),
      if viaPerson then Some(InnerJoin("patient", PERSON_KEY, PATIENT_KEY))
      else None,
      Qualify(first.foreignKey.id))
  }

  const PERSON_KEY: Qualified := Qualified("person", "person_id")
  const PATIENT_KEY: Qualified := Qualified("patient", "patient_id")

  /** Some join of the joins reaches the person table. */
  predicate ReachesPerson(js: seq<Join>) {
    exists i :: 0 <= i < |js| && js[i].primaryKey.tableName == "person"
  }

  lemma ReachesPersonSnoc(js: seq<Join>, i: int)
    requires 0 <= i < |js|
    ensures ReachesPerson(js[..i + 1]) <==> ReachesPerson(js[..i]) || js[i].primaryKey.tableName == "person"
  {
    var p := js[..i + 1];
    assert p[i] == js[i];
    if ReachesPerson(p) {
      var k :| 0 <= k < |p| && p[k].primaryKey.tableName == "person";
      if k < i {
        assert js[..i][k] == p[k];
      }
    }
    if ReachesPerson(js[..i]) {
      var k :| 0 <= k < i && js[..i][k].primaryKey.tableName == "person";
      assert p[k] == js[..i][k];
    }
  }

  /** The rendered path has the person table in scope: it starts there, or a join but the last reaches it. */
  predicate BindsPerson(js: seq<Join>) {
    |js| > 0 && (js[0].foreignKey.id.tableName == "person" || ReachesPerson(js[..|js| - 1]))
  }

  /**
   * The corrected query: it always selects FROM the first table, and the person fallback joins
   * patient on `person.person_id` as written when the path has person in scope, and otherwise on
   * the column that holds the person id (the last join's foreign key).
   */
  function Query(js: seq<Join>, viaPerson: bool): SqlQuery
    requires |js| > 0
  {
    var first, last := js[0], js[|js| - 1];
    SqlQuery(
      Qualify(last.foreignKey.id),
      Some(first.foreignKey.id.tableName),
      PathJoins(js[..|js| - 1]),
      if viaPerson then Some(InnerJoin("patient", if BindsPerson(js) then PERSON_KEY else Qualify(last.foreignKey.id), PATIENT_KEY))
      else None,
      Qualify(first.foreignKey.id))
  }

  /** As written, a one-join path renders as `select T.c where T.c = ?`, which has no FROM clause. */
  lemma AsWrittenOneJoinHasNoFrom(j: Join, viaPerson: bool)
    ensures !Scoped(QueryAsWritten([j], viaPerson))
    ensures !viaPerson ==> (SqlString(QueryAsWritten([j], viaPerson)) ==
      SELECT + TableAndColumn(j.foreignKey.id) + WHERE + TableAndColumn(j.foreignKey.id) + PARAMETER)
  {
    assert [j][..0] == [];
  }

  /**
   * As written, the person fallback is out of scope whenever no table of the rendered path is
   * named person, which is the case for a path that reaches person only at its end.
   */
  lemma AsWrittenPersonJoinUnbound(js: seq<Join>)
    requires |js| > 0 && js[0].foreignKey.id.tableName != "person"
    requires forall i :: 0 <= i < |js| - 1 ==> js[i].primaryKey.tableName != "person"
    ensures !Scoped(QueryAsWritten(js, true))
  {
    var q := QueryAsWritten(js, true);
    BoundOfPath(q, js, |js| - 1);
    assert "person" !in Bound(q, |q.joins|);
  }

  lemma {:induction false} BoundOfPath(q: SqlQuery, js: seq<Join>, k: nat)
    requires |js| > 0 && q.joins == PathJoins(js[..|js| - 1]) && k <= |q.joins|
    requires q.from.None? || q.from == Some(js[0].foreignKey.id.tableName)
    ensures forall x :: x in Bound(q, k) ==>
      (q.from.Some? && x == js[0].foreignKey.id.tableName) || exists i :: 0 <= i < k && x == js[i].primaryKey.tableName
  {
    if k > 0 {
      BoundOfPath(q, js, k - 1);
      PathJoinsIndex(js[..|js| - 1]);
    }
  }

  /** Consecutive joins of a path: each starts at the table the previous one reached or started from. */
  predicate Linked(js: seq<Join>) {
    forall i :: 0 < i < |js| ==>
      js[i].foreignKey.id.tableName == js[i - 1].primaryKey.tableName ||
      js[i].foreignKey.id.tableName == js[i - 1].foreignKey.id.tableName
  }

  lemma BoundGrows(q: SqlQuery, j: nat, k: nat)
    requires j <= k <= |q.joins|
    ensures Bound(q, j) <= Bound(q, k)
    decreases k - j
  {
    if j < k {
      BoundGrows(q, j + 1, k);
    }
  }

  /** Along a linked path, the table each join starts from is in scope when that join is emitted. */
  lemma {:induction false} StartInScope(q: SqlQuery, js: seq<Join>, k: nat)
    requires |js| > 0 && Linked(js) && k < |js|
    requires q.from == Some(js[0].foreignKey.id.tableName) && q.joins == PathJoins(js[..|js| - 1])
    ensures js[k].foreignKey.id.tableName in Bound(q, k)
  {
    if k > 0 {
      StartInScope(q, js, k - 1);
      BoundGrows(q, k - 1, k);
      PathJoinsIndex(js[..|js| - 1]);
      assert q.joins[k - 1] == PathJoin(js[k - 1]);
    }
  }

  /** The corrected query of any linked path is scoped. */
  lemma QueryScoped(js: seq<Join>, viaPerson: bool)
    requires |js| > 0 && Linked(js)
    ensures Scoped(Query(js, viaPerson))
  {
    var q := Query(js, viaPerson);
    var n := |js|;
    PathJoinsIndex(js[..n - 1]);
    forall k | 0 <= k < |q.joins|
      ensures q.joins[k].left.table in Bound(q, k) && q.joins[k].right.table == q.joins[k].table
    {
      StartInScope(q, js, k);
      assert q.joins[k] == PathJoin(js[k]);
    }
    StartInScope(q, js, n - 1);
    StartInScope(q, js, 0);
    BoundGrows(q, 0, n - 1);
    if viaPerson && BindsPerson(js) {
      PersonInScope(q, js);
    }
  }

  /** When the path has person in scope, the rendered query binds it. */
  lemma PersonInScope(q: SqlQuery, js: seq<Join>)
    requires BindsPerson(js)
    requires q.from == Some(js[0].foreignKey.id.tableName) && q.joins == PathJoins(js[..|js| - 1])
    ensures "person" in Bound(q, |q.joins|)
  {
    var n := |q.joins|;
    if js[0].foreignKey.id.tableName == "person" {
      BoundGrows(q, 0, n);
    } else {
      var i :| 0 <= i < |js| - 1 && js[..|js| - 1][i].primaryKey.tableName == "person";
      PathJoinsIndex(js[..|js| - 1]);
      assert q.joins[i].table == "person";
      BoundGrows(q, i + 1, n);
    }
  }

  /** Where the query as written is already scoped, the correction leaves it exactly as it is. */
  lemma QueryKeepsScopedAsWritten(js: seq<Join>, viaPerson: bool)
    requires |js| > 0 && Scoped(QueryAsWritten(js, viaPerson))
    ensures Query(js, viaPerson) == QueryAsWritten(js, viaPerson)
  {
    var q := QueryAsWritten(js, viaPerson);
    var n := |js|;
    assert n > 1;
    if viaPerson {
      assert "person" in Bound(q, n - 1);
      BoundOfPath(q, js, n - 1);
      if js[0].foreignKey.id.tableName != "person" {
        var i :| 0 <= i < n - 1 && "person" == js[i].primaryKey.tableName;
        assert js[..n - 1][i] == js[i];
      }
      assert BindsPerson(js);
    }
  }

  /**
   * On a linked path (the shape of every getJoins result) the correction changes the query exactly
   * when the query as written is not scoped.
   */
  lemma QueryChangesExactlyUnscoped(js: seq<Join>, viaPerson: bool)
    requires |js| > 0 && Linked(js)
    ensures Query(js, viaPerson) == QueryAsWritten(js, viaPerson) <==> Scoped(QueryAsWritten(js, viaPerson))
  {
    if Scoped(QueryAsWritten(js, viaPerson)) {
      QueryKeepsScopedAsWritten(js, viaPerson);
    } else {
      QueryScoped(js, viaPerson);
    }
  }

  /**
   * Two direct joins from one table to person, as relationship's person_a and person_b give: the
   * query as written joins person first and is scoped, so the correction keeps it as it is.
   */
  lemma TwoPersonColumnsUnchanged(a: Join, b: Join)
    requires a.primaryKey.tableName == "person" && a.foreignKey.id.tableName == b.foreignKey.id.tableName
    ensures Scoped(QueryAsWritten([a, b], true))
    ensures Query([a, b], true) == QueryAsWritten([a, b], true)
    ensures Query([a, b], true).patientJoin == Some(InnerJoin("patient", PERSON_KEY, PATIENT_KEY))
  {
    assert Linked([a, b]);
    assert BindsPerson([a, b]);
    assert [a, b][..1] == [a];
    QueryScoped([a, b], true);
  }

  /** A Chain, the shape of every getJoins result, is a linked path starting at its from-table. */
  lemma {:induction false} ChainLinked(g: Graph, js: seq<Join>, from: string, to: string, nullOk: bool,
                                        excl: set<string>)
    requires WellFormed(g) && Chain(g, js, from, to, nullOk, excl)
    ensures Linked(js) && js[0].foreignKey.id.tableName == from
    decreases |js|
  {
    var inner := excl + {from};
    assert ColumnWellFormed(g, from, js[0].foreignKey.id.columnName, js[0].foreignKey);
    if forall i :: 0 <= i < |js| ==> DirectJoin(g, js[i], from, to, nullOk, inner) {
      forall i | 0 <= i < |js|
        ensures js[i].foreignKey.id.tableName == from
      {
        assert ColumnWellFormed(g, from, js[i].foreignKey.id.columnName, js[i].foreignKey);
      }
    } else {
      var rest := js[1..];
      ChainLinked(g, rest, js[0].primaryKey.tableName, to, nullOk, inner);
      forall i | 0 <= i < |rest|
        ensures rest[i] == js[i + 1]
      {
      }
    }
  }

  /** PatientIdQuery: the column whose value fills the `?`, and the SQL text. */
  datatype PatientIdQuery = PatientIdQuery(valueColumn: string, sql: string) {
    /** The SQL with every `?` replaced by `:valueColumn`. */
    function ToString(): string {
      ReplaceAll(sql, '?', ":" + valueColumn)
    }
  }

  /** Rendered with its value column, a query ends in ` = :valueColumn` when no name holds a `?`. */
  lemma QueryStringNamesValueColumn(q: SqlQuery, valueColumn: string)
    requires '?' !in SqlBody(q)
    ensures PatientIdQuery(valueColumn, SqlString(q)).ToString() == SqlBody(q) + " = :" + valueColumn
  {
    var r := ":" + valueColumn;
    ReplaceAllConcat(SqlBody(q), PARAMETER, '?', r);
    ReplaceAllAbsent(SqlBody(q), '?', r);
    assert PARAMETER == " = " + "?";
    ReplaceAllConcat(" = ", "?", '?', r);
    ReplaceAllAbsent(" = ", '?', r);
    assert ReplaceAll("?", '?', r) == r + ReplaceAll("", '?', r);
  }

  /** One step of the builder loop: the next join of the path appended to the SQL text. */
  lemma JoinsSqlSnoc(js: seq<Join>, i: int)
    requires 0 <= i < |js|
    ensures InnerJoinsString(PathJoins(js[..i + 1])) == InnerJoinsString(PathJoins(js[..i])) + InnerJoinString(PathJoin(js[i]))
  {
    assert js[..i + 1][..i] == js[..i];
    var p := PathJoins(js[..i + 1]);
    assert p == PathJoins(js[..i]) + [PathJoin(js[i])];
    assert p[..|p| - 1] == PathJoins(js[..i]);
  }

  /** The builder loop: select, from, one inner join per join but the last, the patient join, where. */
  method BuildSql(joins: seq<Join>, viaPerson: bool) returns (sql: string)
    requires |joins| > 0
    ensures sql == SqlString(Query(joins, viaPerson))
  {
    var firstJoin, lastJoin := joins[0], joins[|joins| - 1];
    var joinsSql := "";
    var personJoined := firstJoin.foreignKey.id.tableName == "person";
    var i := 0;
    while i < |joins| - 1
      invariant 0 <= i <= |joins| - 1
      invariant joinsSql == InnerJoinsString(PathJoins(joins[..i]))
      invariant personJoined <==> firstJoin.foreignKey.id.tableName == "person" || ReachesPerson(joins[..i])
    {
      JoinsSqlSnoc(joins, i);
      ReachesPersonSnoc(joins, i);
      joinsSql := joinsSql + InnerJoinString(PathJoin(joins[i]));
      personJoined := personJoined || joins[i].primaryKey.tableName == "person";
      i := i + 1;
    }
    assert personJoined == BindsPerson(joins);
    var personColumn := if personJoined then PERSON_KEY else Qualify(lastJoin.foreignKey.id);
    var patientJoin := if viaPerson then Some(InnerJoin("patient", personColumn, PATIENT_KEY)) else None;
    sql := SELECT + QualifiedString(Qualify(lastJoin.foreignKey.id)) + FromString(Some(firstJoin.foreignKey.id.tableName)) +
      joinsSql + PatientJoinString(patientJoin) + WHERE + QualifiedString(Qualify(firstJoin.foreignKey.id)) + PARAMETER;
  }

  // ---------------------------------------------------------------------------------------------
  // getPatientIdQueries

  const ExcludedFromPatientSearch: set<string> := {"users", "provider"}

  function MakeQuery(js: seq<Join>, viaPerson: bool): PatientIdQuery
    requires |js| > 0
  {
    PatientIdQuery(js[0].foreignKey.id.columnName, SqlString(Query(js, viaPerson)))
  }

  /**
   * The query of one table: along the join path to patient when there is one, otherwise along the
   * path to person followed by the patient join, otherwise none.
   */
  ghost function QueryOf(g: Graph, t: string): Option<PatientIdQuery> {
    var toPatient := Joins(g, t, "patient", false, ExcludedFromPatientSearch);
    var toPerson := Joins(g, t, "person", false, ExcludedFromPatientSearch);
    if toPatient != [] then Some(MakeQuery(toPatient, false))
    else if toPerson != [] then Some(MakeQuery(toPerson, true))
    else None
  }

  /** The queries of the monitored tables, later entries replacing earlier ones. */
  ghost function QueriesOf(g: Graph, ts: seq<string>): map<string, PatientIdQuery> {
    if ts == [] then map[]
    else
      var m := QueriesOf(g, ts[..|ts| - 1]);
      var t := ts[|ts| - 1];
      var q := QueryOf(g, t);
      if q.Some? then m[t := q.value] else m
  }

  /** Exactly the monitored tables with a path to patient or person have a query, and it is QueryOf. */
  lemma {:induction false} QueriesOfExactly(g: Graph, ts: seq<string>, t: string)
    ensures t in QueriesOf(g, ts) <==> t in ts && QueryOf(g, t).Some?
    ensures t in QueriesOf(g, ts) ==> QueriesOf(g, ts)[t] == QueryOf(g, t).value
  {
    if ts != [] {
      QueriesOfExactly(g, ts[..|ts| - 1], t);
      assert ts == ts[..|ts| - 1] + [ts[|ts| - 1]];
    }
  }

  /**
   * Every query getPatientIdQueries builds refers only to tables it has in scope, and filters on
   * its value column in the table of the monitored row.
   */
  lemma QueriesScoped(g: Graph, ts: seq<string>, t: string)
    requires WellFormed(g) && t in g
    requires t in QueriesOf(g, ts)
    ensures var js := (if Joins(g, t, "patient", false, ExcludedFromPatientSearch) != []
                       then Joins(g, t, "patient", false, ExcludedFromPatientSearch)
                       else Joins(g, t, "person", false, ExcludedFromPatientSearch));
      |js| > 0 && Linked(js) && js[0].foreignKey.id.tableName == t &&
      QueriesOf(g, ts)[t] == MakeQuery(js, js != Joins(g, t, "patient", false, ExcludedFromPatientSearch)) &&
      Scoped(Query(js, js != Joins(g, t, "patient", false, ExcludedFromPatientSearch)))
  {
    QueriesOfExactly(g, ts, t);
    var excl := ExcludedFromPatientSearch;
    var toPatient := Joins(g, t, "patient", false, excl);
    var toPerson := Joins(g, t, "person", false, excl);
    if toPatient != [] {
      JoinsAreChains(g, t, "patient", false, excl);
      ChainLinked(g, toPatient, t, "patient", false, excl);
      QueryScoped(toPatient, false);
    } else {
      JoinsAreChains(g, t, "person", false, excl);
      ChainLinked(g, toPerson, t, "person", false, excl);
      QueryScoped(toPerson, true);
    }
  }

  lemma QueriesOfSnoc(g: Graph, ts: seq<string>, t: string)
    ensures QueriesOf(g, ts + [t]) ==
      (if QueryOf(g, t).Some? then QueriesOf(g, ts)[t := QueryOf(g, t).value] else QueriesOf(g, ts))
  {
    assert (ts + [t])[..|ts|] == ts;
  }

  /**
   * getPatientIdQueries: one query per monitored table that has a path; a monitored table that is
   * not in the schema (and not itself excluded) is a NullPointerException.
   */
  method PatientIdQueries(g: Graph, monitored: seq<string>) returns (r: Result<map<string, PatientIdQuery>>)
    requires WellFormed(g)
    ensures r.Err? <==> exists i :: 0 <= i < |monitored| && monitored[i] !in ExcludedFromPatientSearch && monitored[i] !in g
    ensures r.Err? ==> r.error == NullPointerException
    ensures r.Ok? ==> r.value == QueriesOf(g, monitored)
  {
    var ret: map<string, PatientIdQuery> := map[];
    var i := 0;
    while i < |monitored|
      invariant 0 <= i <= |monitored|
      invariant forall k :: 0 <= k < i ==> monitored[k] in ExcludedFromPatientSearch || monitored[k] in g
      invariant ret == QueriesOf(g, monitored[..i])
    {
      var tableName := monitored[i];
      assert monitored[..i + 1] == monitored[..i] + [tableName];
      QueriesOfSnoc(g, monitored[..i], tableName);
      var query := TableQuery(g, tableName);
      if query.Err? {
        return Err(query.error);
      }
      if query.value.Some? {
        ret := ret[tableName := query.value.value];
      }
      i := i + 1;
    }
    assert monitored[..i] == monitored;
    r := Ok(ret);
  }

  /** The body of the loop of getPatientIdQueries for one table: the path to patient, else to person. */
  method TableQuery(g: Graph, tableName: string) returns (r: Result<Option<PatientIdQuery>>)
    requires WellFormed(g)
    ensures r.Err? <==> tableName !in ExcludedFromPatientSearch && tableName !in g
    ensures r.Err? ==> r.error == NullPointerException
    ensures r.Ok? ==> r.value == QueryOf(g, tableName)
  {
    var joins := SearchJoins(g, tableName, "patient", false, ExcludedFromPatientSearch);
    if joins.Err? {
      return Err(joins.error);
    }
    if joins.value != [] {
      var sql := BuildSql(joins.value, false);
      return Ok(Some(PatientIdQuery(joins.value[0].foreignKey.id.columnName, sql)));
    }
    var personJoins := SearchJoins(g, tableName, "person", false, ExcludedFromPatientSearch);
    if personJoins.value != [] {
      var sql := BuildSql(personJoins.value, true);
      return Ok(Some(PatientIdQuery(personJoins.value[0].foreignKey.id.columnName, sql)));
    }
    return Ok(None);
  }

  // ---------------------------------------------------------------------------------------------
  // performInitialSnapshot

  const InsertPatients: string :=
    "insert ignore into dbevent_patient (patient_id, last_updated, deleted) " +
    "select patient_id, greatest(date_created, ifnull(date_changed, date_created), ifnull(date_voided, date_created)), voided from patient"

  /** How the rows of a table lead to a patient, for the snapshot's joins. */
  datatype Link = ByPatient | ByPerson | ByRelationship | ByProgram | ByVisit | ByEncounter | ByAllergy | ByOrder | Unlinked

  /**
   * The first test that matches, in priority order: a patient_id column, a person_id column, the
   * relationship table, then patient_program_id, visit_id, encounter_id, allergy_id and order_id.
   */
  function LinkOf(tableName: string, columns: set<string>): Link {
    if "patient_id" in columns then ByPatient
    else if "person_id" in columns then ByPerson
    else if tableName == "relationship" then ByRelationship
    else if "patient_program_id" in columns then ByProgram
    else if "visit_id" in columns then ByVisit
    else if "encounter_id" in columns then ByEncounter
    else if "allergy_id" in columns then ByAllergy
    else if "order_id" in columns then ByOrder
    else Unlinked
  }

  // The join clauses of the snapshot, one per kind of link.
  function JoinOnPatientId(t: string): string { "inner join " + t + " x on p.patient_id = x.patient_id" }
  function JoinOnPersonId(t: string): string { "inner join " + t + " x on p.patient_id = x.person_id" }
  const JoinOnPersonA: string := "inner join relationship x on p.patient_id = x.person_a"
  const JoinOnPersonB: string := "inner join relationship x on p.patient_id = x.person_b"
  function JoinViaProgram(t: string): string {
    "inner join patient_program pp on p.patient_id = pp.patient_id inner join " + t +
    " x on x.patient_program_id = pp.patient_program_id"
  }
  function JoinViaVisit(t: string): string {
    "inner join visit v on p.patient_id = v.patient_id inner join " + t + " x on x.visit_id = v.visit_id"
  }
  function JoinViaEncounter(t: string): string {
    "inner join encounter e on p.patient_id = e.patient_id inner join " + t + " x on x.encounter_id = e.encounter_id"
  }
  function JoinViaAllergy(t: string): string {
    "inner join allergy a on p.patient_id = a.patient_id inner join " + t + " x on x.allergy_id = a.allergy_id"
  }
  function JoinViaOrder(t: string): string {
    "inner join orders o on p.patient_id = o.patient_id inner join " + t + " x on x.order_id = o.order_id"
  }

  /** The join clauses of each kind of link; relationship is joined once per person column. */
  function LinkJoins(link: Link, tableName: string): seq<string> {
    match link
    case ByPatient => [JoinOnPatientId(tableName)]
    case ByPerson => [JoinOnPersonId(tableName)]
    case ByRelationship => [JoinOnPersonA, JoinOnPersonB]
    case ByProgram => [JoinViaProgram(tableName)]
    case ByVisit => [JoinViaVisit(tableName)]
    case ByEncounter => [JoinViaEncounter(tableName)]
    case ByAllergy => [JoinViaAllergy(tableName)]
    case ByOrder => [JoinViaOrder(tableName)]
    case Unlinked => []
  }

  function SnapshotJoins(tableName: string, columns: set<string>): seq<string> {
    LinkJoins(LinkOf(tableName, columns), tableName)
  }

  const LinkColumns: set<string> :=
    {"patient_id", "person_id", "patient_program_id", "visit_id", "encounter_id", "allergy_id", "order_id"}

  const DateColumnNames: seq<string> := ["date_created", "date_changed", "date_voided"]

  /** The date columns of a table that can raise last_updated, in the order created, changed, voided. */
  function DateColumns(columns: set<string>): seq<string> {
    (if "date_created" in columns then [LaterOfDateCreated] else []) +
    (if "date_changed" in columns then [LaterOfDateChanged] else []) +
    (if "date_voided" in columns then [LaterOfDateVoided] else [])
  }

  const LaterOfDateCreated: string := "ifnull(x.date_created, p.last_updated)"
  const LaterOfDateChanged: string := "ifnull(x.date_changed, p.last_updated)"
  const LaterOfDateVoided: string := "ifnull(x.date_voided, p.last_updated)"
  const UpdateTracking: string := "update dbevent_patient p "
  const SetLastUpdated: string := "set p.last_updated = greatest(p.last_updated, "

  function UpdateStatement(join: string, dateColumns: seq<string>): string {
    UpdateTracking + join + " " + SetLastUpdated + JoinWith(",", dateColumns) + ")"
  }

  /** The updates for one table: one per join, and none unless it has both a join and a date column. */
  function TableUpdates(t: TableInfo): seq<string> {
    var joins := SnapshotJoins(t.tableName, t.columns.Keys);
    var dates := DateColumns(t.columns.Keys);
    if joins != [] && dates != [] then seq(|joins|, i requires 0 <= i < |joins| => UpdateStatement(joins[i], dates))
    else []
  }

  /** Whether performInitialSnapshot updates from a table: included, and not patient itself. */
  predicate SnapshotsFrom(t: TableInfo, included: string -> bool) {
    included(t.tableName) && t.tableName != "patient"
  }

  /** The statements a table contributes: its updates when it is snapshotted, none otherwise. */
  function Contribution(t: TableInfo, included: string -> bool): seq<string> {
    if SnapshotsFrom(t, included) then TableUpdates(t) else []
  }

  /** The concatenation of f over xs, in order. */
  function ConcatMap<A, B>(xs: seq<A>, f: A -> seq<B>): seq<B> {
    if xs == [] then [] else ConcatMap(xs[..|xs| - 1], f) + f(xs[|xs| - 1])
  }

  lemma {:induction false} ConcatMapExactly<A, B>(xs: seq<A>, f: A -> seq<B>, y: B)
    ensures y in ConcatMap(xs, f) <==> exists i :: 0 <= i < |xs| && y in f(xs[i])
  {
    if xs != [] {
      var init := xs[..|xs| - 1];
      ConcatMapExactly(init, f, y);
      if exists i :: 0 <= i < |xs| && y in f(xs[i]) {
        var i :| 0 <= i < |xs| && y in f(xs[i]);
        if i < |init| {
          assert init[i] == xs[i];
        }
      }
      if y in ConcatMap(init, f) {
        var i :| 0 <= i < |init| && y in f(init[i]);
        assert init[i] == xs[i];
      }
    }
  }

  lemma ConcatMapSnoc<A, B>(xs: seq<A>, f: A -> seq<B>, i: int)
    requires 0 <= i < |xs|
    ensures ConcatMap(xs[..i + 1], f) == ConcatMap(xs[..i], f) + f(xs[i])
  {
    assert xs[..i + 1][..i] == xs[..i];
  }

  lemma AppendAssociative<T>(a: seq<T>, b: seq<T>, c: seq<T>)
    ensures (a + b) + c == a + (b + c)
  {
  }

  /** The updates of the tables, concatenated in the order the tables are visited. */
  function SnapshotUpdates(tables: seq<TableInfo>, included: string -> bool): seq<string> {
    ConcatMap(tables, t => Contribution(t, included))
  }

  lemma SnapshotUpdatesExactly(tables: seq<TableInfo>, included: string -> bool, s: string)
    ensures s in SnapshotUpdates(tables, included) <==>
      exists i :: 0 <= i < |tables| && s in Contribution(tables[i], included)
  {
    ConcatMapExactly(tables, t => Contribution(t, included), s);
  }

  /** The statements of performInitialSnapshot, in the order the tables are visited. */
  function SnapshotStatements(tables: seq<TableInfo>, included: string -> bool): seq<string> {
    [InsertPatients] + SnapshotUpdates(tables, included)
  }

  /** Only relationship, when it has neither patient_id nor person_id, is joined twice; no table more. */
  lemma SnapshotJoinsTwice(tableName: string, columns: set<string>)
    ensures |SnapshotJoins(tableName, columns)| <= 2
    ensures |SnapshotJoins(tableName, columns)| == 2 <==>
      tableName == "relationship" && "patient_id" !in columns && "person_id" !in columns
  {
  }

  /** A table is joined unless it is not relationship and has none of the linking columns. */
  lemma SnapshotJoinsNone(tableName: string, columns: set<string>)
    ensures SnapshotJoins(tableName, columns) == [] <==>
      tableName != "relationship" && forall c :: c in LinkColumns ==> c !in columns
  {
  }

  /** A column earlier in the priority order wins over every later one. */
  lemma LinkPriority(tableName: string, columns: set<string>)
    ensures "patient_id" in columns ==> LinkOf(tableName, columns) == ByPatient
    ensures "patient_id" !in columns && "person_id" in columns ==> LinkOf(tableName, columns) == ByPerson
    ensures LinkOf(tableName, columns) == ByRelationship <==>
      tableName == "relationship" && "patient_id" !in columns && "person_id" !in columns
  {
  }

  /** The date-column list has one entry per date column present. */
  lemma DateColumnsCount(columns: set<string>)
    ensures |DateColumns(columns)| == |set c | c in DateColumnNames && c in columns|
    ensures DateColumns(columns) == [] <==> forall c :: c in DateColumnNames ==> c !in columns
  {
    var present := set c | c in DateColumnNames && c in columns;
    if "date_created" in columns {
      if "date_changed" in columns {
        if "date_voided" in columns {
          assert present == {"date_created", "date_changed", "date_voided"};
        } else {
          assert present == {"date_created", "date_changed"};
        }
      } else if "date_voided" in columns {
        assert present == {"date_created", "date_voided"};
      } else {
        assert present == {"date_created"};
      }
    } else if "date_changed" in columns {
      if "date_voided" in columns {
        assert present == {"date_changed", "date_voided"};
      } else {
        assert present == {"date_changed"};
      }
    } else if "date_voided" in columns {
      assert present == {"date_voided"};
    } else {
      assert present == {};
    }
  }

  /** A table contributes updates exactly when it has a join and a date column, one per join. */
  lemma TableUpdatesExactly(t: TableInfo)
    ensures TableUpdates(t) != [] <==> SnapshotJoins(t.tableName, t.columns.Keys) != [] && DateColumns(t.columns.Keys) != []
    ensures TableUpdates(t) != [] ==> |TableUpdates(t)| == |SnapshotJoins(t.tableName, t.columns.Keys)|
  {
  }

  /** After the insert, the snapshot issues exactly the updates of the included tables other than patient. */
  lemma SnapshotStatementsExactly(tables: seq<TableInfo>, included: string -> bool, s: string)
    ensures var st := SnapshotStatements(tables, included);
      st[0] == InsertPatients &&
      (s in st[1..] <==> exists i :: 0 <= i < |tables| && SnapshotsFrom(tables[i], included) && s in TableUpdates(tables[i]))
  {
    SnapshotUpdatesExactly(tables, included, s);
    assert SnapshotStatements(tables, included)[1..] == SnapshotUpdates(tables, included);
    if exists i :: 0 <= i < |tables| && SnapshotsFrom(tables[i], included) && s in TableUpdates(tables[i]) {
      var i :| 0 <= i < |tables| && SnapshotsFrom(tables[i], included) && s in TableUpdates(tables[i]);
      assert s in Contribution(tables[i], included);
    }
  }

  /** The loops of performInitialSnapshot: the insert, then the updates of each snapshotted table. */
  method InitialSnapshotStatements(tables: seq<TableInfo>, included: string -> bool) returns (statements: seq<string>)
    ensures statements == SnapshotStatements(tables, included)
  {
    statements := [InsertPatients];
    ghost var contribution := t => Contribution(t, included);
    var i := 0;
    while i < |tables|
      invariant 0 <= i <= |tables|
      invariant statements == [InsertPatients] + ConcatMap(tables[..i], contribution)
    {
      var table := tables[i];
      ConcatMapSnoc(tables, contribution, i);
      if included(table.tableName) && table.tableName != "patient" {
        var updates := SnapshotTable(table);
        AppendAssociative([InsertPatients], ConcatMap(tables[..i], contribution), updates);
        statements := statements + updates;
      }
      i := i + 1;
    }
    assert tables[..i] == tables;
  }

  /** The body of the snapshot loop for one table: an update per join, if it has joins and date columns. */
  method SnapshotTable(table: TableInfo) returns (updates: seq<string>)
    ensures updates == TableUpdates(table)
  {
    var columns := table.columns.Keys;
    var joins := SnapshotJoins(table.tableName, columns);
    var dateCols := DateColumns(columns);
    updates := [];
    if joins != [] && dateCols != [] {
      var k := 0;
      while k < |joins|
        invariant 0 <= k <= |joins|
        invariant updates == seq(k, j requires 0 <= j < k => UpdateStatement(joins[j], dateCols))
      {
        updates := updates + [UpdateStatement(joins[k], dateCols)];
        k := k + 1;
      }
    }
  }
}
