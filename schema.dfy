/**
 * The schema graph's building blocks: DatabaseColumn, DatabaseTable and DatabaseJoin.
 * Foreign-key edges name the column at the other end by its identity (database, table, column),
 * so the graph is a tree of values rather than a web of objects.
 */
module Schema {
  import opened Wrappers
  import opened Text

  /** The identity of a column: the three fields DatabaseColumn declares. */
  datatype ColumnRef = ColumnRef(databaseName: string, tableName: string, columnName: string)

  /**
   * A column with the attributes the rest of the code reads: nullability, primary-key flag,
   * the columns its foreign key points to and the columns whose foreign keys point to it.
   */
  datatype Column = Column(
    id: ColumnRef,
    nullable: bool,
    primaryKey: bool,
    references: seq<ColumnRef>,
    referencedBy: seq<ColumnRef>)

  /** Lombok's toString of DatabaseColumn over its declared fields. */
  function ColumnString(c: ColumnRef): string {
    "DatabaseColumn(databaseName=" + c.databaseName + ", tableName=" + c.tableName
      + ", columnName=" + c.columnName + ")"
  }

  /** `table.column`, the qualified name used in generated SQL. */
  function TableAndColumn(c: ColumnRef): string {
    c.tableName + "." + c.columnName
  }

  /** One traversed foreign key: the local column and the column it references. */
  datatype Join = Join(foreignKey: Column, primaryKey: ColumnRef) {

    /** A join is nullable when its foreign-key column is. */
    predicate IsNullable() {
      foreignKey.nullable
    }

    function ToString(): string {
      ColumnString(foreignKey.id) + " -> " + ColumnString(primaryKey)
    }
  }

  lemma JoinNullableIgnoresPrimaryKey(j: Join, other: ColumnRef)
    ensures Join(j.foreignKey, other).IsNullable() == j.IsNullable() == j.foreignKey.nullable
  {
  }

  /** The rendering of a join falls apart into the two column renderings around " -> ". */
  lemma JoinStringParts(j: Join)
    ensures var s, a, b := j.ToString(), ColumnString(j.foreignKey.id), ColumnString(j.primaryKey);
      |s| == |a| + 4 + |b| && s[..|a|] == a && s[|a|..|a| + 4] == " -> " && s[|a| + 4..] == b
  {
  }

  predicate Distinct<T(==)>(s: seq<T>) {
    forall i, j :: 0 <= i < j < |s| ==> s[i] != s[j]
  }

  /**
   * A table's value: its names and its columns, keyed by column name and listed in
   * insertion order (the LinkedHashMap of DatabaseTable).
   */
  datatype TableInfo = TableInfo(
    databaseName: string,
    tableName: string,
    order: seq<string>,
    columns: map<string, Column>)
  {
    ghost predicate Valid() {
      Distinct(order) && (forall n :: n in columns <==> n in order)
    }

    /** The columns in insertion order. */
    function Columns(): (cs: seq<Column>)
      requires Valid()
      ensures |cs| == |order|
      ensures forall i :: 0 <= i < |order| ==> cs[i] == columns[order[i]]
    {
      seq(|order|, i requires 0 <= i < |order| => columns[order[i]])
    }

    /** LinkedHashMap.put keyed by the column's name. */
    function Put(c: Column): (t: TableInfo)
      requires Valid()
      ensures t.Valid()
      ensures t.columns == columns[c.id.columnName := c]
      ensures c.id.columnName in columns ==> t.order == order
      ensures c.id.columnName !in columns ==> t.order == order + [c.id.columnName]
      ensures t.databaseName == databaseName && t.tableName == tableName
    {
      var name := c.id.columnName;
      TableInfo(databaseName, tableName,
        if name in columns then order else order + [name],
        columns[name := c])
    }
  }

  /** The column with the first primary-key flag in insertion order, if any. */
  predicate IsFirstPrimaryKey(cs: seq<Column>, r: Option<Column>) {
    if r.None? then forall i :: 0 <= i < |cs| ==> !cs[i].primaryKey
    else
      exists i :: 0 <= i < |cs| && cs[i] == r.value && r.value.primaryKey &&
        (forall j :: 0 <= j < i ==> !cs[j].primaryKey)
  }

  /** The joins of one column: one per referenced column, in reference order. */
  function ColumnJoins(c: Column): (js: seq<Join>)
    ensures |js| == |c.references|
    ensures forall k :: 0 <= k < |js| ==> js[k] == Join(c, c.references[k])
  {
    seq(|c.references|, k requires 0 <= k < |c.references| => Join(c, c.references[k]))
  }

  /** getForeignKeyReferences over columns in order. */
  function ForeignKeyJoins(cs: seq<Column>): seq<Join> {
    if cs == [] then [] else ForeignKeyJoins(cs[..|cs| - 1]) + ColumnJoins(cs[|cs| - 1])
  }

  function ReferenceCount(cs: seq<Column>): nat {
    if cs == [] then 0 else ReferenceCount(cs[..|cs| - 1]) + |cs[|cs| - 1].references|
  }

  /** Every join of ForeignKeyJoins is one (column, referenced column) pair, and every pair is there. */
  lemma {:induction false} ForeignKeyJoinsExactly(cs: seq<Column>, j: Join)
    ensures |ForeignKeyJoins(cs)| == ReferenceCount(cs)
    ensures j in ForeignKeyJoins(cs) <==>
      exists i, k :: 0 <= i < |cs| && 0 <= k < |cs[i].references| && j == Join(cs[i], cs[i].references[k])
  {
    if cs != [] {
      var init, last := cs[..|cs| - 1], cs[|cs| - 1];
      ForeignKeyJoinsExactly(init, j);
      if j in ColumnJoins(last) {
        var k :| 0 <= k < |last.references| && ColumnJoins(last)[k] == j;
        assert cs[|cs| - 1] == last;
      }
      if exists i, k :: 0 <= i < |cs| && 0 <= k < |cs[i].references| && j == Join(cs[i], cs[i].references[k]) {
        var i, k :| 0 <= i < |cs| && 0 <= k < |cs[i].references| && j == Join(cs[i], cs[i].references[k]);
        if i < |cs| - 1 {
          assert init[i] == cs[i];
        } else {
          assert ColumnJoins(last)[k] == j;
        }
      }
    }
  }

  /** The names of the tables whose columns reference one column. */
  function ReferencingOfColumn(refs: seq<ColumnRef>): set<string> {
    if refs == [] then {} else ReferencingOfColumn(refs[..|refs| - 1]) + {refs[|refs| - 1].tableName}
  }

  /** getTablesReferencedBy over columns in order. */
  function ReferencingTables(cs: seq<Column>): set<string> {
    if cs == [] then {} else ReferencingTables(cs[..|cs| - 1]) + ReferencingOfColumn(cs[|cs| - 1].referencedBy)
  }

  lemma {:induction false} ReferencingOfColumnExactly(refs: seq<ColumnRef>, t: string)
    ensures t in ReferencingOfColumn(refs) <==> exists k :: 0 <= k < |refs| && refs[k].tableName == t
  {
    if refs != [] {
      ReferencingOfColumnExactly(refs[..|refs| - 1], t);
      if exists k :: 0 <= k < |refs| && refs[k].tableName == t {
        var k :| 0 <= k < |refs| && refs[k].tableName == t;
        if k < |refs| - 1 {
          assert refs[..|refs| - 1][k] == refs[k];
        }
      }
    }
  }

  /** A table name is in getTablesReferencedBy exactly when some column is referenced from that table. */
  lemma {:induction false} ReferencingTablesExactly(cs: seq<Column>, t: string)
    ensures t in ReferencingTables(cs) <==>
      exists i, k :: 0 <= i < |cs| && 0 <= k < |cs[i].referencedBy| && cs[i].referencedBy[k].tableName == t
  {
    if cs != [] {
      var init, last := cs[..|cs| - 1], cs[|cs| - 1];
      ReferencingTablesExactly(init, t);
      ReferencingOfColumnExactly(last.referencedBy, t);
      if exists i, k :: 0 <= i < |cs| && 0 <= k < |cs[i].referencedBy| && cs[i].referencedBy[k].tableName == t {
        var i, k :| 0 <= i < |cs| && 0 <= k < |cs[i].referencedBy| && cs[i].referencedBy[k].tableName == t;
        if i < |cs| - 1 {
          assert init[i] == cs[i];
        }
      }
    }
  }

  /** DatabaseTable: a named table whose column map is filled by addColumn. */
  class Table {
    const databaseName: string
    const tableName: string
    var order: seq<string>
    var columns: map<string, Column>

    function Info(): TableInfo
      reads this
    {
      TableInfo(databaseName, tableName, order, columns)
    }

    ghost predicate Valid()
      reads this
    {
      Info().Valid()
    }

    constructor (databaseName: string, tableName: string)
      ensures Valid()
      ensures Info() == TableInfo(databaseName, tableName, [], map[])
    {
      this.databaseName := databaseName;
      this.tableName := tableName;
      order := [];
      columns := map[];
    }

    /** Keys the column by its name, replacing a same-named one in its place. */
    method AddColumn(column: Column)
      requires Valid()
      modifies this
      ensures Valid()
      ensures Info() == old(Info()).Put(column)
    {
      var name := column.id.columnName;
      if name !in columns {
        order := order + [name];
      }
      columns := columns[name := column];
    }

    function GetColumn(columnName: string): (r: Option<Column>)
      reads this
      ensures r.Some? <==> columnName in columns
      ensures r.Some? ==> r.value == columns[columnName]
    {
      if columnName in columns then Some(columns[columnName]) else None
    }

    method GetPrimaryKeyColumn() returns (r: Option<Column>)
      requires Valid()
      ensures IsFirstPrimaryKey(Info().Columns(), r)
    {
      var cs := Info().Columns();
      var i := 0;
      while i < |order|
        invariant 0 <= i <= |order|
        invariant forall j :: 0 <= j < i ==> !cs[j].primaryKey
      {
        var column := columns[order[i]];
        if column.primaryKey {
          return Some(column);
        }
        i := i + 1;
      }
      return None;
    }

    method GetForeignKeyReferences() returns (l: seq<Join>)
      requires Valid()
      ensures l == ForeignKeyJoins(Info().Columns())
    {
      ghost var cs := Info().Columns();
      l := [];
      var i := 0;
      while i < |order|
        invariant 0 <= i <= |order|
        invariant l == ForeignKeyJoins(cs[..i])
      {
        var column := columns[order[i]];
        var k := 0;
        while k < |column.references|
          invariant 0 <= k <= |column.references|
          invariant l == ForeignKeyJoins(cs[..i]) + ColumnJoins(column)[..k]
        {
          l := l + [Join(column, column.references[k])];
          k := k + 1;
          assert ColumnJoins(column)[..k] == ColumnJoins(column)[..k - 1] + [Join(column, column.references[k - 1])];
        }
        assert cs[..i + 1][..i] == cs[..i];
        assert ColumnJoins(column)[..k] == ColumnJoins(column);
        i := i + 1;
      }
      assert cs[..i] == cs;
    }

    method GetTablesReferencedBy() returns (ret: set<string>)
      requires Valid()
      ensures ret == ReferencingTables(Info().Columns())
    {
      ghost var cs := Info().Columns();
      ret := {};
      var i := 0;
      while i < |order|
        invariant 0 <= i <= |order|
        invariant ret == ReferencingTables(cs[..i])
      {
        var column := columns[order[i]];
        var k := 0;
        while k < |column.referencedBy|
          invariant 0 <= k <= |column.referencedBy|
          invariant ret == ReferencingTables(cs[..i]) + ReferencingOfColumn(column.referencedBy[..k])
        {
          ret := ret + {column.referencedBy[k].tableName};
          k := k + 1;
          assert column.referencedBy[..k][..k - 1] == column.referencedBy[..k - 1];
        }
        assert cs[..i + 1][..i] == cs[..i];
        assert column.referencedBy[..k] == column.referencedBy;
        i := i + 1;
      }
      assert cs[..i] == cs;
    }

    /** DatabaseTable.toString */
    function ToString(): (s: string)
      reads this
      ensures s == Info().tableName
    {
      tableName
    }
  }
}
