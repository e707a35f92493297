/** What getJoins's result is: its shape, the exclusions it respects, and its minimality. */
module JoinSearch {
  import opened Schema
  import opened Graphs

  /** The earliest of the shortest candidates is chosen; none is chosen only when there is none. */
  lemma {:induction false} FirstShortestIsFirstOfShortest(cands: seq<seq<Join>>)
    requires forall i :: 0 <= i < |cands| ==> cands[i] != []
    ensures FirstShortest(cands) == [] <==> cands == []
    ensures cands != [] ==>
      exists i :: 0 <= i < |cands| && FirstShortest(cands) == cands[i] &&
        (forall j :: 0 <= j < |cands| ==> |cands[i]| <= |cands[j]|) &&
        (forall j :: 0 <= j < i ==> |cands[i]| < |cands[j]|)
  {
    if cands != [] {
      var init, x := cands[..|cands| - 1], cands[|cands| - 1];
      FirstShortestIsFirstOfShortest(init);
      if init == [] {
        assert FirstShortest(cands) == cands[0];
      } else {
        var i :| 0 <= i < |init| && FirstShortest(init) == init[i] &&
          (forall j :: 0 <= j < |init| ==> |init[i]| <= |init[j]|) &&
          (forall j :: 0 <= j < i ==> |init[i]| < |init[j]|);
        if |x| < |init[i]| {
          assert FirstShortest(cands) == cands[|cands| - 1];
          assert forall j :: 0 <= j < |cands| - 1 ==> cands[j] == init[j];
        } else {
          assert FirstShortest(cands) == cands[i];
          assert forall j :: 0 <= j < |cands| - 1 ==> cands[j] == init[j];
        }
      }
    }
  }

  lemma {:induction false} DirectOfColumnExactly(g: Graph, c: Column, refs: seq<ColumnRef>, to: string,
                                                  nullOk: bool, excl: set<string>, j: Join)
    ensures j in DirectOfColumn(g, c, refs, to, nullOk, excl) <==>
      exists k :: 0 <= k < |refs| && DirectMatch(g, refs[k], to, nullOk, excl) && j == Join(c, refs[k])
  {
    if refs != [] {
      var init := refs[..|refs| - 1];
      DirectOfColumnExactly(g, c, init, to, nullOk, excl, j);
      if exists k :: 0 <= k < |refs| && DirectMatch(g, refs[k], to, nullOk, excl) && j == Join(c, refs[k]) {
        var k :| 0 <= k < |refs| && DirectMatch(g, refs[k], to, nullOk, excl) && j == Join(c, refs[k]);
        if k < |refs| - 1 {
          assert init[k] == refs[k];
        }
      }
    }
  }

  /** The direct joins are exactly the matching (column, reference) pairs. */
  lemma {:induction false} DirectJoinsExactly(g: Graph, cs: seq<Column>, to: string, nullOk: bool,
                                               excl: set<string>, j: Join)
    ensures j in DirectJoins(g, cs, to, nullOk, excl) <==>
      exists i, k :: 0 <= i < |cs| && 0 <= k < |cs[i].references| &&
        DirectMatch(g, cs[i].references[k], to, nullOk, excl) && j == Join(cs[i], cs[i].references[k])
  {
    if cs != [] {
      var init, c := cs[..|cs| - 1], cs[|cs| - 1];
      DirectJoinsExactly(g, init, to, nullOk, excl, j);
      DirectOfColumnExactly(g, c, c.references, to, nullOk, excl, j);
      if exists i, k :: 0 <= i < |cs| && 0 <= k < |cs[i].references| &&
          DirectMatch(g, cs[i].references[k], to, nullOk, excl) && j == Join(cs[i], cs[i].references[k]) {
        var i, k :| 0 <= i < |cs| && 0 <= k < |cs[i].references| &&
          DirectMatch(g, cs[i].references[k], to, nullOk, excl) && j == Join(cs[i], cs[i].references[k]);
        if i < |cs| - 1 {
          assert init[i] == cs[i];
        }
      }
    }
  }

  /** The path through reference r of column c: a join to r's table followed by a path from there. */
  ghost predicate IsCandidate(g: Graph, c: Column, r: ColumnRef, to: string, nullOk: bool,
                              excl: set<string>, x: seq<Join>)
  {
    Eligible(c, nullOk) && r.tableName !in excl &&
    Joins(g, r.tableName, to, nullOk, excl) != [] &&
    x == [Join(c, r)] + Joins(g, r.tableName, to, nullOk, excl)
  }

  lemma {:induction false} ColumnCandidatesExactly(g: Graph, c: Column, refs: seq<ColumnRef>, to: string,
                                                    nullOk: bool, excl: set<string>, x: seq<Join>)
    requires Eligible(c, nullOk)
    ensures x in ColumnCandidates(g, c, refs, to, nullOk, excl) <==>
      exists k :: 0 <= k < |refs| && IsCandidate(g, c, refs[k], to, nullOk, excl, x)
  {
    if refs != [] {
      var init := refs[..|refs| - 1];
      ColumnCandidatesExactly(g, c, init, to, nullOk, excl, x);
      if exists k :: 0 <= k < |refs| && IsCandidate(g, c, refs[k], to, nullOk, excl, x) {
        var k :| 0 <= k < |refs| && IsCandidate(g, c, refs[k], to, nullOk, excl, x);
        if k < |refs| - 1 {
          assert init[k] == refs[k];
        }
      }
    }
  }

  /** The candidates are exactly the non-empty paths through the eligible columns' references. */
  lemma {:induction false} CandidatesExactly(g: Graph, cs: seq<Column>, to: string, nullOk: bool,
                                              excl: set<string>, x: seq<Join>)
    ensures x in Candidates(g, cs, to, nullOk, excl) <==>
      exists i, k :: 0 <= i < |cs| && 0 <= k < |cs[i].references| &&
        IsCandidate(g, cs[i], cs[i].references[k], to, nullOk, excl, x)
  {
    if cs != [] {
      var init, c := cs[..|cs| - 1], cs[|cs| - 1];
      CandidatesExactly(g, init, to, nullOk, excl, x);
      if Eligible(c, nullOk) {
        ColumnCandidatesExactly(g, c, c.references, to, nullOk, excl, x);
      }
      if exists i, k :: 0 <= i < |cs| && 0 <= k < |cs[i].references| &&
          IsCandidate(g, cs[i], cs[i].references[k], to, nullOk, excl, x) {
        var i, k :| 0 <= i < |cs| && 0 <= k < |cs[i].references| &&
          IsCandidate(g, cs[i], cs[i].references[k], to, nullOk, excl, x);
        if i < |cs| - 1 {
          assert init[i] == cs[i];
        }
      }
    }
  }

  /** Column c is the column of table `from` stored under its name. */
  ghost predicate FromColumn(g: Graph, c: Column, from: string) {
    from in g && c.id.columnName in g[from].columns && g[from].columns[c.id.columnName] == c
  }

  ghost predicate DirectJoin(g: Graph, j: Join, from: string, to: string, nullOk: bool, excl: set<string>) {
    FromColumn(g, j.foreignKey, from) && j.primaryKey in j.foreignKey.references &&
    DirectMatch(g, j.primaryKey, to, nullOk, excl)
  }

  ghost predicate StepJoin(g: Graph, j: Join, from: string, nullOk: bool, excl: set<string>) {
    FromColumn(g, j.foreignKey, from) && Eligible(j.foreignKey, nullOk) &&
    j.primaryKey in j.foreignKey.references && j.primaryKey.tableName !in excl
  }

  /**
   * The shape of a getJoins result: either every join leads directly from `from` to `to`, or the
   * first join leads to a table from which the rest is again such a result, with `from` excluded.
   */
  ghost predicate Chain(g: Graph, js: seq<Join>, from: string, to: string, nullOk: bool, excl: set<string>)
    decreases |js|
  {
    from !in excl && |js| > 0 &&
    ((forall i :: 0 <= i < |js| ==> DirectJoin(g, js[i], from, to, nullOk, excl + {from})) ||
     (|js| > 1 && StepJoin(g, js[0], from, nullOk, excl + {from}) &&
      Chain(g, js[1..], js[0].primaryKey.tableName, to, nullOk, excl + {from})))
  }

  lemma ColumnIsFromColumn(g: Graph, from: string, i: int)
    requires WellFormed(g) && from in g && 0 <= i < |g[from].order|
    ensures FromColumn(g, g[from].Columns()[i], from)
  {
    ColumnsOfWellFormed(g, from);
  }

  /** Every direct join found from `from` passes the direct test. */
  lemma DirectJoinsAreDirect(g: Graph, from: string, to: string, nullOk: bool, excl: set<string>, j: Join)
    requires WellFormed(g) && from in g
    requires j in DirectJoins(g, g[from].Columns(), to, nullOk, excl)
    ensures DirectJoin(g, j, from, to, nullOk, excl)
  {
    var cs := g[from].Columns();
    DirectJoinsExactly(g, cs, to, nullOk, excl, j);
    var i, k :| 0 <= i < |cs| && 0 <= k < |cs[i].references| &&
      DirectMatch(g, cs[i].references[k], to, nullOk, excl) && j == Join(cs[i], cs[i].references[k]);
    ColumnIsFromColumn(g, from, i);
  }

  /** Without direct joins, a non-empty result is a step through a followed reference plus a sub-result. */
  lemma ChosenCandidate(g: Graph, from: string, to: string, nullOk: bool, excl: set<string>) returns (r: ColumnRef)
    requires WellFormed(g) && from in g && from !in excl
    requires DirectJoins(g, g[from].Columns(), to, nullOk, excl + {from}) == []
    requires Joins(g, from, to, nullOk, excl) != []
    ensures Resolves(g, r) && r.tableName !in excl + {from}
    ensures var js := Joins(g, from, to, nullOk, excl);
      |js| > 1 && StepJoin(g, js[0], from, nullOk, excl + {from}) && js[0].primaryKey == r &&
      js[1..] == Joins(g, r.tableName, to, nullOk, excl + {from})
  {
    var inner := excl + {from};
    var cs := g[from].Columns();
    var cands := Candidates(g, cs, to, nullOk, inner);
    forall n | 0 <= n < |cands|
      ensures cands[n] != []
    {
      CandidatesExactly(g, cs, to, nullOk, inner, cands[n]);
    }
    FirstShortestIsFirstOfShortest(cands);
    var js := FirstShortest(cands);
    CandidatesExactly(g, cs, to, nullOk, inner, js);
    var i, k :| 0 <= i < |cs| && 0 <= k < |cs[i].references| &&
      IsCandidate(g, cs[i], cs[i].references[k], to, nullOk, inner, js);
    r := cs[i].references[k];
    ColumnIsFromColumn(g, from, i);
  }

  /** Every non-empty getJoins result has the shape of a Chain. */
  lemma {:induction false} JoinsAreChains(g: Graph, from: string, to: string, nullOk: bool, excl: set<string>)
    requires WellFormed(g) && (from in excl || from in g)
    ensures Joins(g, from, to, nullOk, excl) != [] ==> Chain(g, Joins(g, from, to, nullOk, excl), from, to, nullOk, excl)
    decreases |g.Keys - excl|
  {
    var js := Joins(g, from, to, nullOk, excl);
    if from !in excl && js != [] {
      var inner := excl + {from};
      ColumnsOfWellFormed(g, from);
      var direct := DirectJoins(g, g[from].Columns(), to, nullOk, inner);
      if direct != [] {
        forall n | 0 <= n < |js|
          ensures DirectJoin(g, js[n], from, to, nullOk, inner)
        {
          DirectJoinsAreDirect(g, from, to, nullOk, inner, js[n]);
        }
      } else {
        var r := ChosenCandidate(g, from, to, nullOk, excl);
        ExcludeOneCard(g.Keys, excl, from, {from});
        JoinsAreChains(g, r.tableName, to, nullOk, inner);
      }
    }
  }

  /**
   * A Chain starts at `from`, ends at `to`, follows real foreign keys, and never enters an
   * excluded table.
   */
  lemma {:induction false} ChainProperties(g: Graph, js: seq<Join>, from: string, to: string, nullOk: bool,
                                            excl: set<string>)
    requires WellFormed(g) && Chain(g, js, from, to, nullOk, excl)
    ensures js[0].foreignKey.id.tableName == from
    ensures js[|js| - 1].primaryKey.tableName == to
    ensures forall i :: 0 <= i < |js| ==>
      js[i].primaryKey in js[i].foreignKey.references &&
      js[i].foreignKey.id.tableName in g && js[i].foreignKey.id.tableName !in excl &&
      js[i].primaryKey.tableName !in excl
    decreases |js|
  {
    var inner := excl + {from};
    assert ColumnWellFormed(g, from, js[0].foreignKey.id.columnName, js[0].foreignKey);
    if !(forall i :: 0 <= i < |js| ==> DirectJoin(g, js[i], from, to, nullOk, inner)) {
      var rest := js[1..];
      ChainProperties(g, rest, js[0].primaryKey.tableName, to, nullOk, inner);
      assert js[|js| - 1] == rest[|rest| - 1];
      forall i | 1 <= i < |js|
        ensures js[i] == rest[i - 1]
      {
      }
    } else {
      forall i | 0 <= i < |js|
        ensures js[i].foreignKey.id.tableName == from
      {
        assert ColumnWellFormed(g, from, js[i].foreignKey.id.columnName, js[i].foreignKey);
      }
    }
  }

  /** Some column of `from` has a reference that passes the direct test. */
  ghost predicate HasDirect(g: Graph, from: string, to: string, nullOk: bool, excl: set<string>)
    requires from in g
  {
    exists n, k :: n in g[from].columns && 0 <= k < |g[from].columns[n].references| &&
      DirectMatch(g, g[from].columns[n].references[k], to, nullOk, excl + {from})
  }

  /** Column c's reference r is followed and leads to `to`. */
  ghost predicate LeadsTo(g: Graph, c: Column, r: ColumnRef, to: string, nullOk: bool, excl: set<string>) {
    Eligible(c, nullOk) && r.tableName !in excl && Joins(g, r.tableName, to, nullOk, excl) != []
  }

  lemma ColumnIndex(g: Graph, from: string, n: string) returns (i: int)
    requires WellFormed(g) && from in g && n in g[from].columns
    ensures 0 <= i < |g[from].order| && g[from].Columns()[i] == g[from].columns[n]
  {
    i :| 0 <= i < |g[from].order| && g[from].order[i] == n;
  }

  /** When a direct match exists, the result is made of direct joins and holds every one of them. */
  lemma JoinsDirect(g: Graph, from: string, to: string, nullOk: bool, excl: set<string>)
    requires WellFormed(g) && from in g && from !in excl && HasDirect(g, from, to, nullOk, excl)
    ensures var js := Joins(g, from, to, nullOk, excl);
      js != [] &&
      (forall i :: 0 <= i < |js| ==> DirectJoin(g, js[i], from, to, nullOk, excl + {from})) &&
      (forall n, k ::
        (n in g[from].columns && 0 <= k < |g[from].columns[n].references| &&
         DirectMatch(g, g[from].columns[n].references[k], to, nullOk, excl + {from})) ==>
        Join(g[from].columns[n], g[from].columns[n].references[k]) in js)
  {
    var inner := excl + {from};
    ColumnsOfWellFormed(g, from);
    var cs := g[from].Columns();
    var n, k :| n in g[from].columns && 0 <= k < |g[from].columns[n].references| &&
      DirectMatch(g, g[from].columns[n].references[k], to, nullOk, inner);
    var i := ColumnIndex(g, from, n);
    DirectJoinsExactly(g, cs, to, nullOk, inner, Join(cs[i], cs[i].references[k]));
    JoinsAreChains(g, from, to, nullOk, excl);
    var js := Joins(g, from, to, nullOk, excl);
    forall n', k' | n' in g[from].columns && 0 <= k' < |g[from].columns[n'].references| &&
        DirectMatch(g, g[from].columns[n'].references[k'], to, nullOk, inner)
      ensures Join(g[from].columns[n'], g[from].columns[n'].references[k']) in js
    {
      var i' := ColumnIndex(g, from, n');
      DirectJoinsExactly(g, cs, to, nullOk, inner, Join(cs[i'], cs[i'].references[k']));
    }
    forall m | 0 <= m < |js|
      ensures DirectJoin(g, js[m], from, to, nullOk, inner)
    {
      DirectJoinsExactly(g, cs, to, nullOk, inner, js[m]);
      var a, b :| 0 <= a < |cs| && 0 <= b < |cs[a].references| &&
        DirectMatch(g, cs[a].references[b], to, nullOk, inner) && js[m] == Join(cs[a], cs[a].references[b]);
      ColumnIsFromColumn(g, from, a);
    }
  }

  /**
   * Without a direct match, the result is no longer than the path through any followed reference,
   * and it is one of those paths.
   */
  lemma JoinsShortest(g: Graph, from: string, to: string, nullOk: bool, excl: set<string>, n: string, k: int)
    requires WellFormed(g) && from in g && from !in excl && !HasDirect(g, from, to, nullOk, excl)
    requires n in g[from].columns && 0 <= k < |g[from].columns[n].references|
    requires LeadsTo(g, g[from].columns[n], g[from].columns[n].references[k], to, nullOk, excl + {from})
    ensures var js, r := Joins(g, from, to, nullOk, excl), g[from].columns[n].references[k];
      js != [] && |js| <= 1 + |Joins(g, r.tableName, to, nullOk, excl + {from})|
  {
    var inner := excl + {from};
    ColumnsOfWellFormed(g, from);
    var cs := g[from].Columns();
    NoDirectMeansNoDirectJoins(g, from, to, nullOk, excl);
    var i := ColumnIndex(g, from, n);
    var r := cs[i].references[k];
    var cands := Candidates(g, cs, to, nullOk, inner);
    CandidatesExactly(g, cs, to, nullOk, inner, [Join(cs[i], r)] + Joins(g, r.tableName, to, nullOk, inner));
    forall m | 0 <= m < |cands|
      ensures cands[m] != []
    {
      CandidatesExactly(g, cs, to, nullOk, inner, cands[m]);
    }
    FirstShortestIsFirstOfShortest(cands);
  }

  lemma NoDirectMeansNoDirectJoins(g: Graph, from: string, to: string, nullOk: bool, excl: set<string>)
    requires WellFormed(g) && from in g && !HasDirect(g, from, to, nullOk, excl)
    ensures DirectJoins(g, g[from].Columns(), to, nullOk, excl + {from}) == []
  {
    ColumnsOfWellFormed(g, from);
    var cs := g[from].Columns();
    var direct := DirectJoins(g, cs, to, nullOk, excl + {from});
    if direct != [] {
      DirectJoinsExactly(g, cs, to, nullOk, excl + {from}, direct[0]);
      assert false;
    }
  }

  /** getJoins finds nothing exactly when there is neither a direct match nor a followed reference that leads on. */
  lemma JoinsEmptyExactly(g: Graph, from: string, to: string, nullOk: bool, excl: set<string>)
    requires WellFormed(g) && from in g && from !in excl
    ensures Joins(g, from, to, nullOk, excl) == [] <==>
      !HasDirect(g, from, to, nullOk, excl) &&
      forall n, k :: n in g[from].columns && 0 <= k < |g[from].columns[n].references| ==>
        !LeadsTo(g, g[from].columns[n], g[from].columns[n].references[k], to, nullOk, excl + {from})
  {
    if HasDirect(g, from, to, nullOk, excl) {
      JoinsDirect(g, from, to, nullOk, excl);
    } else {
      var inner := excl + {from};
      ColumnsOfWellFormed(g, from);
      var cs := g[from].Columns();
      NoDirectMeansNoDirectJoins(g, from, to, nullOk, excl);
      var cands := Candidates(g, cs, to, nullOk, inner);
      forall m | 0 <= m < |cands|
        ensures cands[m] != []
      {
        CandidatesExactly(g, cs, to, nullOk, inner, cands[m]);
      }
      FirstShortestIsFirstOfShortest(cands);
      forall n, k | n in g[from].columns && 0 <= k < |g[from].columns[n].references| &&
          LeadsTo(g, g[from].columns[n], g[from].columns[n].references[k], to, nullOk, inner)
        ensures Joins(g, from, to, nullOk, excl) != []
      {
        JoinsShortest(g, from, to, nullOk, excl, n, k);
      }
      if cands != [] {
        CandidatesExactly(g, cs, to, nullOk, inner, cands[0]);
        var i, k :| 0 <= i < |cs| && 0 <= k < |cs[i].references| &&
          IsCandidate(g, cs[i], cs[i].references[k], to, nullOk, inner, cands[0]);
        assert g[from].order[i] in g[from].columns;
      }
    }
  }

  /** A table already excluded yields no joins. */
  lemma JoinsFromExcluded(g: Graph, from: string, to: string, nullOk: bool, excl: set<string>)
    requires WellFormed(g) && from in excl
    ensures Joins(g, from, to, nullOk, excl) == []
  {
  }
}
